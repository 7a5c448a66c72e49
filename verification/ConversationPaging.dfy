/**
 * Keyset paging over conversations: the union of two bounded branches, one more
 * row than the page holds, a response budget that may drop rows again, and a
 * cursor made from the last row kept. A listed row is named by its sort key.
 */
module ConversationPaging {
  import opened Common

  datatype Row = Row(a: int, b: int, originType: Option<string>, status: int, messages: int, lastSender: int,
                     updatedAt: int)

  /** The sort key of a conversation, which is also its cursor. */
  datatype Key = Key(updatedAt: int, id: int)

  datatype OriginFilter = AnyOrigin | OnlyOrigin(originType: string) | Unbroken

  /** The cursor is absent on the first page. */
  datatype Query = Query(viewer: int, filter: OriginFilter, cursor: Option<Key>, limit: int)

  datatype Response = Page(rows: seq<Key>, next: Option<Key>, hasMore: bool) | TooLarge | InvalidCursor

  // ------------------------------------------------------------ the row order

  /** Newer rows come first; among equally new ones the larger identifier. */
  predicate Before(left: Key, right: Key) {
    left.updatedAt > right.updatedAt || (left.updatedAt == right.updatedAt && left.id > right.id)
  }

  predicate IsNewest(m: Key, rows: set<Key>) {
    m in rows && forall y | y in rows && y != m :: Before(m, y)
  }

  lemma {:induction false} NewestExists(rows: set<Key>)
    requires rows != {}
    ensures exists m :: IsNewest(m, rows)
    decreases |rows|
  {
    var x :| x in rows;
    var rest := rows - {x};
    if rest == {} {
      assert forall y | y in rows :: y == x || y in rest;
      assert IsNewest(x, rows);
    } else {
      NewestExists(rest);
      var m :| IsNewest(m, rest);
      assert forall y | y in rows :: y == x || y in rest;
      assert IsNewest(if Before(m, x) then m else x, rows);
    }
  }

  function Newest(rows: set<Key>): (m: Key)
    requires rows != {}
    ensures IsNewest(m, rows)
  {
    NewestExists(rows);
    var m :| m in rows && IsNewest(m, rows);
    m
  }

  /** ORDER BY newest first, LIMIT `k`. */
  function TopK(rows: set<Key>, k: nat): seq<Key>
    decreases k
  {
    if k == 0 || rows == {} then []
    else [Newest(rows)] + TopK(rows - {Newest(rows)}, k - 1)
  }

  lemma {:induction false} TopKLength(rows: set<Key>, k: nat)
    ensures |TopK(rows, k)| == Min(k, |rows|)
    decreases k
  {
    if k > 0 && rows != {} {
      TopKLength(rows - {Newest(rows)}, k - 1);
      assert |rows - {Newest(rows)}| == |rows| - 1;
    }
  }

  /** All rows, newest first. */
  function Ordered(rows: set<Key>): seq<Key>
    decreases |rows|
  {
    if rows == {} then [] else [Newest(rows)] + Ordered(rows - {Newest(rows)})
  }

  function Listed(rows: seq<Key>): set<Key> {
    set r | r in rows
  }

  lemma ListedCons(head: Key, tail: seq<Key>)
    ensures Listed([head] + tail) == {head} + Listed(tail)
  {
  }

  lemma TopKStep(rows: set<Key>, k: nat)
    requires k > 0 && rows != {}
    ensures TopK(rows, k) == [Newest(rows)] + TopK(rows - {Newest(rows)}, k - 1)
    ensures Listed(TopK(rows, k)) == {Newest(rows)} + Listed(TopK(rows - {Newest(rows)}, k - 1))
  {
    ListedCons(Newest(rows), TopK(rows - {Newest(rows)}, k - 1));
  }

  lemma {:induction false} TopKIsSubset(rows: set<Key>, k: nat)
    ensures Listed(TopK(rows, k)) <= rows
    decreases k
  {
    if k > 0 && rows != {} {
      TopKIsSubset(rows - {Newest(rows)}, k - 1);
      TopKStep(rows, k);
    }
  }

  predicate Descending(rows: seq<Key>) {
    forall i, j | 0 <= i < j < |rows| :: Before(rows[i], rows[j])
  }

  lemma DescendingCons(head: Key, tail: seq<Key>)
    requires Descending(tail) && forall x | x in Listed(tail) :: Before(head, x)
    ensures Descending([head] + tail)
  {
    var rows := [head] + tail;
    forall i, j | 0 <= i < j < |rows| ensures Before(rows[i], rows[j]) {
      if i == 0 {
        assert tail[j - 1] in Listed(tail);
      } else {
        assert Before(tail[i - 1], tail[j - 1]);
      }
    }
  }

  /** A full listing contains every row once, newest first. */
  lemma {:induction false} OrderedListsAll(rows: set<Key>)
    ensures Listed(Ordered(rows)) == rows && Descending(Ordered(rows))
    decreases |rows|
  {
    if rows != {} {
      var m := Newest(rows);
      OrderedListsAll(rows - {m});
      ListedCons(m, Ordered(rows - {m}));
      DescendingCons(m, Ordered(rows - {m}));
    }
  }

  lemma {:induction false} TopKPrefix(rows: set<Key>, k: nat, j: nat)
    requires j <= k
    ensures j <= |TopK(rows, k)| ==> TopK(rows, k)[..j] == TopK(rows, j)
    decreases j
  {
    if j > 0 && rows != {} {
      TopKPrefix(rows - {Newest(rows)}, k - 1, j - 1);
      TopKStep(rows, k);
      TopKStep(rows, j);
      var rest := TopK(rows - {Newest(rows)}, k - 1);
      if j <= |TopK(rows, k)| {
        assert ([Newest(rows)] + rest)[..j] == [Newest(rows)] + rest[..j - 1];
      }
    }
  }

  lemma RemovedTwice(rows: set<Key>, m: Key, part: set<Key>)
    ensures rows - ({m} + part) == rows - {m} - part
  {
  }

  /** The first `k` rows, then the order of the others. */
  lemma {:induction false} TopKSplits(rows: set<Key>, k: nat)
    ensures Ordered(rows) == TopK(rows, k) + Ordered(rows - Listed(TopK(rows, k)))
    decreases k
  {
    if k == 0 || rows == {} {
      assert rows - Listed([]) == rows;
    } else {
      var m := Newest(rows);
      var tail := TopK(rows - {m}, k - 1);
      TopKSplits(rows - {m}, k - 1);
      RemovedTwice(rows, m, Listed(tail));
      TopKStep(rows, k);
      var others := Ordered(rows - {m} - Listed(tail));
      assert [m] + (tail + others) == ([m] + tail) + others;
    }
  }

  function Behind(rows: set<Key>, last: Key): set<Key> {
    set r | r in rows && Before(last, r)
  }

  /** The rows behind the last of the first `k` are exactly the ones not among them. */
  lemma {:induction false} TopKBoundary(rows: set<Key>, k: nat)
    requires k >= 1 && rows != {}
    ensures TopK(rows, k) != []
    ensures Behind(rows, TopK(rows, k)[|TopK(rows, k)| - 1]) == rows - Listed(TopK(rows, k))
    decreases k
  {
    var m := Newest(rows);
    var rest := rows - {m};
    TopKStep(rows, k);
    if k == 1 || rest == {} {
      assert TopK(rest, k - 1) == [];
      assert Behind(rows, m) == rows - {m};
    } else {
      TopKBoundary(rest, k - 1);
      TopKIsSubset(rest, k - 1);
      var tail := TopK(rest, k - 1);
      var last := tail[|tail| - 1];
      assert last in Listed(tail);
      assert Behind(rows, last) == Behind(rest, last);
      assert rows - ({m} + Listed(tail)) == rest - Listed(tail);
    }
  }

  /** What two bounded branches contribute to the merged list. */
  function MergedTop(left: set<Key>, right: set<Key>, kLeft: nat, kRight: nat): set<Key> {
    Listed(TopK(left, kLeft)) + Listed(TopK(right, kRight))
  }

  /** A subset that contains the newest row has the same newest row. */
  lemma NewestOfSubset(rows: set<Key>, part: set<Key>)
    requires part <= rows && rows != {} && Newest(rows) in part
    ensures Newest(part) == Newest(rows)
  {
  }

  /** When the newest row is in the left branch, it heads that branch's list and the merged list. */
  lemma MergedTopStep(left: set<Key>, right: set<Key>, kLeft: nat, kRight: nat)
    requires left !! right && kLeft > 0 && left + right != {} && Newest(left + right) in left
    ensures MergedTop(left, right, kLeft, kRight) != {}
        && Newest(MergedTop(left, right, kLeft, kRight)) == Newest(left + right)
    ensures MergedTop(left, right, kLeft, kRight) - {Newest(left + right)}
         == MergedTop(left - {Newest(left + right)}, right, kLeft - 1, kRight)
  {
    var m := Newest(left + right);
    NewestOfSubset(left + right, left);
    TopKStep(left, kLeft);
    TopKIsSubset(left - {m}, kLeft - 1);
    TopKIsSubset(right, kRight);
    assert m in MergedTop(left, right, kLeft, kRight);
    NewestOfSubset(left + right, MergedTop(left, right, kLeft, kRight));
  }

  lemma SameHead(left: set<Key>, right: set<Key>, k: nat)
    requires k > 0 && left != {} && right != {} && Newest(left) == Newest(right)
    requires TopK(left - {Newest(left)}, k - 1) == TopK(right - {Newest(right)}, k - 1)
    ensures TopK(left, k) == TopK(right, k)
  {
  }

  /** The newest `k` of two branches are the newest `k` of the newest rows of each branch. */
  lemma {:induction false} TopKOfUnion(left: set<Key>, right: set<Key>, kLeft: nat, kRight: nat, k: nat)
    requires left !! right && k <= kLeft && k <= kRight
    ensures TopK(MergedTop(left, right, kLeft, kRight), k) == TopK(left + right, k)
    decreases k, 1, if left + right != {} && Newest(left + right) in left then 0 else 1
  {
    if left + right == {} {
      assert MergedTop(left, right, kLeft, kRight) == {};
    } else if k > 0 && Newest(left + right) in left {
      TopKOfUnionLeft(left, right, kLeft, kRight, k);
    } else if k > 0 {
      assert right + left == left + right;
      TopKOfUnion(right, left, kRight, kLeft, k);
      assert MergedTop(left, right, kLeft, kRight) == MergedTop(right, left, kRight, kLeft);
    }
  }

  lemma {:induction false} TopKOfUnionLeft(left: set<Key>, right: set<Key>, kLeft: nat, kRight: nat, k: nat)
    requires left !! right && 0 < k <= kLeft && k <= kRight && left + right != {} && Newest(left + right) in left
    ensures TopK(MergedTop(left, right, kLeft, kRight), k) == TopK(left + right, k)
    decreases k, 0, 0
  {
    var m := Newest(left + right);
    MergedTopStep(left, right, kLeft, kRight);
    TopKOfUnion(left - {m}, right, kLeft - 1, kRight, k - 1);
    assert (left - {m}) + right == (left + right) - {m};
    SameHead(MergedTop(left, right, kLeft, kRight), left + right, k);
  }

  // ---------------------------------------------------------------- the query

  type Table = map<int, Row>

  function KeyOf(table: Table, id: int): Key
    requires id in table
  {
    Key(table[id].updatedAt, id)
  }

  /** The conditions both branches share. */
  predicate Matches(q: Query, r: Row, key: Key) {
    && r.status == 0
    && (if q.filter.Unbroken? then r.originType.Some? && r.originType.value != "friend" && r.messages == 1
        && r.lastSender != q.viewer
        else r.messages >= 1)
    && (q.cursor.Some? ==> Before(q.cursor.value, key))
    && (q.filter.OnlyOrigin? ==> r.originType == Some(q.filter.originType))
  }

  function BranchA(table: Table, q: Query): set<Key> {
    set id | id in table && table[id].a == q.viewer && Matches(q, table[id], KeyOf(table, id)) :: KeyOf(table, id)
  }

  function BranchB(table: Table, q: Query): set<Key> {
    set id | id in table && table[id].b == q.viewer && Matches(q, table[id], KeyOf(table, id)) :: KeyOf(table, id)
  }

  /** The two participants of a conversation are different. */
  ghost predicate TwoParticipants(table: Table) {
    forall id | id in table :: table[id].a != table[id].b
  }

  /** The newest rows of the union of the two bounded branches. */
  function Fetch(table: Table, q: Query): seq<Key>
    requires q.limit >= 1
  {
    TopK(MergedTop(BranchA(table, q), BranchB(table, q), q.limit + 1, q.limit + 1), q.limit + 1)
  }

  /** What the viewer may see under the filter, from the cursor on. */
  function Visible(table: Table, q: Query): set<Key> {
    set id | id in table && (table[id].a == q.viewer || table[id].b == q.viewer)
        && Matches(q, table[id], KeyOf(table, id))
      :: KeyOf(table, id)
  }

  lemma BranchesMakeVisible(table: Table, q: Query)
    ensures BranchA(table, q) + BranchB(table, q) == Visible(table, q)
    ensures TwoParticipants(table) ==> BranchA(table, q) !! BranchB(table, q)
  {
  }

  lemma FetchIsTopK(table: Table, q: Query)
    requires TwoParticipants(table) && q.limit >= 1
    ensures Fetch(table, q) == TopK(Visible(table, q), q.limit + 1)
  {
    BranchesMakeVisible(table, q);
    TopKOfUnion(BranchA(table, q), BranchB(table, q), q.limit + 1, q.limit + 1, q.limit + 1);
  }

  // ---------------------------------------------------------------- the budget

  /** Whether a response with these rows and this flag fits the budget. */
  type Budget = (seq<Key>, bool) -> bool

  function Trim(rows: seq<Key>, hasMore: bool, fits: Budget): (seq<Key>, bool)
    decreases |rows|
  {
    if |rows| > 1 && !fits(rows, hasMore) then Trim(rows[..|rows| - 1], true, fits) else (rows, hasMore)
  }

  /** The rows and the flag of a page before the last budget check. */
  function Kept(fetched: seq<Key>, limit: nat, fits: Budget): (seq<Key>, bool) {
    Trim(if |fetched| > limit then fetched[..limit] else fetched, |fetched| > limit, fits)
  }

  /** A cursor that is sent must have positive parts. */
  predicate ValidCursor(q: Query) {
    q.cursor.Some? ==> q.cursor.value.updatedAt > 0 && q.cursor.value.id > 0
  }

  function List(table: Table, q: Query, fits: Budget): Response
    requires q.limit >= 1
  {
    var (rows, hasMore) := Kept(Fetch(table, q), q.limit, fits);
    if !ValidCursor(q) then InvalidCursor
    else if !fits(rows, hasMore) then TooLarge
    else Page(rows, if hasMore && rows != [] then Some(rows[|rows| - 1]) else None, hasMore)
  }

  /** Trimming keeps a prefix, never all of a nonempty list away, and says that there is more if it dropped a row. */
  lemma {:induction false} TrimIsPrefix(rows: seq<Key>, hasMore: bool, fits: Budget)
    ensures var (kept, more) := Trim(rows, hasMore, fits);
            && |kept| <= |rows| && kept == rows[..|kept|]
            && (rows != [] ==> kept != [])
            && (more <==> hasMore || |kept| < |rows|)
            && (|kept| > 1 ==> fits(kept, more))
    decreases |rows|
  {
    if |rows| > 1 && !fits(rows, hasMore) {
      TrimIsPrefix(rows[..|rows| - 1], true, fits);
    }
  }

  /** Trimming drops no more than it must: every longer prefix breaks the budget. */
  lemma {:induction false} TrimKeepsTheLongest(rows: seq<Key>, hasMore: bool, fits: Budget, n: nat)
    requires |Trim(rows, hasMore, fits).0| < n <= |rows|
    ensures !fits(rows[..n], hasMore || n < |rows|)
    decreases |rows|
  {
    assert rows[..|rows|] == rows;
    if n < |rows| {
      assert rows[..|rows| - 1][..n] == rows[..n];
      TrimKeepsTheLongest(rows[..|rows| - 1], true, fits, n);
    }
  }

  // ------------------------------------------------------------------ one page

  /**
   * What a viewer sees: a row of theirs that is active, behind the cursor, and
   * passes the filter by its own columns.
   */
  lemma VisibleRow(table: Table, q: Query, id: int)
    requires id in table
    ensures var r := table[id];
            Key(r.updatedAt, id) in Visible(table, q)
            <==> && (r.a == q.viewer || r.b == q.viewer) && r.status == 0
                 && (q.cursor.Some? ==> r.updatedAt < q.cursor.value.updatedAt
                                        || (r.updatedAt == q.cursor.value.updatedAt && id < q.cursor.value.id))
                 && (match q.filter
                     case AnyOrigin => r.messages >= 1
                     case OnlyOrigin(origin) => r.messages >= 1 && r.originType == Some(origin)
                     case Unbroken =>
                       r.messages == 1 && r.lastSender != q.viewer && r.originType.Some?
                       && r.originType.value != "friend")
  {
    assert KeyOf(table, id) == Key(table[id].updatedAt, id);
  }

  lemma KeptOfTop(visible: set<Key>, limit: nat, fits: Budget)
    requires limit >= 1
    ensures var (rows, hasMore) := Kept(TopK(visible, limit + 1), limit, fits);
            && rows == TopK(visible, |rows|) && |rows| <= limit
            && (rows == [] <==> visible == {})
            && (hasMore <==> |rows| < |visible|)
            && (|rows| > 1 ==> fits(rows, hasMore))
  {
    var fetched := TopK(visible, limit + 1);
    var more := |fetched| > limit;
    var start := if more then fetched[..limit] else fetched;
    TrimIsPrefix(start, more, fits);
    var rows := Trim(start, more, fits).0;
    TopKPrefix(visible, limit + 1, |rows|);
    TopKLength(visible, limit + 1);
    assert start[..|rows|] == fetched[..|rows|];
  }

  /**
   * A page is the newest visible rows in order, it is empty only when nothing
   * is visible, and it says that there is more exactly when rows remain. It
   * fails only when its first row alone does not fit.
   */
  lemma PageOfVisible(table: Table, q: Query, fits: Budget)
    requires TwoParticipants(table) && q.limit >= 1
    ensures List(table, q, fits).TooLarge? ==>
              if Visible(table, q) == {} then !fits([], false)
                  else !fits([Newest(Visible(table, q))], |Visible(table, q)| > 1)
    ensures List(table, q, fits).Page? ==>
              var rows, next, hasMore := List(table, q, fits).rows, List(table, q, fits).next,
                  List(table, q, fits).hasMore;
              && rows == TopK(Visible(table, q), |rows|) && |rows| <= q.limit
              && (rows == [] <==> Visible(table, q) == {})
              && (hasMore <==> |rows| < |Visible(table, q)|)
              && next == (if hasMore then Some(rows[|rows| - 1]) else None)
  {
    var visible := Visible(table, q);
    FetchIsTopK(table, q);
    KeptOfTop(visible, q.limit, fits);
    if visible != {} {
      TopKStep(visible, 1);
      assert TopK(visible, 1) == [Newest(visible)];
    }
  }

  /** A page is as long as its limit and the budget allow: one row more would be too many, or too much. */
  lemma PageIsLongest(table: Table, q: Query, fits: Budget, n: nat)
    requires TwoParticipants(table) && q.limit >= 1 && List(table, q, fits).Page?
    requires |List(table, q, fits).rows| < n <= |Visible(table, q)| && n <= q.limit
    ensures !fits(TopK(Visible(table, q), n), n < |Visible(table, q)|)
  {
    hide Visible;
    var visible := Visible(table, q);
    FetchIsTopK(table, q);
    var fetched := TopK(visible, q.limit + 1);
    var start := if |fetched| > q.limit then fetched[..q.limit] else fetched;
    TopKLength(visible, q.limit + 1);
    TrimKeepsTheLongest(start, |fetched| > q.limit, fits, n);
    TopKPrefix(visible, q.limit + 1, n);
    assert start[..n] == fetched[..n];
  }

  // ---------------------------------------------------------- following pages

  /** What is visible from a cursor on is what was visible and comes behind it. */
  lemma VisibleBehind(table: Table, q: Query, last: Key)
    requires last in Visible(table, q)
    ensures Visible(table, q.(cursor := Some(last))) == Behind(Visible(table, q), last)
  {
  }

  /** The rows that remain visible behind a page. */
  lemma NextPageSees(table: Table, q: Query, k: nat)
    requires 1 <= k && Visible(table, q) != {}
    ensures TopK(Visible(table, q), k) != []
    ensures Visible(table, q.(cursor := Some(TopK(Visible(table, q), k)[|TopK(Visible(table, q), k)| - 1])))
         == Visible(table, q) - Listed(TopK(Visible(table, q), k))
  {
    var visible := Visible(table, q);
    var top := TopK(visible, k);
    TopKBoundary(visible, k);
    TopKIsSubset(visible, k);
    assert top[|top| - 1] in Listed(top);
    VisibleBehind(table, q, top[|top| - 1]);
  }

  /** Identifiers and times are positive, so that every key makes a valid cursor. */
  ghost predicate PositiveKeys(table: Table) {
    forall id | id in table :: id > 0 && table[id].updatedAt > 0
  }

  predicate FitsAlone(fits: Budget, rows: set<Key>) {
    fits([], false) && forall r | r in rows :: fits([r], true) && fits([r], false)
  }

  /** Following the cursor of a page leaves exactly the rows the page did not list, and fewer of them. */
  lemma PagesShrink(table: Table, q: Query, fits: Budget)
    requires TwoParticipants(table) && q.limit >= 1 && List(table, q, fits).Page? && List(table, q, fits).hasMore
    ensures List(table, q, fits).next.Some? && List(table, q, fits).rows != []
    ensures Visible(table, q.(cursor := List(table, q, fits).next))
        == Visible(table, q) - Listed(List(table, q, fits).rows)
    ensures |Visible(table, q.(cursor := List(table, q, fits).next))| < |Visible(table, q)|
  {
    PageOfVisible(table, q, fits);
    var visible, rows := Visible(table, q), List(table, q, fits).rows;
    NextPageSees(table, q, |rows|);
    TopKIsSubset(visible, |rows|);
    assert rows[0] in Listed(rows);
    SubsetSize(visible - Listed(rows), visible);
  }

  /** All rows a client collects by following the cursors, choosing a limit for each request; None if a page fails. */
  function FollowPages(table: Table, q: Query, limits: int -> int, request: int, fits: Budget): Option<seq<Key>>
    requires TwoParticipants(table) && forall i :: limits(i) >= 1
    decreases |Visible(table, q)|
  {
    var asked := q.(limit := limits(request));
    assert Visible(table, asked) == Visible(table, q);
    match List(table, asked, fits)
    case TooLarge => None
    case InvalidCursor => None
    case Page(rows, next, hasMore) =>
      if !hasMore then Some(rows)
      else
        PagesShrink(table, asked, fits);
        var rest := FollowPages(table, asked.(cursor := next), limits, request + 1, fits);
        if rest.None? then None else Some(rows + rest.value)
  }

  lemma RowsLeft(rows: set<Key>, k: nat)
    requires |TopK(rows, k)| >= |rows|
    ensures rows - Listed(TopK(rows, k)) == {}
  {
    TopKIsSubset(rows, k);
    TopKSplits(rows, k);
    OrderedLength(rows);
    OrderedLength(rows - Listed(TopK(rows, k)));
  }

  lemma {:induction false} OrderedLength(rows: set<Key>)
    ensures |Ordered(rows)| == |rows|
    decreases |rows|
  {
    if rows != {} {
      OrderedLength(rows - {Newest(rows)});
    }
  }

  lemma NextQueryOk(table: Table, q: Query, fits: Budget)
    requires TwoParticipants(table) && PositiveKeys(table) && q.limit >= 1 && FitsAlone(fits, Visible(table, q))
    requires List(table, q, fits).Page? && List(table, q, fits).hasMore
    ensures ValidCursor(q.(cursor := List(table, q, fits).next))
    ensures FitsAlone(fits, Visible(table, q.(cursor := List(table, q, fits).next)))
  {
    PagesShrink(table, q, fits);
    PageOfVisible(table, q, fits);
    var rows := List(table, q, fits).rows;
    TopKIsSubset(Visible(table, q), |rows|);
    assert rows[|rows| - 1] in Listed(rows);
  }

  lemma PageSplits(table: Table, q: Query, fits: Budget)
    requires TwoParticipants(table) && q.limit >= 1 && List(table, q, fits).Page?
    ensures Ordered(Visible(table, q))
        == List(table, q, fits).rows + Ordered(Visible(table, q) - Listed(List(table, q, fits).rows))
    ensures !List(table, q, fits).hasMore ==> Ordered(Visible(table, q)) == List(table, q, fits).rows
  {
    PageOfVisible(table, q, fits);
    var rows := List(table, q, fits).rows;
    TopKSplits(Visible(table, q), |rows|);
    if !List(table, q, fits).hasMore {
      RowsLeft(Visible(table, q), |rows|);
      assert rows + [] == rows;
    }
  }

  /**
   * Over a fixed table whose keys are positive and whose rows each fit the
   * budget alone, following the cursors lists every visible conversation exactly
   * once, newest first, whatever limits are asked for and however many rows the
   * budget drops.
   */
  lemma {:induction false} PagesListEverythingOnce(table: Table, q: Query, limits: int -> int, request: int,
                                                   fits: Budget)
    requires TwoParticipants(table) && PositiveKeys(table) && (forall i :: limits(i) >= 1)
    requires ValidCursor(q) && FitsAlone(fits, Visible(table, q))
    ensures FollowPages(table, q, limits, request, fits) == Some(Ordered(Visible(table, q)))
    decreases |Visible(table, q)|
  {
    var asked := q.(limit := limits(request));
    assert Visible(table, asked) == Visible(table, q);
    PageOfVisible(table, asked, fits);
    assert List(table, asked, fits).Page?;
    PageSplits(table, asked, fits);
    if List(table, asked, fits).hasMore {
      PagesShrink(table, asked, fits);
      NextQueryOk(table, asked, fits);
      PagesListEverythingOnce(table, asked.(cursor := List(table, asked, fits).next), limits, request + 1, fits);
    }
  }

  // -------------------------------------------------------------- the handler

  /** The handler: fetch one row too many, cut it off, then drop rows until the response fits. */
  method ListConversations(table: Table, q: Query, fits: Budget) returns (response: Response)
    requires q.limit >= 1
    ensures response == List(table, q, fits)
  {
    if q.cursor.Some? && (q.cursor.value.updatedAt <= 0 || q.cursor.value.id <= 0) { return InvalidCursor; }
    var rows := Fetch(table, q);
    var hasMore := |rows| > q.limit;
    if hasMore { rows := rows[..q.limit]; }
    var nextCursor := None;
    if hasMore && |rows| > 0 { nextCursor := Some(rows[|rows| - 1]); }
    ghost var start := Trim(rows, hasMore, fits);
    while |rows| > 1 && !fits(rows, hasMore)
      invariant Trim(rows, hasMore, fits) == start
      invariant nextCursor == if hasMore && rows != [] then Some(rows[|rows| - 1]) else None
      decreases |rows|
    {
      rows := rows[..|rows| - 1];
      hasMore := true;
      nextCursor := Some(rows[|rows| - 1]);
    }
    if !fits(rows, hasMore) { return TooLarge; }
    response := Page(rows, nextCursor, hasMore);
  }
}
