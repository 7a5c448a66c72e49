/**
 * The authoritative write of an attention publish: under the per-agent lock it
 * filters known items, checks the hourly quotas against committed rows and
 * inserts the rest. `created_at` comes from the application clock, so it may
 * run backwards between publishes or lie in the future.
 */
module PublishQuota {
  import opened Common

  const WINDOW := 3_600_000
  const TOTAL_LIMIT := 20
  const PARTICIPATION_LIMIT := 4
  const FOCUS_LIMIT := 16
  const BATCH_MAX := 10

  datatype Surface = Participation | Focus
  datatype Draft = Draft(clientId: string, surface: Surface, hash: string)
  datatype Row = Row(agent: int, clientId: string, surface: Surface, hash: string, createdAt: int)
  datatype Receipt = Receipt(hash: string, accepted: int)
  datatype Ledger = Ledger(rows: seq<Row>, receipts: map<(int, string), Receipt>)

  // ------------------------------------------------------------ counting rows

  datatype Filter = Filter(agent: int, from: int, to: Option<int>, surface: Option<Surface>)

  predicate Matches(f: Filter, r: Row) {
    && r.agent == f.agent && f.from <= r.createdAt
    && (f.to.Some? ==> r.createdAt <= f.to.value)
    && (f.surface.Some? ==> r.surface == f.surface.value)
  }

  function Count(rows: seq<Row>, f: Filter): nat {
    if rows == [] then 0
    else Count(rows[..|rows| - 1], f) + (if Matches(f, rows[|rows| - 1]) then 1 else 0)
  }

  /** The committed rows the quota query counts: everything stamped at or after the cutoff, however late. */
  function Since(rows: seq<Row>, agent: int, cutoff: int, surface: Option<Surface>): nat {
    Count(rows, Filter(agent, cutoff, None, surface))
  }

  /** Rows stamped inside the closed hour that starts at `start`. */
  function InHour(rows: seq<Row>, agent: int, start: int, surface: Option<Surface>): nat {
    Count(rows, Filter(agent, start, Some(start + WINDOW), surface))
  }

  // ------------------------------------------------------- the batch functions

  /** The hashes of an agent's stored items, by client identifier. */
  function StoredHashes(rows: seq<Row>, agent: int): map<string, string> {
    if rows == [] then map[]
    else
      var known := StoredHashes(rows[..|rows| - 1], agent);
      var r := rows[|rows| - 1];
      if r.agent == agent then known[r.clientId := r.hash] else known
  }

  /** The items not stored yet, in request order; None when a stored item has other content. */
  function NewItems(items: seq<Draft>, stored: map<string, string>): Option<seq<Draft>> {
    if items == [] then Some([])
    else
      var before := NewItems(items[..|items| - 1], stored);
      var last := items[|items| - 1];
      if before.None? then None
      else if last.clientId !in stored then Some(before.value + [last])
      else if stored[last.clientId] == last.hash then before
      else None
  }

  function SurfaceCount(items: seq<Draft>, surface: Surface): nat {
    if items == [] then 0
    else SurfaceCount(items[..|items| - 1], surface) + (if items[|items| - 1].surface == surface then 1 else 0)
  }

  function Ids(items: seq<Draft>): set<string> {
    set i | 0 <= i < |items| :: items[i].clientId
  }

  predicate DistinctIds(items: seq<Draft>) {
    forall i, j | 0 <= i < j < |items| :: items[i].clientId != items[j].clientId
  }

  predicate ValidBatch(items: seq<Draft>) {
    1 <= |items| <= BATCH_MAX && DistinctIds(items)
  }

  // ------------------------------------------------------------ the write step

  datatype SourceCheck = SourcesOk | SourceForbidden | ContextChanged

  datatype WriteRequest = WriteRequest(
    agent: int, now: int, items: seq<Draft>, candidates: seq<Draft>, key: string, hash: string,
    lockAcquired: bool, sources: SourceCheck)

  datatype Remaining = Remaining(total: int, participation: int, focus: int)

  datatype WriteReply =
    | InvalidBatch | Busy | Conflict | Forbidden | KeyTaken
    | RateLimited(remaining: Remaining)
    | Accepted(inserted: seq<Draft>, remaining: Remaining)

  function QuotaLeft(total: int, participation: int, focus: int): Remaining {
    Remaining(Max(TOTAL_LIMIT - total, 0), Max(PARTICIPATION_LIMIT - participation, 0), Max(FOCUS_LIMIT - focus, 0))
  }

  function RowsOf(agent: int, now: int, items: seq<Draft>): seq<Row> {
    seq(|items|, i requires 0 <= i < |items| => Row(agent, items[i].clientId, items[i].surface, items[i].hash, now))
  }

  predicate WithinQuota(rows: seq<Row>, agent: int, now: int, added: seq<Draft>) {
    && Since(rows, agent, now - WINDOW, None) + |added| <= TOTAL_LIMIT
    && Since(rows, agent, now - WINDOW, Some(Participation)) + SurfaceCount(added, Participation) <= PARTICIPATION_LIMIT
    && Since(rows, agent, now - WINDOW, Some(Focus)) + SurfaceCount(added, Focus) <= FOCUS_LIMIT
  }

  /** What is left of the quotas once `added` is counted as well. */
  function LeftAfter(rows: seq<Row>, agent: int, now: int, added: seq<Draft>): Remaining {
    QuotaLeft(Since(rows, agent, now - WINDOW, None) + |added|,
              Since(rows, agent, now - WINDOW, Some(Participation)) + SurfaceCount(added, Participation),
              Since(rows, agent, now - WINDOW, Some(Focus)) + SurfaceCount(added, Focus))
  }

  function WriteTx(l: Ledger, w: WriteRequest): (Ledger, WriteReply) {
    if !ValidBatch(w.items) then (l, InvalidBatch)
    else if !w.lockAcquired then (l, Busy)
    else
      var added := NewItems(w.items, StoredHashes(l.rows, w.agent));
      if added.None? then (l, Conflict)
      else if !(Ids(added.value) <= Ids(w.candidates)) then (l, Busy)
      else if added.value != [] && !WithinQuota(l.rows, w.agent, w.now, added.value) then
        (l, RateLimited(LeftAfter(l.rows, w.agent, w.now, [])))
      else if added.value != [] && w.sources == SourceForbidden then (l, Forbidden)
      else if added.value != [] && w.sources == ContextChanged then (l, Conflict)
      else if (w.agent, w.key) in l.receipts then (l, KeyTaken)
      else
        (Ledger(l.rows + RowsOf(w.agent, w.now, added.value),
                l.receipts[(w.agent, w.key) := Receipt(w.hash, |added.value|)]),
         Accepted(added.value, LeftAfter(l.rows, w.agent, w.now, added.value)))
  }

  function Run(l: Ledger, writes: seq<WriteRequest>): Ledger
    decreases |writes|
  {
    if writes == [] then l else Run(WriteTx(l, writes[0]).0, writes[1..])
  }

  const EMPTY := Ledger([], map[])

  // ------------------------------------------------------------------- lemmas

  lemma {:induction false} CountConcat(left: seq<Row>, right: seq<Row>, f: Filter)
    ensures Count(left + right, f) == Count(left, f) + Count(right, f)
  {
    if right == [] {
      assert left + right == left;
    } else {
      var n := |right| - 1;
      assert (left + right)[..|left + right| - 1] == left + right[..n];
      CountConcat(left, right[..n], f);
    }
  }

  lemma {:induction false} CountMonotone(rows: seq<Row>, narrow: Filter, wide: Filter)
    requires forall r: Row :: Matches(narrow, r) ==> Matches(wide, r)
    ensures Count(rows, narrow) <= Count(rows, wide)
  {
    if rows != [] {
      CountMonotone(rows[..|rows| - 1], narrow, wide);
    }
  }

  /** A batch stamped `now` adds nothing outside its agent and time, and at most its own size inside. */
  lemma {:induction false} CountBatch(agent: int, now: int, items: seq<Draft>, f: Filter)
    ensures Count(RowsOf(agent, now, items), f)
         == if agent != f.agent || now < f.from || (f.to.Some? && f.to.value < now) then 0
            else if f.surface.Some? then SurfaceCount(items, f.surface.value) else |items|
  {
    if items != [] {
      var n := |items| - 1;
      assert RowsOf(agent, now, items)[..n] == RowsOf(agent, now, items[..n]);
      CountBatch(agent, now, items[..n], f);
    }
  }

  // ------------------------------------------------------- the sliding quotas

  ghost predicate QuotasHold(l: Ledger) {
    forall agent, start ::
      && InHour(l.rows, agent, start, None) <= TOTAL_LIMIT
      && InHour(l.rows, agent, start, Some(Participation)) <= PARTICIPATION_LIMIT
      && InHour(l.rows, agent, start, Some(Focus)) <= FOCUS_LIMIT
  }

  /** One closed hour after one insertion, for one surface filter. */
  lemma HourAfterWrite(rows: seq<Row>, agent: int, now: int, added: seq<Draft>, who: int, start: int,
                       surface: Option<Surface>, limit: int)
    requires InHour(rows, who, start, surface) <= limit
    requires Since(rows, agent, now - WINDOW, surface)
        + (if surface.Some? then SurfaceCount(added, surface.value) else |added|) <= limit
    ensures InHour(rows + RowsOf(agent, now, added), who, start, surface) <= limit
  {
    var hour := Filter(who, start, Some(start + WINDOW), surface);
    CountConcat(rows, RowsOf(agent, now, added), hour);
    CountBatch(agent, now, added, hour);
    if who == agent && start <= now <= start + WINDOW {
      CountMonotone(rows, hour, Filter(agent, now - WINDOW, None, surface));
    }
  }

  lemma WriteKeepsQuotas(l: Ledger, w: WriteRequest)
    requires QuotasHold(l)
    ensures QuotasHold(WriteTx(l, w).0)
  {
    var (l', reply) := WriteTx(l, w);
    if reply.Accepted? {
      var added := reply.inserted;
      if added == [] {
        assert l'.rows == l.rows;
      } else {
        forall agent, start
          ensures InHour(l'.rows, agent, start, None) <= TOTAL_LIMIT
          ensures InHour(l'.rows, agent, start, Some(Participation)) <= PARTICIPATION_LIMIT
          ensures InHour(l'.rows, agent, start, Some(Focus)) <= FOCUS_LIMIT
        {
          HourAfterWrite(l.rows, w.agent, w.now, added, agent, start, None, TOTAL_LIMIT);
          HourAfterWrite(l.rows, w.agent, w.now, added, agent, start, Some(Participation), PARTICIPATION_LIMIT);
          HourAfterWrite(l.rows, w.agent, w.now, added, agent, start, Some(Focus), FOCUS_LIMIT);
        }
      }
    }
  }

  lemma {:induction false} RunKeepsQuotas(l: Ledger, writes: seq<WriteRequest>)
    requires QuotasHold(l)
    ensures QuotasHold(Run(l, writes))
    decreases |writes|
  {
    if writes != [] {
      WriteKeepsQuotas(l, writes[0]);
      RunKeepsQuotas(WriteTx(l, writes[0]).0, writes[1..]);
    }
  }

  /**
   * Whatever clocks stamp the publishes and whatever the reservation phase let
   * through, every closed hour of creation times stays within all three quotas.
   */
  lemma EveryHourWithinQuota(writes: seq<WriteRequest>, agent: int, start: int)
    ensures var rows := Run(EMPTY, writes).rows;
            && InHour(rows, agent, start, None) <= TOTAL_LIMIT
            && InHour(rows, agent, start, Some(Participation)) <= PARTICIPATION_LIMIT
            && InHour(rows, agent, start, Some(Focus)) <= FOCUS_LIMIT
  {
    RunKeepsQuotas(EMPTY, writes);
  }

  // --------------------------------------------------------- what a write answers

  /** After the insertion the quota query counts the new items as well. */
  lemma SinceAfterWrite(rows: seq<Row>, agent: int, now: int, added: seq<Draft>, surface: Option<Surface>)
    ensures Since(rows + RowsOf(agent, now, added), agent, now - WINDOW, surface)
         == Since(rows, agent, now - WINDOW, surface)
            + if surface.Some? then SurfaceCount(added, surface.value) else |added|
  {
    var f := Filter(agent, now - WINDOW, None, surface);
    CountConcat(rows, RowsOf(agent, now, added), f);
    CountBatch(agent, now, added, f);
  }

  /** What a table leaves free of the three quotas at a time. */
  function Free(rows: seq<Row>, agent: int, now: int): Remaining {
    Remaining(Max(20 - Since(rows, agent, now - 3_600_000, None), 0),
              Max(4 - Since(rows, agent, now - 3_600_000, Some(Participation)), 0),
              Max(16 - Since(rows, agent, now - 3_600_000, Some(Focus)), 0))
  }

  /** The unknown items fit beside the rows of the last hour. */
  predicate HourHasRoom(rows: seq<Row>, agent: int, now: int, added: seq<Draft>) {
    && Since(rows, agent, now - 3_600_000, None) + |added| <= 20
    && Since(rows, agent, now - 3_600_000, Some(Participation)) + SurfaceCount(added, Participation) <= 4
    && Since(rows, agent, now - 3_600_000, Some(Focus)) + SurfaceCount(added, Focus) <= 16
  }

  lemma QuotasSpelledOut(rows: seq<Row>, agent: int, now: int, added: seq<Draft>)
    ensures WithinQuota(rows, agent, now, added) <==> HourHasRoom(rows, agent, now, added)
    ensures LeftAfter(rows, agent, now, []) == Free(rows, agent, now)
    ensures LeftAfter(rows, agent, now, added) == Free(rows + RowsOf(agent, now, added), agent, now)
  {
    SinceAfterWrite(rows, agent, now, added, None);
    SinceAfterWrite(rows, agent, now, added, Some(Participation));
    SinceAfterWrite(rows, agent, now, added, Some(Focus));
    assert SurfaceCount([], Participation) == SurfaceCount([], Focus) == 0;
    hide Since, SurfaceCount;
  }

  /**
   * What becomes of a batch whose unknown items are `added`: it is accepted exactly
   * when they were reserved, fit beside the last hour, may use their sources, and
   * the key is new; then their rows are stamped now and the answer is what the
   * table leaves free. A limited batch is told what the table leaves free as it is.
   */
  lemma WriteAnswers(l: Ledger, w: WriteRequest, added: seq<Draft>)
    requires ValidBatch(w.items) && w.lockAcquired && NewItems(w.items, StoredHashes(l.rows, w.agent)) == Some(added)
    ensures var (l', reply) := WriteTx(l, w);
            if !(Ids(added) <= Ids(w.candidates)) then (l', reply) == (l, Busy)
            else if added != [] && !HourHasRoom(l.rows, w.agent, w.now, added) then
              (l', reply) == (l, RateLimited(Free(l.rows, w.agent, w.now)))
            else if added != [] && w.sources == SourceForbidden then (l', reply) == (l, Forbidden)
            else if added != [] && w.sources == ContextChanged then (l', reply) == (l, Conflict)
            else if (w.agent, w.key) in l.receipts then (l', reply) == (l, KeyTaken)
            else
              && reply == Accepted(added, Free(l'.rows, w.agent, w.now))
              && |l'.rows| == |l.rows| + |added| && l.rows <= l'.rows
              && (forall i | 0 <= i < |added| ::
                    l'.rows[|l.rows| + i]
                    == Row(w.agent, added[i].clientId, added[i].surface, added[i].hash, w.now))
              && (w.agent, w.key) in l'.receipts && l'.receipts[(w.agent, w.key)] == Receipt(w.hash, |added|)
  {
    hide StoredHashes, NewItems, Ids, WithinQuota, HourHasRoom, LeftAfter, Free, DistinctIds;
    QuotasSpelledOut(l.rows, w.agent, w.now, added);
  }

  // -------------------------------------------------- one row per client item

  ghost predicate OneRowPerItem(rows: seq<Row>) {
    forall i, j | 0 <= i < j < |rows| :: !(rows[i].agent == rows[j].agent && rows[i].clientId == rows[j].clientId)
  }

  lemma {:induction false} StoredHashesIsLookup(rows: seq<Row>, agent: int)
    ensures forall id :: id in StoredHashes(rows, agent) <==> exists i ::
        0 <= i < |rows| && rows[i].agent == agent && rows[i].clientId == id
  {
    if rows != [] {
      var n := |rows| - 1;
      StoredHashesIsLookup(rows[..n], agent);
      forall id
        ensures id in StoredHashes(rows, agent)
           <==> exists i :: 0 <= i < |rows| && rows[i].agent == agent && rows[i].clientId == id
      {
        if id in StoredHashes(rows[..n], agent) {
          var i :| 0 <= i < n && rows[..n][i].agent == agent && rows[..n][i].clientId == id;
          assert rows[i].agent == agent && rows[i].clientId == id;
        }
        if i :| 0 <= i < |rows| && rows[i].agent == agent && rows[i].clientId == id {
          if i < n {
            assert rows[..n][i] == rows[i];
          }
        }
      }
    }
  }

  lemma {:induction false} NewItemsFailOnConflict(items: seq<Draft>, stored: map<string, string>)
    ensures NewItems(items, stored).None?
       <==> exists i :: 0 <= i < |items| && items[i].clientId in stored && stored[items[i].clientId] != items[i].hash
  {
    if items != [] {
      var n := |items| - 1;
      NewItemsFailOnConflict(items[..n], stored);
      assert forall i | 0 <= i < n :: items[..n][i] == items[i];
    }
  }

  /** Filtering keeps exactly the unknown items, each once, and fails exactly when a known item has other content. */
  lemma {:induction false} NewItemsAreTheUnknown(items: seq<Draft>, stored: map<string, string>)
    requires DistinctIds(items)
    ensures NewItems(items, stored).None?
       <==> exists i :: 0 <= i < |items| && items[i].clientId in stored && stored[items[i].clientId] != items[i].hash
    ensures NewItems(items, stored).Some? ==>
              var added := NewItems(items, stored).value;
              && DistinctIds(added)
              && (forall x :: x in added <==> x in items && x.clientId !in stored)
  {
    NewItemsFailOnConflict(items, stored);
    if items != [] && NewItems(items, stored).Some? {
      var n := |items| - 1;
      var before := items[..n];
      NewItemsAreTheUnknown(before, stored);
      assert items == before + [items[n]];
      var added, kept := NewItems(items, stored).value, NewItems(before, stored).value;
      assert forall i | 0 <= i < |kept| ::
          kept[i] in kept && kept[i] in before && kept[i].clientId != items[n].clientId;
      assert forall x :: x in added <==> x in kept || (x == items[n] && x.clientId !in stored);
    }
  }

  lemma WriteKeepsItemsUnique(l: Ledger, w: WriteRequest)
    requires OneRowPerItem(l.rows)
    ensures OneRowPerItem(WriteTx(l, w).0.rows)
  {
    var (l', reply) := WriteTx(l, w);
    if reply.Accepted? {
      var stored := StoredHashes(l.rows, w.agent);
      NewItemsAreTheUnknown(w.items, stored);
      StoredHashesIsLookup(l.rows, w.agent);
      var n := |l.rows|;
      forall i, j | 0 <= i < j < |l'.rows|
        ensures !(l'.rows[i].agent == l'.rows[j].agent && l'.rows[i].clientId == l'.rows[j].clientId)
      {
        if i < n <= j {
          assert reply.inserted[j - n] in reply.inserted;
        }
      }
    }
  }

  /** After any run each client item has at most one row, and publishing the same batch again inserts nothing. */
  lemma {:induction false} PublishedOnce(l: Ledger, writes: seq<WriteRequest>)
    requires OneRowPerItem(l.rows)
    ensures OneRowPerItem(Run(l, writes).rows)
    decreases |writes|
  {
    if writes != [] {
      WriteKeepsItemsUnique(l, writes[0]);
      PublishedOnce(WriteTx(l, writes[0]).0, writes[1..]);
    }
  }

  lemma FirstIsMember(items: seq<Draft>)
    ensures items != [] ==> items[0] in items
  {
  }

  lemma KnownBatchInsertsNothing(l: Ledger, w: WriteRequest)
    requires forall x | x in w.items :: x.clientId in StoredHashes(l.rows, w.agent)
    ensures WriteTx(l, w).0.rows == l.rows
  {
    if ValidBatch(w.items) {
      NewItemsAreTheUnknown(w.items, StoredHashes(l.rows, w.agent));
      var added := NewItems(w.items, StoredHashes(l.rows, w.agent));
      assert added.Some? ==> forall x :: x !in added.value;
      if added.Some? { FirstIsMember(added.value); }
      assert added.Some? ==> l.rows + RowsOf(w.agent, w.now, added.value) == l.rows;
    }
  }

  lemma AcceptedItemsAreStored(l: Ledger, w: WriteRequest, x: Draft)
    requires WriteTx(l, w).1.Accepted? && x in w.items
    ensures x.clientId in StoredHashes(WriteTx(l, w).0.rows, w.agent)
  {
    hide NewItems, StoredHashes, WithinQuota, LeftAfter;
    var (l', reply) := WriteTx(l, w);
    var stored, n := StoredHashes(l.rows, w.agent), |l.rows|;
    StoredHashesIsLookup(l'.rows, w.agent);
    if x.clientId in stored {
      StoredHashesIsLookup(l.rows, w.agent);
      var i :| 0 <= i < n && l.rows[i].agent == w.agent && l.rows[i].clientId == x.clientId;
      assert l'.rows[i] == l.rows[i];
    } else {
      NewItemsAreTheUnknown(w.items, stored);
      var k :| 0 <= k < |reply.inserted| && reply.inserted[k] == x;
      assert l'.rows[n + k] == RowsOf(w.agent, w.now, reply.inserted)[k];
    }
  }

  /** The table of rows only grows. */
  lemma {:induction false} RowsOnlyGrow(l: Ledger, writes: seq<WriteRequest>)
    ensures l.rows <= Run(l, writes).rows
    decreases |writes|
  {
    hide StoredHashes, NewItems, WithinQuota, LeftAfter, Ids;
    if writes != [] { RowsOnlyGrow(WriteTx(l, writes[0]).0, writes[1..]); }
  }

  lemma StoredStays(rows: seq<Row>, grown: seq<Row>, agent: int, id: string)
    requires rows <= grown && id in StoredHashes(rows, agent)
    ensures id in StoredHashes(grown, agent)
  {
    hide StoredHashes;
    StoredHashesIsLookup(rows, agent);
    StoredHashesIsLookup(grown, agent);
    var i :| 0 <= i < |rows| && rows[i].agent == agent && rows[i].clientId == id;
    assert grown[i] == rows[i];
  }

  /**
   * Once a batch was accepted all its items are known: whatever is written since, writing them
   * again inserts no row.
   */
  lemma AcceptedBatchIsKnown(l: Ledger, w: WriteRequest, more: seq<WriteRequest>, again: WriteRequest)
    requires WriteTx(l, w).1.Accepted?
    requires again.agent == w.agent && again.items == w.items
    ensures var later := Run(WriteTx(l, w).0, more); WriteTx(later, again).0.rows == later.rows
  {
    var after := WriteTx(l, w).0;
    var later := Run(after, more);
    RowsOnlyGrow(after, more);
    forall x | x in again.items ensures x.clientId in StoredHashes(later.rows, w.agent) {
      AcceptedItemsAreStored(l, w, x);
      StoredStays(after.rows, later.rows, w.agent, x.clientId);
    }
    hide WriteTx, Run, StoredHashes;
    KnownBatchInsertsNothing(later, again);
  }
}
