/**
 * The Redis side of a publish: three sorted sets per agent (total, participation,
 * focus) changed by the admit, release and reconcile scripts. A sorted set is a
 * map from member to score together with the time at which its key expires.
 */
module RateReservations {
  import opened Common
  import opened PublishQuota

  const KEY_SLACK := 60_000

  /** A reservation carries its publish token; a reconciled member has none. */
  datatype Member = Member(clientId: string, token: Option<string>)

  datatype ZSet = ZSet(scores: map<Member, int>, expireAt: int)
  datatype Keys = Keys(total: ZSet, participation: ZSet, focus: ZSet)

  datatype Entry = Entry(member: Member, surface: Surface)

  datatype AdmitReply = AdmitReply(allowed: bool, retry: int, remaining: Remaining)

  /** A key is gone once the clock has passed its expiry. */
  function Alive(z: ZSet, now: int): map<Member, int> {
    if now <= z.expireAt then z.scores else map[]
  }

  /** What is left after removing every score at or below `now - WINDOW`. */
  function Pruned(z: ZSet, now: int): map<Member, int> {
    map m | m in Alive(z, now) && z.scores[m] > now - WINDOW :: z.scores[m]
  }

  /** The set as a rejected attempt leaves it: pruned, with its expiry unchanged. */
  function Kept(z: ZSet, now: int): ZSet {
    ZSet(Pruned(z, now), z.expireAt)
  }

  // -------------------------------------------------------- order statistics

  /** The number of members whose score is at most `bound`. */
  function AtMost(scores: map<Member, int>, bound: int): nat {
    |set m | m in scores && scores[m] <= bound|
  }

  lemma {:induction false} LeastScoreExists(scores: map<Member, int>)
    requires scores != map[]
    ensures exists s :: s in scores.Values && forall v | v in scores.Values :: s <= v
    decreases |scores.Keys|
  {
    var m :| m in scores;
    var others := scores - {m};
    assert scores[m] in scores.Values;
    if others == map[] {
      assert forall x :: x in scores && x != m ==> x in others;
      var s := scores[m];
      assert s in scores.Values && forall v | v in scores.Values :: s <= v;
    } else {
      assert |others.Keys| < |scores.Keys| by { assert others.Keys == scores.Keys - {m}; }
      LeastScoreExists(others);
      var s :| s in others.Values && forall v | v in others.Values :: s <= v;
      var x :| x in others && others[x] == s;
      assert scores[x] == s;
      var least := Min(s, scores[m]);
      assert least in scores.Values;
      forall v | v in scores.Values ensures least <= v {
        var y :| y in scores && scores[y] == v;
        if y != m { assert y in others && others[y] == v && v in others.Values; }
      }
    }
  }

  function LeastScore(scores: map<Member, int>): (s: int)
    requires scores != map[]
    ensures s in scores.Values && forall v | v in scores.Values :: s <= v
  {
    LeastScoreExists(scores);
    var s :| s in scores.Values && forall v | v in scores.Values :: s <= v;
    s
  }

  /** The score at position `rank` (from 0) when members are listed by ascending score. */
  function RankScore(scores: map<Member, int>, rank: nat): int
    requires rank < |scores.Keys|
    decreases |scores.Keys|
  {
    var s := LeastScore(scores);
    var lowest := set m | m in scores && scores[m] == s;
    RankStep(scores, lowest);
    if rank < |lowest| then s else RankScore(scores - lowest, rank - |lowest|)
  }

  lemma RankStep(scores: map<Member, int>, lowest: set<Member>)
    requires scores != map[] && lowest == set m | m in scores && scores[m] == LeastScore(scores)
    ensures |(scores - lowest).Keys| == |scores.Keys| - |lowest| && |lowest| > 0
  {
    var m :| m in scores && scores[m] == LeastScore(scores);
    assert m in lowest;
    assert (scores - lowest).Keys == scores.Keys - lowest;
    assert scores.Keys == (scores.Keys - lowest) + lowest;
  }

  /** A bound reaches more than `rank` members exactly from the score at that rank on. */
  lemma {:induction false} RankScoreIsThreshold(scores: map<Member, int>, rank: nat, bound: int)
    requires rank < |scores.Keys|
    ensures AtMost(scores, bound) > rank <==> bound >= RankScore(scores, rank)
    decreases |scores.Keys|
  {
    var s := LeastScore(scores);
    var lowest := set m | m in scores && scores[m] == s;
    RankStep(scores, lowest);
    var reached := set m | m in scores && scores[m] <= bound;
    if bound < s {
      forall m | m in scores ensures scores[m] >= s {
        assert scores[m] in scores.Values;
      }
      assert reached == {};
      RankScoreAtLeast(scores, rank);
    } else {
      var rest := scores - lowest;
      var above := set m | m in rest && rest[m] <= bound;
      assert reached == lowest + above;
      assert |reached| == |lowest| + |above|;
      if rank >= |lowest| {
        RankScoreIsThreshold(rest, rank - |lowest|, bound);
      }
    }
  }

  lemma {:induction false} RankScoreAtLeast(scores: map<Member, int>, rank: nat)
    requires rank < |scores.Keys|
    ensures RankScore(scores, rank) in scores.Values && RankScore(scores, rank) >= LeastScore(scores)
    decreases |scores.Keys|
  {
    var lowest := set m | m in scores && scores[m] == LeastScore(scores);
    RankStep(scores, lowest);
    if rank >= |lowest| {
      var rest := scores - lowest;
      RankScoreAtLeast(rest, rank - |lowest|);
      assert forall v | v in rest.Values :: v in scores.Values;
    }
  }

  // --------------------------------------------------------- the admit script

  /** Entries of a surface (or of any) that are not yet in the set, counted one by one. */
  function AddCount(scores: map<Member, int>, batch: seq<Entry>, surface: Option<Surface>): nat {
    if batch == [] then 0
    else
      var last := batch[|batch| - 1];
      AddCount(scores, batch[..|batch| - 1], surface)
      + (if last.member !in scores && (surface.None? || surface.value == last.surface) then 1 else 0)
  }

  /** ZADD NX of one entry, if it is on the surface the set is for (or the set is for any). */
  function AddOne(scores: map<Member, int>, e: Entry, surface: Option<Surface>, score: int): map<Member, int> {
    if e.member !in scores && (surface.None? || surface.value == e.surface) then scores[e.member := score] else scores
  }

  function AddAll(scores: map<Member, int>, batch: seq<Entry>, surface: Option<Surface>, score: int): map<Member, int> {
    if batch == [] then scores
    else AddOne(AddAll(scores, batch[..|batch| - 1], surface, score), batch[|batch| - 1], surface, score)
  }

  /** How long until `overflow` members have left the window; None when no member sits at that rank. */
  function BoundaryWait(scores: map<Member, int>, overflow: int, now: int): Option<int> {
    if 0 < overflow <= |scores.Keys| then Some(WINDOW - (now - RankScore(scores, overflow - 1))) else None
  }

  function Longest(retry: int, wait: Option<int>): int {
    if wait.Some? then Max(retry, wait.value) else retry
  }

  function RetryAfter(total: Option<int>, participation: Option<int>, focus: Option<int>): int {
    if total.None? && participation.None? && focus.None? then WINDOW
    else Longest(Longest(Longest(1, total), participation), focus)
  }

  /** The batch fits all three limits on top of what is still in the window. */
  predicate Fits(k: Keys, now: int, batch: seq<Entry>) {
    && |Pruned(k.total, now).Keys| + AddCount(Pruned(k.total, now), batch, None) <= TOTAL_LIMIT
    && |Pruned(k.participation, now).Keys|
        + AddCount(Pruned(k.participation, now), batch, Some(Participation)) <= PARTICIPATION_LIMIT
    && |Pruned(k.focus, now).Keys| + AddCount(Pruned(k.focus, now), batch, Some(Focus)) <= FOCUS_LIMIT
  }

  /** The three sets after an attempt: enlarged when the batch fits, merely pruned when it does not. */
  function AdmitKeys(k: Keys, now: int, batch: seq<Entry>): Keys {
    if !Fits(k, now, batch) then Keys(Kept(k.total, now), Kept(k.participation, now), Kept(k.focus, now))
    else
      var expireAt := now + WINDOW + KEY_SLACK;
      Keys(ZSet(AddAll(Pruned(k.total, now), batch, None, now), expireAt),
           ZSet(AddAll(Pruned(k.participation, now), batch, Some(Participation), now), expireAt),
           ZSet(AddAll(Pruned(k.focus, now), batch, Some(Focus), now), expireAt))
  }

  function Admit(k: Keys, now: int, batch: seq<Entry>): (Keys, AdmitReply) {
    var total, participation, focus := Pruned(k.total, now), Pruned(k.participation, now), Pruned(k.focus, now);
    var nextTotal := |total.Keys| + AddCount(total, batch, None);
    var nextParticipation := |participation.Keys| + AddCount(participation, batch, Some(Participation));
    var nextFocus := |focus.Keys| + AddCount(focus, batch, Some(Focus));
    if !Fits(k, now, batch) then
      (AdmitKeys(k, now, batch),
       AdmitReply(false,
                  RetryAfter(BoundaryWait(total, nextTotal - TOTAL_LIMIT, now),
                             BoundaryWait(participation, nextParticipation - PARTICIPATION_LIMIT, now),
                             BoundaryWait(focus, nextFocus - FOCUS_LIMIT, now)),
                  QuotaLeft(|total.Keys|, |participation.Keys|, |focus.Keys|)))
    else
      (AdmitKeys(k, now, batch), AdmitReply(true, 0, QuotaLeft(nextTotal, nextParticipation, nextFocus)))
  }

  // --------------------------------------------- the release and reconcile scripts

  function Without(z: ZSet, now: int, members: set<Member>): ZSet {
    ZSet(Alive(z, now) - members, z.expireAt)
  }

  function Release(k: Keys, now: int, members: set<Member>): Keys {
    Keys(Without(k.total, now, members), Without(k.participation, now, members), Without(k.focus, now, members))
  }

  /** The recent rows of an agent, as the reconcile query selects them. */
  function RateRows(rows: seq<Row>, agent: int, cutoff: int): seq<Row> {
    if rows == [] then []
    else
      var before := RateRows(rows[..|rows| - 1], agent, cutoff);
      var last := rows[|rows| - 1];
      if last.agent == agent && last.createdAt >= cutoff then before + [last] else before
  }

  predicate OnSurface(r: Row, surface: Option<Surface>) {
    surface.None? || surface.value == r.surface
  }

  /** Scores written from rows of a surface (or of any); a later row of the same item overwrites. */
  function RowScores(rows: seq<Row>, surface: Option<Surface>): map<Member, int> {
    if rows == [] then map[]
    else
      var before := RowScores(rows[..|rows| - 1], surface);
      var last := rows[|rows| - 1];
      if OnSurface(last, surface) then before[Member(last.clientId, None) := last.createdAt] else before
  }

  function Reconcile(now: int, rows: seq<Row>): Keys {
    var expireAt := now + WINDOW + KEY_SLACK;
    Keys(ZSet(RowScores(rows, None), expireAt), ZSet(RowScores(rows, Some(Participation)), expireAt),
         ZSet(RowScores(rows, Some(Focus)), expireAt))
  }

  // ------------------------------------------------------ the retry time is exact

  predicate DistinctMembers(batch: seq<Entry>) {
    forall i, j | 0 <= i < j < |batch| :: batch[i].member != batch[j].member
  }

  /** Nothing of the batch is in any set, and each part of it would fit an empty window. */
  predicate FreshBatch(k: Keys, batch: seq<Entry>) {
    && DistinctMembers(batch)
    && (forall e | e in batch ::
        e.member !in k.total.scores && e.member !in k.participation.scores && e.member !in k.focus.scores)
    && AddCount(map[], batch, None) <= TOTAL_LIMIT
    && AddCount(map[], batch, Some(Participation)) <= PARTICIPATION_LIMIT
    && AddCount(map[], batch, Some(Focus)) <= FOCUS_LIMIT
  }

  lemma {:induction false} FreshAddCount(scores: map<Member, int>, batch: seq<Entry>, surface: Option<Surface>)
    requires forall e | e in batch :: e.member !in scores
    ensures AddCount(scores, batch, surface) == AddCount(map[], batch, surface)
  {
    if batch != [] {
      var n := |batch| - 1;
      assert batch[n] in batch;
      assert forall e | e in batch[..n] :: e in batch;
      FreshAddCount(scores, batch[..n], surface);
    }
  }

  /** On the pruned sets a fresh batch counts as on empty ones. */
  lemma FreshCounts(k: Keys, now: int, batch: seq<Entry>)
    requires FreshBatch(k, batch)
    ensures AddCount(Pruned(k.total, now), batch, None) == AddCount(map[], batch, None)
    ensures AddCount(Pruned(k.participation, now), batch, Some(Participation))
         == AddCount(map[], batch, Some(Participation))
    ensures AddCount(Pruned(k.focus, now), batch, Some(Focus)) == AddCount(map[], batch, Some(Focus))
  {
    hide AddCount;
    FreshAddCount(Pruned(k.total, now), batch, None);
    FreshAddCount(Pruned(k.participation, now), batch, Some(Participation));
    FreshAddCount(Pruned(k.focus, now), batch, Some(Focus));
  }

  /** The set has room for `add` more members at time `now`. */
  predicate HasRoom(z: ZSet, now: int, add: nat, limit: nat) {
    |Pruned(z, now).Keys| + add <= limit
  }

  function WaitOf(z: ZSet, now: int, add: nat, limit: nat): Option<int> {
    BoundaryWait(Pruned(z, now), |Pruned(z, now).Keys| + add - limit, now)
  }

  /** The part of a set that leaves the window within `d` more milliseconds. */
  lemma PrunedLater(z: ZSet, now: int, d: nat)
    ensures |Pruned(Kept(z, now), now + d).Keys|
         == if now + d <= z.expireAt then |Pruned(z, now).Keys| - AtMost(Pruned(z, now), now + d - WINDOW) else 0
  {
    var scores, kept := Pruned(z, now), Kept(z, now);
    var gone := set m | m in scores && scores[m] <= now + d - WINDOW;
    if now + d <= z.expireAt {
      assert Pruned(kept, now + d).Keys == scores.Keys - gone;
      assert scores.Keys == (scores.Keys - gone) + gone;
    } else {
      assert Pruned(kept, now + d) == map[];
    }
  }

  /** One set regains room exactly when its boundary has left the window or its key has expired. */
  lemma RoomLater(z: ZSet, now: int, d: nat, add: nat, limit: nat)
    requires add <= limit
    ensures HasRoom(Kept(z, now), now + d, add, limit)
       <==> HasRoom(z, now, add, limit) || now + d > z.expireAt || d >= WaitOf(z, now, add, limit).value
    ensures !HasRoom(z, now, add, limit) ==> WaitOf(z, now, add, limit).Some? && WaitOf(z, now, add, limit).value >= 1
  {
    var scores := Pruned(z, now);
    var overflow := |scores.Keys| + add - limit;
    PrunedLater(z, now, d);
    if overflow > 0 {
      RankScoreIsThreshold(scores, overflow - 1, now + d - WINDOW);
      RankScoreAtLeast(scores, overflow - 1);
    } else {
      assert AtMost(scores, now + d - WINDOW) >= 0;
    }
  }

  /** Some full set fixes the retry time and its key is still there one millisecond before. */
  predicate Decides(z: ZSet, now: int, add: nat, limit: nat, retry: int) {
    && !HasRoom(z, now, add, limit)
    && WaitOf(z, now, add, limit) == Some(retry)
    && now + retry - 1 <= z.expireAt
  }

  /** The longest time a full set makes a fresh batch wait. */
  function LongestWait(k: Keys, now: int, batch: seq<Entry>): int {
    RetryAfter(WaitOf(k.total, now, AddCount(map[], batch, None), TOTAL_LIMIT),
               WaitOf(k.participation, now, AddCount(map[], batch, Some(Participation)), PARTICIPATION_LIMIT),
               WaitOf(k.focus, now, AddCount(map[], batch, Some(Focus)), FOCUS_LIMIT))
  }

  /** Some full set that makes the batch wait longest keeps its key alive until then. */
  predicate WaitOutlivedByItsKey(k: Keys, now: int, batch: seq<Entry>) {
    var retry := LongestWait(k, now, batch);
    || Decides(k.total, now, AddCount(map[], batch, None), TOTAL_LIMIT, retry)
    || Decides(k.participation, now, AddCount(map[], batch, Some(Participation)), PARTICIPATION_LIMIT, retry)
    || Decides(k.focus, now, AddCount(map[], batch, Some(Focus)), FOCUS_LIMIT, retry)
  }

  predicate AdmittedAfter(k: Keys, now: int, batch: seq<Entry>, d: nat) {
    Admit(Admit(k, now, batch).0, now + d, batch).1.allowed
  }

  lemma AdmittedAfterIffRoom(k: Keys, now: int, batch: seq<Entry>, d: nat)
    requires FreshBatch(k, batch) && !Admit(k, now, batch).1.allowed
    ensures AdmittedAfter(k, now, batch, d)
       <==> && HasRoom(Kept(k.total, now), now + d, AddCount(map[], batch, None), TOTAL_LIMIT)
            && HasRoom(Kept(k.participation, now), now + d, AddCount(map[], batch, Some(Participation)),
                       PARTICIPATION_LIMIT)
            && HasRoom(Kept(k.focus, now), now + d, AddCount(map[], batch, Some(Focus)), FOCUS_LIMIT)
  {
    var k' := Admit(k, now, batch).0;
    FreshAddCount(Pruned(k'.total, now + d), batch, None);
    FreshAddCount(Pruned(k'.participation, now + d), batch, Some(Participation));
    FreshAddCount(Pruned(k'.focus, now + d), batch, Some(Focus));
  }

  lemma RetryOfFreshBatch(k: Keys, now: int, batch: seq<Entry>)
    requires FreshBatch(k, batch) && !Admit(k, now, batch).1.allowed
    ensures Admit(k, now, batch).1.retry == LongestWait(k, now, batch)
    ensures var total, participation, focus := AddCount(map[], batch, None),
                AddCount(map[], batch, Some(Participation)), AddCount(map[], batch, Some(Focus));
            !(HasRoom(k.total, now, total, TOTAL_LIMIT)
                 && HasRoom(k.participation, now, participation, PARTICIPATION_LIMIT)
                 && HasRoom(k.focus, now, focus, FOCUS_LIMIT))
  {
    hide AdmitKeys, AddCount, Pruned, BoundaryWait, RetryAfter, QuotaLeft;
    FreshCounts(k, now, batch);
  }

  /**
   * With no other admission in between, a rejected batch of new members is
   * admitted after waiting `retry` milliseconds.
   */
  lemma AdmittedAfterRetry(k: Keys, now: int, batch: seq<Entry>)
    requires FreshBatch(k, batch) && !Admit(k, now, batch).1.allowed
    ensures Admit(k, now, batch).1.retry >= 1
    ensures AdmittedAfter(k, now, batch, Admit(k, now, batch).1.retry)
  {
    hide Admit, AdmittedAfter, HasRoom, WaitOf, AddCount, Kept;
    RetryOfFreshBatch(k, now, batch);
    RoomLater(k.total, now, 0, AddCount(map[], batch, None), TOTAL_LIMIT);
    RoomLater(k.participation, now, 0, AddCount(map[], batch, Some(Participation)), PARTICIPATION_LIMIT);
    RoomLater(k.focus, now, 0, AddCount(map[], batch, Some(Focus)), FOCUS_LIMIT);
    var retry := Admit(k, now, batch).1.retry;
    AdmittedAfterIffRoom(k, now, batch, retry);
    RoomLater(k.total, now, retry, AddCount(map[], batch, None), TOTAL_LIMIT);
    RoomLater(k.participation, now, retry, AddCount(map[], batch, Some(Participation)), PARTICIPATION_LIMIT);
    RoomLater(k.focus, now, retry, AddCount(map[], batch, Some(Focus)), FOCUS_LIMIT);
  }

  /**
   * An attempt before the retry time is rejected by a set whose key lives until then; without one,
   * the last such attempt is not.
   */
  lemma EarlierAttempt(k: Keys, now: int, batch: seq<Entry>, retry: int, d: nat)
    requires FreshBatch(k, batch) && !Admit(k, now, batch).1.allowed && retry == Admit(k, now, batch).1.retry
        && d < retry
    ensures WaitOutlivedByItsKey(k, now, batch) ==> !AdmittedAfter(k, now, batch, d)
    ensures d == retry - 1 && !WaitOutlivedByItsKey(k, now, batch) ==> AdmittedAfter(k, now, batch, d)
  {
    hide Admit, AdmittedAfter, HasRoom, WaitOf, AddCount, Kept;
    RetryOfFreshBatch(k, now, batch);
    AdmittedAfterIffRoom(k, now, batch, d);
    RoomLater(k.total, now, d, AddCount(map[], batch, None), TOTAL_LIMIT);
    RoomLater(k.participation, now, d, AddCount(map[], batch, Some(Participation)), PARTICIPATION_LIMIT);
    RoomLater(k.focus, now, d, AddCount(map[], batch, Some(Focus)), FOCUS_LIMIT);
  }

  /**
   * Every earlier attempt is rejected exactly when a full set that fixes the
   * retry time keeps its key alive until then.
   */
  lemma RetryIsExact(k: Keys, now: int, batch: seq<Entry>, retry: int)
    requires FreshBatch(k, batch) && !Admit(k, now, batch).1.allowed && retry == Admit(k, now, batch).1.retry
    ensures (forall d: nat :: d < retry ==> !AdmittedAfter(k, now, batch, d))
        <==> WaitOutlivedByItsKey(k, now, batch)
  {
    AdmittedAfterRetry(k, now, batch);
    forall d: nat | d < retry
      ensures WaitOutlivedByItsKey(k, now, batch) ==> !AdmittedAfter(k, now, batch, d)
      ensures d == retry - 1 && !WaitOutlivedByItsKey(k, now, batch) ==> AdmittedAfter(k, now, batch, d)
    {
      EarlierAttempt(k, now, batch, retry, d);
    }
    assert AdmittedAfter(k, now, batch, retry - 1) || WaitOutlivedByItsKey(k, now, batch);
  }

  // ------------------------------------- when the retry time is exact in practice

  /** Every member leaves the window before its key expires. */
  predicate ScoresOutlived(z: ZSet) {
    forall m | m in z.scores :: z.scores[m] + WINDOW <= z.expireAt
  }

  predicate KeysOutlived(k: Keys) {
    ScoresOutlived(k.total) && ScoresOutlived(k.participation) && ScoresOutlived(k.focus)
  }

  predicate ScoresWithin(z: ZSet, bound: int) {
    forall m | m in z.scores :: z.scores[m] <= bound
  }

  /** No member is scored more than a minute ahead of a time. */
  predicate WithinSlack(k: Keys, now: int) {
    && ScoresWithin(k.total, now + 60_000) && ScoresWithin(k.participation, now + 60_000)
    && ScoresWithin(k.focus, now + 60_000)
  }

  /** If members leave before keys do, a rejection's retry time is exact to the millisecond. */
  lemma RetryExactWhenOutlived(k: Keys, now: int, batch: seq<Entry>, d: nat)
    requires FreshBatch(k, batch) && !Admit(k, now, batch).1.allowed && KeysOutlived(k)
    ensures AdmittedAfter(k, now, batch, d) <==> d >= Admit(k, now, batch).1.retry
  {
    hide Admit, AdmittedAfter, HasRoom, WaitOf, AddCount, Kept, ScoresOutlived;
    RetryOfFreshBatch(k, now, batch);
    AdmittedAfterIffRoom(k, now, batch, d);
    OutlivedRoom(k.total, now, d, AddCount(map[], batch, None), TOTAL_LIMIT);
    OutlivedRoom(k.participation, now, d, AddCount(map[], batch, Some(Participation)), PARTICIPATION_LIMIT);
    OutlivedRoom(k.focus, now, d, AddCount(map[], batch, Some(Focus)), FOCUS_LIMIT);
  }

  lemma OutlivedRoom(z: ZSet, now: int, d: nat, add: nat, limit: nat)
    requires ScoresOutlived(z) && add <= limit
    ensures HasRoom(Kept(z, now), now + d, add, limit)
       <==> HasRoom(z, now, add, limit) || d >= WaitOf(z, now, add, limit).value
    ensures !HasRoom(z, now, add, limit) ==> WaitOf(z, now, add, limit).Some? && WaitOf(z, now, add, limit).value >= 1
    ensures HasRoom(z, now, add, limit) ==> WaitOf(z, now, add, limit).None?
  {
    RoomLater(z, now, d, add, limit);
    var scores := Pruned(z, now);
    var overflow := |scores.Keys| + add - limit;
    if overflow > 0 {
      RankScoreAtLeast(scores, overflow - 1);
      var m :| m in scores && scores[m] == RankScore(scores, overflow - 1);
      assert scores[m] + WINDOW <= z.expireAt;
    }
  }

  lemma {:induction false} AddAllScores(scores: map<Member, int>, batch: seq<Entry>, surface: Option<Surface>,
                                        score: int)
    ensures forall m :: m in AddAll(scores, batch, surface, score)
                   <==> m in scores || exists e ::
                       e in batch && e.member == m && (surface.None? || surface.value == e.surface)
    ensures forall m | m in AddAll(scores, batch, surface, score) ::
              AddAll(scores, batch, surface, score)[m] == if m in scores then scores[m] else score
  {
    if batch != [] {
      var n := |batch| - 1;
      AddAllScores(scores, batch[..n], surface, score);
      assert batch == batch[..n] + [batch[n]];
      assert forall e :: e in batch <==> e in batch[..n] || e == batch[n];
    }
  }

  /** Admissions keep it: a key always expires a window and a minute after its youngest member. */
  lemma AdmitKeepsOutlived(k: Keys, now: int, batch: seq<Entry>)
    requires KeysOutlived(k) && WithinSlack(k, now)
    ensures KeysOutlived(Admit(k, now, batch).0) && WithinSlack(Admit(k, now, batch).0, now)
  {
    hide AddAll, AddCount;
    AddAllScores(Pruned(k.total, now), batch, None, now);
    AddAllScores(Pruned(k.participation, now), batch, Some(Participation), now);
    AddAllScores(Pruned(k.focus, now), batch, Some(Focus), now);
  }

  /** A row writes this member with this score. */
  predicate Writes(r: Row, surface: Option<Surface>, m: Member, score: int) {
    OnSurface(r, surface) && Member(r.clientId, None) == m && r.createdAt == score
  }

  lemma {:induction false} RowScoresAreRows(rows: seq<Row>, surface: Option<Surface>)
    ensures forall m | m in RowScores(rows, surface) :: exists r ::
        r in rows && Writes(r, surface, m, RowScores(rows, surface)[m])
    ensures forall r | r in rows && OnSurface(r, surface) :: Member(r.clientId, None) in RowScores(rows, surface)
  {
    if rows != [] {
      var n := |rows| - 1;
      var before, last := rows[..n], rows[n];
      RowScoresAreRows(before, surface);
      assert rows == before + [last];
      forall m | m in RowScores(rows, surface)
        ensures exists r :: r in rows && Writes(r, surface, m, RowScores(rows, surface)[m])
      {
        if OnSurface(last, surface) && m == Member(last.clientId, None) {
          assert Writes(last, surface, m, RowScores(rows, surface)[m]);
        } else {
          var r :| r in before && Writes(r, surface, m, RowScores(before, surface)[m]);
          assert r in rows && Writes(r, surface, m, RowScores(rows, surface)[m]);
        }
      }
    }
  }

  lemma RowScoresWithin(rows: seq<Row>, surface: Option<Surface>, bound: int)
    requires forall r | r in rows :: r.createdAt <= bound
    ensures forall m | m in RowScores(rows, surface) :: RowScores(rows, surface)[m] <= bound
  {
    RowScoresAreRows(rows, surface);
  }

  /** A reconcile re-establishes it as long as no row is stamped more than a minute ahead of Redis. */
  lemma ReconcileOutlivedWithinSlack(now: int, rows: seq<Row>)
    requires forall r | r in rows :: r.createdAt <= now + 60_000
    ensures KeysOutlived(Reconcile(now, rows)) && WithinSlack(Reconcile(now, rows), now)
  {
    RowScoresWithin(rows, None, now + 60_000);
    RowScoresWithin(rows, Some(Participation), now + 60_000);
    RowScoresWithin(rows, Some(Focus), now + 60_000);
  }

  /** Four participation rows stamped five minutes ahead of Redis. */
  const AHEAD: seq<Row> := [Row(1, "a", Participation, "", 300_000), Row(1, "b", Participation, "", 300_000),
                            Row(1, "c", Participation, "", 300_000), Row(1, "d", Participation, "", 300_000)]

  const AHEAD_SCORES: map<Member, int> :=
    map[Member("a", None) := 300_000, Member("b", None) := 300_000, Member("c", None) := 300_000,
        Member("d", None) := 300_000]

  lemma AheadScores(surface: Option<Surface>)
    requires surface == None || surface == Some(Participation) || surface == Some(Focus)
    ensures RowScores(AHEAD, surface) == if surface == Some(Focus) then map[] else AHEAD_SCORES
  {
    assert AHEAD[..3] == [AHEAD[0], AHEAD[1], AHEAD[2]] && AHEAD[..3][..2] == [AHEAD[0], AHEAD[1]]
        && AHEAD[..3][..2][..1] == [AHEAD[0]];
    assert [AHEAD[0]][..0] == [];
    var none := surface == Some(Focus);
    assert RowScores([AHEAD[0]], surface) == if none then map[] else map[Member("a", None) := 300_000];
    assert RowScores(AHEAD[..3], surface)
        == if none then map[] else map[Member("a", None) := 300_000, Member("b", None) := 300_000,
                                       Member("c", None) := 300_000];
  }

  const EXTRA := [Entry(Member("e", Some("t")), Participation)]

  lemma ExtraCounts()
    ensures AddCount(map[], EXTRA, None) == 1 && AddCount(map[], EXTRA, Some(Participation)) == 1
        && AddCount(map[], EXTRA, Some(Focus)) == 0
  {
    assert EXTRA[..0] == [];
  }

  predicate IsAhead(k: Keys) {
    && k.total == ZSet(AHEAD_SCORES, WINDOW + KEY_SLACK)
    && k.participation == ZSet(AHEAD_SCORES, WINDOW + KEY_SLACK)
    && k.focus == ZSet(map[], WINDOW + KEY_SLACK)
  }

  lemma AheadWaits(k: Keys)
    requires IsAhead(k)
    ensures FreshBatch(k, EXTRA) && !Fits(k, 0, EXTRA)
    ensures WaitOf(k.total, 0, 1, TOTAL_LIMIT) == None && WaitOf(k.focus, 0, 0, FOCUS_LIMIT) == None
    ensures WaitOf(k.participation, 0, 1, PARTICIPATION_LIMIT) == Some(WINDOW + 300_000)
  {
    ExtraCounts();
    assert Pruned(k.participation, 0) == AHEAD_SCORES && Pruned(k.total, 0) == AHEAD_SCORES
        && Pruned(k.focus, 0) == map[];
    assert AHEAD_SCORES.Keys == {Member("a", None), Member("b", None), Member("c", None), Member("d", None)};
    FreshAddCount(AHEAD_SCORES, EXTRA, Some(Participation));
    RankScoreAtLeast(AHEAD_SCORES, 0);
    assert forall v | v in AHEAD_SCORES.Values :: v == 300_000;
  }

  lemma AheadAdmits(k: Keys)
    requires IsAhead(k) && FreshBatch(k, EXTRA) && !Fits(k, 0, EXTRA)
    ensures AdmittedAfter(k, 0, EXTRA, WINDOW + KEY_SLACK + 1)
  {
    ExtraCounts();
    AdmittedAfterIffRoom(k, 0, EXTRA, WINDOW + KEY_SLACK + 1);
    PrunedLater(k.total, 0, WINDOW + KEY_SLACK + 1);
    PrunedLater(k.participation, 0, WINDOW + KEY_SLACK + 1);
    PrunedLater(k.focus, 0, WINDOW + KEY_SLACK + 1);
  }

  /** Such rows make the retry time too long: the keys expire, and the batch is admitted, before it has passed. */
  lemma RetryTooLongWhenRowsAreAhead()
    ensures FreshBatch(Reconcile(0, AHEAD), EXTRA)
    ensures !Admit(Reconcile(0, AHEAD), 0, EXTRA).1.allowed
    ensures Admit(Reconcile(0, AHEAD), 0, EXTRA).1.retry == WINDOW + 300_000
    ensures AdmittedAfter(Reconcile(0, AHEAD), 0, EXTRA, WINDOW + KEY_SLACK + 1)
  {
    AheadScores(None);
    AheadScores(Some(Participation));
    AheadScores(Some(Focus));
    AheadWaits(Reconcile(0, AHEAD));
    AheadAdmits(Reconcile(0, AHEAD));
    ExtraCounts();
    RetryOfFreshBatch(Reconcile(0, AHEAD), 0, EXTRA);
  }
}
