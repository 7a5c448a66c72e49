/**
 * The reservation scripts against the full history of admissions: what an
 * admission counts for and how long, what remaining quota is answered, and that
 * no hour of Redis time admits more than the limits.
 */
module RateHistory {
  import opened Common
  import opened PublishQuota
  import opened RateReservations

  // ------------------------------------------------------- what one admission does

  lemma PrunedAt(z: ZSet, t: int, m: Member)
    ensures m in Pruned(z, t) <==> m in z.scores && t <= z.expireAt && t - WINDOW < z.scores[m]
  {
  }

  /** What one set holds of an entry that was in none, after an admission at `now`. */
  lemma AddedCounts(z: ZSet, now: int, batch: seq<Entry>, e: Entry, surface: Option<Surface>, t: int)
    requires DistinctMembers(batch) && e in batch && now <= t && e.member !in z.scores
    ensures e.member in Pruned(ZSet(AddAll(Pruned(z, now), batch, surface, now), now + WINDOW + KEY_SLACK), t)
       <==> t < now + WINDOW && (surface.None? || surface.value == e.surface)
  {
    var scores := AddAll(Pruned(z, now), batch, surface, now);
    OneEntry(batch, e);
    AddAllScores(Pruned(z, now), batch, surface, now);
    PrunedAt(ZSet(scores, now + WINDOW + KEY_SLACK), t, e.member);
    hide AddAll, DistinctMembers;
  }

  /** An admitted member that was in no set counts in the total set and in its surface's set for exactly one window. */
  lemma AdmittedCountsForOneWindow(k: Keys, now: int, batch: seq<Entry>, e: Entry, t: int)
    requires Admit(k, now, batch).1.allowed && DistinctMembers(batch) && e in batch && now <= t
    requires e.member !in k.total.scores && e.member !in k.participation.scores && e.member !in k.focus.scores
    ensures var k' := Admit(k, now, batch).0;
            && (e.member in Pruned(k'.total, t) <==> t < now + WINDOW)
            && (e.member in Pruned(k'.participation, t) <==> t < now + WINDOW && e.surface == Participation)
            && (e.member in Pruned(k'.focus, t) <==> t < now + WINDOW && e.surface == Focus)
  {
    AddedCounts(k.total, now, batch, e, None, t);
    AddedCounts(k.participation, now, batch, e, Some(Participation), t);
    AddedCounts(k.focus, now, batch, e, Some(Focus), t);
    hide AddAll, AddCount, Pruned, BoundaryWait;
  }

  /** A member stands in a batch on one surface only. */
  lemma OneEntry(batch: seq<Entry>, e: Entry)
    requires DistinctMembers(batch) && e in batch
    ensures forall other | other in batch && other.member == e.member :: other == e
  {
    forall other | other in batch && other.member == e.member ensures other == e {
      var i :| 0 <= i < |batch| && batch[i] == e;
      var j :| 0 <= j < |batch| && batch[j] == other;
      assert i == j;
    }
  }

  /** The last member of a batch stands in no set that its predecessors made of one it was not in. */
  lemma LastIsNew(scores: map<Member, int>, batch: seq<Entry>, surface: Option<Surface>, score: int)
    requires DistinctMembers(batch) && batch != []
    ensures var n := |batch| - 1;
            batch[n].member in AddAll(scores, batch[..n], surface, score) <==> batch[n].member in scores
  {
    var n := |batch| - 1;
    AddAllScores(scores, batch[..n], surface, score);
    forall e | e in batch[..n] ensures e.member != batch[n].member {
      var i :| 0 <= i < n && batch[i] == e;
    }
  }

  lemma {:induction false} AddedSize(scores: map<Member, int>, batch: seq<Entry>, surface: Option<Surface>, score: int)
    requires DistinctMembers(batch)
    ensures |AddAll(scores, batch, surface, score).Keys| == |scores.Keys| + AddCount(scores, batch, surface)
  {
    if batch != [] {
      var n := |batch| - 1;
      var before, e := AddAll(scores, batch[..n], surface, score), batch[n];
      AddedSize(scores, batch[..n], surface, score);
      LastIsNew(scores, batch, surface, score);
      hide DistinctMembers;
      if e.member !in before { assert before[e.member := score].Keys == before.Keys + {e.member}; }
    }
  }

  /** The remaining quotas answered are what the sets leave free afterwards. */
  lemma RemainingIsWhatIsFree(k: Keys, now: int, batch: seq<Entry>)
    requires DistinctMembers(batch)
    ensures var (k', reply) := Admit(k, now, batch);
            && reply.remaining.total == Max(20 - |k'.total.scores.Keys|, 0)
            && reply.remaining.participation == Max(4 - |k'.participation.scores.Keys|, 0)
            && reply.remaining.focus == Max(16 - |k'.focus.scores.Keys|, 0)
  {
    AddedSize(Pruned(k.total, now), batch, None, now);
    AddedSize(Pruned(k.participation, now), batch, Some(Participation), now);
    AddedSize(Pruned(k.focus, now), batch, Some(Focus), now);
    hide AddAll, AddCount, Pruned, BoundaryWait;
  }

  // ----------------------------------------------------------- runs of admissions

  datatype Admission = Admission(member: Member, surface: Surface, at: int)

  /** The sets, the Redis clock, and everything admitted so far. */
  datatype Log = Log(keys: Keys, clock: int, admitted: seq<Admission>)

  datatype Attempt = Attempt(elapsed: nat, batch: seq<Entry>)

  const NOTHING := Log(Keys(ZSet(map[], 0), ZSet(map[], 0), ZSet(map[], 0)), 0, [])

  function Admissions(batch: seq<Entry>, at: int): seq<Admission> {
    seq(|batch|, i requires 0 <= i < |batch| => Admission(batch[i].member, batch[i].surface, at))
  }

  /** Attempts of new members: every reservation has a random token of its own. */
  predicate NewMembers(l: Log, batch: seq<Entry>) {
    && DistinctMembers(batch)
    && forall i, j | 0 <= i < |batch| && 0 <= j < |l.admitted| :: batch[i].member != l.admitted[j].member
  }

  function Step(l: Log, a: Attempt): Log {
    var now := l.clock + a.elapsed;
    var (keys, reply) := Admit(l.keys, now, a.batch);
    Log(keys, now, if reply.allowed then l.admitted + Admissions(a.batch, now) else l.admitted)
  }

  function Run(l: Log, attempts: seq<Attempt>): Log
    decreases |attempts|
  {
    if attempts == [] then l else Run(Step(l, attempts[0]), attempts[1..])
  }

  predicate AllNew(l: Log, attempts: seq<Attempt>)
    decreases |attempts|
  {
    attempts == [] || (NewMembers(l, attempts[0].batch) && AllNew(Step(l, attempts[0]), attempts[1..]))
  }

  predicate On(a: Admission, surface: Option<Surface>) {
    surface.None? || surface.value == a.surface
  }

  /** The members admitted on a surface (or on any) in the hour that ends at `t`. */
  function InHourTo(admitted: seq<Admission>, t: int, surface: Option<Surface>): set<Member> {
    set i | 0 <= i < |admitted| && t - WINDOW < admitted[i].at <= t && On(admitted[i], surface) :: admitted[i].member
  }

  /** A set lists admissions with their times, and none of the last hour is missing or about to expire. */
  ghost predicate Lists(z: ZSet, admitted: seq<Admission>, clock: int, surface: Option<Surface>) {
    && AllTold(z.scores, admitted, surface)
    && HasSince(z.scores, admitted, clock - WINDOW, surface)
    && forall i | 0 <= i < |admitted| && clock - WINDOW < admitted[i].at && On(admitted[i], surface) ::
         admitted[i].at + WINDOW <= z.expireAt
  }

  ghost predicate AllTold(scores: map<Member, int>, admitted: seq<Admission>, surface: Option<Surface>) {
    forall m | m in scores :: exists i :: 0 <= i < |admitted| && Told(admitted[i], m, scores[m], surface)
  }

  ghost predicate HasSince(scores: map<Member, int>, admitted: seq<Admission>, since: int, surface: Option<Surface>) {
    forall i | 0 <= i < |admitted| && since < admitted[i].at && On(admitted[i], surface) ::
      admitted[i].member in scores && scores[admitted[i].member] == admitted[i].at
  }

  predicate Told(a: Admission, m: Member, score: int, surface: Option<Surface>) {
    a.member == m && a.at == score && On(a, surface)
  }

  predicate WithinLimits(admitted: seq<Admission>, t: int) {
    && |InHourTo(admitted, t, None)| <= 20
    && |InHourTo(admitted, t, Some(Participation))| <= 4
    && |InHourTo(admitted, t, Some(Focus))| <= 16
  }

  ghost predicate Inv(l: Log) {
    && (forall i | 0 <= i < |l.admitted| :: l.admitted[i].at <= l.clock)
    && Lists(l.keys.total, l.admitted, l.clock, None)
    && Lists(l.keys.participation, l.admitted, l.clock, Some(Participation))
    && Lists(l.keys.focus, l.admitted, l.clock, Some(Focus))
    && forall t :: WithinLimits(l.admitted, t)
  }

  /** The pruned set holds exactly the members of the last hour. */
  lemma PrunedIsLastHour(z: ZSet, admitted: seq<Admission>, clock: int, surface: Option<Surface>, now: int)
    requires Lists(z, admitted, clock, surface) && clock <= now
    requires forall i | 0 <= i < |admitted| :: admitted[i].at <= clock
    ensures Pruned(z, now).Keys == InHourTo(admitted, now, surface)
  {
    forall m | m in Pruned(z, now) ensures m in InHourTo(admitted, now, surface) {
      var i :| 0 <= i < |admitted| && Told(admitted[i], m, z.scores[m], surface);
    }
  }

  lemma KeptLists(z: ZSet, admitted: seq<Admission>, clock: int, surface: Option<Surface>, now: int)
    requires Lists(z, admitted, clock, surface) && clock <= now
    ensures Lists(Kept(z, now), admitted, now, surface)
  {
    var kept := Kept(z, now);
    forall m | m in kept.scores
      ensures exists i :: 0 <= i < |admitted| && Told(admitted[i], m, kept.scores[m], surface)
    {
      var i :| 0 <= i < |admitted| && Told(admitted[i], m, z.scores[m], surface);
      assert Told(admitted[i], m, kept.scores[m], surface);
    }
  }

  lemma NewToPruned(z: ZSet, l: Log, surface: Option<Surface>, batch: seq<Entry>, now: int)
    requires Lists(z, l.admitted, l.clock, surface) && NewMembers(l, batch)
    ensures forall i | 0 <= i < |batch| :: batch[i].member !in Pruned(z, now)
  {
    hide DistinctMembers;
  }

  lemma GrownIsTold(before: map<Member, int>, grown: map<Member, int>, admitted: seq<Admission>, now: int,
                    batch: seq<Entry>, surface: Option<Surface>)
    requires AllTold(before, admitted, surface)
    requires forall m | m in grown && m !in before ::
        grown[m] == now && exists e :: e in batch && e.member == m && (surface.None? || surface.value == e.surface)
    requires forall m | m in grown && m in before :: grown[m] == before[m]
    ensures AllTold(grown, admitted + Admissions(batch, now), surface)
  {
    var all := admitted + Admissions(batch, now);
    forall m | m in grown ensures exists i :: 0 <= i < |all| && Told(all[i], m, grown[m], surface) {
      if m in before {
        var i :| 0 <= i < |admitted| && Told(admitted[i], m, before[m], surface);
        assert Told(all[i], m, grown[m], surface);
      } else {
        var e :| e in batch && e.member == m && (surface.None? || surface.value == e.surface);
        var j :| 0 <= j < |batch| && batch[j] == e;
        assert Told(all[|admitted| + j], m, grown[m], surface);
      }
    }
  }

  lemma GrownHasLastHour(before: map<Member, int>, grown: map<Member, int>, admitted: seq<Admission>, now: int,
                         batch: seq<Entry>, surface: Option<Surface>)
    requires HasSince(before, admitted, now - WINDOW, surface)
    requires forall m | m in before :: m in grown && grown[m] == before[m]
    requires forall i | 0 <= i < |batch| && (surface.None? || surface.value == batch[i].surface) ::
        batch[i].member in grown && grown[batch[i].member] == now
    ensures HasSince(grown, admitted + Admissions(batch, now), now - WINDOW, surface)
  {
    var all := admitted + Admissions(batch, now);
    forall i | 0 <= i < |all| && now - WINDOW < all[i].at && On(all[i], surface)
      ensures all[i].member in grown && grown[all[i].member] == all[i].at
    {
      if i < |admitted| {
        assert all[i] == admitted[i];
      } else {
        assert all[i].member == batch[i - |admitted|].member && all[i].surface == batch[i - |admitted|].surface;
      }
    }
  }

  lemma ListsGrown(grown: map<Member, int>, admitted: seq<Admission>, now: int, surface: Option<Surface>)
    requires AllTold(grown, admitted, surface) && HasSince(grown, admitted, now - WINDOW, surface)
    requires forall i | 0 <= i < |admitted| :: admitted[i].at <= now
    ensures Lists(ZSet(grown, now + WINDOW + KEY_SLACK), admitted, now, surface)
  {
    hide AllTold, HasSince;
  }

  lemma GrownLists(z: ZSet, l: Log, surface: Option<Surface>, now: int, batch: seq<Entry>)
    requires Lists(z, l.admitted, l.clock, surface) && l.clock <= now && NewMembers(l, batch)
    requires forall i | 0 <= i < |l.admitted| :: l.admitted[i].at <= l.clock
    ensures Lists(ZSet(AddAll(Pruned(z, now), batch, surface, now), now + WINDOW + KEY_SLACK),
                  l.admitted + Admissions(batch, now), now, surface)
  {
    var before, grown := Pruned(z, now), AddAll(Pruned(z, now), batch, surface, now);
    AddAllScores(before, batch, surface, now);
    KeptLists(z, l.admitted, l.clock, surface, now);
    NewToPruned(z, l, surface, batch, now);
    assert AllTold(before, l.admitted, surface) && HasSince(before, l.admitted, now - WINDOW, surface);
    hide AddAll, Pruned, NewMembers, AllTold, HasSince, Lists;
    GrownIsTold(before, grown, l.admitted, now, batch, surface);
    forall i | 0 <= i < |batch| && (surface.None? || surface.value == batch[i].surface)
      ensures batch[i].member in grown && grown[batch[i].member] == now
    {
      assert batch[i] in batch;
    }
    GrownHasLastHour(before, grown, l.admitted, now, batch, surface);
    ListsGrown(grown, l.admitted + Admissions(batch, now), now, surface);
  }

  function MembersOn(batch: seq<Entry>, surface: Option<Surface>): set<Member> {
    set i | 0 <= i < |batch| && (surface.None? || surface.value == batch[i].surface) :: batch[i].member
  }

  lemma LastOnSurface(batch: seq<Entry>, surface: Option<Surface>)
    requires DistinctMembers(batch) && batch != []
    ensures var before, e := batch[..|batch| - 1], batch[|batch| - 1];
            && e.member !in MembersOn(before, surface)
            && MembersOn(batch, surface)
               == MembersOn(before, surface) + (if surface.None? || surface.value == e.surface then {e.member} else {})
  {
    var n := |batch| - 1;
    var before := batch[..n];
    assert forall i | 0 <= i < n :: before[i] == batch[i];
    forall m | m in MembersOn(batch, surface) && m != batch[n].member ensures m in MembersOn(before, surface) {
      var i :| 0 <= i < |batch| && (surface.None? || surface.value == batch[i].surface) && batch[i].member == m;
      assert before[i].member == m;
    }
  }

  lemma {:induction false} BatchSize(scores: map<Member, int>, batch: seq<Entry>, surface: Option<Surface>)
    requires DistinctMembers(batch) && forall i | 0 <= i < |batch| :: batch[i].member !in scores
    ensures |MembersOn(batch, surface)| == AddCount(scores, batch, surface)
  {
    if batch != [] {
      var n := |batch| - 1;
      var before, e := batch[..n], batch[n];
      BatchSize(scores, before, surface);
      LastOnSurface(batch, surface);
      hide MembersOn, DistinctMembers;
    }
  }

  /**
   * An hour that ends before the admission is as it was; a later one holds no more
   * than the hour the script looked at.
   */
  lemma HourAfter(admitted: seq<Admission>, clock: int, now: int, batch: seq<Entry>, t: int, surface: Option<Surface>)
    requires (forall i | 0 <= i < |admitted| :: admitted[i].at <= clock) && clock <= now
    ensures var all := admitted + Admissions(batch, now);
            InHourTo(all, t, surface) <= if t < now then InHourTo(admitted, t, surface)
                                         else InHourTo(admitted, now, surface) + MembersOn(batch, surface)
  {
    var all := admitted + Admissions(batch, now);
    forall m | m in InHourTo(all, t, surface)
      ensures m in if t < now then InHourTo(admitted, t, surface)
                   else InHourTo(admitted, now, surface) + MembersOn(batch, surface)
    {
      var i :| 0 <= i < |all| && t - WINDOW < all[i].at <= t && On(all[i], surface) && all[i].member == m;
      if i < |admitted| {
        assert all[i] == admitted[i];
      } else {
        assert all[i].member == batch[i - |admitted|].member;
      }
    }
  }

  /** What fits beside the last hour keeps every hour within the limit. */
  lemma HourStaysWithin(z: ZSet, l: Log, now: int, batch: seq<Entry>, t: int, surface: Option<Surface>, limit: nat)
    requires Lists(z, l.admitted, l.clock, surface) && l.clock <= now && NewMembers(l, batch)
    requires forall i | 0 <= i < |l.admitted| :: l.admitted[i].at <= l.clock
    requires |Pruned(z, now).Keys| + AddCount(Pruned(z, now), batch, surface) <= limit
    requires |InHourTo(l.admitted, t, surface)| <= limit
    ensures |InHourTo(l.admitted + Admissions(batch, now), t, surface)| <= limit
  {
    var all := l.admitted + Admissions(batch, now);
    PrunedIsLastHour(z, l.admitted, l.clock, surface, now);
    NewToPruned(z, l, surface, batch, now);
    BatchSize(Pruned(z, now), batch, surface);
    HourAfter(l.admitted, l.clock, now, batch, t, surface);
    hide InHourTo, Lists, Pruned, MembersOn, AddCount;
    if t < now {
      SubsetSize(InHourTo(all, t, surface), InHourTo(l.admitted, t, surface));
    } else {
      var bound := InHourTo(l.admitted, now, surface) + MembersOn(batch, surface);
      SubsetSize(InHourTo(all, t, surface), bound);
      assert |bound| <= |InHourTo(l.admitted, now, surface)| + |MembersOn(batch, surface)|;
    }
  }

  lemma AdmittedWithin(l: Log, now: int, batch: seq<Entry>, t: int)
    requires Inv(l) && l.clock <= now && NewMembers(l, batch) && Fits(l.keys, now, batch)
    ensures WithinLimits(l.admitted + Admissions(batch, now), t)
  {
    assert WithinLimits(l.admitted, t);
    hide InHourTo, Lists, Pruned, AddCount, NewMembers;
    HourStaysWithin(l.keys.total, l, now, batch, t, None, 20);
    HourStaysWithin(l.keys.participation, l, now, batch, t, Some(Participation), 4);
    HourStaysWithin(l.keys.focus, l, now, batch, t, Some(Focus), 16);
  }

  lemma StepKeeps(l: Log, a: Attempt)
    requires Inv(l) && NewMembers(l, a.batch)
    ensures Inv(Step(l, a))
  {
    var now := l.clock + a.elapsed;
    var k := l.keys;
    hide Lists, WithinLimits, AddAll, Pruned, AddCount, BoundaryWait;
    if Fits(k, now, a.batch) {
      GrownLists(k.total, l, None, now, a.batch);
      GrownLists(k.participation, l, Some(Participation), now, a.batch);
      GrownLists(k.focus, l, Some(Focus), now, a.batch);
      forall t ensures WithinLimits(l.admitted + Admissions(a.batch, now), t) {
        AdmittedWithin(l, now, a.batch, t);
      }
    } else {
      KeptLists(k.total, l.admitted, l.clock, None, now);
      KeptLists(k.participation, l.admitted, l.clock, Some(Participation), now);
      KeptLists(k.focus, l.admitted, l.clock, Some(Focus), now);
    }
  }

  lemma {:induction false} RunKeeps(l: Log, attempts: seq<Attempt>)
    requires Inv(l) && AllNew(l, attempts)
    ensures Inv(Run(l, attempts))
    decreases |attempts|
  {
    hide Inv, Step, NewMembers;
    if attempts != [] {
      StepKeeps(l, attempts[0]);
      RunKeeps(Step(l, attempts[0]), attempts[1..]);
    }
  }

  lemma NothingInv()
    ensures Inv(NOTHING)
  {
    forall t ensures WithinLimits(NOTHING.admitted, t) {
      assert InHourTo([], t, None) == {} && InHourTo([], t, Some(Participation)) == {};
      assert InHourTo([], t, Some(Focus)) == {};
    }
  }

  /**
   * Over any run of attempts of new members no hour of Redis time admits more than
   * 20 members, 4 participation and 16 focus.
   */
  lemma EveryHourOfRedisTimeIsLimited(attempts: seq<Attempt>, t: int)
    requires AllNew(NOTHING, attempts)
    ensures var admitted := Run(NOTHING, attempts).admitted;
            && |InHourTo(admitted, t, None)| <= 20
            && |InHourTo(admitted, t, Some(Participation))| <= 4
            && |InHourTo(admitted, t, Some(Focus))| <= 16
  {
    NothingInv();
    hide Run, AllNew, InHourTo;
    RunKeeps(NOTHING, attempts);
    assert WithinLimits(Run(NOTHING, attempts).admitted, t);
  }

  /**
   * And the next batch is admitted exactly when it fits beside what was admitted
   * in the hour before it: nothing else holds it back.
   */
  lemma AdmittedIffHourHasRoom(attempts: seq<Attempt>, a: Attempt)
    requires AllNew(NOTHING, attempts) && NewMembers(Run(NOTHING, attempts), a.batch)
    ensures var l := Run(NOTHING, attempts);
            var now := l.clock + a.elapsed;
            Admit(l.keys, now, a.batch).1.allowed
            <==> && |InHourTo(l.admitted, now, None)| + |MembersOn(a.batch, None)| <= 20
                 && |InHourTo(l.admitted, now, Some(Participation))| + |MembersOn(a.batch, Some(Participation))| <= 4
                 && |InHourTo(l.admitted, now, Some(Focus))| + |MembersOn(a.batch, Some(Focus))| <= 16
  {
    NothingInv();
    hide Run, AllNew, Inv, InHourTo, MembersOn, NewMembers, Admit;
    RunKeeps(NOTHING, attempts);
    AdmittedIffRoom(Run(NOTHING, attempts), a);
  }

  lemma AdmittedIffRoom(l: Log, a: Attempt)
    requires Inv(l) && NewMembers(l, a.batch)
    ensures var now := l.clock + a.elapsed;
            Admit(l.keys, now, a.batch).1.allowed
            <==> && |InHourTo(l.admitted, now, None)| + |MembersOn(a.batch, None)| <= 20
                 && |InHourTo(l.admitted, now, Some(Participation))| + |MembersOn(a.batch, Some(Participation))| <= 4
                 && |InHourTo(l.admitted, now, Some(Focus))| + |MembersOn(a.batch, Some(Focus))| <= 16
  {
    hide InHourTo, MembersOn, NewMembers, Lists, WithinLimits, Pruned, AddCount, AdmitKeys, BoundaryWait;
    RoomOf(l.keys.total, l, a, None);
    RoomOf(l.keys.participation, l, a, Some(Participation));
    RoomOf(l.keys.focus, l, a, Some(Focus));
  }

  lemma RoomOf(z: ZSet, l: Log, a: Attempt, surface: Option<Surface>)
    requires Lists(z, l.admitted, l.clock, surface) && NewMembers(l, a.batch)
    requires forall i | 0 <= i < |l.admitted| :: l.admitted[i].at <= l.clock
    ensures var now := l.clock + a.elapsed;
            |Pruned(z, now).Keys| + AddCount(Pruned(z, now), a.batch, surface)
            == |InHourTo(l.admitted, now, surface)| + |MembersOn(a.batch, surface)|
  {
    hide Pruned, InHourTo, MembersOn, AddCount, Lists, Told;
    var now := l.clock + a.elapsed;
    PrunedIsLastHour(z, l.admitted, l.clock, surface, now);
    NewToPruned(z, l, surface, a.batch, now);
    BatchSize(Pruned(z, now), a.batch, surface);
  }
}
