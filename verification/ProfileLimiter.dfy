/**
 * The limiter of profile writes of one Agent: two sorted sets pruned to a minute
 * and a day, and a sequence key that makes members unique. The full history of
 * admissions is kept beside them.
 */
module ProfileLimiter {
  const MINUTE := 60_000
  const DAY := 24 * 60 * 60 * 1000
  const MINUTE_LIMIT := 10
  const DAY_LIMIT := 20
  const KEY_SLACK := 1000

  /** A member is the admission time and a sequence number; its score is its time. */
  datatype Member = Member(time: int, number: int)

  /** A sorted set lists its members once each, in the order they were added. */
  datatype Window = Window(members: seq<Member>, expireAt: int)
  datatype Sequence = Sequence(value: int, expireAt: int)

  datatype Limiter = Limiter(minute: Window, day: Window, sequence: Sequence, clock: int, history: seq<Member>)

  const FRESH := Limiter(Window([], 0), Window([], 0), Sequence(0, 0), 0, [])

  // -------------------------------------------------------------------- the script

  /** The members with a score above `from`. */
  function Above(members: seq<Member>, from: int): seq<Member> {
    if members == [] then []
    else
      Above(members[..|members| - 1], from)
      + (if members[|members| - 1].time > from then [members[|members| - 1]] else [])
  }

  /** A key is gone once the clock has passed its expiry; old members are removed. */
  function Pruned(w: Window, now: int, width: int): seq<Member> {
    if now <= w.expireAt then Above(w.members, now - width) else []
  }

  /** ZADD: a member that is already there is not added again. */
  function Added(members: seq<Member>, m: Member): seq<Member> {
    if m in members then members else members + [m]
  }

  function NextNumber(s: Sequence, now: int): int {
    if now <= s.expireAt then s.value + 1 else 1
  }

  predicate Admits(l: Limiter, now: int) {
    |Pruned(l.minute, now, MINUTE)| < MINUTE_LIMIT && |Pruned(l.day, now, DAY)| < DAY_LIMIT
  }

  function AfterRejection(w: Window, now: int, width: int): Window {
    Window(Pruned(w, now, width), w.expireAt)
  }

  /** The member is added, and the key lives a second longer than its window. */
  function AfterAdmission(w: Window, now: int, width: int, m: Member): Window {
    Window(Added(Pruned(w, now, width), m), now + width + KEY_SLACK)
  }

  function Admitted(l: Limiter, now: int, m: Member): Limiter {
    Limiter(AfterAdmission(l.minute, now, MINUTE, m), AfterAdmission(l.day, now, DAY, m),
            Sequence(m.number, now + DAY + KEY_SLACK), now, l.history + [m])
  }

  function Rejected(l: Limiter, now: int): Limiter {
    l.(minute := AfterRejection(l.minute, now, MINUTE), day := AfterRejection(l.day, now, DAY), clock := now)
  }

  function Attempt(l: Limiter, now: int): Limiter {
    if Admits(l, now) then Admitted(l, now, Member(now, NextNumber(l.sequence, now))) else Rejected(l, now)
  }

  /** One attempt, at a time no earlier than the previous one. */
  predicate Follows(l: Limiter, l': Limiter) {
    l'.clock >= l.clock && l' == Attempt(l, l'.clock)
  }

  /** The states of a run from the beginning. */
  predicate IsRun(states: seq<Limiter>) {
    states != [] && states[0] == FRESH && forall i | 0 <= i < |states| - 1 :: Follows(states[i], states[i + 1])
  }

  // -------------------------------------------------------- the reference: full history

  /** Admissions of the whole history inside `(from, to]`. */
  function CountBetween(history: seq<Member>, from: int, to: int): nat {
    if history == [] then 0
    else CountBetween(history[..|history| - 1], from, to) + (if from < history[|history| - 1].time <= to then 1 else 0)
  }

  /** Admissions in the `width` milliseconds that end at `to`. */
  function InLast(history: seq<Member>, to: int, width: int): nat {
    CountBetween(history, to - width, to)
  }

  /** Whether a limiter that remembered every admission would admit one more. */
  predicate HistoryAdmits(history: seq<Member>, now: int) {
    InLast(history, now, MINUTE) < MINUTE_LIMIT && InLast(history, now, DAY) < DAY_LIMIT
  }

  // ---------------------------------------------------------------------- invariant

  /** The window agrees with the history on everything recent; its key outlives that. */
  ghost predicate WindowOk(w: Window, history: seq<Member>, clock: int, width: int) {
    && Above(w.members, clock - width) == Above(history, clock - width)
    && forall m | m in history :: m.time + width + KEY_SLACK <= w.expireAt
  }

  /** No member repeats an earlier one. */
  predicate Distinct(history: seq<Member>) {
    history == [] || (history[|history| - 1] !in history[..|history| - 1] && Distinct(history[..|history| - 1]))
  }

  /** Numbers above the current one belong to admissions before the latest. */
  ghost predicate SequenceOk(s: Sequence, history: seq<Member>, clock: int) {
    && s.expireAt <= clock + DAY + KEY_SLACK
    && (forall m | m in history ::
          m.time + DAY + KEY_SLACK <= s.expireAt && (m.number <= s.value || m.time + DAY + KEY_SLACK < s.expireAt))
  }

  ghost predicate WithinLimits(history: seq<Member>) {
    && (forall t :: InLast(history, t, MINUTE) <= MINUTE_LIMIT)
    && (forall t :: InLast(history, t, DAY) <= DAY_LIMIT)
  }

  ghost predicate Inv(l: Limiter) {
    && Distinct(l.history) && WithinLimits(l.history)
    && WindowOk(l.minute, l.history, l.clock, MINUTE)
    && WindowOk(l.day, l.history, l.clock, DAY)
    && SequenceOk(l.sequence, l.history, l.clock)
  }

  lemma {:induction false} AboveTwice(members: seq<Member>, from: int, later: int)
    requires from <= later
    ensures Above(Above(members, from), later) == Above(members, later)
  {
    if members != [] {
      var before, last := members[..|members| - 1], members[|members| - 1];
      AboveTwice(before, from, later);
      if last.time > from {
        assert (Above(before, from) + [last])[..|Above(before, from)|] == Above(before, from);
      } else {
        assert Above(members, from) == Above(before, from);
      }
    }
  }

  lemma {:induction false} NoneAbove(members: seq<Member>, from: int)
    requires forall m | m in members :: m.time <= from
    ensures Above(members, from) == []
  {
    if members != [] {
      assert members[|members| - 1] in members;
      assert forall m | m in members[..|members| - 1] :: m in members;
      NoneAbove(members[..|members| - 1], from);
    }
  }

  lemma {:induction false} AboveIsMember(members: seq<Member>, from: int, m: Member)
    requires m in Above(members, from)
    ensures m in members && m.time > from
  {
    var before := members[..|members| - 1];
    if m in Above(before, from) {
      AboveIsMember(before, from, m);
    }
  }

  /** Of admissions up to `to`, those above `from` are as many as there are in between. */
  lemma {:induction false} AboveCount(history: seq<Member>, from: int, to: int)
    requires forall m | m in history :: m.time <= to
    ensures |Above(history, from)| == CountBetween(history, from, to)
  {
    if history != [] {
      assert history[|history| - 1] in history;
      assert forall m | m in history[..|history| - 1] :: m in history;
      AboveCount(history[..|history| - 1], from, to);
    }
  }

  /** At any later time the pruned set is exactly the admissions of the last `width` milliseconds. */
  lemma PrunedIsRecent(w: Window, history: seq<Member>, clock: int, width: int, now: int)
    requires WindowOk(w, history, clock, width) && now >= clock
    ensures Pruned(w, now, width) == Above(history, now - width)
  {
    if now <= w.expireAt {
      AboveTwice(w.members, clock - width, now - width);
      AboveTwice(history, clock - width, now - width);
    } else {
      NoneAbove(history, now - width);
    }
  }

  lemma SequenceTimes(l: Limiter)
    requires SequenceOk(l.sequence, l.history, l.clock)
    ensures forall m | m in l.history :: m.time <= l.clock
  {
  }

  /** The script decides as the limiter that remembers everything would. */
  lemma DecidesAsHistory(l: Limiter, now: int)
    requires Inv(l) && now >= l.clock
    ensures Admits(l, now) <==> HistoryAdmits(l.history, now)
  {
    PrunedIsRecent(l.minute, l.history, l.clock, MINUTE, now);
    PrunedIsRecent(l.day, l.history, l.clock, DAY, now);
    SequenceTimes(l);
    AboveCount(l.history, now - MINUTE, now);
    AboveCount(l.history, now - DAY, now);
  }

  /** A new member has never been used before, even after the sequence key expired and restarted. */
  lemma MemberIsNew(s: Sequence, history: seq<Member>, clock: int, now: int)
    requires SequenceOk(s, history, clock) && now >= clock
    ensures Member(now, NextNumber(s, now)) !in history
  {
  }

  lemma RecentAgain(recent: seq<Member>, history: seq<Member>, from: int)
    requires recent == Above(history, from)
    ensures Above(recent, from) == recent
  {
    AboveTwice(history, from, from);
  }

  lemma RejectionKeepsWindow(w: Window, history: seq<Member>, clock: int, width: int, now: int)
    requires WindowOk(w, history, clock, width) && now >= clock
    ensures WindowOk(AfterRejection(w, now, width), history, now, width)
  {
    PrunedIsRecent(w, history, clock, width, now);
    RecentAgain(Pruned(w, now, width), history, now - width);
  }

  lemma AboveSnoc(members: seq<Member>, m: Member, from: int)
    ensures Above(members + [m], from) == Above(members, from) + (if m.time > from then [m] else [])
  {
    assert (members + [m])[..|members|] == members;
  }

  lemma AddedToRecent(recent: seq<Member>, history: seq<Member>, m: Member, from: int)
    requires m.time > from && m !in history && recent == Above(history, from)
    ensures Above(Added(recent, m), from) == Above(history + [m], from)
  {
    if m in recent { AboveIsMember(history, from, m); }
    AboveTwice(history, from, from);
    AboveSnoc(recent, m, from);
    AboveSnoc(history, m, from);
  }

  lemma AdmissionKeepsWindow(w: Window, history: seq<Member>, clock: int, width: int, now: int, m: Member)
    requires WindowOk(w, history, clock, width) && now >= clock && m.time == now && width > 0 && m !in history
    requires forall h | h in history :: h.time <= clock
    ensures WindowOk(AfterAdmission(w, now, width, m), history + [m], now, width)
  {
    PrunedIsRecent(w, history, clock, width, now);
    var recent := Pruned(w, now, width);
    AddedToRecent(recent, history, m, now - width);
    NewWindowOk(Added(recent, m), history, m, width);
  }

  lemma NewWindowOk(members: seq<Member>, history: seq<Member>, m: Member, width: int)
    requires Above(members, m.time - width) == Above(history + [m], m.time - width) && forall h | h in history ::
        h.time <= m.time
    ensures WindowOk(Window(members, m.time + width + KEY_SLACK), history + [m], m.time, width)
  {
  }

  lemma {:induction false} CountMonotone(history: seq<Member>, from: int, to: int, wideFrom: int, wideTo: int)
    requires wideFrom <= from && to <= wideTo
    ensures CountBetween(history, from, to) <= CountBetween(history, wideFrom, wideTo)
  {
    if history != [] {
      CountMonotone(history[..|history| - 1], from, to, wideFrom, wideTo);
    }
  }

  lemma {:induction false} NoneLater(history: seq<Member>, last: int, from: int, to: int)
    requires (forall h | h in history :: h.time <= last) && last <= to
    ensures CountBetween(history, from, to) == CountBetween(history, from, last)
  {
    if history != [] {
      assert history[|history| - 1] in history;
      assert forall h | h in history[..|history| - 1] :: h in history;
      NoneLater(history[..|history| - 1], last, from, to);
    }
  }

  lemma WindowAfterAdmission(history: seq<Member>, m: Member, t: int, width: int, limit: nat)
    requires InLast(history, t, width) <= limit && InLast(history, m.time, width) < limit
    requires forall h | h in history :: h.time <= m.time
    ensures InLast(history + [m], t, width) <= limit
  {
    assert (history + [m])[..|history|] == history;
    if t - width < m.time <= t {
      NoneLater(history, m.time, t - width, t);
      CountMonotone(history, t - width, m.time, m.time - width, m.time);
    }
  }

  lemma AdmissionKeepsLimits(history: seq<Member>, m: Member)
    requires WithinLimits(history) && HistoryAdmits(history, m.time) && forall h | h in history :: h.time <= m.time
    ensures WithinLimits(history + [m])
  {
    forall t ensures InLast(history + [m], t, MINUTE) <= MINUTE_LIMIT {
      WindowAfterAdmission(history, m, t, MINUTE, MINUTE_LIMIT);
    }
    forall t ensures InLast(history + [m], t, DAY) <= DAY_LIMIT {
      WindowAfterAdmission(history, m, t, DAY, DAY_LIMIT);
    }
  }

  lemma AdmissionKeeps(l: Limiter, now: int, m: Member)
    requires Inv(l) && now >= l.clock && Admits(l, now) && m == Member(now, NextNumber(l.sequence, now))
    ensures Inv(Admitted(l, now, m))
  {
    hide WindowOk, WithinLimits, HistoryAdmits, Admits, AfterAdmission;
    MemberIsNew(l.sequence, l.history, l.clock, now);
    SequenceTimes(l);
    assert (l.history + [m])[..|l.history|] == l.history;
    DecidesAsHistory(l, now);
    AdmissionKeepsLimits(l.history, m);
    AdmissionKeepsWindow(l.minute, l.history, l.clock, MINUTE, now, m);
    AdmissionKeepsWindow(l.day, l.history, l.clock, DAY, now, m);
  }

  lemma RejectionKeeps(l: Limiter, now: int)
    requires Inv(l) && now >= l.clock
    ensures Inv(Rejected(l, now))
  {
    RejectionKeepsWindow(l.minute, l.history, l.clock, MINUTE, now);
    RejectionKeepsWindow(l.day, l.history, l.clock, DAY, now);
  }

  lemma AttemptKeeps(l: Limiter, now: int)
    requires Inv(l) && now >= l.clock
    ensures Inv(Attempt(l, now))
  {
    if Admits(l, now) {
      AdmissionKeeps(l, now, Member(now, NextNumber(l.sequence, now)));
    } else {
      RejectionKeeps(l, now);
    }
  }

  lemma {:induction false} RunKeeps(states: seq<Limiter>, i: nat)
    requires IsRun(states) && i < |states|
    ensures Inv(states[i])
    decreases i
  {
    if i > 0 {
      RunKeeps(states, i - 1);
      StepKeeps(states[i - 1], states[i]);
    }
  }

  lemma StepKeeps(l: Limiter, l': Limiter)
    requires Inv(l) && Follows(l, l')
    ensures Inv(l')
  {
    AttemptKeeps(l, l'.clock);
  }

  // ------------------------------------------------------------------------ theorems

  /** In any run the pruned sets decide exactly as the full history would, at any later time. */
  lemma LimiterRefinesHistory(states: seq<Limiter>, i: nat, now: int)
    requires IsRun(states) && i < |states| && now >= states[i].clock
    ensures Admits(states[i], now) <==> HistoryAdmits(states[i].history, now)
  {
    RunKeeps(states, i);
    DecidesAsHistory(states[i], now);
  }

  /**
   * An attempt enters the history exactly when fewer than ten admissions lie in its
   * last minute and fewer than twenty in its last day.
   */
  lemma AttemptAnswers(states: seq<Limiter>, i: nat, now: int)
    requires IsRun(states) && i < |states| && now >= states[i].clock
    ensures var l, l' := states[i], Attempt(states[i], now);
            if InLast(l.history, now, 60_000) < 10 && InLast(l.history, now, 86_400_000) < 20 then
              |l'.history| == |l.history| + 1 && l.history <= l'.history && l'.history[|l.history|].time == now
            else l'.history == l.history
  {
    LimiterRefinesHistory(states, i, now);
    hide IsRun, InLast, Admits, AfterAdmission, AfterRejection;
  }

  /** In any run any minute holds at most ten admissions and any day at most twenty. */
  lemma EveryWindowIsBounded(states: seq<Limiter>, i: nat, t: int)
    requires IsRun(states) && i < |states|
    ensures InLast(states[i].history, t, MINUTE) <= MINUTE_LIMIT
    ensures InLast(states[i].history, t, DAY) <= DAY_LIMIT
  {
    RunKeeps(states, i);
  }

  lemma {:induction false} DistinctPairs(history: seq<Member>)
    requires Distinct(history)
    ensures forall i, j | 0 <= i < j < |history| :: history[i] != history[j]
  {
    if history != [] {
      var before := history[..|history| - 1];
      DistinctPairs(before);
      forall i, j | 0 <= i < j < |history| ensures history[i] != history[j] {
        assert history[i] == before[i] && history[i] in before;
        if j < |before| { assert before[i] != before[j]; }
      }
    }
  }

  /** Members of all admissions ever are distinct, so no admission is swallowed by an earlier one in either set. */
  lemma MembersNeverCollide(states: seq<Limiter>, i: nat)
    requires IsRun(states) && i < |states|
    ensures forall j, k | 0 <= j < k < |states[i].history| :: states[i].history[j] != states[i].history[k]
  {
    RunKeeps(states, i);
    DistinctPairs(states[i].history);
  }

  /** At any later time both sets list exactly the admissions of their width: an admission is in both or in neither. */
  lemma SetsAreRecentHistory(states: seq<Limiter>, i: nat, now: int)
    requires IsRun(states) && i < |states| && now >= states[i].clock
    ensures Pruned(states[i].minute, now, MINUTE) == Above(states[i].history, now - MINUTE)
    ensures Pruned(states[i].day, now, DAY) == Above(states[i].history, now - DAY)
  {
    RunKeeps(states, i);
    PrunedIsRecent(states[i].minute, states[i].history, states[i].clock, MINUTE, now);
    PrunedIsRecent(states[i].day, states[i].history, states[i].clock, DAY, now);
  }

  // ------------------------------------------------------------- the script in its own form

  class ProfileWriteCounter {
    var minute: Window
    var day: Window
    var sequence: Sequence
    ghost var clock: int
    ghost var history: seq<Member>

    constructor ()
      ensures Snapshot() == FRESH
    {
      minute, day, sequence := Window([], 0), Window([], 0), Sequence(0, 0);
      clock, history := 0, [];
    }

    ghost function Snapshot(): Limiter
      reads this
    {
      Limiter(minute, day, sequence, clock, history)
    }

    /** Drops the members that left their window. */
    method RemoveOld(w: Window, now: int, width: int) returns (kept: Window)
      ensures kept == AfterRejection(w, now, width)
    {
      var members := [];
      if now <= w.expireAt {
        for i := 0 to |w.members|
          invariant members == Above(w.members[..i], now - width)
        {
          assert w.members[..i + 1][..i] == w.members[..i];
          if w.members[i].time > now - width { members := members + [w.members[i]]; }
        }
        assert w.members[..|w.members|] == w.members;
      }
      kept := Window(members, w.expireAt);
    }

    /** One call at the Redis time `now`; answers whether it is admitted and the two counts. */
    method Check(now: int) returns (allowed: bool, minuteCount: nat, dayCount: nat)
      modifies this
      ensures Snapshot() == Attempt(old(Snapshot()), now)
      ensures allowed == Admits(old(Snapshot()), now)
      ensures minuteCount == |Pruned(old(minute), now, MINUTE)| + (if allowed then 1 else 0)
      ensures dayCount == |Pruned(old(day), now, DAY)| + (if allowed then 1 else 0)
    {
      clock := now;
      minute := RemoveOld(minute, now, MINUTE);
      day := RemoveOld(day, now, DAY);
      minuteCount, dayCount := |minute.members|, |day.members|;
      if minuteCount >= MINUTE_LIMIT || dayCount >= DAY_LIMIT { return false, minuteCount, dayCount; }
      var number := (if now <= sequence.expireAt then sequence.value else 0) + 1;
      var member := Member(now, number);
      sequence := Sequence(number, now + DAY + KEY_SLACK);
      minute := Window(Added(minute.members, member), now + MINUTE + KEY_SLACK);
      day := Window(Added(day.members, member), now + DAY + KEY_SLACK);
      history := history + [member];
      allowed, minuteCount, dayCount := true, minuteCount + 1, dayCount + 1;
    }
  }
}
