/**
 * Realtime stream slots: three kinds of streams, each with a mutex over its own
 * counters, share one process counter with a mutex of its own. Every critical
 * section is one step, and the steps of all streams interleave freely.
 */
module StreamSlots {
  const AGENT_MAX := 3
  const PROCESS_MAX := 1000

  datatype Kind = Activity | Control | Communication

  /**
   * A stream is checked under its kind's mutex, takes a process slot, is published
   * in the counters, and later retires from the counters before it gives the
   * process slot back.
   */
  datatype Phase = Checking | Refused | Admitted | Open | Draining | Finished

  datatype Stream = Stream(kind: Kind, agent: int, phase: Phase)

  datatype World = World(
    streams: map<int, Stream>, holder: map<Kind, int>, connections: map<(Kind, int), int>, totals: map<Kind, int>,
        process: int)

  const EMPTY := World(map[], map[], map[], map[Activity := 0, Control := 0, Communication := 0], 0)

  function ConnectionsOf(w: World, kind: Kind, agent: int): int {
    if (kind, agent) in w.connections then w.connections[(kind, agent)] else 0
  }

  function TotalOf(w: World, kind: Kind): int {
    if kind in w.totals then w.totals[kind] else 0
  }

  // ------------------------------------------------------------------- the steps

  datatype Op =
    | Lock(id: int, kind: Kind, agent: int)
    | TakeProcessSlot(id: int)
    | Publish(id: int)
    | Retire(id: int, prune: bool)
    | ReturnProcessSlot(id: int)

  predicate In(w: World, id: int, phase: Phase) {
    id in w.streams && w.streams[id].phase == phase
  }

  function Enter(w: World, id: int, phase: Phase): World
    requires id in w.streams
  {
    w.(streams := w.streams[id := w.streams[id].(phase := phase)])
  }

  /** A new stream takes its kind's mutex. */
  function Locked(w: World, id: int, kind: Kind, agent: int): World {
    if id in w.streams || kind in w.holder then w
    else w.(streams := w.streams[id := Stream(kind, agent, Checking)], holder := w.holder[kind := id])
  }

  /** The check of the Agent's limit, then the check of the process limit under its own mutex. */
  function ProcessSlotTaken(w: World, id: int): World {
    if !In(w, id, Checking) then w
    else
      var s := w.streams[id];
      if ConnectionsOf(w, s.kind, s.agent) >= AGENT_MAX || w.process >= PROCESS_MAX then Enter(w, id, Refused)
      else Enter(w, id, Admitted).(process := w.process + 1)
  }

  /** The end of the critical section: count the stream, or refuse it, and unlock. */
  function Published(w: World, id: int): World {
    if In(w, id, Refused) then Enter(w, id, Finished).(holder := w.holder - {w.streams[id].kind})
    else if In(w, id, Admitted) then
      var s := w.streams[id];
      Enter(w, id, Open).(holder := w.holder - {s.kind},
                          connections := w.connections[(s.kind, s.agent) := ConnectionsOf(w, s.kind, s.agent) + 1],
                          totals := w.totals[s.kind := TotalOf(w, s.kind) + 1])
    else w
  }

  /** Uncounts a stream under its kind's mutex; the entry of an Agent without streams may be dropped. */
  function Retired(w: World, id: int, prune: bool): World {
    if !In(w, id, Open) || w.streams[id].kind in w.holder then w
    else
      var s := w.streams[id];
      var left := ConnectionsOf(w, s.kind, s.agent) - 1;
      Enter(w, id, Draining).(
        connections := if prune && left <= 0 then w.connections - {(s.kind, s.agent)}
            else w.connections[(s.kind, s.agent) := left],
        totals := w.totals[s.kind := TotalOf(w, s.kind) - 1])
  }

  function ProcessSlotReturned(w: World, id: int): World {
    if !In(w, id, Draining) then w
    else Enter(w, id, Finished).(process := if w.process > 0 then w.process - 1 else w.process)
  }

  function Step(w: World, op: Op): World {
    match op
    case Lock(id, kind, agent) => Locked(w, id, kind, agent)
    case TakeProcessSlot(id) => ProcessSlotTaken(w, id)
    case Publish(id) => Published(w, id)
    case Retire(id, prune) => Retired(w, id, prune)
    case ReturnProcessSlot(id) => ProcessSlotReturned(w, id)
  }

  function Run(w: World, ops: seq<Op>): World
    decreases |ops|
  {
    if ops == [] then w else Run(Step(w, ops[0]), ops[1..])
  }

  // ------------------------------------------------------------------ the counts

  predicate HoldsSlot(s: Stream) {
    s.phase == Admitted || s.phase == Open || s.phase == Draining
  }

  /** The streams that hold a process slot. */
  function Holding(streams: map<int, Stream>): set<int> {
    set id | id in streams && HoldsSlot(streams[id])
  }

  function InPhase(streams: map<int, Stream>, phase: Phase): set<int> {
    set id | id in streams && streams[id].phase == phase
  }

  function OpenOf(streams: map<int, Stream>, kind: Kind): set<int> {
    set id | id in streams && streams[id].phase == Open && streams[id].kind == kind
  }

  function OpenFor(streams: map<int, Stream>, kind: Kind, agent: int): set<int> {
    set id | id in streams && streams[id].phase == Open && streams[id].kind == kind && streams[id].agent == agent
  }

  /** A stream in the critical section holds its kind's mutex; once admitted its Agent still has room. */
  ghost predicate MutexOk(w: World) {
    && (forall id | id in w.streams && w.streams[id].phase in {Checking, Refused, Admitted} ::
          w.streams[id].kind in w.holder && w.holder[w.streams[id].kind] == id)
    && (forall id | In(w, id, Admitted) :: ConnectionsOf(w, w.streams[id].kind, w.streams[id].agent) < AGENT_MAX)
  }

  ghost predicate CountsOk(w: World) {
    && w.process == |Holding(w.streams)|
    && (forall kind :: TotalOf(w, kind) == |OpenOf(w.streams, kind)|)
    && (forall kind, agent :: ConnectionsOf(w, kind, agent) == |OpenFor(w.streams, kind, agent)|)
  }

  ghost predicate Inv(w: World) {
    && MutexOk(w) && CountsOk(w)
    && w.process <= PROCESS_MAX
    && forall kind, agent :: ConnectionsOf(w, kind, agent) <= AGENT_MAX
  }

  // ------------------------------------------------------------- steps keep them

  /** What a phase change of one stream does to the counted sets. */
  lemma PhaseChange(streams: map<int, Stream>, id: int, phase: Phase)
    requires id in streams
    ensures var after := streams[id := streams[id].(phase := phase)];
            && Holding(after) == (if HoldsSlot(after[id]) then Holding(streams) + {id} else Holding(streams) - {id})
            && (forall kind :: OpenOf(after, kind)
                  == if phase == Open && streams[id].kind == kind then OpenOf(streams, kind) + {id}
                      else OpenOf(streams, kind) - {id})
            && (forall kind, agent :: OpenFor(after, kind, agent)
                  == if phase == Open && streams[id].kind == kind && streams[id].agent == agent
                     then OpenFor(streams, kind, agent) + {id} else OpenFor(streams, kind, agent) - {id})
  {
    var after := streams[id := streams[id].(phase := phase)];
    forall kind
      ensures OpenOf(after, kind)
           == if phase == Open && streams[id].kind == kind then OpenOf(streams, kind) + {id}
               else OpenOf(streams, kind) - {id}
    {
    }
    forall kind, agent
      ensures OpenFor(after, kind, agent)
           == if phase == Open && streams[id].kind == kind && streams[id].agent == agent
              then OpenFor(streams, kind, agent) + {id} else OpenFor(streams, kind, agent) - {id}
    {
    }
  }

  lemma WithoutElement(s: set<int>, x: int)
    ensures |s - {x}| == |s| - (if x in s then 1 else 0)
    ensures |s + {x}| == |s| + (if x in s then 0 else 1)
  {
    if x !in s {
      assert s - {x} == s;
    } else {
      assert s + {x} == s;
    }
  }

  /** Which of the counted sets a stream is in. */
  lemma MembersBefore(streams: map<int, Stream>, id: int)
    requires id in streams
    ensures id in Holding(streams) <==> HoldsSlot(streams[id])
    ensures forall kind :: id in OpenOf(streams, kind) <==> streams[id].kind == kind && streams[id].phase == Open
    ensures forall kind, agent ::
        id in OpenFor(streams, kind, agent)
        <==> streams[id].kind == kind && streams[id].agent == agent && streams[id].phase == Open
  {
  }

  /** The sizes of the counted sets after a phase change. */
  lemma CountChange(streams: map<int, Stream>, id: int, phase: Phase)
    requires id in streams
    ensures var after := streams[id := streams[id].(phase := phase)];
            && |Holding(after)| == |Holding(streams)| - (if HoldsSlot(streams[id]) then 1 else 0)
                + (if HoldsSlot(after[id]) then 1 else 0)
            && (forall kind :: |OpenOf(after, kind)| == |OpenOf(streams, kind)|
                  + (if streams[id].kind == kind then
                     (if phase == Open then 1 else 0) - (if streams[id].phase == Open then 1 else 0) else 0))
            && (forall kind, agent :: |OpenFor(after, kind, agent)| == |OpenFor(streams, kind, agent)|
                  + (if streams[id].kind == kind && streams[id].agent == agent
                     then (if phase == Open then 1 else 0) - (if streams[id].phase == Open then 1 else 0) else 0))
  {
    PhaseChange(streams, id, phase);
    MembersBefore(streams, id);
    hide OpenOf, OpenFor, Holding;
    WithoutElement(Holding(streams), id);
    forall kind
      ensures |OpenOf(streams, kind) - {id}|
          == |OpenOf(streams, kind)| - (if streams[id].kind == kind && streams[id].phase == Open then 1 else 0)
      ensures |OpenOf(streams, kind) + {id}|
          == |OpenOf(streams, kind)| + (if streams[id].kind == kind && streams[id].phase == Open then 0 else 1)
    {
      WithoutElement(OpenOf(streams, kind), id);
    }
    forall kind, agent
      ensures |OpenFor(streams, kind, agent) - {id}|
           == |OpenFor(streams, kind, agent)|
              - (if streams[id].kind == kind && streams[id].agent == agent && streams[id].phase == Open then 1 else 0)
      ensures |OpenFor(streams, kind, agent) + {id}|
           == |OpenFor(streams, kind, agent)|
               + (if streams[id].kind == kind && streams[id].agent == agent && streams[id].phase == Open then 0 else 1)
    {
      WithoutElement(OpenFor(streams, kind, agent), id);
    }
  }

  lemma LockedKeeps(w: World, id: int, kind: Kind, agent: int)
    requires Inv(w)
    ensures Inv(Locked(w, id, kind, agent))
  {
    var w' := Locked(w, id, kind, agent);
    if w' != w {
      assert Holding(w'.streams) == Holding(w.streams);
      forall k ensures OpenOf(w'.streams, k) == OpenOf(w.streams, k) {
      }
      forall k, a ensures OpenFor(w'.streams, k, a) == OpenFor(w.streams, k, a) {
      }
    }
  }

  lemma ProcessSlotTakenMutex(w: World, id: int)
    requires MutexOk(w)
    ensures MutexOk(ProcessSlotTaken(w, id))
  {
  }

  lemma ProcessSlotTakenKeeps(w: World, id: int)
    requires Inv(w)
    ensures Inv(ProcessSlotTaken(w, id))
  {
    if In(w, id, Checking) {
      ProcessSlotTakenMutex(w, id);
      hide OpenOf, OpenFor, Holding, MutexOk;
      var w' := ProcessSlotTaken(w, id);
      var phase := w'.streams[id].phase;
      CountChange(w.streams, id, phase);
      assert w'.streams == w.streams[id := w.streams[id].(phase := phase)];
      assert CountsOk(w');
    }
  }

  lemma PublishedKeeps(w: World, id: int)
    requires Inv(w)
    ensures Inv(Published(w, id))
  {
    if In(w, id, Refused) {
      CountChange(w.streams, id, Finished);
    } else if In(w, id, Admitted) {
      CountChange(w.streams, id, Open);
      PublishedMutex(w, id);
    }
  }

  lemma PublishedMutex(w: World, id: int)
    requires Inv(w) && In(w, id, Admitted)
    ensures MutexOk(Published(w, id))
  {
    var w' := Published(w, id);
    forall other | In(w', other, Admitted)
      ensures ConnectionsOf(w', w'.streams[other].kind, w'.streams[other].agent) < AGENT_MAX
    {
      assert In(w, other, Admitted) && other != id;
      assert w.streams[other].kind != w.streams[id].kind;
    }
  }

  lemma RetiredKeeps(w: World, id: int, prune: bool)
    requires Inv(w)
    ensures Inv(Retired(w, id, prune))
  {
    if In(w, id, Open) {
      CountChange(w.streams, id, Draining);
    }
  }

  lemma ReturnedKeeps(w: World, id: int)
    requires Inv(w)
    ensures Inv(ProcessSlotReturned(w, id))
  {
    if In(w, id, Draining) {
      CountChange(w.streams, id, Finished);
      SlotHeld(w, id);
    }
  }

  /** Whoever holds a process slot is counted. */
  lemma SlotHeld(w: World, id: int)
    requires CountsOk(w) && id in w.streams && HoldsSlot(w.streams[id])
    ensures w.process > 0
  {
    assert id in Holding(w.streams);
    WithoutElement(Holding(w.streams), id);
  }

  lemma {:induction false} RunKeeps(w: World, ops: seq<Op>)
    requires Inv(w)
    ensures Inv(Run(w, ops))
    decreases |ops|
  {
    if ops != [] {
      match ops[0] {
        case Lock(id, kind, agent) => LockedKeeps(w, id, kind, agent);
        case TakeProcessSlot(id) => ProcessSlotTakenKeeps(w, id);
        case Publish(id) => PublishedKeeps(w, id);
        case Retire(id, prune) => RetiredKeeps(w, id, prune);
        case ReturnProcessSlot(id) => ReturnedKeeps(w, id);
      }
      RunKeeps(Step(w, ops[0]), ops[1..]);
    }
  }

  lemma EmptyIsOk()
    ensures Inv(EMPTY)
  {
    assert Holding(EMPTY.streams) == {};
    forall kind ensures TotalOf(EMPTY, kind) == |OpenOf(EMPTY.streams, kind)| {
      assert OpenOf(EMPTY.streams, kind) == {};
    }
    forall kind, agent ensures ConnectionsOf(EMPTY, kind, agent) == |OpenFor(EMPTY.streams, kind, agent)| {
      assert OpenFor(EMPTY.streams, kind, agent) == {};
    }
  }

  // ------------------------------------------------------------------- theorems

  lemma SlotsSplit(streams: map<int, Stream>)
    ensures |Holding(streams)|
        == |OpenOf(streams, Activity)| + |OpenOf(streams, Control)| + |OpenOf(streams, Communication)|
                                 + |InPhase(streams, Admitted)| + |InPhase(streams, Draining)|
  {
    var a, c, m := OpenOf(streams, Activity), OpenOf(streams, Control), OpenOf(streams, Communication);
    var admitted, draining := InPhase(streams, Admitted), InPhase(streams, Draining);
    forall id ensures id in Holding(streams) <==> id in a + c + m + admitted + draining {
      if id in streams {
        assert streams[id].kind.Activity? || streams[id].kind.Control? || streams[id].kind.Communication?;
      }
    }
    assert Holding(streams) == a + c + m + admitted + draining;
    assert |a + c| == |a| + |c|;
    assert |a + c + m| == |a + c| + |m|;
    assert |a + c + m + admitted| == |a + c + m| + |admitted|;
  }

  /**
   * In every interleaving the process total is the sum of the per-kind totals,
   * plus the streams between their process slot and their publication, plus the
   * streams between their retirement and their release; and it never passes 1000.
   */
  lemma ProcessTotalIsTheSum(ops: seq<Op>)
    ensures var w := Run(EMPTY, ops);
            && w.process == TotalOf(w, Activity) + TotalOf(w, Control) + TotalOf(w, Communication)
                            + |InPhase(w.streams, Admitted)| + |InPhase(w.streams, Draining)|
            && 0 <= w.process <= PROCESS_MAX
  {
    EmptyIsOk();
    RunKeeps(EMPTY, ops);
    SlotsSplit(Run(EMPTY, ops).streams);
  }

  /** In every interleaving an Agent's counter is its number of open streams of that kind, at most three. */
  lemma AgentLimitHolds(ops: seq<Op>, kind: Kind, agent: int)
    ensures var w := Run(EMPTY, ops);
            ConnectionsOf(w, kind, agent) == |OpenFor(w.streams, kind, agent)| <= AGENT_MAX
  {
    EmptyIsOk();
    RunKeeps(EMPTY, ops);
  }

  /**
   * A stream under check is admitted exactly when its Agent has fewer than three open
   * streams of the kind and fewer than a thousand streams hold a process slot;
   * admitted it takes one, and a refused one takes nothing.
   */
  lemma CheckAnswers(ops: seq<Op>, id: int)
    requires In(Run(EMPTY, ops), id, Checking)
    ensures var w := Run(EMPTY, ops);
            var s, w' := w.streams[id], Step(w, TakeProcessSlot(id));
            if |OpenFor(w.streams, s.kind, s.agent)| < 3 && |Holding(w.streams)| < 1000 then
              In(w', id, Admitted) && w'.process == w.process + 1
            else In(w', id, Refused) && w'.process == w.process
  {
    EmptyIsOk();
    RunKeeps(EMPTY, ops);
    hide OpenFor, OpenOf, Holding, Run;
  }

  /** When a stream returns its process slot the counter is positive: the guard never skips a decrement. */
  lemma ReleaseAlwaysDecrements(ops: seq<Op>, id: int)
    requires In(Run(EMPTY, ops), id, Draining)
    ensures ProcessSlotReturned(Run(EMPTY, ops), id).process == Run(EMPTY, ops).process - 1
  {
    EmptyIsOk();
    RunKeeps(EMPTY, ops);
    SlotHeld(Run(EMPTY, ops), id);
  }

  ghost predicate AllFinished(w: World) {
    forall id | id in w.streams :: w.streams[id].phase == Finished
  }

  lemma NothingCounted(w: World, kind: Kind, agent: int)
    requires AllFinished(w)
    ensures Holding(w.streams) == {} && OpenOf(w.streams, kind) == {} && OpenFor(w.streams, kind, agent) == {}
  {
    forall id
      ensures id !in Holding(w.streams) && id !in OpenOf(w.streams, kind) && id !in OpenFor(w.streams, kind, agent)
    {
      assert id in w.streams ==> w.streams[id].phase == Finished;
    }
  }

  /** Once every stream has finished, all counters are back to zero. */
  lemma AllFinishedFreesEverything(ops: seq<Op>, kind: Kind, agent: int)
    requires AllFinished(Run(EMPTY, ops))
    ensures Run(EMPTY, ops).process == 0 && TotalOf(Run(EMPTY, ops), kind) == 0
        && ConnectionsOf(Run(EMPTY, ops), kind, agent) == 0
  {
    EmptyIsOk();
    RunKeeps(EMPTY, ops);
    NothingCounted(Run(EMPTY, ops), kind, agent);
  }

  // ------------------------------------------------------------- the critical sections

  /** The counters as fields; each method body is one critical section. */
  class Slots {
    var connections: map<(Kind, int), int>
    var totals: map<Kind, int>
    var process: int
    ghost var streams: map<int, Stream>
    ghost var holder: map<Kind, int>

    constructor ()
      ensures Snapshot() == EMPTY
    {
      connections, totals, process := map[], map[Activity := 0, Control := 0, Communication := 0], 0;
      streams, holder := map[], map[];
    }

    ghost function Snapshot(): World
      reads this
    {
      World(streams, holder, connections, totals, process)
    }

    method TryAcquireProcessStream() returns (ok: bool)
      modifies this`process
      ensures ok == (old(process) < PROCESS_MAX)
      ensures process == old(process) + (if ok then 1 else 0)
    {
      if process >= PROCESS_MAX { return false; }
      process := process + 1;
      ok := true;
    }

    method ReleaseProcessStream(id: int)
      requires In(Snapshot(), id, Draining)
      modifies this`process, this`streams
      ensures Snapshot() == ProcessSlotReturned(old(Snapshot()), id)
    {
      if process > 0 {
        process := process - 1;
      }
      streams := streams[id := streams[id].(phase := Finished)];
    }

    /** Under the kind's mutex: the Agent's limit, then the process limit. */
    method CheckLimits(id: int, kind: Kind, agent: int) returns (ok: bool)
      requires In(Snapshot(), id, Checking) && streams[id].kind == kind && streams[id].agent == agent
      modifies this`process, this`streams
      ensures Snapshot() == ProcessSlotTaken(old(Snapshot()), id)
      ensures ok <==> In(Snapshot(), id, Admitted)
    {
      var held := if (kind, agent) in connections then connections[(kind, agent)] else 0;
      ok := false;
      if held < AGENT_MAX {
        ok := TryAcquireProcessStream();
      }
      streams := streams[id := streams[id].(phase := if ok then Admitted else Refused)];
    }

    /** Still under the mutex: count the admitted stream, then unlock. */
    method CountStream(id: int, kind: Kind, agent: int)
      requires In(Snapshot(), id, Admitted) && streams[id].kind == kind && streams[id].agent == agent
      modifies this`connections, this`totals, this`streams, this`holder
      ensures Snapshot() == Published(old(Snapshot()), id)
    {
      connections := connections[(kind, agent) :=
                                 (if (kind, agent) in connections then connections[(kind, agent)] else 0) + 1];
      totals := totals[kind := (if kind in totals then totals[kind] else 0) + 1];
      streams := streams[id := streams[id].(phase := Open)];
      holder := holder - {kind};
    }

    /** Uncounts a stream that ends; the mutex is free when it is taken. */
    method UncountStream(id: int, kind: Kind, agent: int, prune: bool)
      requires In(Snapshot(), id, Open) && streams[id].kind == kind && streams[id].agent == agent && kind !in holder
      modifies this`connections, this`totals, this`streams
      ensures Snapshot() == Retired(old(Snapshot()), id, prune)
    {
      var left := (if (kind, agent) in connections then connections[(kind, agent)] else 0) - 1;
      connections := connections[(kind, agent) := left];
      totals := totals[kind := (if kind in totals then totals[kind] else 0) - 1];
      if prune && left <= 0 {
        connections := connections - {(kind, agent)};
        assert connections == old(connections) - {(kind, agent)};
      }
      streams := streams[id := streams[id].(phase := Draining)];
    }
  }
}
