/**
 * Activity streams of one Agent: a server that replays a log from a cursor in
 * bounded pages, a connection that may drop what is still in flight, and a client
 * that reconnects with the identifier of the last message it got. Appends happen
 * between any two steps.
 */
module ActivityReplay {
  import opened Common

  const INITIAL_REPLAY := 100
  const REPLAY_PAGE := 100
  const PAGES_MAX := 5

  /** Every message carries an identifier, which the client remembers. */
  datatype Message = Event(id: int) | CursorReset(id: int) | ReplayTruncated(id: int)

  datatype Phase = Replaying(pages: nat) | CheckingLatest | Idle | Closing

  /** `seen` is the position of the client on this connection, `wire` what is in flight. */
  datatype Connection = Connection(seen: int, wire: seq<Message>, cursor: int, phase: Phase)

  /**
   * The log holds the sequence numbers of the retained events in ascending order;
   * `latest` is the head row. `start` is the cursor the client's view starts from.
   */
  datatype World = World(
    log: seq<int>, latest: int, start: int, received: seq<int>, lastId: int, connection: Option<Connection>)

  function Initial(log: seq<int>, latest: int, lastId: int): World {
    World(log, latest, lastId, [], lastId, None)
  }

  // ---------------------------------------------------------------- the queries

  /** The events behind a cursor. */
  function After(log: seq<int>, cursor: int): seq<int> {
    if log == [] then []
    else After(log[..|log| - 1], cursor) + (if log[|log| - 1] > cursor then [log[|log| - 1]] else [])
  }

  function LoadPage(log: seq<int>, cursor: int, limit: nat): seq<int> {
    var pending := After(log, cursor);
    if |pending| > limit then pending[..limit] else pending
  }

  function Oldest(log: seq<int>): int {
    if log == [] then 0 else log[0]
  }

  predicate NeedsReset(log: seq<int>, after: int) {
    after > 0 && Oldest(log) > 0 && after < Oldest(log) - 1
  }

  /** Where a client without a cursor starts. */
  function FirstCursor(latest: int, lastId: int): int {
    if lastId == 0 then Max(0, latest - INITIAL_REPLAY) else lastId
  }

  // ------------------------------------------------------------------ the steps

  datatype Op = Append(id: int) | Connect | WritePage | CheckLatest | Wake | Receive | Close

  function Connected(w: World): World {
    var after := FirstCursor(w.latest, w.lastId);
    var start := if w.lastId == 0 then after else w.start;
    if NeedsReset(w.log, after) then
      w.(start := start,
         connection := Some(Connection(after, [CursorReset(Oldest(w.log) - 1)], Oldest(w.log) - 1, Replaying(0))))
    else w.(start := start, connection := Some(Connection(after, [], after, Replaying(0))))
  }

  function EventsOf(ids: seq<int>): seq<Message> {
    seq(|ids|, i requires 0 <= i < |ids| => Event(ids[i]))
  }

  /** One page of the replay loop; a short page ends it, the last full one leads to the check of the head. */
  function PageWritten(log: seq<int>, c: Connection): Connection
    requires c.phase.Replaying?
  {
    var page := LoadPage(log, c.cursor, REPLAY_PAGE);
    Connection(c.seen, c.wire + EventsOf(page), if page == [] then c.cursor else page[|page| - 1],
               if |page| < REPLAY_PAGE then Idle
               else if c.phase.pages + 1 < PAGES_MAX then Replaying(c.phase.pages + 1) else CheckingLatest)
  }

  function LatestChecked(latest: int, c: Connection): Connection {
    if latest > c.cursor then c.(wire := c.wire + [ReplayTruncated(c.cursor)], phase := Closing) else c.(phase := Idle)
  }

  function Received(w: World, c: Connection): World
    requires c.wire != []
  {
    var m := c.wire[0];
    w.(received := if m.Event? then w.received + [m.id] else w.received, lastId := m.id,
       connection := Some(c.(seen := m.id, wire := c.wire[1..])))
  }

  function Step(w: World, op: Op): World {
    match op
    case Append(id) => if id > w.latest then w.(log := w.log + [id], latest := id) else w
    case Connect => if w.connection.None? then Connected(w) else w
    case WritePage =>
      if w.connection.Some? && w.connection.value.phase.Replaying? then
        w.(connection := Some(PageWritten(w.log, w.connection.value)))
      else w
    case CheckLatest =>
      if w.connection.Some? && w.connection.value.phase.CheckingLatest? then
        w.(connection := Some(LatestChecked(w.latest, w.connection.value)))
      else w
    case Wake =>
      if w.connection.Some? && w.connection.value.phase.Idle? then
        w.(connection := Some(w.connection.value.(phase := Replaying(0))))
      else w
    case Receive => if w.connection.Some? && w.connection.value.wire != [] then Received(w, w.connection.value) else w
    case Close => w.(connection := None)
  }

  function Run(w: World, ops: seq<Op>): World
    decreases |ops|
  {
    if ops == [] then w else Run(Step(w, ops[0]), ops[1..])
  }

  // -------------------------------------------------------------- about the log

  predicate LogOk(log: seq<int>, latest: int) {
    && (forall i | 0 <= i < |log| :: 0 < log[i] <= latest)
    && (forall i, j | 0 <= i < j < |log| :: log[i] < log[j])
    && latest >= 0
  }

  lemma AfterAppend(log: seq<int>, id: int, cursor: int)
    ensures After(log + [id], cursor) == After(log, cursor) + (if id > cursor then [id] else [])
  {
    assert (log + [id])[..|log|] == log;
  }

  /** The first position whose event lies behind the cursor. */
  function Pending(log: seq<int>, cursor: int): (k: nat)
    ensures k <= |log|
  {
    if log == [] then 0
    else if log[|log| - 1] > cursor then Pending(log[..|log| - 1], cursor)
    else |log|
  }

  lemma {:induction false} PendingIsFirst(log: seq<int>, latest: int, cursor: int)
    requires LogOk(log, latest)
    ensures forall i | 0 <= i < |log| :: log[i] > cursor <==> i >= Pending(log, cursor)
  {
    if log != [] {
      var before := log[..|log| - 1];
      PendingIsFirst(before, latest, cursor);
      assert forall i | 0 <= i < |before| :: before[i] == log[i] && log[i] < log[|log| - 1];
    }
  }

  lemma {:induction false} NothingAfter(log: seq<int>, cursor: int)
    requires forall i | 0 <= i < |log| :: log[i] <= cursor
    ensures After(log, cursor) == []
  {
    if log != [] {
      var before := log[..|log| - 1];
      assert forall i | 0 <= i < |before| :: before[i] == log[i];
      NothingAfter(before, cursor);
    }
  }

  lemma {:induction false} AfterIsDrop(log: seq<int>, latest: int, cursor: int)
    requires LogOk(log, latest)
    ensures After(log, cursor) == log[Pending(log, cursor)..]
  {
    if log != [] {
      var n := |log| - 1;
      PendingIsFirst(log, latest, cursor);
      if log[n] > cursor {
        AfterIsDrop(log[..n], latest, cursor);
        var k := Pending(log[..n], cursor);
        assert log[k..] == log[..n][k..] + [log[n]];
      } else {
        NothingAfter(log, cursor);
      }
    }
  }

  /** In an ascending log what lies behind a cursor is a suffix. */
  lemma AfterIsSuffix(log: seq<int>, latest: int, cursor: int)
    requires LogOk(log, latest)
    ensures |After(log, cursor)| <= |log| && After(log, cursor) == log[|log| - |After(log, cursor)|..]
    ensures forall i | 0 <= i < |log| :: log[i] > cursor <==> i >= |log| - |After(log, cursor)|
  {
    PendingIsFirst(log, latest, cursor);
    AfterIsDrop(log, latest, cursor);
  }

  /** What lies behind the `k`-th pending event is the rest of what was pending. */
  lemma AfterAdvance(log: seq<int>, latest: int, cursor: int, k: nat)
    requires LogOk(log, latest) && k < |After(log, cursor)|
    ensures After(log, After(log, cursor)[k]) == After(log, cursor)[k + 1..]
    ensures cursor < After(log, cursor)[k] <= latest && After(log, cursor)[k] > 0
  {
    var pending := After(log, cursor);
    AfterIsSuffix(log, latest, cursor);
    AfterIsSuffix(log, latest, pending[k]);
    var base := |log| - |pending|;
    assert pending[k] == log[base + k];
    var m := |log| - |After(log, pending[k])|;
    assert m > base + k;
    assert forall i | base + k < i < |log| :: log[i] > log[base + k];
    assert log[m..] == pending[k + 1..];
  }

  lemma AllAfter(log: seq<int>, latest: int, cursor: int)
    requires LogOk(log, latest) && (log != [] ==> log[0] > cursor)
    ensures After(log, cursor) == log
  {
    AfterIsSuffix(log, latest, cursor);
    assert forall i | 0 <= i < |log| :: log[i] > cursor;
  }

  lemma ResetSkipsNothing(log: seq<int>, latest: int, after: int)
    requires LogOk(log, latest) && NeedsReset(log, after)
    ensures After(log, Oldest(log) - 1) == After(log, after) && after < Oldest(log) - 1 < latest
  {
    AllAfter(log, latest, after);
    AllAfter(log, latest, Oldest(log) - 1);
  }

  // ------------------------------------------------------------------ invariant

  /** A position the replay can be at: the start, or something behind it that the head has reached. */
  predicate Position(w: World, p: int) {
    p == w.start || w.start < p <= w.latest
  }

  /** The messages in flight lead from one position to another without leaving an event out. */
  ghost predicate Leads(w: World, from: int, wire: seq<Message>, to: int)
    decreases |wire|
  {
    if wire == [] then After(w.log, from) == After(w.log, to) && Position(w, from) && Position(w, to)
    else
      var id := wire[0].id;
      && Position(w, from) && Position(w, id) && id > 0
      && After(w.log, from) == (if wire[0].Event? then [id] else []) + After(w.log, id)
      && Leads(w, id, wire[1..], to)
  }

  ghost predicate ConnectionOk(w: World, c: Connection) {
    && w.received + After(w.log, c.seen) == After(w.log, w.start)
    && Leads(w, c.seen, c.wire, c.cursor)
    && (c.phase.CheckingLatest? || (c.phase.Replaying? && c.phase.pages > 0) ==> c.cursor > 0)
    && (w.lastId > 0 ==> Position(w, w.lastId) && After(w.log, w.lastId) == After(w.log, c.seen))
  }

  ghost predicate Inv(w: World) {
    && LogOk(w.log, w.latest) && w.lastId >= 0
    && (w.lastId == 0 ==> w.received == [])
    && (w.lastId > 0 ==> Position(w, w.lastId) && w.received + After(w.log, w.lastId) == After(w.log, w.start))
    && (w.connection.Some? ==> ConnectionOk(w, w.connection.value))
  }

  // ------------------------------------------------------------- steps keep it

  lemma PositionsAfterAppend(w: World, w': World, p: int)
    requires w'.log == w.log + [w'.latest] && w'.latest > w.latest && w'.start == w.start && Position(w, p)
    ensures Position(w', p)
    ensures After(w'.log, p) == After(w.log, p) + After([w'.latest], w.start)
  {
    AfterAppend(w.log, w'.latest, p);
    assert [w'.latest][..0] == [];
  }

  lemma {:induction false} LeadsAfterAppend(w: World, w': World, from: int, wire: seq<Message>, to: int)
    requires w'.log == w.log + [w'.latest] && w'.latest > w.latest && w'.start == w.start && Leads(w, from, wire, to)
    ensures Leads(w', from, wire, to)
    decreases |wire|
  {
    PositionsAfterAppend(w, w', from);
    if wire == [] {
      PositionsAfterAppend(w, w', to);
    } else {
      PositionsAfterAppend(w, w', wire[0].id);
      LeadsAfterAppend(w, w', wire[0].id, wire[1..], to);
    }
  }

  lemma AppendKeeps(w: World, id: int)
    requires Inv(w) && id > w.latest
    ensures Inv(w.(log := w.log + [id], latest := id))
  {
    var w' := w.(log := w.log + [id], latest := id);
    PositionsAfterAppend(w, w', w.start);
    if w.lastId > 0 { PositionsAfterAppend(w, w', w.lastId); }
    if w.connection.Some? {
      var c := w.connection.value;
      LeadsAt(w, c.seen, c.wire, c.cursor);
      PositionsAfterAppend(w, w', c.seen);
      LeadsAfterAppend(w, w', c.seen, c.wire, c.cursor);
      assert w'.received + (After(w.log, c.seen) + After([id], w.start))
          == (w.received + After(w.log, c.seen)) + After([id], w.start);
    }
    if w.lastId > 0 {
      assert w'.received + (After(w.log, w.lastId) + After([id], w.start))
          == (w.received + After(w.log, w.lastId)) + After([id], w.start);
    }
  }

  lemma {:induction false} LeadsAt(w: World, from: int, wire: seq<Message>, to: int)
    requires Leads(w, from, wire, to)
    ensures Position(w, from) && Position(w, to)
    decreases |wire|
  {
    if wire != [] {
      LeadsAt(w, wire[0].id, wire[1..], to);
    }
  }

  lemma {:induction false} LeadsJoin(w: World, from: int, wire: seq<Message>, middle: int, more: seq<Message>, to: int)
    requires Leads(w, from, wire, middle) && Leads(w, middle, more, to)
    ensures Leads(w, from, wire + more, to)
    decreases |wire|
  {
    if wire == [] {
      assert wire + more == more;
      LeadsFrom(w, from, middle, more, to);
    } else {
      assert (wire + more)[1..] == wire[1..] + more;
      LeadsJoin(w, wire[0].id, wire[1..], middle, more, to);
    }
  }

  /** Only what lies behind a position matters. */
  lemma LeadsFrom(w: World, from: int, other: int, wire: seq<Message>, to: int)
    requires Leads(w, other, wire, to) && Position(w, from) && After(w.log, from) == After(w.log, other)
    ensures Leads(w, from, wire, to)
  {
  }

  lemma EventsOfPrefix(ids: seq<int>, n: nat)
    requires 0 < n <= |ids|
    ensures EventsOf(ids[..n]) == [Event(ids[0])] + EventsOf(ids[1..][..n - 1])
    ensures EventsOf(ids[..n])[1..] == EventsOf(ids[1..][..n - 1])
  {
  }

  lemma {:induction false} PageLeads(w: World, from: int, n: nat)
    requires LogOk(w.log, w.latest) && Position(w, from) && n <= |After(w.log, from)|
    ensures Leads(w, from, EventsOf(After(w.log, from)[..n]), if n == 0 then from else After(w.log, from)[n - 1])
    decreases n
  {
    if n > 0 {
      var pending := After(w.log, from);
      AfterAdvance(w.log, w.latest, from, 0);
      var id := pending[0];
      PageLeads(w, id, n - 1);
      EventsOfPrefix(pending, n);
      hide After, LogOk, EventsOf;
      assert pending == [id] + pending[1..];
    }
  }

  lemma WrittenPageLeads(w: World, c: Connection)
    requires LogOk(w.log, w.latest) && Leads(w, c.seen, c.wire, c.cursor) && c.phase.Replaying?
    ensures Leads(w, c.seen, PageWritten(w.log, c).wire, PageWritten(w.log, c).cursor)
    ensures LoadPage(w.log, c.cursor, REPLAY_PAGE) != [] ==> PageWritten(w.log, c).cursor > 0
  {
    var page := LoadPage(w.log, c.cursor, REPLAY_PAGE);
    LeadsAt(w, c.seen, c.wire, c.cursor);
    PageLeads(w, c.cursor, |page|);
    assert page == After(w.log, c.cursor)[..|page|];
    LeadsJoin(w, c.seen, c.wire, c.cursor, EventsOf(page), if page == [] then c.cursor else page[|page| - 1]);
    if page != [] { AfterAdvance(w.log, w.latest, c.cursor, |page| - 1); }
  }

  lemma ConnectionMoves(w: World, c: Connection, c': Connection)
    requires Inv(w) && w.connection == Some(c) && c'.seen == c.seen && Leads(w, c'.seen, c'.wire, c'.cursor)
    requires c'.phase.CheckingLatest? || (c'.phase.Replaying? && c'.phase.pages > 0) ==> c'.cursor > 0
    ensures Inv(w.(connection := Some(c')))
  {
    LeadsElsewhere(w, w.(connection := Some(c')), c'.seen, c'.wire, c'.cursor);
  }

  lemma WritePageKeeps(w: World, c: Connection)
    requires Inv(w) && w.connection == Some(c) && c.phase.Replaying?
    ensures Inv(w.(connection := Some(PageWritten(w.log, c))))
  {
    WrittenPageLeads(w, c);
    ConnectionMoves(w, c, PageWritten(w.log, c));
  }

  /** The property does not depend on the connection, on what was received or on the last identifier. */
  lemma {:induction false} LeadsElsewhere(w: World, w': World, from: int, wire: seq<Message>, to: int)
    requires Leads(w, from, wire, to) && w'.log == w.log && w'.latest == w.latest && w'.start == w.start
    ensures Leads(w', from, wire, to)
    decreases |wire|
  {
    if wire != [] {
      LeadsElsewhere(w, w', wire[0].id, wire[1..], to);
    }
  }

  lemma CheckLatestKeeps(w: World, c: Connection)
    requires Inv(w) && w.connection == Some(c) && c.phase.CheckingLatest?
    ensures Inv(w.(connection := Some(LatestChecked(w.latest, c))))
  {
    var w' := w.(connection := Some(LatestChecked(w.latest, c)));
    LeadsAt(w, c.seen, c.wire, c.cursor);
    if w.latest > c.cursor {
      assert Leads(w, c.cursor, [], c.cursor);
      assert Leads(w, c.cursor, [ReplayTruncated(c.cursor)], c.cursor) by {
        assert [ReplayTruncated(c.cursor)][1..] == [];
      }
      LeadsJoin(w, c.seen, c.wire, c.cursor, [ReplayTruncated(c.cursor)], c.cursor);
      LeadsElsewhere(w, w', c.seen, c.wire + [ReplayTruncated(c.cursor)], c.cursor);
    } else {
      LeadsElsewhere(w, w', c.seen, c.wire, c.cursor);
    }
  }

  lemma ReceiveKeeps(w: World, c: Connection)
    requires Inv(w) && w.connection == Some(c) && c.wire != []
    ensures Inv(Received(w, c))
  {
    var w' := Received(w, c);
    var m := c.wire[0];
    LeadsElsewhere(w, w', m.id, c.wire[1..], c.cursor);
    if m.Event? {
      assert w'.received + After(w.log, m.id) == w.received + ([m.id] + After(w.log, m.id));
    } else {
      assert [] + After(w.log, m.id) == After(w.log, m.id);
    }
  }

  lemma ConnectKeeps(w: World)
    requires Inv(w) && w.connection.None?
    ensures Inv(Connected(w))
  {
    var w' := Connected(w);
    var after := FirstCursor(w.latest, w.lastId);
    assert Position(w', after);
    assert w'.received + After(w.log, after) == After(w.log, w'.start);
    if NeedsReset(w.log, after) {
      var r := Oldest(w.log) - 1;
      ResetSkipsNothing(w.log, w.latest, after);
      assert Position(w', r);
      assert Leads(w', r, [], r);
      assert [CursorReset(r)][1..] == [];
      assert Leads(w', after, [CursorReset(r)], r);
    } else {
      assert Leads(w', after, [], after);
    }
  }

  lemma StepKeeps(w: World, op: Op)
    requires Inv(w)
    ensures Inv(Step(w, op))
  {
    match op
    case Append(id) => if id > w.latest { AppendKeeps(w, id); }
    case Connect => if w.connection.None? { ConnectKeeps(w); }
    case WritePage =>
      if w.connection.Some? && w.connection.value.phase.Replaying? { WritePageKeeps(w, w.connection.value); }
    case CheckLatest =>
      if w.connection.Some? && w.connection.value.phase.CheckingLatest? { CheckLatestKeeps(w, w.connection.value); }
    case Wake =>
      if w.connection.Some? {
        LeadsElsewhere(w, Step(w, op), w.connection.value.seen, w.connection.value.wire, w.connection.value.cursor);
      }
    case Receive => if w.connection.Some? && w.connection.value.wire != [] { ReceiveKeeps(w, w.connection.value); }
    case Close =>
  }

  lemma {:induction false} RunKeeps(w: World, ops: seq<Op>)
    requires Inv(w)
    ensures Inv(Run(w, ops))
    decreases |ops|
  {
    if ops != [] {
      StepKeeps(w, ops[0]);
      RunKeeps(Step(w, ops[0]), ops[1..]);
    }
  }

  // ------------------------------------------------------------------- theorems

  /**
   * Over any series of streams, truncations, losses and reconnects, interleaved
   * with appends: the events received, followed by those behind the last
   * identifier, are the retained events behind the starting cursor, in order,
   * each once.
   */
  lemma ReplayIsExact(log: seq<int>, latest: int, cursor: int, ops: seq<Op>)
    requires LogOk(log, latest) && cursor >= 0
    ensures var w := Run(Initial(log, latest, cursor), ops);
            if w.lastId == 0 then w.received == [] else w.received + After(w.log, w.lastId) == After(w.log, w.start)
  {
    assert Inv(Initial(log, latest, cursor));
    RunKeeps(Initial(log, latest, cursor), ops);
  }

  lemma StepKeepsStart(w: World, op: Op)
    requires Inv(w) && w.lastId > 0
    ensures Step(w, op).start == w.start && Step(w, op).lastId > 0
  {
    hide After, PageWritten, LatestChecked, LogOk;
    if op.Receive? && w.connection.Some? && w.connection.value.wire != [] {
      assert Leads(w, w.connection.value.seen, w.connection.value.wire, w.connection.value.cursor);
      assert w.connection.value.wire[0].id > 0;
    }
  }

  /** A client that started from a positive cursor never gets another start. */
  lemma {:induction false} PositiveStartIsFixed(w: World, ops: seq<Op>)
    requires Inv(w) && w.lastId > 0
    ensures Run(w, ops).start == w.start && Run(w, ops).lastId > 0
    decreases |ops|
  {
    hide Step, Inv;
    if ops != [] {
      StepKeeps(w, ops[0]);
      StepKeepsStart(w, ops[0]);
      PositiveStartIsFixed(Step(w, ops[0]), ops[1..]);
    }
  }

  /** The events in flight. */
  function InFlight(wire: seq<Message>): seq<int> {
    if wire == [] then [] else (if wire[0].Event? then [wire[0].id] else []) + InFlight(wire[1..])
  }

  /** What is in flight is exactly what lies between the two ends of a connection. */
  lemma {:induction false} WireBridges(w: World, from: int, wire: seq<Message>, to: int)
    requires Leads(w, from, wire, to)
    ensures After(w.log, from) == InFlight(wire) + After(w.log, to)
    decreases |wire|
  {
    if wire != [] { WireBridges(w, wire[0].id, wire[1..], to); }
  }

  /**
   * In every reachable state with an open connection, whatever it is doing: what
   * was received, what is in flight and what is behind the server's cursor make
   * up everything behind the start, in order, each once.
   */
  lemma NothingIsLostInFlight(log: seq<int>, latest: int, cursor: int, ops: seq<Op>)
    requires LogOk(log, latest) && cursor >= 0 && Run(Initial(log, latest, cursor), ops).connection.Some?
    ensures var w := Run(Initial(log, latest, cursor), ops);
            var c := w.connection.value;
            w.received + InFlight(c.wire) + After(w.log, c.cursor) == After(w.log, w.start)
  {
    var w := Run(Initial(log, latest, cursor), ops);
    assert Inv(Initial(log, latest, cursor));
    RunKeeps(Initial(log, latest, cursor), ops);
    var c := w.connection.value;
    hide After;
    WireBridges(w, c.seen, c.wire, c.cursor);
    assert w.received + InFlight(c.wire) + After(w.log, c.cursor)
        == w.received + (InFlight(c.wire) + After(w.log, c.cursor));
  }

  /** When the server goes idle after a page, nothing is left behind its cursor. */
  lemma IdleMeansCaughtUp(w: World, c: Connection)
    requires Inv(w) && w.connection == Some(c) && c.phase.Replaying? && PageWritten(w.log, c).phase.Idle?
    ensures After(w.log, PageWritten(w.log, c).cursor) == []
    ensures w.received + InFlight(PageWritten(w.log, c).wire) == After(w.log, w.start)
  {
    var pending := After(w.log, c.cursor);
    if pending != [] { AfterAdvance(w.log, w.latest, c.cursor, |pending| - 1); }
    var c' := PageWritten(w.log, c);
    WrittenPageLeads(w, c);
    WireBridges(w, c'.seen, c'.wire, c'.cursor);
    hide After, PageWritten;
    assert InFlight(c'.wire) + [] == InFlight(c'.wire);
  }

  /**
   * Where a stream begins: a client without a cursor a hundred events behind the
   * head, any other at its last identifier; a cursor that is older than everything
   * retained is moved up to just before the oldest event, and the client is told.
   */
  lemma StreamBegins(w: World)
    requires Inv(w) && w.connection.None?
    ensures var w' := Step(w, Connect);
            && w'.connection.Some? && w'.lastId == w.lastId && w'.received == w.received && w'.log == w.log
            && var c := w'.connection.value;
               && c.seen == (if w.lastId == 0 then (if w.latest > 100 then w.latest - 100 else 0) else w.lastId)
               && w'.start == (if w.lastId == 0 then c.seen else w.start)
               && c.phase == Replaying(0)
               && (if w.log != [] && w.log[0] > 0 && 0 < c.seen < w.log[0] - 1
                   then c.cursor == w.log[0] - 1 && c.wire == [CursorReset(w.log[0] - 1)]
                   else c.cursor == c.seen && c.wire == [])
  {
  }

  /**
   * One page: the first hundred events behind the cursor, or all of them. A full
   * page is followed by another, the fifth by the check of the head; a short one
   * leaves the server idle.
   */
  lemma PageIsWritten(w: World, c: Connection)
    requires w.connection == Some(c) && c.phase.Replaying?
    ensures var c' := Step(w, WritePage).connection.value;
            var pending := After(w.log, c.cursor);
            var n := if |pending| < 100 then |pending| else 100;
            && c'.seen == c.seen && |c'.wire| == |c.wire| + n && c.wire <= c'.wire
            && (forall i | 0 <= i < n :: c'.wire[|c.wire| + i] == Event(pending[i]))
            && c'.cursor == (if n == 0 then c.cursor else pending[n - 1])
            && c'.phase == (if |pending| < 100 then Idle
                            else if c.phase.pages < 4 then Replaying(c.phase.pages + 1) else CheckingLatest)
  {
  }

  /**
   * After the fifth full page the stream closes with a truncation notice exactly when
   * the head is ahead of the cursor; otherwise it goes idle and sends nothing.
   */
  lemma HeadIsChecked(w: World, c: Connection)
    requires w.connection == Some(c) && c.phase.CheckingLatest?
    ensures var c' := Step(w, CheckLatest).connection.value;
            && c'.seen == c.seen && c'.cursor == c.cursor
            && (if c.cursor < w.latest then c'.phase == Closing && c'.wire == c.wire + [ReplayTruncated(c.cursor)]
                else c'.phase == Idle && c'.wire == c.wire)
  {
  }

  // ------------------------------------------------------------- the list handler

  datatype Listing = Listing(events: seq<int>, next: int, hasMore: bool, wasReset: bool)

  function List(log: seq<int>, latest: int, after0: int, limit: nat): Listing {
    var after := FirstCursor(latest, after0);
    var from := if NeedsReset(log, after) then Oldest(log) - 1 else after;
    var events := LoadPage(log, from, limit);
    Listing(events, if events == [] then from else events[|events| - 1], |events| == limit, NeedsReset(log, after))
  }

  /** A listed page continues exactly where it ends, and no more than it says is left out. */
  lemma ListedPage(log: seq<int>, latest: int, after: int, limit: nat)
    requires LogOk(log, latest) && after >= 0 && limit >= 1
    ensures var l := List(log, latest, after, limit);
            && l.events + After(log, l.next) == After(log, FirstCursor(latest, after))
            && (!l.hasMore ==> After(log, l.next) == [])
            && |l.events| <= limit
  {
    var first := FirstCursor(latest, after);
    if NeedsReset(log, first) { ResetSkipsNothing(log, latest, first); }
    hide NeedsReset, FirstCursor;
    var from := if NeedsReset(log, first) then Oldest(log) - 1 else first;
    var pending, events := After(log, from), List(log, latest, after, limit).events;
    if events != [] { AfterAdvance(log, latest, from, |events| - 1); }
    assert pending == events + pending[|events|..];
  }

  // ------------------------------------------------------------- the stream loop

  /** The server side of one stream: a cursor advanced by every event that is written. */
  class ActivityStream {
    var connection: Connection

    /** Opens at the client's cursor, moved up to the oldest retained event if it is too far behind. */
    constructor (w: World)
      requires w.connection.None?
      ensures Connected(w).connection == Some(connection)
    {
      var after := w.lastId;
      if after == 0 {
        after := Max(0, w.latest - INITIAL_REPLAY);
      }
      var minSeq := Oldest(w.log);
      if after > 0 && minSeq > 0 && after < minSeq - 1 {
        connection := Connection(after, [CursorReset(minSeq - 1)], minSeq - 1, Replaying(0));
      } else {
        connection := Connection(after, [], after, Replaying(0));
      }
    }

    /** Loads one page behind the cursor and writes it event by event. */
    method WritePage(log: seq<int>)
      requires connection.phase.Replaying?
      modifies this
      ensures connection == PageWritten(log, old(connection))
    {
      var events := LoadPage(log, connection.cursor, REPLAY_PAGE);
      for i := 0 to |events|
        invariant connection.seen == old(connection).seen && connection.phase == old(connection).phase
        invariant connection.wire == old(connection).wire + EventsOf(events[..i])
        invariant connection.cursor == if i == 0 then old(connection).cursor else events[i - 1]
      {
        assert EventsOf(events[..i + 1]) == EventsOf(events[..i]) + [Event(events[i])];
        connection := connection.(wire := connection.wire + [Event(events[i])], cursor := events[i]);
      }
      assert events[..|events|] == events;
      var pages := connection.phase.pages + 1;
      if |events| < REPLAY_PAGE {
        connection := connection.(phase := Idle);
      } else if pages < PAGES_MAX {
        connection := connection.(phase := Replaying(pages));
      } else {
        connection := connection.(phase := CheckingLatest);
      }
    }

    /** After the last full page: tell the client to resume if events remain, and end the stream. */
    method CheckLatest(latest: int)
      requires connection.phase.CheckingLatest?
      modifies this
      ensures connection == LatestChecked(latest, old(connection))
    {
      if latest > connection.cursor {
        connection := connection.(wire := connection.wire + [ReplayTruncated(connection.cursor)], phase := Closing);
      } else {
        connection := connection.(phase := Idle);
      }
    }
  }
}
