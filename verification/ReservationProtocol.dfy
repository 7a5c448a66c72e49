/**
 * Publishes of one agent, interleaved at the granularity of Redis scripts and
 * database transactions: reserve, resynchronise from rows, write, load the
 * committed rows, close.
 */
module ReservationProtocol {
  import opened Common
  import opened PublishQuota
  import opened RateReservations

  datatype Phase = Reserving | Written | Done

  /** What a finishing publish read: the first `upTo` rows of the append-only table, from a cutoff on. */
  datatype Loaded = Loaded(upTo: nat, cutoff: int)

  /** One publish, known by its random reservation token. `loaded` is what it read after its commit. */
  datatype Session = Session(items: seq<Draft>, inserted: seq<Draft>, committed: bool, loaded: Option<Loaded>,
                             phase: Phase)

  datatype World = World(agent: int, keys: Keys, clock: int, ledger: Ledger, sessions: map<string, Session>)

  const NO_KEY := ZSet(map[], 0)

  function Fresh(agent: int): World {
    World(agent, Keys(NO_KEY, NO_KEY, NO_KEY), 0, EMPTY, map[])
  }

  function Batch(items: seq<Draft>, token: string): seq<Entry> {
    seq(|items|, i requires 0 <= i < |items| => Entry(Member(items[i].clientId, Some(token)), items[i].surface))
  }

  function Members(ids: set<string>, token: string): set<Member> {
    set id | id in ids :: Member(id, Some(token))
  }

  // ------------------------------------------------------------------ the steps

  datatype Op =
    | Reserve(token: string, items: seq<Draft>, elapsed: nat)
    | Resync(upTo: nat, cutoff: int, elapsed: nat)
    | Write(token: string, write: WriteRequest)
    | Load(token: string, cutoff: int)
    | CloseByReconcile(token: string, elapsed: nat)
    | CloseByRelease(token: string, elapsed: nat)
    | GiveUp(token: string, elapsed: nat)

  /** A first attempt with a new token, or the second attempt of the same publish. */
  predicate MayReserve(w: World, token: string, items: seq<Draft>) {
    && DistinctIds(items)
    && (token in w.sessions ==> w.sessions[token].phase == Reserving && w.sessions[token].items == items)
  }

  predicate InPhase(w: World, token: string, phase: Phase) {
    token in w.sessions && w.sessions[token].phase == phase
  }

  function Attempted(w: World, token: string, items: seq<Draft>, now: int, keys: Keys): World {
    w.(clock := now, keys := keys, sessions := w.sessions[token := Session(items, [], false, None, Reserving)])
  }

  /** What an attempt makes of the sets; a publish without candidates does not call Redis. */
  function ReservedKeys(k: Keys, token: string, items: seq<Draft>, now: int): Keys {
    if items == [] then k else AdmitKeys(k, now, Batch(items, token))
  }

  function AfterReserve(w: World, token: string, items: seq<Draft>, elapsed: nat): World {
    if !MayReserve(w, token, items) then w
    else Attempted(w, token, items, w.clock + elapsed, ReservedKeys(w.keys, token, items, w.clock + elapsed))
  }

  /** The rows of the agent in the window, among the first `upTo` of the table. */
  function LoadedRows(w: World, l: Loaded): seq<Row> {
    RateRows(w.ledger.rows[..Min(l.upTo, |w.ledger.rows|)], w.agent, l.cutoff)
  }

  function Reconciled(w: World, l: Loaded, elapsed: nat): World {
    w.(clock := w.clock + elapsed, keys := Reconcile(w.clock + elapsed, LoadedRows(w, l)))
  }

  /** A reconcile before the write, or one whose reply was lost; the rows may come from any older snapshot. */
  function AfterResync(w: World, upTo: nat, cutoff: int, elapsed: nat): World {
    Reconciled(w, Loaded(upTo, cutoff), elapsed)
  }

  function AfterWrite(w: World, token: string, r: WriteRequest): World {
    if !InPhase(w, token, Reserving) || r.agent != w.agent || r.candidates != w.sessions[token].items then w
    else
      var s := w.sessions[token];
      var (ledger, reply) := WriteTx(w.ledger, r);
      w.(ledger := ledger,
         sessions := w.sessions[token := s.(phase := Written, committed := reply.Accepted?,
                                            inserted := if reply.Accepted? then reply.inserted else [])])
  }

  predicate MayLoad(w: World, token: string) {
    && InPhase(w, token, Written) && w.sessions[token].committed
    && w.sessions[token].loaded.None? && w.sessions[token].items != []
  }

  /** After its commit a publish reads the rows in a query of its own, without the lock. */
  function AfterLoad(w: World, token: string, cutoff: int): World {
    if !MayLoad(w, token) then w
    else w.(sessions := w.sessions[token := w.sessions[token].(loaded := Some(Loaded(|w.ledger.rows|, cutoff)))])
  }

  predicate MayReconcile(w: World, token: string) {
    InPhase(w, token, Written) && w.sessions[token].loaded.Some?
  }

  /** Later it rebuilds the sets from what it read. */
  function AfterReconcile(w: World, token: string, elapsed: nat): World {
    if !MayReconcile(w, token) then w
    else
      var s := w.sessions[token];
      Reconciled(w, s.loaded.value, elapsed).(sessions := w.sessions[token := s.(phase := Done)])
  }

  /** Without a commit, or when loading or reconciling failed: release what was reserved and not inserted. */
  function AfterRelease(w: World, token: string, elapsed: nat): World {
    if !InPhase(w, token, Written) then w
    else
      var s, now := w.sessions[token], w.clock + elapsed;
      w.(clock := now, keys := Release(w.keys, now, Members(Ids(s.items) - Ids(s.inserted), token)),
         sessions := w.sessions[token := s.(phase := Done)])
  }

  /** A publish refused after its reservation, before its database write. */
  function AfterGiveUp(w: World, token: string, elapsed: nat): World {
    if !InPhase(w, token, Reserving) then w
    else
      var s, now := w.sessions[token], w.clock + elapsed;
      w.(clock := now, keys := Release(w.keys, now, Members(Ids(s.items), token)),
         sessions := w.sessions[token := s.(phase := Done)])
  }

  function Step(w: World, op: Op): World {
    match op
    case Reserve(token, items, elapsed) => AfterReserve(w, token, items, elapsed)
    case Resync(upTo, cutoff, elapsed) => AfterResync(w, upTo, cutoff, elapsed)
    case Write(token, r) => AfterWrite(w, token, r)
    case Load(token, cutoff) => AfterLoad(w, token, cutoff)
    case CloseByReconcile(token, elapsed) => AfterReconcile(w, token, elapsed)
    case CloseByRelease(token, elapsed) => AfterRelease(w, token, elapsed)
    case GiveUp(token, elapsed) => AfterGiveUp(w, token, elapsed)
  }

  function Run(w: World, ops: seq<Op>): World
    decreases |ops|
  {
    if ops == [] then w else Run(Step(w, ops[0]), ops[1..])
  }

  // ------------------------------------------------------------- the three sets

  /** The first map is the disjoint union of the other two, with the same scores. */
  ghost predicate Union(total: map<Member, int>, participation: map<Member, int>, focus: map<Member, int>) {
    && (forall m :: m in total <==> m in participation || m in focus)
    && (forall m | m in participation :: m !in focus && participation[m] == total[m])
    && (forall m | m in focus :: focus[m] == total[m])
  }

  /** The total set is the disjoint union of the other two, with the same scores and a shared expiry. */
  ghost predicate Consistent(k: Keys) {
    && Union(k.total.scores, k.participation.scores, k.focus.scores)
    && (forall m | m in k.participation.scores :: k.participation.expireAt == k.total.expireAt)
    && (forall m | m in k.focus.scores :: k.focus.expireAt == k.total.expireAt)
  }

  function SurfaceIn(participation: map<Member, int>, m: Member): Surface {
    if m in participation then Participation else Focus
  }

  predicate Asked(items: seq<Draft>, id: string, surface: Surface) {
    exists d :: d in items && d.clientId == id && d.surface == surface
  }

  /** Every reservation belongs to a publish that asked for that item on that surface. */
  ghost predicate Accounted(k: Keys, sessions: map<string, Session>) {
    forall m | m in k.total.scores && m.token.Some? ::
      && m.token.value in sessions
      && Asked(sessions[m.token.value].items, m.clientId, SurfaceIn(k.participation.scores, m))
  }

  /** The clients whose reservation is still recorded under a token. */
  ghost function Leftover(k: Keys, token: string): set<string> {
    set m | m in k.total.scores && m.token == Some(token) :: m.clientId
  }

  lemma LeftoverIsRecorded(k: Keys, token: string)
    ensures forall id :: id in Leftover(k, token) <==> Member(id, Some(token)) in k.total.scores
  {
    forall id | id in Leftover(k, token) ensures Member(id, Some(token)) in k.total.scores {
      var m :| m in k.total.scores && m.token == Some(token) && m.clientId == id;
      assert m == Member(id, Some(token));
    }
  }

  ghost predicate Settled(k: Keys, sessions: map<string, Session>) {
    forall token | token in sessions && sessions[token].phase == Done ::
        Leftover(k, token) <= Ids(sessions[token].inserted)
  }

  ghost predicate SessionsOk(sessions: map<string, Session>) {
    forall token | token in sessions ::
      && DistinctIds(sessions[token].items)
      && Ids(sessions[token].inserted) <= Ids(sessions[token].items)
  }

  ghost predicate Inv(w: World) {
    && Consistent(w.keys) && Accounted(w.keys, w.sessions) && Settled(w.keys, w.sessions)
    && SessionsOk(w.sessions) && OneRowPerItem(w.ledger.rows)
  }

  /** A step that rebuilds the sets from rows. */
  predicate Reconciles(w: World, op: Op) {
    op.Resync? || (op.CloseByReconcile? && MayReconcile(w, op.token))
  }

  // -------------------------------------------------------- scripts keep the sets

  /** Where a member of the enlarged total set comes from. */
  ghost predicate Origin(m: Member, total: map<Member, int>, participation: map<Member, int>, batch: seq<Entry>,
                         grown: map<Member, int>) {
    || (m in total && SurfaceIn(participation, m) == SurfaceIn(grown, m))
    || Entry(m, SurfaceIn(grown, m)) in batch
  }

  lemma AddOneKeepsUnion(total: map<Member, int>, participation: map<Member, int>, focus: map<Member, int>, e: Entry,
                         score: int)
    requires Union(total, participation, focus)
    requires e.member in total ==> SurfaceIn(participation, e.member) == e.surface
    ensures Union(AddOne(total, e, None, score), AddOne(participation, e, Some(Participation), score),
                  AddOne(focus, e, Some(Focus), score))
    ensures forall m | m in AddOne(total, e, None, score) ::
              SurfaceIn(AddOne(participation, e, Some(Participation), score), m)
              == if m == e.member then e.surface else SurfaceIn(participation, m)
  {
  }

  lemma {:induction false} AddKeepsUnion(total: map<Member, int>, participation: map<Member, int>,
                                         focus: map<Member, int>,
                                         batch: seq<Entry>, score: int)
    requires Union(total, participation, focus) && DistinctMembers(batch)
    requires forall e | e in batch && e.member in total :: SurfaceIn(participation, e.member) == e.surface
    ensures Union(AddAll(total, batch, None, score), AddAll(participation, batch, Some(Participation), score),
                  AddAll(focus, batch, Some(Focus), score))
    ensures forall m | m in AddAll(total, batch, None, score) ::
              Origin(m, total, participation, batch, AddAll(participation, batch, Some(Participation), score))
  {
    if batch != [] {
      var n := |batch| - 1;
      var before, last := batch[..n], batch[n];
      assert forall e | e in before :: e in batch && e.member != last.member;
      AddKeepsUnion(total, participation, focus, before, score);
      hide Union;
      var t0, p0 := AddAll(total, before, None, score), AddAll(participation, before, Some(Participation), score);
      assert last in batch;
      if last.member in t0 {
        assert Origin(last.member, total, participation, before, p0);
      }
      AddOneKeepsUnion(t0, p0, AddAll(focus, before, Some(Focus), score), last, score);
      forall m | m in AddAll(total, batch, None, score)
        ensures Origin(m, total, participation, batch, AddAll(participation, batch, Some(Participation), score))
      {
        if m != last.member { assert Origin(m, total, participation, before, p0); }
      }
    }
  }

  lemma PruneKeepsUnion(k: Keys, now: int)
    requires Consistent(k)
    ensures Union(Pruned(k.total, now), Pruned(k.participation, now), Pruned(k.focus, now))
    ensures forall m | m in Pruned(k.total, now) ::
              m in k.total.scores && SurfaceIn(Pruned(k.participation, now), m) == SurfaceIn(k.participation.scores, m)
  {
  }

  lemma AdmitKeepsConsistent(k: Keys, now: int, batch: seq<Entry>)
    requires Consistent(k) && DistinctMembers(batch)
    requires forall e | e in batch && e.member in k.total.scores ::
        SurfaceIn(k.participation.scores, e.member) == e.surface
    ensures Consistent(AdmitKeys(k, now, batch))
    ensures forall m | m in AdmitKeys(k, now, batch).total.scores ::
              Origin(m, k.total.scores, k.participation.scores, batch, AdmitKeys(k, now, batch).participation.scores)
  {
    var total, participation, focus := Pruned(k.total, now), Pruned(k.participation, now), Pruned(k.focus, now);
    PruneKeepsUnion(k, now);
    var k' := AdmitKeys(k, now, batch);
    if Fits(k, now, batch) {
      AddKeepsUnion(total, participation, focus, batch, now);
      forall m | m in k'.total.scores
        ensures Origin(m, k.total.scores, k.participation.scores, batch, k'.participation.scores)
      {
        assert Origin(m, total, participation, batch, k'.participation.scores);
      }
    }
  }

  lemma ReleaseKeepsConsistent(k: Keys, now: int, members: set<Member>)
    requires Consistent(k)
    ensures Consistent(Release(k, now, members))
    ensures forall m | m in Release(k, now, members).total.scores ::
              && m in k.total.scores && m !in members
              && SurfaceIn(Release(k, now, members).participation.scores, m) == SurfaceIn(k.participation.scores, m)
  {
  }

  predicate UniqueClients(rows: seq<Row>) {
    forall i, j | 0 <= i < j < |rows| :: rows[i].clientId != rows[j].clientId
  }

  lemma {:induction false} RateRowsUnique(rows: seq<Row>, agent: int, cutoff: int)
    requires OneRowPerItem(rows)
    ensures UniqueClients(RateRows(rows, agent, cutoff))
    ensures forall r :: r in RateRows(rows, agent, cutoff) <==> r in rows && r.agent == agent && r.createdAt >= cutoff
  {
    if rows != [] {
      var n := |rows| - 1;
      var before := RateRows(rows[..n], agent, cutoff);
      RateRowsUnique(rows[..n], agent, cutoff);
      assert rows == rows[..n] + [rows[n]];
      forall i | 0 <= i < |before| ensures before[i].clientId != rows[n].clientId || rows[n].agent != agent {
        assert before[i] in before;
        var j :| 0 <= j < n && rows[..n][j] == before[i];
        assert rows[j] == before[i];
      }
    }
  }

  lemma ReconcileIsConsistent(now: int, rows: seq<Row>)
    requires UniqueClients(rows)
    ensures Consistent(Reconcile(now, rows))
    ensures forall m | m in Reconcile(now, rows).total.scores :: m.token.None?
    ensures forall r | r in rows ::
              && Member(r.clientId, None) in Reconcile(now, rows).total.scores
              && Reconcile(now, rows).total.scores[Member(r.clientId, None)] == r.createdAt
              && SurfaceIn(Reconcile(now, rows).participation.scores, Member(r.clientId, None)) == r.surface
  {
    hide RowScores;
    RowScoresAreRows(rows, None);
    RowScoresAreRows(rows, Some(Participation));
    RowScoresAreRows(rows, Some(Focus));
  }

  // ------------------------------------------------------------ one step keeps it

  lemma BatchEntry(items: seq<Draft>, token: string, e: Entry)
    requires e in Batch(items, token)
    ensures e.member.token == Some(token) && Asked(items, e.member.clientId, e.surface)
  {
    var i :| 0 <= i < |items| && Batch(items, token)[i] == e;
    assert items[i] in items;
  }

  /** With distinct client identifiers an item is asked for on one surface only. */
  lemma AskedOnce(items: seq<Draft>, id: string, left: Surface, right: Surface)
    requires DistinctIds(items) && Asked(items, id, left) && Asked(items, id, right)
    ensures left == right
  {
    var d :| d in items && d.clientId == id && d.surface == left;
    var e :| e in items && e.clientId == id && e.surface == right;
    var i :| 0 <= i < |items| && items[i] == d;
    var j :| 0 <= j < |items| && items[j] == e;
    assert i == j;
  }

  /** Every member of the later keys was recorded before on the same surface, or is asked for under the token. */
  ghost predicate GrownBy(k: Keys, k': Keys, token: string, items: seq<Draft>) {
    forall m | m in k'.total.scores ::
      || (m in k.total.scores && SurfaceIn(k.participation.scores, m) == SurfaceIn(k'.participation.scores, m))
      || (m.token == Some(token) && Asked(items, m.clientId, SurfaceIn(k'.participation.scores, m)))
  }

  /** After a reservation every recorded member was there before or is one of the batch. */
  lemma ReserveOrigin(k: Keys, now: int, items: seq<Draft>, token: string, sessions: map<string, Session>)
    requires Consistent(k) && Accounted(k, sessions) && DistinctIds(items)
    requires token in sessions ==> sessions[token].items == items
    ensures Consistent(AdmitKeys(k, now, Batch(items, token)))
    ensures GrownBy(k, AdmitKeys(k, now, Batch(items, token)), token, items)
  {
    var batch := Batch(items, token);
    forall e | e in batch && e.member in k.total.scores
      ensures SurfaceIn(k.participation.scores, e.member) == e.surface
    {
      BatchEntry(items, token, e);
      AskedOnce(items, e.member.clientId, SurfaceIn(k.participation.scores, e.member), e.surface);
    }
    AdmitKeepsConsistent(k, now, batch);
    var k' := AdmitKeys(k, now, batch);
    forall m | m in k'.total.scores
      ensures || (m in k.total.scores && SurfaceIn(k.participation.scores, m) == SurfaceIn(k'.participation.scores, m))
              || (m.token == Some(token) && Asked(items, m.clientId, SurfaceIn(k'.participation.scores, m)))
    {
      assert Origin(m, k.total.scores, k.participation.scores, batch, k'.participation.scores);
      var e := Entry(m, SurfaceIn(k'.participation.scores, m));
      if e in batch { BatchEntry(items, token, e); }
    }
  }

  lemma GrownKeysStayAccounted(k: Keys, k': Keys, sessions: map<string, Session>, token: string, s: Session)
    requires Accounted(k, sessions) && GrownBy(k, k', token, s.items)
    requires token in sessions ==> sessions[token].items == s.items
    ensures Accounted(k', sessions[token := s])
  {
  }

  lemma GrownKeysStaySettled(k: Keys, k': Keys, sessions: map<string, Session>, token: string, s: Session)
    requires Settled(k, sessions) && GrownBy(k, k', token, s.items)
    requires s.phase != Done
    ensures Settled(k', sessions[token := s])
  {
    forall other | other in sessions && other != token ensures Leftover(k', other) <= Leftover(k, other) {
    }
  }

  lemma AttemptKeeps(w: World, token: string, items: seq<Draft>, now: int, k: Keys)
    requires Inv(w) && DistinctIds(items) && (token in w.sessions ==> w.sessions[token].items == items)
    requires Consistent(k) && GrownBy(w.keys, k, token, items)
    ensures Inv(Attempted(w, token, items, now, k))
  {
    var s := Session(items, [], false, None, Reserving);
    GrownKeysStayAccounted(w.keys, k, w.sessions, token, s);
    GrownKeysStaySettled(w.keys, k, w.sessions, token, s);
    assert SessionsOk(w.sessions[token := s]);
  }

  /** The reservation grows the sets by members of its own batch at most. */
  lemma ReservedKeysGrow(k: Keys, now: int, items: seq<Draft>, token: string, sessions: map<string, Session>)
    requires Consistent(k) && Accounted(k, sessions) && DistinctIds(items)
    requires token in sessions ==> sessions[token].items == items
    ensures Consistent(ReservedKeys(k, token, items, now))
    ensures GrownBy(k, ReservedKeys(k, token, items, now), token, items)
  {
    hide AdmitKeys;
    if items != [] { ReserveOrigin(k, now, items, token, sessions); }
  }

  lemma ReserveKeeps(w: World, token: string, items: seq<Draft>, elapsed: nat)
    requires Inv(w) && MayReserve(w, token, items)
    ensures Inv(AfterReserve(w, token, items, elapsed))
  {
    hide ReservedKeys, GrownBy, Attempted;
    ReservedKeysGrow(w.keys, w.clock + elapsed, items, token, w.sessions);
    AttemptKeeps(w, token, items, w.clock + elapsed, ReservedKeys(w.keys, token, items, w.clock + elapsed));
  }

  lemma ReleaseStepKeeps(w: World, w': World, token: string, ids: set<string>)
    requires Inv(w) && token in w.sessions
    requires w'.keys == Release(w.keys, w'.clock, Members(ids, token))
    requires w'.sessions == w.sessions[token := w.sessions[token].(phase := Done)]
    requires w'.ledger == w.ledger && w'.agent == w.agent
    requires Ids(w.sessions[token].items) - Ids(w.sessions[token].inserted) <= ids
    ensures Inv(w')
  {
    ReleaseKeepsConsistent(w.keys, w'.clock, Members(ids, token));
    forall other | other in w'.sessions && w'.sessions[other].phase == Done
      ensures Leftover(w'.keys, other) <= Ids(w'.sessions[other].inserted)
    {
      assert Leftover(w'.keys, other) <= Leftover(w.keys, other);
      if other == token {
        forall m | m in w'.keys.total.scores && m.token == Some(token)
          ensures m.clientId in Ids(w.sessions[token].inserted)
        {
          var d :| d in w.sessions[token].items && d.clientId == m.clientId;
          assert d.clientId in Ids(w.sessions[token].items);
          assert m == Member(m.clientId, Some(token));
        }
      } else {
        assert other in w.sessions && w.sessions[other].phase == Done;
      }
    }
  }

  /** Reconciled sets hold no reservation of anybody. */
  lemma ReconcileLeavesNoReservation(now: int, rows: seq<Row>, token: string)
    requires UniqueClients(rows)
    ensures Leftover(Reconcile(now, rows), token) == {}
  {
    hide Reconcile;
    ReconcileIsConsistent(now, rows);
    assert forall m | m in Reconcile(now, rows).total.scores :: m.token != Some(token);
  }

  lemma LoadedRowsUnique(w: World, l: Loaded)
    requires OneRowPerItem(w.ledger.rows)
    ensures UniqueClients(LoadedRows(w, l))
  {
    RateRowsUnique(w.ledger.rows[..Min(l.upTo, |w.ledger.rows|)], w.agent, l.cutoff);
  }

  lemma ReconcileStepKeeps(w: World, w': World, l: Loaded)
    requires Inv(w)
    requires w'.keys == Reconcile(w'.clock, LoadedRows(w, l)) && w'.ledger == w.ledger
    requires SessionsOk(w'.sessions)
    ensures Inv(w')
    ensures forall token :: Leftover(w'.keys, token) == {}
  {
    hide Reconcile, LoadedRows, UniqueClients;
    LoadedRowsUnique(w, l);
    ReconcileIsConsistent(w'.clock, LoadedRows(w, l));
    forall token ensures Leftover(w'.keys, token) == {} {
      ReconcileLeavesNoReservation(w'.clock, LoadedRows(w, l), token);
    }
  }

  /** Items the write inserted are among the ones reserved before it. */
  lemma InsertedWereReserved(l: Ledger, r: WriteRequest)
    requires WriteTx(l, r).1.Accepted?
    ensures Ids(WriteTx(l, r).1.inserted) <= Ids(r.candidates)
  {
  }

  lemma WriteKeeps(w: World, token: string, r: WriteRequest)
    requires Inv(w)
    ensures Inv(AfterWrite(w, token, r))
  {
    var w' := AfterWrite(w, token, r);
    if InPhase(w, token, Reserving) && r.agent == w.agent && r.candidates == w.sessions[token].items {
      WriteKeepsItemsUnique(w.ledger, r);
      if WriteTx(w.ledger, r).1.Accepted? { InsertedWereReserved(w.ledger, r); }
      forall other | other in w'.sessions && w'.sessions[other].phase == Done
        ensures Leftover(w'.keys, other) <= Ids(w'.sessions[other].inserted)
      {
        assert other in w.sessions && w.sessions[other] == w'.sessions[other];
      }
    }
  }

  lemma ReleaseKeeps(w: World, token: string, elapsed: nat)
    requires Inv(w) && InPhase(w, token, Written)
    ensures Inv(AfterRelease(w, token, elapsed))
  {
    hide Release, Members, Inv;
    var s := w.sessions[token];
    ReleaseStepKeeps(w, AfterRelease(w, token, elapsed), token, Ids(s.items) - Ids(s.inserted));
  }

  lemma GiveUpKeeps(w: World, token: string, elapsed: nat)
    requires Inv(w) && InPhase(w, token, Reserving)
    ensures Inv(AfterGiveUp(w, token, elapsed))
  {
    hide Release, Members, Inv;
    ReleaseStepKeeps(w, AfterGiveUp(w, token, elapsed), token, Ids(w.sessions[token].items));
  }

  lemma LoadKeeps(w: World, token: string, cutoff: int)
    requires Inv(w)
    ensures Inv(AfterLoad(w, token, cutoff))
  {
    hide Consistent, Leftover, OneRowPerItem;
  }

  /** A reconcile by anyone keeps the invariant and takes every reservation away. */
  lemma ReconcileKeeps(w: World, op: Op)
    requires Inv(w) && Reconciles(w, op)
    ensures Inv(Step(w, op)) && forall token :: Leftover(Step(w, op).keys, token) == {}
  {
    hide Reconcile, LoadedRows, Leftover, Consistent, Accounted, Settled, OneRowPerItem;
    match op
    case Resync(upTo, cutoff, elapsed) => ReconcileStepKeeps(w, Step(w, op), Loaded(upTo, cutoff));
    case CloseByReconcile(token, elapsed) => ReconcileStepKeeps(w, Step(w, op), w.sessions[token].loaded.value);
  }

  lemma StepKeeps(w: World, op: Op)
    requires Inv(w)
    ensures Inv(Step(w, op))
  {
    hide Inv;
    match op
    case Reserve(token, items, elapsed) =>
      if MayReserve(w, token, items) { ReserveKeeps(w, token, items, elapsed); }
    case Resync(upTo, cutoff, elapsed) => ReconcileKeeps(w, op);
    case Write(token, r) => WriteKeeps(w, token, r);
    case Load(token, cutoff) => LoadKeeps(w, token, cutoff);
    case CloseByReconcile(token, elapsed) =>
      if MayReconcile(w, token) { ReconcileKeeps(w, op); }
    case CloseByRelease(token, elapsed) =>
      if InPhase(w, token, Written) { ReleaseKeeps(w, token, elapsed); }
    case GiveUp(token, elapsed) =>
      if InPhase(w, token, Reserving) { GiveUpKeeps(w, token, elapsed); }
  }

  lemma {:induction false} RunKeeps(w: World, ops: seq<Op>)
    requires Inv(w)
    ensures Inv(Run(w, ops))
    decreases |ops|
  {
    if ops != [] {
      StepKeeps(w, ops[0]);
      RunKeeps(Step(w, ops[0]), ops[1..]);
    }
  }

  /** A reachable state of the protocol. */
  ghost predicate Reached(w: World, ops: seq<Op>) {
    w == Run(Fresh(w.agent), ops)
  }

  lemma ReachedInv(w: World, ops: seq<Op>)
    requires Reached(w, ops)
    ensures Inv(w)
  {
    assert Inv(Fresh(w.agent));
    hide Inv, Run;
    RunKeeps(Fresh(w.agent), ops);
  }

  // ------------------------------------------------------ theorems: what is reserved

  /** In every interleaving the total set is the disjoint union of the two surface sets, with equal scores. */
  lemma TotalIsTheDisjointUnion(w: World, ops: seq<Op>)
    requires Reached(w, ops)
    ensures Consistent(w.keys)
  {
    ReachedInv(w, ops);
  }

  /** In every interleaving a finished publish leaves no reservation except for items it inserted. */
  lemma FinishedPublishesLeaveOnlyInserted(w: World, ops: seq<Op>, token: string)
    requires Reached(w, ops) && InPhase(w, token, Done)
    ensures Leftover(w.keys, token) <= Ids(w.sessions[token].inserted)
  {
    ReachedInv(w, ops);
  }

  /** The reservations of the inserted items are all still there at a given time. */
  ghost predicate StillReserved(w: World, token: string, now: int)
    requires token in w.sessions
  {
    forall id | id in Ids(w.sessions[token].inserted) :: Member(id, Some(token)) in Alive(w.keys.total, now)
  }

  /** What a release leaves under its own token. */
  lemma LeftAfterRelease(k: Keys, now: int, token: string, released: set<string>, id: string)
    ensures id in Leftover(Release(k, now, Members(released, token)), token)
       <==> Member(id, Some(token)) in Alive(k.total, now) && id !in released
  {
    LeftoverIsRecorded(Release(k, now, Members(released, token)), token);
    assert Member(id, Some(token)) in Members(released, token) <==> id in released;
  }

  lemma ReleasedExactly(w: World, token: string, elapsed: nat)
    requires Inv(w) && InPhase(w, token, Written)
    ensures Leftover(AfterRelease(w, token, elapsed).keys, token) == Ids(w.sessions[token].inserted)
       <==> StillReserved(w, token, w.clock + elapsed)
  {
    var w' := AfterRelease(w, token, elapsed);
    var s := w.sessions[token];
    ReleaseKeeps(w, token, elapsed);
    assert Leftover(w'.keys, token) <= Ids(s.inserted);
    hide Inv, Release, Members, Leftover, Alive, Ids;
    forall id | id in Ids(s.inserted)
      ensures id in Leftover(w'.keys, token) <==> Member(id, Some(token)) in Alive(w.keys.total, w'.clock)
    {
      LeftAfterRelease(w.keys, w'.clock, token, Ids(s.items) - Ids(s.inserted), id);
    }
  }

  /**
   * Closing with the compensating release leaves exactly the inserted items,
   * if and only if their reservations are still there when it starts.
   */
  lemma ReleaseLeavesExactlyInserted(w: World, ops: seq<Op>, token: string, elapsed: nat)
    requires Reached(w, ops) && InPhase(w, token, Written)
    ensures Leftover(AfterRelease(w, token, elapsed).keys, token) == Ids(w.sessions[token].inserted)
       <==> StillReserved(w, token, w.clock + elapsed)
  {
    hide Inv, Reached;
    ReachedInv(w, ops);
    ReleasedExactly(w, token, elapsed);
  }

  /** The publish is past its write and left the given token without any reservation. */
  ghost predicate WrittenOff(w: World, token: string) {
    token in w.sessions && w.sessions[token].phase != Reserving && Leftover(w.keys, token) == {}
  }

  lemma GrownWithoutOther(k: Keys, k': Keys, token: string, items: seq<Draft>, other: string)
    requires GrownBy(k, k', token, items) && token != other && Leftover(k, other) == {}
    ensures Leftover(k', other) == {}
  {
    LeftoverIsRecorded(k, other);
    LeftoverIsRecorded(k', other);
    forall id ensures id !in Leftover(k', other) {
      assert Member(id, Some(other)) !in k.total.scores;
    }
  }

  lemma ReserveOfOther(w: World, token: string, items: seq<Draft>, elapsed: nat, other: string)
    requires Inv(w) && WrittenOff(w, other)
    ensures WrittenOff(AfterReserve(w, token, items, elapsed), other)
  {
    hide ReservedKeys, GrownBy, Leftover, Consistent, Accounted, Settled, OneRowPerItem;
    if MayReserve(w, token, items) {
      var k' := ReservedKeys(w.keys, token, items, w.clock + elapsed);
      ReservedKeysGrow(w.keys, w.clock + elapsed, items, token, w.sessions);
      GrownWithoutOther(w.keys, k', token, items, other);
    }
  }

  lemma ReleaseTakesAway(k: Keys, now: int, members: set<Member>, other: string)
    ensures Leftover(Release(k, now, members), other) <= Leftover(k, other)
  {
  }

  /** No step gives a publish past its write a reservation again. */
  lemma WrittenOffStays(w: World, op: Op, token: string)
    requires Inv(w) && WrittenOff(w, token)
    ensures WrittenOff(Step(w, op), token)
  {
    hide Inv, Release, Leftover, Reconcile, LoadedRows, Members, Ids;
    match op
    case Reserve(other, items, elapsed) => ReserveOfOther(w, other, items, elapsed, token);
    case Resync(upTo, cutoff, elapsed) => ReconcileKeeps(w, op);
    case Write(other, r) =>
    case Load(other, cutoff) =>
    case CloseByReconcile(other, elapsed) => if MayReconcile(w, other) { ReconcileKeeps(w, op); }
    case CloseByRelease(other, elapsed) =>
      if InPhase(w, other, Written) {
        var s := w.sessions[other];
        ReleaseTakesAway(w.keys, w.clock + elapsed, Members(Ids(s.items) - Ids(s.inserted), other), token);
      }
    case GiveUp(other, elapsed) =>
      if InPhase(w, other, Reserving) {
        ReleaseTakesAway(w.keys, w.clock + elapsed, Members(Ids(w.sessions[other].items), other), token);
      }
  }

  lemma {:induction false} WrittenOffForGood(w: World, ops: seq<Op>, token: string)
    requires Inv(w) && WrittenOff(w, token)
    ensures Inv(Run(w, ops)) && WrittenOff(Run(w, ops), token)
    decreases |ops|
  {
    hide Inv, WrittenOff, Step;
    if ops != [] {
      StepKeeps(w, ops[0]);
      WrittenOffStays(w, ops[0], token);
      WrittenOffForGood(Step(w, ops[0]), ops[1..], token);
    }
  }

  /**
   * Once anyone reconciled after a publish's write, whatever happens next: the
   * publish has no reservation left, so a compensating release is exact if and
   * only if the publish inserted nothing.
   */
  lemma ReconcileDefeatsRelease(w: World, before: seq<Op>, op: Op, more: seq<Op>, token: string, elapsed: nat)
    requires Reached(w, before) && InPhase(w, token, Written) && Reconciles(w, op)
    requires InPhase(Run(Step(w, op), more), token, Written)
    ensures var later := Run(Step(w, op), more);
            && Leftover(later.keys, token) == {}
            && (Leftover(AfterRelease(later, token, elapsed).keys, token) == Ids(later.sessions[token].inserted)
                <==> later.sessions[token].inserted == [])
  {
    ReachedInv(w, before);
    ReconcileKeeps(w, op);
    assert WrittenOff(Step(w, op), token);
    hide Inv, Step, Run, Reached, Release;
    WrittenOffForGood(Step(w, op), more, token);
    var later := Run(Step(w, op), more);
    var s := later.sessions[token];
    ReleaseTakesAway(later.keys, later.clock + elapsed, Members(Ids(s.items) - Ids(s.inserted), token), token);
    assert s.inserted != [] ==> s.inserted[0].clientId in Ids(s.inserted);
  }

  // --------------------------------------------------- theorems: what is reconciled

  /** A row the quota window counts for the agent. */
  predicate Counted(r: Row, agent: int, cutoff: int) {
    r.agent == agent && r.createdAt >= cutoff
  }

  /**
   * The set holds one member for each row of the agent in the window, scored by its creation time,
   * and nothing else.
   */
  ghost predicate MirrorsRows(k: Keys, rows: seq<Row>, agent: int, cutoff: int) {
    && (forall m | m in k.total.scores ::
          m.token.None? && exists r :: r in rows && Counted(r, agent, cutoff) && r.clientId == m.clientId)
    && (forall r | r in rows && Counted(r, agent, cutoff) ::
          && Member(r.clientId, None) in k.total.scores
          && k.total.scores[Member(r.clientId, None)] == r.createdAt
          && SurfaceIn(k.participation.scores, Member(r.clientId, None)) == r.surface)
  }

  lemma ReconcileMirrors(now: int, rows: seq<Row>, agent: int, cutoff: int)
    requires OneRowPerItem(rows)
    ensures MirrorsRows(Reconcile(now, RateRows(rows, agent, cutoff)), rows, agent, cutoff)
  {
    var recent := RateRows(rows, agent, cutoff);
    RateRowsUnique(rows, agent, cutoff);
    ReconcileIsConsistent(now, recent);
    RowScoresAreRows(recent, None);
    forall m | m in Reconcile(now, recent).total.scores
      ensures exists r :: r in rows && Counted(r, agent, cutoff) && r.clientId == m.clientId
    {
      var i :| 0 <= i < |recent| && Member(recent[i].clientId, None) == m;
      assert recent[i] in recent;
    }
  }

  /**
   * Sets that mirror a prefix of the table mirror the whole table exactly when no counted row lies
   * behind the prefix.
   */
  lemma MirrorOfPrefix(k: Keys, rows: seq<Row>, n: nat, agent: int, cutoff: int)
    requires n <= |rows| && OneRowPerItem(rows) && MirrorsRows(k, rows[..n], agent, cutoff)
    ensures MirrorsRows(k, rows, agent, cutoff) <==> forall i | n <= i < |rows| :: !Counted(rows[i], agent, cutoff)
  {
    assert forall r :: r in rows[..n] ==> r in rows;
    if i :| n <= i < |rows| && Counted(rows[i], agent, cutoff) {
      forall r | r in rows[..n] ensures r.clientId != rows[i].clientId || r.agent != agent {
        var j :| 0 <= j < n && rows[..n][j] == r;
        assert rows[j] == r;
      }
      assert rows[i] in rows;
    } else {
      forall r | r in rows && Counted(r, agent, cutoff) ensures r in rows[..n] {
        var j :| 0 <= j < |rows| && rows[j] == r;
        assert rows[..n][j] == r;
      }
    }
  }

  /** A publish past its write keeps what it inserted and loaded, and the table only grows. */
  ghost predicate Continues(w: World, w': World, token: string)
    requires token in w.sessions
  {
    && token in w'.sessions && w'.agent == w.agent && w.ledger.rows <= w'.ledger.rows
    && w'.sessions[token].phase != Reserving
    && w'.sessions[token].inserted == w.sessions[token].inserted
    && (w.sessions[token].loaded.Some? ==> w'.sessions[token].loaded == w.sessions[token].loaded)
  }

  lemma StepContinues(w: World, op: Op, token: string)
    requires token in w.sessions && w.sessions[token].phase != Reserving
    ensures Continues(w, Step(w, op), token)
  {
    hide Release, Members, Ids, Reconcile, LoadedRows, ReservedKeys;
  }

  lemma {:induction false} RunContinues(w: World, ops: seq<Op>, token: string)
    requires token in w.sessions && w.sessions[token].phase != Reserving
    ensures Continues(w, Run(w, ops), token)
    decreases |ops|
  {
    hide Step;
    if ops != [] {
      StepContinues(w, ops[0], token);
      RunContinues(Step(w, ops[0]), ops[1..], token);
    }
  }

  /** The sets after the reconcile mirror exactly the rows the publish had loaded. */
  lemma ReconciledMirrorsLoaded(w: World, token: string, elapsed: nat)
    requires Inv(w) && MayReconcile(w, token)
    ensures var l := w.sessions[token].loaded.value;
            MirrorsRows(AfterReconcile(w, token, elapsed).keys, w.ledger.rows[..Min(l.upTo, |w.ledger.rows|)],
                        w.agent, l.cutoff)
  {
    var l := w.sessions[token].loaded.value;
    var seen := w.ledger.rows[..Min(l.upTo, |w.ledger.rows|)];
    assert OneRowPerItem(seen);
    hide Inv, MirrorsRows, Reconcile;
    ReconcileMirrors(w.clock + elapsed, seen, w.agent, l.cutoff);
  }

  /**
   * A publish loads the committed rows, other publishes go on, and it closes by
   * reconciling: afterwards the sets mirror the committed rows of the window if
   * and only if none of them was committed between the load and the reconcile.
   */
  lemma ReconcileMirrorsTableIff(w: World, before: seq<Op>, token: string, cutoff: int, between: seq<Op>, elapsed: nat)
    requires Reached(w, before) && MayLoad(w, token)
    requires InPhase(Run(AfterLoad(w, token, cutoff), between), token, Written)
    ensures var later := Run(AfterLoad(w, token, cutoff), between);
            && w.ledger.rows <= later.ledger.rows
            && (MirrorsRows(AfterReconcile(later, token, elapsed).keys, later.ledger.rows, w.agent, cutoff)
                <==> forall i | |w.ledger.rows| <= i < |later.ledger.rows| ::
                    !Counted(later.ledger.rows[i], w.agent, cutoff))
  {
    var loaded := AfterLoad(w, token, cutoff);
    ReachedInv(w, before);
    LoadKeeps(w, token, cutoff);
    hide Reached, Run, MirrorsRows, Counted, AfterReconcile;
    RunKeeps(loaded, between);
    RunContinues(loaded, between, token);
    var later := Run(loaded, between);
    ReconciledMirrorsLoaded(later, token, elapsed);
    MirrorOfPrefix(AfterReconcile(later, token, elapsed).keys, later.ledger.rows, |w.ledger.rows|, w.agent, cutoff);
  }

  lemma ReservedByAdmission(k: Keys, now: int, items: seq<Draft>, token: string, ids: set<string>, later: int)
    requires Fits(k, now, Batch(items, token)) && ids <= Ids(items) && later <= now + WINDOW + KEY_SLACK
    ensures forall id | id in ids ::
        Member(id, Some(token)) in Alive(AdmitKeys(k, now, Batch(items, token)).total, later)
  {
    AddAllScores(Pruned(k.total, now), Batch(items, token), None, now);
    forall id | id in ids
      ensures Member(id, Some(token)) in AddAll(Pruned(k.total, now), Batch(items, token), None, now)
    {
      var i :| 0 <= i < |items| && items[i].clientId == id;
      assert Batch(items, token)[i] in Batch(items, token);
    }
  }

  /** The state after one publish's reservation and database write. */
  function ReserveThenWrite(w: World, token: string, items: seq<Draft>, start: nat, r: WriteRequest): World {
    AfterWrite(AfterReserve(w, token, items, start), token, r)
  }

  lemma WrittenState(w: World, token: string, items: seq<Draft>, start: nat, r: WriteRequest)
    requires Inv(w) && token !in w.sessions && DistinctIds(items)
    requires r.agent == w.agent && r.candidates == items
    ensures Inv(ReserveThenWrite(w, token, items, start, r))
        && InPhase(ReserveThenWrite(w, token, items, start, r), token, Written)
    ensures ReserveThenWrite(w, token, items, start, r).sessions[token].inserted
         == (if WriteTx(w.ledger, r).1.Accepted? then WriteTx(w.ledger, r).1.inserted else [])
  {
    ReserveKeeps(w, token, items, start);
    WriteKeeps(AfterReserve(w, token, items, start), token, r);
  }

  lemma WriteTouchesNoKeys(w: World, token: string, r: WriteRequest)
    ensures AfterWrite(w, token, r).keys == w.keys && AfterWrite(w, token, r).clock == w.clock
  {
  }

  lemma ReservedThere(w: World, token: string, items: seq<Draft>, start: nat, ids: set<string>, later: int)
    requires MayReserve(w, token, items) && Fits(w.keys, w.clock + start, Batch(items, token))
    requires ids <= Ids(items) && later <= w.clock + start + WINDOW + KEY_SLACK
    ensures forall id | id in ids ::
        Member(id, Some(token)) in Alive(AfterReserve(w, token, items, start).keys.total, later)
  {
    if items == [] {
      assert Ids(items) == {};
    } else {
      ReservedByAdmission(w.keys, w.clock + start, items, token, ids, later);
    }
  }

  lemma WrittenIsReserved(w: World, token: string, items: seq<Draft>, start: nat, r: WriteRequest, later: int)
    requires Inv(w) && token !in w.sessions && DistinctIds(items)
    requires Fits(w.keys, w.clock + start, Batch(items, token))
    requires r.agent == w.agent && r.candidates == items && later <= w.clock + start + WINDOW + KEY_SLACK
    ensures InPhase(ReserveThenWrite(w, token, items, start, r), token, Written)
    ensures StillReserved(ReserveThenWrite(w, token, items, start, r), token, later)
  {
    WrittenState(w, token, items, start, r);
    var reserved := AfterReserve(w, token, items, start);
    var inserted := AfterWrite(reserved, token, r).sessions[token].inserted;
    InsertedAreItems(w, items, r, inserted);
    ReservedThere(w, token, items, start, Ids(inserted), later);
    WriteTouchesNoKeys(reserved, token, r);
  }

  lemma InsertedAreItems(w: World, items: seq<Draft>, r: WriteRequest, inserted: seq<Draft>)
    requires r.candidates == items
        && inserted == (if WriteTx(w.ledger, r).1.Accepted? then WriteTx(w.ledger, r).1.inserted else [])
    ensures Ids(inserted) <= Ids(items)
  {
    if WriteTx(w.ledger, r).1.Accepted? { InsertedWereReserved(w.ledger, r); }
  }

  /** A publish nobody interrupts, closed before its keys expire, leaves exactly what it inserted. */
  lemma UninterruptedPublishIsExact(w: World, token: string, items: seq<Draft>, start: nat, r: WriteRequest,
                                    elapsed: nat)
    requires Inv(w) && token !in w.sessions && DistinctIds(items)
    requires Fits(w.keys, w.clock + start, Batch(items, token))
    requires r.agent == w.agent && r.candidates == items && elapsed <= WINDOW + KEY_SLACK
    ensures var written := ReserveThenWrite(w, token, items, start, r);
            && InPhase(written, token, Written)
            && Leftover(AfterRelease(written, token, elapsed).keys, token) == Ids(written.sessions[token].inserted)
  {
    WrittenState(w, token, items, start, r);
    WrittenClock(w, token, items, start, r);
    WrittenIsReserved(w, token, items, start, r, w.clock + start + elapsed);
    hide Inv, ReserveThenWrite, AfterRelease, StillReserved, Fits;
    ReleasedExactly(ReserveThenWrite(w, token, items, start, r), token, elapsed);
  }

  lemma WrittenClock(w: World, token: string, items: seq<Draft>, start: nat, r: WriteRequest)
    requires MayReserve(w, token, items)
    ensures ReserveThenWrite(w, token, items, start, r).clock == w.clock + start
  {
    WriteTouchesNoKeys(AfterReserve(w, token, items, start), token, r);
  }

  // ------------------------------------------------- theorems: the retry time in runs

  /** A reconcile writes only rows stamped at most a minute ahead of Redis. */
  predicate Timely(w: World, op: Op) {
    match op
    case Resync(upTo, cutoff, elapsed) => RowsTimely(LoadedRows(w, Loaded(upTo, cutoff)), w.clock + elapsed)
    case CloseByReconcile(token, elapsed) =>
      MayReconcile(w, token) ==> RowsTimely(LoadedRows(w, w.sessions[token].loaded.value), w.clock + elapsed)
    case _ => true
  }

  predicate RowsTimely(rows: seq<Row>, now: int) {
    forall r | r in rows :: r.createdAt <= now + 60_000
  }

  predicate TimelyRun(w: World, ops: seq<Op>)
    decreases |ops|
  {
    ops == [] || (Timely(w, ops[0]) && TimelyRun(Step(w, ops[0]), ops[1..]))
  }

  predicate Outlived(w: World) {
    KeysOutlived(w.keys) && WithinSlack(w.keys, w.clock)
  }

  lemma ReserveKeepsOutlived(w: World, token: string, items: seq<Draft>, elapsed: nat)
    requires Outlived(w)
    ensures Outlived(AfterReserve(w, token, items, elapsed))
  {
    hide KeysOutlived, WithinSlack, AdmitKeys, Admit, Batch;
    var now := w.clock + elapsed;
    SlackLasts(w.keys, w.clock, now);
    AdmitKeepsOutlived(w.keys, now, Batch(items, token));
    AdmitIsAdmitKeys(w.keys, now, Batch(items, token));
  }

  lemma SlackLasts(k: Keys, before: int, now: int)
    requires WithinSlack(k, before) && before <= now
    ensures WithinSlack(k, now)
  {
  }

  lemma AdmitIsAdmitKeys(k: Keys, now: int, batch: seq<Entry>)
    ensures Admit(k, now, batch).0 == AdmitKeys(k, now, batch)
  {
    hide AdmitKeys;
  }

  lemma ReleaseKeepsOutlived(k: Keys, before: int, now: int, members: set<Member>)
    requires KeysOutlived(k) && WithinSlack(k, before) && before <= now
    ensures KeysOutlived(Release(k, now, members)) && WithinSlack(Release(k, now, members), now)
  {
  }

  lemma StepKeepsOutlived(w: World, op: Op)
    requires Outlived(w) && Timely(w, op)
    ensures Outlived(Step(w, op))
  {
    hide KeysOutlived, WithinSlack, Release, Reconcile, Members, Ids, LoadedRows, ReservedKeys;
    match op
    case Reserve(token, items, elapsed) => ReserveKeepsOutlived(w, token, items, elapsed);
    case Resync(upTo, cutoff, elapsed) =>
      ReconcileOutlivedWithinSlack(w.clock + elapsed, LoadedRows(w, Loaded(upTo, cutoff)));
    case Write(token, r) =>
    case Load(token, cutoff) =>
    case CloseByReconcile(token, elapsed) =>
      if MayReconcile(w, token) {
        ReconcileOutlivedWithinSlack(w.clock + elapsed, LoadedRows(w, w.sessions[token].loaded.value));
      }
    case CloseByRelease(token, elapsed) =>
      if InPhase(w, token, Written) {
        var s := w.sessions[token];
        ReleaseKeepsOutlived(w.keys, w.clock, w.clock + elapsed, Members(Ids(s.items) - Ids(s.inserted), token));
      }
    case GiveUp(token, elapsed) =>
      if InPhase(w, token, Reserving) {
        ReleaseKeepsOutlived(w.keys, w.clock, w.clock + elapsed, Members(Ids(w.sessions[token].items), token));
      }
  }

  lemma {:induction false} RunKeepsOutlived(w: World, ops: seq<Op>)
    requires Outlived(w) && TimelyRun(w, ops)
    ensures Outlived(Run(w, ops))
    decreases |ops|
  {
    hide Step, Outlived, Timely;
    if ops != [] {
      StepKeepsOutlived(w, ops[0]);
      RunKeepsOutlived(Step(w, ops[0]), ops[1..]);
    }
  }

  lemma ReachedOutlived(w: World, ops: seq<Op>)
    requires Reached(w, ops) && TimelyRun(Fresh(w.agent), ops)
    ensures KeysOutlived(w.keys)
  {
    assert Outlived(Fresh(w.agent));
    hide Run, TimelyRun;
    RunKeepsOutlived(Fresh(w.agent), ops);
  }

  lemma {:induction false} BatchCounts(items: seq<Draft>, token: string)
    ensures AddCount(map[], Batch(items, token), None) == |items|
    ensures forall s :: AddCount(map[], Batch(items, token), Some(s)) == SurfaceCount(items, s)
  {
    if items != [] {
      var n := |items| - 1;
      BatchCounts(items[..n], token);
      assert Batch(items, token)[..n] == Batch(items[..n], token);
    }
  }

  /** The batch of a publish that has not reserved yet is new to every set. */
  lemma NewPublishIsFresh(w: World, token: string, items: seq<Draft>)
    requires Inv(w) && token !in w.sessions && DistinctIds(items) && |items| <= TOTAL_LIMIT
    requires SurfaceCount(items, Participation) <= PARTICIPATION_LIMIT && SurfaceCount(items, Focus) <= FOCUS_LIMIT
    ensures FreshBatch(w.keys, Batch(items, token))
  {
    var batch := Batch(items, token);
    BatchCounts(items, token);
    forall e | e in batch ensures e.member.token == Some(token) {
      BatchEntry(items, token, e);
    }
    assert forall m | m in w.keys.total.scores :: m.token != Some(token);
    hide AddCount, SurfaceCount, Settled, SessionsOk, OneRowPerItem;
  }

  /**
   * In every interleaving whose reconciles used no row stamped more than a minute
   * ahead of Redis, the retry time a new publish is told is exact: with no other
   * step in between it is admitted after `d` milliseconds if and only if `d` is
   * at least that time.
   */
  lemma RetryIsExactInRuns(w: World, ops: seq<Op>, token: string, items: seq<Draft>, elapsed: nat, d: nat)
    requires Reached(w, ops) && TimelyRun(Fresh(w.agent), ops)
    requires token !in w.sessions && DistinctIds(items) && |items| <= TOTAL_LIMIT
    requires SurfaceCount(items, Participation) <= PARTICIPATION_LIMIT && SurfaceCount(items, Focus) <= FOCUS_LIMIT
    requires !Admit(w.keys, w.clock + elapsed, Batch(items, token)).1.allowed
    ensures AdmittedAfter(w.keys, w.clock + elapsed, Batch(items, token), d)
       <==> d >= Admit(w.keys, w.clock + elapsed, Batch(items, token)).1.retry
  {
    hide Reached, Run, TimelyRun, Inv, KeysOutlived, FreshBatch, Admit, AdmittedAfter, Batch, DistinctIds, SurfaceCount;
    ReachedInv(w, ops);
    ReachedOutlived(w, ops);
    NewPublishIsFresh(w, token, items);
    RetryExactWhenOutlived(w.keys, w.clock + elapsed, Batch(items, token), d);
  }

  // ------------------------------------------------------------- two runs that fail

  const FIRST := Draft("x", Focus, "hx")
  const SECOND := Draft("y", Focus, "hy")
  const FIRST_ROW := Row(1, "x", Focus, "hx", WINDOW)
  const SECOND_ROW := Row(1, "y", Focus, "hy", WINDOW + 1)

  function SingleWrite(d: Draft, now: int): WriteRequest {
    WriteRequest(1, now, [d], [d], d.clientId, d.hash, true, SourcesOk)
  }

  lemma NewItem(d: Draft, stored: map<string, string>)
    requires d.clientId !in stored
    ensures NewItems([d], stored) == Some([d])
  {
    var items := [d];
    assert items[..|items| - 1] == [];
    var before := NewItems([], stored);
    assert before == Some([]);
    assert before.value + [d] == [d];
  }

  lemma {:induction false} FewRows(rows: seq<Row>, f: Filter)
    ensures Count(rows, f) <= |rows|
  {
    if rows != [] { FewRows(rows[..|rows| - 1], f); }
  }

  lemma OneItem(d: Draft, surface: Surface)
    ensures SurfaceCount([d], surface) <= 1
  {
    var items := [d];
    assert items[..|items| - 1] == [];
    assert SurfaceCount([], surface) == 0;
  }

  lemma SmallQuota(rows: seq<Row>, now: int, d: Draft)
    requires |rows| <= 3
    ensures WithinQuota(rows, 1, now, [d])
  {
    hide Count, SurfaceCount;
    FewRows(rows, Filter(1, now - WINDOW, None, None));
    FewRows(rows, Filter(1, now - WINDOW, None, Some(Participation)));
    FewRows(rows, Filter(1, now - WINDOW, None, Some(Focus)));
    OneItem(d, Participation);
    OneItem(d, Focus);
  }

  /** The first few new items are accepted. */
  lemma EarlyWrite(l: Ledger, d: Draft, now: int)
    requires |l.rows| <= 3 && d.clientId !in StoredHashes(l.rows, 1) && (1, d.clientId) !in l.receipts.Keys
    ensures var (l', reply) := WriteTx(l, SingleWrite(d, now));
            && l'.rows == l.rows + [Row(1, d.clientId, d.surface, d.hash, now)]
            && l'.receipts.Keys == l.receipts.Keys + {(1, d.clientId)}
            && reply.Accepted? && reply.inserted == [d]
  {
    hide StoredHashes, WithinQuota, LeftAfter, NewItems, Ids;
    NewItem(d, StoredHashes(l.rows, 1));
    SmallQuota(l.rows, now, d);
    assert RowsOf(1, now, [d]) == [Row(1, d.clientId, d.surface, d.hash, now)];
  }

  lemma SecondIsNew()
    ensures SECOND.clientId !in StoredHashes([FIRST_ROW], 1)
  {
    var rows := [FIRST_ROW];
    assert rows[..|rows| - 1] == [];
    assert StoredHashes([], 1) == map[];
  }

  lemma RunOne(w: World, op: Op, ops: seq<Op>)
    ensures Run(w, [op] + ops) == Run(Step(w, op), ops)
  {
    assert ([op] + ops)[1..] == ops;
  }

  function AfterFirst(): World {
    AfterWrite(AfterReserve(Fresh(1), "a", [FIRST], WINDOW), "a", SingleWrite(FIRST, WINDOW))
  }

  const FIRST_OPS := [Reserve("a", [FIRST], WINDOW), Write("a", SingleWrite(FIRST, WINDOW))]

  lemma FirstIsWritten()
    ensures AfterFirst() == Run(Fresh(1), FIRST_OPS) && AfterFirst().agent == 1
    ensures AfterFirst().sessions == map["a" := Session([FIRST], [FIRST], true, None, Written)]
    ensures AfterFirst().ledger.rows == [FIRST_ROW] && AfterFirst().ledger.receipts.Keys == {(1, "x")}
  {
    hide ReservedKeys, WriteTx;
    EarlyWrite(EMPTY, FIRST, WINDOW);
    assert FIRST_OPS == [FIRST_OPS[0]] + ([FIRST_OPS[1]] + []);
    RunOne(Fresh(1), FIRST_OPS[0], [FIRST_OPS[1]] + []);
    RunOne(Step(Fresh(1), FIRST_OPS[0]), FIRST_OPS[1], []);
  }

  /** A publish whose own reconcile fails after another publish reconciled from older rows loses its inserted item. */
  lemma ReleaseAfterReconcileLosesItems()
    ensures var w := Run(Fresh(1), FIRST_OPS + [Resync(0, 0, 0)]);
            && InPhase(w, "a", Written) && Ids(w.sessions["a"].inserted) == {"x"}
            && Leftover(AfterRelease(w, "a", 0).keys, "a") == {}
  {
    var op := Resync(0, 0, 0);
    FirstIsWritten();
    RunJoins(Fresh(1), FIRST_OPS, [op]);
    assert [op] == [op] + [];
    RunOne(AfterFirst(), op, []);
    hide AfterFirst, Reconcile, LoadedRows;
    var w := Step(AfterFirst(), op);
    assert Reached(AfterFirst(), FIRST_OPS);
    ReconcileDefeatsRelease(AfterFirst(), FIRST_OPS, op, [], "a", 0);
    ReleaseTakesAway(w.keys, w.clock, Members(Ids([FIRST]) - Ids([FIRST]), "a"), "a");
  }

  lemma {:induction false} RunJoins(w: World, ops: seq<Op>, more: seq<Op>)
    ensures Run(w, ops + more) == Run(Run(w, ops), more)
    decreases |ops|
  {
    hide Step;
    if ops == [] {
      assert ops + more == more;
    } else {
      assert (ops + more)[1..] == ops[1..] + more;
      RunJoins(Step(w, ops[0]), ops[1..], more);
    }
  }

  /**
   * While the first publish is between its load and its reconcile, a second one reserves, writes,
   * loads and reconciles.
   */
  const BETWEEN := [Reserve("b", [SECOND], 1), Write("b", SingleWrite(SECOND, WINDOW + 1)), Load("b", 1),
                    CloseByReconcile("b", 0)]

  lemma BetweenSteps(w: World)
    requires w.agent == 1 && w.sessions == map["a" := Session([FIRST], [FIRST], true, Some(Loaded(1, 0)), Written)]
    requires w.ledger.rows == [FIRST_ROW] && w.ledger.receipts.Keys == {(1, "x")}
    ensures var w' := Step(Step(Step(Step(w, BETWEEN[0]), BETWEEN[1]), BETWEEN[2]), BETWEEN[3]);
            InPhase(w', "a", Written) && InPhase(w', "b", Done) && w'.ledger.rows == [FIRST_ROW, SECOND_ROW]
  {
    hide ReservedKeys, WriteTx, Reconcile, LoadedRows, Ids;
    SecondIsNew();
    EarlyWrite(w.ledger, SECOND, WINDOW + 1);
  }

  lemma BetweenRuns(w: World)
    requires w.agent == 1 && w.sessions == map["a" := Session([FIRST], [FIRST], true, Some(Loaded(1, 0)), Written)]
    requires w.ledger.rows == [FIRST_ROW] && w.ledger.receipts.Keys == {(1, "x")}
    ensures InPhase(Run(w, BETWEEN), "a", Written) && InPhase(Run(w, BETWEEN), "b", Done)
    ensures Run(w, BETWEEN).ledger.rows == [FIRST_ROW, SECOND_ROW]
  {
    hide Step, InPhase;
    BetweenSteps(w);
    assert BETWEEN == [BETWEEN[0]] + ([BETWEEN[1]] + ([BETWEEN[2]] + ([BETWEEN[3]] + [])));
    var w1 := Step(w, BETWEEN[0]);
    var w2 := Step(w1, BETWEEN[1]);
    var w3 := Step(w2, BETWEEN[2]);
    RunOne(w, BETWEEN[0], [BETWEEN[1]] + ([BETWEEN[2]] + ([BETWEEN[3]] + [])));
    RunOne(w1, BETWEEN[1], [BETWEEN[2]] + ([BETWEEN[3]] + []));
    RunOne(w2, BETWEEN[2], [BETWEEN[3]] + []);
    RunOne(w3, BETWEEN[3], []);
  }

  /**
   * Then the first publish reconciles from what it had loaded: every publish is done, and the
   * second row is missing from the sets.
   */
  lemma LateReconcileLosesARow()
    ensures var w := AfterReconcile(Run(AfterLoad(AfterFirst(), "a", 0), BETWEEN), "a", 0);
            && InPhase(w, "a", Done) && InPhase(w, "b", Done)
            && SECOND_ROW in w.ledger.rows && Counted(SECOND_ROW, 1, 0)
            && !MirrorsRows(w.keys, w.ledger.rows, 1, 0)
  {
    FirstIsWritten();
    hide AfterFirst, MirrorsRows, Run, Reconcile, LoadedRows;
    var w := AfterFirst();
    BetweenRuns(AfterLoad(w, "a", 0));
    ReconcileMirrorsTableIff(w, FIRST_OPS, "a", 0, BETWEEN, 0);
    var later := Run(AfterLoad(w, "a", 0), BETWEEN);
    RunContinues(AfterLoad(w, "a", 0), BETWEEN, "a");
    assert later.ledger.rows[1] == SECOND_ROW;
  }
}
