/**
 * The bilateral handshake of one match: two people confirm and gesture in any
 * order, with repeats, and end up with exactly one relationship. Times are whole
 * microseconds.
 */
module Handshake {
  import opened Common

  const GESTURE_WINDOW := 3_000_000

  datatype User = A | B | Stranger

  datatype Status = Pending | Connected

  datatype Handshake = Handshake(
    nonce: string, confirmedA: Option<int>, confirmedB: Option<int>, gestureA: Option<int>, gestureB: Option<int>,
    status: Status, completedAt: Option<int>)

  datatype MatchStatus = Candidate | Handshaking | Linked

  /** What a participant did, as far as it was accepted. */
  datatype Deed = Confirmed(user: User) | Gestured(user: User, at: int)

  /** `relationships` counts the rows of this handshake, `keys` are the idempotency keys of all events so far. */
  datatype Db = Db(
    handshake: Option<Handshake>, matchStatus: MatchStatus, relationships: nat, keys: set<string>, history: seq<Deed>)

  datatype Reply = Done | Duplicate | NonceMismatch | NotParticipant

  function Initial(keys: set<string>): Db {
    Db(None, Candidate, 0, keys, [])
  }

  // -------------------------------------------------------------------- the service

  function Distance(left: int, right: int): int {
    if left < right then right - left else left - right
  }

  function Fresh(nonce: string): Handshake {
    Handshake(nonce, None, None, None, None, Pending, None)
  }

  /** The existing handshake, or a new one; None when the nonce is not the one it was started with. */
  function Ensured(db: Db, nonce: string): Option<Db> {
    if db.handshake.None? then Some(db.(handshake := Some(Fresh(nonce)), matchStatus := Handshaking))
    else if db.handshake.value.nonce != nonce then None
    else Some(db)
  }

  predicate Complete(h: Handshake) {
    && h.confirmedA.Some? && h.confirmedB.Some? && h.gestureA.Some? && h.gestureB.Some?
    && Distance(h.gestureA.value, h.gestureB.value) <= GESTURE_WINDOW
  }

  function Finalized(db: Db, now: int): Db {
    if db.handshake.None? || !Complete(db.handshake.value) || db.relationships > 0 then db
    else db.(handshake := Some(db.handshake.value.(status := Connected, completedAt := Some(now))),
             matchStatus := Linked, relationships := 1)
  }

  function FirstTime(stored: Option<int>, now: int): Option<int> {
    if stored.Some? then stored else Some(now)
  }

  function WithConfirmation(h: Handshake, user: User, now: int): Handshake {
    if user == A then h.(confirmedA := FirstTime(h.confirmedA, now)) else h.(confirmedB := FirstTime(h.confirmedB, now))
  }

  /** A gesture replaces the user's own, and clears the other's if they are too far apart. */
  function WithGesture(h: Handshake, user: User, at: int): Handshake {
    if user == A then
      h.(gestureA := Some(at),
         gestureB := if h.gestureB.Some? && Distance(at, h.gestureB.value) > GESTURE_WINDOW then None else h.gestureB)
    else
      h.(gestureB := Some(at),
         gestureA := if h.gestureA.Some? && Distance(at, h.gestureA.value) > GESTURE_WINDOW then None else h.gestureA)
  }

  function ConfirmTx(db: Db, user: User, nonce: string, key: string, now: int): (Db, Reply) {
    if key in db.keys then (db, Duplicate)
    else
      var ensured := Ensured(db, nonce);
      if ensured.None? then (db, NonceMismatch)
      else if user == Stranger then (db, NotParticipant)
      else
        var e := ensured.value;
        (Finalized(e.(handshake := Some(WithConfirmation(e.handshake.value, user, now)), keys := e.keys + {key},
                      history := e.history + [Confirmed(user)]), now), Done)
  }

  function GestureTx(db: Db, user: User, at: int, nonce: string, now: int): (Db, Reply) {
    var ensured := Ensured(db, nonce);
    if ensured.None? then (db, NonceMismatch)
    else if user == Stranger then (Finalized(ensured.value, now), Done)
    else
      var e := ensured.value;
      (Finalized(e.(handshake := Some(WithGesture(e.handshake.value, user, at)),
                    history := e.history + [Gestured(user, at)]), now), Done)
  }

  /** Other events of the system use up idempotency keys too. */
  datatype Op =
    | Confirm(user: User, nonce: string, key: string, now: int)
    | Gesture(user: User, at: int, nonce: string, now: int)
    | OtherEvent(key: string)

  function Step(db: Db, op: Op): Db {
    match op
    case Confirm(user, nonce, key, now) => ConfirmTx(db, user, nonce, key, now).0
    case Gesture(user, at, nonce, now) => GestureTx(db, user, at, nonce, now).0
    case OtherEvent(key) => db.(keys := db.keys + {key})
  }

  function Run(db: Db, ops: seq<Op>): Db
    decreases |ops|
  {
    if ops == [] then db else Run(Step(db, ops[0]), ops[1..])
  }

  // ---------------------------------------------------- the reference: what history says

  function Other(user: User): User {
    if user == A then B else A
  }

  predicate GestureBy(d: Deed, user: User) {
    d.Gestured? && d.user == user
  }

  /**
   * The gesture at position `i` still stands for its user: they made no later one,
   * and every later gesture of the other is close to it.
   */
  predicate Stands(history: seq<Deed>, user: User, i: int) {
    && 0 <= i < |history| && GestureBy(history[i], user)
    && (forall j | i < j < |history| :: !GestureBy(history[j], user))
    && (forall j | i < j < |history| && GestureBy(history[j], Other(user)) ::
        Distance(history[j].at, history[i].at) <= 3_000_000)
  }

  predicate HasConfirmed(history: seq<Deed>, user: User) {
    exists i :: 0 <= i < |history| && history[i] == Confirmed(user)
  }

  /** Both confirmed, and both have a gesture that still stands. */
  ghost predicate Ready(history: seq<Deed>) {
    && HasConfirmed(history, A) && HasConfirmed(history, B)
    && (exists i :: Stands(history, A, i)) && (exists j :: Stands(history, B, j))
  }

  ghost predicate WasReady(history: seq<Deed>) {
    exists k :: 0 <= k <= |history| && Ready(history[..k])
  }

  // ------------------------------------------------------------------------- invariant

  /** The stored gesture of a user is the one that stands. */
  ghost predicate StoresStanding(stored: Option<int>, history: seq<Deed>, user: User) {
    && (stored.Some? ==> exists i :: Stands(history, user, i) && history[i].at == stored.value)
    && (stored.None? ==> forall i :: !Stands(history, user, i))
  }

  ghost predicate FieldsOk(h: Handshake, history: seq<Deed>) {
    && (h.confirmedA.Some? <==> HasConfirmed(history, A))
    && (h.confirmedB.Some? <==> HasConfirmed(history, B))
    && StoresStanding(h.gestureA, history, A)
    && StoresStanding(h.gestureB, history, B)
    && (h.gestureA.Some? && h.gestureB.Some? ==> Distance(h.gestureA.value, h.gestureB.value) <= GESTURE_WINDOW)
  }

  ghost predicate Inv(db: Db) {
    && (db.handshake.None? ==> db.history == [] && db.relationships == 0 && db.matchStatus == Candidate)
    && (db.handshake.Some? ==>
          && FieldsOk(db.handshake.value, db.history)
          && db.relationships <= 1
          && (db.relationships == 1 <==> WasReady(db.history))
          && (db.relationships == 1 <==> db.handshake.value.status == Connected)
          && (db.relationships == 1 <==> db.handshake.value.completedAt.Some?)
          && db.matchStatus == (if db.relationships == 1 then Linked else Handshaking))
  }

  // ------------------------------------------------------------------ history grows by one

  lemma StandsAfter(history: seq<Deed>, d: Deed, user: User, i: int)
    ensures Stands(history + [d], user, i)
       <==> if i == |history| then GestureBy(d, user)
            else && Stands(history, user, i) && !GestureBy(d, user)
                 && (GestureBy(d, Other(user)) ==> Distance(d.at, history[i].at) <= GESTURE_WINDOW)
  {
    var grown := history + [d];
    assert forall j | 0 <= j < |history| :: grown[j] == history[j];
    assert grown[|history|] == d;
  }

  lemma ConfirmedAfter(history: seq<Deed>, d: Deed, user: User)
    ensures HasConfirmed(history + [d], user) <==> HasConfirmed(history, user) || d == Confirmed(user)
  {
    var grown := history + [d];
    if i :| 0 <= i < |history| && history[i] == Confirmed(user) { assert grown[i] == Confirmed(user); }
    assert grown[|history|] == d;
    if i :| 0 <= i < |grown| && grown[i] == Confirmed(user) { assert i < |history| ==> history[i] == grown[i]; }
  }

  /** The gesture that stands is the only one. */
  lemma OneStands(history: seq<Deed>, user: User, i: int, j: int)
    requires Stands(history, user, i) && Stands(history, user, j)
    ensures i == j
  {
  }

  /** Only the user's own gestures and far gestures of the other change what is stored. */
  lemma StoredAfter(stored: Option<int>, history: seq<Deed>, d: Deed, user: User)
    requires StoresStanding(stored, history, user) && (user == A || user == B)
    ensures StoresStanding(if GestureBy(d, user) then Some(d.at)
                           else if GestureBy(d, Other(user)) && stored.Some?
                               && Distance(d.at, stored.value) > GESTURE_WINDOW then None
                           else stored, history + [d], user)
  {
    var grown := history + [d];
    forall i ensures Stands(grown, user, i)
                <==> if i == |history| then GestureBy(d, user)
                     else && Stands(history, user, i) && !GestureBy(d, user)
                          && (GestureBy(d, Other(user)) ==> Distance(d.at, history[i].at) <= GESTURE_WINDOW)
    {
      StandsAfter(history, d, user, i);
    }
    if GestureBy(d, user) {
      assert Stands(grown, user, |history|) && grown[|history|].at == d.at;
    } else if stored.Some? {
      var i :| Stands(history, user, i) && history[i].at == stored.value;
      assert grown[i] == history[i];
      forall j | Stands(history, user, j) ensures j == i { OneStands(history, user, i, j); }
    }
  }

  lemma WasReadyAfter(history: seq<Deed>, d: Deed)
    ensures WasReady(history + [d]) <==> WasReady(history) || Ready(history + [d])
  {
    var grown := history + [d];
    assert grown[..|grown|] == grown;
    forall k | 0 <= k <= |history| ensures grown[..k] == history[..k] {
    }
    if WasReady(history) {
      var k :| 0 <= k <= |history| && Ready(history[..k]);
      assert Ready(grown[..k]);
    }
  }

  // ------------------------------------------------------------------------ steps keep it

  /** With the stored fields in step with history, a handshake is complete exactly when history is ready. */
  lemma CompleteIffReady(h: Handshake, history: seq<Deed>)
    requires FieldsOk(h, history)
    ensures Complete(h) <==> Ready(history)
  {
  }

  lemma ConfirmationFields(h: Handshake, history: seq<Deed>, user: User, now: int)
    requires FieldsOk(h, history) && user != Stranger
    ensures FieldsOk(WithConfirmation(h, user, now), history + [Confirmed(user)])
  {
    var d := Confirmed(user);
    ConfirmedAfter(history, d, A);
    ConfirmedAfter(history, d, B);
    StoredAfter(h.gestureA, history, d, A);
    StoredAfter(h.gestureB, history, d, B);
  }

  lemma GestureFields(h: Handshake, history: seq<Deed>, user: User, at: int)
    requires FieldsOk(h, history) && user != Stranger
    ensures FieldsOk(WithGesture(h, user, at), history + [Gestured(user, at)])
  {
    var d := Gestured(user, at);
    ConfirmedAfter(history, d, A);
    ConfirmedAfter(history, d, B);
    StoredAfter(h.gestureA, history, d, A);
    StoredAfter(h.gestureB, history, d, B);
  }

  lemma NothingIsReady()
    ensures FieldsOk(Fresh(""), []) && !WasReady([]) && !Ready([])
  {
    var none: seq<Deed> := [];
    forall k | 0 <= k <= |none| ensures !Ready(none[..k]) {
      assert none[..k] == none;
    }
  }

  lemma EnsuredKeeps(db: Db, nonce: string)
    requires Inv(db) && Ensured(db, nonce).Some?
    ensures Inv(Ensured(db, nonce).value)
  {
    NothingIsReady();
  }

  /** Recording a deed and finalising. */
  lemma DeedKeeps(db: Db, h: Handshake, d: Deed, keys: set<string>, now: int)
    requires Inv(db) && db.handshake.Some? && FieldsOk(h, db.history + [d])
    requires h.status == db.handshake.value.status && h.completedAt == db.handshake.value.completedAt
    ensures Inv(Finalized(db.(handshake := Some(h), keys := keys, history := db.history + [d]), now))
  {
    CompleteIffReady(h, db.history + [d]);
    WasReadyAfter(db.history, d);
  }

  lemma ConfirmKeeps(db: Db, user: User, nonce: string, key: string, now: int)
    requires Inv(db)
    ensures Inv(ConfirmTx(db, user, nonce, key, now).0)
  {
    if key !in db.keys && user != Stranger && Ensured(db, nonce).Some? {
      var e := Ensured(db, nonce).value;
      EnsuredKeeps(db, nonce);
      ConfirmationFields(e.handshake.value, e.history, user, now);
      DeedKeeps(e, WithConfirmation(e.handshake.value, user, now), Confirmed(user), e.keys + {key}, now);
    }
  }

  /** With nothing new there is nothing to finalise. */
  lemma FinalizedAlready(db: Db, now: int)
    requires Inv(db)
    ensures Finalized(db, now) == db
  {
    if db.handshake.Some? {
      CompleteIffReady(db.handshake.value, db.history);
      if Ready(db.history) {
        assert db.history[..|db.history|] == db.history;
      }
    }
  }

  lemma GestureKeeps(db: Db, user: User, at: int, nonce: string, now: int)
    requires Inv(db)
    ensures Inv(GestureTx(db, user, at, nonce, now).0)
  {
    if Ensured(db, nonce).Some? {
      var e := Ensured(db, nonce).value;
      EnsuredKeeps(db, nonce);
      if user == Stranger {
        FinalizedAlready(e, now);
      } else {
        GestureFields(e.handshake.value, e.history, user, at);
        DeedKeeps(e, WithGesture(e.handshake.value, user, at), Gestured(user, at), e.keys, now);
      }
    }
  }

  lemma {:induction false} RunKeeps(db: Db, ops: seq<Op>)
    requires Inv(db)
    ensures Inv(Run(db, ops))
    decreases |ops|
  {
    if ops != [] {
      match ops[0] {
        case Confirm(user, nonce, key, now) => ConfirmKeeps(db, user, nonce, key, now);
        case Gesture(user, at, nonce, now) => GestureKeeps(db, user, at, nonce, now);
        case OtherEvent(key) =>
      }
      RunKeeps(Step(db, ops[0]), ops[1..]);
    }
  }

  // ------------------------------------------------------------------------- theorems

  /**
   * In every run two stored gestures are at most three seconds apart, so the final check of their
   * distance never fails.
   */
  lemma StoredGesturesAreClose(keys: set<string>, ops: seq<Op>)
    requires Run(Initial(keys), ops).handshake.Some?
    ensures var h := Run(Initial(keys), ops).handshake.value;
            h.gestureA.Some? && h.gestureB.Some? ==> Distance(h.gestureA.value, h.gestureB.value) <= GESTURE_WINDOW
  {
    RunKeeps(Initial(keys), ops);
  }

  /**
   * In every run, in any order and with any repeats: the handshake is connected
   * if and only if at some point both had confirmed and both had a gesture that
   * stood, and then there is exactly one relationship, otherwise none.
   */
  lemma ConnectedIffWasReady(keys: set<string>, ops: seq<Op>)
    ensures var db := Run(Initial(keys), ops);
            && (db.handshake.Some? && db.handshake.value.status == Connected <==> WasReady(db.history))
            && db.relationships == (if WasReady(db.history) then 1 else 0)
            && (db.matchStatus == Linked <==> WasReady(db.history))
            && (db.handshake.Some? ==> (db.handshake.value.completedAt.Some? <==> WasReady(db.history)))
  {
    RunKeeps(Initial(keys), ops);
    NothingIsReady();
  }

  /** Once connected, nothing changes the status, the completion time or the relationship. */
  lemma {:induction false} ConnectionIsFinal(db: Db, ops: seq<Op>)
    requires Inv(db) && db.handshake.Some? && db.handshake.value.status == Connected
    ensures Run(db, ops).handshake.Some? && Run(db, ops).handshake.value.status == Connected
    ensures Run(db, ops).handshake.value.completedAt == db.handshake.value.completedAt
    ensures Run(db, ops).relationships == db.relationships == 1 && Run(db, ops).matchStatus == Linked
    decreases |ops|
  {
    if ops != [] {
      match ops[0] {
        case Confirm(user, nonce, key, now) => ConfirmKeeps(db, user, nonce, key, now);
        case Gesture(user, at, nonce, now) => GestureKeeps(db, user, at, nonce, now);
        case OtherEvent(key) =>
      }
      ConnectionIsFinal(Step(db, ops[0]), ops[1..]);
    }
  }

  /** A confirmation whose key was used before, by any event, changes nothing. */
  lemma {:induction false} UsedKeysStay(db: Db, ops: seq<Op>, key: string)
    requires key in db.keys
    ensures key in Run(db, ops).keys
    decreases |ops|
  {
    if ops != [] {
      UsedKeysStay(Step(db, ops[0]), ops[1..], key);
    }
  }

  /** Sending an accepted confirmation again, at any later time, is a duplicate without effect. */
  lemma RepeatedConfirmation(db: Db, user: User, nonce: string, key: string, now: int, ops: seq<Op>, later: int)
    requires ConfirmTx(db, user, nonce, key, now).1 == Done
    ensures var after := Run(ConfirmTx(db, user, nonce, key, now).0, ops);
            ConfirmTx(after, user, nonce, key, later) == (after, Duplicate)
  {
    UsedKeysStay(ConfirmTx(db, user, nonce, key, now).0, ops, key);
  }

  /**
   * A confirmation is done exactly when its key is new, its nonce is the handshake's
   * or there is none yet, and its user takes part; any other changes nothing.
   */
  lemma ConfirmationReplies(db: Db, user: User, nonce: string, key: string, now: int)
    ensures var (db', reply) := ConfirmTx(db, user, nonce, key, now);
            && (reply.Done? <==> && key !in db.keys && user != Stranger
                                 && (db.handshake.None? || db.handshake.value.nonce == nonce))
            && (reply.Duplicate? <==> key in db.keys)
            && (reply.NotParticipant? ==> user == Stranger)
            && (reply.NonceMismatch? ==> db.handshake.Some? && db.handshake.value.nonce != nonce)
            && (!reply.Done? ==> db' == db)
  {
    hide Finalized, WithConfirmation;
  }

  // ------------------------------------------------ the history is what was accepted

  /** A request is let in when it names the nonce of the first one that was. */
  predicate NonceFits(nonce: Option<string>, given: string) {
    nonce.None? || nonce.value == given
  }

  /** The deed of one request: a participant's, under the right nonce and, for a confirmation, a new key. */
  function DeedOf(op: Op, used: set<string>, nonce: Option<string>): seq<Deed> {
    match op
    case OtherEvent(_) => []
    case Confirm(user, given, key, _) =>
      if key !in used && user != Stranger && NonceFits(nonce, given) then [Confirmed(user)] else []
    case Gesture(user, at, given, _) => if user != Stranger && NonceFits(nonce, given) then [Gestured(user, at)] else []
  }

  function KeysAfter(op: Op, used: set<string>, nonce: Option<string>): set<string> {
    if op.OtherEvent? || (op.Confirm? && DeedOf(op, used, nonce) != []) then used + {op.key} else used
  }

  /** The first request let in sets the nonce; a stranger's gesture is one. */
  function NonceAfter(op: Op, used: set<string>, nonce: Option<string>): Option<string> {
    if nonce.None? && (op.Gesture? || DeedOf(op, used, nonce) != []) then Some(op.nonce) else nonce
  }

  /** The deeds a run of requests amounts to, read off the requests alone. */
  function Deeds(ops: seq<Op>, used: set<string>, nonce: Option<string>): seq<Deed>
    decreases |ops|
  {
    if ops == [] then []
    else DeedOf(ops[0], used, nonce) + Deeds(ops[1..], KeysAfter(ops[0], used, nonce), NonceAfter(ops[0], used, nonce))
  }

  function NonceOf(db: Db): Option<string> {
    if db.handshake.None? then None else Some(db.handshake.value.nonce)
  }

  lemma {:induction false} HistoryIsDeeds(db: Db, ops: seq<Op>)
    ensures Run(db, ops).history == db.history + Deeds(ops, db.keys, NonceOf(db))
    decreases |ops|
  {
    if ops != [] {
      var next := Step(db, ops[0]);
      DeedIsAdded(db, ops[0]);
      hide Step, NonceOf, DeedOf, KeysAfter, NonceAfter;
      HistoryIsDeeds(next, ops[1..]);
    }
  }

  /** One request adds its deed, if it is accepted, and leaves the keys and the nonce the rest is judged by. */
  lemma DeedIsAdded(db: Db, op: Op)
    ensures var next := Step(db, op);
            && next.history == db.history + DeedOf(op, db.keys, NonceOf(db))
            && next.keys == KeysAfter(op, db.keys, NonceOf(db))
            && NonceOf(next) == NonceAfter(op, db.keys, NonceOf(db))
  {
    hide Complete, WithConfirmation, WithGesture;
    match op
    case OtherEvent(_) =>
    case Confirm(user, nonce, _, now) =>
      KeepsNonce(Fresh(nonce), user, now);
      if db.handshake.Some? { KeepsNonce(db.handshake.value, user, now); }
    case Gesture(user, at, nonce, _) =>
      KeepsNonce(Fresh(nonce), user, at);
      if db.handshake.Some? { KeepsNonce(db.handshake.value, user, at); }
  }

  lemma KeepsNonce(h: Handshake, user: User, at: int)
    ensures WithConfirmation(h, user, at).nonce == WithGesture(h, user, at).nonce == h.nonce
  {
  }

  /**
   * So the handshake is connected exactly when, at some point of the run, the
   * requests let in so far made both ready.
   */
  lemma ConnectedIffRequestsMadeReady(keys: set<string>, ops: seq<Op>)
    ensures var db := Run(Initial(keys), ops);
            && (db.handshake.Some? && db.handshake.value.status == Connected <==> WasReady(Deeds(ops, keys, None)))
            && db.relationships == (if WasReady(Deeds(ops, keys, None)) then 1 else 0)
  {
    ConnectedIffWasReady(keys, ops);
    HistoryIsDeeds(Initial(keys), ops);
    assert [] + Deeds(ops, keys, None) == Deeds(ops, keys, None);
    hide Run, Deeds, WasReady;
  }

  /** The request that connects stamps the completion with its own time. */
  lemma ConnectionIsStamped(db: Db, op: Op)
    requires Inv(db) && db.relationships == 0 && Step(db, op).relationships == 1
    ensures Step(db, op).handshake.Some?
    ensures (op.Confirm? || op.Gesture?) && Step(db, op).handshake.value.completedAt == Some(op.now)
  {
  }

  function ConfirmedAt(h: Handshake, user: User): Option<int> {
    if user == A then h.confirmedA else h.confirmedB
  }

  /** A user's first accepted confirmation stamps it with its own time, which nothing changes again. */
  lemma FirstConfirmationStands(db: Db, op: Op, user: User)
    requires db.handshake.Some? && user != Stranger
    ensures Step(db, op).handshake.Some?
    ensures var h := db.handshake.value;
            ConfirmedAt(Step(db, op).handshake.value, user)
            == if ConfirmedAt(h, user).Some? then ConfirmedAt(h, user)
               else if op.Confirm? && op.user == user && op.key !in db.keys && op.nonce == h.nonce then Some(op.now)
               else None
  {
    hide Complete;
  }

  // ------------------------------------------------------------- the service in its own form

  class HandshakeService {
    var handshake: Option<Handshake>
    var matchStatus: MatchStatus
    var relationships: nat
    var keys: set<string>
    ghost var history: seq<Deed>

    constructor (used: set<string>)
      ensures Snapshot() == Initial(used)
    {
      handshake, matchStatus, relationships, keys, history := None, Candidate, 0, used, [];
    }

    ghost function Snapshot(): Db
      reads this
    {
      Db(handshake, matchStatus, relationships, keys, history)
    }

    method EnsureHandshake(nonce: string) returns (ok: bool)
      modifies this`handshake, this`matchStatus
      ensures ok <==> Ensured(old(Snapshot()), nonce).Some?
      ensures Snapshot() == if ok then Ensured(old(Snapshot()), nonce).value else old(Snapshot())
      ensures ok ==> handshake.Some?
    {
      if handshake.Some? { return handshake.value.nonce == nonce; }
      handshake := Some(Handshake(nonce, None, None, None, None, Pending, None));
      matchStatus := Handshaking;
      ok := true;
    }

    /** Creates the relationship once both confirmations and two close gestures are there. */
    method FinalizeHandshake(now: int)
      requires handshake.Some?
      modifies this`handshake, this`matchStatus, this`relationships
      ensures Snapshot() == Finalized(old(Snapshot()), now)
    {
      var h := handshake.value;
      if h.confirmedA.None? || h.confirmedB.None? || h.gestureA.None? || h.gestureB.None? { return; }
      var delta := h.gestureA.value - h.gestureB.value;
      if delta < 0 { delta := -delta; }
      if delta > GESTURE_WINDOW { return; }
      if relationships > 0 { return; }
      handshake := Some(h.(status := Connected, completedAt := Some(now)));
      matchStatus := Linked;
      relationships := 1;
    }

    /** A refusal rolls back what was written before it. */
    method ConfirmHandshake(user: User, nonce: string, key: string, now: int) returns (reply: Reply)
      modifies this
      ensures (Snapshot(), reply) == ConfirmTx(old(Snapshot()), user, nonce, key, now)
    {
      if key in keys { return Duplicate; }
      var savedHandshake, savedStatus := handshake, matchStatus;
      var ok := EnsureHandshake(nonce);
      if !ok { return NonceMismatch; }
      var h := handshake.value;
      if user == A {
        if h.confirmedA.None? { h := h.(confirmedA := Some(now)); }
      } else if user == B {
        if h.confirmedB.None? { h := h.(confirmedB := Some(now)); }
      } else {
        handshake, matchStatus := savedHandshake, savedStatus;
        return NotParticipant;
      }
      handshake := Some(h);
      keys := keys + {key};
      history := history + [Confirmed(user)];
      FinalizeHandshake(now);
      reply := Done;
    }

    method RecordGesture(user: User, at: int, nonce: string, now: int) returns (reply: Reply)
      modifies this
      ensures (Snapshot(), reply) == GestureTx(old(Snapshot()), user, at, nonce, now)
    {
      var ok := EnsureHandshake(nonce);
      if !ok { return NonceMismatch; }
      var h := handshake.value;
      if user == A {
        h := h.(gestureA := Some(at));
        if h.gestureB.Some? && Distance(at, h.gestureB.value) > GESTURE_WINDOW { h := h.(gestureB := None); }
        history := history + [Gestured(user, at)];
      } else if user == B {
        h := h.(gestureB := Some(at));
        if h.gestureA.Some? && Distance(at, h.gestureA.value) > GESTURE_WINDOW { h := h.(gestureA := None); }
        history := history + [Gestured(user, at)];
      }
      handshake := Some(h);
      FinalizeHandshake(now);
      reply := Done;
    }
  }
}
