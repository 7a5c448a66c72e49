/**
 * Credential sessions of Agent devices. A family starts with a provision (or an
 * added device) and grows by refreshes; each refresh replaces the newest session
 * by a successor. Tokens are injective images of what they are derived from.
 * Every transaction is one atomic step on the tables.
 */
module RefreshRotation {
  import opened Common

  const ACCESS_TTL := 15 * 60 * 1000
  const REFRESH_TTL := 30 * 24 * 60 * 60 * 1000
  const CHALLENGE_TTL := 2 * 60 * 1000

  /** A family is derived from a provision receipt, or drawn at random for an added device. */
  datatype Family = Provisioned(fingerprint: string, key: string, hash: string) | Device(random: string)

  datatype Token = First(family: Family) | Rotated(parent: Token, fingerprint: string, request: string)

  datatype RequestHash = ProvisionHash(hash: string) | RotationHash(token: Token, fingerprint: string, request: string)

  datatype Status = Limited | Active | Suspended | Revoked

  datatype Receipt = Receipt(id: string, hash: RequestHash)

  datatype Session = Session(
    principal: string, family: Family, token: Token, counter: nat, issuedAt: int, expiresAt: int, absolute: int,
    revokedAt: Option<int>, replacedBy: Option<int>, receipt: Option<Receipt>)

  datatype Nonce = Nonce(fingerprint: string, expiresAt: int, used: bool)

  /** The tables with their unique indexes; `chains` records each family's sessions in creation order. */
  datatype Db = Db(
    sessions: map<int, Session>, byToken: map<Token, int>, byReceipt: map<(string, string), int>, next: int,
    principals: map<string, Status>, nonces: map<string, Nonce>, clock: int, chains: map<Family, seq<int>>)

  const EMPTY := Db(map[], map[], map[], 1, map[], map[], 0, map[])

  datatype Reply =
    | Issued(session: int, token: Token, expiresAt: int)
    | Challenged
    | Unauthorized | ReuseDetected | Conflict | Failed

  // ------------------------------------------------------------------- writes

  predicate Usable(db: Db, principal: string) {
    principal in db.principals && (db.principals[principal] == Limited || db.principals[principal] == Active)
  }

  predicate NonceUsable(db: Db, nonce: string, fingerprint: string, now: int) {
    nonce in db.nonces && db.nonces[nonce].fingerprint == fingerprint && !db.nonces[nonce].used
        && db.nonces[nonce].expiresAt >= now
  }

  function Consume(db: Db, nonce: string): Db
    requires nonce in db.nonces
  {
    db.(nonces := db.nonces[nonce := db.nonces[nonce].(used := true)])
  }

  /** The unique indexes on token and on (principal, receipt) refuse the row. */
  predicate Duplicate(db: Db, s: Session) {
    s.token in db.byToken || (s.receipt.Some? && (s.principal, s.receipt.value.id) in db.byReceipt)
  }

  function ChainOf(db: Db, family: Family): seq<int> {
    if family in db.chains then db.chains[family] else []
  }

  function Insert(db: Db, s: Session): Db {
    db.(sessions := db.sessions[db.next := s],
        byToken := db.byToken[s.token := db.next],
        byReceipt := if s.receipt.Some? then db.byReceipt[(s.principal, s.receipt.value.id) := db.next]
            else db.byReceipt,
        next := db.next + 1,
        chains := db.chains[s.family := ChainOf(db, s.family) + [db.next]])
  }

  /** A revocation never overwrites an earlier revocation time. */
  function RevokedAt(s: Session, at: int): Session {
    s.(revokedAt := if s.revokedAt.Some? then s.revokedAt else Some(at))
  }

  function RevokeAll(sessions: map<int, Session>, which: set<int>, at: int): map<int, Session> {
    map id | id in sessions :: if id in which then RevokedAt(sessions[id], at) else sessions[id]
  }

  function FamilyMembers(db: Db, family: Family): set<int> {
    set id | id in db.sessions && db.sessions[id].family == family
  }

  function PrincipalMembers(db: Db, principal: string): set<int> {
    set id | id in db.sessions && db.sessions[id].principal == principal
  }

  function RevokeFamily(db: Db, family: Family, at: int): Db {
    db.(sessions := RevokeAll(db.sessions, FamilyMembers(db, family), at))
  }

  // ------------------------------------------------------------- transactions

  function OpenFamily(db: Db, principal: string, family: Family, receipt: Option<Receipt>, now: int): (Db, Reply) {
    var s := Session(principal, family, First(family), 0, now, now + ACCESS_TTL, now + REFRESH_TTL, None, None,
                     receipt);
    var known := if principal in db.principals then db else db.(principals := db.principals[principal := Limited]);
    if Duplicate(db, s) then (db, Failed) else (Insert(known, s), Issued(db.next, s.token, s.expiresAt))
  }

  function ProvisionReceipt(key: string, hash: string): Receipt {
    Receipt("provision:" + key, ProvisionHash(hash))
  }

  /** The answer to a provision whose receipt is already recorded. */
  function ProvisionAgain(db: Db, id: int, fingerprint: string, key: string, hash: string): Reply
    requires id in db.sessions
  {
    var s := db.sessions[id];
    if s.receipt.None? || s.receipt.value.hash != ProvisionHash(hash) then Conflict
    else if s.revokedAt.Some? || s.absolute <= db.clock || !Usable(db, fingerprint) then Unauthorized
    else Issued(id, First(Provisioned(fingerprint, key, hash)), s.expiresAt)
  }

  /**
   * Provisioning, or its replay when the receipt is known. `proofOk` stands for the
   * grant and nonce checks; a request with a bad signature does not get here.
   */
  function ProvisionTx(db0: Db, fingerprint: string, key: string, hash: string, proofOk: bool,
                       elapsed: nat): (Db, Reply) {
    var db := db0.(clock := db0.clock + elapsed);
    var receipt := ProvisionReceipt(key, hash);
    if (fingerprint, receipt.id) in db.byReceipt && db.byReceipt[(fingerprint, receipt.id)] in db.sessions then
      (db, ProvisionAgain(db, db.byReceipt[(fingerprint, receipt.id)], fingerprint, key, hash))
    else if !proofOk || (fingerprint in db.principals
                         && (db.principals[fingerprint] == Revoked || db.principals[fingerprint] == Suspended)) then
      (db, Unauthorized)
    else
      OpenFamily(db, fingerprint, Provisioned(fingerprint, key, hash), Some(receipt), db.clock)
  }

  /** Adding a device key; this handler takes the time from the application clock. */
  function AddDeviceTx(db: Db, fingerprint: string, random: string, proofOk: bool, now: int): (Db, Reply) {
    if !proofOk then (db, Unauthorized)
    else if fingerprint in db.principals
        && (db.principals[fingerprint] == Revoked || db.principals[fingerprint] == Suspended) then
      (db, Conflict)
    else OpenFamily(db, fingerprint, Device(random), None, now)
  }

  /** The receipt of the successor of a replaced session, if it has one. */
  predicate SuccessorAsked(db: Db, s: Session, request: string) {
    && s.replacedBy.Some? && s.replacedBy.value in db.sessions
    && db.sessions[s.replacedBy.value].receipt.Some?
    && db.sessions[s.replacedBy.value].receipt.value.id == request
  }

  function ChallengeTx(db: Db, token: Token, request: string, nonce: string, now: int): (Db, Reply) {
    if token !in db.byToken || db.byToken[token] !in db.sessions then (db, Unauthorized)
    else
      var s := db.sessions[db.byToken[token]];
      if s.replacedBy.Some? && !SuccessorAsked(db, s, request) then (RevokeFamily(db, s.family, now), ReuseDetected)
      else if s.revokedAt.Some? && s.replacedBy.None? then (db, Unauthorized)
      else if s.absolute <= now || !Usable(db, s.principal) then (db, Unauthorized)
      else if nonce in db.nonces then (db, Failed)
      else (db.(nonces := db.nonces[nonce := Nonce(s.principal, now + CHALLENGE_TTL, false)]), Challenged)
  }

  datatype RefreshRequest = RefreshRequest(token: Token, request: string, nonce: string, fingerprint: string,
                                           proofOk: bool, elapsed: nat)

  function Successor(s: Session, r: RefreshRequest, now: int): Session {
    Session(s.principal, s.family, Rotated(r.token, r.fingerprint, r.request), s.counter + 1, now,
            Min(now + ACCESS_TTL, s.absolute), s.absolute, None, None,
            Some(Receipt(r.request, RotationHash(r.token, r.fingerprint, r.request))))
  }

  /** The new row, and the old one revoked and pointing at it. */
  function RecordRotation(db: Db, id: int, s: Session, at: int): Db
    requires id in db.sessions
  {
    var grown := Insert(db, s);
    grown.(sessions := grown.sessions[id := db.sessions[id].(revokedAt := Some(at), replacedBy := Some(db.next))])
  }

  /** The successor still answers for exactly this rotation. */
  predicate Replays(db: Db, s: Session, r: RefreshRequest, now: int) {
    && s.replacedBy.Some? && s.replacedBy.value in db.sessions
    && var next := db.sessions[s.replacedBy.value];
       && next.revokedAt.None? && next.absolute > now
       && next.receipt == Some(Receipt(r.request, RotationHash(r.token, r.fingerprint, r.request)))
  }

  function RefreshTx(db0: Db, r: RefreshRequest): (Db, Reply) {
    var db := db0.(clock := db0.clock + r.elapsed);
    if !r.proofOk || r.token !in db.byToken || db.byToken[r.token] !in db.sessions then (db, Unauthorized)
    else
      var id := db.byToken[r.token];
      var s := db.sessions[id];
      if s.principal != r.fingerprint || !Usable(db, s.principal) || s.absolute <= db.clock then (db, Unauthorized)
      else if s.replacedBy.Some? then
        if !Replays(db, s, r, db.clock) then (RevokeFamily(db, s.family, db.clock), ReuseDetected)
        else if !NonceUsable(db, r.nonce, s.principal, db.clock) then (db, Unauthorized)
        else (Consume(db, r.nonce),
              Issued(s.replacedBy.value, Rotated(r.token, r.fingerprint, r.request),
                     db.sessions[s.replacedBy.value].expiresAt))
      else if s.revokedAt.Some? then (RevokeFamily(db, s.family, db.clock), ReuseDetected)
      else if !NonceUsable(db, r.nonce, s.principal, db.clock) then (db, Unauthorized)
      else
        var next := Successor(s, r, db.clock);
        if Duplicate(db, next) then (db, Failed)
        else (RecordRotation(Consume(db, r.nonce), id, next, db.clock), Issued(db.next, next.token, next.expiresAt))
  }

  function RevokePrincipalTx(db: Db, principal: string, now: int): Db {
    if principal !in db.principals || db.principals[principal] == Revoked then db
    else db.(principals := db.principals[principal := Revoked],
             sessions := RevokeAll(db.sessions, PrincipalMembers(db, principal), now))
  }

  function SetStatusTx(db: Db, principal: string, status: Status): Db {
    if principal in db.principals then db.(principals := db.principals[principal := status]) else db
  }

  datatype Op =
    | Provision(fingerprint: string, key: string, hash: string, proofOk: bool, elapsed: nat)
    | AddDevice(fingerprint: string, random: string, proofOk: bool, now: int)
    | Challenge(token: Token, request: string, nonce: string, now: int)
    | Refresh(refresh: RefreshRequest)
    | RevokePrincipal(principal: string, now: int)
    | SetStatus(principal: string, status: Status)

  function Step(db: Db, op: Op): Db {
    match op
    case Provision(fingerprint, key, hash, proofOk, elapsed) =>
      ProvisionTx(db, fingerprint, key, hash, proofOk, elapsed).0
    case AddDevice(fingerprint, random, proofOk, now) => AddDeviceTx(db, fingerprint, random, proofOk, now).0
    case Challenge(token, request, nonce, now) => ChallengeTx(db, token, request, nonce, now).0
    case Refresh(refresh) => RefreshTx(db, refresh).0
    case RevokePrincipal(principal, now) => RevokePrincipalTx(db, principal, now)
    case SetStatus(principal, status) => SetStatusTx(db, principal, status)
  }

  function Run(db: Db, ops: seq<Op>): Db
    decreases |ops|
  {
    if ops == [] then db else Run(Step(db, ops[0]), ops[1..])
  }

  // ---------------------------------------------------------------- invariants

  /** What a session says about its family, whose first session is given. */
  predicate Belongs(s: Session, first: Session, family: Family, i: int) {
    && s.family == family && s.counter == i
    && s.principal == first.principal && s.absolute == first.absolute && s.expiresAt <= s.absolute
  }

  /** A session is derived from its predecessor by the request its receipt records. */
  predicate Derived(s: Session, previous: Session) {
    && s.receipt.Some?
    && s.receipt.value.hash == RotationHash(previous.token, s.principal, s.receipt.value.id)
    && s.token == Rotated(previous.token, s.principal, s.receipt.value.id)
  }

  predicate IsLink(sessions: map<int, Session>, family: Family, first: int, id: int, i: int) {
    id in sessions && first in sessions && Belongs(sessions[id], sessions[first], family, i)
  }

  /** A session points at its successor, and has been revoked if it has one. */
  predicate NextIs(sessions: map<int, Session>, id: int, next: Option<int>) {
    id in sessions && sessions[id].replacedBy == next && (next.Some? ==> sessions[id].revokedAt.Some?)
  }

  predicate Follows(sessions: map<int, Session>, before: int, id: int) {
    before in sessions && id in sessions && Derived(sessions[id], sessions[before])
  }

  predicate HasToken(sessions: map<int, Session>, id: int, token: Token) {
    id in sessions && sessions[id].token == token
  }

  predicate HasReceipt(sessions: map<int, Session>, id: int, principal: string, request: string) {
    id in sessions && sessions[id].principal == principal && sessions[id].receipt.Some?
        && sessions[id].receipt.value.id == request
  }

  /** Position `i` of a family's chain: what its session says about its neighbours and about the family. */
  ghost predicate LinkOk(sessions: map<int, Session>, family: Family, chain: seq<int>, i: int)
    requires 0 <= i < |chain|
  {
    && IsLink(sessions, family, chain[0], chain[i], i)
    && NextIs(sessions, chain[i], if i + 1 < |chain| then Some(chain[i + 1]) else None)
    && (if i == 0 then HasToken(sessions, chain[i], First(family)) else Follows(sessions, chain[i - 1], chain[i]))
  }

  ghost predicate ChainOk(sessions: map<int, Session>, family: Family, chain: seq<int>) {
    |chain| > 0 && forall i | 0 <= i < |chain| :: LinkOk(sessions, family, chain, i)
  }

  ghost predicate ChainsOk(db: Db) {
    forall f | f in db.chains :: ChainOk(db.sessions, f, db.chains[f])
  }

  /** Every session is in its family's chain at the position its counter says. */
  ghost predicate Placed(db: Db) {
    forall id | id in db.sessions ::
      && id < db.next
      && db.sessions[id].family in db.chains
      && db.sessions[id].counter < |db.chains[db.sessions[id].family]|
      && db.chains[db.sessions[id].family][db.sessions[id].counter] == id
  }

  ghost predicate TokenIndexOk(db: Db) {
    && (forall t | t in db.byToken :: HasToken(db.sessions, db.byToken[t], t))
    && (forall id | id in db.sessions :: db.sessions[id].token in db.byToken && db.byToken[db.sessions[id].token] == id)
  }

  ghost predicate ReceiptIndexOk(db: Db) {
    && (forall r | r in db.byReceipt :: HasReceipt(db.sessions, db.byReceipt[r], r.0, r.1))
    && (forall id | id in db.sessions && db.sessions[id].receipt.Some? ::
          && (db.sessions[id].principal, db.sessions[id].receipt.value.id) in db.byReceipt
          && db.byReceipt[(db.sessions[id].principal, db.sessions[id].receipt.value.id)] == id)
  }

  ghost predicate Inv(db: Db) {
    ChainsOk(db) && Placed(db) && TokenIndexOk(db) && ReceiptIndexOk(db)
  }

  /** The invariant only speaks of sessions, indexes and chains. */
  predicate SameSessions(left: Db, right: Db) {
    && left.sessions == right.sessions && left.byToken == right.byToken && left.byReceipt == right.byReceipt
    && left.next == right.next && left.chains == right.chains
  }

  // ------------------------------------------------------ writes keep them

  /** A session is unchanged, up to a revocation. */
  predicate Kept(sessions: map<int, Session>, sessions': map<int, Session>, id: int) {
    && id in sessions && id in sessions'
    && sessions'[id] == sessions[id].(revokedAt := sessions'[id].revokedAt)
    && (sessions[id].revokedAt.Some? ==> sessions'[id].revokedAt.Some?)
  }

  lemma ChainFrame(sessions: map<int, Session>, sessions': map<int, Session>, family: Family, chain: seq<int>)
    requires ChainOk(sessions, family, chain)
    requires forall k | 0 <= k < |chain| :: Kept(sessions, sessions', chain[k])
    ensures ChainOk(sessions', family, chain)
  {
    forall i | 0 <= i < |chain| ensures LinkOk(sessions', family, chain, i) {
      assert LinkOk(sessions, family, chain, i);
      assert Kept(sessions, sessions', chain[i]) && Kept(sessions, sessions', chain[0]);
      if i > 0 { assert Kept(sessions, sessions', chain[i - 1]); }
    }
  }

  lemma RevokeKeepsIndexes(db: Db, which: set<int>, at: int)
    requires Placed(db) && TokenIndexOk(db) && ReceiptIndexOk(db)
    ensures var db' := db.(sessions := RevokeAll(db.sessions, which, at));
            Placed(db') && TokenIndexOk(db') && ReceiptIndexOk(db')
  {
    var db' := db.(sessions := RevokeAll(db.sessions, which, at));
    assert Placed(db');
    hide Placed;
    RevokeKeepsTokens(db, which, at);
    RevokeKeepsReceipts(db, which, at);
  }

  lemma RevokeKeepsTokens(db: Db, which: set<int>, at: int)
    requires TokenIndexOk(db)
    ensures TokenIndexOk(db.(sessions := RevokeAll(db.sessions, which, at)))
  {
    var sessions := RevokeAll(db.sessions, which, at);
    forall t | t in db.byToken ensures HasToken(sessions, db.byToken[t], t) {
      assert HasToken(db.sessions, db.byToken[t], t);
    }
  }

  lemma RevokeKeepsReceipts(db: Db, which: set<int>, at: int)
    requires ReceiptIndexOk(db)
    ensures ReceiptIndexOk(db.(sessions := RevokeAll(db.sessions, which, at)))
  {
    var sessions := RevokeAll(db.sessions, which, at);
    forall r | r in db.byReceipt ensures HasReceipt(sessions, db.byReceipt[r], r.0, r.1) {
      assert HasReceipt(db.sessions, db.byReceipt[r], r.0, r.1);
    }
  }

  lemma RevokeKeeps(db: Db, which: set<int>, at: int)
    requires Inv(db)
    ensures Inv(db.(sessions := RevokeAll(db.sessions, which, at)))
  {
    hide Placed, TokenIndexOk, ReceiptIndexOk, NextIs, Follows, Belongs;
    RevokeKeepsIndexes(db, which, at);
    var sessions := RevokeAll(db.sessions, which, at);
    forall f | f in db.chains ensures ChainOk(sessions, f, db.chains[f]) {
      forall k | 0 <= k < |db.chains[f]| ensures Kept(db.sessions, sessions, db.chains[f][k]) {
        assert LinkOk(db.sessions, f, db.chains[f], k);
      }
      ChainFrame(db.sessions, sessions, f, db.chains[f]);
    }
  }

  lemma FirstTokenIsNew(db: Db, family: Family)
    requires Inv(db) && First(family) !in db.byToken
    ensures family !in db.chains
  {
    assert family in db.chains ==> LinkOk(db.sessions, family, db.chains[family], 0);
  }

  lemma InsertKeepsPlaces(db: Db, s: Session)
    requires Placed(db) && s.counter == |ChainOf(db, s.family)|
    ensures Placed(Insert(db, s))
  {
    var db' := Insert(db, s);
    forall id | id in db'.sessions
      ensures id < db'.next && db'.sessions[id].family in db'.chains
      ensures db'.sessions[id].counter < |db'.chains[db'.sessions[id].family]|
      ensures db'.chains[db'.sessions[id].family][db'.sessions[id].counter] == id
    {
      if id != db.next { assert id in db.sessions; }
    }
  }

  lemma InsertKeepsTokens(db: Db, s: Session)
    requires TokenIndexOk(db) && s.token !in db.byToken && db.next !in db.sessions
    ensures TokenIndexOk(Insert(db, s))
  {
    var db' := Insert(db, s);
    forall t | t in db'.byToken ensures HasToken(db'.sessions, db'.byToken[t], t) {
      if t != s.token { assert HasToken(db.sessions, db.byToken[t], t); }
    }
  }

  lemma InsertKeepsReceipts(db: Db, s: Session)
    requires ReceiptIndexOk(db) && !Duplicate(db, s) && db.next !in db.sessions
    ensures ReceiptIndexOk(Insert(db, s))
  {
    var db' := Insert(db, s);
    forall r | r in db'.byReceipt ensures HasReceipt(db'.sessions, db'.byReceipt[r], r.0, r.1) {
      if r in db.byReceipt { assert HasReceipt(db.sessions, db.byReceipt[r], r.0, r.1); }
    }
  }

  lemma InsertKeepsIndexes(db: Db, s: Session)
    requires Placed(db) && TokenIndexOk(db) && ReceiptIndexOk(db) && !Duplicate(db, s)
    requires s.counter == |ChainOf(db, s.family)|
    ensures Placed(Insert(db, s)) && TokenIndexOk(Insert(db, s)) && ReceiptIndexOk(Insert(db, s))
  {
    assert db.next !in db.sessions;
    InsertKeepsPlaces(db, s);
    InsertKeepsTokens(db, s);
    InsertKeepsReceipts(db, s);
  }

  /** Changing nothing the indexes are built from keeps them. */
  lemma UpdateKeepsIndexes(db: Db, id: int, s: Session)
    requires Placed(db) && TokenIndexOk(db) && ReceiptIndexOk(db) && id in db.sessions
    requires s == db.sessions[id].(revokedAt := s.revokedAt, replacedBy := s.replacedBy)
    ensures Placed(db.(sessions := db.sessions[id := s])) && TokenIndexOk(db.(sessions := db.sessions[id := s]))
    ensures ReceiptIndexOk(db.(sessions := db.sessions[id := s]))
  {
  }

  /** A family no write touched keeps its chain. */
  lemma OtherChainKept(db: Db, sessions': map<int, Session>, f: Family)
    requires ChainsOk(db) && f in db.chains
    requires forall id | id in db.sessions && db.sessions[id].family == f ::
        id in sessions' && sessions'[id] == db.sessions[id]
    ensures ChainOk(sessions', f, db.chains[f])
  {
    forall k | 0 <= k < |db.chains[f]| ensures Kept(db.sessions, sessions', db.chains[f][k]) {
      assert LinkOk(db.sessions, f, db.chains[f], k);
      var id := db.chains[f][k];
      assert id in db.sessions && db.sessions[id].family == f;
    }
    ChainFrame(db.sessions, sessions', f, db.chains[f]);
  }

  lemma OpenKeeps(db: Db, s: Session)
    requires Inv(db) && !Duplicate(db, s)
    requires s.counter == 0 && s.token == First(s.family) && s.expiresAt <= s.absolute && s.replacedBy.None?
    ensures Inv(Insert(db, s))
  {
    FirstTokenIsNew(db, s.family);
    InsertKeepsIndexes(db, s);
    var db' := Insert(db, s);
    assert db.next !in db.sessions;
    forall f | f in db'.chains ensures ChainOk(db'.sessions, f, db'.chains[f]) {
      if f == s.family {
        assert db'.chains[f] == [db.next];
        assert LinkOk(db'.sessions, f, [db.next], 0);
      } else {
        OtherChainKept(db, db'.sessions, f);
      }
    }
  }

  /** What a successor takes over from the session it replaces. */
  predicate Succeeds(next: Session, s: Session) {
    && next.family == s.family && next.counter == s.counter + 1 && next.principal == s.principal
    && next.absolute == s.absolute && next.expiresAt <= next.absolute && next.replacedBy.None?
    && Derived(next, s)
  }

  /** A session in its place in the chain; it is unreplaced exactly at the end. */
  lemma InPlace(db: Db, id: int)
    requires Inv(db) && id in db.sessions
    ensures db.sessions[id].family in db.chains
    ensures var chain := db.chains[db.sessions[id].family];
            && db.sessions[id].counter < |chain| && chain[db.sessions[id].counter] == id
            && LinkOk(db.sessions, db.sessions[id].family, chain, db.sessions[id].counter)
            && (db.sessions[id].replacedBy.None? <==> db.sessions[id].counter == |chain| - 1)
  {
    assert LinkOk(db.sessions, db.sessions[id].family, db.chains[db.sessions[id].family], db.sessions[id].counter);
  }

  /** A replaced session points at a row that was derived from it. */
  lemma ReplacedByNext(db: Db, id: int)
    requires Inv(db) && id in db.sessions && db.sessions[id].replacedBy.Some?
    ensures db.sessions[id].replacedBy.value in db.sessions
    ensures Belongs(db.sessions[db.sessions[id].replacedBy.value], db.sessions[id], db.sessions[id].family,
                    db.sessions[id].counter + 1)
    ensures Derived(db.sessions[db.sessions[id].replacedBy.value], db.sessions[id])
  {
    InPlace(db, id);
    var s := db.sessions[id];
    var chain := db.chains[s.family];
    assert LinkOk(db.sessions, s.family, chain, s.counter + 1);
    hide Placed, TokenIndexOk, ReceiptIndexOk, ChainsOk;
    assert Follows(db.sessions, id, chain[s.counter + 1]);
  }

  lemma TokenNames(db: Db, token: Token)
    requires Inv(db) && token in db.byToken
    ensures db.byToken[token] in db.sessions && db.sessions[db.byToken[token]].token == token
  {
    hide Placed, ReceiptIndexOk, ChainsOk;
    assert HasToken(db.sessions, db.byToken[token], token);
  }

  lemma ExtendedChain(sessions: map<int, Session>, sessions': map<int, Session>, family: Family, chain: seq<int>,
                      id: int, newId: int, at: int)
    requires ChainOk(sessions, family, chain) && chain[|chain| - 1] == id && id in sessions && newId !in sessions
        && newId in sessions'
    requires sessions' == sessions[newId := sessions'[newId]]
                                  [id := sessions[id].(revokedAt := Some(at), replacedBy := Some(newId))]
    requires Succeeds(sessions'[newId], sessions[id])
    ensures ChainOk(sessions', family, chain + [newId])
  {
    var last := |chain| - 1;
    forall i | 0 <= i < |chain + [newId]| ensures LinkOk(sessions', family, chain + [newId], i) {
      assert LinkOk(sessions, family, chain, 0) && LinkOk(sessions, family, chain, last);
      if i <= last {
        assert LinkOk(sessions, family, chain, i);
        if i > 0 { assert LinkOk(sessions, family, chain, i - 1); }
      }
    }
  }

  lemma RotationKeepsChains(db: Db, id: int, next: Session, at: int)
    requires Inv(db) && id in db.sessions && db.sessions[id].replacedBy.None?
    requires Succeeds(next, db.sessions[id])
    ensures ChainsOk(RecordRotation(db, id, next, at))
  {
    var db' := RecordRotation(db, id, next, at);
    InPlace(db, id);
    assert db.next !in db.sessions;
    hide LinkOk, Placed, TokenIndexOk, ReceiptIndexOk, ChainOk, Succeeds;
    forall f | f in db'.chains ensures ChainOk(db'.sessions, f, db'.chains[f]) {
      if f == next.family {
        ExtendedChain(db.sessions, db'.sessions, f, db.chains[f], id, db.next, at);
      } else {
        OtherChainKept(db, db'.sessions, f);
      }
    }
  }

  lemma RotationKeeps(db: Db, id: int, next: Session, at: int)
    requires Inv(db) && id in db.sessions && db.sessions[id].replacedBy.None? && !Duplicate(db, next)
    requires Succeeds(next, db.sessions[id])
    ensures Inv(RecordRotation(db, id, next, at))
  {
    RotationKeepsChains(db, id, next, at);
    InPlace(db, id);
    InsertKeepsIndexes(db, next);
    UpdateKeepsIndexes(Insert(db, next), id, db.sessions[id].(revokedAt := Some(at), replacedBy := Some(db.next)));
  }

  // ------------------------------------------------- transactions keep them

  lemma SameSessionsKeep(db: Db, db': Db)
    requires Inv(db) && SameSessions(db, db')
    ensures Inv(db')
  {
  }

  lemma OpenFamilyKeeps(db: Db, principal: string, family: Family, receipt: Option<Receipt>, now: int)
    requires Inv(db)
    ensures Inv(OpenFamily(db, principal, family, receipt, now).0)
  {
    var s := Session(principal, family, First(family), 0, now, now + ACCESS_TTL, now + REFRESH_TTL, None, None,
                     receipt);
    var known := if principal in db.principals then db else db.(principals := db.principals[principal := Limited]);
    SameSessionsKeep(db, known);
    if !Duplicate(db, s) { OpenKeeps(known, s); }
  }

  lemma EitherKeeps(db: Db, left: Db, right: Db)
    requires Inv(left) && Inv(right) && (db == left || db == right)
    ensures Inv(db)
  {
  }

  lemma ProvisionOutcomes(db: Db, fingerprint: string, key: string, hash: string, proofOk: bool, elapsed: nat)
    ensures var later := db.(clock := db.clock + elapsed);
            var family := Provisioned(fingerprint, key, hash);
            || ProvisionTx(db, fingerprint, key, hash, proofOk, elapsed).0 == later
            || ProvisionTx(db, fingerprint, key, hash, proofOk, elapsed).0
               == OpenFamily(later, fingerprint, family, Some(ProvisionReceipt(key, hash)), later.clock).0
  {
  }

  lemma ProvisionKeeps(db: Db, fingerprint: string, key: string, hash: string, proofOk: bool, elapsed: nat)
    requires Inv(db)
    ensures Inv(ProvisionTx(db, fingerprint, key, hash, proofOk, elapsed).0)
  {
    var later := db.(clock := db.clock + elapsed);
    var family, receipt := Provisioned(fingerprint, key, hash), Some(ProvisionReceipt(key, hash));
    SameSessionsKeep(db, later);
    OpenFamilyKeeps(later, fingerprint, family, receipt, later.clock);
    ProvisionOutcomes(db, fingerprint, key, hash, proofOk, elapsed);
    EitherKeeps(ProvisionTx(db, fingerprint, key, hash, proofOk, elapsed).0, later,
                OpenFamily(later, fingerprint, family, receipt, later.clock).0);
  }

  lemma ChallengeKeeps(db: Db, token: Token, request: string, nonce: string, now: int)
    requires Inv(db)
    ensures Inv(ChallengeTx(db, token, request, nonce, now).0)
  {
    if token in db.byToken && db.byToken[token] in db.sessions {
      RevokeKeeps(db, FamilyMembers(db, db.sessions[db.byToken[token]].family), now);
    }
    if ChallengeTx(db, token, request, nonce, now).1.Challenged? {
      SameSessionsKeep(db, ChallengeTx(db, token, request, nonce, now).0);
    }
  }

  /** Rotating the newest session of a family, once the checks have passed. */
  lemma RotateKeeps(db: Db, id: int, r: RefreshRequest)
    requires Inv(db) && id in db.sessions && db.sessions[id].replacedBy.None? && db.sessions[id].token == r.token
    requires db.sessions[id].principal == r.fingerprint && r.nonce in db.nonces
    requires !Duplicate(db, Successor(db.sessions[id], r, db.clock))
    ensures Inv(RecordRotation(Consume(db, r.nonce), id, Successor(db.sessions[id], r, db.clock), db.clock))
  {
    SameSessionsKeep(db, Consume(db, r.nonce));
    RotationKeeps(Consume(db, r.nonce), id, Successor(db.sessions[id], r, db.clock), db.clock);
  }

  /** The four tables a refresh can leave behind. */
  lemma RefreshOutcomes(db0: Db, r: RefreshRequest)
    ensures var db := db0.(clock := db0.clock + r.elapsed);
            var db' := RefreshTx(db0, r).0;
            || db' == db
            || (r.token in db.byToken && db.byToken[r.token] in db.sessions
                && (|| db' == RevokeFamily(db, db.sessions[db.byToken[r.token]].family, db.clock)
                    || (r.nonce in db.nonces && db' == Consume(db, r.nonce))
                    || (&& r.nonce in db.nonces && RefreshTx(db0, r).1.Issued?
                        && db.sessions[db.byToken[r.token]].replacedBy.None?
                            && db.sessions[db.byToken[r.token]].revokedAt.None?
                        && db.sessions[db.byToken[r.token]].principal == r.fingerprint
                        && !Duplicate(db, Successor(db.sessions[db.byToken[r.token]], r, db.clock))
                        && db' == RecordRotation(Consume(db, r.nonce), db.byToken[r.token],
                                                 Successor(db.sessions[db.byToken[r.token]], r, db.clock), db.clock))))
  {
  }

  lemma RefreshKeeps(db0: Db, r: RefreshRequest)
    requires Inv(db0)
    ensures Inv(RefreshTx(db0, r).0)
  {
    var db := db0.(clock := db0.clock + r.elapsed);
    var db' := RefreshTx(db0, r).0;
    SameSessionsKeep(db0, db);
    RefreshOutcomes(db0, r);
    if db' == db {
      EitherKeeps(db', db, db);
    } else {
      var id := db.byToken[r.token];
      assert HasToken(db.sessions, id, r.token);
      var s := db.sessions[id];
      if db' == RevokeFamily(db, s.family, db.clock) {
        RevokeKeeps(db, FamilyMembers(db, s.family), db.clock);
        EitherKeeps(db', RevokeFamily(db, s.family, db.clock), db);
      } else if db' == Consume(db, r.nonce) {
        SameSessionsKeep(db, db');
      } else {
        RotateKeeps(db, id, r);
        EitherKeeps(db', RecordRotation(Consume(db, r.nonce), id, Successor(s, r, db.clock), db.clock), db);
      }
    }
  }

  lemma StepKeeps(db: Db, op: Op)
    requires Inv(db)
    ensures Inv(Step(db, op))
  {
    match op
    case Provision(fingerprint, key, hash, proofOk, elapsed) =>
      ProvisionKeeps(db, fingerprint, key, hash, proofOk, elapsed);
    case AddDevice(fingerprint, random, proofOk, now) => OpenFamilyKeeps(db, fingerprint, Device(random), None, now);
    case Challenge(token, request, nonce, now) => ChallengeKeeps(db, token, request, nonce, now);
    case Refresh(refresh) => RefreshKeeps(db, refresh);
    case RevokePrincipal(principal, now) =>
      RevokeKeeps(db, PrincipalMembers(db, principal), now);
      SameSessionsKeep(db.(sessions := RevokeAll(db.sessions, PrincipalMembers(db, principal), now)),
                       db.(principals := db.principals[principal := Revoked],
                           sessions := RevokeAll(db.sessions, PrincipalMembers(db, principal), now)));
    case SetStatus(principal, status) => SameSessionsKeep(db, SetStatusTx(db, principal, status));
  }

  lemma {:induction false} RunKeeps(db: Db, ops: seq<Op>)
    requires Inv(db)
    ensures Inv(Run(db, ops))
    decreases |ops|
  {
    if ops != [] {
      StepKeeps(db, ops[0]);
      RunKeeps(Step(db, ops[0]), ops[1..]);
    }
  }
}
