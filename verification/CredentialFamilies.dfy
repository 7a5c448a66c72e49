/**
 * What holds of credential families over whole runs: one chain per family, at
 * most one unrevoked session, idempotent retries, and reuse that kills a family
 * for good.
 */
module CredentialFamilies {
  import opened Common
  import opened RefreshRotation

  predicate IsRevoked(sessions: map<int, Session>, id: int) {
    id in sessions && sessions[id].revokedAt.Some?
  }

  /** All sessions of the family are revoked. */
  ghost predicate DeadFamily(db: Db, f: Family) {
    f in db.chains && forall k | 0 <= k < |db.chains[f]| :: IsRevoked(db.sessions, db.chains[f][k])
  }

  /** A row only ever gains a revocation time and, together with it, a successor. */
  predicate Later(sessions: map<int, Session>, sessions': map<int, Session>, id: int) {
    && id in sessions && id in sessions'
    && sessions'[id] == sessions[id].(revokedAt := sessions'[id].revokedAt, replacedBy := sessions'[id].replacedBy)
    && (sessions[id].revokedAt.Some? ==> sessions'[id].revokedAt == sessions[id].revokedAt)
    && (sessions[id].replacedBy.Some? ==> sessions'[id].replacedBy == sessions[id].replacedBy)
  }

  ghost predicate Evolves(db: Db, db': Db) {
    && (forall id | id in db.sessions :: Later(db.sessions, db'.sessions, id))
    && (forall f | f in db.chains :: f in db'.chains && db.chains[f] <= db'.chains[f])
    && (forall f | f in db.chains && DeadFamily(db, f) :: db'.chains[f] == db.chains[f])
    && db.byToken.Keys <= db'.byToken.Keys
    && (forall t | t in db.byToken :: db'.byToken[t] == db.byToken[t])
  }

  lemma DeadStaysDead(db: Db, db': Db, f: Family)
    requires Evolves(db, db') && DeadFamily(db, f)
    ensures DeadFamily(db', f)
  {
    forall k | 0 <= k < |db'.chains[f]| ensures IsRevoked(db'.sessions, db'.chains[f][k]) {
      assert IsRevoked(db.sessions, db.chains[f][k]);
      assert Later(db.sessions, db'.sessions, db.chains[f][k]);
    }
  }

  lemma EvolvesTransitive(a: Db, b: Db, c: Db)
    requires Evolves(a, b) && Evolves(b, c)
    ensures Evolves(a, c)
  {
    forall id | id in a.sessions ensures Later(a.sessions, c.sessions, id) {
      assert Later(a.sessions, b.sessions, id);
      assert Later(b.sessions, c.sessions, id);
    }
    forall f | f in a.chains && DeadFamily(a, f) ensures c.chains[f] == a.chains[f] {
      DeadStaysDead(a, b, f);
    }
  }

  // ----------------------------------------------------------- steps evolve

  lemma SameEvolves(db: Db, db': Db)
    requires SameSessions(db, db')
    ensures Evolves(db, db')
  {
  }

  lemma RevokeEvolves(db: Db, db': Db, which: set<int>, at: int)
    requires SameSessions(db.(sessions := RevokeAll(db.sessions, which, at)), db')
    ensures Evolves(db, db')
  {
  }

  /** A new row evolves the tables unless it extends a dead family or takes a token that is in use. */
  lemma InsertEvolves(db: Db, s: Session)
    requires db.next !in db.sessions && s.token !in db.byToken && !DeadFamily(db, s.family)
    ensures Evolves(db, Insert(db, s))
  {
    var db' := Insert(db, s);
    hide DeadFamily;
    forall id | id in db.sessions ensures Later(db.sessions, db'.sessions, id) {
    }
  }

  lemma UpdateEvolves(db: Db, id: int, s: Session)
    requires id in db.sessions && Later(db.sessions, db.sessions[id := s], id)
    ensures Evolves(db, db.(sessions := db.sessions[id := s]))
  {
    hide DeadFamily;
  }

  lemma OpenEvolves(db: Db, principal: string, family: Family, receipt: Option<Receipt>, now: int)
    requires Inv(db)
    ensures Evolves(db, OpenFamily(db, principal, family, receipt, now).0)
  {
    var known := if principal in db.principals then db else db.(principals := db.principals[principal := Limited]);
    var s := Session(principal, family, First(family), 0, now, now + ACCESS_TTL, now + REFRESH_TTL, None, None,
                     receipt);
    hide Inv, Evolves, Insert;
    SameEvolves(db, known);
    if !Duplicate(known, s) {
      FirstTokenIsNew(db, family);
      NextIsUnused(db);
      InsertEvolves(known, s);
      EvolvesTransitive(db, known, Insert(known, s));
    }
  }

  lemma UnrevokedIsAlive(db: Db, id: int)
    requires Inv(db) && id in db.sessions && db.sessions[id].revokedAt.None?
    ensures !DeadFamily(db, db.sessions[id].family)
  {
    InPlace(db, id);
    hide Inv, LinkOk;
    assert !IsRevoked(db.sessions, db.chains[db.sessions[id].family][db.sessions[id].counter]);
  }

  lemma NextIsUnused(db: Db)
    requires Inv(db)
    ensures db.next !in db.sessions
  {
    hide ChainsOk, TokenIndexOk, ReceiptIndexOk;
  }

  lemma RotationEvolves(db: Db, id: int, next: Session, at: int)
    requires Inv(db) && id in db.sessions && db.sessions[id].replacedBy.None? && db.sessions[id].revokedAt.None?
    requires next.family == db.sessions[id].family && next.token !in db.byToken
    ensures Evolves(db, RecordRotation(db, id, next, at))
  {
    hide Inv, DeadFamily, Evolves;
    UnrevokedIsAlive(db, id);
    NextIsUnused(db);
    InsertEvolves(db, next);
    UpdateEvolves(Insert(db, next), id, db.sessions[id].(revokedAt := Some(at), replacedBy := Some(db.next)));
    EvolvesTransitive(db, Insert(db, next), RecordRotation(db, id, next, at));
  }

  lemma RefreshEvolves(db0: Db, r: RefreshRequest)
    requires Inv(db0)
    ensures Evolves(db0, RefreshTx(db0, r).0)
  {
    var db := db0.(clock := db0.clock + r.elapsed);
    var db' := RefreshTx(db0, r).0;
    SameSessionsKeep(db0, db);
    SameEvolves(db0, db);
    RefreshOutcomes(db0, r);
    if db' == db {
    } else {
      var id := db.byToken[r.token];
      assert HasToken(db.sessions, id, r.token);
      var s := db.sessions[id];
      if db' == RevokeFamily(db, s.family, db.clock) {
        RevokeEvolves(db, db', FamilyMembers(db, s.family), db.clock);
      } else if db' == Consume(db, r.nonce) {
        SameEvolves(db, db');
      } else {
        var ready := Consume(db, r.nonce);
        SameSessionsKeep(db, ready);
        SameEvolves(db, ready);
        RotationEvolves(ready, id, Successor(s, r, db.clock), db.clock);
        EvolvesTransitive(db, ready, db');
      }
      EvolvesTransitive(db0, db, db');
    }
  }

  lemma ProvisionEvolves(db: Db, fingerprint: string, key: string, hash: string, proofOk: bool, elapsed: nat)
    requires Inv(db)
    ensures Evolves(db, ProvisionTx(db, fingerprint, key, hash, proofOk, elapsed).0)
  {
    var later := db.(clock := db.clock + elapsed);
    var family, receipt := Provisioned(fingerprint, key, hash), Some(ProvisionReceipt(key, hash));
    SameSessionsKeep(db, later);
    SameEvolves(db, later);
    OpenEvolves(later, fingerprint, family, receipt, later.clock);
    EvolvesTransitive(db, later, OpenFamily(later, fingerprint, family, receipt, later.clock).0);
    ProvisionOutcomes(db, fingerprint, key, hash, proofOk, elapsed);
    var db' := ProvisionTx(db, fingerprint, key, hash, proofOk, elapsed).0;
    assert db' == later || db' == OpenFamily(later, fingerprint, family, receipt, later.clock).0;
  }

  lemma ChallengeEvolves(db: Db, token: Token, request: string, nonce: string, now: int)
    requires Inv(db)
    ensures Evolves(db, ChallengeTx(db, token, request, nonce, now).0)
  {
    var (db', reply) := ChallengeTx(db, token, request, nonce, now);
    if reply.ReuseDetected? {
      RevokeEvolves(db, db', FamilyMembers(db, db.sessions[db.byToken[token]].family), now);
    } else {
      SameEvolves(db, db');
    }
  }

  lemma StepEvolves(db: Db, op: Op)
    requires Inv(db)
    ensures Evolves(db, Step(db, op))
  {
    match op
    case Provision(fingerprint, key, hash, proofOk, elapsed) =>
      ProvisionEvolves(db, fingerprint, key, hash, proofOk, elapsed);
    case AddDevice(fingerprint, random, proofOk, now) =>
      OpenEvolves(db, fingerprint, Device(random), None, now);
      SameEvolves(db, db);
    case Challenge(token, request, nonce, now) => ChallengeEvolves(db, token, request, nonce, now);
    case Refresh(refresh) => RefreshEvolves(db, refresh);
    case RevokePrincipal(principal, now) =>
      if Step(db, op) == db {
        SameEvolves(db, db);
      } else {
        RevokeEvolves(db, Step(db, op), PrincipalMembers(db, principal), now);
      }
    case SetStatus(principal, status) => SameEvolves(db, Step(db, op));
  }

  lemma {:induction false} RunEvolves(db: Db, ops: seq<Op>)
    requires Inv(db)
    ensures Inv(Run(db, ops)) && Evolves(db, Run(db, ops))
    decreases |ops|
  {
    if ops == [] {
      SameEvolves(db, db);
    } else {
      var next := Step(db, ops[0]);
      StepKeeps(db, ops[0]);
      StepEvolves(db, ops[0]);
      RunEvolves(next, ops[1..]);
      EvolvesTransitive(db, next, Run(next, ops[1..]));
    }
  }

  // ------------------------------------------------------------------ theorems

  /**
   * In every run each family is one chain: every session sits in its family's
   * chain at the position its counter gives, points at the next one, is derived
   * from the one before, and shares an absolute expiry that bounds its own.
   */
  lemma EveryFamilyIsOneChain(ops: seq<Op>)
    ensures ChainsOk(Run(EMPTY, ops)) && Placed(Run(EMPTY, ops))
  {
    RunKeeps(EMPTY, ops);
  }

  /** In every run a family has at most one unrevoked session, and it is the newest. */
  lemma AtMostOneUnrevoked(ops: seq<Op>, id: int)
    requires id in Run(EMPTY, ops).sessions && Run(EMPTY, ops).sessions[id].revokedAt.None?
    ensures var db := Run(EMPTY, ops); var s := db.sessions[id];
            s.family in db.chains && |db.chains[s.family]| == s.counter + 1 && db.chains[s.family][s.counter] == id
    ensures forall other | other in Run(EMPTY, ops).sessions && other != id
                           && Run(EMPTY, ops).sessions[other].family == Run(EMPTY, ops).sessions[id].family ::
              Run(EMPTY, ops).sessions[other].revokedAt.Some?
  {
    RunKeeps(EMPTY, ops);
    var db := Run(EMPTY, ops);
    InPlace(db, id);
    forall other | other in db.sessions && other != id && db.sessions[other].family == db.sessions[id].family
      ensures db.sessions[other].revokedAt.Some?
    {
      InPlace(db, other);
    }
  }

  /** The request passes the checks that do not depend on the chain or the nonce. */
  predicate Entitled(db: Db, r: RefreshRequest) {
    && r.proofOk && r.token in db.byToken && db.byToken[r.token] in db.sessions
    && db.sessions[db.byToken[r.token]].principal == r.fingerprint
    && Usable(db, r.fingerprint)
    && db.sessions[db.byToken[r.token]].absolute > db.clock + r.elapsed
  }

  /** The session's successor is unrevoked and was made by the rotation request with this identifier. */
  predicate SuccessorAnswers(db: Db, s: Session, request: string) {
    SuccessorAsked(db, s, request) && db.sessions[s.replacedBy.value].revokedAt.None?
  }

  lemma RetryOutcome(db: Db, r: RefreshRequest)
    requires Inv(db) && Entitled(db, r) && db.sessions[db.byToken[r.token]].replacedBy.Some?
    ensures db.sessions[db.byToken[r.token]].replacedBy.value in db.sessions
    ensures var s := db.sessions[db.byToken[r.token]]; var next := db.sessions[s.replacedBy.value];
            if !SuccessorAnswers(db, s, r.request) then RefreshTx(db, r).1 == ReuseDetected
            else if !NonceUsable(db, r.nonce, r.fingerprint, db.clock + r.elapsed) then
              RefreshTx(db, r) == (db.(clock := db.clock + r.elapsed), Unauthorized)
            else
              RefreshTx(db, r) == (Consume(db.(clock := db.clock + r.elapsed), r.nonce),
                                   Issued(s.replacedBy.value, next.token, next.expiresAt))
  {
    hide Inv, RevokeFamily, Successor, RecordRotation, Duplicate;
    TokenNames(db, r.token);
    ReplacedByNext(db, db.byToken[r.token]);
  }

  /** After a successful refresh the old session points at the issued one, which carries the request. */
  lemma IssuedIsSuccessor(db0: Db, r: RefreshRequest)
    requires Inv(db0) && RefreshTx(db0, r).1.Issued?
    ensures Rotation(RefreshTx(db0, r).0, r.token, r.request, RefreshTx(db0, r).1)
  {
    var db := db0.(clock := db0.clock + r.elapsed);
    SameSessionsKeep(db0, db);
    var id := db.byToken[r.token];
    TokenNames(db, r.token);
    NextIsUnused(db);
    hide Inv, RevokeFamily;
    if db.sessions[id].replacedBy.Some? {
      RetryOutcome(db0, r);
    } else {
      assert id != db.next && r.token != Rotated(r.token, r.fingerprint, r.request);
    }
  }

  /** The session of `token` was replaced by the issued one, on this request. */
  predicate Rotation(db: Db, token: Token, request: string, issued: Reply) {
    && issued.Issued?
    && token in db.byToken && db.byToken[token] in db.sessions
    && db.sessions[db.byToken[token]].replacedBy == Some(issued.session)
    && issued.session in db.sessions
    && db.sessions[issued.session].receipt.Some? && db.sessions[issued.session].receipt.value.id == request
    && db.sessions[issued.session].token == issued.token && db.sessions[issued.session].expiresAt == issued.expiresAt
  }

  lemma RotationLasts(db: Db, db': Db, token: Token, request: string, issued: Reply)
    requires Rotation(db, token, request, issued) && Evolves(db, db')
    ensures Rotation(db', token, request, issued)
  {
    assert Later(db.sessions, db'.sessions, db.byToken[token]);
    assert Later(db.sessions, db'.sessions, issued.session);
  }

  lemma RetryAnswers(db: Db, retry: RefreshRequest, issued: Reply)
    requires Inv(db) && Entitled(db, retry) && Rotation(db, retry.token, retry.request, issued)
    ensures RefreshTx(db, retry).1 == issued <==> db.sessions[issued.session].revokedAt.None?
                                                  && NonceUsable(db, retry.nonce, retry.fingerprint,
                                                                 db.clock + retry.elapsed)
    ensures RefreshTx(db, retry).1 == issued ==> SameSessions(db, RefreshTx(db, retry).0)
    ensures RefreshTx(db, retry).1 != issued ==> !RefreshTx(db, retry).1.Issued?
  {
    RetryOutcome(db, retry);
  }

  /**
   * Retrying a rotation, after anything else happened: it returns the session
   * the first call created, with its token and expiry, and adds no row, exactly
   * when that session is still unrevoked and the nonce is good.
   */
  lemma RetriedRotation(ops: seq<Op>, first: RefreshRequest, more: seq<Op>, retry: RefreshRequest, db: Db,
                        issued: Reply)
    requires issued == RefreshTx(Run(EMPTY, ops), first).1 && issued.Issued?
    requires db == Run(RefreshTx(Run(EMPTY, ops), first).0, more)
    requires retry.token == first.token && retry.request == first.request && Entitled(db, retry)
    ensures issued.session in db.sessions
    ensures RefreshTx(db, retry).1 == issued <==> db.sessions[issued.session].revokedAt.None?
                                                  && NonceUsable(db, retry.nonce, retry.fingerprint,
                                                                 db.clock + retry.elapsed)
    ensures RefreshTx(db, retry).1 == issued ==> SameSessions(db, RefreshTx(db, retry).0)
    ensures RefreshTx(db, retry).1 != issued ==> !RefreshTx(db, retry).1.Issued?
  {
    var start := Run(EMPTY, ops);
    RunKeeps(EMPTY, ops);
    var made := RefreshTx(start, first).0;
    RefreshKeeps(start, first);
    IssuedIsSuccessor(start, first);
    RunEvolves(made, more);
    RotationLasts(made, db, first.token, first.request, issued);
    RetryAnswers(db, retry, issued);
  }

  lemma RevokedFamilyIsDead(db: Db, f: Family, at: int)
    requires Inv(db) && f in db.chains
    ensures DeadFamily(RevokeFamily(db, f, at), f)
  {
    forall k | 0 <= k < |db.chains[f]| ensures IsRevoked(RevokeFamily(db, f, at).sessions, db.chains[f][k]) {
      assert LinkOk(db.sessions, f, db.chains[f], k);
      var id := db.chains[f][k];
      assert id in db.sessions && db.sessions[id].family == f && id in FamilyMembers(db, f);
    }
  }

  /** A step that answers with reuse detection; it names the credential it was shown. */
  predicate DetectsReuse(db: Db, op: Op, token: Token) {
    || (op.Challenge? && op.token == token
        && ChallengeTx(db, op.token, op.request, op.nonce, op.now).1 == ReuseDetected)
    || (op.Refresh? && op.refresh.token == token && RefreshTx(db, op.refresh).1 == ReuseDetected)
  }

  lemma ChallengeReuse(db: Db, token: Token, request: string, nonce: string, now: int)
    requires Inv(db) && ChallengeTx(db, token, request, nonce, now).1 == ReuseDetected
    ensures token in db.byToken && db.byToken[token] in db.sessions
    ensures DeadFamily(ChallengeTx(db, token, request, nonce, now).0, db.sessions[db.byToken[token]].family)
  {
    hide Inv, DeadFamily, RevokeFamily;
    TokenNames(db, token);
    InPlace(db, db.byToken[token]);
    RevokedFamilyIsDead(db, db.sessions[db.byToken[token]].family, now);
  }

  lemma RefreshReuse(db: Db, r: RefreshRequest)
    requires Inv(db) && RefreshTx(db, r).1 == ReuseDetected
    ensures r.token in db.byToken && db.byToken[r.token] in db.sessions
    ensures DeadFamily(RefreshTx(db, r).0, db.sessions[db.byToken[r.token]].family)
  {
    hide Inv, DeadFamily, Successor, RecordRotation, Duplicate, RevokeFamily;
    var later := db.(clock := db.clock + r.elapsed);
    SameSessionsKeep(db, later);
    TokenNames(db, r.token);
    InPlace(db, db.byToken[r.token]);
    RevokedFamilyIsDead(later, db.sessions[db.byToken[r.token]].family, later.clock);
  }

  lemma ReuseKillsTheFamily(db: Db, op: Op, token: Token)
    requires Inv(db) && DetectsReuse(db, op, token)
    ensures token in db.byToken && db.byToken[token] in db.sessions
    ensures DeadFamily(Step(db, op), db.sessions[db.byToken[token]].family)
  {
    if op.Challenge? {
      ChallengeReuse(db, op.token, op.request, op.nonce, op.now);
    } else {
      RefreshReuse(db, op.refresh);
    }
  }

  /**
   * Once reuse revokes a family, then whatever happens next every session of
   * that family is revoked: no old one revives and no new one is ever issued.
   */
  lemma CompromisedFamilyStaysDead(ops: seq<Op>, op: Op, token: Token, more: seq<Op>, id: int)
    requires DetectsReuse(Run(EMPTY, ops), op, token)
    requires token in Run(EMPTY, ops).byToken && Run(EMPTY, ops).byToken[token] in Run(EMPTY, ops).sessions
    requires var db := Run(Step(Run(EMPTY, ops), op), more);
             id in db.sessions && db.sessions[id].family
                 == Run(EMPTY, ops).sessions[Run(EMPTY, ops).byToken[token]].family
    ensures Run(Step(Run(EMPTY, ops), op), more).sessions[id].revokedAt.Some?
    ensures id in Step(Run(EMPTY, ops), op).sessions
  {
    var start := Run(EMPTY, ops);
    RunKeeps(EMPTY, ops);
    var f := start.sessions[start.byToken[token]].family;
    var hit := Step(start, op);
    ReuseKillsTheFamily(start, op, token);
    StepKeeps(start, op);
    RunEvolves(hit, more);
    var db := Run(hit, more);
    DeadStaysDead(hit, db, f);
    InPlace(db, id);
    assert IsRevoked(db.sessions, db.chains[f][db.sessions[id].counter]);
    assert IsRevoked(hit.sessions, hit.chains[f][db.sessions[id].counter]);
  }
}
