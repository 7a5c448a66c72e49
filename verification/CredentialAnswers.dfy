/**
 * What the credential handlers answer in every reachable state: a challenge for a
 * live credential followed by a refresh with its nonce issues the successor, each
 * nonce serves once and for two minutes, a lost reply is recovered by repeating both
 * steps, and provisioning opens a family once.
 */
module CredentialAnswers {
  import opened Common
  import opened RefreshRotation
  import opened CredentialFamilies

  /** The credential's session is the newest of its family, unrevoked, unexpired, and its principal may act. */
  predicate Live(db: Db, token: Token, t: int) {
    && token in db.byToken && db.byToken[token] in db.sessions
    && var s := db.sessions[db.byToken[token]];
       && s.revokedAt.None? && s.replacedBy.None? && t < s.absolute
       && s.principal in db.principals
       && (db.principals[s.principal] == Limited || db.principals[s.principal] == Active)
  }

  /** The nonce was issued to this key, has not been used, and its two minutes are not over. */
  predicate GoodNonce(db: Db, nonce: string, fingerprint: string, t: int) {
    && nonce in db.nonces
    && var n := db.nonces[nonce];
       n.fingerprint == fingerprint && !n.used && t <= n.expiresAt
  }

  // ------------------------------------------------------------------ challenges

  /**
   * A live credential gets a challenge under any new nonce: it is good for its key
   * for two minutes, and nothing else changes.
   */
  lemma LiveCredentialIsChallenged(db: Db, token: Token, request: string, nonce: string, now: int)
    requires Live(db, token, now) && nonce !in db.nonces
    ensures var (db', reply) := ChallengeTx(db, token, request, nonce, now);
            && reply == Challenged && db' == db.(nonces := db'.nonces)
            && db'.nonces == db.nonces[nonce := Nonce(db.sessions[db.byToken[token]].principal, now + 120_000, false)]
  {
    hide RevokeFamily;
  }

  /** Unknown, revoked and expired credentials, and those of principals that may not act, get none; nothing changes. */
  lemma DeadCredentialIsRefused(db: Db, token: Token, request: string, nonce: string, now: int)
    requires !Live(db, token, now)
    requires token in db.byToken && db.byToken[token] in db.sessions ==> db.sessions[db.byToken[token]].replacedBy.None?
    ensures ChallengeTx(db, token, request, nonce, now) == (db, Unauthorized)
  {
    hide RevokeFamily;
  }

  // ------------------------------------------------------------------- refreshes

  /** A token derived by a rotation stands beside the receipt of that rotation. */
  lemma RotatedTokenHasReceipt(db: Db, parent: Token, fingerprint: string, request: string)
    requires Inv(db) && Rotated(parent, fingerprint, request) in db.byToken
    ensures (fingerprint, request) in db.byReceipt
  {
    var token := Rotated(parent, fingerprint, request);
    var id := db.byToken[token];
    TokenNames(db, token);
    InPlace(db, id);
    var s := db.sessions[id];
    var chain := db.chains[s.family];
    hide ChainsOk, Placed, TokenIndexOk;
    assert LinkOk(db.sessions, s.family, chain, s.counter);
    assert s.counter > 0;
    assert Follows(db.sessions, chain[s.counter - 1], id);
  }

  /** The successor: next in the family, for fifteen minutes but never beyond the absolute expiry. */
  predicate Succeeding(next: Session, s: Session, r: RefreshRequest, t: int) {
    && next.principal == s.principal && next.family == s.family && next.counter == s.counter + 1
    && next.token == Rotated(r.token, r.fingerprint, r.request)
    && next.expiresAt == (if t + 900_000 < s.absolute then t + 900_000 else s.absolute)
    && next.absolute == s.absolute && next.revokedAt.None? && next.replacedBy.None?
  }

  /** The refresh took place: one new session, the old one revoked and pointing at it, the nonce used. */
  ghost predicate Refreshed(db: Db, r: RefreshRequest, db': Db, reply: Reply)
    requires r.token in db.byToken && db.byToken[r.token] in db.sessions && r.nonce in db.nonces
  {
    var id, t, added := db.byToken[r.token], db.clock + r.elapsed, db.next;
    && db'.clock == t && added in db'.sessions
    && Succeeding(db'.sessions[added], db.sessions[id], r, t)
    && reply == Issued(added, db'.sessions[added].token, db'.sessions[added].expiresAt)
    && db'.sessions == db.sessions[added := db'.sessions[added]]
                                  [id := db.sessions[id].(revokedAt := Some(t), replacedBy := Some(added))]
    && db'.nonces == db.nonces[r.nonce := db.nonces[r.nonce].(used := true)]
    && db'.principals == db.principals
  }

  lemma RefreshOfLive(db: Db, r: RefreshRequest)
    requires r.proofOk && Live(db, r.token, db.clock + r.elapsed)
    requires db.sessions[db.byToken[r.token]].principal == r.fingerprint
    requires Rotated(r.token, r.fingerprint, r.request) in db.byToken ==> (r.fingerprint, r.request) in db.byReceipt
    requires db.next !in db.sessions
    ensures var (db', reply) := RefreshTx(db, r);
            if !GoodNonce(db, r.nonce, r.fingerprint, db.clock + r.elapsed) then
              (db', reply) == (db.(clock := db.clock + r.elapsed), Unauthorized)
            else if (r.fingerprint, r.request) in db.byReceipt then
              (db', reply) == (db.(clock := db.clock + r.elapsed), Failed)
            else Refreshed(db, r, db', reply)
  {
    hide RevokeFamily, Replays;
  }

  /**
   * In every reachable state a refresh of a live credential by its own key issues
   * the successor exactly when the nonce is good and the key has not used the
   * request identifier before; otherwise only the clock moves on.
   */
  lemma LiveCredentialRefreshes(db: Db, r: RefreshRequest)
    requires Inv(db) && r.proofOk && Live(db, r.token, db.clock + r.elapsed)
    requires db.sessions[db.byToken[r.token]].principal == r.fingerprint
    ensures var (db', reply) := RefreshTx(db, r);
            if !GoodNonce(db, r.nonce, r.fingerprint, db.clock + r.elapsed) then
              (db', reply) == (db.(clock := db.clock + r.elapsed), Unauthorized)
            else if (r.fingerprint, r.request) in db.byReceipt then
              (db', reply) == (db.(clock := db.clock + r.elapsed), Failed)
            else Refreshed(db, r, db', reply)
  {
    hide Inv, RefreshTx, Live, GoodNonce, Refreshed;
    if Rotated(r.token, r.fingerprint, r.request) in db.byToken {
      RotatedTokenHasReceipt(db, r.token, r.fingerprint, r.request);
    }
    NextIsUnused(db);
    RefreshOfLive(db, r);
  }

  /** Nothing is ever issued without a good nonce, to a first refresh or to a retry. */
  lemma IssuingNeedsAGoodNonce(db: Db, r: RefreshRequest)
    requires RefreshTx(db, r).1.Issued?
    ensures GoodNonce(db, r.nonce, r.fingerprint, db.clock + r.elapsed) && r.proofOk
    ensures r.nonce in RefreshTx(db, r).0.nonces && RefreshTx(db, r).0.nonces[r.nonce].used
  {
    hide RevokeFamily, Replays, Duplicate;
  }

  // --------------------------------------------------------------- nonces in runs

  /** A nonce keeps its key and its expiry, and once used it stays used. */
  predicate NonceLasts(db: Db, db': Db, nonce: string)
    requires nonce in db.nonces
  {
    && nonce in db'.nonces
    && db'.nonces[nonce].fingerprint == db.nonces[nonce].fingerprint
    && db'.nonces[nonce].expiresAt == db.nonces[nonce].expiresAt
    && (db.nonces[nonce].used ==> db'.nonces[nonce].used)
  }

  lemma RefreshLeavesNonces(db: Db, r: RefreshRequest, nonce: string)
    requires nonce in db.nonces
    ensures NonceLasts(db, RefreshTx(db, r).0, nonce)
  {
    hide RevokeAll, FamilyMembers, Successor, Duplicate, Replays;
  }

  lemma StepLeavesNonces(db: Db, op: Op, nonce: string)
    requires nonce in db.nonces
    ensures NonceLasts(db, Step(db, op), nonce) && db.clock <= Step(db, op).clock
  {
    hide RevokeAll, FamilyMembers, PrincipalMembers, Duplicate, RefreshTx, Usable;
    match op
    case Provision(fingerprint, key, hash, proofOk, elapsed) =>
    case AddDevice(fingerprint, random, proofOk, now) =>
    case Challenge(token, request, given, now) =>
    case Refresh(refresh) =>
      RefreshLeavesNonces(db, refresh, nonce);
      ClockAfterRefresh(db, refresh);
    case RevokePrincipal(principal, now) =>
    case SetStatus(principal, status) =>
  }

  lemma ClockAfterRefresh(db: Db, r: RefreshRequest)
    ensures RefreshTx(db, r).0.clock == db.clock + r.elapsed
  {
    hide RevokeAll, FamilyMembers, Successor, Duplicate, Replays, NonceUsable, Usable;
  }

  lemma {:induction false} RunLeavesNonces(db: Db, ops: seq<Op>, nonce: string)
    requires nonce in db.nonces
    ensures NonceLasts(db, Run(db, ops), nonce) && db.clock <= Run(db, ops).clock
    decreases |ops|
  {
    hide Step;
    if ops != [] {
      StepLeavesNonces(db, ops[0], nonce);
      RunLeavesNonces(Step(db, ops[0]), ops[1..], nonce);
    }
  }

  /** A nonce that issued something issues nothing again, in no later state. */
  lemma NonceServesOnce(db: Db, r: RefreshRequest, more: seq<Op>, again: RefreshRequest)
    requires RefreshTx(db, r).1.Issued? && again.nonce == r.nonce
    ensures !RefreshTx(Run(RefreshTx(db, r).0, more), again).1.Issued?
  {
    IssuingNeedsAGoodNonce(db, r);
    hide RefreshTx, Run;
    var after := RefreshTx(db, r).0;
    RunLeavesNonces(after, more, r.nonce);
    if RefreshTx(Run(after, more), again).1.Issued? {
      IssuingNeedsAGoodNonce(Run(after, more), again);
    }
  }

  /**
   * The two steps of a rotation with anything in between: a live credential is
   * challenged, and its key's refresh, if the credential is then still live and the
   * request identifier new, issues the successor exactly until two minutes after the
   * challenge and as long as the nonce has not been used.
   */
  lemma ChallengeThenRefresh(ops: seq<Op>, token: Token, request: string, nonce: string, now: int, more: seq<Op>,
                             r: RefreshRequest)
    requires var db := Run(EMPTY, ops); Live(db, token, now) && nonce !in db.nonces
    requires var later := Run(ChallengeTx(Run(EMPTY, ops), token, request, nonce, now).0, more);
             && Live(later, token, later.clock + r.elapsed)
             && r.proofOk && r.token == token && r.nonce == nonce && (r.fingerprint, r.request) !in later.byReceipt
             && r.fingerprint == later.sessions[later.byToken[token]].principal
    ensures var challenged := ChallengeTx(Run(EMPTY, ops), token, request, nonce, now).0;
            var later := Run(challenged, more);
            var (db', reply) := RefreshTx(later, r);
            && ChallengeTx(Run(EMPTY, ops), token, request, nonce, now).1 == Challenged
            && nonce in later.nonces
            && (reply.Issued? <==> later.clock + r.elapsed <= now + 120_000 && !later.nonces[nonce].used)
            && (reply.Issued? ==> Refreshed(later, r, db', reply))
  {
    hide ChallengeTx, RefreshTx, Run, Inv, Live, NonceLasts, Succeeding;
    AfterTheChallenge(ops, token, request, nonce, now, more);
    LiveCredentialRefreshes(Run(ChallengeTx(Run(EMPTY, ops), token, request, nonce, now).0, more), r);
  }

  /** What is left of a challenge after any further run. */
  lemma AfterTheChallenge(ops: seq<Op>, token: Token, request: string, nonce: string, now: int, more: seq<Op>)
    requires Live(Run(EMPTY, ops), token, now) && nonce !in Run(EMPTY, ops).nonces
    ensures ChallengeTx(Run(EMPTY, ops), token, request, nonce, now).1 == Challenged
    ensures var later := Run(ChallengeTx(Run(EMPTY, ops), token, request, nonce, now).0, more);
            && Inv(later) && nonce in later.nonces && later.nonces[nonce].expiresAt == now + 120_000
            && token in later.byToken && later.byToken[token] in later.sessions
            && later.nonces[nonce].fingerprint == later.sessions[later.byToken[token]].principal
  {
    hide ChallengeTx, Run, Inv, Evolves;
    var db := Run(EMPTY, ops);
    RunKeepsFromStart(ops);
    LiveCredentialIsChallenged(db, token, request, nonce, now);
    ChallengeKeeps(db, token, request, nonce, now);
    ChallengeEvolves(db, token, request, nonce, now);
    var challenged := ChallengeTx(db, token, request, nonce, now).0;
    RunEvolves(challenged, more);
    RunLeavesNonces(challenged, more, nonce);
    SamePrincipal(db, challenged, Run(challenged, more), token);
  }

  lemma RunKeepsFromStart(ops: seq<Op>)
    ensures Inv(Run(EMPTY, ops))
  {
    RunKeeps(EMPTY, ops);
  }

  lemma SamePrincipal(db: Db, challenged: Db, later: Db, token: Token)
    requires Evolves(db, challenged) && Evolves(challenged, later)
    requires token in db.byToken && db.byToken[token] in db.sessions
    ensures token in later.byToken && db.byToken[token] == later.byToken[token]
    ensures later.byToken[token] in later.sessions
    ensures later.sessions[later.byToken[token]].principal == db.sessions[db.byToken[token]].principal
  {
    var id := db.byToken[token];
    assert Later(db.sessions, challenged.sessions, id);
    assert Later(challenged.sessions, later.sessions, id);
    hide DeadFamily;
  }

  /** With nothing in between the rotation always succeeds. */
  lemma ImmediateRotation(ops: seq<Op>, token: Token, request: string, nonce: string, now: int, r: RefreshRequest)
    requires var db := Run(EMPTY, ops);
             && Live(db, token, now) && nonce !in db.nonces
             && Live(db, token, db.clock + r.elapsed) && db.clock + r.elapsed <= now + 120_000
             && r.proofOk && r.token == token && r.nonce == nonce && (r.fingerprint, r.request) !in db.byReceipt
             && r.fingerprint == db.sessions[db.byToken[token]].principal
    ensures var challenged := ChallengeTx(Run(EMPTY, ops), token, request, nonce, now).0;
            && nonce in challenged.nonces && token in challenged.byToken
            && challenged.byToken[token] in challenged.sessions
            && Refreshed(challenged, r, RefreshTx(challenged, r).0, RefreshTx(challenged, r).1)
  {
    var db := Run(EMPTY, ops);
    LiveCredentialIsChallenged(db, token, request, nonce, now);
    var challenged := ChallengeTx(db, token, request, nonce, now).0;
    assert Run(challenged, []) == challenged;
    hide Run, ChallengeTx, RefreshTx, Refreshed;
    ChallengeThenRefresh(ops, token, request, nonce, now, [], r);
  }

  // ----------------------------------------------------------------- lost replies

  /** A credential that this request replaced is challenged again, revoked as it is. */
  lemma ReplacedIsChallenged(db: Db, token: Token, request: string, nonce: string, now: int, issued: Reply)
    requires Rotation(db, token, request, issued) && nonce !in db.nonces
    requires var s := db.sessions[db.byToken[token]];
             && now < s.absolute && s.principal in db.principals
             && (db.principals[s.principal] == Limited || db.principals[s.principal] == Active)
    ensures var (db', reply) := ChallengeTx(db, token, request, nonce, now);
            && reply == Challenged && db' == db.(nonces := db'.nonces)
            && db'.nonces == db.nonces[nonce := Nonce(db.sessions[db.byToken[token]].principal, now + 120_000, false)]
  {
    hide RevokeFamily;
  }

  /** Asking under any other request for a replaced credential is reuse: every session of its family is revoked. */
  lemma OtherRequestIsReuse(db: Db, token: Token, asked: string, issued: Reply, request: string, nonce: string,
                            now: int, id: int)
    requires Rotation(db, token, asked, issued) && request != asked && id in db.sessions
    ensures var (db', reply) := ChallengeTx(db, token, request, nonce, now);
            var s := db.sessions[id];
            && reply == ReuseDetected && db' == db.(sessions := db'.sessions) && id in db'.sessions
            && db'.sessions[id] == (if s.family == db.sessions[db.byToken[token]].family && s.revokedAt.None?
                                    then s.(revokedAt := Some(now)) else s)
  {
  }

  predicate MayAct(db: Db, token: Token, t: int) {
    && token in db.byToken && db.byToken[token] in db.sessions
    && var s := db.sessions[db.byToken[token]];
       && t < s.absolute && s.principal in db.principals
       && (db.principals[s.principal] == Limited || db.principals[s.principal] == Active)
  }

  /** What is left of a rotation whose reply was lost: its rows, and a challenge for its request. */
  lemma AfterTheLostReply(ops: seq<Op>, first: RefreshRequest, issued: Reply, more: seq<Op>, db: Db, nonce: string,
                          now: int, rest: seq<Op>)
    requires issued == RefreshTx(Run(EMPTY, ops), first).1 && issued.Issued?
    requires db == Run(RefreshTx(Run(EMPTY, ops), first).0, more)
    requires MayAct(db, first.token, now) && nonce !in db.nonces
    ensures ChallengeTx(db, first.token, first.request, nonce, now).1 == Challenged
    ensures ChallengedFor(Run(ChallengeTx(db, first.token, first.request, nonce, now).0, rest), first.token,
                          first.request, issued, nonce, now)
  {
    var start := Run(EMPTY, ops);
    RunKeepsFromStart(ops);
    RefreshKeeps(start, first);
    IssuedIsSuccessor(start, first);
    hide RefreshTx, ChallengeTx, Run, Inv, Evolves, Rotation, MayAct, ChallengedFor;
    var made := RefreshTx(start, first).0;
    RunEvolves(made, more);
    RunKeeps(made, more);
    RotationLasts(made, db, first.token, first.request, issued);
    ChallengedAgain(db, first.token, first.request, nonce, now, issued, rest);
  }

  /** A rotation and a challenge for its request, both still recorded. */
  ghost predicate ChallengedFor(db: Db, token: Token, request: string, issued: Reply, nonce: string, now: int) {
    && Inv(db) && Rotation(db, token, request, issued)
    && nonce in db.nonces && db.nonces[nonce].expiresAt == now + 120_000
    && db.nonces[nonce].fingerprint == db.sessions[db.byToken[token]].principal
  }

  lemma ChallengedAgain(db: Db, token: Token, request: string, nonce: string, now: int, issued: Reply, rest: seq<Op>)
    requires Inv(db) && Rotation(db, token, request, issued) && MayAct(db, token, now) && nonce !in db.nonces
    ensures var (challenged, reply) := ChallengeTx(db, token, request, nonce, now);
            reply == Challenged && ChallengedFor(Run(challenged, rest), token, request, issued, nonce, now)
  {
    ReplacedIsChallenged(db, token, request, nonce, now, issued);
    hide ChallengeTx, Run, Inv, Evolves;
    ChallengeKeeps(db, token, request, nonce, now);
    ChallengeEvolves(db, token, request, nonce, now);
    var challenged := ChallengeTx(db, token, request, nonce, now).0;
    RunEvolves(challenged, rest);
    RunKeeps(challenged, rest);
    RunLeavesNonces(challenged, rest, nonce);
    RotationLasts(db, challenged, token, request, issued);
    RotationLasts(challenged, Run(challenged, rest), token, request, issued);
    SamePrincipal(db, challenged, Run(challenged, rest), token);
  }

  /**
   * A lost reply is recovered: after anything else the replaced credential is
   * challenged for the same request, and repeating it with that nonce returns the
   * session, token and expiry of the first time exactly when two minutes have not
   * passed, the nonce is unused and that session has not been revoked.
   */
  lemma LostReplyIsRecovered(ops: seq<Op>, first: RefreshRequest, issued: Reply, more: seq<Op>, db: Db, nonce: string,
                             now: int, rest: seq<Op>, later: Db, again: RefreshRequest)
    requires issued == RefreshTx(Run(EMPTY, ops), first).1 && issued.Issued?
    requires db == Run(RefreshTx(Run(EMPTY, ops), first).0, more)
    requires MayAct(db, first.token, now) && nonce !in db.nonces
    requires later == Run(ChallengeTx(db, first.token, first.request, nonce, now).0, rest)
    requires MayAct(later, first.token, later.clock + again.elapsed)
    requires again.proofOk && again.token == first.token && again.request == first.request && again.nonce == nonce
    requires later.sessions[later.byToken[first.token]].principal == again.fingerprint
    ensures ChallengeTx(db, first.token, first.request, nonce, now).1 == Challenged
    ensures issued.session in later.sessions && nonce in later.nonces
    ensures RefreshTx(later, again).1 == issued
       <==> && later.sessions[issued.session].revokedAt.None?
            && later.clock + again.elapsed <= now + 120_000 && !later.nonces[nonce].used
  {
    hide RefreshTx, ChallengeTx, Run, Inv, MayAct, Rotation;
    AfterTheLostReply(ops, first, issued, more, db, nonce, now, rest);
    RetryOf(later, again, issued);
  }

  lemma RetryOf(db: Db, again: RefreshRequest, issued: Reply)
    requires Inv(db) && Rotation(db, again.token, again.request, issued)
    requires again.proofOk && MayAct(db, again.token, db.clock + again.elapsed) && again.nonce in db.nonces
    requires db.sessions[db.byToken[again.token]].principal == again.fingerprint == db.nonces[again.nonce].fingerprint
    ensures issued.session in db.sessions
    ensures RefreshTx(db, again).1 == issued
       <==> && db.sessions[issued.session].revokedAt.None?
            && db.clock + again.elapsed <= db.nonces[again.nonce].expiresAt && !db.nonces[again.nonce].used
  {
    hide RefreshTx, Inv;
    RetryAnswers(db, again, issued);
  }

  // ---------------------------------------------------- provisioning, revocation

  /** A new family: one session, the first of its chain, for thirty days at most. */
  ghost predicate Opened(db: Db, principal: string, family: Family, now: int, db': Db, reply: Reply) {
    && db.next in db'.sessions
    && var s := db'.sessions[db.next];
       && s.principal == principal && s.family == family && s.token == First(family) && s.counter == 0
       && s.expiresAt == now + 900_000 && s.absolute == now + 2_592_000_000
       && s.revokedAt.None? && s.replacedBy.None?
       && reply == Issued(db.next, First(family), now + 900_000)
       && db'.sessions == db.sessions[db.next := s]
       && db'.principals == (if principal in db.principals then db.principals else db.principals[principal := Limited])
  }

  /**
   * A provision under a new receipt opens its family exactly when its grant and nonce
   * are good and the principal is not locked out.
   */
  lemma ProvisionAnswers(db: Db, fingerprint: string, key: string, hash: string, proofOk: bool, elapsed: nat)
    requires (fingerprint, "provision:" + key) !in db.byReceipt
    requires First(Provisioned(fingerprint, key, hash)) !in db.byToken
    ensures var (db', reply) := ProvisionTx(db, fingerprint, key, hash, proofOk, elapsed);
            if proofOk && !(fingerprint in db.principals
                            && (db.principals[fingerprint] == Revoked || db.principals[fingerprint] == Suspended)) then
              Opened(db, fingerprint, Provisioned(fingerprint, key, hash), db.clock + elapsed, db', reply)
            else (db', reply) == (db.(clock := db.clock + elapsed), Unauthorized)
  {
  }

  /** The provision under this receipt issued this session. */
  predicate Provisions(db: Db, fingerprint: string, key: string, hash: string, issued: Reply) {
    && issued.Issued? && issued.token == First(Provisioned(fingerprint, key, hash))
    && issued.session in db.sessions
    && var s := db.sessions[issued.session];
       && s.principal == fingerprint && s.expiresAt == issued.expiresAt
       && s.receipt == Some(Receipt("provision:" + key, ProvisionHash(hash)))
  }

  lemma IssuedProvision(db: Db, fingerprint: string, key: string, hash: string, proofOk: bool, elapsed: nat)
    requires Inv(db) && ProvisionTx(db, fingerprint, key, hash, proofOk, elapsed).1.Issued?
    ensures var (db', issued) := ProvisionTx(db, fingerprint, key, hash, proofOk, elapsed);
            Provisions(db', fingerprint, key, hash, issued)
  {
    hide ChainsOk, Placed, TokenIndexOk;
    if (fingerprint, "provision:" + key) in db.byReceipt {
      assert HasReceipt(db.sessions, db.byReceipt[(fingerprint, "provision:" + key)], fingerprint, "provision:" + key);
    }
  }

  lemma ReceiptNames(db: Db, fingerprint: string, key: string, hash: string, issued: Reply)
    requires Inv(db) && Provisions(db, fingerprint, key, hash, issued)
    ensures (fingerprint, "provision:" + key) in db.byReceipt
    ensures db.byReceipt[(fingerprint, "provision:" + key)] == issued.session
  {
    hide ChainsOk, Placed, TokenIndexOk;
  }

  lemma AgainProvision(db: Db, fingerprint: string, key: string, hash: string, issued: Reply, given: string,
                       proofOk: bool, elapsed: nat)
    requires Provisions(db, fingerprint, key, hash, issued)
    requires (fingerprint, "provision:" + key) in db.byReceipt
    requires db.byReceipt[(fingerprint, "provision:" + key)] == issued.session
    ensures var s := db.sessions[issued.session];
            ProvisionTx(db, fingerprint, key, given, proofOk, elapsed)
            == (db.(clock := db.clock + elapsed),
                if given != hash then Conflict
                else if s.revokedAt.None? && db.clock + elapsed < s.absolute && fingerprint in db.principals
                        && (db.principals[fingerprint] == Limited || db.principals[fingerprint] == Active) then issued
                else Unauthorized)
  {
    hide OpenFamily;
  }

  /**
   * A provision sent again after anything else, whatever its grant and nonce are by
   * then, gets the session of the first time while that is unrevoked and unexpired
   * and the principal may act; the same key with other content is a conflict.
   */
  lemma RepeatedProvisionAnswers(ops: seq<Op>, fingerprint: string, key: string, hash: string, proofOk: bool,
                                 elapsed: nat, more: seq<Op>, given: string, againOk: bool, wait: nat)
    requires ProvisionTx(Run(EMPTY, ops), fingerprint, key, hash, proofOk, elapsed).1.Issued?
    ensures var (made, issued) := ProvisionTx(Run(EMPTY, ops), fingerprint, key, hash, proofOk, elapsed);
            var later := Run(made, more);
            && issued.session in later.sessions
            && var s := later.sessions[issued.session];
               ProvisionTx(later, fingerprint, key, given, againOk, wait)
               == (later.(clock := later.clock + wait),
                   if given != hash then Conflict
                   else if s.revokedAt.None? && later.clock + wait < s.absolute && fingerprint in later.principals
                           && (later.principals[fingerprint] == Limited || later.principals[fingerprint] == Active)
                   then issued else Unauthorized)
  {
    hide ProvisionTx, Run, Inv, Evolves;
    var start := Run(EMPTY, ops);
    RunKeepsFromStart(ops);
    ProvisionKeeps(start, fingerprint, key, hash, proofOk, elapsed);
    IssuedProvision(start, fingerprint, key, hash, proofOk, elapsed);
    var (made, issued) := ProvisionTx(start, fingerprint, key, hash, proofOk, elapsed);
    RunKeeps(made, more);
    RunEvolves(made, more);
    ProvisionLasts(made, Run(made, more), fingerprint, key, hash, issued);
    ReceiptNames(Run(made, more), fingerprint, key, hash, issued);
    AgainProvision(Run(made, more), fingerprint, key, hash, issued, given, againOk, wait);
  }

  lemma ProvisionLasts(db: Db, db': Db, fingerprint: string, key: string, hash: string, issued: Reply)
    requires Provisions(db, fingerprint, key, hash, issued) && Evolves(db, db')
    ensures Provisions(db', fingerprint, key, hash, issued)
  {
    assert Later(db.sessions, db'.sessions, issued.session);
    hide DeadFamily;
  }

  /** Adding a device does the same under a random family. */
  lemma DeviceAnswers(db: Db, fingerprint: string, random: string, proofOk: bool, now: int)
    requires First(Device(random)) !in db.byToken
    ensures var (db', reply) := AddDeviceTx(db, fingerprint, random, proofOk, now);
            if !proofOk then (db', reply) == (db, Unauthorized)
            else if fingerprint in db.principals
                    && (db.principals[fingerprint] == Revoked || db.principals[fingerprint] == Suspended) then
              (db', reply) == (db, Conflict)
            else Opened(db, fingerprint, Device(random), now, db', reply)
  {
  }

  /**
   * Revoking a principal revokes every session of its key, keeps earlier revocation
   * times, and touches no other row.
   */
  lemma RevocationAnswers(db: Db, principal: string, now: int, id: int)
    requires principal in db.principals && db.principals[principal] != Revoked && id in db.sessions
    ensures var db' := RevokePrincipalTx(db, principal, now);
            && db'.principals == db.principals[principal := Revoked] && db'.sessions.Keys == db.sessions.Keys
            && var s := db.sessions[id];
               db'.sessions[id]
               == if s.principal == principal && s.revokedAt.None? then s.(revokedAt := Some(now)) else s
  {
  }
}
