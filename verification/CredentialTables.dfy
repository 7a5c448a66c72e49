/** The credential handlers in their own form: transactions that change rows of the session and nonce tables. */
module CredentialTables {
  import opened Common
  import opened RefreshRotation

  class Credentials {
    var sessions: map<int, Session>
    var byToken: map<Token, int>
    var byReceipt: map<(string, string), int>
    var next: int
    var principals: map<string, Status>
    var nonces: map<string, Nonce>
    var clock: int
    ghost var chains: map<Family, seq<int>>

    constructor ()
      ensures Snapshot() == EMPTY
    {
      sessions, byToken, byReceipt, next := map[], map[], map[], 1;
      principals, nonces, clock, chains := map[], map[], 0, map[];
    }

    ghost function Snapshot(): Db
      reads this
    {
      Db(sessions, byToken, byReceipt, next, principals, nonces, clock, chains)
    }

    /** The database clock never runs backwards. */
    method ReadClock(elapsed: nat) returns (now: int)
      modifies this`clock
      ensures now == clock == old(clock) + elapsed
    {
      clock := clock + elapsed;
      now := clock;
    }

    /** INSERT into the session table; the unique indexes may refuse the row. */
    method InsertSession(s: Session) returns (id: Option<int>)
      modifies this`sessions, this`byToken, this`byReceipt, this`next, this`chains
      ensures id.None? <==> Duplicate(old(Snapshot()), s)
      ensures id.None? ==> Snapshot() == old(Snapshot())
      ensures id.Some? ==> id.value == old(next) && Snapshot() == Insert(old(Snapshot()), s)
    {
      if s.token in byToken || (s.receipt.Some? && (s.principal, s.receipt.value.id) in byReceipt) {
        return None;
      }
      id := Some(next);
      sessions := sessions[next := s];
      byToken := byToken[s.token := next];
      if s.receipt.Some? {
        byReceipt := byReceipt[(s.principal, s.receipt.value.id) := next];
      }
      chains := chains[s.family := (if s.family in chains then chains[s.family] else []) + [next]];
      next := next + 1;
    }

    /** UPDATE of every session of a family, keeping earlier revocation times. */
    method RevokeFamily(family: Family, now: int)
      modifies this`sessions
      ensures Snapshot() == RefreshRotation.RevokeFamily(old(Snapshot()), family, now)
    {
      var members := set id | id in sessions && sessions[id].family == family;
      sessions := RevokeAll(sessions, members, now);
    }

    /** Marks a good nonce as used; tells whether exactly one row changed. */
    method UseNonce(nonce: string, fingerprint: string, now: int) returns (used: bool)
      modifies this`nonces
      ensures used == NonceUsable(old(Snapshot()), nonce, fingerprint, now)
      ensures Snapshot() == if used then Consume(old(Snapshot()), nonce) else old(Snapshot())
    {
      used := nonce in nonces && nonces[nonce].fingerprint == fingerprint && !nonces[nonce].used
          && nonces[nonce].expiresAt >= now;
      if used {
        nonces := nonces[nonce := nonces[nonce].(used := true)];
      }
    }

    method StatusUsable(principal: string) returns (usable: bool)
      ensures usable == Usable(Snapshot(), principal)
    {
      usable := principal in principals && (principals[principal] == Limited || principals[principal] == Active);
    }

    /** The branch for a credential that was already replaced: replay the successor or revoke the family. */
    method AnswerReplaced(s: Session, r: RefreshRequest, now: int) returns (reply: Reply)
      requires s.replacedBy.Some?
      modifies this`sessions, this`nonces
      ensures (Snapshot(), reply)
           == if !Replays(old(Snapshot()), s, r, now) then
               (RefreshRotation.RevokeFamily(old(Snapshot()), s.family, now), ReuseDetected)
              else if !NonceUsable(old(Snapshot()), r.nonce, s.principal, now) then (old(Snapshot()), Unauthorized)
              else (Consume(old(Snapshot()), r.nonce),
                    Issued(s.replacedBy.value, Rotated(r.token, r.fingerprint, r.request),
                           old(sessions)[s.replacedBy.value].expiresAt))
    {
      var id := s.replacedBy.value;
      if id in sessions && sessions[id].revokedAt.None? && sessions[id].absolute > now
         && sessions[id].receipt == Some(Receipt(r.request, RotationHash(r.token, r.fingerprint, r.request))) {
        var used := UseNonce(r.nonce, s.principal, now);
        if !used { return Unauthorized; }
        return Issued(id, Rotated(r.token, r.fingerprint, r.request), sessions[id].expiresAt);
      }
      RevokeFamily(s.family, now);
      reply := ReuseDetected;
    }

    /** Replaces the newest session of a family; a refused row rolls the nonce back too. */
    method Rotate(id: int, r: RefreshRequest, now: int) returns (reply: Reply)
      requires id in sessions
      modifies this
      ensures var s, was := old(sessions)[id], old(Snapshot());
              (Snapshot(), reply)
              == if !NonceUsable(was, r.nonce, s.principal, now) then (was, Unauthorized)
                 else if Duplicate(was, Successor(s, r, now)) then (was, Failed)
                 else (RecordRotation(Consume(was, r.nonce), id, Successor(s, r, now), now),
                       Issued(was.next, Successor(s, r, now).token, Successor(s, r, now).expiresAt))
    {
      var s, savedNonces := sessions[id], nonces;
      var used := UseNonce(r.nonce, s.principal, now);
      if !used { return Unauthorized; }
      var expiresAt := now + ACCESS_TTL;
      if expiresAt > s.absolute {
        expiresAt := s.absolute;
      }
      var token := Rotated(r.token, r.fingerprint, r.request);
      var row := Session(s.principal, s.family, token, s.counter + 1, now, expiresAt, s.absolute, None, None,
                         Some(Receipt(r.request, RotationHash(r.token, r.fingerprint, r.request))));
      var newId := InsertSession(row);
      if newId.None? {
        nonces := savedNonces;
        return Failed;
      }
      sessions := sessions[id := s.(revokedAt := Some(now), replacedBy := newId)];
      reply := Issued(newId.value, token, expiresAt);
    }

    method Refresh(r: RefreshRequest) returns (reply: Reply)
      modifies this
      ensures (Snapshot(), reply) == RefreshTx(old(Snapshot()), r)
    {
      var now := ReadClock(r.elapsed);
      if !r.proofOk || r.token !in byToken || byToken[r.token] !in sessions { return Unauthorized; }
      var id := byToken[r.token];
      var s := sessions[id];
      var usable := StatusUsable(s.principal);
      if s.principal != r.fingerprint || !usable || s.absolute <= now { return Unauthorized; }
      if s.replacedBy.Some? {
        reply := AnswerReplaced(s, r, now);
      } else if s.revokedAt.Some? {
        RevokeFamily(s.family, now);
        reply := ReuseDetected;
      } else {
        reply := Rotate(id, r, now);
      }
    }

    method CreateChallenge(token: Token, request: string, nonce: string, now: int) returns (reply: Reply)
      modifies this
      ensures (Snapshot(), reply) == ChallengeTx(old(Snapshot()), token, request, nonce, now)
    {
      if token !in byToken || byToken[token] !in sessions { return Unauthorized; }
      var s := sessions[byToken[token]];
      if s.replacedBy.Some? {
        var successor := if s.replacedBy.value in sessions then sessions[s.replacedBy.value].receipt else None;
        if successor.None? || successor.value.id != request {
          RevokeFamily(s.family, now);
          return ReuseDetected;
        }
      }
      if s.revokedAt.Some? && s.replacedBy.None? { return Unauthorized; }
      var usable := StatusUsable(s.principal);
      if s.absolute <= now || !usable { return Unauthorized; }
      if nonce in nonces { return Failed; }
      nonces := nonces[nonce := Nonce(s.principal, now + CHALLENGE_TTL, false)];
      reply := Challenged;
    }

    /** The first session of a new family; creates the principal when the key is new. */
    method Open(principal: string, family: Family, receipt: Option<Receipt>, now: int) returns (reply: Reply)
      modifies this
      ensures (Snapshot(), reply) == OpenFamily(old(Snapshot()), principal, family, receipt, now)
    {
      var row := Session(principal, family, First(family), 0, now, now + ACCESS_TTL, now + REFRESH_TTL, None, None,
                         receipt);
      var id := InsertSession(row);
      if id.None? { return Failed; }
      if principal !in principals {
        principals := principals[principal := Limited];
      }
      reply := Issued(id.value, row.token, row.expiresAt);
    }

    method Provision(fingerprint: string, key: string, hash: string, proofOk: bool, elapsed: nat) returns (reply: Reply)
      modifies this
      ensures (Snapshot(), reply) == ProvisionTx(old(Snapshot()), fingerprint, key, hash, proofOk, elapsed)
    {
      var now := ReadClock(elapsed);
      var receipt := ProvisionReceipt(key, hash);
      if (fingerprint, receipt.id) in byReceipt && byReceipt[(fingerprint, receipt.id)] in sessions {
        var id := byReceipt[(fingerprint, receipt.id)];
        var s := sessions[id];
        if s.receipt.None? || s.receipt.value.hash != receipt.hash { return Conflict; }
        var usable := StatusUsable(fingerprint);
        if s.revokedAt.Some? || s.absolute <= now || !usable { return Unauthorized; }
        return Issued(id, First(Provisioned(fingerprint, key, hash)), s.expiresAt);
      }
      if !proofOk { return Unauthorized; }
      if fingerprint in principals && (principals[fingerprint] == Revoked || principals[fingerprint] == Suspended) {
        return Unauthorized;
      }
      reply := Open(fingerprint, Provisioned(fingerprint, key, hash), Some(receipt), now);
    }

    method RevokePrincipal(principal: string, now: int)
      modifies this
      ensures Snapshot() == RevokePrincipalTx(old(Snapshot()), principal, now)
    {
      if principal !in principals || principals[principal] == Revoked { return; }
      principals := principals[principal := Revoked];
      var members := set id | id in sessions && sessions[id].principal == principal;
      sessions := RevokeAll(sessions, members, now);
    }
  }
}
