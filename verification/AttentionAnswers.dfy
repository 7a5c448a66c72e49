/**
 * What the attention handlers answer in every reachable state, said with the
 * lease and finish histories and the item's own fields: which claims, responses,
 * completions, creations and dismissals succeed, what they leave behind, and how
 * the others are refused.
 */
module AttentionAnswers {
  import opened Common
  import opened AttentionCommands
  import opened AttentionLifecycle

  function LeasesOf(t: Tables, id: int): seq<Lease> {
    if id in t.leases then t.leases[id] else []
  }

  function FinishesOf(t: Tables, id: int): seq<Finish> {
    if id in t.finishes then t.finishes[id] else []
  }

  /** The last lease granted has not ended. */
  predicate Held(leases: seq<Lease>, now: int) {
    leases != [] && now < leases[|leases| - 1].until
  }

  predicate Own(t: Tables, agent: int, id: int) {
    id in t.commands && t.commands[id].agent == agent
  }

  /** What a row says, in terms of its histories. */
  ghost predicate RowTold(c: Command, id: int, leases: seq<Lease>, finishes: seq<Finish>) {
    && c.epoch == c.attempts == |leases|
    && |finishes| <= 1 && (IsFinished(c) <==> finishes != [])
    && (finishes != [] ==>
          c.status == finishes[0].status && c.result == Some(finishes[0].result)
          && c.completedAt == Some(finishes[0].completedAt) && leases != [])
    && (finishes == [] ==> c.status == if leases == [] then Queued else Claimed)
    && (leases != [] ==>
          && c.owner == Some(leases[|leases| - 1].owner)
          && c.token == Some(ClaimToken(c.agent, id, leases[|leases| - 1].owner, |leases|))
          && c.claimUntil == Some(leases[|leases| - 1].until))
    && c.requiredRevision.Some? && c.requiredRevision.value > 0
    && (c.kind == ATTENTION_RESPONSE ==> c.payload.protocol == PROTOCOL)
    && (c.attention.Some? ==> c.kind == ATTENTION_RESPONSE && c.payload.terminal)
  }

  lemma ReachedRow(t: Tables, ops: seq<Op>, id: int)
    requires Reached(t, ops) && id in t.commands
    ensures id in t.leases && id in t.finishes
    ensures RowTold(t.commands[id], id, t.leases[id], t.finishes[id])
  {
    ReachedInv(t, ops);
    assert CommandInv(t, id);
  }

  // --------------------------------------------------------------------- claims

  predicate ClaimWellFormed(r: ClaimRequest) {
    r.runtime != "" && |r.runtime| <= 128 && r.appliedRevision >= 0
  }

  /** The runtime's own lease is live and was granted for the revision it claims to have applied. */
  predicate RuntimeLive(r: ClaimRequest, now: int) {
    && r.runtimeLease.Some? && now < r.runtimeLease.value.until
    && r.runtimeLease.value.appliedRevision == Some(r.appliedRevision)
  }

  predicate RevisionReached(t: Tables, r: ClaimRequest) {
    Own(t, r.agent, r.command) && t.commands[r.command].requiredRevision.Some?
    ==> t.commands[r.command].requiredRevision.value <= r.appliedRevision
  }

  /** Everything a claim needs besides the row being free. */
  predicate MayClaim(t: Tables, r: ClaimRequest) {
    && ClaimWellFormed(r) && RuntimeLive(r, t.clock + r.elapsed) && RevisionReached(t, r)
    && Own(t, r.agent, r.command) && FinishesOf(t, r.command) == []
  }

  /** The next epoch: one more lease of the fixed length from now on, shown by the row; nothing else moves. */
  ghost predicate Grants(t: Tables, r: ClaimRequest, after: Tables, reply: ClaimReply)
    requires r.command in t.commands
  {
    var now, n := t.clock + r.elapsed, |LeasesOf(t, r.command)| + 1;
    && reply == ClaimGranted(ClaimToken(r.agent, r.command, r.runtime, n), n, now + 120_000, n)
    && after.clock == now
    && after.leases == t.leases[r.command := LeasesOf(t, r.command) + [Lease(r.runtime, now, now + 120_000)]]
    && r.command in after.commands && after.commands == t.commands[r.command := after.commands[r.command]]
    && after.commands[r.command]
       == t.commands[r.command].(status := Claimed, owner := Some(r.runtime), epoch := n, attempts := n,
                                 token := Some(ClaimToken(r.agent, r.command, r.runtime, n)),
                                 claimUntil := Some(now + 120_000))
    && after.items == t.items && after.byKey == t.byKey && after.finishes == t.finishes
  }

  lemma ClaimOfFreeRow(t: Tables, r: ClaimRequest)
    requires MayClaim(t, r) && r.command in t.leases && r.command in t.finishes
    requires RowTold(t.commands[r.command], r.command, t.leases[r.command], t.finishes[r.command])
    requires !Held(LeasesOf(t, r.command), t.clock + r.elapsed)
    ensures Grants(t, r, ClaimTx(t, r).0, ClaimTx(t, r).1)
  {
  }

  /** A command that is unfinished and never claimed, or whose last lease has ended, is granted under the next epoch. */
  lemma FreeCommandIsGranted(t: Tables, ops: seq<Op>, r: ClaimRequest)
    requires Reached(t, ops) && MayClaim(t, r) && !Held(LeasesOf(t, r.command), t.clock + r.elapsed)
    ensures Grants(t, r, ClaimTx(t, r).0, ClaimTx(t, r).1)
  {
    hide Reached, RowTold, ClaimTx, Grants;
    ReachedRow(t, ops, r.command);
    ClaimOfFreeRow(t, r);
  }

  lemma ClaimOfHeld(t: Tables, r: ClaimRequest)
    requires MayClaim(t, r) && r.command in t.leases && r.command in t.finishes
    requires RowTold(t.commands[r.command], r.command, t.leases[r.command], t.finishes[r.command])
    requires Held(LeasesOf(t, r.command), t.clock + r.elapsed)
    ensures var leases := LeasesOf(t, r.command);
            var last := leases[|leases| - 1];
            ClaimTx(t, r) == (t.(clock := t.clock + r.elapsed),
                              if last.owner == r.runtime then
                                ClaimGranted(ClaimToken(r.agent, r.command, r.runtime, |leases|), |leases|, last.until,
                                             |leases|)
                              else ClaimConflict)
  {
  }

  /** Inside a lease its owner is told that same lease again, and anyone else is refused. */
  lemma HeldCommandAnswers(t: Tables, ops: seq<Op>, r: ClaimRequest)
    requires Reached(t, ops) && MayClaim(t, r) && Held(LeasesOf(t, r.command), t.clock + r.elapsed)
    ensures var leases := LeasesOf(t, r.command);
            var last := leases[|leases| - 1];
            ClaimTx(t, r) == (t.(clock := t.clock + r.elapsed),
                              if last.owner == r.runtime then
                                ClaimGranted(ClaimToken(r.agent, r.command, r.runtime, |leases|), |leases|, last.until,
                                             |leases|)
                              else ClaimConflict)
  {
    hide Reached, RowTold, ClaimTx;
    ReachedRow(t, ops, r.command);
    ClaimOfHeld(t, r);
  }

  lemma RefusalOf(t: Tables, r: ClaimRequest)
    requires !MayClaim(t, r)
    requires r.command in t.commands ==>
               && r.command in t.leases && r.command in t.finishes
               && RowTold(t.commands[r.command], r.command, t.leases[r.command], t.finishes[r.command])
    ensures ClaimTx(t, r)
         == if !ClaimWellFormed(r) then (t, ClaimInvalid)
            else (t.(clock := t.clock + r.elapsed),
                  if !RuntimeLive(r, t.clock + r.elapsed) || !RevisionReached(t, r) then ContextRequired
                  else ClaimConflict)
  {
  }

  /** Every other claim is refused and writes nothing, and the answer says what is missing. */
  lemma OtherClaimsAreRefused(t: Tables, ops: seq<Op>, r: ClaimRequest)
    requires Reached(t, ops) && !MayClaim(t, r)
    ensures ClaimTx(t, r)
         == if !ClaimWellFormed(r) then (t, ClaimInvalid)
            else (t.(clock := t.clock + r.elapsed),
                  if !RuntimeLive(r, t.clock + r.elapsed) || !RevisionReached(t, r) then ContextRequired
                  else ClaimConflict)
  {
    hide Reached, RowTold, ClaimTx;
    if r.command in t.commands { ReachedRow(t, ops, r.command); }
    RefusalOf(t, r);
  }

  // ------------------------------------------------------------------ responses

  /** The first action under the key stands at this place. */
  predicate OfferedAt(actions: seq<Action>, key: string, i: int) {
    0 <= i < |actions| && actions[i].key == key && forall j | 0 <= j < i :: actions[j].key != key
  }

  lemma {:induction false} FoundIsOffered(actions: seq<Action>, key: string)
    ensures FindAction(actions, key).None? <==> forall i | 0 <= i < |actions| :: actions[i].key != key
    ensures forall i | OfferedAt(actions, key, i) :: FindAction(actions, key) == Some(actions[i])
    ensures FindAction(actions, key).Some? ==> exists i :: OfferedAt(actions, key, i)
  {
    if actions != [] {
      var rest := actions[1..];
      FoundIsOffered(rest, key);
      if actions[0].key == key {
        assert OfferedAt(actions, key, 0);
      } else {
        forall i | OfferedAt(actions, key, i) ensures FindAction(actions, key) == Some(actions[i]) {
          assert OfferedAt(rest, key, i - 1);
        }
        if i :| OfferedAt(rest, key, i) { assert OfferedAt(actions, key, i + 1); }
        assert forall i | 0 <= i < |rest| :: rest[i] == actions[i + 1];
      }
    }
  }

  predicate WellFormedResponse(r: RespondRequest) {
    r.wellFormed && r.attention > 0 && r.expectedRevision > 0
  }

  /** The item is the Agent's, open, at the expected revision and unexpired on both clocks. */
  predicate ItemReady(t: Tables, r: RespondRequest, now: int) {
    && r.attention in t.items
    && var item := t.items[r.attention];
       && item.agent == r.agent && item.status == Open && item.revision == r.expectedRevision
       && now < item.expiresAt && r.facts.appNow < item.expiresAt
  }

  /** An `add` intent update finds no room. */
  predicate IntentsFull(item: Item, action: Action, facts: RespondFacts) {
    action.flag == "apply_intent_update" && item.contextRef.operation == "add" && facts.activeIntents >= 10
  }

  /** The item was published for the current context and, when it calibrates the goal, for the current goal. */
  predicate ContextCurrent(item: Item, facts: RespondFacts) {
    && (item.contextRef.contextRevision.Some? ==> facts.contextRevision == item.contextRef.contextRevision.value)
    && (item.category == "goal_calibration" && item.contextRef.goalRevision.Some? ==>
          facts.goalVersion != 0 && facts.goalVersion == item.contextRef.goalRevision.value)
  }

  /** How a response under a new key is refused, or None when it is accepted. */
  function Refusal(t: Tables, r: RespondRequest, action: Option<Action>): Option<RespondError> {
    if !WellFormedResponse(r) then Some(InvalidResponse)
    else if !ItemReady(t, r, t.clock + r.facts.readElapsed) || action.None? then Some(ResponseConflict)
    else
      var item := t.items[r.attention];
      if action.value.flag == "open_source" then Some(SourceDirectOnly)
      else if IntentsFull(item, action.value, r.facts) then Some(IntentCapacity)
      else if r.facts.contextRevision <= 0 then Some(ResponseConflict)
      else if !ContextCurrent(item, r.facts) then Some(ContextStale)
      else if item.expiresAt <= t.clock + r.facts.readElapsed + r.facts.writeElapsed then Some(ResponseConflict)
      else None
  }

  /** One command under the key, tied to the item, and the item pending at the next revision. */
  ghost predicate Answered(t: Tables, r: RespondRequest, action: Action, after: Tables, reply: RespondReply)
    requires r.attention in t.items
  {
    var item, id := t.items[r.attention], t.nextCommand;
    && reply == Responded(id, item.revision + 1, Pending, Queued, action.flag, false)
    && after.items == t.items[r.attention := item.(status := Pending, selectedKey := Some(r.actionKey),
                                                   response := ResponsePending, revision := item.revision + 1)]
    && after.byKey == t.byKey[(r.agent, r.key) := id]
    && LeasesOf(after, id) == [] && FinishesOf(after, id) == []
    && id in after.commands && after.commands == t.commands[id := after.commands[id]]
    && var c := after.commands[id];
       && c.agent == r.agent && c.attention == Some(r.attention) && c.kind == ATTENTION_RESPONSE && c.payload.terminal
       && c.requiredRevision == Some(r.facts.contextRevision) && c.status == Queued && c.key == r.key
       && c.epoch == 0 && c.owner.None? && c.result.None?
  }

  /**
   * A response under a new key is accepted exactly when it is well formed, the
   * item is ready, offers the action, the action is no source link, and the
   * context is current with room for an added intent; what it leaves behind, and
   * the error of every other response.
   */
  lemma ResponseAnswers(t: Tables, r: RespondRequest)
    requires (r.agent, r.key) !in t.byKey
    ensures var action :=
              if r.attention in t.items then FindAction(t.items[r.attention].actions, r.actionKey) else None;
            var (after, reply) := RespondTx(t, r);
            if Refusal(t, r, action).Some? then
              reply == RespondRefused(Refusal(t, r, action).value) && after == t.(clock := after.clock)
            else Answered(t, r, action.value, after, reply)
  {
  }

  /** The same, with the action told by its place in the item's list. */
  lemma OfferedResponseAnswers(t: Tables, r: RespondRequest, i: int)
    requires (r.agent, r.key) !in t.byKey && r.attention in t.items
    requires OfferedAt(t.items[r.attention].actions, r.actionKey, i)
    ensures var action := t.items[r.attention].actions[i];
            var (after, reply) := RespondTx(t, r);
            if Refusal(t, r, Some(action)).Some? then
              reply == RespondRefused(Refusal(t, r, Some(action)).value) && after == t.(clock := after.clock)
            else Answered(t, r, action, after, reply)
  {
    hide RespondTx, Answered, Refusal, FindAction;
    FoundIsOffered(t.items[r.attention].actions, r.actionKey);
    ResponseAnswers(t, r);
  }

  lemma UnofferedResponseIsRefused(t: Tables, r: RespondRequest)
    requires (r.agent, r.key) !in t.byKey && WellFormedResponse(r)
    requires r.attention !in t.items || forall i :: !OfferedAt(t.items[r.attention].actions, r.actionKey, i)
    ensures RespondTx(t, r).1 == RespondRefused(ResponseConflict)
    ensures RespondTx(t, r).0 == t.(clock := RespondTx(t, r).0.clock)
  {
    hide RespondTx, Answered, FindAction;
    if r.attention in t.items { FoundIsOffered(t.items[r.attention].actions, r.actionKey); }
    ResponseAnswers(t, r);
  }

  /**
   * A response under a used key is answered from the rows as they are now when it
   * repeats that command's request, and refused when it asks for something else.
   */
  lemma RepeatedResponseAnswers(t: Tables, ops: seq<Op>, r: RespondRequest)
    requires Reached(t, ops) && (r.agent, r.key) in t.byKey && WellFormedResponse(r)
    ensures var id := t.byKey[(r.agent, r.key)];
            var (after, reply) := RespondTx(t, r);
            && after == t && id in t.commands
            && var c := t.commands[id];
               if c.requestHash != ResponseHash(r.attention, r.expectedRevision, r.actionKey) then
                 reply == RespondRefused(ResponseConflict)
               else
                 && r.attention in t.items && t.items[r.attention].agent == r.agent && c.attention == Some(r.attention)
                 && reply.Responded? && reply.replay && reply.command == id && reply.commandStatus == c.status
                 && reply.itemRevision == t.items[r.attention].revision
                 && reply.itemStatus == t.items[r.attention].status
  {
    ReachedInv(t, ops);
    assert KeyInv(t, r.agent, r.key);
    var id := t.byKey[(r.agent, r.key)];
    assert CommandInv(t, id);
    if t.commands[id].requestHash == HashOf(r) {
      ItemActionsValid(t, r.attention);
      FoundActionIsMember(t.items[r.attention].actions, r.actionKey);
    }
    hide Reached, ItemInv, Inv;
  }

  // ---------------------------------------------------------------- completions

  predicate CompletionWellFormed(r: CompleteRequest) {
    r.runtime != "" && r.epoch > 0 && r.token != ForeignToken("")
  }

  /** The proof names the last lease: its owner, its epoch and its token. */
  predicate ProvesLast(leases: seq<Lease>, r: CompleteRequest) {
    && leases != [] && r.epoch == |leases| && r.runtime == leases[|leases| - 1].owner
    && r.token == ClaimToken(r.agent, r.command, r.runtime, |leases|)
  }

  /** The status and result a completion asks to store; the entities of a response are rewritten. */
  predicate Asks(c: Command, r: CompleteRequest, status: CommandStatus, result: ResultDoc) {
    && status == (if r.success then Completed else Failed)
    && result.summary == r.result.summary
    && (c.kind != ATTENTION_RESPONSE ==> result == r.result)
    && (c.kind == ATTENTION_RESPONSE ==>
          && |result.entities| == |r.result.entities|
          && forall i | 0 <= i < |result.entities| :: result.entities[i] == CanonicalEntity(r.result.entities[i]))
  }

  lemma StoredIsAsked(c: Command, r: CompleteRequest, status: CommandStatus, result: ResultDoc)
    ensures Asks(c, r, status, result) <==> status == Outcome(r) && result == StoredResult(Some(c), r)
  {
    if Asks(c, r, status, result) && c.kind == ATTENTION_RESPONSE {
      assert result.entities == Canonical(r.result).entities;
    }
  }

  /** The row finishes with what was asked, once, at this moment; other rows stay. */
  ghost predicate Finishes(t: Tables, r: CompleteRequest, after: Tables, reply: CompleteReply)
    requires r.command in t.commands
  {
    && reply == Finished(r.appNow) && after.leases == t.leases && after.byKey == t.byKey
    && r.command in after.commands && after.commands == t.commands[r.command := after.commands[r.command]]
    && var c, done := t.commands[r.command], after.commands[r.command];
       && done.result.Some? && Asks(c, r, done.status, done.result.value)
       && done == c.(status := done.status, result := done.result, completedAt := Some(r.appNow))
       && FinishesOf(after, r.command)
          == [Finish(r.epoch, t.clock + r.elapsed, done.status, done.result.value, r.appNow)]
  }

  /** What an equal completion finds. */
  predicate AlreadyFinishedSo(t: Tables, r: CompleteRequest)
    requires r.command in t.commands
  {
    FinishesOf(t, r.command) != []
    && Asks(t.commands[r.command], r, FinishesOf(t, r.command)[0].status, FinishesOf(t, r.command)[0].result)
  }

  lemma CompletionOf(t: Tables, r: CompleteRequest)
    requires CompletionWellFormed(r) && Own(t, r.agent, r.command) && r.command in t.leases && r.command in t.finishes
    requires RowTold(t.commands[r.command], r.command, t.leases[r.command], t.finishes[r.command])
    requires t.commands[r.command].kind == ATTENTION_RESPONSE ==> r.resultAcceptable
    ensures var (after, reply) := CompleteTx(t, r);
            var leases, now := LeasesOf(t, r.command), t.clock + r.elapsed;
            if ProvesLast(leases, r) && FinishesOf(t, r.command) == [] && Held(leases, now) then
              Finishes(t, r, after, reply)
            else
              && after == t.(clock := now)
              && reply == if ProvesLast(leases, r) && AlreadyFinishedSo(t, r)
                          then Finished(FinishesOf(t, r.command)[0].completedAt) else ClaimFenced
  {
    var c := t.commands[r.command];
    StoredIsAsked(c, r, Outcome(r), StoredResult(Some(c), r));
    if FinishesOf(t, r.command) != [] {
      StoredIsAsked(c, r, FinishesOf(t, r.command)[0].status, FinishesOf(t, r.command)[0].result);
    }
    hide Asks, StoredResult, Canonical, SettledItem;
  }

  /**
   * A well-formed completion of an own command finishes it exactly when it proves
   * the last lease before that ends and the command is unfinished; an equal one
   * after that is told the stored time, and every other one is fenced.
   */
  lemma CompletionAnswers(t: Tables, ops: seq<Op>, r: CompleteRequest)
    requires Reached(t, ops) && CompletionWellFormed(r) && Own(t, r.agent, r.command)
    requires t.commands[r.command].kind == ATTENTION_RESPONSE ==> r.resultAcceptable
    ensures var (after, reply) := CompleteTx(t, r);
            var leases, now := LeasesOf(t, r.command), t.clock + r.elapsed;
            if ProvesLast(leases, r) && FinishesOf(t, r.command) == [] && Held(leases, now) then
              Finishes(t, r, after, reply)
            else
              && after == t.(clock := now)
              && reply == if ProvesLast(leases, r) && AlreadyFinishedSo(t, r)
                          then Finished(FinishesOf(t, r.command)[0].completedAt) else ClaimFenced
  {
    hide Reached, RowTold, CompleteTx, Finishes, AlreadyFinishedSo;
    ReachedRow(t, ops, r.command);
    CompletionOf(t, r);
  }

  /** The remaining completions change no row: malformed ones, results that are not acceptable, commands of others. */
  lemma OtherCompletionsAreRefused(t: Tables, ops: seq<Op>, r: CompleteRequest)
    requires Reached(t, ops)
    requires !CompletionWellFormed(r) || !Own(t, r.agent, r.command)
             || (t.commands[r.command].kind == ATTENTION_RESPONSE && !r.resultAcceptable)
    ensures CompleteTx(t, r)
         == if !CompletionWellFormed(r) then (t, CompleteInvalid)
            else if Own(t, r.agent, r.command) then (t, InvalidResult)
            else (t.(clock := t.clock + r.elapsed), ClaimFenced)
  {
    if r.command in t.commands { ReachedRow(t, ops, r.command); }
    hide Reached, RecordFinish, StoredResult;
  }

  // -------------------------------------------------- creations and dismissals

  predicate CreationWellFormed(r: CreateRequest) {
    && (r.kind == "human_instruction" || r.kind == "private_message" || r.kind == "broadcast_reply"
        || r.kind == "trade_update")
    && !r.attentionFields && 1 <= |r.key| <= 128 && r.bodyValid
  }

  /**
   * Under a new key a creation succeeds exactly when it is well formed and a
   * context is active; its command waits to be claimed.
   */
  lemma CreationAnswers(t: Tables, r: CreateRequest)
    requires (r.agent, r.key) !in t.byKey
    ensures var (after, reply) := CreateCommandTx(t, r);
            if !CreationWellFormed(r) || r.contextRevision <= 0 then (after, reply) == (t, CreateRefused)
            else
              var id := t.nextCommand;
              && reply == Created(id, true, r.contextRevision)
              && id in after.commands && after.commands == t.commands[id := after.commands[id]]
              && after.byKey == t.byKey[(r.agent, r.key) := id] && after.items == t.items && after.clock == t.clock
              && LeasesOf(after, id) == [] && FinishesOf(after, id) == []
              && var c := after.commands[id];
                 && c.agent == r.agent && c.kind == r.kind && c.key == r.key && c.attention.None? && c.status == Queued
                 && c.requiredRevision == Some(r.contextRevision) && c.epoch == 0 && c.owner.None? && c.result.None?
  {
  }

  /** Under a used key it succeeds exactly when it is well formed and repeats that command's content. */
  lemma RepeatedCreationAnswers(t: Tables, ops: seq<Op>, r: CreateRequest)
    requires Reached(t, ops) && (r.agent, r.key) in t.byKey && CreationWellFormed(r)
    ensures var id := t.byKey[(r.agent, r.key)];
            && id in t.commands && CreateCommandTx(t, r).0 == t
            && (CreateCommandTx(t, r).1.Created? <==> t.commands[id].requestHash == CommandHash(r.kind, r.body))
            && (CreateCommandTx(t, r).1.Created? ==>
                  CreateCommandTx(t, r).1.command == id && !CreateCommandTx(t, r).1.created)
  {
    ReachedInv(t, ops);
    assert KeyInv(t, r.agent, r.key);
  }

  /** Dismissing succeeds exactly on an own, open item that has not expired, and then only its status changes. */
  lemma DismissalAnswers(t: Tables, agent: int, attention: int, elapsed: nat)
    ensures var (after, dismissed) := DismissTx(t, agent, attention, elapsed);
            && (dismissed <==> attention in t.items && t.items[attention].agent == agent
                               && t.items[attention].status == Open
                               && t.clock + elapsed < t.items[attention].expiresAt)
            && after == t.(clock := t.clock + elapsed, items := after.items)
            && (dismissed ==> after.items == t.items[attention := t.items[attention].(status := Dismissed)])
            && (!dismissed ==> after.items == t.items)
  {
  }

  /** A published item is open at revision 1 with the actions, reference and expiry it was published with. */
  lemma PublicationAnswers(t: Tables, r: PublishRequest)
    ensures if 1 <= |r.actions| <= 5 && forall i | 0 <= i < |r.actions| :: r.actions[i].flag != "" then
              PublishTx(t, r)
              == t.(nextItem := t.nextItem + 1,
                    items := t.items[t.nextItem := Item(r.agent, Open, 1, NoResponse, None, r.category, r.actions,
                                                        r.contextRef, r.expiresAt)])
            else PublishTx(t, r) == t
  {
  }

  // ------------------------------------------------------------ from end to end

  /** The command an accepted response created can be claimed at once by a runtime that is ready for it. */
  lemma AnsweredCommandIsGranted(t: Tables, ops: seq<Op>, r: RespondRequest, claim: ClaimRequest)
    requires Reached(t, ops) && RespondTx(t, r).1.Responded? && !RespondTx(t, r).1.replay
    requires claim.agent == r.agent && claim.command == RespondTx(t, r).1.command
    requires ClaimWellFormed(claim) && claim.appliedRevision >= r.facts.contextRevision
    requires RuntimeLive(claim, RespondTx(t, r).0.clock + claim.elapsed)
    ensures var answered := RespondTx(t, r).0;
            && Reached(answered, ops + [Respond(r)])
            && claim.command in answered.commands && LeasesOf(answered, claim.command) == []
            && answered.commands[claim.command].attention == Some(r.attention)
            && FinishesOf(answered, claim.command) == []
            && r.attention in answered.items && answered.items[r.attention].revision == r.expectedRevision + 1
            && Grants(answered, claim, ClaimTx(answered, claim).0, ClaimTx(answered, claim).1)
  {
    var answered := RespondTx(t, r).0;
    NewCommandOf(t, r);
    hide RespondTx, ClaimTx, Run, Grants, RuntimeLive, ClaimWellFormed;
    RunOneMore(ops, Respond(r));
    hide Reached;
    FreeCommandIsGranted(answered, ops + [Respond(r)], claim);
  }

  lemma NewCommandOf(t: Tables, r: RespondRequest)
    requires RespondTx(t, r).1.Responded? && !RespondTx(t, r).1.replay
    ensures var (answered, reply) := RespondTx(t, r);
            var id := reply.command;
            && id in answered.commands && LeasesOf(answered, id) == [] && FinishesOf(answered, id) == []
            && answered.commands[id].agent == r.agent && answered.commands[id].attention == Some(r.attention)
            && answered.commands[id].requiredRevision == Some(r.facts.contextRevision)
            && r.attention in answered.items && answered.items[r.attention].revision == r.expectedRevision + 1
  {
    assert (r.agent, r.key) !in t.byKey && r.attention in t.items;
    hide RespondTx;
    ResponseAnswers(t, r);
  }

  /** A granted claim can be completed with its proof until its lease ends. */
  lemma GrantedCommandFinishes(t: Tables, ops: seq<Op>, claim: ClaimRequest, done: CompleteRequest)
    requires Reached(t, ops) && claim.command in t.commands && FinishesOf(t, claim.command) == []
    requires Grants(t, claim, ClaimTx(t, claim).0, ClaimTx(t, claim).1)
    requires Own(t, claim.agent, claim.command)
    requires done.agent == claim.agent && done.command == claim.command && done.runtime == claim.runtime
    requires claim.runtime != "" && done.epoch == |LeasesOf(t, claim.command)| + 1
    requires done.token == ClaimToken(claim.agent, claim.command, claim.runtime, done.epoch)
    requires done.resultAcceptable && done.elapsed < 120_000
    ensures var claimed := ClaimTx(t, claim).0;
            && Reached(claimed, ops + [Claim(claim)])
            && claimed.items == t.items
            && claimed.commands[done.command].attention == t.commands[done.command].attention
            && Finishes(claimed, done, CompleteTx(claimed, done).0, CompleteTx(claimed, done).1)
            && CompleteTx(claimed, done).0.commands != claimed.commands
  {
    var claimed := ClaimTx(t, claim).0;
    hide ClaimTx, CompleteTx, Run;
    RunOneMore(ops, Claim(claim));
    ReachedRow(claimed, ops + [Claim(claim)], done.command);
    hide Reached;
    CompletionAnswers(claimed, ops + [Claim(claim)], done);
    assert claimed.commands[done.command].status == Claimed;
    assert CompleteTx(claimed, done).0.commands[done.command].status != Claimed;
  }

  /**
   * An accepted response is served: a live runtime that has applied the required
   * revision is granted the command, and its completion with the granted proof
   * before the lease ends makes the item acted on success and open on failure.
   */
  lemma ResponseIsServed(t: Tables, ops: seq<Op>, r: RespondRequest, claim: ClaimRequest, done: CompleteRequest)
    requires Reached(t, ops) && RespondTx(t, r).1.Responded? && !RespondTx(t, r).1.replay
    requires claim.agent == r.agent && claim.command == RespondTx(t, r).1.command
    requires ClaimWellFormed(claim) && claim.appliedRevision >= r.facts.contextRevision
    requires RuntimeLive(claim, RespondTx(t, r).0.clock + claim.elapsed)
    requires done.agent == r.agent && done.command == claim.command && done.runtime == claim.runtime
    requires done.epoch == 1 && done.token == ClaimToken(r.agent, claim.command, claim.runtime, 1)
    requires done.resultAcceptable && done.elapsed < 120_000
    ensures var claimed := ClaimTx(RespondTx(t, r).0, claim).0;
            var finished := CompleteTx(claimed, done).0;
            && ClaimTx(RespondTx(t, r).0, claim).1 == ClaimGranted(done.token, 1, claimed.clock + 120_000, 1)
            && CompleteTx(claimed, done).1 == Finished(done.appNow)
            && r.attention in finished.items
            && finished.items[r.attention].status == (if done.success then Acted else Open)
            && finished.items[r.attention].revision == r.expectedRevision + 2
  {
    AnsweredCommandIsGranted(t, ops, r, claim);
    hide RespondTx, ClaimTx, CompleteTx, Reached, RuntimeLive;
    var answered := RespondTx(t, r).0;
    GrantedCommandFinishes(answered, ops + [Respond(r)], claim, done);
    CompletionSettlesItsItem(ClaimTx(answered, claim).0, ops + [Respond(r)] + [Claim(claim)], done);
  }

  lemma RunOneMore(ops: seq<Op>, op: Op)
    ensures Run(EMPTY, ops + [op]) == Step(Run(EMPTY, ops), op)
  {
    RunJoins(EMPTY, ops, op);
  }

  lemma {:induction false} RunJoins(t: Tables, ops: seq<Op>, op: Op)
    ensures Run(t, ops + [op]) == Step(Run(t, ops), op)
    decreases |ops|
  {
    hide Step;
    if ops == [] {
      assert ops + [op] == [op] && [op][1..] == [];
    } else {
      assert (ops + [op])[1..] == ops[1..] + [op];
      RunJoins(Step(t, ops[0]), ops[1..], op);
    }
  }
}
