/**
 * The handlers as transactions on the item and command tables. Each method
 * writes rows in the order of the handler; its contract is the step function.
 */
module AttentionTables {
  import opened Common
  import opened AttentionCommands

  /** Rewrites every entity of a result in place. */
  method CanonicalizeEntities(entities: array<Entity>, summary: string)
    modifies entities
    ensures ResultDoc(summary, entities[..]) == Canonical(old(ResultDoc(summary, entities[..])))
  {
    for index := 0 to entities.Length
      invariant forall i | 0 <= i < index :: entities[i] == CanonicalEntity(old(entities[i]))
      invariant forall i | index <= i < entities.Length :: entities[i] == old(entities[i])
    {
      var entity := entities[index];
      entities[index] := entity.(url := CanonicalUrl(entity.kind, entity.id), caption := "", trustedPublic := false);
    }
  }

  /** Scans the offered actions for a key, stopping at the first match. */
  method SelectAction(actions: seq<Action>, key: string) returns (selected: Option<Action>)
    ensures selected == FindAction(actions, key)
  {
    selected := None;
    var index := 0;
    while index < |actions| && selected.None?
      invariant 0 <= index <= |actions|
      invariant selected.None? ==> FindAction(actions, key) == FindAction(actions[index..], key)
      invariant selected.Some? ==> selected == FindAction(actions, key)
    {
      if actions[index].key == key {
        selected := Some(actions[index]);
      }
      index := index + 1;
    }
  }

  class CommandTables {
    var items: map<int, Item>
    var commands: map<int, Command>
    var byKey: map<(int, string), int>
    var nextItem: int
    var nextCommand: int
    var clock: int
    ghost var leases: map<int, seq<Lease>>
    ghost var finishes: map<int, seq<Finish>>

    ghost function Snapshot(): Tables
      reads this
    {
      Tables(items, commands, byKey, nextItem, nextCommand, clock, leases, finishes)
    }

    constructor ()
      ensures Snapshot() == EMPTY
    {
      items, commands, byKey, nextItem, nextCommand, clock := map[], map[], map[], 1, 1, 0;
      leases, finishes := map[], map[];
    }

    method ReadClock(elapsed: nat) returns (now: int)
      modifies this`clock
      ensures now == clock == old(clock) + elapsed
    {
      clock := clock + elapsed;
      now := clock;
    }

    method Publish(r: PublishRequest)
      modifies this
      ensures Snapshot() == PublishTx(old(Snapshot()), r)
    {
      if 1 <= |r.actions| <= 5 && forall i | 0 <= i < |r.actions| :: r.actions[i].flag != "" {
        items := items[nextItem :=
                       Item(r.agent, Open, 1, NoResponse, None, r.category, r.actions, r.contextRef, r.expiresAt)];
        nextItem := nextItem + 1;
      }
    }

    /** The stored answer to a key that was used before. */
    method LoadReplay(r: RespondRequest, id: int) returns (reply: RespondReply)
      ensures reply == ReplayResponse(Snapshot(), r, id)
    {
      if id !in commands || commands[id].requestHash != HashOf(r) {
        return RespondRefused(ResponseConflict);
      }
      if r.attention !in items || items[r.attention].agent != r.agent {
        return RespondRefused(ResponseReadFailed);
      }
      var item := items[r.attention];
      var selected := SelectAction(item.actions, r.actionKey);
      if selected.None? || selected.value.flag == "" {
        return RespondRefused(ResponseReadFailed);
      }
      return Responded(id, item.revision, item.status, commands[id].status, selected.value.flag, true);
    }

    /** Compares the item's context references with the current control context. */
    method CheckContext(item: Item, action: Action, facts: RespondFacts) returns (error: Option<RespondError>)
      ensures error == ContextError(item, action, facts)
    {
      var terminal := action.flag != "open_source";
      var ref := item.contextRef;
      if action.flag == "apply_intent_update" && ref.operation == "add" {
        if facts.activeIntents >= MAX_ACTIVE_INTENTS {
          return Some(IntentCapacity);
        }
      }
      if facts.contextRevision <= 0 {
        return Some(ResponseConflict);
      }
      if terminal && ref.contextRevision.Some? && ref.contextRevision.value != facts.contextRevision {
        return Some(ContextStale);
      }
      if terminal && item.category == "goal_calibration" && ref.goalRevision.Some? {
        if facts.goalVersion == 0 || facts.goalVersion != ref.goalRevision.value {
          return Some(ContextStale);
        }
      }
      return None;
    }

    /** Inserts the command and moves the item. */
    method WriteResponse(r: RespondRequest, action: Action) returns (reply: RespondReply)
      requires r.attention in items && items[r.attention].status == Open && action.key == r.actionKey
      modifies this
      ensures Snapshot() == RecordResponse(old(Snapshot()), r, action)
      ensures reply == Responded(old(nextCommand), items[r.attention].revision, items[r.attention].status, Queued,
                                 action.flag, false)
    {
      var terminal := action.flag != "open_source";
      var id := nextCommand;
      commands := commands[id := NewResponseCommand(r, terminal)];
      byKey := byKey[(r.agent, r.key) := id];
      nextCommand := nextCommand + 1;
      leases, finishes := leases[id := []], finishes[id := []];
      var status := Open;
      if terminal {
        status := Pending;
      }
      var item := items[r.attention];
      item := item.(status := status, selectedKey := Some(action.key), response := ResponsePending,
                    revision := item.revision + 1);
      items := items[r.attention := item];
      return Responded(id, item.revision, status, Queued, action.flag, false);
    }

    method Respond(r: RespondRequest) returns (reply: RespondReply)
      modifies this
      ensures (Snapshot(), reply) == RespondTx(old(Snapshot()), r)
    {
      if !r.wellFormed || r.attention <= 0 || r.expectedRevision <= 0 {
        return RespondRefused(InvalidResponse);
      }
      if (r.agent, r.key) in byKey {
        reply := LoadReplay(r, byKey[(r.agent, r.key)]);
        return;
      }
      var now := ReadClock(r.facts.readElapsed);
      if r.attention !in items || items[r.attention].agent != r.agent || items[r.attention].expiresAt <= now {
        return RespondRefused(ResponseConflict);
      }
      var item := items[r.attention];
      if item.revision != r.expectedRevision || item.status != Open || item.expiresAt <= r.facts.appNow {
        return RespondRefused(ResponseConflict);
      }
      var selected := SelectAction(item.actions, r.actionKey);
      if selected.None? {
        return RespondRefused(ResponseConflict);
      }
      if selected.value.flag == "open_source" {
        return RespondRefused(SourceDirectOnly);
      }
      var error := CheckContext(item, selected.value, r.facts);
      if error.Some? {
        return RespondRefused(error.value);
      }
      now := ReadClock(r.facts.writeElapsed);
      if item.expiresAt <= now {
        // The conditional item update matches no row, and the insert before it is rolled back.
        return RespondRefused(ResponseConflict);
      }
      reply := WriteResponse(r, selected.value);
    }

    method Create(r: CreateRequest) returns (reply: CreateReply)
      modifies this
      ensures (Snapshot(), reply) == CreateCommandTx(old(Snapshot()), r)
    {
      if r.kind == "attention_action" || r.attentionFields || !ValidCommandType(r.kind) || r.key == "" || |r.key| > 128
         || !r.bodyValid {
        return CreateRefused;
      }
      if (r.agent, r.key) in byKey {
        var prior := byKey[(r.agent, r.key)];
        if prior !in commands || commands[prior].requestHash != CommandHash(r.kind, r.body) {
          return CreateRefused;
        }
        var contextRevision := 0;
        if r.raced && commands[prior].requiredRevision.Some? {
          contextRevision := commands[prior].requiredRevision.value;
        }
        return Created(prior, false, contextRevision);
      }
      if r.contextRevision <= 0 {
        return CreateRefused;
      }
      var id := nextCommand;
      commands := commands[id := Command(r.agent, None, r.kind, Payload("", false), CommandHash(r.kind, r.body),
                                         Some(r.contextRevision), Queued, r.key, None, 0, None, None, 0, None, None)];
      byKey := byKey[(r.agent, r.key) := id];
      nextCommand := nextCommand + 1;
      leases, finishes := leases[id := []], finishes[id := []];
      return Created(id, true, r.contextRevision);
    }

    method Claim(r: ClaimRequest) returns (reply: ClaimReply)
      modifies this
      ensures (Snapshot(), reply) == ClaimTx(old(Snapshot()), r)
    {
      if r.runtime == "" || |r.runtime| > 128 || r.appliedRevision < 0 {
        return ClaimInvalid;
      }
      var found := r.command in commands && commands[r.command].agent == r.agent;
      if found && commands[r.command].kind == ATTENTION_RESPONSE && commands[r.command].payload.protocol != PROTOCOL {
        return ClaimUnsupported;
      }
      var now := ReadClock(r.elapsed);
      if r.runtimeLease.None? || r.runtimeLease.value.until <= now
          || r.runtimeLease.value.appliedRevision != Some(r.appliedRevision) {
        return ContextRequired;
      }
      if found && commands[r.command].requiredRevision.Some?
          && r.appliedRevision < commands[r.command].requiredRevision.value {
        return ContextRequired;
      }
      if !found {
        return ClaimConflict;
      }
      var row := commands[r.command];
      if row.status == Claimed && row.owner == Some(r.runtime) && row.claimUntil.Some? && row.claimUntil.value > now {
        var token := ClaimToken(r.agent, r.command, r.runtime, row.epoch);
        if row.token != Some(token) {
          return ClaimConflict;
        }
        return ClaimGranted(token, row.epoch, row.claimUntil.value, row.attempts);
      }
      if row.status != Queued && row.status != Notified
         && !(row.status == Claimed && row.claimUntil.Some? && row.claimUntil.value <= now) {
        return ClaimConflict;
      }
      reply := WriteClaim(r, now);
    }

    /** Starts the next claim epoch of a row. */
    method WriteClaim(r: ClaimRequest, now: int) returns (reply: ClaimReply)
      requires r.command in commands && now == clock
      modifies this
      ensures Snapshot() == GrantClaim(old(Snapshot()), r)
      ensures var epoch := old(commands[r.command].epoch) + 1;
              reply == ClaimGranted(ClaimToken(r.agent, r.command, r.runtime, epoch), epoch, now + COMMAND_LEASE_TTL,
                                    old(commands[r.command].attempts) + 1)
    {
      var claimUntil := now + COMMAND_LEASE_TTL;
      var row := commands[r.command];
      row := row.(epoch := row.epoch + 1);
      var token := ClaimToken(r.agent, r.command, r.runtime, row.epoch);
      row := row.(status := Claimed, owner := Some(r.runtime), claimUntil := Some(claimUntil),
                  attempts := row.attempts + 1);
      commands := commands[r.command := row.(token := Some(token))];
      leases := leases[r.command := (if r.command in leases then leases[r.command] else [])
                       + [Lease(r.runtime, now, claimUntil)]];
      return ClaimGranted(token, row.epoch, claimUntil, row.attempts);
    }

    method Complete(r: CompleteRequest) returns (reply: CompleteReply)
      modifies this
      ensures (Snapshot(), reply) == CompleteTx(old(Snapshot()), r)
    {
      if r.runtime == "" || r.epoch <= 0 || r.token == ForeignToken("") {
        return CompleteInvalid;
      }
      var found := r.command in commands && commands[r.command].agent == r.agent;
      var stored := r.result;
      if found && commands[r.command].kind == ATTENTION_RESPONSE {
        if commands[r.command].payload.protocol != PROTOCOL {
          return CompleteUnsupported;
        }
        if !r.resultAcceptable {
          return InvalidResult;
        }
        stored := Canonical(r.result);
      }
      var now := ReadClock(r.elapsed);
      if !found {
        return ClaimFenced;
      }
      var row := commands[r.command];
      var status := if r.success then Completed else Failed;
      if row.status == Claimed && row.owner == Some(r.runtime) && row.epoch == r.epoch && row.token == Some(r.token)
         && row.claimUntil.Some? && row.claimUntil.value > now {
        WriteFinish(r, status, stored);
        return Finished(r.appNow);
      }
      if row.status != status || row.result != Some(stored) || row.owner != Some(r.runtime) || row.epoch != r.epoch
         || row.token != Some(r.token) {
        return ClaimFenced;
      }
      return Finished(if row.completedAt.Some? then row.completedAt.value else 0);
    }

    /** Finishes a row and moves the item it answers. */
    method WriteFinish(r: CompleteRequest, status: CommandStatus, stored: ResultDoc)
      requires r.command in commands && status == Outcome(r) && stored == StoredResult(Some(commands[r.command]), r)
      modifies this
      ensures Snapshot() == RecordFinish(old(Snapshot()), r)
    {
      var row := commands[r.command];
      commands := commands[r.command :=
                             row.(status := status, result := Some(stored), completedAt := Some(r.appNow))];
      finishes := finishes[r.command := (if r.command in finishes then finishes[r.command] else [])
                                        + [Finish(row.epoch, clock, status, stored, r.appNow)]];
      if row.attention.Some? && row.attention.value in items && items[row.attention.value].agent == r.agent {
        var item := items[row.attention.value];
        var response := if r.success then ResponseCompleted else ResponseFailed;
        var terminal := row.kind == ATTENTION_RESPONSE && row.payload.terminal;
        if terminal && item.status == Pending {
          var itemStatus := Open;
          if r.success {
            itemStatus := Acted;
          }
          item := item.(status := itemStatus, response := response, revision := item.revision + 1);
        } else if !terminal && item.status == Open {
          item := item.(response := response, revision := item.revision + 1);
        }
        items := items[row.attention.value := item];
      }
    }

    method Dismiss(agent: int, attention: int, elapsed: nat) returns (dismissed: bool)
      modifies this
      ensures (Snapshot(), dismissed) == DismissTx(old(Snapshot()), agent, attention, elapsed)
    {
      var now := ReadClock(elapsed);
      dismissed := attention in items && items[attention].agent == agent && items[attention].status == Open
                   && items[attention].expiresAt > now;
      if dismissed {
        items := items[attention := items[attention].(status := Dismissed)];
      }
    }
  }
}
