/**
 * The attention item and its commands: publish, respond, claim, complete,
 * dismiss. Every database transaction is one step on `Tables`.
 *
 * `leases` and `finishes` are histories: the first records every lease a claim
 * granted, the second every completion that changed a row. No step reads them.
 */
module AttentionCommands {
  import opened Common

  const PROTOCOL := "agent_attention.v1"
  const ATTENTION_RESPONSE := "attention_response"
  const COMMAND_LEASE_TTL := 120_000
  const MAX_ACTIVE_INTENTS := 10

  datatype ItemStatus = Open | Pending | Acted | Dismissed
  datatype ResponseStatus = NoResponse | ResponsePending | ResponseCompleted | ResponseFailed

  datatype Action = Action(key: string, kind: string, flag: string)

  datatype ContextRef = ContextRef(contextRevision: Option<int>, goalRevision: Option<int>, operation: string)

  datatype Item = Item(
    agent: int, status: ItemStatus, revision: int, response: ResponseStatus, selectedKey: Option<string>,
    category: string, actions: seq<Action>, contextRef: ContextRef, expiresAt: int)

  datatype CommandStatus = Queued | Notified | Claimed | Completed | Failed

  datatype Payload = Payload(protocol: string, terminal: bool)

  /** What the request hash of each creating route is computed from. */
  datatype RequestHash =
    | ResponseHash(attention: int, revision: int, actionKey: string)
    | CommandHash(kind: string, body: string)

  /** A claim token is a keyed hash of exactly these four values. */
  datatype Token =
    | ClaimToken(agent: int, command: int, runtime: string, epoch: int)
    | ForeignToken(text: string)

  datatype Entity = Entity(kind: string, id: string, url: string, caption: string, trustedPublic: bool)
  datatype ResultDoc = ResultDoc(summary: string, entities: seq<Entity>)

  datatype Command = Command(
    agent: int, attention: Option<int>, kind: string, payload: Payload, requestHash: RequestHash,
    requiredRevision: Option<int>, status: CommandStatus, key: string,
    owner: Option<string>, epoch: int, token: Option<Token>, claimUntil: Option<int>, attempts: int,
    result: Option<ResultDoc>, completedAt: Option<int>)

  datatype Lease = Lease(owner: string, from: int, until: int)
  datatype Finish = Finish(epoch: int, at: int, status: CommandStatus, result: ResultDoc, completedAt: int)

  datatype Tables = Tables(
    items: map<int, Item>, commands: map<int, Command>,
    byKey: map<(int, string), int>,          // unique index (agent_id, idempotency_key)
    nextItem: int, nextCommand: int,
    clock: int,                              // latest reading of the database clock
    leases: map<int, seq<Lease>>, finishes: map<int, seq<Finish>>)

  const EMPTY := Tables(map[], map[], map[], 1, 1, 0, map[], map[])

  // ---------------------------------------------------------------- publishing

  /** The checks of an action list that later steps rely on. */
  predicate ValidActions(actions: seq<Action>) {
    && 1 <= |actions| <= 5
    && (forall i | 0 <= i < |actions| :: actions[i].flag != "")
  }

  datatype PublishRequest = PublishRequest(
    agent: int, category: string, actions: seq<Action>, contextRef: ContextRef, expiresAt: int)

  function PublishTx(t: Tables, r: PublishRequest): Tables {
    if !ValidActions(r.actions) then t
    else
      t.(items := t.items[t.nextItem :=
                          Item(r.agent, Open, 1, NoResponse, None, r.category, r.actions, r.contextRef, r.expiresAt)],
         nextItem := t.nextItem + 1)
  }

  // ---------------------------------------------------------------- responding

  /** The first action with the given key. */
  function FindAction(actions: seq<Action>, key: string): (found: Option<Action>)
    ensures found.Some? ==> found.value in actions && found.value.key == key
    ensures found.None? ==> forall i | 0 <= i < |actions| :: actions[i].key != key
  {
    if actions == [] then None
    else if actions[0].key == key then Some(actions[0])
    else FindAction(actions[1..], key)
  }

  predicate ActionTerminal(action: Action) {
    action.flag != "open_source"
  }

  /** Facts of other tables and clocks a response transaction reads. */
  datatype RespondFacts = RespondFacts(
    appNow: int, contextRevision: int, goalVersion: int, activeIntents: int,
    readElapsed: nat, writeElapsed: nat)

  datatype RespondRequest = RespondRequest(
    agent: int, attention: int, actionKey: string, expectedRevision: int, key: string,
    wellFormed: bool, facts: RespondFacts)

  datatype RespondError =
    | InvalidResponse | ResponseConflict | IntentCapacity | ContextStale | SourceDirectOnly | ResponseReadFailed

  datatype RespondReply =
    | RespondRefused(error: RespondError)
    | Responded(command: int, itemRevision: int, itemStatus: ItemStatus, commandStatus: CommandStatus, flag: string,
                replay: bool)

  function HashOf(r: RespondRequest): RequestHash {
    ResponseHash(r.attention, r.expectedRevision, r.actionKey)
  }

  /** A key that was used before: the stored command with the item as it is now. */
  function ReplayResponse(t: Tables, r: RespondRequest, id: int): RespondReply {
    if id !in t.commands || t.commands[id].requestHash != HashOf(r) then RespondRefused(ResponseConflict)
    else if r.attention !in t.items || t.items[r.attention].agent != r.agent then RespondRefused(ResponseReadFailed)
    else
      var item := t.items[r.attention];
      var selected := FindAction(item.actions, r.actionKey);
      if selected.None? || selected.value.flag == "" then RespondRefused(ResponseReadFailed)
      else Responded(id, item.revision, item.status, t.commands[id].status, selected.value.flag, true)
  }

  /** The context checks a selected action must pass. */
  function ContextError(item: Item, selected: Action, facts: RespondFacts): Option<RespondError> {
    var ref := item.contextRef;
    if selected.flag == "apply_intent_update" && ref.operation == "add"
        && facts.activeIntents >= MAX_ACTIVE_INTENTS then
      Some(IntentCapacity)
    else if facts.contextRevision <= 0 then Some(ResponseConflict)
    else if ActionTerminal(selected) && ref.contextRevision.Some?
        && ref.contextRevision.value != facts.contextRevision then
      Some(ContextStale)
    else if ActionTerminal(selected) && item.category == "goal_calibration" && ref.goalRevision.Some?
            && (facts.goalVersion == 0 || facts.goalVersion != ref.goalRevision.value) then
      Some(ContextStale)
    else None
  }

  function NewResponseCommand(r: RespondRequest, terminal: bool): Command {
    Command(r.agent, Some(r.attention), ATTENTION_RESPONSE, Payload(PROTOCOL, terminal), HashOf(r),
            Some(r.facts.contextRevision), Queued, r.key, None, 0, None, None, 0, None, None)
  }

  /** The rows a successful response writes. */
  function RecordResponse(t: Tables, r: RespondRequest, selected: Action): (after: Tables)
    requires r.attention in t.items
    ensures after.clock == t.clock
  {
    var item, id := t.items[r.attention], t.nextCommand;
    var terminal := ActionTerminal(selected);
    t.(items := t.items[r.attention :=
                        item.(status := if terminal then Pending else Open, selectedKey := Some(r.actionKey),
                                             response := ResponsePending, revision := item.revision + 1)],
       commands := t.commands[id := NewResponseCommand(r, terminal)],
       byKey := t.byKey[(r.agent, r.key) := id],
       nextCommand := id + 1,
       leases := t.leases[id := []],
       finishes := t.finishes[id := []])
  }

  function RespondTx(t: Tables, r: RespondRequest): (Tables, RespondReply) {
    if !r.wellFormed || r.attention <= 0 || r.expectedRevision <= 0 then (t, RespondRefused(InvalidResponse))
    else if (r.agent, r.key) in t.byKey then (t, ReplayResponse(t, r, t.byKey[(r.agent, r.key)]))
    else
      var read := t.(clock := t.clock + r.facts.readElapsed);
      var written := t.(clock := t.clock + r.facts.readElapsed + r.facts.writeElapsed);
      if r.attention !in t.items then (read, RespondRefused(ResponseConflict))
      else
        var item := t.items[r.attention];
        if item.agent != r.agent || item.expiresAt <= read.clock || item.revision != r.expectedRevision
           || item.status != Open || item.expiresAt <= r.facts.appNow then
          (read, RespondRefused(ResponseConflict))
        else
          var selected := FindAction(item.actions, r.actionKey);
          if selected.None? then (read, RespondRefused(ResponseConflict))
          else if selected.value.flag == "open_source" then (read, RespondRefused(SourceDirectOnly))
          else
            var error := ContextError(item, selected.value, r.facts);
            if error.Some? then (read, RespondRefused(error.value))
            else if item.expiresAt <= written.clock then (written, RespondRefused(ResponseConflict))
            else
              var after := RecordResponse(written, r, selected.value);
              (after, Responded(t.nextCommand, after.items[r.attention].revision, after.items[r.attention].status,
                                Queued, selected.value.flag, false))
  }

  // ------------------------------------------------- commands without attention

  predicate ValidCommandType(kind: string) {
    kind in {"human_instruction", "private_message", "broadcast_reply", "trade_update"}
  }

  /** `raced`: a row with the key was committed after the first look for one. */
  datatype CreateRequest = CreateRequest(
    agent: int, kind: string, body: string, bodyValid: bool, attentionFields: bool, key: string,
    contextRevision: int, raced: bool)

  datatype CreateReply = CreateRefused | Created(command: int, created: bool, requiredRevision: int)

  function RecordCommand(t: Tables, r: CreateRequest): Tables {
    var id := t.nextCommand;
    t.(commands := t.commands[id := Command(r.agent, None, r.kind, Payload("", false), CommandHash(r.kind, r.body),
                                            Some(r.contextRevision), Queued, r.key, None, 0, None, None, 0,
                                            None, None)],
       byKey := t.byKey[(r.agent, r.key) := id],
       nextCommand := id + 1,
       leases := t.leases[id := []],
       finishes := t.finishes[id := []])
  }

  function StoredRevision(c: Command): int {
    if c.requiredRevision.Some? then c.requiredRevision.value else 0
  }

  /** A replay found by the first look answers without reading the stored revision; the second look reads it. */
  function CreateCommandTx(t: Tables, r: CreateRequest): (Tables, CreateReply) {
    if r.kind == "attention_action" || r.attentionFields || !ValidCommandType(r.kind) || r.key == "" || |r.key| > 128
       || !r.bodyValid then (t, CreateRefused)
    else if (r.agent, r.key) in t.byKey then
      var id := t.byKey[(r.agent, r.key)];
      if id !in t.commands || t.commands[id].requestHash != CommandHash(r.kind, r.body) then (t, CreateRefused)
      else if r.raced then (t, Created(id, false, StoredRevision(t.commands[id])))
      else (t, Created(id, false, 0))
    else if r.contextRevision <= 0 then (t, CreateRefused)
    else (RecordCommand(t, r), Created(t.nextCommand, true, r.contextRevision))
  }

  // ------------------------------------------------------------------ claiming

  datatype RuntimeLease = RuntimeLease(until: int, appliedRevision: Option<int>)

  datatype ClaimRequest = ClaimRequest(
    agent: int, command: int, runtime: string, appliedRevision: int,
    runtimeLease: Option<RuntimeLease>, elapsed: nat)

  datatype ClaimReply =
    | ClaimInvalid | ClaimUnsupported | ContextRequired | ClaimConflict
    | ClaimGranted(token: Token, epoch: int, until: int, attempts: int)

  function OwnCommand(t: Tables, agent: int, id: int): Option<Command> {
    if id in t.commands && t.commands[id].agent == agent then Some(t.commands[id]) else None
  }

  predicate UnsupportedProtocol(row: Option<Command>) {
    row.Some? && row.value.kind == ATTENTION_RESPONSE && row.value.payload.protocol != PROTOCOL
  }

  predicate RuntimeReady(row: Option<Command>, r: ClaimRequest, now: int) {
    && r.runtimeLease.Some? && r.runtimeLease.value.until > now
    && r.runtimeLease.value.appliedRevision == Some(r.appliedRevision)
    && (row.Some? && row.value.requiredRevision.Some? ==> r.appliedRevision >= row.value.requiredRevision.value)
  }

  predicate HeldBy(c: Command, runtime: string, now: int) {
    c.status == Claimed && c.owner == Some(runtime) && c.claimUntil.Some? && c.claimUntil.value > now
  }

  predicate Claimable(c: Command, now: int) {
    c.status == Queued || c.status == Notified
    || (c.status == Claimed && c.claimUntil.Some? && c.claimUntil.value <= now)
  }

  /** The rows a new claim epoch writes. */
  function GrantClaim(t: Tables, r: ClaimRequest): (after: Tables)
    requires r.command in t.commands
    ensures after.clock == t.clock
  {
    var c := t.commands[r.command];
    var epoch, until := c.epoch + 1, t.clock + COMMAND_LEASE_TTL;
    var claimed := c.(status := Claimed, owner := Some(r.runtime), epoch := epoch,
                      token := Some(ClaimToken(r.agent, r.command, r.runtime, epoch)),
                      claimUntil := Some(until), attempts := c.attempts + 1);
    var history := if r.command in t.leases then t.leases[r.command] else [];
    t.(commands := t.commands[r.command := claimed],
       leases := t.leases[r.command := history + [Lease(r.runtime, t.clock, until)]])
  }

  function ClaimTx(t: Tables, r: ClaimRequest): (Tables, ClaimReply) {
    var row := OwnCommand(t, r.agent, r.command);
    if r.runtime == "" || |r.runtime| > 128 || r.appliedRevision < 0 then (t, ClaimInvalid)
    else if UnsupportedProtocol(row) then (t, ClaimUnsupported)
    else
      var now := t.clock + r.elapsed;
      var read := t.(clock := now);
      if !RuntimeReady(row, r, now) then (read, ContextRequired)
      else if row.None? then (read, ClaimConflict)
      else
        var c := row.value;
        if HeldBy(c, r.runtime, now) then
          var token := ClaimToken(r.agent, r.command, r.runtime, c.epoch);
          if c.token != Some(token) then (read, ClaimConflict)
          else (read, ClaimGranted(token, c.epoch, c.claimUntil.value, c.attempts))
        else if !Claimable(c, now) then (read, ClaimConflict)
        else
          (GrantClaim(read, r),
           ClaimGranted(ClaimToken(r.agent, r.command, r.runtime, c.epoch + 1), c.epoch + 1,
                        now + COMMAND_LEASE_TTL, c.attempts + 1))
  }

  // ---------------------------------------------------------------- completing

  /** The route the console shows for an entity. Identifiers match [A-Za-z0-9_-]+, which URL escaping leaves alone. */
  function CanonicalUrl(kind: string, id: string): string {
    if kind == "agent" then "/agent/invite?agent=" + id
    else if kind == "broadcast" then "/dashboard/broadcasts/" + id
    else if kind == "broadcast_reply" || kind == "activity" then "/dashboard/today"
    else if kind == "friend_request" || kind == "relation" then "/dashboard/relations"
    else if kind == "private_message" then "/dashboard/messages"
    else if kind == "network_goal" then "/dashboard/network-goal"
    else if kind == "intent" then "/dashboard/intent-actions"
    else ""
  }

  function CanonicalEntity(e: Entity): Entity {
    Entity(e.kind, e.id, CanonicalUrl(e.kind, e.id), "", false)
  }

  function Canonical(doc: ResultDoc): ResultDoc {
    ResultDoc(doc.summary, seq(|doc.entities|, i requires 0 <= i < |doc.entities| => CanonicalEntity(doc.entities[i])))
  }

  /** The labels and links a runtime may attach to one entity, without the character rules. */
  predicate AcceptableEntity(e: Entity) {
    !e.trustedPublic && (e.url == "" || e.url == CanonicalUrl(e.kind, e.id))
  }

  datatype CompleteRequest = CompleteRequest(
    agent: int, command: int, runtime: string, epoch: int, token: Token, success: bool, result: ResultDoc,
    resultAcceptable: bool, appNow: int, elapsed: nat)

  datatype CompleteReply =
    | CompleteInvalid | CompleteUnsupported | InvalidResult | ClaimFenced | Finished(completedAt: int)

  function Outcome(r: CompleteRequest): CommandStatus {
    if r.success then Completed else Failed
  }

  /** The completion proof presented by a runtime names the claim stored in the row. */
  predicate ProofMatches(c: Command, r: CompleteRequest) {
    c.owner == Some(r.runtime) && c.epoch == r.epoch && c.token == Some(r.token)
  }

  predicate LeaseHeld(c: Command, r: CompleteRequest, now: int) {
    c.status == Claimed && ProofMatches(c, r) && c.claimUntil.Some? && c.claimUntil.value > now
  }

  function SettledItem(item: Item, terminal: bool, success: bool): Item {
    var response := if success then ResponseCompleted else ResponseFailed;
    if terminal && item.status == Pending then
      item.(status := if success then Acted else Open, response := response, revision := item.revision + 1)
    else if !terminal && item.status == Open then
      item.(response := response, revision := item.revision + 1)
    else item
  }

  function StoredResult(c: Option<Command>, r: CompleteRequest): ResultDoc {
    if c.Some? && c.value.kind == ATTENTION_RESPONSE then Canonical(r.result) else r.result
  }

  /** The rows an accepted completion writes. */
  function RecordFinish(t: Tables, r: CompleteRequest): (after: Tables)
    requires r.command in t.commands
    ensures after.clock == t.clock
  {
    var c := t.commands[r.command];
    var stored := StoredResult(Some(c), r);
    var done := c.(status := Outcome(r), result := Some(stored), completedAt := Some(r.appNow));
    var terminal := c.kind == ATTENTION_RESPONSE && c.payload.terminal;
    var items :=
      if c.attention.Some? && c.attention.value in t.items && t.items[c.attention.value].agent == r.agent
      then t.items[c.attention.value := SettledItem(t.items[c.attention.value], terminal, r.success)]
      else t.items;
    var history := if r.command in t.finishes then t.finishes[r.command] else [];
    t.(items := items, commands := t.commands[r.command := done],
       finishes := t.finishes[r.command := history + [Finish(c.epoch, t.clock, Outcome(r), stored, r.appNow)]])
  }

  function CompleteTx(t: Tables, r: CompleteRequest): (Tables, CompleteReply) {
    var row := OwnCommand(t, r.agent, r.command);
    if r.runtime == "" || r.epoch <= 0 || r.token == ForeignToken("") then (t, CompleteInvalid)
    else if UnsupportedProtocol(row) then (t, CompleteUnsupported)
    else if row.Some? && row.value.kind == ATTENTION_RESPONSE && !r.resultAcceptable then (t, InvalidResult)
    else
      var now := t.clock + r.elapsed;
      var read := t.(clock := now);
      var stored := StoredResult(row, r);
      if row.None? then (read, ClaimFenced)
      else
        var c := row.value;
        if LeaseHeld(c, r, now) then
          (RecordFinish(read, r), Finished(r.appNow))
        else if c.status == Outcome(r) && c.result == Some(stored) && ProofMatches(c, r) then
          (read, Finished(if c.completedAt.Some? then c.completedAt.value else 0))
        else (read, ClaimFenced)
  }

  // ---------------------------------------------------------------- dismissing

  function DismissTx(t: Tables, agent: int, attention: int, elapsed: nat): (Tables, bool) {
    var now := t.clock + elapsed;
    var read := t.(clock := now);
    if attention in t.items && t.items[attention].agent == agent && t.items[attention].status == Open
       && t.items[attention].expiresAt > now then
      (read.(items := t.items[attention := t.items[attention].(status := Dismissed)]), true)
    else (read, false)
  }

  // ---------------------------------------------------------------------- runs

  datatype Op =
    | Publish(publish: PublishRequest)
    | Respond(respond: RespondRequest)
    | Create(create: CreateRequest)
    | Claim(claim: ClaimRequest)
    | Complete(complete: CompleteRequest)
    | Dismiss(agent: int, attention: int, elapsed: nat)

  function Step(t: Tables, op: Op): Tables {
    match op
    case Publish(r) => PublishTx(t, r)
    case Respond(r) => RespondTx(t, r).0
    case Create(r) => CreateCommandTx(t, r).0
    case Claim(r) => ClaimTx(t, r).0
    case Complete(r) => CompleteTx(t, r).0
    case Dismiss(agent, attention, elapsed) => DismissTx(t, agent, attention, elapsed).0
  }

  /** The tables after a sequence of transactions, in commit order. */
  function Run(t: Tables, ops: seq<Op>): Tables
    decreases |ops|
  {
    if ops == [] then t else Run(Step(t, ops[0]), ops[1..])
  }
}
