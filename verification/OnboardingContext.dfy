/**
 * One Agent's onboarding and control plane: draft revisions, the step machine,
 * the facts (network goal, intents, security boundary) and the compiled context
 * that caches them. Every handler is one transaction.
 */
module OnboardingContext {
  import opened Common
  import opened DraftOwnership

  const INTENT_LIMIT := 10

  datatype Goal = Goal(text: string, source: Writer, active: bool)

  datatype IntentFields = IntentFields(watchFor: string, triggerWhen: string, instruction: string, policy: string,
                                       priority: int)
  datatype Intent = Intent(fields: IntentFields, source: Writer, active: bool, version: int)

  datatype Boundary = Boundary(recurringPublish: bool, autoReply: bool, autoComment: bool, showAddFriend: bool)

  datatype CompiledGoal = CompiledGoal(id: int, text: string, source: Writer)
  datatype CompiledIntent = CompiledIntent(id: int, watchFor: string, triggerWhen: string, instruction: string,
                                           policy: string, source: Writer)
  datatype Context = Context(revision: int, goal: Option<CompiledGoal>, intents: seq<CompiledIntent>,
                             boundary: Boundary)

  datatype Onboarding = Onboarding(completed: bool, step: int, revision: int, activeContext: Option<int>)

  datatype Operation = DraftPut | StepConfirm | GoalPut | IntentCreate | IntentUpdate | IntentDelete | BoundaryPut

  datatype Reply =
    | Saved(revision: int)
    | Confirmed(completed: bool, step: int, revision: int, context: Option<int>)
    | Changed(activated: int)
    | Conflict | EmailRequired | Invalid | NotFound | LimitReached

  datatype Receipt = Receipt(hash: string, reply: Reply)

  /**
   * Goals and intents are rows in insertion order, row `i` having identifier `i + 1`. `confirmed`
   * logs the confirmed steps.
   */
  datatype Db = Db(
    onboarding: Onboarding, drafts: map<int, Stored>, goals: seq<Goal>, intents: seq<Intent>,
        settings: Option<Boundary>,
    current: int, active: Option<int>, revisions: map<int, Context>, receipts: map<(Operation, string), Receipt>,
    confirmed: seq<int>)

  function Provisioned(draft: Stored): Db {
    Db(Onboarding(false, 2, 1, None), map[1 := draft], [], [], None, 0, None, map[], map[], [])
  }

  // -------------------------------------------------------------------- facts

  function WithoutActiveGoals(goals: seq<Goal>): seq<Goal> {
    seq(|goals|, i requires 0 <= i < |goals| => goals[i].(active := false))
  }

  function ReplaceGoal(goals: seq<Goal>, text: string, source: Writer): seq<Goal> {
    WithoutActiveGoals(goals) + [Goal(text, source, true)]
  }

  function WithoutActiveIntents(intents: seq<Intent>): seq<Intent> {
    seq(|intents|, i requires 0 <= i < |intents| => intents[i].(active := false))
  }

  function NewIntents(fields: seq<IntentFields>, source: Writer): seq<Intent> {
    seq(|fields|, i requires 0 <= i < |fields| => Intent(fields[i], source, true, 1))
  }

  function CountActive(intents: seq<Intent>): nat {
    if intents == [] then 0
    else CountActive(intents[..|intents| - 1]) + (if intents[|intents| - 1].active then 1 else 0)
  }

  // --------------------------------------------------------------- compilation

  /** The row number of the last active goal. */
  function ActiveGoal(goals: seq<Goal>): Option<int> {
    if goals == [] then None
    else if goals[|goals| - 1].active then Some(|goals| - 1)
    else ActiveGoal(goals[..|goals| - 1])
  }

  /** Places a row behind the ones of at least its priority; among equals the older row comes first. */
  function PlaceIntent(intents: seq<Intent>, listed: seq<int>, row: int): seq<int>
    requires 0 <= row < |intents| && forall k | 0 <= k < |listed| :: 0 <= listed[k] < |intents|
  {
    if listed == [] || intents[listed[|listed| - 1]].fields.priority >= intents[row].fields.priority then listed + [row]
    else PlaceIntent(intents, listed[..|listed| - 1], row) + [listed[|listed| - 1]]
  }

  /** The active rows among the first `n`, highest priority first, older first among equals. */
  function Listing(intents: seq<Intent>, n: nat): (listed: seq<int>)
    requires n <= |intents|
    ensures forall k | 0 <= k < |listed| :: 0 <= listed[k] < n
  {
    if n == 0 then []
    else
      var before := Listing(intents, n - 1);
      if intents[n - 1].active then PlacedInRange(intents, before, n - 1); PlaceIntent(intents, before, n - 1)
          else before
  }

  lemma {:induction false} PlacedInRange(intents: seq<Intent>, listed: seq<int>, row: int)
    requires 0 <= row < |intents| && forall k | 0 <= k < |listed| :: 0 <= listed[k] <= row
    ensures forall r :: r in PlaceIntent(intents, listed, row) <==> r in listed || r == row
    ensures forall k | 0 <= k < |PlaceIntent(intents, listed, row)| :: 0 <= PlaceIntent(intents, listed, row)[k] <= row
    ensures |PlaceIntent(intents, listed, row)| == |listed| + 1
  {
    if !(listed == [] || intents[listed[|listed| - 1]].fields.priority >= intents[row].fields.priority) {
      var before := listed[..|listed| - 1];
      assert listed == before + [listed[|listed| - 1]];
      PlacedInRange(intents, before, row);
    }
  }

  function Compiled(row: int, intent: Intent): CompiledIntent {
    CompiledIntent(row + 1, intent.fields.watchFor, intent.fields.triggerWhen, intent.fields.instruction,
                   intent.fields.policy, intent.source)
  }

  function CompiledIntents(intents: seq<Intent>): seq<CompiledIntent> {
    var listed := Listing(intents, |intents|);
    seq(|listed|, k requires 0 <= k < |listed| => Compiled(listed[k], intents[listed[k]]))
  }

  function CompileContext(revision: int, goals: seq<Goal>, intents: seq<Intent>, settings: Option<Boundary>): Context {
    var goal := ActiveGoal(goals);
    ActiveGoalIsActive(goals);
    Context(revision,
            if goal.Some? then Some(CompiledGoal(goal.value + 1, goals[goal.value].text, goals[goal.value].source))
                else None,
            CompiledIntents(intents),
            if settings.Some? then settings.value else Boundary(true, true, true, true))
  }

  lemma {:induction false} ActiveGoalIsActive(goals: seq<Goal>)
    ensures ActiveGoal(goals).Some? ==> 0 <= ActiveGoal(goals).value < |goals| && goals[ActiveGoal(goals).value].active
    ensures ActiveGoal(goals).None? <==> forall i | 0 <= i < |goals| :: !goals[i].active
  {
    if goals != [] {
      var before := goals[..|goals| - 1];
      ActiveGoalIsActive(before);
      assert forall i | 0 <= i < |before| :: goals[i] == before[i];
    }
  }

  /** Row `left` is listed before row `right`. */
  predicate Precedes(intents: seq<Intent>, left: int, right: int)
    requires 0 <= left < |intents| && 0 <= right < |intents|
  {
    || intents[left].fields.priority > intents[right].fields.priority
    || (intents[left].fields.priority == intents[right].fields.priority && left < right)
  }

  ghost predicate InOrder(intents: seq<Intent>, listed: seq<int>) {
    && (forall k | 0 <= k < |listed| :: 0 <= listed[k] < |intents|)
    && (forall j, k | 0 <= j < k < |listed| :: Precedes(intents, listed[j], listed[k]))
  }

  lemma {:induction false} PlacingKeepsOrder(intents: seq<Intent>, listed: seq<int>, row: int)
    requires InOrder(intents, listed) && 0 <= row < |intents| && forall k | 0 <= k < |listed| :: listed[k] < row
    ensures InOrder(intents, PlaceIntent(intents, listed, row))
  {
    if !(listed == [] || intents[listed[|listed| - 1]].fields.priority >= intents[row].fields.priority) {
      var last := listed[|listed| - 1];
      var before := listed[..|listed| - 1];
      PlacingKeepsOrder(intents, before, row);
      PlacedInRange(intents, before, row);
      var placed := PlaceIntent(intents, before, row);
      forall j | 0 <= j < |placed| ensures Precedes(intents, placed[j], last) {
        assert placed[j] in before || placed[j] == row;
      }
    }
  }

  lemma {:induction false} ListingMembers(intents: seq<Intent>, n: nat)
    requires n <= |intents|
    ensures forall r :: r in Listing(intents, n) <==> 0 <= r < n && intents[r].active
    decreases n
  {
    if n > 0 {
      ListingMembers(intents, n - 1);
      if intents[n - 1].active { PlacedInRange(intents, Listing(intents, n - 1), n - 1); }
    }
  }

  lemma {:induction false} ListingLength(intents: seq<Intent>, n: nat)
    requires n <= |intents|
    ensures |Listing(intents, n)| == CountActive(intents[..n])
    decreases n
  {
    if n == 0 {
      assert intents[..0] == [];
    } else {
      assert intents[..n][..n - 1] == intents[..n - 1];
      ListingLength(intents, n - 1);
      if intents[n - 1].active { PlacedInRange(intents, Listing(intents, n - 1), n - 1); }
    }
  }

  /**
   * The listing is the active rows by descending priority, then identifier: exactly those, each
   * once, in that order.
   */
  lemma {:induction false} ListingIsOrdered(intents: seq<Intent>, n: nat)
    requires n <= |intents|
    ensures InOrder(intents, Listing(intents, n))
    ensures forall r :: r in Listing(intents, n) <==> 0 <= r < n && intents[r].active
    ensures |Listing(intents, n)| == CountActive(intents[..n])
    decreases n
  {
    ListingMembers(intents, n);
    ListingLength(intents, n);
    if n > 0 {
      ListingIsOrdered(intents, n - 1);
      if intents[n - 1].active { PlacingKeepsOrder(intents, Listing(intents, n - 1), n - 1); }
    }
  }

  // ----------------------------------------------------------- decoding a draft

  datatype Payload = Payload(goal: string, intents: seq<IntentFields>, boundary: Boundary)

  /** Absent and null leave the zero value; any other type is a decoding error. */
  function StringField(value: Option<Json>): Option<string> {
    if value.None? || value.value.Null? then Some("") else if value.value.Str? then Some(value.value.s) else None
  }

  function BoolField(value: Option<Json>): Option<bool> {
    if value.None? || value.value.Null? then Some(false) else if value.value.Bool? then Some(value.value.b) else None
  }

  function PriorityField(value: Option<Json>): Option<int> {
    if value.None? || value.value.Null? then Some(0)
    else if value.value.Num? && value.value.n == (value.value.n.Floor as real)
        && -32768 <= value.value.n.Floor <= 32767 then Some(value.value.n.Floor)
    else None
  }

  function DecodeIntent(value: Json): Option<IntentFields> {
    if value.Null? then Some(IntentFields("", "", "", "", 0))
    else if !value.Obj? then None
    else
      var watchFor, triggerWhen := StringField(Lookup(value.fields, "watch_for")),
          StringField(Lookup(value.fields, "trigger_when"));
      var instruction, policy := StringField(Lookup(value.fields, "action_instruction")),
          StringField(Lookup(value.fields, "action_policy"));
      var priority := PriorityField(Lookup(value.fields, "priority"));
      if watchFor.None? || triggerWhen.None? || instruction.None? || policy.None? || priority.None? then None
      else Some(IntentFields(watchFor.value, triggerWhen.value, instruction.value, policy.value, priority.value))
  }

  function DecodeIntents(items: seq<Json>): Option<seq<IntentFields>> {
    if items == [] then Some([])
    else
      var before, last := DecodeIntents(items[..|items| - 1]), DecodeIntent(items[|items| - 1]);
      if before.None? || last.None? then None else Some(before.value + [last.value])
  }

  function DecodeIntentList(value: Option<Json>): Option<seq<IntentFields>> {
    if value.None? || value.value.Null? then Some([])
    else if value.value.Arr? then DecodeIntents(value.value.items)
    else None
  }

  function DecodeBoundary(draft: Object): Option<Boundary> {
    if BOUNDARY in draft && !draft[BOUNDARY].Obj? && !draft[BOUNDARY].Null? then None
    else
      var recurring, reply := BoolField(Get(draft, [BOUNDARY, "recurring_publish"])),
          BoolField(Get(draft, [BOUNDARY, "auto_reply_pm"]));
      var comment, friend := BoolField(Get(draft, [BOUNDARY, "auto_comment"])),
          BoolField(Get(draft, [BOUNDARY, "show_add_friend"]));
      if recurring.None? || reply.None? || comment.None? || friend.None? then None
      else Some(Boundary(recurring.value, reply.value, comment.value, friend.value))
  }

  function Decode(draft: Object): Option<Payload> {
    var goal, intents := StringField(Get(draft, ["network_goal"])), DecodeIntentList(Get(draft, ["intent_actions"]));
    var boundary := DecodeBoundary(draft);
    if goal.None? || intents.None? || boundary.None? then None
        else Some(Payload(goal.value, intents.value, boundary.value))
  }

  /** The source recorded with a fact, from the provenance of its field. */
  function CanonicalSource(entries: Entries, path: Path): Writer {
    if path !in entries then HumanEdit
    else match entries[path].value
      case AgentInferred => AgentPrefill
      case AgentUserContext => AgentPrefill
      case SystemGenerated => SystemDerived
      case _ => HumanEdit
  }

  // -------------------------------------------------------------- draft writes

  datatype PutRequest = PutRequest(
    key: string, hash: string, expected: int, byHuman: bool, incoming: Object, requested: map<Path, Source>, now: int)

  function Record(db: Db, operation: Operation, key: string, hash: string, reply: Reply): Db {
    db.(receipts := db.receipts[(operation, key) := Receipt(hash, reply)])
  }

  /** What a recorded request answers when it arrives again. */
  function Again(db: Db, operation: Operation, key: string, hash: string): Reply
    requires (operation, key) in db.receipts
  {
    if db.receipts[(operation, key)].hash == hash then db.receipts[(operation, key)].reply else Conflict
  }

  function SaveDraft(db: Db, r: PutRequest): Db
    requires db.onboarding.revision in db.drafts
  {
    var revision := db.onboarding.revision + 1;
    db.(onboarding := db.onboarding.(revision := revision),
        drafts := db.drafts[revision :=
                            AfterPut(db.drafts[db.onboarding.revision], r.byHuman, r.incoming, r.requested, r.now)])
  }

  function AcceptedDraft(db: Db, r: PutRequest): (Db, Reply)
    requires db.onboarding.revision in db.drafts
  {
    var reply := Saved(db.onboarding.revision + 1);
    (Record(SaveDraft(db, r), DraftPut, r.key, r.hash, reply), reply)
  }

  function PutDraftTx(db: Db, r: PutRequest): (Db, Reply) {
    if r.expected <= 0 || (!r.byHuman && !RequestAccepted(r.requested)) then (db, Invalid)
    else if (DraftPut, r.key) in db.receipts then (db, Again(db, DraftPut, r.key, r.hash))
    else if db.onboarding.completed || db.onboarding.revision != r.expected
        || db.onboarding.revision !in db.drafts then (db, Conflict)
    else AcceptedDraft(db, r)
  }

  // -------------------------------------------------------------- confirmations

  /**
   * `normalized` is the newest draft after normalisation, if it can be normalised;
   * `textOk` stands for the text rules, `profileOk` for the profile version check.
   */
  datatype ConfirmRequest = ConfirmRequest(
    key: string, hash: string, expected: int, step: int, normalized: Option<Object>, emailBound: bool, textOk: bool,
        profileOk: bool, now: int)

  predicate CanConfirm(o: Onboarding, step: int) {
    !o.completed && step >= 2 && step <= o.step
  }

  function NextStep(current: int, confirmed: int): int {
    if confirmed == current && current < 5 then current + 1 else current
  }

  predicate StepValid(payload: Payload, step: int, textOk: bool) {
    && textOk
    && (step == 3 ==> !Blank(payload.goal))
    && (step == 4 ==> |payload.intents| <= INTENT_LIMIT)
  }

  function ApplyStep(db: Db, step: int, payload: Payload, entries: Entries): Db {
    if step == 3 then db.(goals := ReplaceGoal(db.goals, payload.goal, CanonicalSource(entries, ["network_goal"])))
    else if step == 4 then
      db.(intents := WithoutActiveIntents(db.intents)
          + NewIntents(payload.intents, CanonicalSource(entries, ["intent_actions"])))
    else if step == 5 then db.(settings := Some(payload.boundary))
    else db
  }

  /** Compiles the facts as the next revision and makes it the active one. */
  function Activate(db: Db): Db {
    var revision := db.current + 1;
    db.(current := revision, active := Some(revision),
        revisions := db.revisions[revision := CompileContext(revision, db.goals, db.intents, db.settings)])
  }

  /** The draft row a confirmation appends. */
  function ConfirmedDraft(s: Stored, r: ConfirmRequest): Stored
    requires r.normalized.Some?
  {
    Stored(r.normalized.value,
           ConfirmedEntries(StepPaths(r.step), r.normalized.value, Effective(s, r.normalized.value, r.now), r.now),
               HumanEdit)
  }

  /** Moves the step machine on; the last step activates the first context. */
  function AdvanceOnboarding(db: Db, step: int): Db {
    var revision := db.onboarding.revision + 1;
    if step == 5 && step == db.onboarding.step then
      var activated := Activate(db);
      activated.(onboarding := Onboarding(true, 5, revision, Some(activated.current)))
    else db.(onboarding := db.onboarding.(step := NextStep(db.onboarding.step, step), revision := revision))
  }

  /** A confirmation whose checks have passed. */
  function ApplyConfirmation(db: Db, r: ConfirmRequest, payload: Payload): Db
    requires r.normalized.Some? && db.onboarding.revision in db.drafts
  {
    var draft := ConfirmedDraft(db.drafts[db.onboarding.revision], r);
    var applied := AdvanceOnboarding(ApplyStep(db, r.step, payload, draft.entries), r.step);
    applied.(drafts := db.drafts[db.onboarding.revision + 1 := draft], confirmed := db.confirmed + [r.step])
  }

  function ConfirmReply(db: Db, step: int): Reply {
    Confirmed(db.onboarding.completed, db.onboarding.step, db.onboarding.revision,
              if db.onboarding.completed then db.onboarding.activeContext else None)
  }

  function ConfirmTx(db: Db, r: ConfirmRequest): (Db, Reply) {
    if r.step < 2 || r.step > 5 || r.expected <= 0 then (db, Invalid)
    else if (StepConfirm, r.key) in db.receipts then (db, Again(db, StepConfirm, r.key, r.hash))
    else if !CanConfirm(db.onboarding, r.step) || db.onboarding.revision != r.expected
        || db.onboarding.revision !in db.drafts then (db, Conflict)
    else if !r.emailBound then (db, EmailRequired)
    else if r.normalized.None? then (db, Invalid)
    else
      var payload := Decode(r.normalized.value);
      if payload.None? || !StepValid(payload.value, r.step, r.textOk) then (db, Invalid)
      else if r.step == 2 && !r.profileOk then (db, Conflict)
      else
        var applied := ApplyConfirmation(db, r, payload.value);
        var reply := ConfirmReply(applied, r.step);
        (Record(applied, StepConfirm, r.key, r.hash, reply), reply)
  }

  // ---------------------------------------------------------- context mutations

  datatype Mutation =
    | PutGoal(text: string)
    | CreateIntent(fields: IntentFields)
    | UpdateIntent(id: int, fields: IntentFields)
    | DeleteIntent(id: int)
    | PutBoundary(boundary: Boundary)

  /** `textOk` stands for the text rules of the request. */
  datatype MutationRequest = MutationRequest(key: string, hash: string, expected: int, textOk: bool, mutation: Mutation)

  function OperationOf(m: Mutation): Operation {
    match m
    case PutGoal(_) => GoalPut
    case CreateIntent(_) => IntentCreate
    case UpdateIntent(_, _) => IntentUpdate
    case DeleteIntent(_) => IntentDelete
    case PutBoundary(_) => BoundaryPut
  }

  predicate IntentExists(db: Db, id: int) {
    1 <= id <= |db.intents| && db.intents[id - 1].active
  }

  /** The facts after a mutation, or the error that rolls it back. */
  function Mutate(db: Db, m: Mutation): (Db, Option<Reply>) {
    match m
    case PutGoal(text) => (db.(goals := ReplaceGoal(db.goals, text, HumanEdit)), None)
    case CreateIntent(fields) =>
      if CountActive(db.intents) >= INTENT_LIMIT then (db, Some(LimitReached))
      else (db.(intents := db.intents + [Intent(fields, HumanEdit, true, 1)]), None)
    case UpdateIntent(id, fields) =>
      if !IntentExists(db, id) then (db, Some(NotFound))
      else (db.(intents := db.intents[id - 1 := Intent(fields, HumanEdit, true, db.intents[id - 1].version + 1)]), None)
    case DeleteIntent(id) =>
      if !IntentExists(db, id) then (db, Some(NotFound))
      else (db.(intents := db.intents[id - 1 :=
                                      db.intents[id - 1].(active := false, version := db.intents[id - 1].version + 1)]),
                                          None)
    case PutBoundary(boundary) => (db.(settings := Some(boundary)), None)
  }

  function MutateTx(db: Db, r: MutationRequest): (Db, Reply) {
    var operation := OperationOf(r.mutation);
    if !r.textOk || r.expected <= 0 then (db, Invalid)
    else if (operation, r.key) in db.receipts then (db, Again(db, operation, r.key, r.hash))
    else if db.active != Some(r.expected) then (db, Conflict)
    else
      var (changed, error) := Mutate(db, r.mutation);
      if error.Some? then (db, error.value)
      else if !db.onboarding.completed then (db, Conflict)
      else
        var activated := Activate(changed);
        var reply := Changed(activated.current);
        (Record(activated.(onboarding := activated.onboarding.(activeContext := Some(activated.current))), operation,
                r.key, r.hash, reply), reply)
  }

  // --------------------------------------------------------------------- runs

  datatype Op = Put(put: PutRequest) | Confirm(confirm: ConfirmRequest) | Change(change: MutationRequest)

  function Transact(db: Db, op: Op): (Db, Reply) {
    match op
    case Put(r) => PutDraftTx(db, r)
    case Confirm(r) => ConfirmTx(db, r)
    case Change(r) => MutateTx(db, r)
  }

  function Run(db: Db, ops: seq<Op>): Db
    decreases |ops|
  {
    if ops == [] then db else Run(Transact(db, ops[0]).0, ops[1..])
  }
}
