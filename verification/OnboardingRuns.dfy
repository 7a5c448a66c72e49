/**
 * What holds of onboarding and of the compiled context over whole runs: the
 * cache agrees with the facts, revisions are dense, steps come in order, and a
 * replayed request changes nothing.
 */
module OnboardingRuns {
  import opened Common
  import opened DraftOwnership
  import opened OnboardingContext

  // ---------------------------------------------------------------- invariants

  ghost predicate OneGoalAtMost(goals: seq<Goal>) {
    forall i, j | 0 <= i < j < |goals| :: !(goals[i].active && goals[j].active)
  }

  ghost predicate FactsOk(db: Db) {
    && OneGoalAtMost(db.goals)
    && CountActive(db.intents) <= INTENT_LIMIT
    && (db.onboarding.step > 3 ==> ActiveGoal(db.goals).Some?)
  }

  ghost predicate DraftsDense(db: Db) {
    db.onboarding.revision >= 1 && forall k :: k in db.drafts <==> 1 <= k <= db.onboarding.revision
  }

  ghost predicate HistoryDense(db: Db) {
    && db.current >= 0
    && (forall k :: k in db.revisions <==> 1 <= k <= db.current)
    && (forall k | k in db.revisions :: db.revisions[k].revision == k)
  }

  /** Head, active and onboarding revisions agree, and the cached context is the compilation of the facts. */
  ghost predicate CacheAgrees(db: Db) {
    if db.onboarding.completed then
      && db.onboarding.step == 5 && db.current >= 1
      && db.active == Some(db.current) && db.onboarding.activeContext == Some(db.current)
      && db.current in db.revisions
      && db.revisions[db.current] == CompileContext(db.current, db.goals, db.intents, db.settings)
    else db.current == 0 && db.active.None? && db.onboarding.activeContext.None?
  }

  /** The position of the first confirmation of a step, or the length of the log. */
  function First(log: seq<int>, step: int): nat {
    if log == [] then 0
    else if First(log[..|log| - 1], step) < |log| - 1 then First(log[..|log| - 1], step)
    else if log[|log| - 1] == step then |log| - 1
    else |log|
  }

  lemma {:induction false} FirstIsFirst(log: seq<int>, step: int)
    ensures First(log, step) <= |log|
    ensures First(log, step) < |log| ==> log[First(log, step)] == step
    ensures forall i | 0 <= i < First(log, step) :: log[i] != step
  {
    if log != [] {
      var before := log[..|log| - 1];
      FirstIsFirst(before, step);
      assert forall i | 0 <= i < |before| :: before[i] == log[i];
    }
  }

  /** The first step not yet confirmed. */
  function Reached(o: Onboarding): int {
    if o.completed then 6 else o.step
  }

  /** Exactly the steps below `reached` have been confirmed, first confirmations in ascending order. */
  ghost predicate LogOk(log: seq<int>, reached: int) {
    && (forall k | 2 <= k < reached :: First(log, k) < |log|)
    && (forall k | k >= reached :: First(log, k) == |log|)
    && (forall k | 2 <= k < reached - 1 :: First(log, k) < First(log, k + 1))
  }

  ghost predicate Inv(db: Db) {
    && 2 <= db.onboarding.step <= 5
    && FactsOk(db) && DraftsDense(db) && HistoryDense(db) && CacheAgrees(db)
    && LogOk(db.confirmed, Reached(db.onboarding))
  }

  // -------------------------------------------------------------------- counting

  lemma {:induction false} CountAppend(left: seq<Intent>, right: seq<Intent>)
    ensures CountActive(left + right) == CountActive(left) + CountActive(right)
  {
    if right == [] {
      assert left + right == left;
    } else {
      assert (left + right)[..|left + right| - 1] == left + right[..|right| - 1];
      CountAppend(left, right[..|right| - 1]);
    }
  }

  lemma {:induction false} CountBounds(intents: seq<Intent>)
    ensures CountActive(intents) <= |intents|
    ensures (forall i | 0 <= i < |intents| :: !intents[i].active) ==> CountActive(intents) == 0
  {
    if intents != [] {
      CountBounds(intents[..|intents| - 1]);
      assert forall i | 0 <= i < |intents| - 1 :: intents[..|intents| - 1][i] == intents[i];
    }
  }

  lemma CountUpdate(intents: seq<Intent>, i: int, intent: Intent)
    requires 0 <= i < |intents| && intents[i].active
    ensures CountActive(intents[i := intent]) == CountActive(intents) - (if intent.active then 0 else 1)
  {
    assert intents == intents[..i] + [intents[i]] + intents[i + 1..];
    assert intents[i := intent] == intents[..i] + [intent] + intents[i + 1..];
    CountAppend(intents[..i] + [intents[i]], intents[i + 1..]);
    CountAppend(intents[..i], [intents[i]]);
    CountAppend(intents[..i] + [intent], intents[i + 1..]);
    CountAppend(intents[..i], [intent]);
  }

  lemma ReplacedGoal(goals: seq<Goal>, text: string, source: Writer)
    ensures OneGoalAtMost(ReplaceGoal(goals, text, source))
    ensures ActiveGoal(ReplaceGoal(goals, text, source)) == Some(|goals|)
  {
  }

  lemma ReplacedIntents(intents: seq<Intent>, fields: seq<IntentFields>, source: Writer)
    ensures CountActive(WithoutActiveIntents(intents) + NewIntents(fields, source)) <= |fields|
  {
    CountAppend(WithoutActiveIntents(intents), NewIntents(fields, source));
    CountBounds(WithoutActiveIntents(intents));
    CountBounds(NewIntents(fields, source));
  }

  // ---------------------------------------------------------------------- the log

  lemma FirstAfter(log: seq<int>, step: int, k: int)
    ensures First(log + [step], k) == if First(log, k) < |log| then First(log, k) else if k == step then |log|
        else |log| + 1
  {
    assert (log + [step])[..|log|] == log;
    FirstIsFirst(log, k);
  }

  lemma LogGrows(log: seq<int>, reached: int, step: int)
    requires LogOk(log, reached) && 2 <= step <= reached
    ensures LogOk(log + [step], if step == reached then reached + 1 else reached)
  {
    var next := if step == reached then reached + 1 else reached;
    forall k | 2 <= k < next ensures First(log + [step], k) < |log + [step]| {
      FirstAfter(log, step, k);
    }
    forall k | k >= next ensures First(log + [step], k) == |log + [step]| {
      FirstAfter(log, step, k);
    }
    forall k | 2 <= k < next - 1 ensures First(log + [step], k) < First(log + [step], k + 1) {
      FirstAfter(log, step, k);
      FirstAfter(log, step, k + 1);
    }
  }

  // ------------------------------------------------------------ writes keep them

  lemma RecordKeeps(db: Db, operation: Operation, key: string, hash: string, reply: Reply)
    requires Inv(db)
    ensures Inv(Record(db, operation, key, hash, reply))
  {
  }

  lemma SaveDraftKeeps(db: Db, r: PutRequest)
    requires Inv(db) && !db.onboarding.completed && db.onboarding.revision in db.drafts
    ensures Inv(SaveDraft(db, r))
  {
    hide AfterPut, CompileContext;
  }

  lemma ApplyStepFacts(db: Db, step: int, payload: Payload, entries: Entries)
    requires FactsOk(db) && (step == 4 ==> |payload.intents| <= INTENT_LIMIT)
    ensures FactsOk(ApplyStep(db, step, payload, entries))
    ensures step == 3 ==> ActiveGoal(ApplyStep(db, step, payload, entries).goals).Some?
  {
    if step == 3 {
      ReplacedGoal(db.goals, payload.goal, CanonicalSource(entries, ["network_goal"]));
    } else if step == 4 {
      ReplacedIntents(db.intents, payload.intents, CanonicalSource(entries, ["intent_actions"]));
    }
  }

  lemma ConfirmationKeeps(db: Db, r: ConfirmRequest, payload: Payload)
    requires Inv(db) && r.normalized.Some? && db.onboarding.revision in db.drafts
    requires CanConfirm(db.onboarding, r.step) && StepValid(payload, r.step, r.textOk)
    ensures Inv(ApplyConfirmation(db, r, payload))
  {
    hide ConfirmedDraft, CompiledIntents, ActiveGoal;
    var draft := ConfirmedDraft(db.drafts[db.onboarding.revision], r);
    var facts := ApplyStep(db, r.step, payload, draft.entries);
    ApplyStepFacts(db, r.step, payload, draft.entries);
    var db' := ApplyConfirmation(db, r, payload);
    LogGrows(db.confirmed, Reached(db.onboarding), r.step);
    assert db'.goals == facts.goals && db'.intents == facts.intents && db'.settings == facts.settings;
    assert FactsOk(db');
    assert DraftsDense(db');
    assert HistoryDense(db') && CacheAgrees(db');
    assert Reached(db'.onboarding) == if r.step == db.onboarding.step then r.step + 1 else db.onboarding.step;
  }

  lemma CountOfOne(intent: Intent)
    ensures CountActive([intent]) == if intent.active then 1 else 0
  {
    var intents := [intent];
    assert intents[..|intents| - 1] == [];
  }

  lemma MutationFacts(db: Db, m: Mutation)
    requires FactsOk(db) && db.onboarding.step == 5
    ensures FactsOk(Mutate(db, m).0)
  {
    hide OneGoalAtMost, ActiveGoal, CountActive, ReplaceGoal;
    match m
    case PutGoal(text) => ReplacedGoal(db.goals, text, HumanEdit);
    case CreateIntent(fields) =>
      CountAppend(db.intents, [Intent(fields, HumanEdit, true, 1)]);
      CountOfOne(Intent(fields, HumanEdit, true, 1));
    case UpdateIntent(id, fields) =>
      if IntentExists(db, id) {
        CountUpdate(db.intents, id - 1, Intent(fields, HumanEdit, true, db.intents[id - 1].version + 1));
      }
    case DeleteIntent(id) =>
      if IntentExists(db, id) {
        CountUpdate(db.intents, id - 1,
                    db.intents[id - 1].(active := false, version := db.intents[id - 1].version + 1));
      }
    case PutBoundary(boundary) =>
  }

  /** Facts changed by a mutation, then compiled and activated. */
  function Mutated(db: Db, m: Mutation): Db {
    var activated := Activate(Mutate(db, m).0);
    activated.(onboarding := activated.onboarding.(activeContext := Some(activated.current)))
  }

  lemma MutationOnlyFacts(db: Db, m: Mutation)
    ensures var db' := Mutate(db, m).0; db' == db.(goals := db'.goals, intents := db'.intents, settings := db'.settings)
  {
  }

  lemma MutatedKeeps(db: Db, m: Mutation)
    requires Inv(db) && db.onboarding.completed
    ensures Inv(Mutated(db, m))
  {
    hide CompiledIntents, ActiveGoal;
    MutationFacts(db, m);
    MutationOnlyFacts(db, m);
  }

  lemma PutKeeps(db: Db, r: PutRequest)
    requires Inv(db)
    ensures Inv(PutDraftTx(db, r).0)
  {
    hide AfterPut, CompileContext;
    var db' := PutDraftTx(db, r).0;
    if db' != db {
      SaveDraftKeeps(db, r);
      RecordKeeps(SaveDraft(db, r), DraftPut, r.key, r.hash, Saved(db.onboarding.revision + 1));
    }
  }

  lemma ConfirmKeeps(db: Db, r: ConfirmRequest)
    requires Inv(db)
    ensures Inv(ConfirmTx(db, r).0)
  {
    hide ConfirmedDraft, Decode, CompileContext;
    var db' := ConfirmTx(db, r).0;
    if db' != db {
      var payload := Decode(r.normalized.value).value;
      var applied := ApplyConfirmation(db, r, payload);
      ConfirmationKeeps(db, r, payload);
      RecordKeeps(applied, StepConfirm, r.key, r.hash, ConfirmReply(applied, r.step));
    }
  }

  lemma ChangeKeeps(db: Db, r: MutationRequest)
    requires Inv(db)
    ensures Inv(MutateTx(db, r).0)
  {
    var db' := MutateTx(db, r).0;
    if db' != db {
      MutatedKeeps(db, r.mutation);
      RecordKeeps(Mutated(db, r.mutation), OperationOf(r.mutation), r.key, r.hash,
                  Changed(Mutated(db, r.mutation).current));
    }
  }

  lemma {:induction false} RunKeeps(db: Db, ops: seq<Op>)
    requires Inv(db)
    ensures Inv(Run(db, ops))
    decreases |ops|
  {
    if ops != [] {
      match ops[0] {
        case Put(r) => PutKeeps(db, r);
        case Confirm(r) => ConfirmKeeps(db, r);
        case Change(r) => ChangeKeeps(db, r);
      }
      RunKeeps(Transact(db, ops[0]).0, ops[1..]);
    }
  }

  function Start(draft: Stored, ops: seq<Op>): Db {
    Run(Provisioned(draft), ops)
  }

  lemma Reachable(draft: Stored, ops: seq<Op>)
    ensures Inv(Start(draft, ops))
  {
    assert Inv(Provisioned(draft));
    RunKeeps(Provisioned(draft), ops);
  }

  // ----------------------------------------------------- the cache and the facts

  /**
   * After completion, in every reachable state: the head, the active revision and
   * the onboarding row agree, and the stored context is what compiling the
   * current facts gives.
   */
  lemma ActiveContextIsCurrent(draft: Stored, ops: seq<Op>)
    requires Start(draft, ops).onboarding.completed
    ensures var db := Start(draft, ops);
            && db.active == Some(db.current) && db.onboarding.activeContext == db.active
            && db.current in db.revisions
            && db.revisions[db.current] == CompileContext(db.current, db.goals, db.intents, db.settings)
  {
    Reachable(draft, ops);
  }

  /** The active goal of the table, if there is one. */
  ghost predicate DescribesGoal(goal: Option<CompiledGoal>, goals: seq<Goal>) {
    && (goal.None? <==> forall i | 0 <= i < |goals| :: !goals[i].active)
    && (goal.Some? ==> 1 <= goal.value.id <= |goals|)
    && (goal.Some? ==> goals[goal.value.id - 1] == Goal(goal.value.text, goal.value.source, true))
  }

  /** A compiled intent is an active row. */
  predicate FromRow(c: CompiledIntent, intents: seq<Intent>) {
    1 <= c.id <= |intents| && intents[c.id - 1].active && c == Compiled(c.id - 1, intents[c.id - 1])
  }

  ghost predicate RowsAreActive(list: seq<CompiledIntent>, intents: seq<Intent>) {
    forall k | 0 <= k < |list| :: FromRow(list[k], intents)
  }

  ghost predicate RowsAreOrdered(list: seq<CompiledIntent>, intents: seq<Intent>)
    requires RowsAreActive(list, intents)
  {
    forall j, k | 0 <= j < k < |list| :: Precedes(intents, list[j].id - 1, list[k].id - 1)
  }

  ghost predicate ListsEveryActiveRow(list: seq<CompiledIntent>, intents: seq<Intent>) {
    forall i | 0 <= i < |intents| && intents[i].active :: exists k :: 0 <= k < |list| && list[k].id == i + 1
  }

  /** Exactly the active rows, by descending priority and then identifier. */
  ghost predicate DescribesIntents(list: seq<CompiledIntent>, intents: seq<Intent>) {
    RowsAreActive(list, intents) && RowsAreOrdered(list, intents) && ListsEveryActiveRow(list, intents)
  }

  /** What a compiled context says, read off the fact tables. */
  ghost predicate Describes(c: Context, goals: seq<Goal>, intents: seq<Intent>, settings: Option<Boundary>) {
    && DescribesGoal(c.goal, goals) && DescribesIntents(c.intents, intents)
    && c.boundary == (if settings.Some? then settings.value else Boundary(true, true, true, true))
  }

  /** Place `k` of the compiled list comes from place `k` of the listing. */
  lemma CompiledRow(intents: seq<Intent>, k: int)
    requires 0 <= k < |CompiledIntents(intents)|
    ensures k < |Listing(intents, |intents|)| && CompiledIntents(intents)[k].id - 1 == Listing(intents, |intents|)[k]
    ensures FromRow(CompiledIntents(intents)[k], intents)
  {
    ListingMembers(intents, |intents|);
    assert Listing(intents, |intents|)[k] in Listing(intents, |intents|);
  }

  lemma ActiveRowIsCompiled(intents: seq<Intent>, i: int)
    requires 0 <= i < |intents| && intents[i].active
    ensures exists k :: 0 <= k < |CompiledIntents(intents)| && CompiledIntents(intents)[k].id == i + 1
  {
    hide Listing;
    var listed := Listing(intents, |intents|);
    ListingMembers(intents, |intents|);
    assert i in listed;
    var k :| 0 <= k < |listed| && listed[k] == i;
    assert CompiledIntents(intents)[k].id == i + 1;
  }

  lemma CompiledRowsAreActive(intents: seq<Intent>)
    ensures RowsAreActive(CompiledIntents(intents), intents)
  {
    hide CompiledIntents, FromRow, Listing;
    forall k | 0 <= k < |CompiledIntents(intents)| ensures FromRow(CompiledIntents(intents)[k], intents) {
      CompiledRow(intents, k);
    }
  }

  lemma CompiledRowsAreOrdered(intents: seq<Intent>)
    requires RowsAreActive(CompiledIntents(intents), intents)
    ensures RowsAreOrdered(CompiledIntents(intents), intents)
  {
    hide CompiledIntents, Listing, CountActive, Precedes;
    var list, listed := CompiledIntents(intents), Listing(intents, |intents|);
    ListingIsOrdered(intents, |intents|);
    forall j, k | 0 <= j < k < |list| ensures Precedes(intents, list[j].id - 1, list[k].id - 1) {
      CompiledRow(intents, j);
      CompiledRow(intents, k);
      assert Precedes(intents, listed[j], listed[k]);
    }
  }

  lemma EveryActiveRowIsCompiled(intents: seq<Intent>)
    ensures ListsEveryActiveRow(CompiledIntents(intents), intents)
  {
    hide CompiledIntents;
    forall i | 0 <= i < |intents| && intents[i].active
      ensures exists k :: 0 <= k < |CompiledIntents(intents)| && CompiledIntents(intents)[k].id == i + 1
    {
      ActiveRowIsCompiled(intents, i);
    }
  }

  lemma CompiledIntentsDescribe(intents: seq<Intent>)
    ensures DescribesIntents(CompiledIntents(intents), intents) && |CompiledIntents(intents)| == CountActive(intents)
  {
    hide Listing, CountActive, RowsAreActive, RowsAreOrdered, ListsEveryActiveRow, InOrder;
    CompiledRowsAreActive(intents);
    CompiledRowsAreOrdered(intents);
    EveryActiveRowIsCompiled(intents);
    ListingIsOrdered(intents, |intents|);
    assert intents[..|intents|] == intents;
  }

  lemma CompilationDescribes(revision: int, goals: seq<Goal>, intents: seq<Intent>, settings: Option<Boundary>)
    ensures Describes(CompileContext(revision, goals, intents, settings), goals, intents, settings)
    ensures |CompileContext(revision, goals, intents, settings).intents| == CountActive(intents)
  {
    CompiledIntentsDescribe(intents);
    ActiveGoalIsActive(goals);
  }

  /**
   * After completion there is exactly one active goal and at most ten active
   * intents, and the active context lists that goal and exactly those intents,
   * by descending priority and then identifier.
   */
  lemma CompletedFacts(draft: Stored, ops: seq<Op>)
    requires Start(draft, ops).onboarding.completed
    ensures var db := Start(draft, ops);
            && OneGoalAtMost(db.goals) && ActiveGoal(db.goals).Some?
            && db.current in db.revisions
            && Describes(db.revisions[db.current], db.goals, db.intents, db.settings)
            && db.revisions[db.current].goal.Some?
            && |db.revisions[db.current].intents| == CountActive(db.intents) <= INTENT_LIMIT
  {
    Reachable(draft, ops);
    var db := Start(draft, ops);
    CompilationDescribes(db.current, db.goals, db.intents, db.settings);
  }

  // ------------------------------------------------------------- linear history

  /** Either no context revision was made, or exactly the next one was, on top of an unchanged history. */
  predicate AtMostOneRevision(db: Db, db': Db) {
    || (db'.current == db.current && db'.revisions == db.revisions)
    || (db'.current == db.current + 1 && db'.current in db'.revisions
        && db'.revisions == db.revisions[db'.current := db'.revisions[db'.current]])
  }

  lemma PutKeepsRevisions(db: Db, r: PutRequest)
    ensures AtMostOneRevision(db, PutDraftTx(db, r).0)
  {
    hide AfterPut;
  }

  lemma ConfirmStepsRevision(db: Db, r: ConfirmRequest)
    ensures AtMostOneRevision(db, ConfirmTx(db, r).0)
  {
    hide ConfirmedDraft, Decode, CompileContext;
    if ConfirmTx(db, r).0 != db {
      var payload := Decode(r.normalized.value).value;
      var draft := ConfirmedDraft(db.drafts[db.onboarding.revision], r);
      var facts := ApplyStep(db, r.step, payload, draft.entries);
      assert facts.current == db.current && facts.revisions == db.revisions;
      assert ConfirmTx(db, r).0.revisions == ApplyConfirmation(db, r, payload).revisions;
    }
  }

  lemma ChangeStepsRevision(db: Db, r: MutationRequest)
    ensures AtMostOneRevision(db, MutateTx(db, r).0)
    ensures MutateTx(db, r).0 != db ==>
              && MutateTx(db, r).0.current == db.current + 1
              && MutateTx(db, r).1 == Changed(db.current + 1) && db.active == Some(r.expected)
  {
    hide Mutate, CompileContext;
    if MutateTx(db, r).0 != db {
      MutationOnlyFacts(db, r.mutation);
      assert MutateTx(db, r).0.revisions == Activate(Mutate(db, r.mutation).0).revisions;
    }
  }

  lemma StepRevisions(db: Db, op: Op)
    ensures AtMostOneRevision(db, Transact(db, op).0)
    ensures op.Change? && Transact(db, op).0 != db ==>
              && Transact(db, op).0.current == db.current + 1
              && Transact(db, op).1 == Changed(db.current + 1) && db.active == Some(op.change.expected)
  {
    hide PutDraftTx, ConfirmTx, MutateTx, AtMostOneRevision;
    match op
    case Put(r) => PutKeepsRevisions(db, r);
    case Confirm(r) => ConfirmStepsRevision(db, r);
    case Change(r) => ChangeStepsRevision(db, r);
  }

  function CountRevisions(db: Db, ops: seq<Op>): nat
    decreases |ops|
  {
    if ops == [] then 0
    else
      var next := Transact(db, ops[0]).0;
      (if next.current != db.current then 1 else 0) + CountRevisions(next, ops[1..])
  }

  /** Revisions only ever get appended, one per successful change: old ones stay, and the head counts the changes. */
  lemma {:induction false} HistoryIsLinear(db: Db, ops: seq<Op>)
    requires HistoryDense(db)
    ensures Run(db, ops).current == db.current + CountRevisions(db, ops)
    ensures forall k | k in db.revisions :: k in Run(db, ops).revisions && Run(db, ops).revisions[k] == db.revisions[k]
    ensures HistoryDense(Run(db, ops))
    decreases |ops|
  {
    if ops != [] {
      var next := Transact(db, ops[0]).0;
      StepRevisions(db, ops[0]);
      StepHistory(db, ops[0]);
      HistoryIsLinear(next, ops[1..]);
    }
  }

  lemma StepHistory(db: Db, op: Op)
    requires HistoryDense(db)
    ensures HistoryDense(Transact(db, op).0)
  {
    hide AfterPut, ConfirmedDraft, Decode;
    var db' := Transact(db, op).0;
    StepRevisions(db, op);
    if db'.current != db.current {
      assert db'.revisions[db'.current].revision == db'.current by {
        match op
        case Put(r) =>
        case Confirm(r) => ConfirmedRevision(db, r);
        case Change(r) => MutationOnlyFacts(db, r.mutation);
      }
    }
  }

  lemma ConfirmedRevision(db: Db, r: ConfirmRequest)
    requires ConfirmTx(db, r).0.current != db.current
    ensures var db' := ConfirmTx(db, r).0;
            db'.current in db'.revisions && db'.revisions[db'.current].revision == db'.current
  {
    hide ConfirmedDraft, Decode;
    var payload := Decode(r.normalized.value).value;
    assert ConfirmTx(db, r).0.revisions == ApplyConfirmation(db, r, payload).revisions;
  }

  // --------------------------------------------------------------------- replay

  function KeyOf(op: Op): (Operation, string) {
    match op
    case Put(r) => (DraftPut, r.key)
    case Confirm(r) => (StepConfirm, r.key)
    case Change(r) => (OperationOf(r.mutation), r.key)
  }

  function HashOf(op: Op): string {
    match op
    case Put(r) => r.hash
    case Confirm(r) => r.hash
    case Change(r) => r.hash
  }

  lemma ReceiptsStay(db: Db, op: Op, id: (Operation, string))
    requires id in db.receipts
    ensures id in Transact(db, op).0.receipts && Transact(db, op).0.receipts[id] == db.receipts[id]
  {
    hide AfterPut, ConfirmedDraft, Decode, CompileContext;
    match op
    case Put(r) =>
    case Confirm(r) =>
      if ConfirmTx(db, r).0 != db {
        var payload := Decode(r.normalized.value).value;
        assert ApplyConfirmation(db, r, payload).receipts == db.receipts;
      }
    case Change(r) => MutationOnlyFacts(db, r.mutation);
  }

  lemma {:induction false} ReceiptsLast(db: Db, ops: seq<Op>, id: (Operation, string))
    requires id in db.receipts
    ensures id in Run(db, ops).receipts && Run(db, ops).receipts[id] == db.receipts[id]
    decreases |ops|
  {
    if ops != [] {
      ReceiptsStay(db, ops[0], id);
      ReceiptsLast(Transact(db, ops[0]).0, ops[1..], id);
    }
  }

  lemma SuccessIsRecorded(db: Db, op: Op)
    requires Transact(db, op).0 != db
    ensures KeyOf(op) in Transact(db, op).0.receipts
    ensures Transact(db, op).0.receipts[KeyOf(op)] == OnboardingContext.Receipt(HashOf(op), Transact(db, op).1)
  {
  }

  /** The checks made before a receipt is looked up. They read neither a clock nor a table. */
  predicate ReachesReceipt(op: Op) {
    match op
    case Put(r) => r.expected > 0 && (r.byHuman || RequestAccepted(r.requested))
    case Confirm(r) => 2 <= r.step <= 5 && r.expected > 0
    case Change(r) => r.textOk && r.expected > 0
  }

  /** The same operation, key and request hash; the time of arrival and what the tables hold may differ. */
  predicate SameRequest(op: Op, again: Op) {
    KeyOf(op) == KeyOf(again) && HashOf(op) == HashOf(again) && ReachesReceipt(again)
  }

  lemma ReplayAnswers(db: Db, op: Op, again: Op)
    requires Transact(db, op).0 != db && SameRequest(op, again)
    ensures forall later: Db | KeyOf(op) in later.receipts && later.receipts[KeyOf(op)].hash == HashOf(op) ::
              Transact(later, again) == (later, later.receipts[KeyOf(op)].reply)
  {
  }

  /** A replayed request changes nothing and gets the reply of the first time, whatever happened in between. */
  lemma ReplayChangesNothing(db: Db, op: Op, more: seq<Op>, again: Op)
    requires Transact(db, op).0 != db && SameRequest(op, again)
    ensures Transact(Run(Transact(db, op).0, more), again) == (Run(Transact(db, op).0, more), Transact(db, op).1)
  {
    SuccessIsRecorded(db, op);
    ReceiptsLast(Transact(db, op).0, more, KeyOf(op));
    ReplayAnswers(db, op, again);
  }

  /** The key of a successful request, used again for other content, is a conflict without effect. */
  lemma ReusedKeyConflicts(db: Db, op: Op, more: seq<Op>, other: Op)
    requires Transact(db, op).0 != db && KeyOf(other) == KeyOf(op) && HashOf(other) != HashOf(op)
    requires ReachesReceipt(other)
    ensures Transact(Run(Transact(db, op).0, more), other) == (Run(Transact(db, op).0, more), Conflict)
  {
    SuccessIsRecorded(db, op);
    ReceiptsLast(Transact(db, op).0, more, KeyOf(op));
    var later := Run(Transact(db, op).0, more);
    assert later.receipts[KeyOf(other)].hash == HashOf(op);
    hide Run, Activate, AcceptedDraft, ApplyConfirmation, Mutate, Decode;
  }

  // ------------------------------------------------------------ the step machine

  /** Draft revisions are exactly 1 to the onboarding revision, without gaps. */
  lemma DraftRevisionsAreDense(draft: Stored, ops: seq<Op>, k: int)
    ensures k in Start(draft, ops).drafts <==> 1 <= k <= Start(draft, ops).onboarding.revision
  {
    Reachable(draft, ops);
  }

  /** Completion takes first confirmations of the four steps, in order. */
  lemma CompletedStepsAreOrdered(draft: Stored, ops: seq<Op>)
    requires Start(draft, ops).onboarding.completed
    ensures var log := Start(draft, ops).confirmed;
            First(log, 2) < First(log, 3) < First(log, 4) < First(log, 5) < |log|
  {
    Reachable(draft, ops);
  }

  /** The current step never falls and rises by at most one; the revision rises by at most one. */
  lemma StepRisesByOne(db: Db, op: Op)
    requires Inv(db)
    ensures db.onboarding.step <= Transact(db, op).0.onboarding.step <= db.onboarding.step + 1
    ensures db.onboarding.revision <= Transact(db, op).0.onboarding.revision <= db.onboarding.revision + 1
    ensures db.onboarding.completed ==> Transact(db, op).0.onboarding.completed
  {
    hide AfterPut, ConfirmedDraft, Decode, CompileContext;
    match op
    case Put(r) =>
    case Confirm(r) =>
      if ConfirmTx(db, r).0 != db {
        var payload := Decode(r.normalized.value).value;
        var draft := ConfirmedDraft(db.drafts[db.onboarding.revision], r);
        assert ApplyStep(db, r.step, payload, draft.entries).onboarding == db.onboarding;
        assert ConfirmTx(db, r).0.onboarding == ApplyConfirmation(db, r, payload).onboarding;
      }
    case Change(r) => MutationOnlyFacts(db, r.mutation);
  }

  lemma {:induction false} StepsNeverFall(db: Db, ops: seq<Op>)
    requires Inv(db)
    ensures db.onboarding.step <= Run(db, ops).onboarding.step
    ensures db.onboarding.completed ==> Run(db, ops).onboarding.completed
    decreases |ops|
  {
    if ops != [] {
      StepRisesByOne(db, ops[0]);
      StepInv(db, ops[0]);
      StepsNeverFall(Transact(db, ops[0]).0, ops[1..]);
    }
  }

  lemma StepInv(db: Db, op: Op)
    requires Inv(db)
    ensures Inv(Transact(db, op).0)
  {
    match op
    case Put(r) => PutKeeps(db, r);
    case Confirm(r) => ConfirmKeeps(db, r);
    case Change(r) => ChangeKeeps(db, r);
  }

  /**
   * After completion no draft write and no confirmation changes anything; only a recorded request
   * gets its old answer.
   */
  lemma ClosedAfterCompletion(db: Db, op: Op)
    requires db.onboarding.completed && !op.Change?
    ensures Transact(db, op).0 == db
    ensures KeyOf(op) !in db.receipts ==> Transact(db, op).1 == Conflict || Transact(db, op).1 == Invalid
  {
  }

  // ------------------------------------------------- field ownership end to end

  function Newest(db: Db): Stored
    requires db.onboarding.revision in db.drafts
  {
    db.drafts[db.onboarding.revision]
  }

  /** The newest draft row changes only as a draft write or a confirmation does. */
  lemma NewestDraftSteps(db: Db, op: Op)
    requires Inv(db)
    ensures Transact(db, op).0.onboarding.revision in Transact(db, op).0.drafts
    ensures || Newest(Transact(db, op).0) == Newest(db)
            || (op.Put? && Newest(Transact(db, op).0)
                           == DraftStep(Newest(db),
                                        DraftOp.Put(op.put.byHuman, op.put.incoming, op.put.requested, op.put.now)))
            || (op.Confirm? && op.confirm.normalized.Some?
                && Newest(Transact(db, op).0)
                   == DraftStep(Newest(db),
                                DraftOp.Confirm(op.confirm.step, op.confirm.normalized.value, op.confirm.now)))
  {
    hide AfterPut, ConfirmedEntries, Effective, StepPaths, Decode, CompileContext;
    match op
    case Put(r) =>
    case Confirm(r) =>
      if ConfirmTx(db, r).0 != db {
        var payload := Decode(r.normalized.value).value;
        var draft := ConfirmedDraft(Newest(db), r);
        assert ApplyStep(db, r.step, payload, draft.entries).onboarding == db.onboarding;
        var db' := ApplyConfirmation(db, r, payload);
        assert db'.onboarding.revision == db.onboarding.revision + 1 && db'.drafts[db'.onboarding.revision] == draft;
        assert ConfirmTx(db, r).0.drafts == db'.drafts && ConfirmTx(db, r).0.onboarding == db'.onboarding;
      }
    case Change(r) => MutationOnlyFacts(db, r.mutation);
  }

  /** A field the human owns in the newest draft stays theirs through any further onboarding. */
  lemma {:induction false} OwnershipSurvivesOnboarding(db: Db, ops: seq<Op>, p: Path)
    requires Inv(db) && AllWellFormed(Newest(db).entries) && HumanOwns(Newest(db), p)
    ensures Run(db, ops).onboarding.revision in Run(db, ops).drafts && HumanOwns(Newest(Run(db, ops)), p)
    decreases |ops|
  {
    if ops != [] {
      var op := ops[0];
      var next := Transact(db, op).0;
      NewestDraftSteps(db, op);
      StepInv(db, op);
      if op.Put? {
        var step := DraftOp.Put(op.put.byHuman, op.put.incoming, op.put.requested, op.put.now);
        StepKeepsWellFormed(Newest(db), step);
        StepKeepsOwnership(Newest(db), step, p);
      } else if op.Confirm? && op.confirm.normalized.Some? {
        var step := DraftOp.Confirm(op.confirm.step, op.confirm.normalized.value, op.confirm.now);
        StepKeepsWellFormed(Newest(db), step);
        StepKeepsOwnership(Newest(db), step, p);
      }
      OwnershipSurvivesOnboarding(next, ops[1..], p);
    }
  }

  /** A draft write by the Agent, or a change of the control plane. */
  predicate NotByHumanDraft(op: Op) {
    op.Change? || (op.Put? && !op.put.byHuman)
  }

  /** Through Agent draft writes and control-plane changes a known field the human owns keeps value and entry. */
  lemma {:induction false} OwnedFieldsKeepTheirValue(db: Db, ops: seq<Op>, p: Path)
    requires Inv(db) && AllWellFormed(Newest(db).entries) && HumanOwns(Newest(db), p) && Known(p) && p != []
    requires forall i | 0 <= i < |ops| :: NotByHumanDraft(ops[i])
    ensures var later := Run(db, ops);
            && later.onboarding.revision in later.drafts && p in Newest(later).entries
            && Newest(later).entries[p] == Newest(db).entries[p]
            && Get(Newest(later).tree, p) == Get(Newest(db).tree, p)
    decreases |ops|
  {
    if ops != [] {
      var op := ops[0];
      var next := Transact(db, op).0;
      assert NotByHumanDraft(op);
      NewestDraftSteps(db, op);
      StepInv(db, op);
      hide Transact, Inv, DraftStep, Known, HumanOwns;
      if Newest(next) != Newest(db) {
        var step := DraftOp.Put(op.put.byHuman, op.put.incoming, op.put.requested, op.put.now);
        StepKeepsWellFormed(Newest(db), step);
        StepKeepsOwnership(Newest(db), step, p);
      }
      OwnedFieldsKeepTheirValue(next, ops[1..], p);
    }
  }
}
