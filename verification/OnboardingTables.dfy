/** The onboarding and control handlers in their own form: transactions on one Agent's rows. */
module OnboardingTables {
  import opened Common
  import opened DraftOwnership
  import opened DraftMerge
  import opened OnboardingContext

  class ControlPlane {
    var onboarding: Onboarding
    var drafts: map<int, Stored>
    var goals: seq<Goal>
    var intents: seq<Intent>
    var settings: Option<Boundary>
    var current: int
    var active: Option<int>
    var revisions: map<int, Context>
    var receipts: map<(Operation, string), Receipt>
    ghost var confirmed: seq<int>

    constructor (draft: Stored)
      ensures Snapshot() == Provisioned(draft)
    {
      onboarding, drafts, goals, intents, settings := Onboarding(false, 2, 1, None), map[1 := draft], [], [], None;
      current, active, revisions, receipts, confirmed := 0, None, map[], map[], [];
    }

    ghost function Snapshot(): Db
      reads this
    {
      Db(onboarding, drafts, goals, intents, settings, current, active, revisions, receipts, confirmed)
    }

    method LoadReceipt(operation: Operation, key: string, hash: string) returns (answer: Option<Reply>)
      ensures answer == if (operation, key) in receipts then Some(Again(Snapshot(), operation, key, hash)) else None
    {
      if (operation, key) !in receipts { return None; }
      var prior := receipts[(operation, key)];
      if prior.hash != hash { return Some(Conflict); }
      answer := Some(prior.reply);
    }

    method SaveReceipt(operation: Operation, key: string, hash: string, reply: Reply)
      modifies this`receipts
      ensures Snapshot() == Record(old(Snapshot()), operation, key, hash, reply)
    {
      receipts := receipts[(operation, key) := OnboardingContext.Receipt(hash, reply)];
    }

    /** The entries of a stored row, derived from its tree when it has none. */
    method LoadEntries(stored: Stored, tree: Object, now: int) returns (entries: Entries)
      ensures entries == Effective(stored, tree, now)
    {
      entries := stored.entries;
      if |entries.Keys| == 0 {
        entries := DeriveInitial(tree, stored.writer, map[], now);
      }
    }

    /** Merges the incoming draft into a stored one. */
    method MergeDraft(stored: Stored, r: PutRequest) returns (next: Stored)
      requires r.byHuman || RequestAccepted(r.requested)
      ensures next == AfterPut(stored, r.byHuman, r.incoming, r.requested, r.now)
    {
      var entries := LoadEntries(stored, stored.tree, r.now);
      var tree := new DraftTree(r.incoming);
      var writer := if r.byHuman then HumanEdit else AgentPrefill;
      var sources: map<Path, Source> := if r.byHuman then map[] else r.requested;
      var merged, blocked := Merge(stored.tree, tree, entries, writer, sources, r.now);
      next := Stored(tree.root, merged, writer);
    }

    /** Appends the merged draft as the next revision. */
    method StoreDraft(r: PutRequest)
      requires onboarding.revision in drafts && (r.byHuman || RequestAccepted(r.requested))
      modifies this`drafts, this`onboarding
      ensures Snapshot() == SaveDraft(old(Snapshot()), r)
    {
      var next := MergeDraft(drafts[onboarding.revision], r);
      var revision := onboarding.revision + 1;
      drafts := drafts[revision := next];
      onboarding := onboarding.(revision := revision);
    }

    method AcceptDraft(r: PutRequest) returns (reply: Reply)
      requires onboarding.revision in drafts && (r.byHuman || RequestAccepted(r.requested))
      modifies this`drafts, this`onboarding, this`receipts
      ensures (Snapshot(), reply) == AcceptedDraft(old(Snapshot()), r)
    {
      hide AfterPut;
      StoreDraft(r);
      reply := Saved(onboarding.revision);
      SaveReceipt(DraftPut, r.key, r.hash, reply);
    }

    method PutDraft(r: PutRequest) returns (reply: Reply)
      modifies this
      ensures (Snapshot(), reply) == PutDraftTx(old(Snapshot()), r)
    {
      if r.expected <= 0 || (!r.byHuman && !RequestAccepted(r.requested)) { return Invalid; }
      var answer := LoadReceipt(DraftPut, r.key, r.hash);
      if answer.Some? { return answer.value; }
      if onboarding.completed || onboarding.revision != r.expected || onboarding.revision !in drafts {
        return Conflict;
      }
      reply := AcceptDraft(r);
    }

    /** Deletes the active goal and inserts the new one. */
    method ReplaceActiveGoal(text: string, source: Writer)
      modifies this`goals
      ensures goals == ReplaceGoal(old(goals), text, source)
    {
      goals := WithoutActiveGoals(goals);
      goals := goals + [Goal(text, source, true)];
    }

    /** Deletes every intent and inserts the confirmed ones, one row each. */
    method ReplaceIntents(fields: seq<IntentFields>, source: Writer)
      modifies this`intents
      ensures intents == WithoutActiveIntents(old(intents)) + NewIntents(fields, source)
    {
      intents := WithoutActiveIntents(intents);
      for i := 0 to |fields|
        invariant intents == WithoutActiveIntents(old(intents)) + NewIntents(fields[..i], source)
      {
        assert NewIntents(fields[..i + 1], source)
            == NewIntents(fields[..i], source) + [Intent(fields[i], source, true, 1)];
        intents := intents + [Intent(fields[i], source, true, 1)];
      }
      assert fields[..|fields|] == fields;
    }

    method ApplyConfirmedStep(step: int, payload: Payload, entries: Entries)
      modifies this`goals, this`intents, this`settings
      ensures Snapshot() == ApplyStep(old(Snapshot()), step, payload, entries)
    {
      if step == 3 {
        ReplaceActiveGoal(payload.goal, CanonicalSource(entries, ["network_goal"]));
      } else if step == 4 {
        ReplaceIntents(payload.intents, CanonicalSource(entries, ["intent_actions"]));
      } else if step == 5 {
        settings := Some(payload.boundary);
      }
    }

    /** Compiles the current facts as the next revision and activates it. */
    method CompileAndActivate() returns (revision: int)
      modifies this`current, this`active, this`revisions
      ensures Snapshot() == Activate(old(Snapshot())) && revision == current
    {
      revision := current + 1;
      var goal := ActiveGoal(goals);
      ActiveGoalIsActive(goals);
      var boundary := if settings.Some? then settings.value else Boundary(true, true, true, true);
      var compiledGoal :=
        if goal.Some? then Some(CompiledGoal(goal.value + 1, goals[goal.value].text, goals[goal.value].source))
            else None;
      revisions := revisions[revision := Context(revision, compiledGoal, CompiledIntents(intents), boundary)];
      current, active := revision, Some(revision);
    }

    method ConfirmOnboardingStep(r: ConfirmRequest) returns (reply: Reply)
      modifies this
      ensures (Snapshot(), reply) == ConfirmTx(old(Snapshot()), r)
    {
      if r.step < 2 || r.step > 5 || r.expected <= 0 { return Invalid; }
      var answer := LoadReceipt(StepConfirm, r.key, r.hash);
      if answer.Some? { return answer.value; }
      if !CanConfirm(onboarding, r.step) || onboarding.revision != r.expected || onboarding.revision !in drafts {
        return Conflict;
      }
      if !r.emailBound { return EmailRequired; }
      if r.normalized.None? { return Invalid; }
      var payload := Decode(r.normalized.value);
      if payload.None? || !StepValid(payload.value, r.step, r.textOk) { return Invalid; }
      if r.step == 2 && !r.profileOk { return Conflict; }
      reply := WriteConfirmation(r, payload.value);
      SaveReceipt(StepConfirm, r.key, r.hash, reply);
    }

    method WriteConfirmation(r: ConfirmRequest, payload: Payload) returns (reply: Reply)
      requires r.normalized.Some? && onboarding.revision in drafts
      modifies this
      ensures Snapshot() == ApplyConfirmation(old(Snapshot()), r, payload)
      ensures reply == ConfirmReply(Snapshot(), r.step)
    {
      var stored := drafts[onboarding.revision];
      var entries := LoadEntries(stored, r.normalized.value, r.now);
      entries := ConfirmStep(r.normalized.value, entries, r.step, r.now);
      ApplyConfirmedStep(r.step, payload, entries);
      var newRevision := onboarding.revision + 1;
      var nextStep := NextStep(onboarding.step, r.step);
      if r.step == 5 && r.step == onboarding.step {
        var revision := CompileAndActivate();
        onboarding := Onboarding(true, 5, newRevision, Some(revision));
      } else {
        onboarding := onboarding.(step := nextStep, revision := newRevision);
      }
      drafts := drafts[newRevision := Stored(r.normalized.value, entries, HumanEdit)];
      confirmed := confirmed + [r.step];
      reply := Confirmed(onboarding.completed, onboarding.step, onboarding.revision,
                         if onboarding.completed then onboarding.activeContext else None);
    }

    /** The fact writes of one mutation; an error rolls the transaction back. */
    method WriteFacts(m: Mutation) returns (error: Option<Reply>)
      modifies this`goals, this`intents, this`settings
      ensures (Snapshot(), error) == Mutate(old(Snapshot()), m)
    {
      error := None;
      match m {
        case PutGoal(text) => ReplaceActiveGoal(text, HumanEdit);
        case CreateIntent(fields) =>
          if CountActive(intents) >= INTENT_LIMIT { return Some(LimitReached); }
          intents := intents + [Intent(fields, HumanEdit, true, 1)];
        case UpdateIntent(id, fields) =>
          if id < 1 || id > |intents| || !intents[id - 1].active { return Some(NotFound); }
          intents := intents[id - 1 := Intent(fields, HumanEdit, true, intents[id - 1].version + 1)];
        case DeleteIntent(id) =>
          if id < 1 || id > |intents| || !intents[id - 1].active { return Some(NotFound); }
          intents := intents[id - 1 := intents[id - 1].(active := false, version := intents[id - 1].version + 1)];
        case PutBoundary(boundary) => settings := Some(boundary);
      }
    }

    method ContextMutation(r: MutationRequest) returns (reply: Reply)
      modifies this
      ensures (Snapshot(), reply) == MutateTx(old(Snapshot()), r)
    {
      if !r.textOk || r.expected <= 0 { return Invalid; }
      var operation := OperationOf(r.mutation);
      var answer := LoadReceipt(operation, r.key, r.hash);
      if answer.Some? { return answer.value; }
      if active != Some(r.expected) { return Conflict; }
      var savedGoals, savedIntents, savedSettings := goals, intents, settings;
      var error := WriteFacts(r.mutation);
      if error.Some? { return error.value; }
      if !onboarding.completed {
        goals, intents, settings := savedGoals, savedIntents, savedSettings;
        return Conflict;
      }
      var revision := CompileAndActivate();
      onboarding := onboarding.(activeContext := Some(revision));
      reply := Changed(revision);
      SaveReceipt(operation, r.key, r.hash, reply);
    }
  }
}
