/**
 * What the onboarding and control handlers answer and write: which draft writes,
 * confirmations and changes succeed, that the facts of a confirmation are what
 * the confirmed draft says at their own paths, and what each change leaves in the
 * active context.
 */
module OnboardingAnswers {
  import opened Common
  import opened DraftOwnership
  import opened OnboardingContext
  import opened OnboardingRuns

  // ------------------------------------------------------- reading a draft by path

  predicate TextOrAbsent(v: Option<Json>) {
    v.None? || v.value.Null? || v.value.Str?
  }

  function TextOf(v: Option<Json>): string {
    if v.Some? && v.value.Str? then v.value.s else ""
  }

  predicate FlagOrAbsent(v: Option<Json>) {
    v.None? || v.value.Null? || v.value.Bool?
  }

  /** Absent means false. */
  predicate FlagOf(v: Option<Json>) {
    v.Some? && v.value.Bool? && v.value.b
  }

  predicate SmallIntegerOrAbsent(v: Option<Json>) {
    || v.None? || v.value.Null?
    || (v.value.Num? && v.value.n == v.value.n.Floor as real && -0x8000 <= v.value.n.Floor < 0x8000)
  }

  function IntegerOf(v: Option<Json>): int {
    if v.Some? && v.value.Num? then v.value.n.Floor else 0
  }

  /** A field of one listed intent. */
  function FieldOf(item: Json, name: string): Option<Json> {
    if item.Obj? then Lookup(item.fields, name) else None
  }

  predicate ReadableIntent(item: Json) {
    && (item.Null? || item.Obj?)
    && TextOrAbsent(FieldOf(item, "watch_for")) && TextOrAbsent(FieldOf(item, "trigger_when"))
    && TextOrAbsent(FieldOf(item, "action_instruction")) && TextOrAbsent(FieldOf(item, "action_policy"))
    && SmallIntegerOrAbsent(FieldOf(item, "priority"))
  }

  predicate SaysIntent(f: IntentFields, item: Json) {
    && f.watchFor == TextOf(FieldOf(item, "watch_for")) && f.triggerWhen == TextOf(FieldOf(item, "trigger_when"))
    && f.instruction == TextOf(FieldOf(item, "action_instruction"))
    && f.policy == TextOf(FieldOf(item, "action_policy"))
    && f.priority == IntegerOf(FieldOf(item, "priority"))
  }

  /** The listed intents. */
  function IntentItems(draft: Object): seq<Json> {
    var v := Get(draft, ["intent_actions"]);
    if v.Some? && v.value.Arr? then v.value.items else []
  }

  /** Every field the fact tables are written from has a type that can be read. */
  predicate Readable(draft: Object) {
    && TextOrAbsent(Get(draft, ["network_goal"]))
    && (var v := Get(draft, ["intent_actions"]); v.None? || v.value.Null? || v.value.Arr?)
    && (forall i | 0 <= i < |IntentItems(draft)| :: ReadableIntent(IntentItems(draft)[i]))
    && ("security_boundary" in draft ==> draft["security_boundary"].Obj? || draft["security_boundary"].Null?)
    && FlagOrAbsent(Get(draft, ["security_boundary", "recurring_publish"]))
    && FlagOrAbsent(Get(draft, ["security_boundary", "auto_reply_pm"]))
    && FlagOrAbsent(Get(draft, ["security_boundary", "auto_comment"]))
    && FlagOrAbsent(Get(draft, ["security_boundary", "show_add_friend"]))
  }

  /** Each setting is the flag at its own path. */
  predicate SaysBoundary(b: Boundary, draft: Object) {
    && b.recurringPublish == FlagOf(Get(draft, ["security_boundary", "recurring_publish"]))
    && b.autoReply == FlagOf(Get(draft, ["security_boundary", "auto_reply_pm"]))
    && b.autoComment == FlagOf(Get(draft, ["security_boundary", "auto_comment"]))
    && b.showAddFriend == FlagOf(Get(draft, ["security_boundary", "show_add_friend"]))
  }

  predicate SaysIntents(fields: seq<IntentFields>, items: seq<Json>) {
    |fields| == |items| && forall i | 0 <= i < |fields| :: SaysIntent(fields[i], items[i])
  }

  lemma DecodedIntent(item: Json)
    ensures DecodeIntent(item).Some? <==> ReadableIntent(item)
    ensures DecodeIntent(item).Some? ==> SaysIntent(DecodeIntent(item).value, item)
  {
  }

  lemma {:induction false} DecodedIntents(items: seq<Json>)
    ensures DecodeIntents(items).Some? <==> forall i | 0 <= i < |items| :: ReadableIntent(items[i])
    ensures DecodeIntents(items).Some? ==> SaysIntents(DecodeIntents(items).value, items)
  {
    hide DecodeIntent, ReadableIntent, SaysIntent;
    if items != [] {
      var n := |items| - 1;
      DecodedIntents(items[..n]);
      DecodedIntent(items[n]);
      assert forall i | 0 <= i < n :: items[..n][i] == items[i];
    }
  }

  lemma DecodedBoundary(draft: Object)
    ensures DecodeBoundary(draft).Some?
       <==> && ("security_boundary" in draft ==> draft["security_boundary"].Obj? || draft["security_boundary"].Null?)
            && FlagOrAbsent(Get(draft, ["security_boundary", "recurring_publish"]))
            && FlagOrAbsent(Get(draft, ["security_boundary", "auto_reply_pm"]))
            && FlagOrAbsent(Get(draft, ["security_boundary", "auto_comment"]))
            && FlagOrAbsent(Get(draft, ["security_boundary", "show_add_friend"]))
    ensures DecodeBoundary(draft).Some? ==> SaysBoundary(DecodeBoundary(draft).value, draft)
  {
    hide Get;
  }

  /** A draft decodes exactly when it is readable, and then to what it says at each path. */
  lemma DecodedDraft(draft: Object)
    ensures Decode(draft).Some? <==> Readable(draft)
    ensures Decode(draft).Some? ==>
              && Decode(draft).value.goal == TextOf(Get(draft, ["network_goal"]))
              && SaysIntents(Decode(draft).value.intents, IntentItems(draft))
              && SaysBoundary(Decode(draft).value.boundary, draft)
  {
    hide Get, DecodeBoundary, SaysBoundary, DecodeIntents, SaysIntent, ReadableIntent;
    DecodedBoundary(draft);
    DecodedIntents(IntentItems(draft));
    assert DecodeIntents([]) == Some([]) by { DecodedIntents([]); }
  }

  // ------------------------------------------------------------ draft writes

  /** The Agent claims only Agent sources, for known fields. */
  predicate ClaimsAllowed(r: PutRequest) {
    r.byHuman || forall p | p in r.requested :: Known(p) && (r.requested[p] == AgentInferred
                                                            || r.requested[p] == AgentUserContext
                                                            || r.requested[p] == SystemGenerated)
  }

  lemma WrittenValue(s: Stored, r: PutRequest, p: Path)
    requires Known(p) && (r.byHuman || RequestAccepted(r.requested))
    ensures var entries := Effective(s, s.tree, r.now);
            && p != []
            && Get(AfterPut(s, r.byHuman, r.incoming, r.requested, r.now).tree, p)
               == if !r.byHuman && p in entries && WellFormed(entries[p]) && entries[p].confirmed
                  then Get(s.tree, p) else Get(r.incoming, p)
  {
    hide Effective, Get, Known, MergedTree, MergedEntries, RequestAccepted;
    MergedValue(s.tree, r.incoming, Effective(s, s.tree, r.now), WriterOf(r.byHuman), p);
  }

  /**
   * Under a new key a draft write is accepted exactly when it expects the current
   * revision of an onboarding that is not completed. The next revision then holds, at
   * every known path, the incoming value, or the previous one where the human's
   * confirmed field stands against the Agent.
   */
  lemma DraftWriteAnswers(db: Db, r: PutRequest, p: Path)
    requires Inv(db) && (DraftPut, r.key) !in db.receipts && Known(p)
    ensures var (db', reply) := PutDraftTx(db, r);
            if r.expected <= 0 || !ClaimsAllowed(r) then (db', reply) == (db, Invalid)
            else if db.onboarding.completed || r.expected != db.onboarding.revision then (db', reply) == (db, Conflict)
            else
              var n := db.onboarding.revision + 1;
              && reply == Saved(n) && db'.onboarding == db.onboarding.(revision := n)
              && n in db'.drafts && db'.drafts == db.drafts[n := db'.drafts[n]]
              && db'.goals == db.goals && db'.intents == db.intents && db'.settings == db.settings
              && db.onboarding.revision in db.drafts && p != []
              && var entries := Effective(Newest(db), Newest(db).tree, r.now);
                 Get(db'.drafts[n].tree, p)
                 == if !r.byHuman && p in entries && WellFormed(entries[p]) && entries[p].confirmed
                    then Get(Newest(db).tree, p) else Get(r.incoming, p)
  {
    hide AfterPut, Effective, Get, Known, FactsOk, HistoryDense, CacheAgrees, LogOk;
    assert ClaimsAllowed(r) <==> r.byHuman || RequestAccepted(r.requested);
    if ClaimsAllowed(r) { WrittenValue(Newest(db), r, p); }
  }

  // ---------------------------------------------------------- confirmations

  /** The step is unlocked, the draft readable, and the step's own rule holds. */
  function ConfirmRefusal(db: Db, r: ConfirmRequest): Option<Reply> {
    if r.step < 2 || r.step > 5 || r.expected <= 0 then Some(Invalid)
    else if db.onboarding.completed || r.step > db.onboarding.step || r.expected != db.onboarding.revision then
      Some(Conflict)
    else if !r.emailBound then Some(EmailRequired)
    else if r.normalized.None? || !Readable(r.normalized.value) || !r.textOk then Some(Invalid)
    else if r.step == 3 && Blank(TextOf(Get(r.normalized.value, ["network_goal"]))) then Some(Invalid)
    else if r.step == 4 && |IntentItems(r.normalized.value)| > 10 then Some(Invalid)
    else if r.step == 2 && !r.profileOk then Some(Conflict)
    else None
  }

  /** The writer recorded with a fact, from the source its field's value has in the confirmed draft. */
  predicate FromSource(w: Writer, entries: Entries, p: Path) {
    && (w == AgentPrefill
        <==> p in entries && (entries[p].value == AgentInferred || entries[p].value == AgentUserContext))
    && (w == SystemDerived <==> p in entries && entries[p].value == SystemGenerated)
  }

  /** Step 3 leaves one active goal, the draft's; every earlier one is kept as inactive. */
  ghost predicate GoalConfirmed(before: seq<Goal>, after: seq<Goal>, draft: Object, entries: Entries) {
    && |after| == |before| + 1
    && after[|before|].active && after[|before|].text == TextOf(Get(draft, ["network_goal"]))
    && FromSource(after[|before|].source, entries, ["network_goal"])
    && forall i | 0 <= i < |before| :: after[i] == before[i].(active := false)
  }

  /** Step 4 leaves as active intents exactly the listed ones, in their order, field by field. */
  ghost predicate IntentsConfirmed(before: seq<Intent>, after: seq<Intent>, draft: Object, entries: Entries) {
    var items := IntentItems(draft);
    && |after| == |before| + |items|
    && (forall i | 0 <= i < |before| :: after[i] == before[i].(active := false))
    && (forall i | 0 <= i < |items| ::
          && after[|before| + i].active && after[|before| + i].version == 1
          && SaysIntent(after[|before| + i].fields, items[i])
          && FromSource(after[|before| + i].source, entries, ["intent_actions"]))
  }

  /** What a confirmation writes to the fact tables: its own fact, from the draft, and nothing else. */
  ghost predicate FactsConfirmed(db: Db, db': Db, step: int, draft: Object, entries: Entries) {
    && (if step == 3 then GoalConfirmed(db.goals, db'.goals, draft, entries) else db'.goals == db.goals)
    && (if step == 4 then IntentsConfirmed(db.intents, db'.intents, draft, entries) else db'.intents == db.intents)
    && (if step == 5 then db'.settings.Some? && SaysBoundary(db'.settings.value, draft)
        else db'.settings == db.settings)
  }

  /** The current step moves on, the last one completes; a step confirmed again moves nothing. */
  ghost predicate Advanced(db: Db, db': Db, step: int, reply: Reply) {
    var o, o' := db.onboarding, db'.onboarding;
    && o'.revision == o.revision + 1
    && o'.completed == (step == 5 && o.step == 5)
    && o'.step == (if step == o.step && step < 5 then step + 1 else o.step)
    && reply == Confirmed(o'.completed, o'.step, o'.revision, if o'.completed then o'.activeContext else None)
    && db'.confirmed == db.confirmed + [step]
    && (!o'.completed ==> db'.current == db.current && db'.active == db.active && db'.revisions == db.revisions)
  }

  lemma ConfirmedGoals(goals: seq<Goal>, draft: Object, entries: Entries)
    ensures GoalConfirmed(goals, ReplaceGoal(goals, TextOf(Get(draft, ["network_goal"])),
                                             CanonicalSource(entries, ["network_goal"])), draft, entries)
  {
    hide Get;
  }

  lemma ConfirmedIntents(intents: seq<Intent>, fields: seq<IntentFields>, draft: Object, entries: Entries)
    requires SaysIntents(fields, IntentItems(draft))
    ensures var added := NewIntents(fields, CanonicalSource(entries, ["intent_actions"]));
            IntentsConfirmed(intents, WithoutActiveIntents(intents) + added, draft, entries)
  {
    var source := CanonicalSource(entries, ["intent_actions"]);
    assert FromSource(source, entries, ["intent_actions"]);
    hide IntentItems, SaysIntent, FromSource, CanonicalSource;
  }

  lemma AppliedStep(db: Db, step: int, payload: Payload, draft: Object, entries: Entries)
    requires payload.goal == TextOf(Get(draft, ["network_goal"]))
    requires SaysIntents(payload.intents, IntentItems(draft)) && SaysBoundary(payload.boundary, draft)
    ensures FactsConfirmed(db, ApplyStep(db, step, payload, entries), step, draft, entries)
    ensures var db' := ApplyStep(db, step, payload, entries);
            db' == db.(goals := db'.goals, intents := db'.intents, settings := db'.settings)
  {
    ConfirmedGoals(db.goals, draft, entries);
    ConfirmedIntents(db.intents, payload.intents, draft, entries);
    hide Get, IntentItems, SaysBoundary, SaysIntents, GoalConfirmed, IntentsConfirmed, ReplaceGoal,
         WithoutActiveIntents, NewIntents, CanonicalSource;
  }

  lemma ConfirmationWrites(db: Db, r: ConfirmRequest, payload: Payload)
    requires db.onboarding.revision in db.drafts && r.normalized.Some? && 2 <= r.step <= 5
    requires r.step <= db.onboarding.step <= 5 && !db.onboarding.completed
    requires payload.goal == TextOf(Get(r.normalized.value, ["network_goal"]))
    requires SaysIntents(payload.intents, IntentItems(r.normalized.value))
    requires SaysBoundary(payload.boundary, r.normalized.value)
    ensures var db' := ApplyConfirmation(db, r, payload);
            var n := db.onboarding.revision + 1;
            && n in db'.drafts && db'.drafts == db.drafts[n := db'.drafts[n]]
            && db'.drafts[n].tree == r.normalized.value
            && FactsConfirmed(db, db', r.step, r.normalized.value, db'.drafts[n].entries)
            && Advanced(db, db', r.step, ConfirmReply(db', r.step))
  {
    var draft := ConfirmedDraft(db.drafts[db.onboarding.revision], r);
    AppliedStep(db, r.step, payload, r.normalized.value, draft.entries);
    hide ApplyStep, ConfirmedEntries, Effective, StepPaths, Get, IntentItems, SaysIntents, SaysBoundary, CompileContext,
         GoalConfirmed, IntentsConfirmed;
  }

  /**
   * Under a new key a confirmation is accepted exactly when its step is unlocked, the
   * email is bound and the draft satisfies the step; then it appends the draft,
   * writes its own fact as the draft says it, and moves the step machine.
   */
  lemma ConfirmationAnswers(db: Db, r: ConfirmRequest)
    requires Inv(db) && (StepConfirm, r.key) !in db.receipts
    ensures var (db', reply) := ConfirmTx(db, r);
            var n := db.onboarding.revision + 1;
            if ConfirmRefusal(db, r).Some? then (db', reply) == (db, ConfirmRefusal(db, r).value)
            else
              && r.normalized.Some? && n in db'.drafts && db'.drafts == db.drafts[n := db'.drafts[n]]
              && db'.drafts[n].tree == r.normalized.value
              && FactsConfirmed(db, db', r.step, r.normalized.value, db'.drafts[n].entries)
              && Advanced(db, db', r.step, reply)
  {
    hide FactsConfirmed, Readable, SaysIntents, SaysBoundary, Get, IntentItems, Decode, ApplyConfirmation, FactsOk,
         HistoryDense, CacheAgrees, LogOk, Advanced;
    if r.normalized.Some? {
      DecodedDraft(r.normalized.value);
      if ConfirmRefusal(db, r).None? {
        LengthSaid(Decode(r.normalized.value).value.intents, IntentItems(r.normalized.value));
        ConfirmationWrites(db, r, Decode(r.normalized.value).value);
        RecordedOnly(db, r, Decode(r.normalized.value).value);
      } else if Decode(r.normalized.value).Some? {
        LengthSaid(Decode(r.normalized.value).value.intents, IntentItems(r.normalized.value));
      }
    }
  }

  lemma LengthSaid(fields: seq<IntentFields>, items: seq<Json>)
    requires SaysIntents(fields, items)
    ensures |fields| == |items|
  {
  }

  /** The receipt changes neither facts nor the step machine. */
  lemma RecordedOnly(db: Db, r: ConfirmRequest, payload: Payload)
    requires db.onboarding.revision in db.drafts && r.normalized.Some?
    requires var applied := ApplyConfirmation(db, r, payload);
             var n := db.onboarding.revision + 1;
             && n in applied.drafts
             && FactsConfirmed(db, applied, r.step, r.normalized.value, applied.drafts[n].entries)
             && Advanced(db, applied, r.step, ConfirmReply(applied, r.step))
    ensures var applied := ApplyConfirmation(db, r, payload);
            var reply := ConfirmReply(applied, r.step);
            var recorded := Record(applied, StepConfirm, r.key, r.hash, reply);
            var n := db.onboarding.revision + 1;
            && n in recorded.drafts && recorded.drafts == applied.drafts
            && FactsConfirmed(db, recorded, r.step, r.normalized.value, recorded.drafts[n].entries)
            && Advanced(db, recorded, r.step, reply)
  {
    hide ApplyConfirmation, GoalConfirmed, IntentsConfirmed, SaysBoundary;
  }

  /**
   * The confirmation that completes onboarding activates a context with the draft's
   * own security boundary, the active goal and exactly the active intents.
   */
  lemma CompletionActivates(db: Db, r: ConfirmRequest)
    requires Inv(db) && (StepConfirm, r.key) !in db.receipts && ConfirmRefusal(db, r).None?
    requires r.step == 5 && db.onboarding.step == 5
    ensures var db' := ConfirmTx(db, r).0;
            && r.normalized.Some? && db'.onboarding.completed && db'.active == Some(db'.current)
            && db'.current in db'.revisions
            && var c := db'.revisions[db'.current];
               && SaysBoundary(c.boundary, r.normalized.value)
               && DescribesGoal(c.goal, db.goals) && c.goal.Some? && DescribesIntents(c.intents, db.intents)
  {
    ConfirmationAnswers(db, r);
    ConfirmKeeps(db, r);
    var db' := ConfirmTx(db, r).0;
    assert db'.onboarding.completed && CacheAgrees(db') && FactsOk(db');
    hide ConfirmTx, ConfirmRefusal, Inv, SaysBoundary, CompileContext, DescribesGoal, DescribesIntents;
    CompilationDescribes(db'.current, db'.goals, db'.intents, db'.settings);
    GoalIsThere(db'.current, db'.goals, db'.intents, db'.settings);
  }

  lemma GoalIsThere(revision: int, goals: seq<Goal>, intents: seq<Intent>, settings: Option<Boundary>)
    requires ActiveGoal(goals).Some?
    ensures CompileContext(revision, goals, intents, settings).goal.Some?
  {
    hide CompiledIntents;
  }

  // ------------------------------------------------------------------ changes

  /** Among the compiled intents are exactly the active rows. */
  lemma CompiledMembers(intents: seq<Intent>)
    ensures forall x :: x in CompiledIntents(intents)
                   <==> 1 <= x.id <= |intents| && intents[x.id - 1].active && x == Compiled(x.id - 1, intents[x.id - 1])
  {
    CompiledIntentsDescribe(intents);
    var list := CompiledIntents(intents);
    hide CompiledIntents, RowsAreOrdered;
    forall i | 0 <= i < |intents| && intents[i].active ensures Compiled(i, intents[i]) in list {
      var k :| 0 <= k < |list| && list[k].id == i + 1;
      assert FromRow(list[k], intents);
    }
    forall x | x in list ensures FromRow(x, intents) {
      var k :| 0 <= k < |list| && list[k] == x;
    }
  }

  /** An intent as the context lists it, written by the human in the console. */
  function AsListed(id: int, f: IntentFields): CompiledIntent {
    CompiledIntent(id, f.watchFor, f.triggerWhen, f.instruction, f.policy, HumanEdit)
  }

  /** What a change leaves in the active context, compared with the one before. */
  ghost predicate ContextChanged(m: Mutation, rows: nat, c: Context, c': Context) {
    match m
    case PutGoal(text) =>
      c'.goal.Some? && c'.goal.value.text == text && c'.goal.value.source == HumanEdit
      && c'.intents == c.intents && c'.boundary == c.boundary
    case CreateIntent(fields) =>
      (forall x :: x in c'.intents <==> x in c.intents || x == AsListed(rows + 1, fields))
      && c'.goal == c.goal && c'.boundary == c.boundary
    case UpdateIntent(id, fields) =>
      (forall x :: x in c'.intents <==> (x in c.intents && x.id != id) || x == AsListed(id, fields))
      && c'.goal == c.goal && c'.boundary == c.boundary
    case DeleteIntent(id) =>
      (forall x :: x in c'.intents <==> x in c.intents && x.id != id)
      && c'.goal == c.goal && c'.boundary == c.boundary
    case PutBoundary(boundary) => c'.boundary == boundary && c'.intents == c.intents && c'.goal == c.goal
  }

  /** The row a change of an intent writes, priority included; the other rows stay. */
  predicate RowWritten(m: Mutation, rows: seq<Intent>, rows': seq<Intent>) {
    match m
    case CreateIntent(fields) =>
      |rows'| == |rows| + 1 && rows <= rows' && rows'[|rows|].fields == fields && rows'[|rows|].active
    case UpdateIntent(id, fields) =>
      |rows'| == |rows| && 1 <= id <= |rows| && rows'[id - 1].fields == fields && rows'[id - 1].active
      && forall i | 0 <= i < |rows| && i != id - 1 :: rows'[i] == rows[i]
    case DeleteIntent(id) =>
      |rows'| == |rows| && 1 <= id <= |rows| && !rows'[id - 1].active
      && forall i | 0 <= i < |rows| && i != id - 1 :: rows'[i] == rows[i]
    case _ => rows' == rows
  }

  /** The context lists an intent under this identifier. */
  predicate ListsId(c: Context, id: int) {
    exists x :: x in c.intents && x.id == id
  }

  /** How a change is refused when it expects the active revision. */
  ghost predicate ChangeRefused(m: Mutation, c: Context, reply: Reply) {
    match m
    case CreateIntent(_) => |c.intents| >= 10 && reply == LimitReached
    case UpdateIntent(id, _) => !ListsId(c, id) && reply == NotFound
    case DeleteIntent(id) => !ListsId(c, id) && reply == NotFound
    case _ => false
  }

  lemma CompiledMutation(db: Db, m: Mutation)
    requires Mutate(db, m).1.None?
    ensures var db' := Mutate(db, m).0;
            && RowWritten(m, db.intents, db'.intents)
            && ContextChanged(m, |db.intents|, CompileContext(db.current, db.goals, db.intents, db.settings),
                              CompileContext(db.current + 1, db'.goals, db'.intents, db'.settings))
  {
    var db' := Mutate(db, m).0;
    CompiledMembers(db.intents);
    CompiledMembers(db'.intents);
    hide CompiledIntents, CountActive;
    match m
    case PutGoal(text) => ReplacedGoal(db.goals, text, HumanEdit);
    case CreateIntent(fields) =>
    case UpdateIntent(id, fields) =>
    case DeleteIntent(id) =>
    case PutBoundary(boundary) =>
  }

  lemma RefusedMutation(db: Db, m: Mutation)
    ensures Mutate(db, m).1.Some?
       <==> match m
            case CreateIntent(_) => |CompiledIntents(db.intents)| >= 10
            case UpdateIntent(id, _) => !exists x :: x in CompiledIntents(db.intents) && x.id == id
            case DeleteIntent(id) => !exists x :: x in CompiledIntents(db.intents) && x.id == id
            case _ => false
    ensures Mutate(db, m).1.Some? ==> Mutate(db, m).1.value == if m.CreateIntent? then LimitReached else NotFound
  {
    CompiledMembers(db.intents);
    CompiledIntentsDescribe(db.intents);
    hide CompiledIntents, DescribesIntents, CountActive;
    if m.UpdateIntent? && IntentExists(db, m.id) {
      assert Compiled(m.id - 1, db.intents[m.id - 1]) in CompiledIntents(db.intents);
    }
    if m.DeleteIntent? && IntentExists(db, m.id) {
      assert Compiled(m.id - 1, db.intents[m.id - 1]) in CompiledIntents(db.intents);
    }
  }

  /**
   * Under a new key a change is applied exactly when it expects the active revision
   * and its intent is listed, or there is room for another; the next revision is then
   * active and differs from the one before in what was changed and nothing else.
   */
  lemma ChangeAnswers(db: Db, r: MutationRequest)
    requires Inv(db) && (OperationOf(r.mutation), r.key) !in db.receipts
    ensures var (db', reply) := MutateTx(db, r);
            if !r.textOk || r.expected <= 0 then (db', reply) == (db, Invalid)
            else if db.active != Some(r.expected) then (db', reply) == (db, Conflict)
            else
              && db.current == r.expected && db.current in db.revisions
              && var c := db.revisions[db.current];
                 if reply.Changed? then
                   && !ChangeRefused(r.mutation, c, LimitReached) && !ChangeRefused(r.mutation, c, NotFound)
                   && reply == Changed(db.current + 1) && db'.current == db.current + 1
                   && db'.active == Some(db'.current) && db'.onboarding.activeContext == Some(db'.current)
                   && db'.current in db'.revisions
                   && ContextChanged(r.mutation, |db.intents|, c, db'.revisions[db'.current])
                   && RowWritten(r.mutation, db.intents, db'.intents)
                 else db' == db && ChangeRefused(r.mutation, c, reply)
  {
    if r.textOk && r.expected > 0 && db.active == Some(r.expected) {
      assert CacheAgrees(db) && db.onboarding.completed;
      RefusedMutation(db, r.mutation);
      if Mutate(db, r.mutation).1.None? {
        CompiledMutation(db, r.mutation);
        MutationOnlyFacts(db, r.mutation);
      }
      hide Mutate, ContextChanged, RowWritten, CompiledIntents, FactsOk, DraftsDense, HistoryDense, LogOk, ActiveGoal;
    } else {
      hide Mutate, ContextChanged, RowWritten, ChangeRefused, Inv;
    }
  }
}
