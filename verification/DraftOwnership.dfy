/**
 * Field ownership of onboarding drafts. A draft is a JSON object; eighteen known
 * paths carry a provenance entry that says who supplied the value and whether a
 * human confirmed it. A dotted path is written as the list of its parts.
 */
module DraftOwnership {
  import opened Common

  datatype Json =
    | Null
    | Bool(b: bool)
    | Num(n: real)
    | Str(s: string)
    | Arr(items: seq<Json>)
    | Obj(fields: map<string, Json>)

  type Object = map<string, Json>
  type Path = seq<string>

  const IDENTITY: string := "identity_card"
  const BOUNDARY: string := "security_boundary"

  const IDENTITY_PATHS: seq<Path> := [
    [IDENTITY, "agent_name"], [IDENTITY, "bio"], [IDENTITY, "agent_description"], [IDENTITY, "human_description"],
    [IDENTITY, "working_languages"], [IDENTITY, "seeking"], [IDENTITY, "offering"], [IDENTITY, "geo"],
    [IDENTITY, "timezone"], [IDENTITY, "agent_status"], [IDENTITY, "human_status"], [IDENTITY, "interests_negative"]]

  const BOUNDARY_PATHS: seq<Path> := [
    [BOUNDARY, "recurring_publish"], [BOUNDARY, "auto_reply_pm"], [BOUNDARY, "auto_comment"],
        [BOUNDARY, "show_add_friend"]]

  const PATHS: seq<Path> := IDENTITY_PATHS + BOUNDARY_PATHS + [["network_goal"], ["intent_actions"]]

  predicate Known(path: Path) {
    path in PATHS
  }

  // ------------------------------------------------------------ the JSON tree

  function Get(root: Object, path: Path): Option<Json>
    requires path != []
    decreases |path|
  {
    if path[0] !in root then None
    else if |path| == 1 then Some(root[path[0]])
    else if root[path[0]].Obj? then Get(root[path[0]].fields, path[1..])
    else None
  }

  function Child(root: Object, key: string): Object {
    if key in root && root[key].Obj? then root[key].fields else map[]
  }

  /** Writes a value, or removes it when there is none; parents that are not objects are replaced by objects. */
  function Set(root: Object, path: Path, value: Option<Json>): Object
    requires path != []
    decreases |path|
  {
    if |path| == 1 then
      if value.Some? then root[path[0] := value.value] else root - {path[0]}
    else root[path[0] := Obj(Set(Child(root, path[0]), path[1..], value))]
  }

  lemma {:induction false} GetOfSet(root: Object, path: Path, value: Option<Json>)
    requires path != []
    ensures Get(Set(root, path, value), path) == value
    decreases |path|
  {
    if |path| > 1 {
      GetOfSet(Child(root, path[0]), path[1..], value);
    }
  }

  predicate Apart(left: Path, right: Path) {
    !(left <= right) && !(right <= left)
  }

  lemma {:induction false} GetOfOtherSet(root: Object, path: Path, value: Option<Json>, other: Path)
    requires path != [] && other != [] && Apart(path, other)
    ensures Get(Set(root, path, value), other) == Get(root, other)
    decreases |path|
  {
    if path[0] == other[0] {
      assert path == [path[0]] + path[1..] && other == [other[0]] + other[1..];
      assert |path| > 1 && |other| > 1;
      GetOfOtherSet(Child(root, path[0]), path[1..], value, other[1..]);
      assert Get(map[], other[1..]) == None;
    }
  }

  // ------------------------------------------------------------- known paths

  /** Lengths and the first character of the last part tell the known paths apart. */
  function Shape(path: Path): (int, int, char)
    requires 1 <= |path| <= 2 && path[|path| - 1] != []
  {
    (|path[0]|, if |path| == 2 then |path[1]| else 0, path[|path| - 1][0])
  }

  const SHAPES: seq<(int, int, char)> := [
    (13, 10, 'a'), (13, 3, 'b'), (13, 17, 'a'), (13, 17, 'h'), (13, 17, 'w'), (13, 7, 's'), (13, 8, 'o'), (13, 3, 'g'),
    (13, 8, 't'), (13, 12, 'a'), (13, 12, 'h'), (13, 18, 'i'),
    (17, 17, 'r'), (17, 13, 'a'), (17, 12, 'a'), (17, 15, 's'), (12, 0, 'n'), (14, 0, 'i')]

  lemma IdentityShapes(i: int)
    requires 0 <= i < 12
    ensures |IDENTITY_PATHS[i]| == 2 && IDENTITY_PATHS[i][1] != [] && Shape(IDENTITY_PATHS[i]) == SHAPES[i]
  {
  }

  lemma BoundaryShapes(i: int)
    requires 0 <= i < 4
    ensures |BOUNDARY_PATHS[i]| == 2 && BOUNDARY_PATHS[i][1] != [] && Shape(BOUNDARY_PATHS[i]) == SHAPES[12 + i]
  {
  }

  lemma KnownShapes(i: int)
    requires 0 <= i < |PATHS|
    ensures |PATHS| == 18 && 1 <= |PATHS[i]| <= 2 && PATHS[i][|PATHS[i]| - 1] != [] && Shape(PATHS[i]) == SHAPES[i]
    ensures |PATHS[i]| == if i < 16 then 2 else 1
  {
    if i < 12 {
      IdentityShapes(i);
      assert PATHS[i] == IDENTITY_PATHS[i];
    } else if i < 16 {
      BoundaryShapes(i - 12);
      assert PATHS[i] == BOUNDARY_PATHS[i - 12];
    }
  }

  /** The known paths are distinct and none contains another. */
  lemma KnownPathsApart(i: int, j: int)
    requires 0 <= i < |PATHS| && 0 <= j < |PATHS| && i != j
    ensures Apart(PATHS[i], PATHS[j])
  {
    KnownShapes(i);
    KnownShapes(j);
    assert SHAPES[i] != SHAPES[j];
  }

  // --------------------------------------------------------------- provenance

  /** The recognised sources, and any other text. */
  datatype Source = AgentInferred | AgentUserContext | HumanInput | SystemGenerated | OtherSource(text: string)
  datatype FieldActor = AgentActor | HumanActor | SystemActor | OtherActor(text: string)

  datatype Provenance = Provenance(origin: Source, value: Source, lastActor: FieldActor, confirmed: bool,
                                   updatedAt: int)

  /** Who writes a draft: the Agent, the human in the console, or the system. */
  datatype Writer = AgentPrefill | HumanEdit | SystemDerived

  type Entries = map<Path, Provenance>

  const NO_ENTRY := Provenance(OtherSource(""), OtherSource(""), OtherActor(""), false, 0)

  predicate AgentSource(s: Source) {
    s == AgentInferred || s == AgentUserContext || s == SystemGenerated
  }

  predicate WellFormed(e: Provenance) {
    !e.origin.OtherSource? && !e.value.OtherSource? && !e.lastActor.OtherActor?
  }

  function BaseEntry(writer: Writer, now: int): Provenance {
    match writer
    case AgentPrefill => Provenance(AgentInferred, AgentInferred, AgentActor, false, now)
    case HumanEdit => Provenance(HumanInput, HumanInput, HumanActor, true, now)
    case SystemDerived => Provenance(SystemGenerated, SystemGenerated, SystemActor, false, now)
  }

  predicate Blank(s: string) {
    forall i | 0 <= i < |s| ::
        s[i] in "\t\n\U{000B}\U{000C}\r \U{0085}\U{00A0}\U{1680}\U{2028}\U{2029}\U{202F}\U{205F}\U{3000}"
                             || '\U{2000}' <= s[i] <= '\U{200A}'
  }

  predicate Meaningful(value: Option<Json>) {
    && value.Some?
    && match value.value
       case Null => false
       case Str(s) => !Blank(s)
       case Arr(items) => items != []
       case Obj(fields) => fields.Keys != {}
       case _ => true
  }

  /** The actor an Agent-supplied source stands for. */
  function ActorOf(source: Source): FieldActor {
    if source == SystemGenerated then SystemActor else AgentActor
  }

  function Requested(requested: map<Path, Source>, path: Path): Source {
    if path in requested then requested[path] else OtherSource("")
  }

  // -------------------------------------------------- initial provenance, merge

  function InitialEntry(writer: Writer, source: Source, now: int): Provenance {
    var base := BaseEntry(writer, now);
    if writer == AgentPrefill && AgentSource(source) then
      base.(origin := source, value := source, lastActor := ActorOf(source))
    else base
  }

  /** Only fields that carry a value get an entry. */
  function Derived(draft: Object, writer: Writer, requested: map<Path, Source>, now: int): Entries
  {
    map p | p in PATHS && p != [] && Meaningful(Get(draft, p)) :: InitialEntry(writer, Requested(requested, p), now)
  }

  predicate Owned(writer: Writer, entry: Option<Provenance>) {
    writer == AgentPrefill && entry.Some? && entry.value.confirmed
  }

  function WellFormedEntry(entries: Entries, path: Path): Option<Provenance> {
    if path in entries && WellFormed(entries[path]) then Some(entries[path]) else None
  }

  /** The entry an unowned field gets when its value did not change. */
  function UnchangedEntry(writer: Writer, value: Option<Json>, entry: Option<Provenance>, source: Source,
                          now: int): Option<Provenance> {
    if writer == AgentPrefill && Meaningful(value) && AgentSource(source) then
      var e := if entry.Some? then entry.value else NO_ENTRY.(origin := source);
      Some(e.(value := source, lastActor := ActorOf(source), updatedAt := now))
    else entry
  }

  function ChangedEntry(writer: Writer, value: Option<Json>, entry: Option<Provenance>, source: Source,
                        now: int): Option<Provenance> {
    if writer == HumanEdit then
      var e := if entry.Some? then entry.value else NO_ENTRY.(origin := HumanInput);
      Some(e.(value := HumanInput, lastActor := HumanActor, confirmed := true, updatedAt := now))
    else if Meaningful(value) then
      var base := BaseEntry(writer, now);
      var chosen := if AgentSource(source) then source else AgentInferred;
      var e := if writer == AgentPrefill then base.(origin := chosen, value := chosen, lastActor := ActorOf(chosen))
          else base;
      Some(if entry.Some? then e.(origin := entry.value.origin) else e)
    else None
  }

  function MergedEntry(writer: Writer, before: Option<Json>, after: Option<Json>, entry: Option<Provenance>,
                       source: Source, now: int): Option<Provenance> {
    if Owned(writer, entry) then entry
    else if before == after then UnchangedEntry(writer, after, entry, source, now)
    else ChangedEntry(writer, after, entry, source, now)
  }

  /** No path is empty and none is a prefix of another. */
  ghost predicate PrefixFree(paths: seq<Path>) {
    && (forall i | 0 <= i < |paths| :: paths[i] != [])
    && (forall i, j | 0 <= i < |paths| && 0 <= j < |paths| && i != j :: Apart(paths[i], paths[j]))
  }

  lemma KnownPathsArePrefixFree()
    ensures PrefixFree(PATHS)
  {
    forall i | 0 <= i < |PATHS| ensures PATHS[i] != [] {
      KnownShapes(i);
    }
    forall i, j | 0 <= i < |PATHS| && 0 <= j < |PATHS| && i != j ensures Apart(PATHS[i], PATHS[j]) {
      KnownPathsApart(i, j);
    }
  }

  /** The merged tree after the first `n` paths: owned fields are put back to their previous value. */
  function MergedTree(paths: seq<Path>, previous: Object, incoming: Object, entries: Entries, writer: Writer,
                      n: nat): Object
    requires n <= |paths|
  {
    if n == 0 then incoming
    else
      var before := MergedTree(paths, previous, incoming, entries, writer, n - 1);
      var p := paths[n - 1];
      if p != [] && Owned(writer, WellFormedEntry(entries, p)) then Set(before, p, Get(previous, p)) else before
  }

  function EntryAfterMerge(paths: seq<Path>, previous: Object, incoming: Object, entries: Entries, writer: Writer,
                           requested: map<Path, Source>, now: int, p: Path): Option<Provenance> {
    if p in paths && p != [] then
      MergedEntry(writer, Get(previous, p), Get(incoming, p), WellFormedEntry(entries, p), Requested(requested, p), now)
    else WellFormedEntry(entries, p)
  }

  function Listed(paths: seq<Path>): set<Path> {
    set p | p in paths
  }

  function MergedEntries(paths: seq<Path>, previous: Object, incoming: Object, entries: Entries, writer: Writer,
                         requested: map<Path, Source>, now: int): Entries {
    map p | p in entries.Keys + Listed(paths)
        && EntryAfterMerge(paths, previous, incoming, entries, writer, requested, now, p).Some?
      :: EntryAfterMerge(paths, previous, incoming, entries, writer, requested, now, p).value
  }

  /** Fields the Agent supplied although a human owns them. */
  predicate Blocked(paths: seq<Path>, incoming: Object, entries: Entries, writer: Writer, p: Path) {
    p in paths && p != [] && Owned(writer, WellFormedEntry(entries, p)) && Get(incoming, p).Some?
  }

  // ------------------------------------------------------- what a merge yields

  /** After `n` paths, each path holds the previous value if it is owned and done, else the incoming one. */
  lemma {:induction false} MergedTreeAt(paths: seq<Path>, previous: Object, incoming: Object, entries: Entries,
                                        writer: Writer, n: nat, i: nat)
    requires PrefixFree(paths) && n <= |paths| && i < |paths|
    ensures Get(MergedTree(paths, previous, incoming, entries, writer, n), paths[i])
         == if i < n && Owned(writer, WellFormedEntry(entries, paths[i])) then Get(previous, paths[i])
             else Get(incoming, paths[i])
    decreases n
  {
    if n > 0 {
      MergedTreeAt(paths, previous, incoming, entries, writer, n - 1, i);
      var before := MergedTree(paths, previous, incoming, entries, writer, n - 1);
      GetOfSet(before, paths[n - 1], Get(previous, paths[n - 1]));
      if i != n - 1 {
        assert Apart(paths[n - 1], paths[i]);
        GetOfOtherSet(before, paths[n - 1], Get(previous, paths[n - 1]), paths[i]);
      }
    }
  }

  /**
   * What a merge yields at a known path: the previous value, or its absence, if
   * the Agent writes a field a human confirmed; the incoming value otherwise.
   */
  lemma MergedValue(previous: Object, incoming: Object, entries: Entries, writer: Writer, p: Path)
    requires Known(p)
    ensures p != []
    ensures Get(MergedTree(PATHS, previous, incoming, entries, writer, |PATHS|), p)
         == if writer == AgentPrefill && p in entries && WellFormed(entries[p]) && entries[p].confirmed
            then Get(previous, p) else Get(incoming, p)
  {
    KnownPathsArePrefixFree();
    var i :| 0 <= i < |PATHS| && PATHS[i] == p;
    MergedTreeAt(PATHS, previous, incoming, entries, writer, |PATHS|, i);
  }

  /** A merge leaves alone what lies apart from every path it merges. */
  lemma {:induction false} MergeKeepsUnknown(paths: seq<Path>, previous: Object, incoming: Object, entries: Entries,
                                             writer: Writer, n: nat, q: Path)
    requires PrefixFree(paths) && n <= |paths| && q != [] && forall i | 0 <= i < |paths| :: Apart(paths[i], q)
    ensures Get(MergedTree(paths, previous, incoming, entries, writer, n), q) == Get(incoming, q)
    decreases n
  {
    if n > 0 {
      MergeKeepsUnknown(paths, previous, incoming, entries, writer, n - 1, q);
      GetOfOtherSet(MergedTree(paths, previous, incoming, entries, writer, n - 1), paths[n - 1],
                    Get(previous, paths[n - 1]), q);
    }
  }

  // --------------------------------------------------------------- step paths

  /** The fields the four onboarding steps confirm; any other step would confirm all. */
  function StepPaths(step: int): seq<Path> {
    if step == 2 then PATHS[..12]
    else if step == 3 then PATHS[16..17]
    else if step == 4 then PATHS[17..18]
    else if step == 5 then PATHS[12..16]
    else PATHS
  }

  function StepOf(i: int): int {
    if i < 12 then 2 else if i < 16 then 5 else if i < 17 then 3 else 4
  }

  /** Every known path belongs to exactly one of the four steps. */
  lemma StepsPartitionThePaths(p: Path, step: int)
    requires 2 <= step <= 5
    ensures p in StepPaths(step) ==> Known(p) && forall other | 2 <= other <= 5 && other != step ::
        p !in StepPaths(other)
    ensures Known(p) ==> p in StepPaths(2) || p in StepPaths(3) || p in StepPaths(4) || p in StepPaths(5)
  {
    if Known(p) {
      var i :| 0 <= i < |PATHS| && PATHS[i] == p;
      InStep(i, 2);
      InStep(i, 3);
      InStep(i, 4);
      InStep(i, 5);
    }
  }

  /** Where a step's slice of the known paths begins and ends. */
  function StepStart(step: int): int {
    if step == 2 then 0 else if step == 3 then 16 else if step == 4 then 17 else 12
  }

  function StepEnd(step: int): int {
    if step == 2 then 12 else if step == 3 then 17 else if step == 4 then 18 else 16
  }

  lemma InSlice(paths: seq<Path>, lo: int, hi: int, i: int)
    requires PrefixFree(paths) && 0 <= lo <= hi <= |paths| && 0 <= i < |paths|
    ensures paths[i] in paths[lo..hi] <==> lo <= i < hi
  {
    if lo <= i < hi {
      assert paths[lo..hi][i - lo] == paths[i];
    } else {
      forall k | lo <= k < hi ensures paths[k] != paths[i] {
        assert Apart(paths[k], paths[i]);
      }
    }
  }

  lemma InStep(i: int, step: int)
    requires 0 <= i < |PATHS| && 2 <= step <= 5
    ensures PATHS[i] in StepPaths(step) <==> StepOf(i) == step
  {
    KnownPathsArePrefixFree();
    KnownShapes(i);
    InSlice(PATHS, StepStart(step), StepEnd(step), i);
  }

  function ConfirmedEntry(entry: Option<Provenance>, now: int): Provenance {
    var e := if entry.Some? then entry.value else NO_ENTRY.(origin := HumanInput, value := HumanInput);
    e.(lastActor := HumanActor, confirmed := true, updatedAt := now)
  }

  predicate Confirms(paths: seq<Path>, draft: Object, entries: Entries, p: Path) {
    p in paths && p != [] && (p in entries || Meaningful(Get(draft, p)))
  }

  function ConfirmedEntries(paths: seq<Path>, draft: Object, entries: Entries, now: int): Entries {
    map p | p in entries.Keys + Listed(paths) && (p in entries || Confirms(paths, draft, entries, p))
      :: if Confirms(paths, draft, entries, p) then ConfirmedEntry(Lookup(entries, p), now) else entries[p]
  }

  // --------------------------------------------------------------------- runs

  /** The newest draft row: its tree, its entries and who wrote it. */
  datatype Stored = Stored(tree: Object, entries: Entries, writer: Writer)

  datatype DraftOp =
    | Put(byHuman: bool, incoming: Object, requested: map<Path, Source>, now: int)
    | Confirm(step: int, normalized: Object, now: int)

  /** A row without entries is read as if its writer had just supplied its fields. */
  function Effective(s: Stored, tree: Object, now: int): Entries {
    if s.entries.Keys == {} then Derived(tree, s.writer, map[], now) else s.entries
  }

  /** An Agent may only claim Agent sources, and only for known paths. */
  predicate RequestAccepted(requested: map<Path, Source>) {
    forall p | p in requested :: Known(p) && AgentSource(requested[p])
  }

  function WriterOf(byHuman: bool): Writer {
    if byHuman then HumanEdit else AgentPrefill
  }

  function AfterPut(s: Stored, byHuman: bool, incoming: Object, requested: map<Path, Source>, now: int): Stored {
    if !byHuman && !RequestAccepted(requested) then s
    else
      var entries := Effective(s, s.tree, now);
      var sources := if byHuman then map[] else requested;
      Stored(MergedTree(PATHS, s.tree, incoming, entries, WriterOf(byHuman), |PATHS|),
             MergedEntries(PATHS, s.tree, incoming, entries, WriterOf(byHuman), sources, now), WriterOf(byHuman))
  }

  function DraftStep(s: Stored, op: DraftOp): Stored {
    match op
    case Put(byHuman, incoming, requested, now) => AfterPut(s, byHuman, incoming, requested, now)
    case Confirm(step, normalized, now) =>
      Stored(normalized, ConfirmedEntries(StepPaths(step), normalized, Effective(s, normalized, now), now), HumanEdit)
  }

  function DraftRun(s: Stored, ops: seq<DraftOp>): Stored
    decreases |ops|
  {
    if ops == [] then s else DraftRun(DraftStep(s, ops[0]), ops[1..])
  }

  ghost predicate AllWellFormed(entries: Entries) {
    forall p | p in entries :: WellFormed(entries[p])
  }

  predicate HumanOwns(s: Stored, p: Path) {
    p in s.entries && s.entries[p].confirmed
  }

  lemma MergedEntryWellFormed(writer: Writer, before: Option<Json>, after: Option<Json>, entry: Option<Provenance>,
                              source: Source, now: int)
    requires entry.Some? ==> WellFormed(entry.value)
    ensures MergedEntry(writer, before, after, entry, source, now).Some?
        ==> WellFormed(MergedEntry(writer, before, after, entry, source, now).value)
  {
  }

  /** Whatever it starts from, a merge leaves only well-formed entries. */
  lemma MergeIsWellFormed(paths: seq<Path>, previous: Object, incoming: Object, entries: Entries, writer: Writer,
                          requested: map<Path, Source>, now: int)
    ensures AllWellFormed(MergedEntries(paths, previous, incoming, entries, writer, requested, now))
  {
    var merged := MergedEntries(paths, previous, incoming, entries, writer, requested, now);
    forall p | p in merged ensures WellFormed(merged[p]) {
      if p in paths && p != [] {
        MergedEntryWellFormed(writer, Get(previous, p), Get(incoming, p), WellFormedEntry(entries, p),
                              Requested(requested, p), now);
      }
    }
  }

  lemma EffectiveWellFormed(s: Stored, tree: Object, now: int)
    requires AllWellFormed(s.entries)
    ensures AllWellFormed(Effective(s, tree, now))
  {
    var derived := Derived(tree, s.writer, map[], now);
    forall p | p in derived ensures WellFormed(derived[p]) {
      assert derived[p] == InitialEntry(s.writer, Requested(map[], p), now);
    }
  }

  lemma ConfirmationIsWellFormed(paths: seq<Path>, draft: Object, entries: Entries, now: int)
    requires AllWellFormed(entries)
    ensures AllWellFormed(ConfirmedEntries(paths, draft, entries, now))
  {
    var confirmed := ConfirmedEntries(paths, draft, entries, now);
    forall p | p in confirmed ensures WellFormed(confirmed[p]) {
      assert confirmed[p] == (if Confirms(paths, draft, entries, p) then ConfirmedEntry(Lookup(entries, p), now)
                              else entries[p]);
    }
  }

  lemma StepKeepsWellFormed(s: Stored, op: DraftOp)
    requires AllWellFormed(s.entries)
    ensures AllWellFormed(DraftStep(s, op).entries)
  {
    match op
    case Put(byHuman, incoming, requested, now) =>
      MergeIsWellFormed(PATHS, s.tree, incoming, Effective(s, s.tree, now), WriterOf(byHuman),
                        if byHuman then map[] else requested, now);
    case Confirm(step, normalized, now) =>
      EffectiveWellFormed(s, normalized, now);
      ConfirmationIsWellFormed(StepPaths(step), normalized, Effective(s, normalized, now), now);
  }

  lemma MergeKeepsOwned(paths: seq<Path>, previous: Object, incoming: Object, entries: Entries, writer: Writer,
                        requested: map<Path, Source>, now: int, p: Path)
    requires p in entries && WellFormed(entries[p]) && entries[p].confirmed && writer != SystemDerived
    ensures p in MergedEntries(paths, previous, incoming, entries, writer, requested, now)
    ensures MergedEntries(paths, previous, incoming, entries, writer, requested, now)[p].confirmed
    ensures writer == AgentPrefill
        ==> MergedEntries(paths, previous, incoming, entries, writer, requested, now)[p] == entries[p]
  {
    var merged := EntryAfterMerge(paths, previous, incoming, entries, writer, requested, now, p);
    assert WellFormedEntry(entries, p) == Some(entries[p]);
    assert writer == AgentPrefill ==> Owned(writer, Some(entries[p])) && merged == Some(entries[p]);
    assert writer == HumanEdit ==> merged.Some? && merged.value.confirmed;
  }

  /**
   * Nothing takes a confirmed field away from the human, and an Agent write changes neither its
   * entry nor its value.
   */
  lemma StepKeepsOwnership(s: Stored, op: DraftOp, p: Path)
    requires AllWellFormed(s.entries) && HumanOwns(s, p)
    ensures HumanOwns(DraftStep(s, op), p)
    ensures FromAgent(op) ==> DraftStep(s, op).entries[p] == s.entries[p]
    ensures FromAgent(op) && Known(p) ==> p != [] && Get(DraftStep(s, op).tree, p) == Get(s.tree, p)
  {
    assert s.entries.Keys != {};
    if op.Put? {
      MergeKeepsOwned(PATHS, s.tree, op.incoming, s.entries, WriterOf(op.byHuman),
                      if op.byHuman then map[] else op.requested, op.now, p);
      if Known(p) { MergedValue(s.tree, op.incoming, s.entries, WriterOf(op.byHuman), p); }
    }
  }

  predicate FromAgent(op: DraftOp) {
    op.Put? && !op.byHuman
  }

  /** Over any run of drafts and confirmations every stored entry is well formed. */
  lemma {:induction false} EntriesStayWellFormed(s: Stored, ops: seq<DraftOp>)
    requires AllWellFormed(s.entries)
    ensures AllWellFormed(DraftRun(s, ops).entries)
    decreases |ops|
  {
    if ops != [] {
      StepKeepsWellFormed(s, ops[0]);
      EntriesStayWellFormed(DraftStep(s, ops[0]), ops[1..]);
    }
  }

  // ----------------------------------------------------- what an entry tells

  /** A human's change of a field is told as theirs, with the first source the field ever had. */
  lemma HumanChangeIsTold(s: Stored, incoming: Object, now: int, p: Path)
    requires Known(p) && p != [] && s.entries.Keys != {} && Get(s.tree, p) != Get(incoming, p)
    ensures var entries := AfterPut(s, true, incoming, map[], now).entries;
            && p in entries && entries[p].confirmed && entries[p].value == HumanInput
            && entries[p].lastActor == HumanActor
            && entries[p].updatedAt == now
            && entries[p].origin == (if p in s.entries && WellFormed(s.entries[p]) then s.entries[p].origin
                                     else HumanInput)
  {
    hide Get, MergedTree;
    KnownIsListed(p);
  }

  lemma KnownIsListed(p: Path)
    requires Known(p)
    ensures p in Listed(PATHS) && p in PATHS
  {
  }

  /**
   * The Agent's change of a field nobody confirmed is told as the source the Agent
   * claims, or as inferred, with the first source the field ever had; a field it
   * empties loses its entry.
   */
  lemma AgentChangeIsTold(s: Stored, incoming: Object, requested: map<Path, Source>, now: int, p: Path)
    requires Known(p) && p != [] && s.entries.Keys != {} && Get(s.tree, p) != Get(incoming, p)
    requires RequestAccepted(requested) && !(p in s.entries && s.entries[p].confirmed)
    ensures var entries := AfterPut(s, false, incoming, requested, now).entries;
            if !Meaningful(Get(incoming, p)) then p !in entries
            else
              var source := if p in requested then requested[p] else AgentInferred;
              && p in entries && !entries[p].confirmed && entries[p].value == source && entries[p].updatedAt == now
              && entries[p].lastActor == (if source == SystemGenerated then SystemActor else AgentActor)
              && entries[p].origin == (if p in s.entries && WellFormed(s.entries[p]) then s.entries[p].origin
                                       else source)
  {
    hide Get, MergedTree, Meaningful;
    KnownIsListed(p);
  }

  /** A field that does not change keeps its entry, unless the Agent claims a source for a value nobody confirmed. */
  lemma UnchangedFieldKeepsItsEntry(s: Stored, byHuman: bool, incoming: Object, requested: map<Path, Source>, now: int,
                                    p: Path)
    requires Known(p) && p != [] && AllWellFormed(s.entries) && p in s.entries && Get(s.tree, p) == Get(incoming, p)
    requires byHuman || (RequestAccepted(requested) && p !in requested)
    ensures p in AfterPut(s, byHuman, incoming, requested, now).entries
    ensures AfterPut(s, byHuman, incoming, requested, now).entries[p] == s.entries[p]
  {
    assert s.entries.Keys != {};
    hide Get, MergedTree, Meaningful;
    KnownIsListed(p);
  }

  /**
   * Where the Agent claims a source for a value that it leaves as it is and nobody
   * confirmed, the entry tells that source; its origin stays the first one.
   */
  lemma ClaimedSourceIsTold(s: Stored, incoming: Object, requested: map<Path, Source>, now: int, p: Path)
    requires Known(p) && p != [] && s.entries.Keys != {} && Get(s.tree, p) == Get(incoming, p)
    requires RequestAccepted(requested) && p in requested && Meaningful(Get(incoming, p))
    requires p in s.entries ==> !s.entries[p].confirmed
    ensures var entries := AfterPut(s, false, incoming, requested, now).entries;
            && p in entries && !entries[p].confirmed && entries[p].value == requested[p] && entries[p].updatedAt == now
            && entries[p].lastActor == (if requested[p] == SystemGenerated then SystemActor else AgentActor)
            && entries[p].origin == (if p in s.entries && WellFormed(s.entries[p]) then s.entries[p].origin
                                     else requested[p])
  {
    hide Get, MergedTree, Meaningful;
    KnownIsListed(p);
  }

  /** The first draft of an Agent has an entry for each known field that carries a value, with the source it claims. */
  lemma FirstDraftIsTold(draft: Object, requested: map<Path, Source>, now: int, p: Path)
    requires Known(p) && p != [] && RequestAccepted(requested)
    ensures var entries := Derived(draft, AgentPrefill, requested, now);
            var source := if p in requested then requested[p] else AgentInferred;
            && (p in entries <==> Meaningful(Get(draft, p)))
            && (p in entries ==>
                  && entries[p].origin == entries[p].value == source && !entries[p].confirmed
                  && entries[p].lastActor == (if source == SystemGenerated then SystemActor else AgentActor)
                  && entries[p].updatedAt == now)
  {
    hide Get, Meaningful;
    KnownIsListed(p);
  }

  /** The blocked fields are those the Agent supplied although a human confirmed them; they keep their value. */
  lemma BlockedIsTold(previous: Object, incoming: Object, entries: Entries, writer: Writer, p: Path)
    ensures Blocked(PATHS, incoming, entries, writer, p)
       <==> && Known(p) && writer == AgentPrefill && p in entries && WellFormed(entries[p]) && entries[p].confirmed
            && p != [] && Get(incoming, p).Some?
    ensures Blocked(PATHS, incoming, entries, writer, p) ==>
              p != [] && Get(MergedTree(PATHS, previous, incoming, entries, writer, |PATHS|), p) == Get(previous, p)
  {
    hide Get, MergedTree;
    if Known(p) {
      KnownIsListed(p);
      MergedValue(previous, incoming, entries, writer, p);
    }
  }

  /** A row without entries is read as its writer's: one entry for each known field that carries a value. */
  lemma InitialIsTold(s: Stored, tree: Object, now: int, p: Path)
    requires s.entries.Keys == {} && Known(p) && p != []
    ensures var entries := Effective(s, tree, now);
            && (p in entries <==> Meaningful(Get(tree, p)))
            && (p in entries ==>
                  && entries[p].updatedAt == now && entries[p].origin == entries[p].value
                  && (entries[p].confirmed <==> s.writer == HumanEdit)
                  && (match s.writer
                      case HumanEdit => entries[p].value == HumanInput && entries[p].lastActor == HumanActor
                      case AgentPrefill => entries[p].value == AgentInferred && entries[p].lastActor == AgentActor
                      case SystemDerived => entries[p].value == SystemGenerated && entries[p].lastActor == SystemActor))
  {
    hide Get, Meaningful;
    KnownIsListed(p);
  }

  /** The steps confirm their own fields: the identity card, the goal, the intents and the security boundary. */
  lemma StepsConfirmTheirFields(p: Path)
    ensures p in StepPaths(2) <==> p in IDENTITY_PATHS
    ensures p in StepPaths(3) <==> p == ["network_goal"]
    ensures p in StepPaths(4) <==> p == ["intent_actions"]
    ensures p in StepPaths(5) <==> p in BOUNDARY_PATHS
  {
    assert |IDENTITY_PATHS| == 12 && |BOUNDARY_PATHS| == 4;
    assert PATHS[..12] == IDENTITY_PATHS;
    assert PATHS[12..16] == BOUNDARY_PATHS;
    assert PATHS[16..17] == [["network_goal"]];
    assert PATHS[17..18] == [["intent_actions"]];
  }

  /** Once a human owns a field, they own it after any run that follows. */
  lemma {:induction false} OwnershipIsForever(s: Stored, ops: seq<DraftOp>, p: Path)
    requires AllWellFormed(s.entries) && HumanOwns(s, p)
    ensures HumanOwns(DraftRun(s, ops), p)
    decreases |ops|
  {
    if ops != [] {
      StepKeepsWellFormed(s, ops[0]);
      StepKeepsOwnership(s, ops[0], p);
      OwnershipIsForever(DraftStep(s, ops[0]), ops[1..], p);
    }
  }

  /** However many drafts the Agent sends, a field the human owns keeps its value and its entry. */
  lemma {:induction false} AgentNeverOverwrites(s: Stored, ops: seq<DraftOp>, p: Path)
    requires AllWellFormed(s.entries) && HumanOwns(s, p) && Known(p)
    requires forall i | 0 <= i < |ops| :: FromAgent(ops[i])
    ensures p != [] && p in DraftRun(s, ops).entries
    ensures DraftRun(s, ops).entries[p] == s.entries[p] && Get(DraftRun(s, ops).tree, p) == Get(s.tree, p)
    decreases |ops|
  {
    MergedValue(s.tree, s.tree, s.entries, AgentPrefill, p);
    if ops != [] {
      assert FromAgent(ops[0]);
      StepKeepsWellFormed(s, ops[0]);
      StepKeepsOwnership(s, ops[0], p);
      AgentNeverOverwrites(DraftStep(s, ops[0]), ops[1..], p);
    }
  }

  /**
   * After a human edit that changes a field, or the confirmation of its step while it holds a
   * value, the human owns it.
   */
  lemma HumanTakesOwnership(s: Stored, op: DraftOp, p: Path)
    requires AllWellFormed(s.entries) && Known(p) && p != []
    requires || (op.Put? && op.byHuman && Get(s.tree, p) != Get(op.incoming, p))
             || (op.Confirm? && p in StepPaths(op.step) && Meaningful(Get(op.normalized, p)))
    ensures HumanOwns(DraftStep(s, op), p)
    ensures op.Put? ==> Get(DraftStep(s, op).tree, p) == Get(op.incoming, p)
  {
    if op.Put? {
      MergedValue(s.tree, op.incoming, Effective(s, s.tree, op.now), HumanEdit, p);
    }
  }
}
