/**
 * The loops behind field ownership: merging an incoming draft in place, deriving
 * the first entries, confirming a step, and sorting the blocked paths.
 */
module DraftMerge {
  import opened Common
  import opened DraftOwnership

  // ----------------------------------------------------- order of dotted paths

  function Dotted(path: Path): string {
    if path == [] then "" else if |path| == 1 then path[0] else path[0] + "." + Dotted(path[1..])
  }

  predicate TextLe(left: string, right: string) {
    left == [] || (right != [] && (left[0] < right[0] || (left[0] == right[0] && TextLe(left[1..], right[1..]))))
  }

  lemma {:induction false} TextLeTotal(left: string, right: string)
    ensures TextLe(left, right) || TextLe(right, left)
  {
    if left != [] && right != [] && left[0] == right[0] {
      TextLeTotal(left[1..], right[1..]);
    }
  }

  lemma {:induction false} TextLeTransitive(a: string, b: string, c: string)
    requires TextLe(a, b) && TextLe(b, c)
    ensures TextLe(a, c)
  {
    if a != [] && a[0] == b[0] == c[0] {
      TextLeTransitive(a[1..], b[1..], c[1..]);
    }
  }

  predicate PathLe(left: Path, right: Path) {
    TextLe(Dotted(left), Dotted(right))
  }

  ghost predicate Sorted(paths: seq<Path>) {
    forall i, j | 0 <= i < j < |paths| :: PathLe(paths[i], paths[j])
  }

  predicate Distinct(paths: seq<Path>) {
    forall i, j | 0 <= i < j < |paths| :: paths[i] != paths[j]
  }

  lemma InsertedSorted(sorted: seq<Path>, i: int, p: Path)
    requires Sorted(sorted) && 0 <= i <= |sorted|
    requires i > 0 ==> PathLe(sorted[i - 1], p)
    requires i < |sorted| ==> PathLe(p, sorted[i])
    ensures Sorted(sorted[..i] + [p] + sorted[i..])
  {
    forall k | 0 <= k < i ensures PathLe(sorted[k], p) {
      if k < i - 1 { TextLeTransitive(Dotted(sorted[k]), Dotted(sorted[i - 1]), Dotted(p)); }
    }
    forall k | i <= k < |sorted| ensures PathLe(p, sorted[k]) {
      if k > i { TextLeTransitive(Dotted(p), Dotted(sorted[i]), Dotted(sorted[k])); }
    }
  }

  /** Inserts a path behind the smaller ones. */
  method InsertPath(sorted: seq<Path>, p: Path) returns (r: seq<Path>)
    requires Sorted(sorted)
    ensures Sorted(r) && multiset(r) == multiset(sorted) + multiset{p}
  {
    var i := |sorted|;
    while i > 0 && !PathLe(sorted[i - 1], p)
      invariant 0 <= i <= |sorted|
      invariant i < |sorted| ==> PathLe(p, sorted[i])
    {
      TextLeTotal(Dotted(sorted[i - 1]), Dotted(p));
      i := i - 1;
    }
    InsertedSorted(sorted, i, p);
    r := sorted[..i] + [p] + sorted[i..];
    assert sorted == sorted[..i] + sorted[i..];
  }

  method SortPaths(paths: seq<Path>) returns (r: seq<Path>)
    ensures Sorted(r) && multiset(r) == multiset(paths)
  {
    r := [];
    for i := 0 to |paths|
      invariant Sorted(r) && multiset(r) == multiset(paths[..i])
    {
      r := InsertPath(r, paths[i]);
      assert paths[..i + 1] == paths[..i] + [paths[i]];
    }
    assert paths[..|paths|] == paths;
  }

  lemma {:induction false} DistinctIsMultiplicity(paths: seq<Path>)
    ensures Distinct(paths) <==> forall p | p in multiset(paths) :: multiset(paths)[p] == 1
  {
    if paths != [] {
      var n := |paths| - 1;
      var before, last := paths[..n], paths[n];
      DistinctIsMultiplicity(before);
      assert paths == before + [last];
      assert multiset(paths) == multiset(before) + multiset{last};
      if Distinct(paths) {
        assert last !in before;
        assert multiset(before)[last] == 0;
      } else if Distinct(before) {
        assert last in before;
        assert multiset(paths)[last] >= 2;
      } else {
        var p :| p in multiset(before) && multiset(before)[p] != 1;
        assert multiset(paths)[p] >= 2;
      }
    }
  }

  // ------------------------------------------------------------------ reading

  /** Follows a path from the root, as far as it leads through objects. */
  method FindValue(root: Object, path: Path) returns (value: Option<Json>)
    requires path != []
    ensures value == Get(root, path)
  {
    var current := Obj(root);
    for i := 0 to |path|
      invariant i < |path| && current.Obj? ==> Get(root, path) == Get(current.fields, path[i..])
      invariant i < |path| && !current.Obj? ==> Get(root, path) == None
      invariant i == |path| ==> Get(root, path) == Some(current)
    {
      if !current.Obj? || path[i] !in current.fields {
        return None;
      }
      assert path[i..][0] == path[i] && |path[i..]| == |path| - i;
      if i + 1 < |path| { assert path[i..][1..] == path[i + 1..]; }
      current := current.fields[path[i]];
    }
    value := Some(current);
  }

  // ------------------------------------------------------------------ merging

  /** The draft being merged: the incoming tree, which the merge changes while reading it. */
  class DraftTree {
    var root: Object

    constructor (incoming: Object)
      ensures root == incoming
    {
      root := incoming;
    }

    method SetValue(path: Path, value: Option<Json>)
      requires path != []
      modifies this
      ensures root == Set(old(root), path, value)
    {
      root := Set(root, path, value);
    }
  }

  /** Keeps the entries whose sources and actor are recognised. */
  method KeepWellFormed(entries: Entries) returns (kept: Entries)
    ensures forall p :: Lookup(kept, p) == WellFormedEntry(entries, p)
  {
    kept := map p | p in entries && WellFormed(entries[p]) :: entries[p];
  }

  /** The new entry of a field that is not owned by a human, or None when it loses its entry. */
  method NextEntry(writer: Writer, before: Option<Json>, after: Option<Json>, known: Option<Provenance>, source: Source,
                   now: int)
    returns (next: Option<Provenance>)
    requires !Owned(writer, known)
    ensures next == MergedEntry(writer, before, after, known, source, now)
  {
    var hasEntry := known.Some?;
    var entry := if hasEntry then known.value else NO_ENTRY;
    if before == after {
      if writer == AgentPrefill && Meaningful(after) && AgentSource(source) && !entry.confirmed {
        if !hasEntry { entry := entry.(origin := source); }
        entry := entry.(value := source, lastActor := AgentActor);
        if source == SystemGenerated { entry := entry.(lastActor := SystemActor); }
        return Some(entry.(updatedAt := now));
      }
      return known;
    }
    if writer == HumanEdit {
      if !hasEntry { entry := entry.(origin := HumanInput); }
      return Some(entry.(value := HumanInput, lastActor := HumanActor, confirmed := true, updatedAt := now));
    }
    if !Meaningful(after) { return None; }
    var base := BaseEntry(writer, now);
    if writer == AgentPrefill {
      var chosen := source;
      if !AgentSource(chosen) { chosen := AgentInferred; }
      base := base.(origin := chosen, value := chosen);
      if chosen == SystemGenerated { base := base.(lastActor := SystemActor); }
    }
    if hasEntry { base := base.(origin := entry.origin); }
    next := Some(base);
  }

  /** The entries after the first `n` paths. */
  ghost predicate EntriesDone(paths: seq<Path>, kept: Entries, previous: Object, incoming: Object, entries: Entries,
                              writer: Writer,
                              requested: map<Path, Source>, now: int, n: nat)
    requires n <= |paths|
  {
    && (forall j | 0 <= j < n ::
        Lookup(kept, paths[j]) == EntryAfterMerge(paths, previous, incoming, entries, writer, requested, now, paths[j]))
    && (forall p | p !in paths[..n] :: Lookup(kept, p) == WellFormedEntry(entries, p))
  }

  lemma PathNotEarlier(paths: seq<Path>, i: int)
    requires PrefixFree(paths) && 0 <= i < |paths|
    ensures paths[i] !in paths[..i] && forall j | 0 <= j < i :: paths[j] != paths[i]
  {
    forall j | 0 <= j < i ensures paths[j] != paths[i] {
      assert Apart(paths[j], paths[i]);
    }
  }

  lemma EntryRecorded(paths: seq<Path>, kept: Entries, kept': Entries, previous: Object, incoming: Object,
                      entries: Entries, writer: Writer,
                      requested: map<Path, Source>, now: int, i: nat)
    requires PrefixFree(paths) && i < |paths|
        && EntriesDone(paths, kept, previous, incoming, entries, writer, requested, now, i)
    requires forall p | p != paths[i] :: Lookup(kept', p) == Lookup(kept, p)
    requires Lookup(kept', paths[i])
        == EntryAfterMerge(paths, previous, incoming, entries, writer, requested, now, paths[i])
    ensures EntriesDone(paths, kept', previous, incoming, entries, writer, requested, now, i + 1)
  {
    PathNotEarlier(paths, i);
    assert paths[..i + 1] == paths[..i] + [paths[i]];
  }

  lemma EntriesAreMerged(paths: seq<Path>, kept: Entries, previous: Object, incoming: Object, entries: Entries,
                         writer: Writer,
                         requested: map<Path, Source>, now: int)
    requires EntriesDone(paths, kept, previous, incoming, entries, writer, requested, now, |paths|)
    ensures kept == MergedEntries(paths, previous, incoming, entries, writer, requested, now)
  {
    assert paths[..|paths|] == paths;
    forall p ensures Lookup(kept, p) == EntryAfterMerge(paths, previous, incoming, entries, writer, requested, now, p) {
      if p in paths {
        var j :| 0 <= j < |paths| && paths[j] == p;
      }
    }
    var merged := MergedEntries(paths, previous, incoming, entries, writer, requested, now);
    forall p ensures p in kept <==> p in merged
             ensures p in kept ==> kept[p] == merged[p]
    {
      assert Lookup(kept, p) == EntryAfterMerge(paths, previous, incoming, entries, writer, requested, now, p);
    }
  }

  ghost predicate FoundBlocked(paths: seq<Path>, found: seq<Path>, incoming: Object, entries: Entries, writer: Writer,
                               n: nat)
    requires n <= |paths|
  {
    && (forall p | p in found :: p in paths[..n])
    && (forall j | 0 <= j < n :: paths[j] in found <==> Blocked(paths, incoming, entries, writer, paths[j]))
    && Distinct(found)
  }

  lemma BlockedRecorded(paths: seq<Path>, found: seq<Path>, found': seq<Path>, incoming: Object, entries: Entries,
                        writer: Writer, i: nat)
    requires PrefixFree(paths) && i < |paths| && FoundBlocked(paths, found, incoming, entries, writer, i)
    requires found' == if Blocked(paths, incoming, entries, writer, paths[i]) then found + [paths[i]] else found
    ensures FoundBlocked(paths, found', incoming, entries, writer, i + 1)
  {
    PathNotEarlier(paths, i);
    assert paths[..i + 1] == paths[..i] + [paths[i]];
    assert paths[i] !in found;
  }

  lemma BlockedAreFound(paths: seq<Path>, found: seq<Path>, blocked: seq<Path>, incoming: Object, entries: Entries,
                        writer: Writer)
    requires multiset(blocked) == multiset(found) && FoundBlocked(paths, found, incoming, entries, writer, |paths|)
    ensures Distinct(blocked)
    ensures forall p :: p in blocked <==> Blocked(paths, incoming, entries, writer, p)
  {
    DistinctIsMultiplicity(found);
    DistinctIsMultiplicity(blocked);
    assert paths[..|paths|] == paths;
    forall p ensures p in blocked <==> Blocked(paths, incoming, entries, writer, p) {
      assert p in blocked <==> p in multiset(blocked);
      assert p in found <==> p in multiset(found);
      if p in paths {
        var j :| 0 <= j < |paths| && paths[j] == p;
      }
    }
  }

  /** One pass of the merge loop over a field; a blocked field is put back and reported. */
  method MergeField(path: Path, previous: Object, tree: DraftTree, kept: Entries, writer: Writer,
                    requested: map<Path, Source>, now: int)
    returns (next: Option<Provenance>, blocked: bool)
    requires path != []
    modifies tree
    ensures var known, newValue := Lookup(kept, path), Get(old(tree.root), path);
            && tree.root == (if Owned(writer, known) then Set(old(tree.root), path, Get(previous, path))
                             else old(tree.root))
            && blocked == (Owned(writer, known) && newValue.Some?)
            && next == MergedEntry(writer, Get(previous, path), newValue, known, Requested(requested, path), now)
  {
    var oldValue := FindValue(previous, path);
    var newValue := FindValue(tree.root, path);
    var known := if path in kept then Some(kept[path]) else None;
    if writer == AgentPrefill && known.Some? && known.value.confirmed {
      tree.SetValue(path, oldValue);
      return known, newValue.Some?;
    }
    var source := if path in requested then requested[path] else OtherSource("");
    next := NextEntry(writer, oldValue, newValue, known, source, now);
    blocked := false;
  }

  lemma NothingMerged(paths: seq<Path>, kept: Entries, previous: Object, incoming: Object, entries: Entries,
                      writer: Writer, requested: map<Path, Source>, now: int)
    requires forall p :: Lookup(kept, p) == WellFormedEntry(entries, p)
    ensures MergedTree(paths, previous, incoming, entries, writer, 0) == incoming
    ensures EntriesDone(paths, kept, previous, incoming, entries, writer, requested, now, 0)
    ensures FoundBlocked(paths, [], incoming, entries, writer, 0)
  {
  }

  /** What is known about the next field when the earlier ones are merged. */
  lemma FieldIsMerged(paths: seq<Path>, kept: Entries, tree: Object, previous: Object, incoming: Object,
                      entries: Entries, writer: Writer, requested: map<Path, Source>, now: int, i: nat)
    requires PrefixFree(paths) && i < |paths|
    requires tree == MergedTree(paths, previous, incoming, entries, writer, i)
    requires EntriesDone(paths, kept, previous, incoming, entries, writer, requested, now, i)
    ensures var path := paths[i];
            var known := Lookup(kept, path);
            && path != []
            && MergedTree(paths, previous, incoming, entries, writer, i + 1)
               == (if Owned(writer, known) then Set(tree, path, Get(previous, path)) else tree)
            && EntryAfterMerge(paths, previous, incoming, entries, writer, requested, now, path)
               == MergedEntry(writer, Get(previous, path), Get(tree, path), known, Requested(requested, path), now)
            && (Blocked(paths, incoming, entries, writer, path) <==> Owned(writer, known) && Get(tree, path).Some?)
  {
    hide Get, Set, MergedEntry;
    MergedTreeAt(paths, previous, incoming, entries, writer, i, i);
    PathNotEarlier(paths, i);
  }

  /**
   * Merges `previous` into the incoming tree in place, reading the tree it is
   * changing. The tree, the entries and the list of blocked paths are what the
   * definitions of field ownership say.
   */
  method MergeAlong(paths: seq<Path>, previous: Object, tree: DraftTree, entries: Entries, writer: Writer,
                    requested: map<Path, Source>, now: int)
    returns (kept: Entries, blocked: seq<Path>)
    requires PrefixFree(paths)
    modifies tree
    ensures tree.root == MergedTree(paths, previous, old(tree.root), entries, writer, |paths|)
    ensures kept == MergedEntries(paths, previous, old(tree.root), entries, writer, requested, now)
    ensures Sorted(blocked) && Distinct(blocked)
    ensures forall p :: p in blocked <==> Blocked(paths, old(tree.root), entries, writer, p)
  {
    hide Get, Set, MergedEntry, MergedEntries, MergedTree, EntryAfterMerge, Blocked, Owned, WellFormedEntry, Sorted,
         EntriesDone, FoundBlocked, PrefixFree;
    ghost var incoming := tree.root;
    kept := KeepWellFormed(entries);
    NothingMerged(paths, kept, previous, incoming, entries, writer, requested, now);
    var found := [];
    for i := 0 to |paths|
      invariant tree.root == MergedTree(paths, previous, incoming, entries, writer, i)
      invariant EntriesDone(paths, kept, previous, incoming, entries, writer, requested, now, i)
      invariant FoundBlocked(paths, found, incoming, entries, writer, i)
    {
      var path := paths[i];
      FieldIsMerged(paths, kept, tree.root, previous, incoming, entries, writer, requested, now, i);
      ghost var before, foundBefore := kept, found;
      var next, isBlocked := MergeField(path, previous, tree, kept, writer, requested, now);
      kept := if next.Some? then kept[path := next.value] else kept - {path};
      if isBlocked { found := found + [path]; }
      EntryRecorded(paths, before, kept, previous, incoming, entries, writer, requested, now, i);
      BlockedRecorded(paths, foundBefore, found, incoming, entries, writer, i);
    }
    EntriesAreMerged(paths, kept, previous, incoming, entries, writer, requested, now);
    blocked := SortPaths(found);
    BlockedAreFound(paths, found, blocked, incoming, entries, writer);
  }

  /** The merge of onboarding drafts, over the known paths. */
  method Merge(previous: Object, tree: DraftTree, entries: Entries, writer: Writer, requested: map<Path, Source>,
               now: int)
    returns (kept: Entries, blocked: seq<Path>)
    modifies tree
    ensures tree.root == MergedTree(PATHS, previous, old(tree.root), entries, writer, |PATHS|)
    ensures kept == MergedEntries(PATHS, previous, old(tree.root), entries, writer, requested, now)
    ensures Sorted(blocked) && Distinct(blocked)
    ensures forall p :: p in blocked <==> Blocked(PATHS, old(tree.root), entries, writer, p)
  {
    KnownPathsArePrefixFree();
    kept, blocked := MergeAlong(PATHS, previous, tree, entries, writer, requested, now);
  }

  // --------------------------------------------------- first entries, confirmation

  method DeriveInitial(draft: Object, writer: Writer, requested: map<Path, Source>, now: int) returns (result: Entries)
    ensures result == Derived(draft, writer, requested, now)
  {
    result := map[];
    var base := BaseEntry(writer, now);
    for i := 0 to |PATHS|
      invariant forall p :: p in result <==> p in PATHS[..i] && p != [] && Meaningful(Get(draft, p))
      invariant forall p | p in result :: result[p] == InitialEntry(writer, Requested(requested, p), now)
    {
      var path := PATHS[i];
      KnownShapes(i);
      assert PATHS[..i + 1] == PATHS[..i] + [path];
      var value := FindValue(draft, path);
      if Meaningful(value) {
        var entry := base;
        if writer == AgentPrefill {
          var source := if path in requested then requested[path] else OtherSource("");
          if AgentSource(source) {
            entry := entry.(origin := source, value := source);
            if source == SystemGenerated { entry := entry.(lastActor := SystemActor); }
          }
        }
        result := result[path := entry];
      }
    }
    assert PATHS[..|PATHS|] == PATHS;
  }

  method ConfirmAlong(paths: seq<Path>, draft: Object, entries: Entries, now: int) returns (result: Entries)
    requires forall k | 0 <= k < |paths| :: paths[k] != []
    ensures result == ConfirmedEntries(paths, draft, entries, now)
  {
    result := entries;
    for k := 0 to |paths|
      invariant forall p :: p in result <==> p in entries || Confirms(paths[..k], draft, entries, p)
      invariant forall p | p in result ::
                  result[p] == if Confirms(paths[..k], draft, entries, p) then ConfirmedEntry(Lookup(entries, p), now)
                      else entries[p]
    {
      var path := paths[k];
      assert paths[..k + 1] == paths[..k] + [path];
      var value := FindValue(draft, path);
      var known := if path in entries then Some(entries[path]) else None;
      if known.Some? || Meaningful(value) {
        var entry := if known.Some? then known.value else NO_ENTRY.(origin := HumanInput, value := HumanInput);
        result := result[path := entry.(lastActor := HumanActor, confirmed := true, updatedAt := now)];
      }
    }
    assert paths[..|paths|] == paths;
  }

  lemma StepPathsNonempty(step: int, k: int)
    requires 0 <= k < |StepPaths(step)|
    ensures StepPaths(step)[k] != []
  {
    var lo := if step == 3 then 16 else if step == 4 then 17 else if step == 5 then 12 else 0;
    assert StepPaths(step)[k] == PATHS[lo + k];
    KnownShapes(lo + k);
  }

  method ConfirmStep(draft: Object, entries: Entries, step: int, now: int) returns (result: Entries)
    ensures result == ConfirmedEntries(StepPaths(step), draft, entries, now)
  {
    forall k | 0 <= k < |StepPaths(step)| ensures StepPaths(step)[k] != [] {
      StepPathsNonempty(step, k);
    }
    result := ConfirmAlong(StepPaths(step), draft, entries, now);
  }
}
