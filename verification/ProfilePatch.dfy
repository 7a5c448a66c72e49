/**
 * Versioned profile patches of one Agent: semantic no-ops are filtered, facts and
 * version change together, and an audit event records what really changed.
 */
module ProfilePatch {
  import opened Common
  import opened DraftOwnership

  /** The name and the description live in the agents row, every other field in the profile document. */
  datatype Field = AgentName | AgentDescription | ProfileField(name: string)

  /** The audited facts; the English name is kept beside them and not audited. */
  datatype Facts = Facts(name: string, bio: string, data: map<string, Json>)

  /** `previous` has no entry for a field that had no value. */
  datatype Event = Event(version: int, previous: map<Field, Json>, next: map<Field, Json>)

  datatype Profile = Profile(facts: Facts, englishName: string, version: int, events: seq<Event>)

  datatype Patch = Patch(expected: int, updates: map<Field, Json>)

  datatype Reply = Applied(version: int, changed: set<Field>) | VersionConflict | Rejected

  function Value(f: Facts, field: Field): Option<Json> {
    match field
    case AgentName => Some(Str(f.name))
    case AgentDescription => Some(Str(f.bio))
    case ProfileField(name) => Lookup(f.data, name)
  }

  /** The name and the description are texts, and the name is not empty. */
  predicate ValidUpdates(updates: map<Field, Json>) {
    && (AgentName in updates ==> updates[AgentName].Str? && updates[AgentName].s != "")
    && (AgentDescription in updates ==> updates[AgentDescription].Str?)
  }

  function Changed(f: Facts, updates: map<Field, Json>): set<Field> {
    set field | field in updates && Value(f, field) != Some(updates[field])
  }

  // ------------------------------------------------------------------- writing facts

  /** The text written to a field of the agents row, or the one it has. */
  function Text(written: map<Field, Json>, field: Field, otherwise: string): string {
    if field in written && written[field].Str? then written[field].s else otherwise
  }

  function DataWritten(written: map<Field, Json>): map<string, Json> {
    map field | field in written && field.ProfileField? :: field.name := written[field]
  }

  /** Facts with values written to fields, and other fields removed from the document. */
  function Write(f: Facts, written: map<Field, Json>, removed: set<Field>): Facts {
    Facts(Text(written, AgentName, f.name), Text(written, AgentDescription, f.bio),
          (f.data - (set field | field in removed && field.ProfileField? :: field.name)) + DataWritten(written))
  }

  function Redo(f: Facts, e: Event): Facts {
    Write(f, e.next, {})
  }

  function Undo(f: Facts, e: Event): Facts {
    Write(f, e.previous, e.next.Keys - e.previous.Keys)
  }

  function EventOf(p: Profile, updates: map<Field, Json>): Event {
    var changed := Changed(p.facts, updates);
    Event(p.version + 1, map field | field in changed && Value(p.facts, field).Some? :: Value(p.facts, field).value,
          map field | field in changed :: updates[field])
  }

  /** The facts an event leads to, the next version and the event itself. */
  function Recorded(p: Profile, e: Event): Profile {
    Profile(Redo(p.facts, e), if AgentName in e.next then "" else p.englishName, p.version + 1, p.events + [e])
  }

  function PatchTx(p: Profile, r: Patch): (Profile, Reply) {
    if r.updates.Keys == {} || !ValidUpdates(r.updates) then (p, Rejected)
    else if p.version != r.expected then (p, VersionConflict)
    else
      var changed := Changed(p.facts, r.updates);
      if changed == {} then (p, Applied(p.version, {}))
      else (Recorded(p, EventOf(p, r.updates)), Applied(p.version + 1, changed))
  }

  /** The console's form of the name and the description carries no expected version. */
  function ConsoleTx(p: Profile, name: string, bio: string): (Profile, Reply) {
    PatchTx(p, Patch(p.version, map[AgentName := Str(name), AgentDescription := Str(bio)]))
  }

  datatype Op = Versioned(patch: Patch) | Console(name: string, bio: string)

  function Step(p: Profile, op: Op): Profile {
    match op
    case Versioned(patch) => PatchTx(p, patch).0
    case Console(name, bio) => ConsoleTx(p, name, bio).0
  }

  function Run(p: Profile, ops: seq<Op>): Profile
    decreases |ops|
  {
    if ops == [] then p else Run(Step(p, ops[0]), ops[1..])
  }

  // ------------------------------------------------------------ replaying the audit log

  function RedoAll(f: Facts, events: seq<Event>): Facts {
    if events == [] then f else Redo(RedoAll(f, events[..|events| - 1]), events[|events| - 1])
  }

  /** Undoes the events in reverse order. */
  function UndoAll(f: Facts, events: seq<Event>): Facts
    decreases |events|
  {
    if events == [] then f else UndoAll(Undo(f, events[|events| - 1]), events[..|events| - 1])
  }

  /** After a write every written field has its value, a removed one has none, and the others are as before. */
  lemma WrittenValues(f: Facts, written: map<Field, Json>, removed: set<Field>, field: Field)
    requires AgentName in written ==> written[AgentName].Str?
    requires AgentDescription in written ==> written[AgentDescription].Str?
    requires AgentName !in removed && AgentDescription !in removed
    ensures Value(Write(f, written, removed), field)
         == if field in written then Some(written[field]) else if field in removed then None else Value(f, field)
  {
    if field.ProfileField? {
      var gone := set other | other in removed && other.ProfileField? :: other.name;
      assert field.name in gone <==> field in removed by {
        if field in removed { assert field.name in gone; }
        if field.name in gone {
          var other :| other in removed && other.ProfileField? && other.name == field.name;
          assert other == field;
        }
      }
      assert field.name in DataWritten(written) <==> field in written by {
        if field.name in DataWritten(written) {
          var other :| other in written && other.ProfileField? && other.name == field.name;
          assert other == field;
        }
      }
    }
  }

  /** Facts are equal when all their fields are. */
  lemma SameValues(left: Facts, right: Facts)
    requires forall field :: Value(left, field) == Value(right, field)
    ensures left == right
  {
    assert Value(left, AgentName) == Value(right, AgentName);
    assert Value(left, AgentDescription) == Value(right, AgentDescription);
    forall name ensures Lookup(left.data, name) == Lookup(right.data, name) {
      assert Value(left, ProfileField(name)) == Value(right, ProfileField(name));
    }
    assert forall name :: name in left.data <==> Lookup(left.data, name).Some?;
    assert forall name :: name in right.data <==> Lookup(right.data, name).Some?;
    assert left.data == right.data;
  }

  lemma EventValues(p: Profile, updates: map<Field, Json>, field: Field)
    requires ValidUpdates(updates)
    ensures Value(Redo(p.facts, EventOf(p, updates)), field)
         == if field in Changed(p.facts, updates) then Some(updates[field]) else Value(p.facts, field)
    ensures Value(Undo(Redo(p.facts, EventOf(p, updates)), EventOf(p, updates)), field) == Value(p.facts, field)
  {
    var e := EventOf(p, updates);
    WrittenValues(p.facts, e.next, {}, field);
    assert Value(p.facts, AgentName).Some? && Value(p.facts, AgentDescription).Some?;
    WrittenValues(Redo(p.facts, e), e.previous, e.next.Keys - e.previous.Keys, field);
  }

  /** One event undoes exactly what it did. */
  lemma UndoRestores(p: Profile, updates: map<Field, Json>)
    requires ValidUpdates(updates)
    ensures Undo(Redo(p.facts, EventOf(p, updates)), EventOf(p, updates)) == p.facts
  {
    var e := EventOf(p, updates);
    forall field ensures Value(Undo(Redo(p.facts, e), e), field) == Value(p.facts, field) {
      EventValues(p, updates, field);
    }
    SameValues(Undo(Redo(p.facts, e), e), p.facts);
  }

  // ------------------------------------------------------------------------ invariant

  /** An event records only real changes, and at least one. */
  ghost predicate RealChanges(e: Event) {
    && e.next.Keys != {} && e.previous.Keys <= e.next.Keys
    && forall field | field in e.next :: Lookup(e.previous, field) != Some(e.next[field])
  }

  ghost predicate RoundTrip(start: Facts, f: Facts, events: seq<Event>) {
    RedoAll(start, events) == f && UndoAll(f, events) == start
  }

  predicate Renames(events: seq<Event>) {
    exists i :: 0 <= i < |events| && AgentName in events[i].next
  }

  /** The audit log leads from the initial profile to this one, and back. */
  ghost predicate Audited(start: Profile, p: Profile) {
    && RoundTrip(start.facts, p.facts, p.events)
    && p.version == start.version + |p.events|
    && (forall i | 0 <= i < |p.events| :: p.events[i].version == start.version + 1 + i && RealChanges(p.events[i]))
    && p.englishName == (if Renames(p.events) then "" else start.englishName)
  }

  lemma EventIsReal(p: Profile, updates: map<Field, Json>)
    requires Changed(p.facts, updates) != {}
    ensures RealChanges(EventOf(p, updates))
  {
    var e := EventOf(p, updates);
    assert e.next.Keys == Changed(p.facts, updates);
    forall field | field in e.next ensures Lookup(e.previous, field) != Some(e.next[field]) {
      assert Value(p.facts, field) != Some(updates[field]);
    }
  }

  lemma RoundTripGrows(start: Facts, f: Facts, events: seq<Event>, e: Event)
    requires RoundTrip(start, f, events) && Undo(Redo(f, e), e) == f
    ensures RoundTrip(start, Redo(f, e), events + [e])
  {
    assert (events + [e])[..|events|] == events;
  }

  lemma RenamesGrows(events: seq<Event>, e: Event)
    ensures Renames(events + [e]) <==> AgentName in e.next || Renames(events)
  {
    var grown := events + [e];
    if i :| 0 <= i < |events| && AgentName in events[i].next {
      assert grown[i] == events[i];
    }
    assert grown[|events|] == e;
    if i :| 0 <= i < |grown| && AgentName in grown[i].next {
      assert i < |events| ==> events[i] == grown[i];
    }
  }

  lemma RecordKeeps(start: Profile, p: Profile, e: Event)
    requires Audited(start, p) && RealChanges(e) && e.version == p.version + 1 && Undo(Redo(p.facts, e), e) == p.facts
    ensures Audited(start, Recorded(p, e))
  {
    hide RoundTrip, RealChanges, Renames, Redo, Undo;
    RoundTripGrows(start.facts, p.facts, p.events, e);
    RenamesGrows(p.events, e);
  }

  lemma PatchKeeps(start: Profile, p: Profile, r: Patch)
    requires Audited(start, p)
    ensures Audited(start, PatchTx(p, r).0)
  {
    hide Audited, Redo, Undo, Recorded;
    if PatchTx(p, r).0 != p {
      UndoRestores(p, r.updates);
      EventIsReal(p, r.updates);
      RecordKeeps(start, p, EventOf(p, r.updates));
      assert PatchTx(p, r).0 == Recorded(p, EventOf(p, r.updates));
    }
  }

  lemma {:induction false} RunKeeps(start: Profile, p: Profile, ops: seq<Op>)
    requires Audited(start, p)
    ensures Audited(start, Run(p, ops))
    decreases |ops|
  {
    if ops != [] {
      match ops[0] {
        case Versioned(patch) => PatchKeeps(start, p, patch);
        case Console(name, bio) =>
          PatchKeeps(start, p, Patch(p.version, map[AgentName := Str(name), AgentDescription := Str(bio)]));
      }
      RunKeeps(start, Step(p, ops[0]), ops[1..]);
    }
  }

  // ------------------------------------------------------------------------- theorems

  /**
   * Over any run, redoing the events over the initial facts gives the current
   * facts, undoing them in reverse restores the initial ones, and every event
   * records only real changes under consecutive versions.
   */
  lemma AuditRoundTrip(start: Profile, ops: seq<Op>)
    requires start.events == []
    ensures var p := Run(start, ops);
            && RoundTrip(start.facts, p.facts, p.events)
            && p.version == start.version + |p.events|
            && forall i | 0 <= i < |p.events| ::
                p.events[i].version == start.version + 1 + i && RealChanges(p.events[i])
  {
    RunKeeps(start, start, ops);
  }

  /** A patch whose values are all current changes nothing, and only such a patch is applied without a new version. */
  lemma NoOpChangesNothing(p: Profile, r: Patch)
    requires PatchTx(p, r).1.Applied?
    ensures PatchTx(p, r).1.changed == Changed(p.facts, r.updates)
    ensures (forall field | field in r.updates :: Value(p.facts, field) == Some(r.updates[field]))
        <==> PatchTx(p, r).0 == p
    ensures PatchTx(p, r).0 != p
        ==> PatchTx(p, r).0.version == p.version + 1 && |PatchTx(p, r).0.events| == |p.events| + 1
  {
    if forall field | field in r.updates :: Value(p.facts, field) == Some(r.updates[field]) {
      assert Changed(p.facts, r.updates) == {};
    } else {
      var field :| field in r.updates && Value(p.facts, field) != Some(r.updates[field]);
      assert field in Changed(p.facts, r.updates);
    }
  }

  /** After an applied patch every updated field has its new value and every other field its old one. */
  lemma PatchWrites(p: Profile, r: Patch, field: Field)
    requires PatchTx(p, r).1.Applied?
    ensures Value(PatchTx(p, r).0.facts, field) == if field in r.updates then Some(r.updates[field])
        else Value(p.facts, field)
  {
    var changed := Changed(p.facts, r.updates);
    if changed == {} {
      assert field in r.updates ==> field !in changed;
    } else {
      EventValues(p, r.updates, field);
    }
  }

  lemma {:induction false} VersionsGrow(p: Profile, ops: seq<Op>)
    ensures Run(p, ops).version >= p.version
    decreases |ops|
  {
    if ops != [] {
      VersionsGrow(Step(p, ops[0]), ops[1..]);
    }
  }

  /** Of two patches with the same expected version at most one makes changes, whatever happens in between. */
  lemma SameVersionWritesOnce(p: Profile, first: Patch, ops: seq<Op>, second: Patch)
    requires PatchTx(p, first).0 != p && second.expected == first.expected
    ensures PatchTx(Run(PatchTx(p, first).0, ops), second).0 == Run(PatchTx(p, first).0, ops)
    ensures !PatchTx(Run(PatchTx(p, first).0, ops), second).1.Applied?
  {
    VersionsGrow(PatchTx(p, first).0, ops);
  }

  /** The request is accepted in this state and carries another name. */
  predicate RenamesNow(p: Profile, r: Patch) {
    && ValidUpdates(r.updates) && p.version == r.expected
    && AgentName in r.updates && r.updates[AgentName] != Str(p.facts.name)
  }

  /** One patch keeps the English name if and only if there is none or the patch does not rename. */
  lemma PatchKeepsEnglishNameIff(p: Profile, r: Patch)
    ensures PatchTx(p, r).0.englishName == p.englishName <==> p.englishName == "" || !RenamesNow(p, r)
    ensures RenamesNow(p, r) ==> PatchTx(p, r).0.englishName == ""
  {
    assert RenamesNow(p, r) <==> PatchTx(p, r).1.Applied? && AgentName in Changed(p.facts, r.updates);
  }

  function PatchOf(p: Profile, op: Op): Patch {
    match op
    case Versioned(patch) => patch
    case Console(name, bio) => Patch(p.version, map[AgentName := Str(name), AgentDescription := Str(bio)])
  }

  /** Some request of the run renames when its turn comes. */
  predicate RenamesAlong(p: Profile, ops: seq<Op>)
    decreases |ops|
  {
    ops != [] && (RenamesNow(p, PatchOf(p, ops[0])) || RenamesAlong(Step(p, ops[0]), ops[1..]))
  }

  lemma {:induction false} EmptyStaysEmpty(p: Profile, ops: seq<Op>)
    requires p.englishName == ""
    ensures Run(p, ops).englishName == ""
    decreases |ops|
  {
    if ops != [] {
      PatchKeepsEnglishNameIff(p, PatchOf(p, ops[0]));
      hide Step;
      EmptyStaysEmpty(Step(p, ops[0]), ops[1..]);
    }
  }

  /**
   * The English name is cleared with a new name but not audited: after a run it is
   * what it was if and only if it was empty or no request renamed the Agent.
   */
  lemma {:induction false} EnglishNameSurvivesIff(p: Profile, ops: seq<Op>)
    ensures Run(p, ops).englishName == p.englishName <==> p.englishName == "" || !RenamesAlong(p, ops)
    decreases |ops|
  {
    if ops != [] {
      var r, next := PatchOf(p, ops[0]), Step(p, ops[0]);
      assert next == PatchTx(p, r).0;
      PatchKeepsEnglishNameIff(p, r);
      hide Step, PatchTx, RenamesNow;
      EnglishNameSurvivesIff(next, ops[1..]);
      if next.englishName == "" { EmptyStaysEmpty(next, ops[1..]); }
    }
  }

  /** The audit log shows as much: the name survives if and only if it was empty or no event changed the name. */
  lemma EnglishNameSurvivesIffLogged(start: Profile, ops: seq<Op>)
    requires start.events == []
    ensures Run(start, ops).englishName == start.englishName
       <==> start.englishName == "" || !Renames(Run(start, ops).events)
  {
    RunKeeps(start, start, ops);
  }

  /** Undoing the events after a first rename restores the audited facts, while the English name stays empty. */
  lemma RenameClearsEnglishName(start: Profile, r: Patch)
    requires start.events == [] && r.expected == start.version && ValidUpdates(r.updates)
    requires AgentName in r.updates && r.updates[AgentName] != Str(start.facts.name)
    ensures var p := PatchTx(start, r).0; UndoAll(p.facts, p.events) == start.facts && p.englishName == ""
  {
    hide Write, Redo, Undo;
    assert AgentName in Changed(start.facts, r.updates);
    PatchKeeps(start, start, r);
  }

  /** Renaming an Agent that has an English name loses it for good: undoing the event does not bring it back. */
  lemma EnglishNameIsLost()
    ensures var start := Profile(Facts("A", "", map[]), "A", 1, []);
            var p := PatchTx(start, Patch(1, map[AgentName := Str("B")])).0;
            UndoAll(p.facts, p.events) == start.facts && p.englishName != start.englishName
  {
    hide PatchTx, UndoAll;
    RenameClearsEnglishName(Profile(Facts("A", "", map[]), "A", 1, []), Patch(1, map[AgentName := Str("B")]));
  }

  // ------------------------------------------------------------- what a patch answers

  /** At least one field, a name that is a text and not empty, a description that is a text. */
  predicate WellFormedPatch(updates: map<Field, Json>) {
    && (exists field :: field in updates)
    && (AgentName in updates ==> updates[AgentName].Str? && updates[AgentName].s != "")
    && (AgentDescription in updates ==> updates[AgentDescription].Str?)
  }

  /**
   * A patch is applied exactly when it is well formed and expects the current
   * version. The version then rises exactly when some value is new, by one, and
   * the answer names the fields whose values were.
   */
  lemma PatchAnswers(p: Profile, r: Patch)
    ensures var (p', reply) := PatchTx(p, r);
            if !WellFormedPatch(r.updates) then (p', reply) == (p, Rejected)
            else if r.expected != p.version then (p', reply) == (p, VersionConflict)
            else
              && reply.Applied? && reply.version == p'.version
              && (forall field :: field in reply.changed
                              <==> field in r.updates && Value(p.facts, field) != Some(r.updates[field]))
              && p'.version == p.version + (if reply.changed == {} then 0 else 1)
              && |p'.events| == |p.events| + (if reply.changed == {} then 0 else 1)
  {
    assert r.updates.Keys != {} <==> exists field :: field in r.updates;
    hide EventOf, Redo;
  }

  /** The console's form is applied whenever the name is not empty, and leaves exactly that name and description. */
  lemma ConsoleFormIsApplied(p: Profile, name: string, bio: string)
    requires name != ""
    ensures var p' := ConsoleTx(p, name, bio).0;
            ConsoleTx(p, name, bio).1.Applied? && p'.facts == Facts(name, bio, p.facts.data)
  {
    var r := Patch(p.version, map[AgentName := Str(name), AgentDescription := Str(bio)]);
    assert AgentName in r.updates;
    PatchAnswers(p, r);
    forall field ensures Value(PatchTx(p, r).0.facts, field) == Value(Facts(name, bio, p.facts.data), field) {
      PatchWrites(p, r, field);
    }
    SameValues(PatchTx(p, r).0.facts, Facts(name, bio, p.facts.data));
  }

  // ------------------------------------------------------------- the handler in its own form

  lemma FilteredIsEvent(p: Profile, updates: map<Field, Json>, previous: map<Field, Json>, next: map<Field, Json>)
    requires next == map field | field in Changed(p.facts, updates) :: updates[field]
    requires previous == map field | field in Changed(p.facts, updates) && Value(p.facts, field).Some? ::
        Value(p.facts, field).value
    ensures next.Keys == Changed(p.facts, updates)
    ensures Event(p.version + 1, previous, next) == EventOf(p, updates)
  {
    hide Changed, Value;
  }

  class ProfileRows {
    var facts: Facts
    var englishName: string
    var version: int
    var events: seq<Event>

    constructor (start: Profile)
      ensures Snapshot() == start
    {
      facts, englishName, version, events := start.facts, start.englishName, start.version, start.events;
    }

    ghost function Snapshot(): Profile
      reads this
    {
      Profile(facts, englishName, version, events)
    }

    /** Goes through the requested fields and keeps the ones that would change, with the values they had. */
    method FilterNoOps(updates: map<Field, Json>) returns (previous: map<Field, Json>, next: map<Field, Json>)
      ensures next == map field | field in Changed(facts, updates) :: updates[field]
      ensures previous == map field | field in Changed(facts, updates) && Value(facts, field).Some? ::
          Value(facts, field).value
    {
      previous, next := map[], map[];
      var remaining := updates.Keys;
      while remaining != {}
        invariant remaining <= updates.Keys
        invariant forall field :: field in next <==> field in Changed(facts, updates) && field !in remaining
        invariant forall field | field in next :: next[field] == updates[field]
        invariant forall field :: field in previous <==> field in next && Value(facts, field).Some?
        invariant forall field | field in previous :: previous[field] == Value(facts, field).value
        decreases |remaining|
      {
        var field :| field in remaining;
        remaining := remaining - {field};
        var current := Value(facts, field);
        if current.None? || current.value != updates[field] {
          if current.Some? { previous := previous[field := current.value]; }
          next := next[field := updates[field]];
        }
      }
    }

    method PutProfileFields(r: Patch) returns (reply: Reply)
      modifies this
      ensures (Snapshot(), reply) == PatchTx(old(Snapshot()), r)
    {
      if r.updates.Keys == {} || !ValidUpdates(r.updates) { return Rejected; }
      if version != r.expected { return VersionConflict; }
      var previous, next := FilterNoOps(r.updates);
      FilteredIsEvent(Snapshot(), r.updates, previous, next);
      if next.Keys == {} { return Applied(version, {}); }
      var event := Event(version + 1, previous, next);
      if AgentName in next { englishName := ""; }
      facts := Write(facts, next, {});
      version := version + 1;
      events := events + [event];
      reply := Applied(version, next.Keys);
    }
  }
}
