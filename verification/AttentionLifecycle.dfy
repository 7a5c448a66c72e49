/**
 * What every run of attention transactions keeps: the coupling between an item
 * and its commands, and the fencing of command claims.
 */
module AttentionLifecycle {
  import opened Common
  import opened AttentionCommands

  // ------------------------------------------------ an item against its commands

  /** The commands ever created for an item. */
  ghost function CommandsOf(t: Tables, a: int): set<int> {
    set c | c in t.commands && t.commands[c].attention == Some(a)
  }

  predicate IsFinished(c: Command) {
    c.status == Completed || c.status == Failed
  }

  ghost function FinishedOf(t: Tables, a: int): set<int> {
    set c | c in t.commands && t.commands[c].attention == Some(a) && IsFinished(t.commands[c])
  }

  ghost function UnfinishedOf(t: Tables, a: int): set<int> {
    set c | c in t.commands && t.commands[c].attention == Some(a) && !IsFinished(t.commands[c])
  }

  ghost function CompletedOf(t: Tables, a: int): set<int> {
    set c | c in t.commands && t.commands[c].attention == Some(a) && t.commands[c].status == Completed
  }

  ghost predicate ItemInv(t: Tables, a: int)
    requires a in t.items
  {
    var item := t.items[a];
    && a < t.nextItem
    && ValidActions(item.actions)
    && |UnfinishedOf(t, a)| == (if item.status == Pending then 1 else 0)
    && |CompletedOf(t, a)| == (if item.status == Acted then 1 else 0)
    && item.revision == 1 + |CommandsOf(t, a)| + |FinishedOf(t, a)|
  }

  // --------------------------------------------------------- one command's claims

  /** Leases follow one another: each lasts the lease time and starts when its predecessor has ended. */
  ghost predicate OrderedLeases(leases: seq<Lease>, clock: int) {
    && (forall i | 0 <= i < |leases| :: leases[i].until == leases[i].from + COMMAND_LEASE_TTL)
    && (forall i | 0 <= i < |leases| :: leases[i].from <= clock)
    && (forall i, j | 0 <= i < j < |leases| :: leases[i].until <= leases[j].from)
  }

  /** The row shows the last lease granted, and nothing before the first one. */
  ghost predicate ShowsLastLease(id: int, c: Command, leases: seq<Lease>) {
    && c.epoch == c.attempts == |leases| && c.status != Notified
    && (c.epoch == 0 <==> c.status == Queued)
    && (c.epoch > 0 ==>
          && c.owner == Some(leases[c.epoch - 1].owner)
          && c.token == Some(ClaimToken(c.agent, id, leases[c.epoch - 1].owner, c.epoch))
          && c.claimUntil == Some(leases[c.epoch - 1].until))
  }

  /**
   * A row is finished exactly when one completion was recorded, inside the last lease, and it
   * still shows that outcome.
   */
  ghost predicate ShowsItsFinish(c: Command, leases: seq<Lease>, finishes: seq<Finish>) {
    && |finishes| == (if IsFinished(c) then 1 else 0)
    && (IsFinished(c) ==>
          && |leases| == c.epoch > 0
          && finishes[0].epoch == c.epoch
          && leases[c.epoch - 1].from <= finishes[0].at < leases[c.epoch - 1].until
          && c.status == finishes[0].status
          && c.result == Some(finishes[0].result)
          && c.completedAt == Some(finishes[0].completedAt))
  }

  /** The item offers an action under this key, and it is not a source link. */
  predicate OffersTerminal(item: Item, key: string) {
    var action := FindAction(item.actions, key);
    action.Some? && action.value.flag != "open_source"
  }

  /** Commands without an item come from the command route; the others answer an offered, terminal action. */
  ghost predicate OriginInv(t: Tables, c: Command) {
    && c.requiredRevision.Some? && c.requiredRevision.value > 0
    && if c.attention.Some? then
      && c.kind == ATTENTION_RESPONSE
      && c.payload == Payload(PROTOCOL, true)
      && c.attention.value in t.items
      && t.items[c.attention.value].agent == c.agent
      && c.requestHash.ResponseHash?
      && c.requestHash.attention == c.attention.value
      && OffersTerminal(t.items[c.attention.value], c.requestHash.actionKey)
    else
      ValidCommandType(c.kind) && c.requestHash.CommandHash?
  }

  ghost predicate CommandInv(t: Tables, id: int)
    requires id in t.commands
  {
    var c := t.commands[id];
    && id < t.nextCommand
    && (c.agent, c.key) in t.byKey && t.byKey[(c.agent, c.key)] == id
    && OriginInv(t, c)
    && id in t.leases && id in t.finishes
    && OrderedLeases(t.leases[id], t.clock)
    && ShowsLastLease(id, c, t.leases[id])
    && ShowsItsFinish(c, t.leases[id], t.finishes[id])
  }

  ghost predicate KeyInv(t: Tables, agent: int, key: string)
    requires (agent, key) in t.byKey
  {
    var id := t.byKey[(agent, key)];
    id in t.commands && t.commands[id].agent == agent && t.commands[id].key == key
  }

  ghost predicate Inv(t: Tables) {
    && (forall a | a in t.items :: ItemInv(t, a))
    && (forall id | id in t.commands :: CommandInv(t, id))
    && (forall agent, key | (agent, key) in t.byKey :: KeyInv(t, agent, key))
  }

  /** The command sets of an item look only at which of its commands exist and how they ended. */
  lemma SameCommandSets(t: Tables, t': Tables, a: int)
    requires forall c :: c in t.commands && t.commands[c].attention == Some(a)
                    <==> c in t'.commands && t'.commands[c].attention == Some(a)
    requires forall c | c in t.commands && t.commands[c].attention == Some(a) ::
               && IsFinished(t.commands[c]) == IsFinished(t'.commands[c])
               && (t.commands[c].status == Completed <==> t'.commands[c].status == Completed)
    ensures CommandsOf(t, a) == CommandsOf(t', a)
    ensures FinishedOf(t, a) == FinishedOf(t', a)
    ensures UnfinishedOf(t, a) == UnfinishedOf(t', a)
    ensures CompletedOf(t, a) == CompletedOf(t', a)
  {
    assert forall c :: c in CommandsOf(t, a) <==> c in CommandsOf(t', a);
    assert forall c :: c in FinishedOf(t, a) <==> c in FinishedOf(t', a);
    assert forall c :: c in UnfinishedOf(t, a) <==> c in UnfinishedOf(t', a);
    assert forall c :: c in CompletedOf(t, a) <==> c in CompletedOf(t', a);
  }

  // ------------------------------------------------------------- one step keeps it

  /** Rows outside the touched command and item look the same before and after. */
  ghost predicate RestAlike(t: Tables, t': Tables, id: int, a: Option<int>) {
    && t'.clock >= t.clock && t'.nextItem >= t.nextItem && t'.nextCommand >= t.nextCommand
    && t.items.Keys <= t'.items.Keys
    && (forall b | b in t.items :: t'.items[b].agent == t.items[b].agent && t'.items[b].actions == t.items[b].actions)
    && (forall b | b in t'.items && Some(b) != a :: b in t.items && t'.items[b] == t.items[b])
    && t.commands.Keys <= t'.commands.Keys <= t.commands.Keys + {id}
    && (forall c | c in t.commands && c != id :: t'.commands[c] == t.commands[c])
    && (id in t'.commands ==> t'.commands[id].attention == a)
    && (id in t.commands ==> t.commands[id].attention == a)
    && t.leases.Keys <= t'.leases.Keys && t.finishes.Keys <= t'.finishes.Keys
    && (forall c | c in t.leases && c != id :: t'.leases[c] == t.leases[c])
    && (forall c | c in t.finishes && c != id :: t'.finishes[c] == t.finishes[c])
  }

  lemma OtherItemsKeep(t: Tables, t': Tables, id: int, a: Option<int>, b: int)
    requires Inv(t) && RestAlike(t, t', id, a)
    requires b in t'.items && Some(b) != a
    ensures ItemInv(t', b)
  {
    assert ItemInv(t, b);
    SameCommandSets(t, t', b);
    hide CommandsOf, FinishedOf, UnfinishedOf, CompletedOf, CommandInv, KeyInv, ValidActions;
  }

  lemma OtherCommandsKeep(t: Tables, t': Tables, id: int, a: Option<int>, c: int)
    requires Inv(t) && RestAlike(t, t', id, a)
    requires forall agent, key | (agent, key) in t.byKey ::
        (agent, key) in t'.byKey && t'.byKey[(agent, key)] == t.byKey[(agent, key)]
    requires c in t.commands && c != id
    ensures CommandInv(t', c)
  {
    assert CommandInv(t, c);
  }

  lemma KeysKeep(t: Tables, t': Tables, id: int)
    requires Inv(t)
    requires t.commands.Keys <= t'.commands.Keys
    requires forall c | c in t.commands ::
        t'.commands[c].agent == t.commands[c].agent && t'.commands[c].key == t.commands[c].key
    requires t'.byKey == t.byKey
          || (id in t'.commands && t'.byKey == t.byKey[(t'.commands[id].agent, t'.commands[id].key) := id])
    ensures forall agent, key | (agent, key) in t'.byKey :: KeyInv(t', agent, key)
  {
    forall agent, key | (agent, key) in t'.byKey ensures KeyInv(t', agent, key) {
      if (agent, key) in t.byKey { assert KeyInv(t, agent, key); }
    }
  }

  /** A step that touches one command, its item and perhaps one new key keeps the invariant if those rows satisfy it. */
  lemma TouchOne(t: Tables, t': Tables, id: int, a: Option<int>)
    requires Inv(t) && RestAlike(t, t', id, a)
    requires t'.byKey == t.byKey
          || (id !in t.commands && id in t'.commands && (t'.commands[id].agent, t'.commands[id].key) !in t.byKey
              && t'.byKey == t.byKey[(t'.commands[id].agent, t'.commands[id].key) := id])
    requires id in t.commands
        ==> t'.commands[id].agent == t.commands[id].agent && t'.commands[id].key == t.commands[id].key
    requires id in t'.commands ==> CommandInv(t', id)
    requires a.Some? && a.value in t'.items ==> ItemInv(t', a.value)
    ensures Inv(t')
  {
    forall b | b in t'.items ensures ItemInv(t', b) {
      if Some(b) != a { OtherItemsKeep(t, t', id, a, b); }
    }
    forall c | c in t'.commands ensures CommandInv(t', c) {
      if c != id { OtherCommandsKeep(t, t', id, a, c); }
    }
    KeysKeep(t, t', id);
  }

  /** The next identifiers are unused, and no command refers to an item that does not exist. */
  lemma UnusedIds(t: Tables)
    requires Inv(t)
    ensures t.nextCommand !in t.commands && t.nextItem !in t.items
    ensures forall a | a !in t.items :: CommandsOf(t, a) == {}
  {
    assert forall c | c in t.commands :: CommandInv(t, c);
    assert forall b | b in t.items :: ItemInv(t, b);
    forall a | a !in t.items ensures CommandsOf(t, a) == {} {
      forall c | c in t.commands ensures t.commands[c].attention != Some(a) {
        assert CommandInv(t, c);
      }
    }
  }

  /** Moving the clock on is harmless. */
  lemma TickKeeps(t: Tables, now: int)
    requires Inv(t) && now >= t.clock
    ensures Inv(t.(clock := now))
  {
    UnusedIds(t);
    TouchOne(t, t.(clock := now), t.nextCommand, None);
  }

  lemma PublishKeeps(t: Tables, r: PublishRequest)
    requires Inv(t)
    ensures Inv(PublishTx(t, r))
  {
    var t' := PublishTx(t, r);
    if ValidActions(r.actions) {
      UnusedIds(t);
      var a := t.nextItem;
      assert CommandsOf(t', a) == CommandsOf(t, a) == {};
      assert FinishedOf(t', a) <= CommandsOf(t', a) && UnfinishedOf(t', a) <= CommandsOf(t', a)
          && CompletedOf(t', a) <= CommandsOf(t', a);
      TouchOne(t, t', t.nextCommand, Some(a));
    }
  }

  lemma ResponseAddsCommand(t: Tables, r: RespondRequest, selected: Action)
    requires r.attention in t.items && t.nextCommand !in t.commands
    ensures var t' := RecordResponse(t, r, selected);
            var id, a := t.nextCommand, r.attention;
            && id !in CommandsOf(t, a) && id !in UnfinishedOf(t, a)
            && CommandsOf(t', a) == CommandsOf(t, a) + {id} && UnfinishedOf(t', a) == UnfinishedOf(t, a) + {id}
            && FinishedOf(t', a) == FinishedOf(t, a) && CompletedOf(t', a) == CompletedOf(t, a)
  {
  }

  lemma RecordResponseItem(t: Tables, r: RespondRequest, selected: Action)
    requires r.attention in t.items && ItemInv(t, r.attention) && t.items[r.attention].status == Open
    requires t.nextCommand !in t.commands && ActionTerminal(selected)
    ensures ItemInv(RecordResponse(t, r, selected), r.attention)
  {
    hide CommandsOf, FinishedOf, UnfinishedOf, CompletedOf, ValidActions;
    ResponseAddsCommand(t, r, selected);
  }

  lemma RecordResponseKeeps(t: Tables, r: RespondRequest, selected: Action)
    requires Inv(t)
    requires r.attention in t.items && t.items[r.attention].status == Open && t.items[r.attention].agent == r.agent
    requires FindAction(t.items[r.attention].actions, r.actionKey) == Some(selected) && ActionTerminal(selected)
    requires (r.agent, r.key) !in t.byKey && r.facts.contextRevision > 0
    ensures Inv(RecordResponse(t, r, selected))
  {
    var t' := RecordResponse(t, r, selected);
    UnusedIds(t);
    assert ItemInv(t, r.attention);
    RecordResponseItem(t, r, selected);
    assert CommandInv(t', t.nextCommand);
    TouchOne(t, t', t.nextCommand, Some(r.attention));
  }

  /** A response that passes the checks: it selects this action of an open item of the Agent. */
  predicate Selects(t: Tables, r: RespondRequest, selected: Action) {
    && r.attention in t.items && t.items[r.attention].status == Open && t.items[r.attention].agent == r.agent
    && FindAction(t.items[r.attention].actions, r.actionKey) == Some(selected) && ActionTerminal(selected)
    && (r.agent, r.key) !in t.byKey && r.facts.contextRevision > 0
  }

  /** A response only reads the clock, or records a new command for an item of the Agent. */
  lemma RespondOutcomes(t: Tables, r: RespondRequest)
    ensures var t' := RespondTx(t, r).0;
            var read := t.(clock := t'.clock);
            && t'.clock >= t.clock
            && (t' == read || exists selected :: Selects(t, r, selected) && t' == RecordResponse(read, r, selected))
  {
    hide RecordResponse, ReplayResponse;
    var t' := RespondTx(t, r).0;
    if t' != t.(clock := t'.clock) {
      var selected := FindAction(t.items[r.attention].actions, r.actionKey).value;
      assert Selects(t, r, selected) && t' == RecordResponse(t.(clock := t'.clock), r, selected);
    }
  }

  lemma RespondKeeps(t: Tables, r: RespondRequest)
    requires Inv(t)
    ensures Inv(RespondTx(t, r).0)
  {
    hide Inv, RespondTx, RecordResponse;
    var t' := RespondTx(t, r).0;
    var read := t.(clock := t'.clock);
    RespondOutcomes(t, r);
    TickKeeps(t, t'.clock);
    if t' != read {
      var selected :| Selects(t, r, selected) && t' == RecordResponse(read, r, selected);
      RecordResponseKeeps(read, r, selected);
    }
  }

  lemma RecordCommandKeeps(t: Tables, r: CreateRequest)
    requires Inv(t) && ValidCommandType(r.kind) && r.contextRevision > 0 && (r.agent, r.key) !in t.byKey
    ensures Inv(RecordCommand(t, r))
  {
    var t' := RecordCommand(t, r);
    UnusedIds(t);
    assert CommandInv(t', t.nextCommand);
    hide CommandInv, ItemInv, KeyInv;
    TouchOne(t, t', t.nextCommand, None);
  }

  lemma CreateKeeps(t: Tables, r: CreateRequest)
    requires Inv(t)
    ensures Inv(CreateCommandTx(t, r).0)
  {
    hide Inv, RecordCommand;
    var (t', reply) := CreateCommandTx(t, r);
    if reply.Created? && reply.created { RecordCommandKeeps(t, r); }
  }

  /** The new lease starts no earlier than the last one ended, and the row shows it. */
  lemma GrantClaimCommand(t: Tables, r: ClaimRequest)
    requires r.command in t.commands && t.commands[r.command].agent == r.agent
    requires CommandInv(t, r.command) && Claimable(t.commands[r.command], t.clock)
    ensures CommandInv(GrantClaim(t, r), r.command)
  {
    var earlier := t.leases[r.command];
    if |earlier| > 0 {
      var last := earlier[|earlier| - 1];
      assert t.commands[r.command].claimUntil == Some(last.until) && last.until <= t.clock;
      assert forall i | 0 <= i < |earlier| - 1 :: earlier[i].until <= last.from < last.until;
    }
  }

  lemma GrantClaimItem(t: Tables, r: ClaimRequest, a: int)
    requires r.command in t.commands && Claimable(t.commands[r.command], t.clock)
    requires a in t.items && ItemInv(t, a)
    ensures ItemInv(GrantClaim(t, r), a)
  {
    SameCommandSets(t, GrantClaim(t, r), a);
    hide CommandsOf, FinishedOf, UnfinishedOf, CompletedOf, ValidActions;
  }

  lemma GrantClaimKeeps(t: Tables, r: ClaimRequest)
    requires Inv(t)
    requires r.command in t.commands && t.commands[r.command].agent == r.agent
    requires Claimable(t.commands[r.command], t.clock)
    ensures Inv(GrantClaim(t, r))
  {
    var t' := GrantClaim(t, r);
    var id := r.command;
    var a := t.commands[id].attention;
    GrantClaimCommand(t, r);
    if a.Some? && a.value in t.items {
      assert ItemInv(t, a.value);
      GrantClaimItem(t, r, a.value);
    }
    hide CommandInv, ItemInv, KeyInv;
    TouchOne(t, t', id, a);
  }

  /** A claim only reads the clock, or grants a new lease of a claimable row. */
  lemma ClaimOutcomes(t: Tables, r: ClaimRequest)
    ensures var t' := ClaimTx(t, r).0;
            var read := t.(clock := t'.clock);
            && t'.clock >= t.clock
            && (t' == read
                || (&& r.command in t.commands && t.commands[r.command].agent == r.agent
                    && Claimable(t.commands[r.command], t'.clock) && t' == GrantClaim(read, r)))
  {
    hide GrantClaim;
  }

  lemma ClaimKeeps(t: Tables, r: ClaimRequest)
    requires Inv(t)
    ensures Inv(ClaimTx(t, r).0)
  {
    hide Inv, ClaimTx, GrantClaim;
    var t' := ClaimTx(t, r).0;
    ClaimOutcomes(t, r);
    TickKeeps(t, t'.clock);
    var read := t.(clock := t'.clock);
    if t' != read {
      GrantClaimKeeps(read, r);
    }
  }

  lemma FinishMovesCommand(t: Tables, r: CompleteRequest, a: int)
    requires r.command in t.commands && t.commands[r.command].status == Claimed
    requires t.commands[r.command].attention == Some(a)
    ensures var t' := RecordFinish(t, r);
            var id := r.command;
            && id in UnfinishedOf(t, a) && id !in FinishedOf(t, a) && id !in CompletedOf(t, a)
            && CommandsOf(t', a) == CommandsOf(t, a) && FinishedOf(t', a) == FinishedOf(t, a) + {id}
            && UnfinishedOf(t', a) == UnfinishedOf(t, a) - {id}
            && CompletedOf(t', a) == if r.success then CompletedOf(t, a) + {id} else CompletedOf(t, a)
  {
    hide StoredResult;
  }

  /** A completion moves its command out of the unfinished set, and the item with it. */
  lemma RecordFinishItem(t: Tables, r: CompleteRequest, a: int)
    requires r.command in t.commands && t.commands[r.command].status == Claimed
    requires t.commands[r.command].attention == Some(a) && t.commands[r.command].payload.terminal
    requires t.commands[r.command].kind == ATTENTION_RESPONSE
    requires a in t.items && t.items[a].agent == r.agent && ItemInv(t, a)
    ensures ItemInv(RecordFinish(t, r), a)
  {
    hide CommandsOf, FinishedOf, UnfinishedOf, CompletedOf, ValidActions, StoredResult;
    FinishMovesCommand(t, r, a);
  }

  /** The finished row shows its only finish, inside its last lease. */
  lemma RecordFinishCommand(t: Tables, r: CompleteRequest)
    requires r.command in t.commands && t.commands[r.command].agent == r.agent
    requires CommandInv(t, r.command) && LeaseHeld(t.commands[r.command], r, t.clock)
    ensures CommandInv(RecordFinish(t, r), r.command)
  {
    hide StoredResult;
  }

  lemma RecordFinishKeeps(t: Tables, r: CompleteRequest)
    requires Inv(t)
    requires r.command in t.commands && t.commands[r.command].agent == r.agent
    requires LeaseHeld(t.commands[r.command], r, t.clock)
    ensures Inv(RecordFinish(t, r))
  {
    var t' := RecordFinish(t, r);
    var id := r.command;
    assert CommandInv(t, id);
    var a := t.commands[id].attention;
    RecordFinishCommand(t, r);
    if a.Some? {
      assert ItemInv(t, a.value);
      hide ItemInv;
      RecordFinishItem(t, r, a.value);
    }
    hide CommandInv, ItemInv, KeyInv, StoredResult;
    TouchOne(t, t', id, a);
  }

  /** A completion only reads the clock, or records the finish of a command under a lease that is held. */
  lemma CompleteOutcomes(t: Tables, r: CompleteRequest)
    ensures var t' := CompleteTx(t, r).0;
            var read := t.(clock := t'.clock);
            && t'.clock >= t.clock
            && (t' == read
                || (&& r.command in t.commands && t.commands[r.command].agent == r.agent
                    && LeaseHeld(t.commands[r.command], r, t'.clock) && t' == RecordFinish(read, r)))
  {
    hide RecordFinish, StoredResult;
  }

  lemma CompleteKeeps(t: Tables, r: CompleteRequest)
    requires Inv(t)
    ensures Inv(CompleteTx(t, r).0)
  {
    hide Inv, CompleteTx, RecordFinish;
    var t' := CompleteTx(t, r).0;
    CompleteOutcomes(t, r);
    TickKeeps(t, t'.clock);
    var read := t.(clock := t'.clock);
    if t' != read {
      RecordFinishKeeps(read, r);
    }
  }

  lemma DismissKeeps(t: Tables, agent: int, attention: int, elapsed: nat)
    requires Inv(t)
    ensures Inv(DismissTx(t, agent, attention, elapsed).0)
  {
    var (t', dismissed) := DismissTx(t, agent, attention, elapsed);
    UnusedIds(t);
    if dismissed {
      assert ItemInv(t, attention);
      SameCommandSets(t, t', attention);
      TouchOne(t, t', t.nextCommand, Some(attention));
    } else {
      TickKeeps(t, t'.clock);
    }
  }

  lemma StepKeeps(t: Tables, op: Op)
    requires Inv(t)
    ensures Inv(Step(t, op))
  {
    match op
    case Publish(r) => PublishKeeps(t, r);
    case Respond(r) => RespondKeeps(t, r);
    case Create(r) => CreateKeeps(t, r);
    case Claim(r) => ClaimKeeps(t, r);
    case Complete(r) => CompleteKeeps(t, r);
    case Dismiss(agent, attention, elapsed) => DismissKeeps(t, agent, attention, elapsed);
  }

  lemma {:induction false} RunKeeps(t: Tables, ops: seq<Op>)
    requires Inv(t)
    ensures Inv(Run(t, ops))
    decreases |ops|
  {
    if ops != [] {
      StepKeeps(t, ops[0]);
      RunKeeps(Step(t, ops[0]), ops[1..]);
    }
  }

  // ------------------------------------------------- theorems: item and commands

  lemma InitInv()
    ensures Inv(EMPTY)
  {
  }

  /** A reachable state of the tables. */
  ghost predicate Reached(t: Tables, ops: seq<Op>) {
    t == Run(EMPTY, ops)
  }

  lemma ReachedInv(t: Tables, ops: seq<Op>)
    requires Reached(t, ops)
    ensures Inv(t)
  {
    InitInv();
    RunKeeps(EMPTY, ops);
  }

  lemma CommandsSplit(t: Tables, a: int)
    ensures |CommandsOf(t, a)| == |FinishedOf(t, a)| + |UnfinishedOf(t, a)|
  {
    assert CommandsOf(t, a) == FinishedOf(t, a) + UnfinishedOf(t, a);
  }

  /**
   * After any run an item is pending exactly when one command is in flight, and its revision
   * counts both ends of each command.
   */
  lemma ItemMatchesItsCommands(t: Tables, ops: seq<Op>, a: int)
    requires Reached(t, ops) && a in t.items
    ensures |UnfinishedOf(t, a)| <= 1 && (t.items[a].status == Pending <==> |UnfinishedOf(t, a)| == 1)
    ensures |CompletedOf(t, a)| <= 1 && (t.items[a].status == Acted <==> |CompletedOf(t, a)| == 1)
    ensures t.items[a].revision == 1 + |CommandsOf(t, a)| + |FinishedOf(t, a)|
    ensures t.items[a].revision % 2 == 0 <==> t.items[a].status == Pending
  {
    ReachedInv(t, ops);
    assert ItemInv(t, a);
    hide Inv, CommandInv, KeyInv, Reached, ValidActions, CommandsOf, FinishedOf, UnfinishedOf, CompletedOf;
    CommandsSplit(t, a);
  }

  /** Every command tied to an item answers an action the item offers, other than open_source. */
  lemma AttentionCommandsAreTerminal(t: Tables, ops: seq<Op>, id: int)
    requires Reached(t, ops) && id in t.commands
    ensures t.commands[id].attention.Some? <==> t.commands[id].kind == ATTENTION_RESPONSE
    ensures var c := t.commands[id];
            c.attention.Some? ==>
              && c.payload == Payload(PROTOCOL, true)
              && c.attention.value in t.items && t.items[c.attention.value].agent == c.agent
              && c.requestHash.ResponseHash? && OffersTerminal(t.items[c.attention.value], c.requestHash.actionKey)
  {
    ReachedInv(t, ops);
    assert CommandInv(t, id);
  }

  /** So every completion that finishes such a command settles its item: acted on success, open again on failure. */
  lemma CompletionSettlesItsItem(t: Tables, ops: seq<Op>, r: CompleteRequest)
    requires Reached(t, ops) && CompleteTx(t, r).0.commands != t.commands
    requires r.command in t.commands && t.commands[r.command].attention.Some?
    ensures var a := t.commands[r.command].attention.value;
            && a in t.items && t.items[a].status == Pending
            && CompleteTx(t, r).0.items
               == t.items[a := t.items[a].(status := if r.success then Acted else Open,
                                           response := if r.success then ResponseCompleted else ResponseFailed,
                                           revision := t.items[a].revision + 1)]
  {
    ReachedInv(t, ops);
    assert CommandInv(t, r.command);
    var a := t.commands[r.command].attention.value;
    assert ItemInv(t, a);
    assert r.command in UnfinishedOf(t, a);
  }

  // ---------------------------------------------------- theorem: created commands

  /**
   * An accepted creation answers the revision stored with its command exactly when the first look
   * finds no command under the key.
   */
  lemma CreationAnswersItsRevision(t: Tables, ops: seq<Op>, r: CreateRequest)
    requires Reached(t, ops) && CreateCommandTx(t, r).1.Created?
    ensures var (after, reply) := CreateCommandTx(t, r);
            && reply.command in after.commands && after.commands[reply.command].agent == r.agent
            && after.commands[reply.command].key == r.key
            && (Some(reply.requiredRevision) == after.commands[reply.command].requiredRevision
                <==> (r.agent, r.key) !in t.byKey || r.raced)
  {
    ReachedInv(t, ops);
    if (r.agent, r.key) in t.byKey {
      assert KeyInv(t, r.agent, r.key);
      assert CommandInv(t, t.byKey[(r.agent, r.key)]);
    }
  }

  /** After any further run the same key and content answer the command the creation made, and change nothing. */
  lemma ReplayedCreation(t: Tables, ops: seq<Op>, r: CreateRequest, more: seq<Op>, again: CreateRequest)
    requires Reached(t, ops) && CreateCommandTx(t, r).1.Created?
    requires again.agent == r.agent && again.key == r.key && again.kind == r.kind && again.body == r.body
    requires again.bodyValid && !again.attentionFields
    ensures var (after, reply) := CreateCommandTx(t, r);
            var later := Run(after, more);
            && CreateCommandTx(later, again).0 == later
            && CreateCommandTx(later, again).1.Created? && !CreateCommandTx(later, again).1.created
            && CreateCommandTx(later, again).1.command == reply.command
  {
    hide Run;
    ReachedInv(t, ops);
    var (after, reply) := CreateCommandTx(t, r);
    if (r.agent, r.key) in t.byKey { assert KeyInv(t, r.agent, r.key); }
    CreateKeeps(t, r);
    hide Inv;
    RunGrows(after, more);
  }

  const INSTRUCTION := CreateRequest(1, "human_instruction", "{}", true, false, "k", 7, false)

  /** A creation under revision 7, sent again, is told that its command requires revision 0. */
  lemma ReplayedCreationAnswersZero()
    ensures CreateCommandTx(EMPTY, INSTRUCTION).1 == Created(1, true, 7)
    ensures CreateCommandTx(Run(EMPTY, [Create(INSTRUCTION)]), INSTRUCTION).1 == Created(1, false, 0)
    ensures Run(EMPTY, [Create(INSTRUCTION)]).commands[1].requiredRevision == Some(7)
  {
    assert [Create(INSTRUCTION)][1..] == [];
  }

  // ------------------------------------------------------------ what never changes

  /** Identity of rows: nothing is deleted, and only status, claim and result columns move. */
  ghost predicate Grows(t: Tables, t': Tables) {
    && t.clock <= t'.clock
    && (forall b | b in t.items ::
        b in t'.items && t'.items[b].agent == t.items[b].agent && t'.items[b].actions == t.items[b].actions)
    && (forall k | k in t.byKey :: k in t'.byKey && t'.byKey[k] == t.byKey[k])
    && (forall c | c in t.commands ::
          && c in t'.commands
          && t'.commands[c].agent == t.commands[c].agent && t'.commands[c].kind == t.commands[c].kind
          && t'.commands[c].requestHash == t.commands[c].requestHash
          && t'.commands[c].payload == t.commands[c].payload)
  }

  lemma RespondGrows(t: Tables, r: RespondRequest)
    requires t.nextCommand !in t.commands
    ensures Grows(t, RespondTx(t, r).0)
  {
    hide RespondTx;
    var t' := RespondTx(t, r).0;
    var read := t.(clock := t'.clock);
    RespondOutcomes(t, r);
    if t' != read {
      var selected :| Selects(t, r, selected) && t' == RecordResponse(read, r, selected);
    }
  }

  lemma ClaimGrows(t: Tables, r: ClaimRequest)
    ensures Grows(t, ClaimTx(t, r).0)
  {
    ClaimOutcomes(t, r);
  }

  lemma CompleteGrows(t: Tables, r: CompleteRequest)
    ensures Grows(t, CompleteTx(t, r).0)
  {
    hide CompleteTx;
    CompleteOutcomes(t, r);
  }

  lemma PublishGrows(t: Tables, r: PublishRequest)
    requires t.nextItem !in t.items
    ensures Grows(t, PublishTx(t, r))
  {
  }

  lemma CreateGrows(t: Tables, r: CreateRequest)
    requires t.nextCommand !in t.commands
    ensures Grows(t, CreateCommandTx(t, r).0)
  {
  }

  lemma DismissGrows(t: Tables, agent: int, attention: int, elapsed: nat)
    ensures Grows(t, DismissTx(t, agent, attention, elapsed).0)
  {
  }

  lemma StepGrows(t: Tables, op: Op)
    requires t.nextCommand !in t.commands && t.nextItem !in t.items
    ensures Grows(t, Step(t, op))
  {
    hide PublishTx, RespondTx, CreateCommandTx, ClaimTx, CompleteTx, DismissTx, Grows;
    match op
    case Publish(r) => PublishGrows(t, r);
    case Respond(r) => RespondGrows(t, r);
    case Create(r) => CreateGrows(t, r);
    case Claim(r) => ClaimGrows(t, r);
    case Complete(r) => CompleteGrows(t, r);
    case Dismiss(agent, attention, elapsed) => DismissGrows(t, agent, attention, elapsed);
  }

  lemma {:induction false} RunGrows(t: Tables, ops: seq<Op>)
    requires Inv(t)
    ensures Grows(t, Run(t, ops))
    decreases |ops|
  {
    if ops != [] {
      UnusedIds(t);
      StepGrows(t, ops[0]);
      StepKeeps(t, ops[0]);
      RunGrows(Step(t, ops[0]), ops[1..]);
    }
  }

  lemma ItemActionsValid(t: Tables, a: int)
    requires a in t.items && ItemInv(t, a)
    ensures ValidActions(t.items[a].actions)
  {
  }

  /** A repeated response is answered from the stored command and changes nothing, however far the run has gone on. */
  lemma ReplayedResponse(t: Tables, ops: seq<Op>, r: RespondRequest, more: seq<Op>, again: RespondRequest)
    requires Reached(t, ops)
    requires RespondTx(t, r).1.Responded?
    requires again.agent == r.agent && again.key == r.key && again.wellFormed && HashOf(again) == HashOf(r)
    ensures var (after, reply) := RespondTx(t, r);
            var later := Run(after, more);
            && RespondTx(later, again).0 == later
            && RespondTx(later, again).1.Responded?
            && RespondTx(later, again).1.replay
            && RespondTx(later, again).1.command == reply.command
            && RespondTx(later, again).1.flag == reply.flag
  {
    hide Run, ItemInv;
    ReachedInv(t, ops);
    var (after, reply) := RespondTx(t, r);
    RespondKeeps(t, r);
    if reply.replay {
      assert KeyInv(t, r.agent, r.key);
      assert CommandInv(t, reply.command);
    } else {
      assert ItemInv(t, r.attention);
      assert CommandInv(after, reply.command);
      ItemActionsValid(t, r.attention);
      FoundActionIsMember(t.items[r.attention].actions, r.actionKey);
    }
    RunGrows(after, more);
  }

  lemma FoundActionIsMember(actions: seq<Action>, key: string)
    requires ValidActions(actions) && FindAction(actions, key).Some?
    ensures FindAction(actions, key).value.flag != ""
  {
    var i :| 0 <= i < |actions| && actions[i] == FindAction(actions, key).value;
    assert actions[i].flag != "";
  }

  /** Using the key again with a different request is refused and changes nothing. */
  lemma ReusedKeyIsRefused(t: Tables, ops: seq<Op>, r: RespondRequest)
    requires Reached(t, ops)
    requires (r.agent, r.key) in t.byKey
    ensures t.byKey[(r.agent, r.key)] in t.commands
    ensures t.commands[t.byKey[(r.agent, r.key)]].requestHash != HashOf(r) ==>
              RespondTx(t, r).0 == t && RespondTx(t, r).1.RespondRefused?
  {
    ReachedInv(t, ops);
    assert KeyInv(t, r.agent, r.key);
  }

  // ------------------------------------------------------ theorems: claim fencing

  /** After any run the leases of a command follow one another without overlap, one per epoch. */
  lemma LeasesAreDisjoint(t: Tables, ops: seq<Op>, id: int)
    requires Reached(t, ops) && id in t.commands
    ensures id in t.leases && t.commands[id].epoch == |t.leases[id]|
    ensures OrderedLeases(t.leases[id], t.clock)
  {
    ReachedInv(t, ops);
    assert CommandInv(t, id);
  }

  /** After any run a command has finished at most once, inside its last lease. */
  lemma FinishesAtMostOnce(t: Tables, ops: seq<Op>, id: int)
    requires Reached(t, ops) && id in t.commands
    ensures id in t.leases && id in t.finishes
    ensures ShowsItsFinish(t.commands[id], t.leases[id], t.finishes[id])
  {
    ReachedInv(t, ops);
    assert CommandInv(t, id);
  }

  /** Only the holder of the last lease can finish a command, with that epoch's token and before the lease ends. */
  lemma OnlyTheLastLeaseFinishes(t: Tables, ops: seq<Op>, r: CompleteRequest)
    requires Reached(t, ops)
    requires CompleteTx(t, r).0.commands != t.commands
    ensures r.command in t.leases && t.leases[r.command] != []
    ensures var leases := t.leases[r.command];
            var last := leases[|leases| - 1];
            && r.epoch == |leases| && r.runtime == last.owner
            && r.token == ClaimToken(r.agent, r.command, last.owner, |leases|)
            && last.from <= t.clock + r.elapsed < last.until
  {
    ReachedInv(t, ops);
    assert CommandInv(t, r.command);
  }

  /** A proof from an earlier epoch is fenced, whether or not the command has finished since. */
  lemma StaleProofIsFenced(t: Tables, ops: seq<Op>, r: CompleteRequest)
    requires Reached(t, ops) && r.command in t.commands && r.command in t.leases
    requires r.epoch != |t.leases[r.command]|
    ensures CompleteTx(t, r).0 == t.(clock := CompleteTx(t, r).0.clock)
    ensures !CompleteTx(t, r).1.Finished?
  {
    ReachedInv(t, ops);
    assert CommandInv(t, r.command);
  }

  /** A row inside its lease moves only by finishing; a finished row does not move at all. */
  ghost predicate RowStands(t: Tables, t': Tables, id: int)
    requires id in t.commands && id in t.leases && id in t.finishes
  {
    && id in t'.commands && id in t'.leases && id in t'.finishes
    && (IsFinished(t.commands[id]) ==>
          t'.commands[id] == t.commands[id] && t'.leases[id] == t.leases[id] && t'.finishes[id] == t.finishes[id])
    && (t.commands[id].status == Claimed && t.commands[id].claimUntil.Some?
        && t'.clock < t.commands[id].claimUntil.value ==>
          t'.commands[id] == t.commands[id] || IsFinished(t'.commands[id]))
  }

  lemma RespondStands(t: Tables, r: RespondRequest, id: int)
    requires id in t.commands && CommandInv(t, id)
    ensures RowStands(t, RespondTx(t, r).0, id)
  {
    hide RespondTx;
    var t' := RespondTx(t, r).0;
    RespondOutcomes(t, r);
    if t' != t.(clock := t'.clock) {
      var selected :| Selects(t, r, selected) && t' == RecordResponse(t.(clock := t'.clock), r, selected);
    }
  }

  lemma ClaimStands(t: Tables, r: ClaimRequest, id: int)
    requires id in t.commands && CommandInv(t, id)
    ensures RowStands(t, ClaimTx(t, r).0, id)
  {
    hide ClaimTx;
    ClaimOutcomes(t, r);
  }

  lemma CompleteStands(t: Tables, r: CompleteRequest, id: int)
    requires id in t.commands && CommandInv(t, id)
    ensures RowStands(t, CompleteTx(t, r).0, id)
  {
    hide CompleteTx;
    CompleteOutcomes(t, r);
  }

  lemma CreateStands(t: Tables, r: CreateRequest, id: int)
    requires id in t.commands && CommandInv(t, id)
    ensures RowStands(t, CreateCommandTx(t, r).0, id)
  {
    var t' := CreateCommandTx(t, r).0;
    assert t' == t || (t' == RecordCommand(t, r) && id != t.nextCommand);
  }

  lemma StepStands(t: Tables, op: Op, id: int)
    requires id in t.commands && CommandInv(t, id)
    ensures RowStands(t, Step(t, op), id)
  {
    hide RespondTx, CreateCommandTx, ClaimTx, CompleteTx;
    match op
    case Publish(r) =>
    case Respond(r) => RespondStands(t, r, id);
    case Create(r) => CreateStands(t, r, id);
    case Claim(r) => ClaimStands(t, r, id);
    case Complete(r) => CompleteStands(t, r, id);
    case Dismiss(agent, attention, elapsed) =>
  }

  lemma {:induction false} RunStands(t: Tables, ops: seq<Op>, id: int)
    requires Inv(t) && id in t.commands && CommandInv(t, id)
    ensures RowStands(t, Run(t, ops), id)
    decreases |ops|
  {
    if ops != [] {
      var next := Step(t, ops[0]);
      StepStands(t, ops[0], id);
      StepKeeps(t, ops[0]);
      RunStands(next, ops[1..], id);
      RunGrows(next, ops[1..]);
    }
  }

  /** The status, result, claim and times of a finished command never change again. */
  lemma FinishedIsForever(t: Tables, ops: seq<Op>, more: seq<Op>, id: int)
    requires Reached(t, ops) && id in t.commands && IsFinished(t.commands[id])
    ensures id in Run(t, more).commands && Run(t, more).commands[id] == t.commands[id]
  {
    ReachedInv(t, ops);
    RunStands(t, more, id);
  }

  /** A claim of a row that is inside its lease, in one state. */
  lemma ClaimOfHeldRow(t: Tables, r: ClaimRequest)
    requires r.command in t.commands && CommandInv(t, r.command) && t.commands[r.command].agent == r.agent
    requires t.commands[r.command].status == Claimed && t.clock + r.elapsed < t.commands[r.command].claimUntil.value
    ensures var c := t.commands[r.command];
            var (after, reply) := ClaimTx(t, r);
            && after == t.(clock := after.clock)
            && (reply.ClaimGranted? ==>
                  c.owner == Some(r.runtime)
                      && reply == ClaimGranted(c.token.value, c.epoch, c.claimUntil.value, c.attempts))
            && ((c.owner == Some(r.runtime) && r.runtime != "" && |r.runtime| <= 128 && r.appliedRevision >= 0
                 && !UnsupportedProtocol(Some(c)) && RuntimeReady(Some(c), r, t.clock + r.elapsed))
                ==> reply.ClaimGranted?)
  {
  }

  /** A granted claim is the row's claim. */
  lemma GrantShowsInRow(t: Tables, r: ClaimRequest)
    requires r.command in t.commands ==> CommandInv(t, r.command)
    requires ClaimTx(t, r).1.ClaimGranted?
    ensures var (after, reply) := ClaimTx(t, r);
            && r.command in after.commands
            && var c := after.commands[r.command];
               && c.agent == r.agent && c.status == Claimed && c.owner == Some(r.runtime)
                   && c.token == Some(reply.token)
               && c.epoch == reply.epoch && c.claimUntil == Some(reply.until) && c.attempts == reply.attempts
               && !UnsupportedProtocol(Some(c)) && r.runtime != "" && |r.runtime| <= 128
  {
  }

  /**
   * While the command is unfinished another claim only reads the clock, and grants nothing but the
   * same lease to the same runtime.
   */
  ghost predicate ReclaimAnswer(later: Tables, r: ClaimRequest, granted: ClaimReply, again: ClaimRequest)
    requires again.command in later.commands
  {
    var c := later.commands[again.command];
    var (after, reply) := ClaimTx(later, again);
    IsFinished(c) || (
    && after == later.(clock := after.clock)
    && (reply.ClaimGranted? ==> again.runtime == r.runtime && reply == granted)
    && ((again.runtime == r.runtime && again.appliedRevision >= 0
         && RuntimeReady(Some(c), again, later.clock + again.elapsed))
        ==> reply.ClaimGranted?))
  }

  /** The row shows this grant. */
  predicate ShowsGrant(c: Command, r: ClaimRequest, granted: ClaimReply) {
    && granted.ClaimGranted?
    && c.agent == r.agent && c.status == Claimed && c.owner == Some(r.runtime) && c.token == Some(granted.token)
    && c.epoch == granted.epoch && c.claimUntil == Some(granted.until) && c.attempts == granted.attempts
    && !UnsupportedProtocol(Some(c)) && r.runtime != "" && |r.runtime| <= 128
  }

  lemma HeldRowAnswers(later: Tables, r: ClaimRequest, granted: ClaimReply, again: ClaimRequest)
    requires again.command in later.commands && CommandInv(later, again.command) && again.agent == r.agent
    requires IsFinished(later.commands[again.command]) || ShowsGrant(later.commands[again.command], r, granted)
    requires granted.ClaimGranted? && later.clock + again.elapsed < granted.until
    ensures ReclaimAnswer(later, r, granted, again)
  {
    if !IsFinished(later.commands[again.command]) {
      ClaimOfHeldRow(later, again);
    }
  }

  /**
   * From a granted claim on, until its deadline and unless the command finishes:
   * its owner who claims again gets the same token, epoch and deadline, everyone
   * else is refused, and no such claim writes anything.
   */
  lemma ReclaimInsideLease(t: Tables, ops: seq<Op>, r: ClaimRequest, more: seq<Op>, again: ClaimRequest)
    requires Reached(t, ops) && ClaimTx(t, r).1.ClaimGranted?
    requires again.agent == r.agent && again.command == r.command
    requires Run(ClaimTx(t, r).0, more).clock + again.elapsed < ClaimTx(t, r).1.until
    ensures again.command in Run(ClaimTx(t, r).0, more).commands
    ensures ReclaimAnswer(Run(ClaimTx(t, r).0, more), r, ClaimTx(t, r).1, again)
  {
    ReachedInv(t, ops);
    var (mid, granted) := ClaimTx(t, r);
    GrantShowsInRow(t, r);
    assert ShowsGrant(mid.commands[r.command], r, granted);
    ClaimKeeps(t, r);
    hide ClaimTx, Run, ShowsGrant;
    assert CommandInv(mid, r.command);
    RunKeeps(mid, more);
    RunStands(mid, more, r.command);
    var later := Run(mid, more);
    assert CommandInv(later, r.command);
    hide CommandInv, Inv;
    HeldRowAnswers(later, r, granted, again);
  }

  /** A completion of a row that already shows the same proof and outcome, in one state. */
  lemma CompletionOfFinishedRow(t: Tables, r: CompleteRequest)
    requires r.command in t.commands && t.commands[r.command].agent == r.agent
    requires var c := t.commands[r.command];
             && IsFinished(c) && c.status == Outcome(r) && c.result == Some(StoredResult(Some(c), r))
                 && ProofMatches(c, r)
             && c.completedAt.Some? && !UnsupportedProtocol(Some(c))
    requires r.resultAcceptable || t.commands[r.command].kind != ATTENTION_RESPONSE
    requires r.runtime != "" && r.epoch > 0 && r.token != ForeignToken("")
    ensures CompleteTx(t, r) == (t.(clock := t.clock + r.elapsed), Finished(t.commands[r.command].completedAt.value))
  {
  }

  /** An accepted completion is the row's outcome. */
  lemma FinishShowsInRow(t: Tables, r: CompleteRequest)
    requires r.command in t.commands ==> CommandInv(t, r.command)
    requires CompleteTx(t, r).1.Finished?
    ensures r.command in t.commands
    ensures var (after, reply) := CompleteTx(t, r);
            && r.command in after.commands
            && var c := after.commands[r.command];
               && c.agent == r.agent && c.kind == t.commands[r.command].kind && c.status == Outcome(r)
               && c.result == Some(StoredResult(Some(c), r)) && ProofMatches(c, r)
               && c.completedAt == Some(reply.completedAt) && !UnsupportedProtocol(Some(c))
               && r.runtime != "" && r.epoch > 0 && r.token != ForeignToken("")
  {
  }

  /**
   * The same proof, outcome and stored result presented again, however much later, returns the
   * stored time and changes nothing.
   */
  lemma RepeatedCompletion(t: Tables, ops: seq<Op>, r: CompleteRequest, more: seq<Op>, again: CompleteRequest)
    requires Reached(t, ops) && CompleteTx(t, r).1.Finished?
    requires again.agent == r.agent && again.command == r.command && again.runtime == r.runtime
    requires again.epoch == r.epoch && again.token == r.token && again.success == r.success
    requires var row := OwnCommand(t, r.agent, r.command);
             && StoredResult(row, again) == StoredResult(row, r)
             && (row.Some? && row.value.kind == ATTENTION_RESPONSE ==> again.resultAcceptable)
    ensures var (after, reply) := CompleteTx(t, r);
            var later := Run(after, more);
            CompleteTx(later, again) == (later.(clock := later.clock + again.elapsed), reply)
  {
    ReachedInv(t, ops);
    var (after, reply) := CompleteTx(t, r);
    assert CommandInv(t, r.command);
    hide CompleteTx, Canonical, Run;
    FinishShowsInRow(t, r);
    CompleteKeeps(t, r);
    assert CommandInv(after, r.command);
    hide Inv, CommandInv;
    RunStands(after, more, r.command);
    CompletionOfFinishedRow(Run(after, more), again);
  }

  // --------------------------------------------------- theorems: canonical results

  /** The stored form of a result is a fixed point that a runtime could itself submit. */
  lemma CanonicalIsStable(doc: ResultDoc)
    ensures Canonical(Canonical(doc)) == Canonical(doc)
    ensures forall i | 0 <= i < |doc.entities| :: AcceptableEntity(Canonical(doc).entities[i])
  {
    assert Canonical(Canonical(doc)).entities == Canonical(doc).entities;
  }

  /**
   * Two results are stored alike exactly when they name the same entities with the same summary:
   * captions and links do not count.
   */
  lemma CanonicalComparesEntities(left: ResultDoc, right: ResultDoc)
    ensures Canonical(left) == Canonical(right)
       <==> left.summary == right.summary && |left.entities| == |right.entities|
            && forall i | 0 <= i < |left.entities| ::
                 left.entities[i].kind == right.entities[i].kind && left.entities[i].id == right.entities[i].id
  {
    var l, r := Canonical(left).entities, Canonical(right).entities;
    if left.summary == right.summary && |left.entities| == |right.entities|
       && forall i | 0 <= i < |left.entities| ::
            left.entities[i].kind == right.entities[i].kind && left.entities[i].id == right.entities[i].id {
      assert l == r;
    }
    if Canonical(left) == Canonical(right) {
      forall i | 0 <= i < |left.entities|
        ensures left.entities[i].kind == right.entities[i].kind && left.entities[i].id == right.entities[i].id
      {
        assert l[i] == r[i];
      }
    }
  }
}
