/** The simulator object: its methods update counters, agents, the ownership index and the recovery
    files in place, and are proved against the specification functions. */
module Simulator {
  import opened Wrappers
  import opened OutputText
  import opened World
  import opened ScriptedCycle
  import opened Actions
  import opened Probe
  import opened SlotProtocol
  import opened CrashRefinement
  import opened Ownership

  class Simulator {
    const env: Env
    var metrics: Metrics
    var agents: seq<Agent>
    var ownerOf: map<string, nat>
    var activeCount: nat
    var files: map<ActionId, string>
    var snapshot: Option<Snapshot>
    ghost var performed: seq<ActionId>

    ghost function State(): (l: Local)
      reads this
    {
      Local(metrics, agents, ownerOf, activeCount)
    }

    ghost predicate Valid()
      reads this
    {
      Sound(env) && WfLocal(env, State())
    }

    constructor (env: Env)
      requires Sound(env)
      ensures this.env == env && Valid() && State() == env.initial
      ensures files == map[] && snapshot == None && performed == []
    {
      this.env := env;
      metrics := env.initial.metrics;
      agents := env.initial.agents;
      ownerOf := env.initial.ownerOf;
      activeCount := env.initial.activeCount;
      files, snapshot, performed := map[], None, [];
    }

    method Count(k: Metric)
      modifies this`metrics
      ensures metrics == Bump(old(metrics), k, 1)
    {
      metrics := metrics[k := (if k in metrics then metrics[k] else 0) + 1];
    }

    /** Runs the external command of a plan and stores what it printed. */
    method RunExternal(id: ActionId) returns (reply: Reply)
      modifies this`performed, this`files
      ensures reply == env.reply(id)
      ensures performed == old(performed) + (if reply.Printed? || reply.performed then [id] else [])
      ensures files == if reply.Printed? then old(files)[id := Strip(reply.stdout)] else old(files)
    {
      reply := env.reply(id);
      match reply
      case Printed(stdout) =>
        performed := performed + [id];
        files := files[id := Strip(stdout)];
      case Refused(p, _) =>
        if p {
          performed := performed + [id];
        }
    }

    // -------------------------------------------------------------- actions

    /** The object went from the given state to the state of the specified attempt: same local state and
        answer, the command performed and its text stored if and only if one was issued. */
    ghost predicate Attempted(t: TickState, plan: Plan, l: Local, done: seq<ActionId>, stored: map<ActionId, string>,
                              r: Result<Outcome, string>)
      requires Sound(env) && WfTick(env, t) && WfLocal(env, l) && plan.actor < env.agentCount
      reads this
    {
      var issued := Decide(env, t, plan, l).Issue?;
      var reply := env.reply(plan.id);
      && (match Attempt(env, t, plan, l)
          case Success((after, o)) => r == Success(o) && State() == after
          case Failure(e) => r == Failure(e) && State() == l)
      && performed == done + (if issued && (reply.Printed? || reply.performed) then [plan.id] else [])
      && files == if issued && reply.Printed? then stored[plan.id := Strip(reply.stdout)] else stored
    }

    /** The ownership half of a mint. */
    method RecordPass(pass: string, owner: nat, invalid: bool)
      requires Valid() && owner < env.agentCount
      modifies this`agents, this`ownerOf
      ensures State() == RecordMint(old(State()), pass, owner, invalid)
    {
      ownerOf := ownerOf[pass := owner];
      var a := agents[owner];
      agents := agents[owner := a.(owned := a.owned + {pass})];
      if invalid {
        var b := agents[owner];
        agents := agents[owner := b.(invalid := b.invalid + {pass})];
      }
    }

    /** `op_mint`; the caller counts a remint itself. */
    method OpMint(t: TickState, plan: Plan, invalid: bool, prev: Option<string>, countAsMint: bool)
      returns (r: Result<Outcome, string>)
      requires Valid() && plan.actor < env.agentCount && env.reply(plan.id).Printed?
      requires !(invalid && prev.Some?)
      modifies this`metrics, this`agents, this`ownerOf
      ensures var done := Complete(env, t, plan, Inscribe(prev, invalid), old(State()), Strip(env.reply(plan.id).stdout));
              if done.Failure? then r == Failure(done.error) && State() == old(State())
              else
                && r.Success? && r.value.expectation == done.value.1.expectation && r.value.used == done.value.1.used
                && State() == done.value.0.(metrics := if invalid || countAsMint
                                                       then Bump(old(metrics), if invalid then InvalidMintOk else MintOk, 1)
                                                       else old(metrics))
                && (if prev.None? then r.value.detail == done.value.1.detail
                    else "remint:prev=" + prev.value + ":" + r.value.detail == done.value.1.detail)
    {
      var output := Strip(env.reply(plan.id).stdout);
      var id := ExtractInscriptionId(output);
      if id.None? {
        return Failure("failed to parse inscription id");
      }
      var pass := id.value;
      RecordPass(pass, plan.actor, invalid);
      if invalid {
        Count(InvalidMintOk);
      } else if countAsMint {
        Count(MintOk);
      }
      var pre := env.balanceAt(plan.actor, t.preHeight);
      var wallet := env.walletName(plan.actor);
      var detail :=
        if invalid then "invalid_mint:" + pass + ":owner=" + wallet
        else if prev.Some? then "remint_like_mint:" + pass + ":owner=" + wallet + ":prev=" + prev.value
        else "mint:" + pass + ":owner=" + wallet;
      if prev.Some? {
        RemintText(prev.value, "remint_like_mint:" + pass + ":owner=" + wallet + ":prev=" + prev.value,
                   pass, wallet);
      }
      r := Success(Outcome(detail,
        Some(Expectation(if invalid then InvalidMint else if prev.Some? then Remint else Mint, plan.actor,
          preBalance := Some(pre), pass := Some(pass), prev := prev, expectInvalid := invalid)),
        {plan.actor}));
    }

    /** `execute_agent_action`: everything an action does to the simulator, against `Attempt`. */
    method ExecuteAgentAction(t: TickState, plan: Plan) returns (r: Result<Outcome, string>)
      requires Valid() && WfTick(env, t) && plan.actor < env.agentCount
      modifies this`metrics, this`agents, this`ownerOf, this`files, this`performed
      ensures Valid()
      ensures Attempted(t, plan, old(State()), old(performed), old(files), r)
    {
      match plan.action {
        case Noop =>
          Count(Skipped);
          r := Success(Outcome("noop", None, {plan.actor}));
        case Mint => r := MintPlainly(t, plan, false);
        case InvalidMint => r := MintPlainly(t, plan, true);
        case Transfer => r := OpTransfer(t, plan);
        case Remint => r := RemintPass(t, plan);
        case SendBalance => r := OpSendBalance(t, plan);
        case SpendBalance => r := OpSpendBalance(t, plan);
      }
    }

    method MintPlainly(t: TickState, plan: Plan, invalid: bool) returns (r: Result<Outcome, string>)
      requires Valid() && WfTick(env, t) && plan.actor < env.agentCount
      requires plan.action == if invalid then InvalidMint else Mint
      modifies this`metrics, this`agents, this`ownerOf, this`files, this`performed
      ensures Attempted(t, plan, old(State()), old(performed), old(files), r)
    {
      var reply := RunExternal(plan.id);
      if reply.Refused? {
        return Failure(reply.error);
      }
      r := OpMint(t, plan, invalid, None, true);
    }

    method RemintPass(t: TickState, plan: Plan) returns (r: Result<Outcome, string>)
      requires Valid() && WfTick(env, t) && plan.actor < env.agentCount && plan.action == Remint
      modifies this`metrics, this`agents, this`ownerOf, this`files, this`performed
      ensures Attempted(t, plan, old(State()), old(performed), old(files), r)
    {
      var prev := ChoosePrev(env, Local(metrics, agents, ownerOf, activeCount), PosOf(t, plan));
      if prev.None? {
        Count(Skipped);
        return Success(Outcome("remint:skip:no_prev", None, {plan.actor}));
      }
      var reply := RunExternal(plan.id);
      if reply.Refused? {
        return Failure(reply.error);
      }
      var minted := OpMint(t, plan, false, prev, false);
      if minted.Failure? {
        return minted;
      }
      Count(RemintOk);
      r := Success(minted.value.(detail := "remint:prev=" + prev.value + ":" + minted.value.detail));
    }

    method OpTransfer(t: TickState, plan: Plan) returns (r: Result<Outcome, string>)
      requires Valid() && WfTick(env, t) && plan.actor < env.agentCount && plan.action == Transfer
      modifies this`metrics, this`agents, this`ownerOf, this`files, this`performed
      ensures Attempted(t, plan, old(State()), old(performed), old(files), r)
    {
      DecisionInRange(env, t, plan, State());
      var pos := PosOf(t, plan);
      var owned := agents[plan.actor].owned;
      if owned == {} {
        Count(Skipped);
        return Success(Outcome("transfer:skip:no_pass", Some(Expectation(Noop, plan.actor)), {plan.actor}));
      }
      var targets := t.available - {plan.actor};
      if targets == {} {
        Count(Skipped);
        return Success(Outcome("transfer:skip:no_target", Some(Expectation(Noop, plan.actor)), {plan.actor}));
      }
      var pass := env.drawPass(pos, 0, owned);
      var target := env.drawAgent(pos, 1, targets);
      var had := env.hasActivePass(target, t.preHeight);
      var reply := RunExternal(plan.id);
      if reply.Refused? {
        return Failure(reply.error);
      }
      var txid := ExtractTxid(Strip(reply.stdout));
      if txid.None? {
        return Failure("failed to parse txid");
      }
      var a := agents[plan.actor];
      agents := agents[plan.actor := a.(owned := a.owned - {pass})];
      var b := agents[target];
      agents := agents[target := b.(owned := b.owned + {pass})];
      ownerOf := ownerOf[pass := target];
      Count(TransferOk);
      r := Success(Outcome(TransferDetail(env, plan, pass, target, txid.value),
        Some(Expectation(Transfer, plan.actor, pass := Some(pass), target := Some(target), targetHadActive := Some(had))),
        {plan.actor, target}));
    }

    method OpSendBalance(t: TickState, plan: Plan) returns (r: Result<Outcome, string>)
      requires Valid() && WfTick(env, t) && plan.actor < env.agentCount && plan.action == SendBalance
      modifies this`metrics, this`files, this`performed
      ensures Attempted(t, plan, old(State()), old(performed), old(files), r)
    {
      var sat := env.drawInt(PosOf(t, plan), 0, 1_000_000, 25_000_000);
      var reply := RunExternal(plan.id);
      if reply.Refused? {
        return Failure(reply.error);
      }
      var pre := env.balanceAt(plan.actor, t.preHeight);
      Count(SendOk);
      r := Success(Outcome(FundDetail(env, plan, sat, Prefix12(Strip(reply.stdout))),
        Some(Expectation(SendBalance, plan.actor, preBalance := Some(pre), amount := Some(sat))), {plan.actor}));
    }

    method OpSpendBalance(t: TickState, plan: Plan) returns (r: Result<Outcome, string>)
      requires Valid() && WfTick(env, t) && plan.actor < env.agentCount && plan.action == SpendBalance
      modifies this`metrics, this`files, this`performed
      ensures Attempted(t, plan, old(State()), old(performed), old(files), r)
    {
      var pre := env.balanceAt(plan.actor, t.preHeight);
      if pre < 200_000 {
        Count(Skipped);
        return Success(Outcome("spend_balance:skip:low_balance", None, {plan.actor}));
      }
      var amount := SpendAmount(env, PosOf(t, plan), pre);
      if amount.None? {
        assert false;  // half of 200_000 is positive
      }
      var reply := RunExternal(plan.id);
      if reply.Refused? {
        return Failure(reply.error);
      }
      Count(SpendOk);
      r := Success(Outcome(PayDetail(env, plan, amount.value, Prefix12(Strip(reply.stdout))),
        Some(Expectation(SpendBalance, plan.actor, preBalance := Some(pre), amount := Some(amount.value))),
        {plan.actor}));
    }

    // -------------------------------------------------------------- receipts

    /** `apply_action_receipt`: adds the metric deltas one key at a time, then patches ownership. */
    method ApplyActionReceipt(plan: Plan, receipt: Receipt) returns (r: Result<Outcome, string>)
      requires Valid() && (receipt.patch.Some? ==> PatchInRange(receipt.patch.value, env.agentCount))
      modifies this`metrics, this`agents, this`ownerOf
      ensures match ApplyReceipt(plan, receipt, old(State()))
              case Success((after, o)) => r == Success(o) && State() == after
              case Failure(e) => r == Failure(e) && State() == old(State())
    {
      if receipt.id != plan.id {
        return Failure("action receipt id mismatch");
      }
      if receipt.action != plan.action {
        return Failure("action receipt action mismatch");
      }
      if receipt.actor != plan.actor {
        return Failure("action receipt actor mismatch");
      }
      var left := receipt.deltas.Keys;
      while left != {}
        invariant left <= receipt.deltas.Keys
        invariant metrics == AddDeltas(old(metrics), receipt.deltas - left)
        invariant agents == old(agents) && ownerOf == old(ownerOf)
        decreases left
      {
        var k :| k in left;
        metrics := metrics[k := (if k in metrics then metrics[k] else 0) + receipt.deltas[k]];
        left := left - {k};
      }
      assert receipt.deltas - {} == receipt.deltas;
      match receipt.patch {
      case None =>
      case Some(MintLike(pass, owner, invalid)) =>
        var a := agents[owner];
        agents := agents[owner := a.(owned := a.owned + {pass})];
        ownerOf := ownerOf[pass := owner];
        if invalid {
          var b := agents[owner];
          agents := agents[owner := b.(invalid := b.invalid + {pass})];
        }
        assert State() == ApplyPatch(old(State()).(metrics := metrics), receipt.patch.value);
      case Some(Move(pass, source, target)) =>
        var a := agents[source];
        agents := agents[source := a.(owned := a.owned - {pass})];
        var b := agents[target];
        agents := agents[target := b.(owned := b.owned + {pass})];
        ownerOf := ownerOf[pass := target];
        assert State() == ApplyPatch(old(State()).(metrics := metrics), receipt.patch.value);
      }
      r := Success(Outcome(receipt.detail, receipt.expectation, receipt.used));
    }

    // -------------------------------------------------------------- the slot loop

    /** `choose_scripted_action_for_agent`: walks the cycle from the agent's index and moves the index. */
    method ChooseScripted(cycle: seq<Action>, actor: nat, available: set<nat>, preHeight: nat) returns (action: Action)
      requires Valid() && actor < env.agentCount && cycle != []
      modifies this`agents
      ensures var c := Choose(cycle, old(agents)[actor].scriptedIndex,
                              a => actor < |old(agents)| && Viable(env, old(State()), actor, a, available, preHeight));
              action == c.action && agents == old(agents)[actor := old(agents)[actor].(scriptedIndex := c.nextIndex)]
    {
      var n := |cycle|;
      var start := agents[actor].scriptedIndex;
      ghost var viable := a => actor < |old(agents)| && Viable(env, old(State()), actor, a, available, preHeight);
      for offset := 0 to n
        invariant agents == old(agents) && ownerOf == old(ownerOf)
        invariant FirstViable(cycle, start, 0, viable) == FirstViable(cycle, start, offset, viable)
      {
        var idx := Wrap(start, offset, n);
        if Viable(env, Local(metrics, agents, ownerOf, activeCount), actor, cycle[idx], available, preHeight) {
          assert viable(cycle[idx]);
          agents := agents[actor := agents[actor].(scriptedIndex := Wrap(idx, 1, n))];
          return cycle[idx];
        }
      }
      agents := agents[actor := agents[actor].(scriptedIndex := Wrap(start, 1, n))];
      action := Noop;
    }

    method PlanSlot(t: TickState) returns (planned: TickState)
      requires Valid() && WfTick(env, t) && t.available != {}
      modifies this`agents
      ensures Valid() && (planned, State()) == PlanFor(env, t, old(State()))
    {
      var actor := env.drawActor(t.tick, t.nextSlot, t.preHeight, t.available);
      var action;
      match env.policy {
        case Scripted(cycle) => action := ChooseScripted(cycle, actor, t.available, t.preHeight);
        case Adaptive =>
          action := env.drawAction(t.tick, t.nextSlot, actor, agents[actor], t.available, t.preHeight);
      }
      var id := ActionId(t.tick, t.nextSlot, env.digest(t.tick, t.nextSlot, actor, action));
      planned := t.(plan := Some(Plan(t.nextSlot, actor, action, id, BaselineFor(env, id, actor, action))));
      ghost var was := old(agents)[actor];
      assert was.(scriptedIndex := was.scriptedIndex) == was;
      assert agents == PlanFor(env, t, old(State())).1.agents;
    }

    method WriteSnapshot(t: TickState)
      modifies this`snapshot
      ensures snapshot == Some(InTick(t, State()))
    {
      snapshot := Some(InTick(t, Local(metrics, agents, ownerOf, activeCount)));
    }

    /** Bookkeeping of a committed slot, up to and including the snapshot of the next one. */
    method Commit(t: TickState, plan: Plan, o: Outcome) returns (next: TickState)
      requires Valid() && plan.actor < env.agentCount
      modifies this`agents, this`files, this`snapshot
      ensures Valid() && files == old(files) - {plan.id}
      ensures next == Close(Book(t, old(State()), plan, o).0) && State() == Book(t, old(State()), plan, o).1
      ensures snapshot == Some(InTick(next, State()))
    {
      next := t.(results := t.results + [(plan.id, o.detail)]);
      if o.expectation.Some? && o.expectation.value.action != Noop {
        next := next.(expectations := next.expectations + [o.expectation.value.(id := Some(plan.id))]);
      }
      next := next.(trace := next.trace + [Committed(plan.id, plan.slot, plan.actor, plan.action, o.detail, o.used)],
                    available := next.available - o.used);
      var a := agents[plan.actor];
      agents := agents[plan.actor := a.(lastAction := Did(plan.action),
                                        cooldown := if a.cooldown == 0 then 0 else a.cooldown - 1)];
      next := next.(plan := None, receipt := None);
      files := files - {plan.id};
      next := next.(nextSlot := next.nextSlot + 1);
      WriteSnapshot(next);
    }

    /** The slot's exception handler, up to and including the snapshot of the next slot. */
    method Fail(t: TickState, plan: Plan, error: string) returns (next: TickState)
      requires Valid() && plan.actor < env.agentCount
      modifies this`metrics, this`agents, this`files, this`snapshot
      ensures Valid() && files == old(files) - {plan.id}
      ensures next == Close(BookFailure(t, old(State()), plan, error).0)
      ensures State() == BookFailure(t, old(State()), plan, error).1
      ensures snapshot == Some(InTick(next, State()))
    {
      next := t.(failed := t.failed + 1);
      match plan.action {
        case SendBalance => Count(SendFail);
        case SpendBalance => Count(SpendFail);
        case Mint => Count(MintFail);
        case InvalidMint => Count(InvalidMintFail);
        case Transfer => Count(TransferFail);
        case Remint => Count(RemintFail);
        case Noop =>
      }
      next := next.(failSamples := next.failSamples + [(plan.id, error)],
                    trace := next.trace + [Abandoned(plan.id, plan.slot, plan.actor, plan.action, error)],
                    available := next.available - {plan.actor});
      agents := agents[plan.actor := agents[plan.actor].(lastAction := FailedAction, cooldown := 1)];
      next := next.(plan := None, receipt := None);
      files := files - {plan.id};
      next := next.(nextSlot := next.nextSlot + 1);
      WriteSnapshot(next);
    }

    /** One uninterrupted slot of `run`. */
    method RunSlot(t: TickState) returns (next: TickState)
      requires Valid() && WfTick(env, t) && Open(env, t, State())
      modifies this`metrics, this`agents, this`ownerOf, this`files, this`performed, this`snapshot
      ensures Valid() && WfTick(env, next)
      ensures (next, State()) == DirectSlot(env, t, old(State()))
      ensures snapshot == Some(InTick(next, State()))
    {
      var planned := PlanSlot(t);
      WriteSnapshot(planned);
      var plan := planned.plan.value;
      var counted := CountAction(planned, plan.action);
      var before := metrics;
      ghost var l1 := State();
      var r := ExecuteAgentAction(planned, plan);
      match r {
        case Failure(e) => next := Fail(counted, plan, e);
        case Success(o) =>
          ghost var k := AttemptReceipted(env, planned, plan, l1);
          var receipt := BuildReceipt(plan, o, before, metrics);
          WriteSnapshot(counted.(receipt := Some(receipt.value)));
          next := Commit(counted, plan, o);
      }
    }

    /** The slot loop of one tick without interruption, against the specification that interrupted
        runs are compared with. */
    method RunSlots(t0: TickState) returns (t: TickState)
      requires Valid() && WfTick(env, t0) && t0.plan.None? && t0.receipt.None? && t0.nextSlot <= t0.slots
      requires snapshot == Some(InTick(t0, State()))
      modifies this`metrics, this`agents, this`ownerOf, this`files, this`performed, this`snapshot
      ensures Valid() && (t, State()) == Direct(env, t0, old(State()), t0.slots)
      ensures snapshot == Some(InTick(t, State()))
    {
      t := t0;
      while t.nextSlot < t.slots && t.available != {}
        invariant Valid() && WfTick(env, t) && t.plan.None? && t.receipt.None?
        invariant t0.nextSlot <= t.nextSlot <= t.slots == t0.slots
        invariant (t, State()) == Iterate(NextSlot(env), t0, old(State()), t.nextSlot)
        invariant snapshot == Some(InTick(t, State()))
        decreases t.slots - t.nextSlot
      {
        ghost var u, l := t, State();
        t := RunSlot(t);
        SlotDone(env, t0, old(State()), u, l, t, State());
      }
      SlotsDone(env, t0, old(State()), t, State());
    }

    // -------------------------------------------------------------- chain view

    method RefreshAgentState(i: nat, active: Option<string>)
      requires Valid() && i < env.agentCount
      modifies this`agents, this`ownerOf
      ensures Valid() && State() == Refresh(old(State()), i, active)
    {
      if active.None? {
        agents := agents[i := agents[i].(activePass := None)];
        return;
      }
      agents := agents[i := agents[i].(activePass := active)];
      agents := agents[i := agents[i].(owned := agents[i].owned + {active.value})];
      ownerOf := ownerOf[active.value := i];
    }

    method ResetLocalChainView()
      requires Valid()
      modifies this`agents, this`ownerOf
      ensures Valid() && State() == Reset(old(State()))
    {
      ownerOf := map[];
      var i := 0;
      while i < |agents|
        invariant 0 <= i <= |agents| == |old(agents)|
        invariant ownerOf == map[]
        invariant forall k | 0 <= k < |agents| :: agents[k] == if k < i then ResetAgent(old(agents)[k]) else old(agents)[k]
      {
        agents := agents[i := ResetAgent(agents[i])];
        i := i + 1;
      }
      assert agents == ResetAgents(old(agents));
    }

    method AddRowInPlace(row: Row) returns (added: bool)
      requires Valid() && row.pass != "" && row.owner.Some? && row.owner.value < env.agentCount
      modifies this`agents, this`ownerOf
      ensures Valid()
      ensures added <==> AddRow(old(State()), row).Success?
      ensures added ==> AddRow(old(State()), row) == Success(State())
    {
      var i := row.owner.value;
      if row.state.ActiveState? && agents[i].activePass.Some? && agents[i].activePass.value != row.pass {
        return false;
      }
      agents := agents[i := agents[i].(owned := agents[i].owned + {row.pass})];
      ownerOf := ownerOf[row.pass := i];
      if row.state.InvalidState? {
        agents := agents[i := agents[i].(invalid := agents[i].invalid + {row.pass})];
      }
      if row.state.ActiveState? {
        agents := agents[i := agents[i].(activePass := Some(row.pass))];
      }
      assert agents == AddRow(old(State()), row).value.agents;
      added := true;
    }

    method RebuildLocalChainView(rows: seq<Row>) returns (r: Result<nat, string>)
      requires Valid() && RowsInRange(rows, env.agentCount)
      modifies this`agents, this`ownerOf
      ensures Valid()
      ensures match Rebuild(old(State()), rows)
              case Success(l) => r == Success(|rows|) && State() == l
              case Failure(_) => r.Failure?
    {
      ResetLocalChainView();
      var unknown := 0;
      var k := 0;
      while k < |rows|
        invariant 0 <= k <= |rows| && Valid()
        invariant AddRows(State(), rows[k..]) == AddRows(Reset(old(State())), rows)
        invariant unknown > 0 <==> exists j | 0 <= j < k :: rows[j].owner.None?
      {
        var row := rows[k];
        ghost var l := State();
        assert rows[k..][0] == row && rows[k..][1..] == rows[k + 1..];
        if row.pass == "" {
          return Failure("invalid leaderboard row");
        }
        if row.owner.None? {
          unknown := unknown + 1;
          k := k + 1;
          continue;
        }
        var added := AddRowInPlace(row);
        if !added {
          return Failure("duplicate active pass detected during reorg rebuild");
        }
        k := k + 1;
      }
      assert rows[|rows|..] == [];
      if unknown > 0 {
        return Failure("rows owned by unknown script hashes");
      }
      r := Success(|rows|);
    }
  }

  /** A remint's detail is the mint's detail behind a prefix. */
  lemma RemintText(prev: string, detail: string, pass: string, wallet: string)
    requires detail == "remint_like_mint:" + pass + ":owner=" + wallet + ":prev=" + prev
    ensures "remint:prev=" + prev + ":" + detail
      == "remint:prev=" + prev + ":remint_like_mint:" + pass + ":owner=" + wallet + ":prev=" + prev
  {
  }

  /** One more slot of the specification, taken from the state the loop has reached. */
  lemma SlotDone(env: Env, t0: TickState, l0: Local, t: TickState, l: Local, u: TickState, m: Local)
    requires Sound(env) && WfTick(env, t) && Open(env, t, l) && t0.nextSlot <= t.nextSlot
    requires Iterate(NextSlot(env), t0, l0, t.nextSlot) == (t, l)
    requires (u, m) == DirectSlot(env, t, l)
    ensures Iterate(NextSlot(env), t0, l0, u.nextSlot) == (u, m)
  {
    var next := NextSlot(env);
    assert next(t, l) == Some((u, m));
    IterateStep(next, t0, l0, t, l, u, m);
  }

  lemma IterateStep(next: SlotFunction, t0: TickState, l0: Local, t: TickState, l: Local, u: TickState, m: Local)
    requires t0.nextSlot <= t.nextSlot && Iterate(next, t0, l0, t.nextSlot) == (t, l)
    requires next(t, l) == Some((u, m)) && u.nextSlot == t.nextSlot + 1
    ensures Iterate(next, t0, l0, u.nextSlot) == (u, m)
  {
  }

  lemma SlotsDone(env: Env, t0: TickState, l0: Local, t: TickState, l: Local)
    requires Sound(env) && !Open(env, t, l) && t.nextSlot <= t0.slots
    requires Iterate(NextSlot(env), t0, l0, t.nextSlot) == (t, l)
    ensures Direct(env, t0, l0, t0.slots) == (t, l)
  {
    IterateSettles(NextSlot(env), t0, l0, t.nextSlot, t0.slots);
  }
}
