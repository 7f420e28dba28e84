/** The pass ownership index (`pass_owner_by_id`) against the per-agent sets (`owned_passes`). */
module Ownership {
  import opened Wrappers
  import opened World
  import opened Actions
  import opened Probe
  import opened SlotProtocol
  import opened SlotSafety

  /** Every indexed pass is in its owner's set and every owned pass is indexed. */
  ghost predicate Indexed(l: Local) {
    && (forall p | p in l.ownerOf :: l.ownerOf[p] < |l.agents| && p in l.agents[l.ownerOf[p]].owned)
    && (forall i, p | 0 <= i < |l.agents| && p in l.agents[i].owned :: p in l.ownerOf)
  }

  /** No pass is in two sets: the owned sets partition the index. */
  ghost predicate Disjoint(l: Local) {
    forall i, j, p | 0 <= i < |l.agents| && 0 <= j < |l.agents| && p in l.agents[i].owned && p in l.agents[j].owned ::
      i == j
  }

  /** `refresh_agent_state`: the active pass the chain reports for an agent is recorded as its own. */
  function Refresh(l: Local, i: nat, active: Option<string>): Local
    requires i < |l.agents|
  {
    match active
    case None => SetAgent(l, i, l.agents[i].(activePass := None))
    case Some(p) =>
      SetAgent(l, i, l.agents[i].(activePass := Some(p), owned := l.agents[i].owned + {p}))
        .(ownerOf := l.ownerOf[p := i])
  }

  // ---------------------------------------------------------------- rebuilding after a reorg

  datatype PassState = ActiveState | DormantState | InvalidState | OtherState

  /** A leaderboard row; the owner is absent when its script hash belongs to no agent. */
  datatype Row = Row(pass: string, owner: Option<nat>, state: PassState)

  function ResetAgent(a: Agent): Agent {
    Agent({}, {}, None, ReorgReset, 0, a.scriptedIndex)
  }

  function ResetAgents(agents: seq<Agent>): (r: seq<Agent>)
    ensures |r| == |agents| && forall i | 0 <= i < |r| :: r[i] == ResetAgent(agents[i])
  {
    if agents == [] then [] else [ResetAgent(agents[0])] + ResetAgents(agents[1..])
  }

  function Reset(l: Local): Local {
    l.(agents := ResetAgents(l.agents), ownerOf := map[])
  }

  predicate RowsInRange(rows: seq<Row>, n: nat) {
    forall k | 0 <= k < |rows| :: rows[k].owner.Some? ==> rows[k].owner.value < n
  }

  function AddRow(l: Local, r: Row): Result<Local, string>
    requires r.owner.Some? ==> r.owner.value < |l.agents|
  {
    if r.pass == "" then Failure("invalid leaderboard row")
    else if r.owner.None? then Success(l)
    else
      var i := r.owner.value;
      var a := l.agents[i];
      if r.state.ActiveState? && a.activePass.Some? && a.activePass.value != r.pass then
        Failure("duplicate active pass detected during reorg rebuild")
      else
        Success(SetAgent(l, i, a.(owned := a.owned + {r.pass},
                                  invalid := if r.state.InvalidState? then a.invalid + {r.pass} else a.invalid,
                                  activePass := if r.state.ActiveState? then Some(r.pass) else a.activePass))
                  .(ownerOf := l.ownerOf[r.pass := i]))
  }

  function AddRows(l: Local, rows: seq<Row>): (r: Result<Local, string>)
    requires RowsInRange(rows, |l.agents|)
    ensures r.Success? ==> |r.value.agents| == |l.agents|
    decreases |rows|
  {
    if rows == [] then Success(l)
    else
      assert rows[0].owner.Some? ==> rows[0].owner.value < |l.agents|;
      var l1 :- AddRow(l, rows[0]);
      assert forall k | 0 <= k < |rows[1..]| :: rows[1..][k] == rows[k + 1];
      AddRows(l1, rows[1..])
  }

  /** `rebuild_local_chain_view_from_height`. */
  function Rebuild(l: Local, rows: seq<Row>): Result<Local, string>
    requires RowsInRange(rows, |l.agents|)
  {
    var l1 :- AddRows(Reset(l), rows);
    if exists k | 0 <= k < |rows| :: rows[k].owner.None? then Failure("rows owned by unknown script hashes")
    else Success(l1)
  }

  // ---------------------------------------------------------------- the phase after mining

  /** What the end of a tick does to the modelled memory: it counts, refreshes agents and, after a
      reorg, rebuilds the whole view. A failing rebuild ends the process. */
  datatype ViewStep =
    | Tally(metrics: Metrics)
    | RefreshAgent(agent: nat, active: Option<string>)
    | RebuildView(rows: seq<Row>)

  predicate ViewStepInRange(v: ViewStep, n: nat) {
    match v
    case Tally(_) => true
    case RefreshAgent(i, _) => i < n
    case RebuildView(rows) => RowsInRange(rows, n)
  }

  predicate ViewInRange(vs: seq<ViewStep>, n: nat) {
    forall k | 0 <= k < |vs| :: ViewStepInRange(vs[k], n)
  }

  function TakeView(l: Local, v: ViewStep): (r: Result<Local, string>)
    requires ViewStepInRange(v, |l.agents|)
    ensures r.Success? ==> |r.value.agents| == |l.agents|
  {
    match v
    case Tally(m) => Success(l.(metrics := m))
    case RefreshAgent(i, active) => Success(Refresh(l, i, active))
    case RebuildView(rows) => Rebuild(l, rows)
  }

  function TakeViews(l: Local, vs: seq<ViewStep>): Result<Local, string>
    requires ViewInRange(vs, |l.agents|)
    decreases |vs|
  {
    if vs == [] then Success(l)
    else
      assert ViewStepInRange(vs[0], |l.agents|);
      var l1 :- TakeView(l, vs[0]);
      assert forall k | 0 <= k < |vs[1..]| :: vs[1..][k] == vs[k + 1];
      TakeViews(l1, vs[1..])
  }

  // ---------------------------------------------------------------- what each update keeps

  lemma MintKeepsIndex(l: Local, pass: string, owner: nat, invalid: bool)
    requires Indexed(l) && owner < |l.agents|
    ensures Indexed(RecordMint(l, pass, owner, invalid))
    ensures Disjoint(l) ==>
              (Disjoint(RecordMint(l, pass, owner, invalid)) <==> (pass in l.ownerOf ==> l.ownerOf[pass] == owner))
  {
    var r := RecordMint(l, pass, owner, invalid);
    forall i, p | 0 <= i < |r.agents| && p in r.agents[i].owned
      ensures p in r.ownerOf
    {
      assert p == pass || p in l.agents[i].owned;
    }
    if pass in l.ownerOf && l.ownerOf[pass] != owner {
      var j := l.ownerOf[pass];
      assert pass in r.agents[j].owned && pass in r.agents[owner].owned;
    }
  }

  lemma MoveKeepsIndex(l: Local, pass: string, source: nat, target: nat)
    requires Indexed(l) && source < |l.agents| && target < |l.agents|
    ensures Indexed(RecordMove(l, pass, source, target))
    ensures Disjoint(l) ==>
              (Disjoint(RecordMove(l, pass, source, target)) <==>
               (pass in l.ownerOf ==> l.ownerOf[pass] == source || l.ownerOf[pass] == target))
  {
    var r := RecordMove(l, pass, source, target);
    assert forall i | 0 <= i < |r.agents| && i != source && i != target :: r.agents[i] == l.agents[i];
    assert pass in r.agents[target].owned;
    if pass in l.ownerOf && l.ownerOf[pass] != source && l.ownerOf[pass] != target {
      var j := l.ownerOf[pass];
      assert pass in r.agents[j].owned;
    }
  }

  lemma RefreshKeepsIndex(l: Local, i: nat, active: Option<string>)
    requires Indexed(l) && i < |l.agents|
    ensures Indexed(Refresh(l, i, active))
    ensures Disjoint(l) ==>
              (Disjoint(Refresh(l, i, active)) <==>
               (active.Some? && active.value in l.ownerOf ==> l.ownerOf[active.value] == i))
  {
    var r := Refresh(l, i, active);
    if active.Some? {
      var p := active.value;
      assert p in r.agents[i].owned;
      if p in l.ownerOf && l.ownerOf[p] != i {
        assert p in r.agents[l.ownerOf[p]].owned;
      }
    }
  }

  /** Receipt replay is ownership-safe whatever it replays. */
  lemma PatchKeepsIndex(l: Local, p: Patch)
    requires Indexed(l) && PatchInRange(p, |l.agents|)
    ensures Indexed(ApplyPatch(l, p))
  {
    match p
    case MintLike(pass, owner, invalid) => MintKeepsIndex(l, pass, owner, invalid);
    case Move(pass, source, target) => MoveKeepsIndex(l, pass, source, target);
  }

  lemma {:induction false} AddRowsKeepsIndex(l: Local, rows: seq<Row>)
    requires Indexed(l) && RowsInRange(rows, |l.agents|) && AddRows(l, rows).Success?
    ensures Indexed(AddRows(l, rows).value)
    decreases |rows|
  {
    if rows != [] {
      var l1 := AddRow(l, rows[0]).value;
      if rows[0].owner.Some? {
        var i := rows[0].owner.value;
        assert forall j | 0 <= j < |l.agents| && j != i :: l1.agents[j] == l.agents[j];
      }
      AddRowsKeepsIndex(l1, rows[1..]);
    }
  }

  ghost predicate DistinctPasses(rows: seq<Row>) {
    forall j, k | 0 <= j < k < |rows| :: rows[j].pass != rows[k].pass
  }

  lemma {:induction false} AddRowsKeepsDisjoint(l: Local, rows: seq<Row>)
    requires Indexed(l) && Disjoint(l) && RowsInRange(rows, |l.agents|) && AddRows(l, rows).Success?
    requires DistinctPasses(rows) && forall k | 0 <= k < |rows| :: rows[k].pass !in l.ownerOf
    ensures Disjoint(AddRows(l, rows).value)
    decreases |rows|
  {
    if rows != [] {
      var l1 := AddRow(l, rows[0]).value;
      var rest := rows[1..];
      AddRowsKeepsIndex(l, [rows[0]]);
      assert AddRows(l, [rows[0]]) == Success(l1);
      if rows[0].owner.Some? {
        var i := rows[0].owner.value;
        assert forall j | 0 <= j < |l.agents| && j != i :: l1.agents[j] == l.agents[j];
        assert forall j | 0 <= j < |l.agents| :: rows[0].pass !in l.agents[j].owned;
      }
      assert forall k | 0 <= k < |rest| :: rest[k] == rows[k + 1];
      AddRowsKeepsDisjoint(l1, rest);
    }
  }

  /** Rebuilding the view after a reorg gives a consistent index from any earlier state, and a
      partition when the leaderboard lists each pass once. */
  lemma RebuildRestoresIndex(l: Local, rows: seq<Row>)
    requires RowsInRange(rows, |l.agents|) && Rebuild(l, rows).Success?
    ensures Indexed(Rebuild(l, rows).value)
    ensures DistinctPasses(rows) ==> Disjoint(Rebuild(l, rows).value)
  {
    AddRowsKeepsIndex(Reset(l), rows);
    if DistinctPasses(rows) {
      AddRowsKeepsDisjoint(Reset(l), rows);
    }
  }

  // ---------------------------------------------------------------- over whole histories

  ghost predicate IndexEverywhere(s: Sys) {
    && (s.disk.snapshot.Some? ==> Indexed(s.disk.snapshot.value.local))
    && (match s.proc
        case Down | Finished(_) => true
        case Top(_, l) => Indexed(l)
        case Slot(_, _, l) => Indexed(l)
        case Drained(_, l) => Indexed(l)
        case Mined(_, l) => Indexed(l))
  }

  /** The memory a tick ends with comes from the memory it was mined with. */
  ghost predicate ViewedFrom(l: Local, after: Local) {
    exists vs: seq<ViewStep> :: ViewInRange(vs, |l.agents|) && TakeViews(l, vs) == Success(after)
  }

  ghost predicate HonestEvent(s: Sys, e: Event) {
    e.Advance? && s.proc.Mined? && e.after.Some? ==> ViewedFrom(s.proc.local, e.after.value)
  }

  ghost predicate HonestHistory(env: Env, s: Sys, history: seq<Event>)
    requires Sound(env) && Wf(env, s)
    decreases |history|
  {
    history == [] ||
    (&& HonestEvent(s, history[0])
     && (StepKeepsWf(env, history[0], s);
         HonestHistory(env, Step(env, history[0], s), history[1..])))
  }

  lemma ViewKeepsIndex(l: Local, v: ViewStep)
    requires Indexed(l) && ViewStepInRange(v, |l.agents|) && TakeView(l, v).Success?
    ensures Indexed(TakeView(l, v).value)
  {
    match v
    case Tally(m) => SameOwnersKeepIndex(l, l.(metrics := m));
    case RefreshAgent(i, active) => RefreshKeepsIndex(l, i, active);
    case RebuildView(rows) => RebuildRestoresIndex(l, rows);
  }

  lemma {:induction false} ViewAllKeepsIndex(l: Local, vs: seq<ViewStep>)
    requires Indexed(l) && ViewInRange(vs, |l.agents|) && TakeViews(l, vs).Success?
    ensures Indexed(TakeViews(l, vs).value)
    decreases |vs|
  {
    if vs != [] {
      assert ViewStepInRange(vs[0], |l.agents|);
      ViewKeepsIndex(l, vs[0]);
      ViewAllKeepsIndex(TakeView(l, vs[0]).value, vs[1..]);
    }
  }

  lemma MinedKeepsIndex(l: Local, after: Local)
    requires Indexed(l) && ViewedFrom(l, after)
    ensures Indexed(after)
  {
    var vs :| ViewInRange(vs, |l.agents|) && TakeViews(l, vs) == Success(after);
    ViewAllKeepsIndex(l, vs);
  }

  lemma SameOwnersKeepIndex(l: Local, m: Local)
    requires Indexed(l) && m.ownerOf == l.ownerOf && |m.agents| == |l.agents|
    requires forall i | 0 <= i < |l.agents| :: m.agents[i].owned == l.agents[i].owned
    ensures Indexed(m)
  {
  }

  lemma CompleteKeepsIndex(env: Env, t: TickState, plan: Plan, req: Request, l: Local, raw: string)
    requires WfLocal(env, l) && plan.actor < env.agentCount && RequestInRange(env, req) && Indexed(l)
    requires Complete(env, t, plan, req, l, raw).Success?
    ensures Indexed(Complete(env, t, plan, req, l, raw).value.0)
  {
    var (after, o) := Complete(env, t, plan, req, l, raw).value;
    CompleteReceipted(env, t, plan, req, l, raw);
    ReceiptedKeepsIndex(plan, l, after, o, RequestMetric(req));
  }

  lemma ReceiptedKeepsIndex(plan: Plan, l: Local, after: Local, o: Outcome, k: Metric)
    requires Receipted(plan, l, after, o, k) && Indexed(l)
    ensures Indexed(after)
  {
    var r := BuildReceipt(plan, o, l.metrics, after.metrics).value;
    if r.patch.Some? {
      SameOwnersKeepIndex(l, l.(metrics := after.metrics));
      PatchKeepsIndex(l.(metrics := after.metrics), r.patch.value);
    }
  }

  lemma ReplayKeepsIndex(plan: Plan, r: Receipt, l: Local)
    requires Indexed(l) && (r.patch.Some? ==> PatchInRange(r.patch.value, |l.agents|))
    ensures ApplyReceipt(plan, r, l).Success? ==> Indexed(ApplyReceipt(plan, r, l).value.0)
  {
    var l1 := l.(metrics := AddDeltas(l.metrics, r.deltas));
    SameOwnersKeepIndex(l, l1);
    if r.patch.Some? {
      PatchKeepsIndex(l1, r.patch.value);
    }
  }

  ghost predicate MoveIndexed(m: HeadMove) {
    match m
    case Execute(_, l) => Indexed(l)
    case Resume(_, applied) => applied.Success? ==> Indexed(applied.value.0)
    case GiveUp(_, l) => Indexed(l)
    case _ => true
  }

  lemma RecoverKeepsIndex(env: Env, t: TickState, l: Local, plan: Plan, text: string)
    requires Sound(env) && WfLocal(env, l) && WfTick(env, t) && plan.actor < env.agentCount && Indexed(l)
    ensures MoveIndexed(Recover(env, t, l, plan, text))
  {
    RebuiltInRange(env, t, plan, l, text);
    var r := RebuildReceipt(env, t, plan, l, text);
    if r.Success? {
      ReplayKeepsIndex(plan, r.value, l);
    }
  }

  lemma PlanKeepsIndex(env: Env, t: TickState, l: Local)
    requires Sound(env) && WfTick(env, t) && WfLocal(env, l) && t.available != {} && Indexed(l)
    ensures Indexed(PlanFor(env, t, l).1)
  {
    SameOwnersKeepIndex(l, PlanFor(env, t, l).1);
  }

  lemma BooksKeepIndex(t: TickState, l: Local, plan: Plan, o: Outcome, e: string)
    requires plan.actor < |l.agents| && Indexed(l)
    ensures Indexed(Book(t, l, plan, o).1)
    ensures Indexed(BookFailure(t, l, plan, e).1)
  {
    SameOwnersKeepIndex(l, Book(t, l, plan, o).1);
    SameOwnersKeepIndex(l, BookFailure(t, l, plan, e).1);
  }

  lemma HeadKeepsIndex(env: Env, t: TickState, l: Local, files: map<ActionId, string>, polls: seq<Poll>)
    requires Sound(env) && WfTick(env, t) && WfLocal(env, l) && Indexed(l)
    ensures MoveIndexed(MoveAtHead(env, t, l, files, polls))
  {
    if t.nextSlot < t.slots && t.available != {} {
      if t.plan.None? {
        PlanKeepsIndex(env, t, l);
      } else {
        var plan := t.plan.value;
        BooksKeepIndex(t, l, plan, Outcome("", None, {}), UNRESOLVED);
        if t.receipt.Some? {
          ReplayKeepsIndex(plan, t.receipt.value, l);
        } else if plan.id in files {
          RecoverKeepsIndex(env, t, l, plan, files[plan.id]);
        } else if WaitFor(plan, polls, None).Resolved? {
          RecoverKeepsIndex(env, t, l, plan, WaitFor(plan, polls, None).text);
        }
      }
    }
  }

  lemma PlannedKeepsIndex(env: Env, s: Sys)
    requires Sound(env) && Safe(env, s) && IndexEverywhere(s) && s.proc.Slot? && s.proc.pc.Planned?
    ensures IndexEverywhere(AtPlanned(env, s))
  {
    var Slot(_, t, l) := s.proc;
    var plan := t.plan.value;
    var d := Decide(env, t, plan, l);
    if d.SkipAction? {
      SameOwnersKeepIndex(l, CompleteSkip(plan, d, l).0);
    }
    AfterDecisionKeepsIndex(s, plan, d, env.reply(plan.id));
  }

  lemma AfterDecisionKeepsIndex(s: Sys, plan: Plan, d: Decision, reply: Reply)
    requires IndexEverywhere(s) && s.proc.Slot?
    requires d.SkipAction? ==> Indexed(CompleteSkip(plan, d, s.proc.local).0)
    ensures IndexEverywhere(AfterDecision(s, plan, d, reply))
  {
  }

  lemma FiledKeepsIndex(env: Env, s: Sys)
    requires Safe(env, s) && IndexEverywhere(s) && s.proc.Slot? && s.proc.pc.Filed?
    ensures IndexEverywhere(AtFiled(env, s))
  {
    var Slot(Filed(request, raw), t, l) := s.proc;
    var done := Complete(env, t, t.plan.value, request, l, raw);
    if done.Success? {
      CompleteKeepsIndex(env, t, t.plan.value, request, l, raw);
    }
    AfterCommandKeepsIndex(s, t.plan.value, done);
  }

  lemma AfterCommandKeepsIndex(s: Sys, plan: Plan, done: Result<(Local, Outcome), string>)
    requires IndexEverywhere(s) && s.proc.Slot? && (done.Success? ==> Indexed(done.value.0))
    ensures IndexEverywhere(AfterCommand(s, plan, done))
  {
  }

  lemma SlotKeepsIndex(env: Env, s: Sys, polls: seq<Poll>)
    requires Sound(env) && Safe(env, s) && IndexEverywhere(s) && s.proc.Slot?
    ensures IndexEverywhere(AtSlot(env, s, polls))
  {
    var Slot(pc, t, l) := s.proc;
    match pc
    case Head => HeadKeepsIndex(env, t, l, s.disk.files, polls);
    case Planned => PlannedKeepsIndex(env, s);
    case Filed(_, _) => FiledKeepsIndex(env, s);
    case Committing(o) => BooksKeepIndex(t, l, t.plan.value, o, "");
    case Failing(e) => BooksKeepIndex(t, l, t.plan.value, Outcome("", None, {}), e);
    case _ =>
  }

  lemma StepKeepsIndex(env: Env, s: Sys, e: Event)
    requires Sound(env) && Safe(env, s) && IndexEverywhere(s) && HonestEvent(s, e) && Indexed(env.initial)
    ensures IndexEverywhere(Step(env, e, s))
  {
    if e.Advance? && s.proc.Slot? {
      SlotKeepsIndex(env, s, e.polls);
    } else if e.Advance? && s.proc.Mined? && e.after.Some? {
      MinedKeepsIndex(s.proc.local, e.after.value);
    }
  }

  lemma {:induction false} IndexAlwaysConsistent(env: Env, s: Sys, history: seq<Event>)
    requires Sound(env) && Safe(env, s) && IndexEverywhere(s) && Indexed(env.initial)
    requires HonestHistory(env, s, history)
    ensures IndexEverywhere(Exec(env, s, history))
    decreases |history|
  {
    if history != [] {
      StepIsSafe(env, history[0], s);
      StepKeepsIndex(env, s, history[0]);
      IndexAlwaysConsistent(env, Step(env, history[0], s), history[1..]);
    }
  }

  /** Over every history of slots, replays, rebuilds, refreshes, crashes and restarts, index and owned
      sets agree in memory and on disk. */
  lemma IndexOverAllHistories(env: Env, history: seq<Event>)
    requires Sound(env) && Indexed(env.initial)
    requires HonestHistory(env, Start(env), history)
    ensures IndexEverywhere(Exec(env, Start(env), history))
  {
    StartIsConsistent(env);
    IndexAlwaysConsistent(env, Start(env), history);
  }

  lemma StartIsConsistent(env: Env)
    requires Sound(env)
    ensures Safe(env, Start(env)) && IndexEverywhere(Start(env))
  {
  }

  // ---------------------------------------------------------------- partition over slots

  /** A command can break the partition only by minting an id that is already indexed to another agent. */
  lemma CommandKeepsPartition(env: Env, t: TickState, plan: Plan, l: Local, raw: string)
    requires Sound(env) && WfTick(env, t) && WfLocal(env, l) && plan.actor < env.agentCount
    requires Indexed(l) && Disjoint(l) && Decide(env, t, plan, l).Issue?
    requires RequestInRange(env, Decide(env, t, plan, l).request)
    requires Complete(env, t, plan, Decide(env, t, plan, l).request, l, raw).Success?
    ensures var req := Decide(env, t, plan, l).request;
            var (after, o) := Complete(env, t, plan, req, l, raw).value;
            Disjoint(after) <==>
              (req.Inscribe? && o.expectation.value.pass.value in l.ownerOf ==>
                 l.ownerOf[o.expectation.value.pass.value] == plan.actor)
  {
    var req := Decide(env, t, plan, l).request;
    var (after, o) := Complete(env, t, plan, req, l, raw).value;
    match req
    case Inscribe(_, invalid) =>
      MintKeepsIndex(l, o.expectation.value.pass.value, plan.actor, invalid);
    case SendPass(pass, target, _) =>
      assert pass in l.agents[plan.actor].owned;
      assert l.ownerOf[pass] == plan.actor;
      MoveKeepsIndex(l, pass, plan.actor, target);
    case FundAgent(_) =>
    case PayMiner(_, _) =>
  }
}
