/** What the books of a tick promise for later: over whole histories the expectations to be verified
    are those of the committed slots that did not skip, in order, and every finished slot is counted
    under its action. */
module Expectations {
  import opened Wrappers
  import opened OutputText
  import opened World
  import opened Actions
  import opened Probe
  import opened SlotProtocol
  import opened SlotSafety
  import opened Evidence

  /** What names an expectation: its slot's id, its action and its actor. */
  type Name = (Option<ActionId>, Action, nat)

  function Names(expectations: seq<Expectation>): seq<Name> {
    seq(|expectations|, i requires 0 <= i < |expectations| =>
      (expectations[i].id, expectations[i].action, expectations[i].actor))
  }

  /** The committed slots that ran a command. */
  function Verifiable(trace: seq<TraceEntry>): seq<Name> {
    if trace == [] then []
    else
      var e := trace[|trace| - 1];
      Verifiable(trace[..|trace| - 1])
      + (if e.Committed? && !SkipText(e.detail) then [(Some(e.id), e.action, e.actor)] else [])
  }

  /** Finished slots of an action: all of them, and those not given up for want of a result. */
  function Finished(trace: seq<TraceEntry>, a: Action): nat {
    if trace == [] then 0
    else Finished(trace[..|trace| - 1], a) + (if trace[|trace| - 1].action == a then 1 else 0)
  }

  function Resolved(trace: seq<TraceEntry>, a: Action): nat {
    if trace == [] then 0
    else
      var e := trace[|trace| - 1];
      Resolved(trace[..|trace| - 1], a)
      + (if e.action == a && (e.Committed? || e.error != "unresolved_inflight_slot_after_probe_window") then 1 else 0)
  }

  /** The counts of a tick, one more being due for a slot that is counted but not finished. */
  ghost predicate Tallied(t: TickState, running: Option<Action>) {
    forall a ::
      var more := if running == Some(a) then 1 else 0;
      Resolved(t.trace, a) + more <= CountOf(t.counts, a) <= Finished(t.trace, a) + more
  }

  ghost predicate Promised(t: TickState) {
    Names(t.expectations) == Verifiable(t.trace)
  }

  /** A slot's report and its expectation belong together, and the expectation is the slot's. */
  predicate Fitting(plan: Plan, detail: string, expectation: Option<Expectation>) {
    if SkipText(detail) then Meaningful(expectation).None?
    else
      && expectation.Some? && Meaningful(expectation) == expectation
      && expectation.value.action == plan.action && expectation.value.actor == plan.actor
  }

  predicate RequestFits(a: Action, req: Request) {
    match a
    case Mint => req == Inscribe(None, false)
    case InvalidMint => req == Inscribe(None, true)
    case Remint => req.Inscribe? && req.prev.Some? && !req.invalid
    case Transfer => req.SendPass?
    case SendBalance => req.FundAgent?
    case SpendBalance => req.PayMiner?
    case Noop => false
  }

  ghost predicate DiskPromises(t: TickState) {
    && Promised(t)
    && Tallied(t, if t.plan.Some? && t.receipt.Some? then Some(t.plan.value.action) else None)
    && (t.plan.Some? && t.receipt.Some? ==> Fitting(t.plan.value, t.receipt.value.detail, t.receipt.value.expectation))
  }

  ghost predicate MemoryPromises(pc: SlotPc, t: TickState) {
    Promised(t) &&
    match pc
    case Head => true
    case Planned => Tallied(t, None)
    case Called(req, _) => t.plan.Some? && Tallied(t, Some(t.plan.value.action)) && RequestFits(t.plan.value.action, req)
    case Filed(req, _) => t.plan.Some? && Tallied(t, Some(t.plan.value.action)) && RequestFits(t.plan.value.action, req)
    case Failing(_) => t.plan.Some? && Tallied(t, Some(t.plan.value.action))
    case Committing(o) =>
      t.plan.Some? && Tallied(t, Some(t.plan.value.action)) && Fitting(t.plan.value, o.detail, o.expectation)
    case Cleared => Tallied(t, None)
  }

  ghost predicate PromisesEverywhere(s: Sys) {
    && (s.disk.snapshot.Some? && s.disk.snapshot.value.InTick? ==> DiskPromises(s.disk.snapshot.value.t))
    && (s.proc.Slot? ==> MemoryPromises(s.proc.pc, s.proc.t))
  }

  // ---------------------------------------------------------------- results fit their plans

  lemma DecisionFits(env: Env, t: TickState, plan: Plan, l: Local)
    requires Sound(env) && WfTick(env, t) && WfLocal(env, l) && plan.actor < env.agentCount
    ensures var d := Decide(env, t, plan, l);
            match d
            case Issue(req) => RequestFits(plan.action, req)
            case SkipAction(detail, expectation) => Fitting(plan, detail, expectation)
  {
  }

  lemma CompleteFits(env: Env, t: TickState, plan: Plan, req: Request, l: Local, raw: string)
    requires WfLocal(env, l) && plan.actor < env.agentCount && RequestInRange(env, req) && RequestFits(plan.action, req)
    requires Complete(env, t, plan, req, l, raw).Success?
    ensures var o := Complete(env, t, plan, req, l, raw).value.1;
            Fitting(plan, o.detail, o.expectation)
  {
    IssuedTextIsNoSkip(env, t, plan, req, l, raw);
  }

  lemma RebuiltFits(env: Env, t: TickState, plan: Plan, l: Local, text: string)
    requires WfLocal(env, l) && plan.actor < env.agentCount
    requires RebuildReceipt(env, t, plan, l, text).Success?
    ensures var r := RebuildReceipt(env, t, plan, l, text).value;
            Fitting(plan, r.detail, r.expectation)
  {
    var raw := Strip(text);
    var r := RebuildReceipt(env, t, plan, l, text).value;
    RebuiltTextHasEquals(env, t, plan, l, text);
    SkipHasNoEquals(r.detail);
  }

  lemma RebuiltTextHasEquals(env: Env, t: TickState, plan: Plan, l: Local, text: string)
    requires WfLocal(env, l) && plan.actor < env.agentCount
    requires RebuildReceipt(env, t, plan, l, text).Success?
    ensures '=' in RebuildReceipt(env, t, plan, l, text).value.detail
  {
    var raw := Strip(text);
    var e := RebuildReceipt(env, t, plan, l, text).value.expectation.value;
    match plan.action
    case Mint | InvalidMint | Remint => MintDetailHasEquals(env, plan, e.prev, e.expectInvalid, e.pass.value);
    case Transfer => assert '=' in TransferDetail(env, plan, e.pass.value, e.target.value, ExtractTxid(raw).value);
    case SendBalance => assert '=' in FundDetail(env, plan, e.amount.value, Prefix12(ExtractTxid(raw).value));
    case SpendBalance => assert '=' in PayDetail(env, plan, e.amount.value, Prefix12(ExtractTxid(raw).value));
  }

  lemma BuiltFits(plan: Plan, o: Outcome, before: Metrics, after: Metrics)
    requires Fitting(plan, o.detail, o.expectation)
    ensures var r := BuildReceipt(plan, o, before, after);
            r.Success? ==> Fitting(plan, r.value.detail, r.value.expectation)
  {
  }

  // ---------------------------------------------------------------- booking

  lemma BookKeepsPromises(t: TickState, l: Local, plan: Plan, o: Outcome)
    requires plan.actor < |l.agents| && Promised(t) && Fitting(plan, o.detail, o.expectation)
    ensures Promised(Book(t, l, plan, o).0)
  {
    var u := Book(t, l, plan, o).0;
    assert u.trace[..|u.trace| - 1] == t.trace;
    if !SkipText(o.detail) {
      assert Names(u.expectations) == Names(t.expectations) + [(Some(plan.id), plan.action, plan.actor)];
    }
  }

  lemma FailureKeepsPromises(t: TickState, l: Local, plan: Plan, error: string)
    requires plan.actor < |l.agents| && Promised(t)
    ensures Promised(BookFailure(t, l, plan, error).0)
  {
    var u := BookFailure(t, l, plan, error).0;
    assert u.trace[..|u.trace| - 1] == t.trace;
  }

  lemma BookKeepsTally(t: TickState, l: Local, plan: Plan, o: Outcome, error: string)
    requires plan.actor < |l.agents|
    ensures Tallied(t, Some(plan.action)) ==>
              Tallied(Book(t, l, plan, o).0, None) && Tallied(BookFailure(t, l, plan, error).0, None)
    ensures Tallied(t, None) ==> Tallied(BookFailure(t, l, plan, UNRESOLVED).0, None)
  {
    var u, v, w := Book(t, l, plan, o).0, BookFailure(t, l, plan, error).0, BookFailure(t, l, plan, UNRESOLVED).0;
    assert u.trace[..|u.trace| - 1] == t.trace && v.trace[..|v.trace| - 1] == t.trace;
    assert w.trace[..|w.trace| - 1] == t.trace;
  }

  lemma CountKeepsTally(t: TickState, a: Action)
    requires Tallied(t, None)
    ensures Tallied(CountAction(t, a), Some(a))
  {
  }

  // ---------------------------------------------------------------- each step

  ghost predicate MovePromises(m: HeadMove) {
    match m
    case Leave | Die => true
    case Execute(t, _) => Promised(t) && Tallied(t, None) && t.receipt.None?
    case Resume(t, applied) =>
      && Promised(t) && t.plan.Some? && Tallied(t, Some(t.plan.value.action))
      && (applied.Success? ==> Fitting(t.plan.value, applied.value.1.detail, applied.value.1.expectation))
    case GiveUp(t, _) => Promised(t) && Tallied(t, None)
  }

  lemma RecoverPromises(env: Env, t: TickState, l: Local, plan: Plan, text: string)
    requires Sound(env) && WfLocal(env, l) && WfTick(env, t) && plan.actor < env.agentCount && t.plan == Some(plan)
    requires Promised(t) && Tallied(t, None)
    ensures MovePromises(Recover(env, t, l, plan, text))
  {
    CountKeepsTally(t, plan.action);
    if RebuildReceipt(env, t, plan, l, text).Success? {
      RebuiltFits(env, t, plan, l, text);
    }
  }

  lemma PlanPromises(env: Env, t: TickState, l: Local)
    requires Sound(env) && WfTick(env, t) && WfLocal(env, l) && t.available != {} && t.plan.None? && DiskPromises(t)
    ensures var u := PlanFor(env, t, l).0; Promised(u) && Tallied(u, None) && u.receipt.None?
  {
  }

  lemma MovePromisesAll(env: Env, t: TickState, l: Local, files: map<ActionId, string>, polls: seq<Poll>)
    requires Sound(env) && WfTick(env, t) && WfLocal(env, l) && DiskPromises(t)
    ensures MovePromises(MoveAtHead(env, t, l, files, polls))
  {
    if t.nextSlot < t.slots && t.available != {} {
      if t.plan.None? {
        PlanPromises(env, t, l);
      } else {
        var plan := t.plan.value;
        if t.receipt.None? {
          FailureKeepsPromises(t, l, plan, UNRESOLVED);
          BookKeepsTally(t, l, plan, Outcome("", None, {}), UNRESOLVED);
          if plan.id in files {
            RecoverPromises(env, t, l, plan, files[plan.id]);
          } else if WaitFor(plan, polls, None).Resolved? {
            RecoverPromises(env, t, l, plan, WaitFor(plan, polls, None).text);
          }
        }
      }
    }
  }

  lemma DoMoveKeepsPromises(s: Sys, m: HeadMove)
    requires PromisesEverywhere(s) && s.proc.Slot? && MovePromises(m)
    ensures PromisesEverywhere(DoMove(s, m))
  {
  }

  lemma HeadKeepsPromises(env: Env, s: Sys, polls: seq<Poll>)
    requires Sound(env) && Safe(env, s) && PromisesEverywhere(s) && s.proc.Slot? && s.proc.pc.Head?
    ensures PromisesEverywhere(AtHead(env, s, polls))
  {
    var Slot(_, t, l) := s.proc;
    MovePromisesAll(env, t, l, s.disk.files, polls);
    DoMoveKeepsPromises(s, MoveAtHead(env, t, l, s.disk.files, polls));
  }

  lemma RecordKeepsPromises(s: Sys, t: TickState, plan: Plan, before: Metrics, after: Local, o: Outcome)
    requires PromisesEverywhere(s) && t.plan == Some(plan) && Promised(t) && Tallied(t, Some(plan.action))
    requires Fitting(plan, o.detail, o.expectation)
    ensures PromisesEverywhere(Record(s, t, after, o, BuildReceipt(plan, o, before, after.metrics)))
  {
    BuiltFits(plan, o, before, after.metrics);
  }

  lemma PlannedKeepsPromises(env: Env, s: Sys)
    requires Sound(env) && Safe(env, s) && PromisesEverywhere(s) && s.proc.Slot? && s.proc.pc.Planned?
    ensures PromisesEverywhere(AtPlanned(env, s))
  {
    var Slot(_, t, l) := s.proc;
    var plan := t.plan.value;
    DecisionFits(env, t, plan, l);
    CountKeepsTally(t, plan.action);
    var d := Decide(env, t, plan, l);
    if d.SkipAction? {
      var (after, o) := CompleteSkip(plan, d, l);
      RecordKeepsPromises(s, CountAction(t, plan.action), plan, l.metrics, after, o);
    } else {
      IssuedKeepsPromises(s, plan, d.request, env.reply(plan.id));
    }
  }

  lemma IssuedKeepsPromises(s: Sys, plan: Plan, request: Request, reply: Reply)
    requires PromisesEverywhere(s) && s.proc.Slot? && s.proc.t.plan == Some(plan) && RequestFits(plan.action, request)
    requires Promised(s.proc.t) && Tallied(CountAction(s.proc.t, plan.action), Some(plan.action))
    ensures PromisesEverywhere(AfterDecision(s, plan, Issue(request), reply))
  {
  }

  lemma FiledKeepsPromises(env: Env, s: Sys)
    requires Sound(env) && Safe(env, s) && PromisesEverywhere(s) && s.proc.Slot? && s.proc.pc.Filed?
    ensures PromisesEverywhere(AtFiled(env, s))
  {
    var Slot(Filed(request, raw), t, l) := s.proc;
    var plan := t.plan.value;
    var done := Complete(env, t, plan, request, l, raw);
    if done.Success? {
      CompleteFits(env, t, plan, request, l, raw);
      RecordKeepsPromises(s, t, plan, l.metrics, done.value.0, done.value.1);
    }
  }

  lemma BookingKeepsPromises(env: Env, s: Sys)
    requires Sound(env) && Safe(env, s) && PromisesEverywhere(s) && s.proc.Slot?
    requires s.proc.pc.Called? || s.proc.pc.Committing? || s.proc.pc.Failing? || s.proc.pc.Cleared?
    ensures PromisesEverywhere(AtSlot(env, s, []))
  {
    var Slot(pc, t, l) := s.proc;
    match pc
    case Committing(o) =>
      BookKeepsPromises(t, l, t.plan.value, o);
      BookKeepsTally(t, l, t.plan.value, o, "");
    case Failing(e) =>
      FailureKeepsPromises(t, l, t.plan.value, e);
      BookKeepsTally(t, l, t.plan.value, Outcome("", None, {}), e);
    case _ =>
  }

  lemma SlotKeepsPromises(env: Env, s: Sys, polls: seq<Poll>)
    requires Sound(env) && Safe(env, s) && PromisesEverywhere(s) && s.proc.Slot?
    ensures PromisesEverywhere(AtSlot(env, s, polls))
  {
    match s.proc.pc
    case Head => HeadKeepsPromises(env, s, polls);
    case Planned => PlannedKeepsPromises(env, s);
    case Filed(_, _) => FiledKeepsPromises(env, s);
    case _ => BookingKeepsPromises(env, s);
  }

  lemma TickStartPromises(env: Env, tick: nat, l: Local, height: nat)
    requires Sound(env) && WfLocal(env, l)
    ensures DiskPromises(TickStart(env, tick, l, height).0)
  {
  }

  // ---------------------------------------------------------------- whole histories

  lemma StepKeepsPromises(env: Env, s: Sys, e: Event)
    requires Sound(env) && Safe(env, s) && PromisesEverywhere(s)
    ensures PromisesEverywhere(Step(env, e, s))
  {
    if e.Advance? && s.proc.Slot? {
      SlotKeepsPromises(env, s, e.polls);
    } else if e.Advance? && s.proc.Top? {
      TickStartPromises(env, s.proc.tick + 1, s.proc.local, e.height);
    }
  }

  lemma {:induction false} HistoryKeepsPromises(env: Env, s: Sys, history: seq<Event>)
    requires Sound(env) && Safe(env, s) && PromisesEverywhere(s)
    ensures PromisesEverywhere(Exec(env, s, history))
    decreases |history|
  {
    if history != [] {
      StepIsSafe(env, history[0], s);
      StepKeepsPromises(env, s, history[0]);
      HistoryKeepsPromises(env, Step(env, history[0], s), history[1..]);
    }
  }

  /** Over every history, in every in-tick snapshot: the expectations are, in order, those of the
      committed slots that ran a command, each naming the slot's id, action and actor. */
  lemma ExpectationsFollowTrace(env: Env, history: seq<Event>)
    requires Sound(env)
    ensures var snapshot := Exec(env, Start(env), history).disk.snapshot;
            snapshot.Some? && snapshot.value.InTick? ==>
              Names(snapshot.value.t.expectations) == Verifiable(snapshot.value.t.trace)
  {
    HistoryKeepsPromises(env, Start(env), history);
  }

  /** And between two slots each action is counted once for every slot of it that finished, where a slot
      given up for want of a result need not be counted. */
  lemma CountsFollowTrace(env: Env, history: seq<Event>, a: Action)
    requires Sound(env)
    ensures var snapshot := Exec(env, Start(env), history).disk.snapshot;
            snapshot.Some? && snapshot.value.InTick? && snapshot.value.t.plan.None? ==>
              var t := snapshot.value.t;
              Resolved(t.trace, a) <= CountOf(t.counts, a) <= Finished(t.trace, a)
  {
    HistoryKeepsPromises(env, Start(env), history);
  }
}
