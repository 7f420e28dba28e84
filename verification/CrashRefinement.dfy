/** A tick that is interrupted and resumed any number of times commits what the uninterrupted tick
    commits, and exactly where it does not. */
module CrashRefinement {
  import opened Wrappers
  import opened OutputText
  import opened World
  import opened Actions
  import opened Probe
  import opened SlotProtocol
  import opened SlotSafety

  // ---------------------------------------------------------------- the uninterrupted slot

  /** Executing a persisted plan without interruption. */
  function Attempt(env: Env, t: TickState, plan: Plan, l: Local): (r: Result<(Local, Outcome), string>)
    requires Sound(env) && WfTick(env, t) && WfLocal(env, l) && plan.actor < env.agentCount
    ensures r.Success? ==> WfLocal(env, r.value.0)
  {
    match Decide(env, t, plan, l)
    case SkipAction(detail, expectation) => Success(CompleteSkip(plan, SkipAction(detail, expectation), l))
    case Issue(request) =>
      match env.reply(plan.id)
      case Refused(_, e) => Failure(e)
      case Printed(stdout) =>
        DecisionInRange(env, t, plan, l);
        Complete(env, t, plan, request, l, Strip(stdout))
  }

  predicate Open(env: Env, t: TickState, l: Local) {
    WfLocal(env, l) && t.plan.None? && t.receipt.None? && t.nextSlot < t.slots && t.available != {}
  }

  function Close(t: TickState): TickState {
    t.(nextSlot := t.nextSlot + 1)
  }

  /** Booking an attempt and moving to the next slot. */
  function EndOf(t: TickState, l: Local, plan: Plan, attempt: Result<(Local, Outcome), string>): (TickState, Local)
    requires plan.actor < |l.agents| && (attempt.Success? ==> plan.actor < |attempt.value.0.agents|)
  {
    match attempt
    case Success((after, o)) =>
      var (t', l') := Book(t, after, plan, o);
      (Close(t'), l')
    case Failure(e) =>
      var (t', l') := BookFailure(t, l, plan, e);
      (Close(t'), l')
  }

  /** One uninterrupted slot: plan, count, execute, book. */
  function DirectSlot(env: Env, t: TickState, l: Local): (r: (TickState, Local))
    requires Sound(env) && WfTick(env, t) && Open(env, t, l)
    ensures WfTick(env, r.0) && WfLocal(env, r.1)
    ensures r.0.nextSlot == t.nextSlot + 1 && r.0.plan.None? && r.0.receipt.None?
    ensures r.0.tick == t.tick && r.0.slots == t.slots
  {
    var (t1, l1) := PlanFor(env, t, l);
    var plan := t1.plan.value;
    EndOf(CountAction(t1, plan.action), l1, plan, Attempt(env, t1, plan, l1))
  }

  /** The next uninterrupted slot, if the tick has one. */
  type SlotFunction = (TickState, Local) -> Option<(TickState, Local)>

  ghost function NextSlot(env: Env): SlotFunction
    requires Sound(env)
  {
    (t: TickState, l: Local) =>
      if WfTick(env, t) && Open(env, t, l) then Some(DirectSlot(env, t, l)) else None
  }

  /** Slots taken one after another until slot k or the end of the tick, whichever comes first. */
  ghost function Iterate(next: SlotFunction, t: TickState, l: Local, k: nat): (TickState, Local)
    decreases k
  {
    if k <= t.nextSlot then (t, l)
    else
      var (u, m) := Iterate(next, t, l, k - 1);
      if u.nextSlot != k - 1 then (u, m)
      else match next(u, m) case None => (u, m) case Some(r) => r
  }

  /** The uninterrupted tick up to slot k. */
  ghost function Direct(env: Env, t: TickState, l: Local, k: nat): (TickState, Local)
    requires Sound(env)
  {
    Iterate(NextSlot(env), t, l, k)
  }

  ghost predicate Between(env: Env, slots: nat, t: TickState, l: Local) {
    WfTick(env, t) && WfLocal(env, l) && t.plan.None? && t.receipt.None? && t.nextSlot <= t.slots == slots
  }

  lemma {:induction false} IterateKeeps(env: Env, next: SlotFunction, t: TickState, l: Local, k: nat)
    requires Between(env, t.slots, t, l)
    requires forall u, m :: Between(env, t.slots, u, m) && next(u, m).Some? ==>
               Between(env, t.slots, next(u, m).value.0, next(u, m).value.1) && next(u, m).value.0.tick == u.tick
    ensures var (u, m) := Iterate(next, t, l, k);
            Between(env, t.slots, u, m) && u.tick == t.tick
    decreases k
  {
    if k > t.nextSlot {
      IterateKeeps(env, next, t, l, k - 1);
      var (u, m) := Iterate(next, t, l, k - 1);
      assert next(u, m).Some? ==> Between(env, t.slots, next(u, m).value.0, next(u, m).value.1);
    }
  }

  lemma {:induction false} IterateSettles(next: SlotFunction, t: TickState, l: Local, k: nat, n: nat)
    requires k <= n
    requires var (u, m) := Iterate(next, t, l, k); u.nextSlot == k && next(u, m).None?
    ensures Iterate(next, t, l, n) == Iterate(next, t, l, k)
    decreases n
  {
    if k < n {
      if t.nextSlot < n {
        IterateSettles(next, t, l, k, n - 1);
      }
    }
  }

  lemma DirectKeeps(env: Env, t: TickState, l: Local, k: nat)
    requires Sound(env) && Between(env, t.slots, t, l)
    ensures var (u, m) := Direct(env, t, l, k);
            Between(env, t.slots, u, m) && u.tick == t.tick
  {
    IterateKeeps(env, NextSlot(env), t, l, k);
  }

  // ---------------------------------------------------------------- equality up to metrics

  /** Equal local states; unless `exact`, metrics are not compared. */
  ghost predicate Same(exact: bool, a: Local, b: Local) {
    if exact then a == b else a.(metrics := map[]) == b.(metrics := map[])
  }

  /** Outcomes that the bookkeeping cannot tell apart. */
  predicate SameOutcome(a: Outcome, b: Outcome) {
    a.detail == b.detail && a.used == b.used && Meaningful(a.expectation) == Meaningful(b.expectation)
  }

  lemma PlanIgnoresMetrics(env: Env, t: TickState, a: Local, b: Local, exact: bool)
    requires Sound(env) && WfTick(env, t) && t.available != {} && WfLocal(env, a) && WfLocal(env, b)
    requires Same(exact, a, b)
    ensures PlanFor(env, t, a).0 == PlanFor(env, t, b).0
    ensures Same(exact, PlanFor(env, t, a).1, PlanFor(env, t, b).1)
  {
    var actor := env.drawActor(t.tick, t.nextSlot, t.preHeight, t.available);
    if env.policy.Scripted? {
      var f := (x: Action) => actor < |a.agents| && ScriptedCycle.Viable(env, a, actor, x, t.available, t.preHeight);
      var g := (x: Action) => actor < |b.agents| && ScriptedCycle.Viable(env, b, actor, x, t.available, t.preHeight);
      SameChoice(env.policy.cycle, a.agents[actor].scriptedIndex, 0, f, g);
    }
  }

  lemma {:induction false} SameChoice(cycle: seq<Action>, start: nat, offset: nat, f: Action -> bool, g: Action -> bool)
    requires cycle != [] && offset <= |cycle|
    requires forall x :: f(x) == g(x)
    ensures ScriptedCycle.FirstViable(cycle, start, offset, f) == ScriptedCycle.FirstViable(cycle, start, offset, g)
    decreases |cycle| - offset
  {
    if offset < |cycle| {
      SameChoice(cycle, start, offset + 1, f, g);
    }
  }

  lemma DecideIgnoresMetrics(env: Env, t: TickState, plan: Plan, a: Local, b: Local, exact: bool)
    requires WfLocal(env, a) && WfLocal(env, b) && plan.actor < env.agentCount && Same(exact, a, b)
    ensures Decide(env, t, plan, a) == Decide(env, t, plan, b)
  {
    assert a.agents == b.agents && a.ownerOf == b.ownerOf;
    assert RemintCandidates(env, a) == RemintCandidates(env, b);
  }

  lemma CompleteIgnoresMetrics(env: Env, t: TickState, u: TickState, plan: Plan, req: Request, a: Local, b: Local,
                               raw: string, exact: bool)
    requires WfLocal(env, a) && WfLocal(env, b) && plan.actor < env.agentCount && RequestInRange(env, req)
    requires Same(exact, a, b) && t.preHeight == u.preHeight
    ensures var x, y := Complete(env, t, plan, req, a, raw), Complete(env, u, plan, req, b, raw);
            if x.Success? then y.Success? && x.value.1 == y.value.1 && Same(exact, x.value.0, y.value.0)
            else x == y
  {
  }

  lemma RebuildIgnoresMetrics(env: Env, t: TickState, plan: Plan, a: Local, b: Local, text: string, exact: bool)
    requires WfLocal(env, a) && WfLocal(env, b) && plan.actor < env.agentCount && Same(exact, a, b)
    ensures RebuildReceipt(env, t, plan, a, text) == RebuildReceipt(env, t, plan, b, text)
  {
    ChoosePrevIgnoresMetrics(env, PosOf(t, plan), a, b, exact);
    assert a.agents == b.agents;
  }

  lemma ChoosePrevIgnoresMetrics(env: Env, pos: Pos, a: Local, b: Local, exact: bool)
    requires WfLocal(env, a) && WfLocal(env, b) && Same(exact, a, b)
    ensures ChoosePrev(env, a, pos) == ChoosePrev(env, b, pos)
  {
    assert a.agents == b.agents && a.ownerOf == b.ownerOf;
    assert RemintCandidates(env, a) == RemintCandidates(env, b);
  }

  lemma ApplyIgnoresMetrics(plan: Plan, r: Receipt, a: Local, b: Local, exact: bool)
    requires r.patch.Some? ==> PatchInRange(r.patch.value, |a.agents|) && PatchInRange(r.patch.value, |b.agents|)
    requires Same(exact, a, b)
    ensures var x, y := ApplyReceipt(plan, r, a), ApplyReceipt(plan, r, b);
            if x.Success? then y.Success? && x.value.1 == y.value.1 && Same(exact, x.value.0, y.value.0)
            else x == y
  {
  }

  // ---------------------------------------------------------------- receipts of uninterrupted slots

  lemma AttemptReceipted(env: Env, t: TickState, plan: Plan, l: Local) returns (k: Metric)
    requires Sound(env) && WfTick(env, t) && WfLocal(env, l) && plan.actor < env.agentCount
    requires Attempt(env, t, plan, l).Success?
    ensures var (after, o) := Attempt(env, t, plan, l).value;
            Receipted(plan, l, after, o, k)
  {
    DecisionInRange(env, t, plan, l);
    match Decide(env, t, plan, l)
    case SkipAction(_, _) =>
      k := Skipped;
      SkipReceipted(env, t, plan, l);
    case Issue(req) =>
      k := RequestMetric(req);
      CompleteReceipted(env, t, plan, req, l, Strip(env.reply(plan.id).stdout));
  }

  // ---------------------------------------------------------------- recovery against direct execution

  /** bitcoin-cli prints a bare transaction id for a payment. */
  predicate PlainText(action: Action, raw: string) {
    (action == SendBalance || action == SpendBalance) && ExtractTxid(raw).Some? ==> PaymentTextAgrees(raw)
  }

  /** Recovered text names the id that the command of this plan printed. */
  predicate Truthful(plan: Plan, decision: Decision, reply: Reply, text: string) {
    && decision.Issue? && reply.Printed?
    && SameIdIn(plan.action, Strip(reply.stdout), text)
    && PlainText(plan.action, Strip(reply.stdout))
  }

  lemma RecoverableIfRebuilt(env: Env, t: TickState, plan: Plan, l: Local, raw: string)
    requires WfLocal(env, l) && plan.actor < env.agentCount && Strip(raw) == raw
    requires PlainText(plan.action, raw) && RebuildReceipt(env, t, plan, l, raw).Success?
    ensures Recoverable(plan.action, raw)
  {
  }

  lemma RecoveredReceipt(env: Env, t: TickState, plan: Plan, l: Local, text: string)
    requires Sound(env) && WfTick(env, t) && WfLocal(env, l) && plan.actor < env.agentCount
    requires Truthful(plan, Decide(env, t, plan, l), env.reply(plan.id), text)
    requires RebuildReceipt(env, t, plan, l, text).Success?
    ensures Attempt(env, t, plan, l).Success?
    ensures var (after, o) := Attempt(env, t, plan, l).value;
            RebuildReceipt(env, t, plan, l, text) == BuildReceipt(plan, o, l.metrics, after.metrics)
  {
    var stdout := env.reply(plan.id).stdout;
    var raw := Strip(stdout);
    StripIdempotent(stdout);
    assert SameIdIn(plan.action, text, raw);
    RebuildDependsOnId(env, t, plan, l, text, raw);
    RecoverableIfRebuilt(env, t, plan, l, raw);
    DecisionInRange(env, t, plan, l);
    RebuildIsFaithful(env, t, plan, l, stdout);
  }

  /** Results of the same slot, up to what the bookkeeping reads. */
  ghost predicate SameResult(exact: bool, a: Result<(Local, Outcome), string>, b: Result<(Local, Outcome), string>) {
    if b.Success? then a.Success? && Same(exact, a.value.0, b.value.0) && SameOutcome(a.value.1, b.value.1)
    else a == b
  }

  /** A slot recovered from truthful text gets the result of the slot executed directly. */
  lemma RecoveryMatches(exact: bool, env: Env, t: TickState, plan: Plan, l: Local, dl: Local, text: string)
    requires Sound(env) && WfTick(env, t) && WfLocal(env, l) && WfLocal(env, dl) && plan.actor < env.agentCount
    requires Same(exact, dl, l) && t.receipt.None?
    requires Truthful(plan, Decide(env, t, plan, l), env.reply(plan.id), text)
    ensures var m := Recover(env, t, dl, plan, text);
            m.Die? || (m.Resume? && m.t.(receipt := None) == CountAction(t, plan.action)
                       && m.t.receipt.Some? && Attempt(env, t, plan, l).Success?
                       && SameResult(exact, m.applied, Attempt(env, t, plan, l)))
  {
    RebuildIgnoresMetrics(env, t, plan, dl, l, text, exact);
    RebuiltInRange(env, t, plan, dl, text);
    var rebuilt := RebuildReceipt(env, t, plan, dl, text);
    if rebuilt.Success? {
      RecoveredReceipt(env, t, plan, l, text);
      var k := AttemptReceipted(env, t, plan, l);
      var (after, o) := Attempt(env, t, plan, l).value;
      ReceiptReplaysDirectExecution(plan, l, after, o, k);
      ApplyIgnoresMetrics(plan, rebuilt.value, dl, l, exact);
    }
  }

  /** So does a slot replayed from the receipt recorded with its effect, up to metrics. */
  lemma ReplayMatches(env: Env, plan: Plan, l: Local, after: Local, o: Outcome, k: Metric, dl: Local, r: Receipt)
    requires Receipted(plan, l, after, o, k) && BuildReceipt(plan, o, l.metrics, after.metrics) == Success(r)
    requires Same(false, dl, after)
    requires r.patch.Some? ==> PatchInRange(r.patch.value, |dl.agents|)
    ensures SameResult(false, ApplyReceipt(plan, r, dl), Success((after, o)))
  {
    ReplayCountsTwice(plan, l, after, o, k);
    ApplyIgnoresMetrics(plan, r, dl, after, false);
  }

  // ---------------------------------------------------------------- simulation relation

  /** Everything one uninterrupted slot goes through, as values. */
  datatype Script = Script(
    t: TickState,
    l: Local,
    plan: Plan,
    decision: Decision,
    reply: Reply,
    attempt: Result<(Local, Outcome), string>)

  ghost predicate Base(env: Env, t: TickState, l: Local) {
    Sound(env) && WfTick(env, t) && WfLocal(env, l) && t.plan.None? && t.receipt.None?
  }

  function ScriptOf(env: Env, t: TickState, l: Local): Option<Script>
    requires Base(env, t, l)
  {
    if !Open(env, t, l) then None
    else
      var (t1, l1) := PlanFor(env, t, l);
      var plan := t1.plan.value;
      Some(Script(t1, l1, plan, Decide(env, t1, plan, l1), env.reply(plan.id), Attempt(env, t1, plan, l1)))
  }

  ghost predicate WfScript(env: Env, c: Script) {
    && WfTick(env, c.t) && WfLocal(env, c.l) && c.plan.actor < env.agentCount
    && c.t.plan == Some(c.plan) && c.t.receipt.None? && WfApplied(env, c.attempt)
  }

  lemma ScriptIsWf(env: Env, t: TickState, l: Local)
    requires Base(env, t, l)
    ensures var c := ScriptOf(env, t, l);
            c.Some? ==> WfScript(env, c.value) && c.value.t == t.(plan := Some(c.value.plan))
                        && PlanAtSlot(c.value.t)
                        && DirectSlot(env, t, l)
                           == EndOf(CountAction(c.value.t, c.value.plan.action), c.value.l, c.value.plan, c.value.attempt)
  {
  }

  /** Contents of an in-tick snapshot against the uninterrupted slot at the same position. */
  ghost predicate SnapshotMatches(exact: bool, t: TickState, l: Local, sc: Option<Script>, d: TickState, dl: Local) {
    if d.plan.None? then d == t && Same(exact, dl, l)
    else
      && sc.Some?
      && var c := sc.value;
      && d.plan == Some(c.plan)
      && (if d.receipt.None? then d == c.t && Same(exact, dl, c.l)
          else
            && c.attempt.Success?
            && var (after, o) := c.attempt.value;
            && BuildReceipt(c.plan, o, c.l.metrics, after.metrics) == Success(d.receipt.value)
            && d.(receipt := None) == CountAction(c.t, c.plan.action)
            && Same(exact, dl, after))
  }

  /** The external command of this slot ran and printed this text. */
  ghost predicate Printed(c: Script, raw: string) {
    c.decision.Issue? && c.reply.Printed? && raw == Strip(c.reply.stdout)
  }

  /** Memory of a live process against the uninterrupted slot. */
  ghost predicate MemoryMatches(exact: bool, env: Env, sc: Option<Script>, pc: SlotPc, v: TickState, vl: Local) {
    pc.Head? ||
    (&& sc.Some?
     && WfScript(env, sc.value)
     && var c := sc.value;
     var t2 := CountAction(c.t, c.plan.action);
     match pc
     case Planned => v == c.t && Same(exact, vl, c.l)
     case Called(req, raw) => v == t2 && Same(exact, vl, c.l) && Printed(c, raw) && c.decision == Issue(req)
     case Filed(req, raw) => v == t2 && Same(exact, vl, c.l) && Printed(c, raw) && c.decision == Issue(req)
     case Failing(e) => v == t2 && Same(exact, vl, c.l) && c.attempt == Failure(e)
     case Committing(o) => v.(receipt := None) == t2 && SameResult(exact, Success((vl, o)), c.attempt)
     case Cleared =>
       var (t', l') := EndOf(t2, c.l, c.plan, c.attempt);
       Close(v) == t' && Same(exact, vl, l'))
  }

  /** Result files hold what the command printed, and none is left over for a slot still to come. */
  ghost predicate FilesMatch(t: TickState, sc: Option<Script>, d: TickState, files: map<ActionId, string>) {
    forall id | id in files && !Before(id, t) ::
      d.plan.Some? && id == d.plan.value.id && sc.Some? && id == sc.value.plan.id && Printed(sc.value, files[id])
  }

  /** The interrupted run is somewhere inside the uninterrupted slot described by (t, l, sc). */
  ghost predicate InsideSlot(exact: bool, env: Env, t: TickState, l: Local, sc: Option<Script>, s: Sys) {
    && s.disk.snapshot.Some? && s.disk.snapshot.value.InTick?
    && var InTick(d, dl) := s.disk.snapshot.value;
    && d.tick == t.tick && d.nextSlot == t.nextSlot
    && SnapshotMatches(exact, t, l, sc, d, dl)
    && FilesMatch(t, sc, d, s.disk.files)
    && (s.proc.Slot? ==> MemoryMatches(exact, env, sc, s.proc.pc, s.proc.t, s.proc.local))
  }

  // ---------------------------------------------------------------- each step preserves it

  ghost predicate MoveMatches(exact: bool, sc: Option<Script>, d: TickState, m: HeadMove) {
    match m
    case Leave => d.plan.None?
    case Die => true
    case Execute(t, l) => d.plan.None? && sc.Some? && t == sc.value.t && Same(exact, l, sc.value.l)
    case Resume(t, applied) =>
      && sc.Some? && t.(receipt := None) == CountAction(sc.value.t, sc.value.plan.action)
      && sc.value.attempt.Success? && SameResult(exact, applied, sc.value.attempt)
    case GiveUp(_, _) => false
  }

  lemma DoMoveStaysInside(exact: bool, env: Env, t: TickState, l: Local, sc: Option<Script>, s: Sys, m: HeadMove)
    requires Safe(env, s) && InsideSlot(exact, env, t, l, sc, s) && s.proc.Slot? && s.proc.pc.Head?
    requires sc.Some? ==> WfScript(env, sc.value) && PlanAtSlot(sc.value.t) && sc.value.t.nextSlot == t.nextSlot
                          && sc.value.t.tick == t.tick
    requires MoveMatches(exact, sc, s.proc.t, m)
    ensures InsideSlot(exact, env, t, l, sc, DoMove(s, m))
  {
  }

  lemma AfterDecisionStaysInside(exact: bool, env: Env, t: TickState, l: Local, sc: Option<Script>, s: Sys)
    requires Safe(env, s) && InsideSlot(exact, env, t, l, sc, s) && s.proc.Slot? && s.proc.pc.Planned?
    requires sc.Some? && WfScript(env, sc.value)
    requires var c := sc.value;
             && (c.decision.SkipAction? ==> c.attempt == Success(CompleteSkip(c.plan, c.decision, c.l))
                                            && Meaningful(c.decision.expectation).None?)
             && (c.decision.Issue? && c.reply.Refused? ==> c.attempt == Failure(c.reply.error))
    ensures InsideSlot(exact, env, t, l, sc, AfterDecision(s, sc.value.plan, sc.value.decision, sc.value.reply))
  {
    var c := sc.value;
    OneBumpDelta(c.l.metrics, Skipped);
    OneBumpDelta(s.proc.local.metrics, Skipped);
  }

  lemma CalledStaysInside(exact: bool, env: Env, t: TickState, l: Local, sc: Option<Script>, s: Sys)
    requires Safe(env, s) && InsideSlot(exact, env, t, l, sc, s) && s.proc.Slot? && s.proc.pc.Called?
    ensures InsideSlot(exact, env, t, l, sc, AtCalled(env, s))
  {
  }

  lemma AfterCommandStaysInside(exact: bool, env: Env, t: TickState, l: Local, sc: Option<Script>, s: Sys,
                                done: Result<(Local, Outcome), string>, k: Metric)
    requires Safe(env, s) && InsideSlot(exact, env, t, l, sc, s) && s.proc.Slot? && s.proc.pc.Filed?
    requires sc.Some? && WfScript(env, sc.value) && SameResult(exact, done, sc.value.attempt)
    requires done.Success? ==>
               && done.value.1 == sc.value.attempt.value.1
               && Receipted(sc.value.plan, s.proc.local, done.value.0, done.value.1, k)
               && Receipted(sc.value.plan, sc.value.l, sc.value.attempt.value.0, done.value.1, k)
    ensures InsideSlot(exact, env, t, l, sc, AfterCommand(s, sc.value.plan, done))
  {
  }

  lemma BookingStaysInside(exact: bool, env: Env, t: TickState, l: Local, sc: Option<Script>, s: Sys)
    requires Safe(env, s) && InsideSlot(exact, env, t, l, sc, s) && s.proc.Slot?
    ensures s.proc.pc.Committing? ==> InsideSlot(exact, env, t, l, sc, AtCommitting(env, s))
    ensures s.proc.pc.Failing? ==> InsideSlot(exact, env, t, l, sc, AtFailing(env, s))
  {
  }

  /** What the outside must provide when a resumed slot has only its plan: if there is no result
      file the probe is not allowed to miss, what is found names the id the command printed, and a
      payment's text is a plain id. An exact comparison also excludes replays of a recorded receipt. */
  ghost predicate Benign(exact: bool, env: Env, tick: nat, s: Sys, e: Event)
    requires Sound(env) && Wf(env, s)
  {
    e.Advance? && s.proc.Slot? && s.proc.pc.Head? && s.proc.t.tick == tick
    && s.proc.t.plan.Some? && !AtTickEnd(s.proc.t) ==>
      var Slot(_, t, l) := s.proc;
      var plan := t.plan.value;
      if t.receipt.Some? then !exact
      else if plan.id in s.disk.files then PlainText(plan.action, s.disk.files[plan.id])
      else
        match WaitFor(plan, e.polls, None)
        case NothingSeen => false
        case GaveUp(_) => true
        case Resolved(text) => Truthful(plan, Decide(env, t, plan, l), env.reply(plan.id), text)
  }

  ghost predicate BenignHistory(exact: bool, env: Env, tick: nat, s: Sys, history: seq<Event>)
    requires Sound(env) && Wf(env, s)
    decreases |history|
  {
    history == [] ||
    (&& Benign(exact, env, tick, s, history[0])
     && (StepKeepsWf(env, history[0], s);
         BenignHistory(exact, env, tick, Step(env, history[0], s), history[1..])))
  }

  lemma RecoverMoveMatches(exact: bool, env: Env, c: Script, d: TickState, dl: Local, text: string)
    requires Sound(env) && WfScript(env, c) && WfLocal(env, dl) && d == c.t && Same(exact, dl, c.l)
    requires c.decision == Decide(env, c.t, c.plan, c.l) && c.reply == env.reply(c.plan.id)
    requires c.attempt == Attempt(env, c.t, c.plan, c.l)
    requires Truthful(c.plan, c.decision, c.reply, text)
    ensures MoveMatches(exact, Some(c), d, Recover(env, d, dl, c.plan, text))
  {
    RecoveryMatches(exact, env, c.t, c.plan, c.l, dl, text);
  }

  lemma ReplayMoveMatches(env: Env, c: Script, d: TickState, dl: Local)
    requires Sound(env) && WfScript(env, c) && WfLocal(env, dl) && WfTick(env, d)
    requires c.attempt == Attempt(env, c.t, c.plan, c.l)
    requires d.plan == Some(c.plan) && d.receipt.Some? && c.attempt.Success?
    requires var (after, o) := c.attempt.value;
             && BuildReceipt(c.plan, o, c.l.metrics, after.metrics) == Success(d.receipt.value)
             && d.(receipt := None) == CountAction(c.t, c.plan.action)
             && Same(false, dl, after)
    ensures MoveMatches(false, Some(c), d, Resume(d, ApplyReceipt(c.plan, d.receipt.value, dl)))
  {
    var k := AttemptReceipted(env, c.t, c.plan, c.l);
    var (after, o) := c.attempt.value;
    ReplayMatches(env, c.plan, c.l, after, o, k, dl, d.receipt.value);
  }

  lemma HeadMoveMatches(exact: bool, env: Env, t: TickState, l: Local, s: Sys, e: Event)
    requires Base(env, t, l) && Safe(env, s) && InsideSlot(exact, env, t, l, ScriptOf(env, t, l), s)
    requires e.Advance? && s.proc.Slot? && s.proc.pc.Head? && Benign(exact, env, t.tick, s, e)
    ensures MoveMatches(exact, ScriptOf(env, t, l), s.proc.t,
                        MoveAtHead(env, s.proc.t, s.proc.local, s.disk.files, e.polls))
  {
    var Slot(_, d, dl) := s.proc;
    var sc := ScriptOf(env, t, l);
    ScriptIsWf(env, t, l);
    if AtTickEnd(d) {
      assert d.plan.None?;
    } else if d.plan.None? {
      PlanIgnoresMetrics(env, t, dl, l, exact);
    } else {
      var c := sc.value;
      if d.receipt.Some? {
        ReplayMoveMatches(env, c, d, dl);
      } else {
        DecideIgnoresMetrics(env, c.t, c.plan, dl, c.l, exact);
        if c.plan.id in s.disk.files {
          var text := s.disk.files[c.plan.id];
          assert !Before(c.plan.id, t);
          StripIdempotent(c.reply.stdout);
          RecoverMoveMatches(exact, env, c, d, dl, text);
        } else if WaitFor(c.plan, e.polls, None).Resolved? {
          RecoverMoveMatches(exact, env, c, d, dl, WaitFor(c.plan, e.polls, None).text);
        }
      }
    }
  }

  lemma PlannedStaysInside(exact: bool, env: Env, t: TickState, l: Local, s: Sys)
    requires Base(env, t, l) && Safe(env, s) && InsideSlot(exact, env, t, l, ScriptOf(env, t, l), s)
    requires s.proc.Slot? && s.proc.pc.Planned?
    ensures InsideSlot(exact, env, t, l, ScriptOf(env, t, l), AtPlanned(env, s))
  {
    ScriptIsWf(env, t, l);
    var sc := ScriptOf(env, t, l);
    var c := sc.value;
    DecideIgnoresMetrics(env, c.t, c.plan, s.proc.local, c.l, exact);
    DecisionInRange(env, c.t, c.plan, c.l);
    AfterDecisionStaysInside(exact, env, t, l, sc, s);
  }

  lemma FiledStaysInside(exact: bool, env: Env, t: TickState, l: Local, s: Sys)
    requires Base(env, t, l) && Safe(env, s) && InsideSlot(exact, env, t, l, ScriptOf(env, t, l), s)
    requires s.proc.Slot? && s.proc.pc.Filed?
    ensures InsideSlot(exact, env, t, l, ScriptOf(env, t, l), AtFiled(env, s))
  {
    ScriptIsWf(env, t, l);
    var sc := ScriptOf(env, t, l);
    var c := sc.value;
    var Slot(Filed(req, raw), v, vl) := s.proc;
    DecisionInRange(env, c.t, c.plan, c.l);
    CompleteIgnoresMetrics(env, v, c.t, c.plan, req, vl, c.l, raw, exact);
    var done := Complete(env, v, c.plan, req, vl, raw);
    if done.Success? {
      CompleteReceipted(env, v, c.plan, req, vl, raw);
      CompleteReceipted(env, c.t, c.plan, req, c.l, raw);
    }
    AfterCommandStaysInside(exact, env, t, l, sc, s, done, RequestMetric(req));
  }

  lemma SlotStepStaysInside(exact: bool, env: Env, t: TickState, l: Local, s: Sys, e: Event)
    requires Base(env, t, l) && Safe(env, s) && InsideSlot(exact, env, t, l, ScriptOf(env, t, l), s)
    requires e.Advance? && s.proc.Slot? && !s.proc.pc.Cleared? && Benign(exact, env, t.tick, s, e)
    ensures InsideSlot(exact, env, t, l, ScriptOf(env, t, l), AtSlot(env, s, e.polls))
  {
    var sc := ScriptOf(env, t, l);
    ScriptIsWf(env, t, l);
    match s.proc.pc
    case Head =>
      HeadMoveMatches(exact, env, t, l, s, e);
      DoMoveStaysInside(exact, env, t, l, sc, s, MoveAtHead(env, s.proc.t, s.proc.local, s.disk.files, e.polls));
    case Planned => PlannedStaysInside(exact, env, t, l, s);
    case Called(_, _) => CalledStaysInside(exact, env, t, l, sc, s);
    case Filed(_, _) => FiledStaysInside(exact, env, t, l, s);
    case _ => BookingStaysInside(exact, env, t, l, sc, s);
  }

  /** Closing a slot reaches the next slot of the uninterrupted tick. */
  lemma ClosingReaches(exact: bool, env: Env, t: TickState, l: Local, sc: Option<Script>, s: Sys,
                       u: TickState, m: Local, scNext: Option<Script>)
    requires Safe(env, s) && InsideSlot(exact, env, t, l, sc, s) && s.proc.Slot? && s.proc.pc.Cleared?
    requires sc.Some? && t.plan.None? && PlanAtSlot(sc.value.t) && sc.value.t == t.(plan := Some(sc.value.plan))
    requires (u, m) == EndOf(CountAction(sc.value.t, sc.value.plan.action), sc.value.l, sc.value.plan, sc.value.attempt)
    ensures InsideSlot(exact, env, u, m, scNext, AtCleared(env, s))
  {
  }

  lemma ClosingReachesNextSlot(exact: bool, env: Env, t: TickState, l: Local, s: Sys)
    requires Base(env, t, l) && Safe(env, s) && InsideSlot(exact, env, t, l, ScriptOf(env, t, l), s)
    requires s.proc.Slot? && s.proc.pc.Cleared?
    ensures NextSlot(env)(t, l).Some?
    ensures var (u, m) := NextSlot(env)(t, l).value;
            forall scNext :: InsideSlot(exact, env, u, m, scNext, AtCleared(env, s))
  {
    ScriptIsWf(env, t, l);
    var (u, m) := DirectSlot(env, t, l);
    forall scNext {
      ClosingReaches(exact, env, t, l, ScriptOf(env, t, l), s, u, m, scNext);
    }
  }

  // ---------------------------------------------------------------- whole runs of a tick

  ghost predicate LeftTick(s: Sys, tick: nat) {
    match s.disk.snapshot
    case None => s.proc.Finished?
    case Some(BetweenTicks(n, _)) => n > tick
    case Some(InTick(t, _)) => t.tick > tick
  }

  /** The interrupted run is at some slot of the uninterrupted tick, or past the tick. */
  ghost predicate Refines(exact: bool, env: Env, t0: TickState, l0: Local, s: Sys)
    requires Sound(env) && Between(env, t0.slots, t0, l0)
  {
    LeftTick(s, t0.tick) ||
    (&& s.disk.snapshot.Some? && s.disk.snapshot.value.InTick?
     && var k := s.disk.snapshot.value.t.nextSlot;
     var (t, l) := Direct(env, t0, l0, k);
     DirectKeeps(env, t0, l0, k);
     t0.nextSlot <= k && InsideSlot(exact, env, t, l, ScriptOf(env, t, l), s))
  }

  lemma LeavingIsFinal(env: Env, s: Sys, e: Event, tick: nat)
    requires Sound(env) && Safe(env, s) && LeftTick(s, tick)
    ensures LeftTick(Step(env, e, s), tick)
  {
    if e.Advance? && s.proc.Slot? {
      match s.proc.pc
      case Head => MoveIsGood(env, s.proc.t, s.proc.local, s.disk.files, e.polls);
      case _ =>
    }
  }

  lemma WorkRefines(exact: bool, env: Env, t0: TickState, l0: Local, s: Sys, e: Event)
    requires Sound(env) && Between(env, t0.slots, t0, l0)
    requires Safe(env, s) && Refines(exact, env, t0, l0, s) && !LeftTick(s, t0.tick)
    requires e.Advance? && s.proc.Slot? && !s.proc.pc.Cleared? && Benign(exact, env, t0.tick, s, e)
    ensures Refines(exact, env, t0, l0, AtSlot(env, s, e.polls))
  {
    var k := s.disk.snapshot.value.t.nextSlot;
    var (t, l) := Direct(env, t0, l0, k);
    DirectKeeps(env, t0, l0, k);
    SlotStepStaysInside(exact, env, t, l, s, e);
    SlotKeepsPosition(env, s, e);
  }

  lemma ClosingRefines(exact: bool, env: Env, t0: TickState, l0: Local, s: Sys)
    requires Sound(env) && Between(env, t0.slots, t0, l0)
    requires Safe(env, s) && Refines(exact, env, t0, l0, s) && !LeftTick(s, t0.tick)
    requires s.proc.Slot? && s.proc.pc.Cleared?
    ensures Refines(exact, env, t0, l0, AtCleared(env, s))
  {
    var k := s.disk.snapshot.value.t.nextSlot;
    var (t, l) := Direct(env, t0, l0, k);
    DirectKeeps(env, t0, l0, k);
    DirectKeeps(env, t0, l0, k + 1);
    ClosingReachesNextSlot(exact, env, t, l, s);
    NextDirect(env, t0, l0, k, t, l);
  }

  lemma NextDirect(env: Env, t0: TickState, l0: Local, k: nat, t: TickState, l: Local)
    requires Sound(env) && WfTick(env, t) && Open(env, t, l) && t0.nextSlot <= k == t.nextSlot
    requires Direct(env, t0, l0, k) == (t, l)
    ensures Direct(env, t0, l0, k + 1) == DirectSlot(env, t, l)
  {
    assert NextSlot(env)(t, l) == Some(DirectSlot(env, t, l));
  }

  /** Steps outside the slots keep the snapshot of a tick they do not leave. */
  lemma OtherStepKeepsSnapshot(env: Env, s: Sys, e: Event, tick: nat)
    requires Sound(env) && Safe(env, s) && !(e.Advance? && s.proc.Slot?)
    requires s.disk.snapshot.Some? && s.disk.snapshot.value.InTick? && s.disk.snapshot.value.t.tick == tick
    ensures var s' := Step(env, e, s);
            LeftTick(s', tick)
            || (s'.disk == s.disk
                && (s'.proc.Slot? ==> (s'.proc.pc.Head? || s'.proc == s.proc)))
  {
  }

  lemma StepRefines(exact: bool, env: Env, t0: TickState, l0: Local, s: Sys, e: Event)
    requires Sound(env) && Between(env, t0.slots, t0, l0) && Safe(env, s) && Refines(exact, env, t0, l0, s)
    requires Benign(exact, env, t0.tick, s, e)
    ensures Refines(exact, env, t0, l0, Step(env, e, s))
  {
    if LeftTick(s, t0.tick) {
      LeavingIsFinal(env, s, e, t0.tick);
    } else if e.Advance? && s.proc.Slot? {
      if s.proc.pc.Cleared? {
        ClosingRefines(exact, env, t0, l0, s);
      } else {
        WorkRefines(exact, env, t0, l0, s, e);
      }
    } else {
      DirectKeeps(env, t0, l0, s.disk.snapshot.value.t.nextSlot);
      OtherStepKeepsSnapshot(env, s, e, t0.tick);
    }
  }

  lemma SlotKeepsPosition(env: Env, s: Sys, e: Event)
    requires Sound(env) && Safe(env, s) && e.Advance? && s.proc.Slot? && !s.proc.pc.Cleared?
    ensures var s' := AtSlot(env, s, e.polls);
            && s'.disk.snapshot.Some? && s'.disk.snapshot.value.InTick?
            && s'.disk.snapshot.value.t.nextSlot == s.disk.snapshot.value.t.nextSlot
  {
    if s.proc.pc.Head? {
      MoveIsGood(env, s.proc.t, s.proc.local, s.disk.files, e.polls);
    }
  }

  lemma {:induction false} HistoryRefines(exact: bool, env: Env, t0: TickState, l0: Local, s: Sys, history: seq<Event>)
    requires Sound(env) && Between(env, t0.slots, t0, l0) && Safe(env, s) && Refines(exact, env, t0, l0, s)
    requires BenignHistory(exact, env, t0.tick, s, history)
    ensures Refines(exact, env, t0, l0, Exec(env, s, history))
    decreases |history|
  {
    if history != [] {
      StepIsSafe(env, history[0], s);
      StepRefines(exact, env, t0, l0, s, history[0]);
      HistoryRefines(exact, env, t0, l0, Step(env, history[0], s), history[1..]);
    }
  }

  /** Crash refinement. Take any reachable process at the top of a slot with nothing planned, and any
      history of steps, crashes and restarts from there that the outside does not spoil. Whatever the
      disk then says about this tick between two slots is what the uninterrupted tick says at that
      slot: same results, failures, trace, counts, expectations, available agents and ownership, and
      the same metrics as well if no recorded receipt was ever replayed. */
  lemma CrashRefinement(exact: bool, env: Env, s0: Sys, history: seq<Event>)
    requires Sound(env) && Safe(env, s0) && s0.proc.Slot? && s0.proc.pc.Head? && s0.proc.t.plan.None?
    requires s0.proc.t.nextSlot <= s0.proc.t.slots
    requires BenignHistory(exact, env, s0.proc.t.tick, s0, history)
    ensures var Slot(_, t0, l0) := s0.proc;
            var s := Exec(env, s0, history);
            LeftTick(s, t0.tick) ||
            (&& s.disk.snapshot.Some? && s.disk.snapshot.value.InTick?
             && var InTick(d, dl) := s.disk.snapshot.value;
             && d.tick == t0.tick
             && (d.plan.None? ==>
                   && d == Direct(env, t0, l0, d.nextSlot).0
                   && Same(exact, dl, Direct(env, t0, l0, d.nextSlot).1)))
  {
    var Slot(_, t0, l0) := s0.proc;
    StartsInside(exact, env, s0);
    HistoryRefines(exact, env, t0, l0, s0, history);
    var s := Exec(env, s0, history);
    if !LeftTick(s, t0.tick) {
      DirectKeeps(env, t0, l0, s.disk.snapshot.value.t.nextSlot);
    }
  }

  lemma StartsInside(exact: bool, env: Env, s0: Sys)
    requires Sound(env) && Safe(env, s0) && s0.proc.Slot? && s0.proc.pc.Head? && s0.proc.t.plan.None?
    requires s0.proc.t.nextSlot <= s0.proc.t.slots
    ensures Between(env, s0.proc.t.slots, s0.proc.t, s0.proc.local)
    ensures Refines(exact, env, s0.proc.t, s0.proc.local, s0)
  {
    var Slot(_, t0, l0) := s0.proc;
    assert Direct(env, t0, l0, t0.nextSlot) == (t0, l0);
    assert InsideSlot(exact, env, t0, l0, ScriptOf(env, t0, l0), s0);
  }

  /** In particular the state in which the resumed process leaves the slot loop, and starts to mine,
      is the state in which the uninterrupted one leaves it. */
  lemma ResumedTickEndsAlike(exact: bool, env: Env, s0: Sys, history: seq<Event>)
    requires Sound(env) && Safe(env, s0) && s0.proc.Slot? && s0.proc.pc.Head? && s0.proc.t.plan.None?
    requires s0.proc.t.nextSlot <= s0.proc.t.slots
    requires BenignHistory(exact, env, s0.proc.t.tick, s0, history)
    requires Exec(env, s0, history).proc.Drained? && Exec(env, s0, history).proc.t.tick == s0.proc.t.tick
    ensures var Slot(_, t0, l0) := s0.proc;
            var Drained(t, l) := Exec(env, s0, history).proc;
            t == Direct(env, t0, l0, t0.slots).0 && Same(exact, l, Direct(env, t0, l0, t0.slots).1)
  {
    var Slot(_, t0, l0) := s0.proc;
    var s := Exec(env, s0, history);
    HistoryIsSafe(env, s0, history);
    StartsInside(exact, env, s0);
    HistoryRefines(exact, env, t0, l0, s0, history);
    DrainedIsTickEnd(exact, env, t0, l0, s);
  }

  lemma DrainedIsTickEnd(exact: bool, env: Env, t0: TickState, l0: Local, s: Sys)
    requires Sound(env) && Between(env, t0.slots, t0, l0) && Safe(env, s) && Refines(exact, env, t0, l0, s)
    requires s.proc.Drained? && s.proc.t.tick == t0.tick
    ensures var Drained(t, l) := s.proc;
            t == Direct(env, t0, l0, t0.slots).0 && Same(exact, l, Direct(env, t0, l0, t0.slots).1)
  {
    var Drained(t, l) := s.proc;
    DirectKeeps(env, t0, l0, t.nextSlot);
    var (u, m) := Direct(env, t0, l0, t.nextSlot);
    NoPlanAtTickEnd(exact, env, u, m, s);
    assert NextSlot(env)(u, m).None?;
    IterateSettles(NextSlot(env), t0, l0, t.nextSlot, t0.slots);
  }

  lemma NoPlanAtTickEnd(exact: bool, env: Env, t: TickState, l: Local, s: Sys)
    requires Base(env, t, l) && InsideSlot(exact, env, t, l, ScriptOf(env, t, l), s)
    requires AtTickEnd(s.disk.snapshot.value.t)
    ensures s.disk.snapshot.value.t == t && Same(exact, s.disk.snapshot.value.local, l) && !Open(env, t, l)
  {
    ScriptIsWf(env, t, l);
  }
}
