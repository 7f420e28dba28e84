/** The slot loop of `run` as a transition system. A process is a program counter with loop
    variables and local state; the disk holds one recovery snapshot and the external result files;
    the world remembers which external actions were performed. Every step does at most one write,
    external command or mining call, so a crash between steps is a crash between any two of them. */
module SlotProtocol {
  import opened Wrappers
  import opened OutputText
  import opened World
  import opened ScriptedCycle
  import opened Actions
  import opened Probe

  datatype SlotPc =
    | Head                                    // top of the slot loop; disk and memory agree
    | Planned                                 // plan persisted, nothing executed
    | Called(request: Request, raw: string)   // external command returned
    | Filed(request: Request, raw: string)    // result file written
    | Committing(outcome: Outcome)            // effect applied, bookkeeping pending
    | Failing(error: string)                  // exception inside the slot
    | Cleared                                 // bookkeeping done, result file removed, snapshot pending

  datatype Proc =
    | Down
    | Top(tick: nat, local: Local)
    | Slot(pc: SlotPc, t: TickState, local: Local)
    | Drained(t: TickState, local: Local)
    | Mined(t: TickState, local: Local)
    | Finished(lastTick: nat)

  datatype Disk = Disk(snapshot: Option<Snapshot>, files: map<ActionId, string>)

  datatype Outside = Outside(performed: seq<ActionId>, minedTicks: seq<nat>)

  datatype Sys = Sys(proc: Proc, disk: Disk, world: Outside)

  /** `Advance` supplies what this step may ask of the outside: wallet polls, the block height at
      tick start, and the local state after the post-mining phase (none if that phase raised). */
  datatype Event =
    | Crash
    | Restart
    | Advance(polls: seq<Poll>, height: nat, after: Option<Local>)

  // ---------------------------------------------------------------- well-formedness

  ghost predicate WfTick(env: Env, t: TickState) {
    && (forall a | a in t.available :: a < env.agentCount)
    && (t.plan.Some? ==> t.plan.value.actor < env.agentCount)
    && (t.receipt.Some? ==> t.plan.Some?)
    && (t.receipt.Some? && t.receipt.value.patch.Some? ==>
          PatchInRange(t.receipt.value.patch.value, env.agentCount))
  }

  ghost predicate WfSnapshot(env: Env, s: Snapshot) {
    && WfLocal(env, s.local)
    && (s.InTick? ==> WfTick(env, s.t))
  }

  ghost predicate WfProc(env: Env, p: Proc) {
    match p
    case Down | Finished(_) => true
    case Top(_, l) => WfLocal(env, l)
    case Drained(t, l) => WfTick(env, t) && WfLocal(env, l)
    case Mined(t, l) => WfTick(env, t) && WfLocal(env, l)
    case Slot(pc, t, l) =>
      && WfTick(env, t) && WfLocal(env, l)
      && (!pc.Head? && !pc.Cleared? ==> t.plan.Some?)
      && (pc.Called? || pc.Filed? ==> RequestInRange(env, pc.request))
  }

  ghost predicate Wf(env: Env, s: Sys) {
    WfProc(env, s.proc) && (s.disk.snapshot.Some? ==> WfSnapshot(env, s.disk.snapshot.value))
  }

  // ---------------------------------------------------------------- pieces of one slot

  function PlanFor(env: Env, t: TickState, l: Local): (r: (TickState, Local))
    requires Sound(env) && WfLocal(env, l) && WfTick(env, t) && t.available != {}
    ensures WfLocal(env, r.1) && WfTick(env, r.0.(receipt := None))
    ensures r.0.plan.Some? && r.0.plan.value.slot == t.nextSlot && r.0.plan.value.actor in t.available
    ensures r.0.plan.value.id.tick == t.tick && r.0.plan.value.id.slot == t.nextSlot
    ensures r.0 == t.(plan := r.0.plan)
  {
    var actor := env.drawActor(t.tick, t.nextSlot, t.preHeight, t.available);
    var agent := l.agents[actor];
    var (action, index) :=
      match env.policy
      case Scripted(cycle) =>
        var c := Choose(cycle, agent.scriptedIndex,
                        a => actor < |l.agents| && Viable(env, l, actor, a, t.available, t.preHeight));
        (c.action, c.nextIndex)
      case Adaptive =>
        (env.drawAction(t.tick, t.nextSlot, actor, agent, t.available, t.preHeight), agent.scriptedIndex);
    var id := ActionId(t.tick, t.nextSlot, env.digest(t.tick, t.nextSlot, actor, action));
    (t.(plan := Some(Plan(t.nextSlot, actor, action, id, BaselineFor(env, id, actor, action)))),
     SetAgent(l, actor, agent.(scriptedIndex := index)))
  }

  function CountAction(t: TickState, a: Action): TickState {
    t.(counts := t.counts[a := CountOf(t.counts, a) + 1])
  }

  function FailMetric(a: Action): Option<Metric> {
    match a
    case Mint => Some(MintFail)
    case InvalidMint => Some(InvalidMintFail)
    case Transfer => Some(TransferFail)
    case Remint => Some(RemintFail)
    case SendBalance => Some(SendFail)
    case SpendBalance => Some(SpendFail)
    case Noop => None
  }

  /** Bookkeeping of a slot whose effect has been applied. */
  function Book(t: TickState, l: Local, plan: Plan, o: Outcome): (TickState, Local)
    requires plan.actor < |l.agents|
  {
    var agent := l.agents[plan.actor];
    (t.(results := t.results + [(plan.id, o.detail)],
        expectations := if o.expectation.Some? && o.expectation.value.action != Noop
                        then t.expectations + [o.expectation.value.(id := Some(plan.id))] else t.expectations,
        trace := t.trace + [Committed(plan.id, plan.slot, plan.actor, plan.action, o.detail, o.used)],
        available := t.available - o.used,
        plan := None, receipt := None),
     SetAgent(l, plan.actor, agent.(lastAction := Did(plan.action),
                                    cooldown := if agent.cooldown == 0 then 0 else agent.cooldown - 1)))
  }

  /** Bookkeeping of a slot that raised or was given up. */
  function BookFailure(t: TickState, l: Local, plan: Plan, error: string): (TickState, Local)
    requires plan.actor < |l.agents|
  {
    var m := FailMetric(plan.action);
    var l1 := if m.Some? then l.(metrics := Bump(l.metrics, m.value, 1)) else l;
    (t.(failed := t.failed + 1,
        failSamples := t.failSamples + [(plan.id, error)],
        trace := t.trace + [Abandoned(plan.id, plan.slot, plan.actor, plan.action, error)],
        available := t.available - {plan.actor},
        plan := None, receipt := None),
     SetAgent(l1, plan.actor, l1.agents[plan.actor].(lastAction := FailedAction, cooldown := 1)))
  }

  const UNRESOLVED := "unresolved_inflight_slot_after_probe_window"

  lemma RebuiltInRange(env: Env, t: TickState, plan: Plan, l: Local, text: string)
    requires Sound(env) && WfLocal(env, l) && WfTick(env, t) && plan.actor < env.agentCount
    ensures var r := RebuildReceipt(env, t, plan, l, text);
            r.Success? ==>
              && r.value.id == plan.id && r.value.action == plan.action && r.value.actor == plan.actor
              && (plan.actor in t.available ==> r.value.used <= t.available)
              && (r.value.patch.Some? ==> PatchInRange(r.value.patch.value, env.agentCount))
  {
  }

  // ---------------------------------------------------------------- steps

  /** What the top of the loop decides to do with its slot. */
  datatype HeadMove =
    | Leave                                                                   // no slot or no agent left
    | Execute(t: TickState, l: Local)                                         // new plan to persist
    | Resume(t: TickState, applied: Result<(Local, Outcome), string>)         // receipt replayed
    | GiveUp(t: TickState, l: Local)                                          // nothing ever seen of it
    | Die                                                                     // exception outside the slot

  /** Replays a receipt recovered from text; if none can be rebuilt the exception escapes the slot
      loop and the process ends. */
  function Recover(env: Env, t: TickState, l: Local, plan: Plan, text: string): HeadMove
    requires Sound(env) && WfLocal(env, l) && WfTick(env, t) && plan.actor < env.agentCount
  {
    RebuiltInRange(env, t, plan, l, text);
    match RebuildReceipt(env, t, plan, l, text)
    case Failure(_) => Die
    case Success(r) => Resume(CountAction(t, plan.action).(receipt := Some(r)), ApplyReceipt(plan, r, l))
  }

  ghost function MoveAtHead(env: Env, t: TickState, l: Local, files: map<ActionId, string>, polls: seq<Poll>): HeadMove
    requires Sound(env) && WfTick(env, t) && WfLocal(env, l)
  {
    if t.nextSlot >= t.slots || t.available == {} then Leave
    else if t.plan.None? then
      var (t', l') := PlanFor(env, t, l);
      Execute(t', l')
    else
      var plan := t.plan.value;
      if plan.slot != t.nextSlot then Die
      else if t.receipt.Some? then Resume(t, ApplyReceipt(plan, t.receipt.value, l))
      else if plan.id in files then Recover(env, t, l, plan, files[plan.id])
      else
        match WaitFor(plan, polls, None)
        case Resolved(text) => Recover(env, t, l, plan, text)
        case GaveUp(_) => Die
        case NothingSeen =>
          var (t', l') := BookFailure(t, l, plan, UNRESOLVED);
          GiveUp(t', l')
  }

  ghost function DoMove(s: Sys, m: HeadMove): Sys
    requires s.proc.Slot?
  {
    match m
    case Leave => s.(proc := Drained(s.proc.t, s.proc.local))
    case Execute(t, l) =>
      s.(proc := Slot(Planned, t, l), disk := s.disk.(snapshot := Some(InTick(t, l))))
    case Resume(t, Success((after, o))) => s.(proc := Slot(Committing(o), t, after))
    case Resume(t, Failure(e)) => s.(proc := Slot(Failing(e), t, s.proc.local))
    case GiveUp(t, l) => s.(proc := Slot(Cleared, t, l))
    case Die => s.(proc := Down)
  }

  ghost function AtHead(env: Env, s: Sys, polls: seq<Poll>): Sys
    requires Sound(env) && Wf(env, s) && s.proc.Slot?
  {
    DoMove(s, MoveAtHead(env, s.proc.t, s.proc.local, s.disk.files, polls))
  }

  /** A direct execution persists its receipt together with the state it produced. */
  ghost function Record(s: Sys, t: TickState, after: Local, o: Outcome, built: Result<Receipt, string>): Sys {
    match built
    case Failure(e) => s.(proc := Slot(Failing(e), t, after))
    case Success(r) =>
      var t' := t.(receipt := Some(r));
      s.(proc := Slot(Committing(o), t', after), disk := s.disk.(snapshot := Some(InTick(t', after))))
  }

  ghost function AfterDecision(s: Sys, plan: Plan, decision: Decision, reply: Reply): Sys
    requires s.proc.Slot?
  {
    var Slot(_, t0, l) := s.proc;
    var t := CountAction(t0, plan.action);
    match decision
    case SkipAction(_, _) =>
      var (after, o) := CompleteSkip(plan, decision, l);
      Record(s, t, after, o, BuildReceipt(plan, o, l.metrics, after.metrics))
    case Issue(request) =>
      match reply
      case Printed(stdout) =>
        s.(proc := Slot(Called(request, Strip(stdout)), t, l),
           world := s.world.(performed := s.world.performed + [plan.id]))
      case Refused(performed, e) =>
        s.(proc := Slot(Failing(e), t, l),
           world := if performed then s.world.(performed := s.world.performed + [plan.id]) else s.world)
  }

  ghost function AtPlanned(env: Env, s: Sys): Sys
    requires Sound(env) && Wf(env, s) && s.proc.Slot? && s.proc.pc.Planned?
  {
    var plan := s.proc.t.plan.value;
    AfterDecision(s, plan, Decide(env, s.proc.t, plan, s.proc.local), env.reply(plan.id))
  }

  ghost function AfterCommand(s: Sys, plan: Plan, done: Result<(Local, Outcome), string>): Sys
    requires s.proc.Slot?
  {
    var Slot(_, t, l) := s.proc;
    match done
    case Failure(e) => s.(proc := Slot(Failing(e), t, l))
    case Success((after, o)) => Record(s, t, after, o, BuildReceipt(plan, o, l.metrics, after.metrics))
  }

  ghost function AtFiled(env: Env, s: Sys): Sys
    requires Wf(env, s) && s.proc.Slot? && s.proc.pc.Filed?
  {
    var Slot(Filed(request, raw), t, l) := s.proc;
    var plan := t.plan.value;
    AfterCommand(s, plan, Complete(env, t, plan, request, l, raw))
  }

  ghost function AtCalled(env: Env, s: Sys): Sys
    requires Wf(env, s) && s.proc.Slot? && s.proc.pc.Called?
  {
    var Slot(Called(request, raw), t, l) := s.proc;
    s.(proc := Slot(Filed(request, raw), t, l), disk := s.disk.(files := s.disk.files[t.plan.value.id := raw]))
  }

  ghost function AtCommitting(env: Env, s: Sys): Sys
    requires Wf(env, s) && s.proc.Slot? && s.proc.pc.Committing?
  {
    var Slot(Committing(o), t, l) := s.proc;
    var (t', l') := Book(t, l, t.plan.value, o);
    s.(proc := Slot(Cleared, t', l'), disk := s.disk.(files := s.disk.files - {t.plan.value.id}))
  }

  ghost function AtFailing(env: Env, s: Sys): Sys
    requires Wf(env, s) && s.proc.Slot? && s.proc.pc.Failing?
  {
    var Slot(Failing(e), t, l) := s.proc;
    var (t', l') := BookFailure(t, l, t.plan.value, e);
    s.(proc := Slot(Cleared, t', l'), disk := s.disk.(files := s.disk.files - {t.plan.value.id}))
  }

  ghost function AtCleared(env: Env, s: Sys): Sys
    requires Wf(env, s) && s.proc.Slot? && s.proc.pc.Cleared?
  {
    var Slot(_, t0, l) := s.proc;
    var t := t0.(nextSlot := t0.nextSlot + 1);
    s.(proc := Slot(Head, t, l), disk := s.disk.(snapshot := Some(InTick(t, l))))
  }

  ghost function AtSlot(env: Env, s: Sys, polls: seq<Poll>): Sys
    requires Sound(env) && Wf(env, s) && s.proc.Slot?
  {
    match s.proc.pc
    case Head => AtHead(env, s, polls)
    case Planned => AtPlanned(env, s)
    case Called(_, _) => AtCalled(env, s)
    case Filed(_, _) => AtFiled(env, s)
    case Committing(_) => AtCommitting(env, s)
    case Failing(_) => AtFailing(env, s)
    case Cleared => AtCleared(env, s)
  }

  function IdsBelow(n: nat): (ids: set<nat>)
    ensures forall i: nat :: i in ids <==> i < n
  {
    if n == 0 then {} else IdsBelow(n - 1) + {n - 1}
  }

  const NO_COUNTS: map<Action, nat> :=
    map[Mint := 0, InvalidMint := 0, Transfer := 0, Remint := 0, SendBalance := 0, SpendBalance := 0, Noop := 0]

  ghost function TickStart(env: Env, tick: nat, l: Local, height: nat): (TickState, Local)
    requires Sound(env) && WfLocal(env, l)
  {
    var l' := l.(activeCount := env.grow(tick, l.activeCount));
    var ids := IdsBelow(l'.activeCount);
    (TickState(tick, 0, env.drawSlots(tick, height, |ids|), height, ids, [], [],
       NO_COUNTS, None, None, [], 0, []), l')
  }

  ghost function AtTop(env: Env, s: Sys, height: nat): Sys
    requires Sound(env) && Wf(env, s) && s.proc.Top?
  {
    if env.blocks > 0 && s.proc.tick >= env.blocks then
      s.(proc := Finished(s.proc.tick), disk := s.disk.(snapshot := None))
    else
      var (t, l) := TickStart(env, s.proc.tick + 1, s.proc.local, height);
      s.(proc := Slot(Head, t, l), disk := s.disk.(snapshot := Some(InTick(t, l))))
  }

  ghost function Load(env: Env, d: Disk): Proc {
    match d.snapshot
    case None => Top(0, env.initial)
    case Some(BetweenTicks(n, l)) => Top(if n == 0 then 0 else n - 1, l)
    case Some(InTick(t, l)) =>
      if t.plan.Some? && t.plan.value.slot != t.nextSlot then Down else Slot(Head, t, l)
  }

  ghost function Step(env: Env, e: Event, s: Sys): Sys
    requires Sound(env) && Wf(env, s)
  {
    match e
    case Crash => if s.proc.Finished? then s else s.(proc := Down)
    case Restart => if s.proc.Down? then s.(proc := Load(env, s.disk)) else s
    case Advance(polls, height, after) =>
      match s.proc
      case Down | Finished(_) => s
      case Top(_, _) => AtTop(env, s, height)
      case Slot(_, _, _) => AtSlot(env, s, polls)
      case Drained(t, l) => s.(proc := Mined(t, l), world := s.world.(minedTicks := s.world.minedTicks + [t.tick]))
      case Mined(t, _) =>
        if after.None? || !WfLocal(env, after.value) then s.(proc := Down)
        else
          s.(proc := Top(t.tick, after.value),
             disk := s.disk.(snapshot := Some(BetweenTicks(t.tick + 1, after.value))))
  }

  ghost predicate WfApplied(env: Env, a: Result<(Local, Outcome), string>) {
    a.Success? ==> WfLocal(env, a.value.0)
  }

  lemma ReplayKeepsWf(env: Env, plan: Plan, r: Receipt, l: Local)
    requires WfLocal(env, l) && (r.patch.Some? ==> PatchInRange(r.patch.value, env.agentCount))
    ensures WfApplied(env, ApplyReceipt(plan, r, l))
  {
  }

  ghost predicate WfMove(env: Env, m: HeadMove) {
    match m
    case Leave | Die => true
    case Execute(t, l) => WfTick(env, t) && WfLocal(env, l) && t.plan.Some?
    case Resume(t, applied) => WfTick(env, t) && t.plan.Some? && WfApplied(env, applied)
    case GiveUp(t, l) => WfTick(env, t) && WfLocal(env, l)
  }

  lemma RecoverIsWf(env: Env, t: TickState, l: Local, plan: Plan, text: string)
    requires Sound(env) && WfLocal(env, l) && WfTick(env, t) && t.plan == Some(plan)
    ensures WfMove(env, Recover(env, t, l, plan, text))
  {
    RebuiltInRange(env, t, plan, l, text);
    var r := RebuildReceipt(env, t, plan, l, text);
    if r.Success? {
      ReplayKeepsWf(env, plan, r.value, l);
    }
  }

  lemma MoveIsWf(env: Env, t: TickState, l: Local, files: map<ActionId, string>, polls: seq<Poll>)
    requires Sound(env) && WfTick(env, t) && WfLocal(env, l)
    ensures WfMove(env, MoveAtHead(env, t, l, files, polls))
  {
    if t.plan.Some? {
      var plan := t.plan.value;
      if t.receipt.Some? {
        ReplayKeepsWf(env, plan, t.receipt.value, l);
      } else if plan.id in files {
        RecoverIsWf(env, t, l, plan, files[plan.id]);
      } else if WaitFor(plan, polls, None).Resolved? {
        RecoverIsWf(env, t, l, plan, WaitFor(plan, polls, None).text);
      }
    }
  }

  lemma DoMoveKeepsWf(env: Env, s: Sys, m: HeadMove)
    requires Wf(env, s) && s.proc.Slot? && WfMove(env, m)
    ensures Wf(env, DoMove(s, m))
  {
  }

  lemma ReceiptInRange(env: Env, t: TickState, plan: Plan, req: Request, l: Local, raw: string)
    requires WfLocal(env, l) && plan.actor < env.agentCount && RequestInRange(env, req)
    requires Complete(env, t, plan, req, l, raw).Success?
    ensures var (after, o) := Complete(env, t, plan, req, l, raw).value;
            var r := BuildReceipt(plan, o, l.metrics, after.metrics);
            r.Success? && (r.value.patch.Some? ==> PatchInRange(r.value.patch.value, env.agentCount))
  {
    CompleteReceipted(env, t, plan, req, l, raw);
  }

  lemma AfterDecisionKeepsWf(env: Env, s: Sys, plan: Plan, decision: Decision, reply: Reply)
    requires Wf(env, s) && s.proc.Slot? && s.proc.t.plan == Some(plan)
    requires decision.Issue? ==> RequestInRange(env, decision.request)
    ensures decision.Issue? ==> Wf(env, AfterDecision(s, plan, decision, reply))
    ensures decision.SkipAction? && Meaningful(decision.expectation).None? ==>
              Wf(env, AfterDecision(s, plan, decision, reply))
  {
  }

  lemma PlannedKeepsWf(env: Env, s: Sys)
    requires Sound(env) && Wf(env, s) && s.proc.Slot? && s.proc.pc.Planned?
    ensures Wf(env, AtPlanned(env, s))
  {
    var plan := s.proc.t.plan.value;
    DecisionInRange(env, s.proc.t, plan, s.proc.local);
    AfterDecisionKeepsWf(env, s, plan, Decide(env, s.proc.t, plan, s.proc.local), env.reply(plan.id));
  }

  lemma AfterCommandKeepsWf(env: Env, s: Sys, plan: Plan, done: Result<(Local, Outcome), string>)
    requires Wf(env, s) && s.proc.Slot? && s.proc.t.plan == Some(plan) && WfApplied(env, done)
    requires done.Success? ==>
               var r := BuildReceipt(plan, done.value.1, s.proc.local.metrics, done.value.0.metrics);
               r.Success? && (r.value.patch.Some? ==> PatchInRange(r.value.patch.value, env.agentCount))
    ensures Wf(env, AfterCommand(s, plan, done))
  {
  }

  lemma FiledKeepsWf(env: Env, s: Sys)
    requires Wf(env, s) && s.proc.Slot? && s.proc.pc.Filed?
    ensures Wf(env, AtFiled(env, s))
  {
    var Slot(Filed(request, raw), t, l) := s.proc;
    var plan := t.plan.value;
    if Complete(env, t, plan, request, l, raw).Success? {
      ReceiptInRange(env, t, plan, request, l, raw);
    }
    AfterCommandKeepsWf(env, s, plan, Complete(env, t, plan, request, l, raw));
  }

  lemma BookingKeepsWf(env: Env, s: Sys)
    requires Wf(env, s) && s.proc.Slot?
    ensures s.proc.pc.Committing? ==> Wf(env, AtCommitting(env, s))
    ensures s.proc.pc.Failing? ==> Wf(env, AtFailing(env, s))
    ensures s.proc.pc.Cleared? ==> Wf(env, AtCleared(env, s))
  {
  }

  lemma SlotKeepsWf(env: Env, s: Sys, polls: seq<Poll>)
    requires Sound(env) && Wf(env, s) && s.proc.Slot?
    ensures Wf(env, AtSlot(env, s, polls))
  {
    match s.proc.pc
    case Head =>
      MoveIsWf(env, s.proc.t, s.proc.local, s.disk.files, polls);
      DoMoveKeepsWf(env, s, MoveAtHead(env, s.proc.t, s.proc.local, s.disk.files, polls));
    case Planned => PlannedKeepsWf(env, s);
    case Called(_, _) =>
    case Filed(_, _) => FiledKeepsWf(env, s);
    case _ => BookingKeepsWf(env, s);
  }

  lemma StepKeepsWf(env: Env, e: Event, s: Sys)
    requires Sound(env) && Wf(env, s)
    ensures Wf(env, Step(env, e, s))
  {
    if e.Advance? && s.proc.Slot? {
      SlotKeepsWf(env, s, e.polls);
    }
  }

  /** State after a whole history of steps, crashes and restarts. */
  ghost function Exec(env: Env, s: Sys, history: seq<Event>): (r: Sys)
    requires Sound(env) && Wf(env, s)
    ensures Wf(env, r)
    decreases |history|
  {
    if history == [] then s
    else
      StepKeepsWf(env, history[0], s);
      Exec(env, Step(env, history[0], s), history[1..])
  }

  ghost function Start(env: Env): Sys {
    Sys(Down, Disk(None, map[]), Outside([], []))
  }
}
