/** What holds over every history of slot steps, crashes and restarts. */
module SlotSafety {
  import opened Wrappers
  import opened World
  import opened Actions
  import opened Probe
  import opened SlotProtocol

  // ---------------------------------------------------------------- at most once

  predicate SamePlace(a: ActionId, b: ActionId) {
    a.tick == b.tick && a.slot == b.slot
  }

  /** No two performed actions share a (tick, slot). */
  ghost predicate OncePerSlot(performed: seq<ActionId>) {
    forall i, j | 0 <= i < j < |performed| :: !SamePlace(performed[i], performed[j])
  }

  predicate Before(id: ActionId, t: TickState) {
    id.tick < t.tick || (id.tick == t.tick && id.slot < t.nextSlot)
  }

  /** Everything performed lies before the persisted position, except possibly the one action whose
      plan is persisted. */
  ghost predicate Covered(performed: seq<ActionId>, t: TickState) {
    forall i | 0 <= i < |performed| :: Before(performed[i], t) || (t.plan.Some? && performed[i] == t.plan.value.id)
  }

  ghost predicate AllBefore(performed: seq<ActionId>, t: TickState) {
    forall i | 0 <= i < |performed| :: Before(performed[i], t)
  }

  ghost predicate PlanAtSlot(t: TickState) {
    t.plan.Some? ==> t.plan.value.slot == t.nextSlot
                     && t.plan.value.id.tick == t.tick && t.plan.value.id.slot == t.nextSlot
  }

  ghost predicate DiskSafe(s: Sys) {
    match s.disk.snapshot
    case None => s.proc.Finished? || (s.world.performed == [] && s.disk.files == map[])
    case Some(BetweenTicks(n, _)) =>
      && n > 0 && (forall i | 0 <= i < |s.world.performed| :: s.world.performed[i].tick < n)
      && (forall id | id in s.disk.files :: id.tick < n)
    case Some(InTick(t, _)) =>
      && PlanAtSlot(t) && Covered(s.world.performed, t)
      && (forall id | id in s.disk.files :: Before(id, t) || (t.plan.Some? && id == t.plan.value.id))
  }

  /** How a live process's memory relates to the disk. */
  ghost predicate Linked(s: Sys) {
    match s.proc
    case Down | Finished(_) => true
    case Top(tick, l) => s.disk.snapshot == (if tick == 0 then s.disk.snapshot else Some(BetweenTicks(tick + 1, l)))
                         && (tick == 0 ==> s.disk.snapshot.None? || s.disk.snapshot == Some(BetweenTicks(1, l)))
    case Slot(pc, t, l) =>
      && s.disk.snapshot.Some? && s.disk.snapshot.value.InTick?
      && var d := s.disk.snapshot.value.t;
      && d.tick == t.tick && d.nextSlot == t.nextSlot
      && (pc.Head? ==> s.disk.snapshot.value == InTick(t, l))
      && (pc.Planned? ==> d == t && AllBefore(s.world.performed, t))
      && (!pc.Cleared? ==> d.plan == t.plan)
      && (pc.Cleared? ==> d.plan.Some? && t.plan.None? && t.receipt.None?)
    case Drained(t, l) => s.disk.snapshot == Some(InTick(t, l)) && AtTickEnd(t)
    case Mined(t, l) => s.disk.snapshot == Some(InTick(t, l)) && AtTickEnd(t)
  }

  ghost predicate AtTickEnd(t: TickState) {
    t.nextSlot >= t.slots || t.available == {}
  }

  ghost predicate Safe(env: Env, s: Sys) {
    && Wf(env, s)
    && OncePerSlot(s.world.performed)
    && DiskSafe(s)
    && Linked(s)
  }

  /** What a move from the top of the loop may change: a new plan for this very slot, the receipt and
      counters of the persisted plan, or the books. */
  ghost predicate GoodMove(t: TickState, l: Local, m: HeadMove) {
    match m
    case Leave => AtTickEnd(t)
    case Die => true
    case Execute(t', _) =>
      && t.plan.None? && t'.plan.Some? && t' == t.(plan := t'.plan)
      && t'.plan.value.actor in t.available && PlanAtSlot(t')
    case Resume(t', applied) =>
      && t.plan.Some? && t'.receipt.Some? && t' == t.(counts := t'.counts, receipt := t'.receipt)
      && (t.plan.value.actor in t.available && (t.receipt.Some? ==> t.receipt.value.used <= t.available) ==>
            t'.receipt.value.used <= t.available)
      && (applied.Success? ==> applied.value.1.used == t'.receipt.value.used)
    case GiveUp(t', l') =>
      && t.plan.Some? && t.plan.value.actor < |l.agents|
      && (t', l') == BookFailure(t, l, t.plan.value, UNRESOLVED)
  }

  lemma RecoverIsGood(env: Env, t: TickState, l: Local, text: string)
    requires Sound(env) && WfTick(env, t) && WfLocal(env, l) && t.plan.Some?
    ensures GoodMove(t, l, Recover(env, t, l, t.plan.value, text))
  {
    RebuiltInRange(env, t, t.plan.value, l, text);
  }

  lemma MoveIsGood(env: Env, t: TickState, l: Local, files: map<ActionId, string>, polls: seq<Poll>)
    requires Sound(env) && WfTick(env, t) && WfLocal(env, l)
    ensures GoodMove(t, l, MoveAtHead(env, t, l, files, polls))
  {
    if t.plan.Some? {
      var plan := t.plan.value;
      if plan.id in files {
        RecoverIsGood(env, t, l, files[plan.id]);
      }
      if WaitFor(plan, polls, None).Resolved? {
        RecoverIsGood(env, t, l, WaitFor(plan, polls, None).text);
      }
    }
  }

  lemma DoMoveIsSafe(env: Env, s: Sys, m: HeadMove)
    requires Safe(env, s) && s.proc.Slot? && s.proc.pc.Head? && GoodMove(s.proc.t, s.proc.local, m)
    requires Wf(env, DoMove(s, m))
    ensures Safe(env, DoMove(s, m))
  {
  }

  lemma HeadIsSafe(env: Env, s: Sys, polls: seq<Poll>)
    requires Sound(env) && Safe(env, s) && s.proc.Slot? && s.proc.pc.Head?
    ensures Safe(env, AtHead(env, s, polls))
  {
    SlotKeepsWf(env, s, polls);
    MoveIsGood(env, s.proc.t, s.proc.local, s.disk.files, polls);
    DoMoveIsSafe(env, s, MoveAtHead(env, s.proc.t, s.proc.local, s.disk.files, polls));
  }

  lemma AfterDecisionIsSafe(env: Env, s: Sys, plan: Plan, decision: Decision, reply: Reply)
    requires Safe(env, s) && s.proc.Slot? && s.proc.pc.Planned? && s.proc.t.plan == Some(plan)
    requires Wf(env, AfterDecision(s, plan, decision, reply))
    ensures Safe(env, AfterDecision(s, plan, decision, reply))
  {
  }

  lemma PlannedIsSafe(env: Env, s: Sys)
    requires Sound(env) && Safe(env, s) && s.proc.Slot? && s.proc.pc.Planned?
    ensures Safe(env, AtPlanned(env, s))
  {
    PlannedKeepsWf(env, s);
    var plan := s.proc.t.plan.value;
    AfterDecisionIsSafe(env, s, plan, Decide(env, s.proc.t, plan, s.proc.local), env.reply(plan.id));
  }

  lemma AfterCommandIsSafe(env: Env, s: Sys, plan: Plan, done: Result<(Local, Outcome), string>)
    requires Safe(env, s) && s.proc.Slot? && s.proc.pc.Filed? && s.proc.t.plan == Some(plan)
    requires Wf(env, AfterCommand(s, plan, done))
    ensures Safe(env, AfterCommand(s, plan, done))
  {
  }

  lemma FiledIsSafe(env: Env, s: Sys)
    requires Safe(env, s) && s.proc.Slot? && s.proc.pc.Filed?
    ensures Safe(env, AtFiled(env, s))
  {
    FiledKeepsWf(env, s);
    var Slot(Filed(request, raw), t, l) := s.proc;
    AfterCommandIsSafe(env, s, t.plan.value, Complete(env, t, t.plan.value, request, l, raw));
  }

  lemma BookingIsSafe(env: Env, s: Sys)
    requires Safe(env, s) && s.proc.Slot?
    ensures s.proc.pc.Called? ==> Safe(env, AtCalled(env, s))
    ensures s.proc.pc.Committing? ==> Safe(env, AtCommitting(env, s))
    ensures s.proc.pc.Failing? ==> Safe(env, AtFailing(env, s))
    ensures s.proc.pc.Cleared? ==> Safe(env, AtCleared(env, s))
  {
    BookingKeepsWf(env, s);
  }

  lemma SlotIsSafe(env: Env, s: Sys, polls: seq<Poll>)
    requires Sound(env) && Safe(env, s) && s.proc.Slot?
    ensures Safe(env, AtSlot(env, s, polls))
  {
    match s.proc.pc
    case Head => HeadIsSafe(env, s, polls);
    case Planned => PlannedIsSafe(env, s);
    case Filed(_, _) => FiledIsSafe(env, s);
    case _ => BookingIsSafe(env, s);
  }

  lemma StepIsSafe(env: Env, e: Event, s: Sys)
    requires Sound(env) && Safe(env, s)
    ensures Safe(env, Step(env, e, s))
  {
    StepKeepsWf(env, e, s);
    if e.Advance? && s.proc.Slot? {
      SlotIsSafe(env, s, e.polls);
    }
  }

  lemma {:induction false} HistoryIsSafe(env: Env, s: Sys, history: seq<Event>)
    requires Sound(env) && Safe(env, s)
    ensures Safe(env, Exec(env, s, history))
    decreases |history|
  {
    if history != [] {
      StepIsSafe(env, history[0], s);
      HistoryIsSafe(env, Step(env, history[0], s), history[1..]);
    }
  }

  /** Over every interleaving of steps, crashes and restarts, each (tick, slot) performs its
      external action at most once. */
  lemma AtMostOnce(env: Env, history: seq<Event>)
    requires Sound(env)
    ensures OncePerSlot(Exec(env, Start(env), history).world.performed)
  {
    HistoryIsSafe(env, Start(env), history);
  }

  // ---------------------------------------------------------------- one event at a time

  lemma Unroll(env: Env, s: Sys, history: seq<Event>)
    requires Sound(env) && Wf(env, s) && history != []
    ensures Wf(env, Step(env, history[0], s))
    ensures Exec(env, s, history) == Exec(env, Step(env, history[0], s), history[1..])
  {
    StepKeepsWf(env, history[0], s);
  }

  // ---------------------------------------------------------------- slot accounting, exclusivity

  function Successes(trace: seq<TraceEntry>): seq<(ActionId, string)> {
    if trace == [] then []
    else
      var e := trace[|trace| - 1];
      Successes(trace[..|trace| - 1]) + (if e.Committed? then [(e.id, e.detail)] else [])
  }

  function Failures(trace: seq<TraceEntry>): seq<(ActionId, string)> {
    if trace == [] then []
    else
      var e := trace[|trace| - 1];
      Failures(trace[..|trace| - 1]) + (if e.Abandoned? then [(e.id, e.error)] else [])
  }

  lemma {:induction false} TraceSplits(trace: seq<TraceEntry>)
    ensures |Successes(trace)| + |Failures(trace)| == |trace|
  {
    if trace != [] {
      TraceSplits(trace[..|trace| - 1]);
    }
  }

  /** Agents that a finished slot used up. */
  function Spent(e: TraceEntry): set<nat> {
    if e.Committed? then e.used else {e.actor}
  }

  /** Books of a tick after `done` finished slots: one trace entry per slot, results and failures
      listing exactly the trace, and no agent in two slots or still available after one. */
  ghost predicate Books(t: TickState, done: nat) {
    && |t.trace| == done
    && t.results == Successes(t.trace)
    && t.failSamples == Failures(t.trace)
    && t.failed == |t.failSamples|
    && (forall k | 0 <= k < done :: t.trace[k].id.tick == t.tick && t.trace[k].id.slot == k == t.trace[k].slot)
    && (forall k | 0 <= k < done :: Spent(t.trace[k]) !! t.available)
    && (forall j, k | 0 <= j < k < done :: Spent(t.trace[j]) !! Spent(t.trace[k]))
    && (t.plan.Some? ==> t.plan.value.actor in t.available)
    && (t.receipt.Some? ==> t.receipt.value.used <= t.available)
  }

  ghost predicate Booked(s: Sys) {
    && (s.disk.snapshot.Some? && s.disk.snapshot.value.InTick? ==>
          Books(s.disk.snapshot.value.t, s.disk.snapshot.value.t.nextSlot))
    && (s.proc.Slot? ==>
          var Slot(pc, t, _) := s.proc;
          && Books(t, if pc.Cleared? then t.nextSlot + 1 else t.nextSlot)
          && (pc.Committing? ==> pc.outcome.used <= t.available)
          && ((pc.Called? || pc.Filed?) && pc.request.SendPass? ==> pc.request.target in t.available))
  }

  lemma BookExtends(t: TickState, l: Local, plan: Plan, o: Outcome)
    requires plan.actor < |l.agents| && Books(t, t.nextSlot) && PlanAtSlot(t) && t.plan == Some(plan)
    requires o.used <= t.available
    ensures Books(Book(t, l, plan, o).0, t.nextSlot + 1)
  {
    var t' := Book(t, l, plan, o).0;
    assert t'.trace[..|t.trace|] == t.trace;
  }

  lemma BookFailureExtends(t: TickState, l: Local, plan: Plan, error: string)
    requires plan.actor < |l.agents| && Books(t, t.nextSlot) && PlanAtSlot(t) && t.plan == Some(plan)
    ensures Books(BookFailure(t, l, plan, error).0, t.nextSlot + 1)
  {
    var t' := BookFailure(t, l, plan, error).0;
    assert t'.trace[..|t.trace|] == t.trace;
  }

  lemma DoMoveKeepsBooks(env: Env, s: Sys, m: HeadMove)
    requires Safe(env, s) && Booked(s) && s.proc.Slot? && s.proc.pc.Head? && GoodMove(s.proc.t, s.proc.local, m)
    ensures Booked(DoMove(s, m))
  {
    var Slot(_, t, l) := s.proc;
    if m.GiveUp? {
      BookFailureExtends(t, l, t.plan.value, UNRESOLVED);
    }
  }

  lemma RecordKeepsBooks(s: Sys, t: TickState, after: Local, o: Outcome, built: Result<Receipt, string>)
    requires Books(t, t.nextSlot) && t.plan.Some? && o.used <= t.available
    requires built.Success? ==> built.value.used == o.used
    requires s.disk.snapshot.Some? && s.disk.snapshot.value.InTick?
    requires Books(s.disk.snapshot.value.t, s.disk.snapshot.value.t.nextSlot)
    ensures Booked(Record(s, t, after, o, built))
  {
  }

  lemma AfterDecisionKeepsBooks(env: Env, s: Sys, plan: Plan, decision: Decision, reply: Reply)
    requires Safe(env, s) && Booked(s) && s.proc.Slot? && s.proc.pc.Planned? && s.proc.t.plan == Some(plan)
    requires decision.Issue? && decision.request.SendPass? ==> decision.request.target in s.proc.t.available
    ensures Booked(AfterDecision(s, plan, decision, reply))
  {
    var Slot(_, t0, l) := s.proc;
    var t := CountAction(t0, plan.action);
    if decision.SkipAction? {
      var (after, o) := CompleteSkip(plan, decision, l);
      RecordKeepsBooks(s, t, after, o, BuildReceipt(plan, o, l.metrics, after.metrics));
    }
  }

  lemma AfterCommandKeepsBooks(env: Env, s: Sys, plan: Plan, done: Result<(Local, Outcome), string>)
    requires Safe(env, s) && Booked(s) && s.proc.Slot? && s.proc.pc.Filed? && s.proc.t.plan == Some(plan)
    requires done.Success? ==> done.value.1.used <= s.proc.t.available
    ensures Booked(AfterCommand(s, plan, done))
  {
    var Slot(_, t, l) := s.proc;
    if done.Success? {
      var (after, o) := done.value;
      RecordKeepsBooks(s, t, after, o, BuildReceipt(plan, o, l.metrics, after.metrics));
    }
  }

  lemma HeadKeepsBooks(env: Env, s: Sys, polls: seq<Poll>)
    requires Sound(env) && Safe(env, s) && Booked(s) && s.proc.Slot? && s.proc.pc.Head?
    ensures Booked(AtHead(env, s, polls))
  {
    MoveIsGood(env, s.proc.t, s.proc.local, s.disk.files, polls);
    DoMoveKeepsBooks(env, s, MoveAtHead(env, s.proc.t, s.proc.local, s.disk.files, polls));
  }

  lemma PlannedKeepsBooks(env: Env, s: Sys)
    requires Sound(env) && Safe(env, s) && Booked(s) && s.proc.Slot? && s.proc.pc.Planned?
    ensures Booked(AtPlanned(env, s))
  {
    var plan := s.proc.t.plan.value;
    AfterDecisionKeepsBooks(env, s, plan, Decide(env, s.proc.t, plan, s.proc.local), env.reply(plan.id));
  }

  lemma FiledKeepsBooks(env: Env, s: Sys)
    requires Safe(env, s) && Booked(s) && s.proc.Slot? && s.proc.pc.Filed?
    ensures Booked(AtFiled(env, s))
  {
    var Slot(Filed(request, raw), t, l) := s.proc;
    AfterCommandKeepsBooks(env, s, t.plan.value, Complete(env, t, t.plan.value, request, l, raw));
  }

  lemma BookingKeepsBooks(env: Env, s: Sys)
    requires Safe(env, s) && Booked(s) && s.proc.Slot?
    ensures s.proc.pc.Called? ==> Booked(AtCalled(env, s))
    ensures s.proc.pc.Committing? ==> Booked(AtCommitting(env, s))
    ensures s.proc.pc.Failing? ==> Booked(AtFailing(env, s))
    ensures s.proc.pc.Cleared? ==> Booked(AtCleared(env, s))
  {
    var Slot(pc, t, l) := s.proc;
    if pc.Committing? {
      BookExtends(t, l, t.plan.value, pc.outcome);
    } else if pc.Failing? {
      BookFailureExtends(t, l, t.plan.value, pc.error);
    }
  }

  lemma SlotKeepsBooks(env: Env, s: Sys, polls: seq<Poll>)
    requires Sound(env) && Safe(env, s) && Booked(s) && s.proc.Slot?
    ensures Booked(AtSlot(env, s, polls))
  {
    match s.proc.pc
    case Head => HeadKeepsBooks(env, s, polls);
    case Planned => PlannedKeepsBooks(env, s);
    case Filed(_, _) => FiledKeepsBooks(env, s);
    case _ => BookingKeepsBooks(env, s);
  }

  lemma StepKeepsBooks(env: Env, e: Event, s: Sys)
    requires Sound(env) && Safe(env, s) && Booked(s)
    ensures Booked(Step(env, e, s))
  {
    if e.Advance? && s.proc.Slot? {
      SlotKeepsBooks(env, s, e.polls);
    }
  }

  lemma {:induction false} HistoryKeepsBooks(env: Env, s: Sys, history: seq<Event>)
    requires Sound(env) && Safe(env, s) && Booked(s)
    ensures Booked(Exec(env, s, history))
    decreases |history|
  {
    if history != [] {
      StepIsSafe(env, history[0], s);
      StepKeepsBooks(env, history[0], s);
      HistoryKeepsBooks(env, Step(env, history[0], s), history[1..]);
    }
  }

  /** Over every history, every in-tick snapshot on disk accounts for each finished slot exactly
      once and no agent takes part in two slots of one tick. */
  lemma DurableBooksBalance(env: Env, history: seq<Event>)
    requires Sound(env)
    ensures var snapshot := Exec(env, Start(env), history).disk.snapshot;
            snapshot.Some? && snapshot.value.InTick? ==>
              var t := snapshot.value.t;
              && |t.results| + t.failed == |t.trace| == t.nextSlot
              && t.results == Successes(t.trace) && t.failSamples == Failures(t.trace)
              && (forall k | 0 <= k < |t.trace| :: Spent(t.trace[k]) !! t.available)
              && (forall j, k | 0 <= j < k < |t.trace| :: Spent(t.trace[j]) !! Spent(t.trace[k]))
  {
    HistoryKeepsBooks(env, Start(env), history);
    var snapshot := Exec(env, Start(env), history).disk.snapshot;
    if snapshot.Some? && snapshot.value.InTick? {
      TraceSplits(snapshot.value.t.trace);
    }
  }
}
