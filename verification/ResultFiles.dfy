/** What leaves a trace outside the process: over whole histories a result file belongs to the slot the
    snapshot holds open and tells what its command printed, and an action counts as performed only if
    its command took effect. */
module ResultFiles {
  import opened Wrappers
  import opened OutputText
  import opened World
  import opened Actions
  import opened Probe
  import opened SlotProtocol
  import opened SlotSafety

  /** The action whose slot the snapshot holds open. */
  function OpenAction(snapshot: Option<Snapshot>): Option<ActionId> {
    if snapshot.Some? && snapshot.value.InTick? && snapshot.value.t.plan.Some?
    then Some(snapshot.value.t.plan.value.id) else None
  }

  /** The command of an action took effect. */
  predicate TakesEffect(reply: Reply) {
    reply.Printed? || reply.performed
  }

  /** What was kept of a command's output is what it printed, and it took effect. */
  ghost predicate Kept(env: Env, performed: seq<ActionId>, id: ActionId, text: string) {
    env.reply(id).Printed? && text == Strip(env.reply(id).stdout) && id in performed
  }

  ghost predicate Tidy(env: Env, s: Sys) {
    && (forall id | id in s.disk.files ::
          OpenAction(s.disk.snapshot) == Some(id) && Kept(env, s.world.performed, id, s.disk.files[id]))
    && (OpenAction(s.disk.snapshot).Some? ==> !AtTickEnd(s.disk.snapshot.value.t))
    && (s.proc.Slot? && !s.proc.pc.Head? && !s.proc.pc.Cleared? ==> !AtTickEnd(s.proc.t))
    && (forall id | id in s.world.performed :: TakesEffect(env.reply(id)))
    && (s.proc.Slot? ==>
          match s.proc.pc
          case Called(_, raw) => s.proc.t.plan.Some? && Kept(env, s.world.performed, s.proc.t.plan.value.id, raw)
          case Cleared => s.disk.files == map[]
          case _ => true)
  }

  /** A slot is given up only without a result file. */
  lemma MoveIsTidy(env: Env, t: TickState, l: Local, files: map<ActionId, string>, polls: seq<Poll>)
    requires Sound(env) && WfTick(env, t) && WfLocal(env, l)
    ensures var m := MoveAtHead(env, t, l, files, polls);
            && (m.GiveUp? ==> t.plan.Some? && t.plan.value.id !in files)
            && (m.Execute? ==> !AtTickEnd(t))
  {
  }

  lemma DoMoveIsTidy(env: Env, s: Sys, m: HeadMove)
    requires Safe(env, s) && Tidy(env, s) && s.proc.Slot? && s.proc.pc.Head? && GoodMove(s.proc.t, s.proc.local, m)
    requires m.GiveUp? ==> s.proc.t.plan.value.id !in s.disk.files
    requires m.Execute? ==> !AtTickEnd(s.proc.t)
    ensures Tidy(env, DoMove(s, m))
  {
    if m.GiveUp? {
      assert OpenAction(s.disk.snapshot) == Some(s.proc.t.plan.value.id);
    }
  }

  lemma RecordIsTidy(env: Env, s: Sys, t: TickState, after: Local, o: Outcome, built: Result<Receipt, string>)
    requires Tidy(env, s) && s.proc.Slot? && t.plan.Some?
    requires OpenAction(s.disk.snapshot) == Some(t.plan.value.id) && !AtTickEnd(t)
    ensures Tidy(env, Record(s, t, after, o, built))
  {
  }

  lemma IssuedIsTidy(env: Env, s: Sys, plan: Plan, request: Request)
    requires Tidy(env, s) && s.proc.Slot? && s.proc.pc.Planned? && s.proc.t.plan == Some(plan)
    ensures Tidy(env, AfterDecision(s, plan, Issue(request), env.reply(plan.id)))
  {
    assert forall id | id in s.world.performed :: id in s.world.performed + [plan.id];
  }

  lemma PlannedIsTidy(env: Env, s: Sys)
    requires Sound(env) && Safe(env, s) && Tidy(env, s) && s.proc.Slot? && s.proc.pc.Planned?
    ensures Tidy(env, AtPlanned(env, s))
  {
    var Slot(_, t, l) := s.proc;
    var plan := t.plan.value;
    match Decide(env, t, plan, l)
    case Issue(request) => IssuedIsTidy(env, s, plan, request);
    case SkipAction(_, _) =>
      var (after, o) := CompleteSkip(plan, Decide(env, t, plan, l), l);
      RecordIsTidy(env, s, CountAction(t, plan.action), after, o, BuildReceipt(plan, o, l.metrics, after.metrics));
  }

  lemma FiledIsTidy(env: Env, s: Sys)
    requires Sound(env) && Safe(env, s) && Tidy(env, s) && s.proc.Slot? && s.proc.pc.Filed?
    ensures Tidy(env, AtFiled(env, s))
  {
    var Slot(Filed(request, raw), t, l) := s.proc;
    var plan := t.plan.value;
    var done := Complete(env, t, plan, request, l, raw);
    if done.Success? {
      var (after, o) := done.value;
      RecordIsTidy(env, s, t, after, o, BuildReceipt(plan, o, l.metrics, after.metrics));
    }
  }

  lemma BookingIsTidy(env: Env, s: Sys)
    requires Sound(env) && Safe(env, s) && Tidy(env, s) && s.proc.Slot?
    ensures s.proc.pc.Called? ==> Tidy(env, AtCalled(env, s))
    ensures s.proc.pc.Committing? ==> Tidy(env, AtCommitting(env, s))
    ensures s.proc.pc.Failing? ==> Tidy(env, AtFailing(env, s))
    ensures s.proc.pc.Cleared? ==> Tidy(env, AtCleared(env, s))
  {
  }

  lemma StepIsTidy(env: Env, e: Event, s: Sys)
    requires Sound(env) && Safe(env, s) && Tidy(env, s)
    ensures Tidy(env, Step(env, e, s))
  {
    if e.Advance? && s.proc.Slot? {
      match s.proc.pc
      case Head =>
        var Slot(_, t, l) := s.proc;
        MoveIsGood(env, t, l, s.disk.files, e.polls);
        MoveIsTidy(env, t, l, s.disk.files, e.polls);
        DoMoveIsTidy(env, s, MoveAtHead(env, t, l, s.disk.files, e.polls));
      case Planned => PlannedIsTidy(env, s);
      case Filed(_, _) => FiledIsTidy(env, s);
      case _ => BookingIsTidy(env, s);
    }
  }

  lemma {:induction false} HistoryIsTidy(env: Env, s: Sys, history: seq<Event>)
    requires Sound(env) && Safe(env, s) && Tidy(env, s)
    ensures Tidy(env, Exec(env, s, history))
    decreases |history|
  {
    if history != [] {
      StepIsTidy(env, history[0], s);
      StepIsSafe(env, history[0], s);
      HistoryIsTidy(env, Step(env, history[0], s), history[1..]);
    }
  }

  /** Over every history there is at most one result file, that of the slot the snapshot holds open. It
      holds exactly what the command printed, which was performed. */
  lemma FilesTellOpenSlot(env: Env, history: seq<Event>, id: ActionId)
    requires Sound(env)
    ensures var s := Exec(env, Start(env), history);
            id in s.disk.files ==>
              && s.disk.snapshot.Some? && s.disk.snapshot.value.InTick? && s.disk.snapshot.value.t.plan.Some?
              && id == s.disk.snapshot.value.t.plan.value.id && id in s.world.performed
              && env.reply(id).Printed? && s.disk.files[id] == Strip(env.reply(id).stdout)
  {
    HistoryIsTidy(env, Start(env), history);
  }

  /** Over every history what was performed is what commands that took effect were issued for: a command
      that failed before its effect leaves nothing. */
  lemma PerformedTookEffect(env: Env, history: seq<Event>, id: ActionId)
    requires Sound(env)
    ensures id in Exec(env, Start(env), history).world.performed ==> env.reply(id).Printed? || env.reply(id).performed
  {
    HistoryIsTidy(env, Start(env), history);
  }

  /** And an issued command that takes effect is performed, once more than before, whether it then
      reports success or not. */
  lemma IssuedCommandActs(env: Env, s: Sys)
    requires Sound(env) && Wf(env, s) && s.proc.Slot? && s.proc.pc.Planned?
    ensures var plan := s.proc.t.plan.value;
            AtPlanned(env, s).world.performed ==
              if Decide(env, s.proc.t, plan, s.proc.local).Issue? && TakesEffect(env.reply(plan.id))
              then s.world.performed + [plan.id] else s.world.performed
  {
  }
}
