/** Over whole runs, interrupted or not, the owned sets partition the pass ownership index, as long as
    mints are fresh and what the chain reports agrees with the local view. */
module Partition {
  import opened Wrappers
  import opened OutputText
  import opened World
  import opened Actions
  import opened Probe
  import opened SlotProtocol
  import opened SlotSafety
  import opened Ownership

  ghost predicate Partitioned(l: Local) {
    Indexed(l) && Disjoint(l)
  }

  /** The index already says what the patch says. */
  predicate PatchDone(p: Patch, l: Local) {
    match p
    case MintLike(pass, owner, _) => pass in l.ownerOf && l.ownerOf[pass] == owner
    case Move(pass, _, target) => pass in l.ownerOf && l.ownerOf[pass] == target
  }

  predicate ReceiptDone(t: TickState, l: Local) {
    t.receipt.Some? && t.receipt.value.patch.Some? ==> PatchDone(t.receipt.value.patch.value, l)
  }

  /** A transfer under way sends a pass that its actor owns. */
  predicate PassHeld(pc: SlotPc, t: TickState, l: Local) {
    (pc.Called? || pc.Filed?) && pc.request.SendPass? && t.plan.Some? && t.plan.value.actor < |l.agents| ==>
      pc.request.pass in l.agents[t.plan.value.actor].owned
  }

  ghost predicate PartitionEverywhere(s: Sys) {
    && (s.disk.snapshot.Some? ==>
          && Partitioned(s.disk.snapshot.value.local)
          && (s.disk.snapshot.value.InTick? ==> ReceiptDone(s.disk.snapshot.value.t, s.disk.snapshot.value.local)))
    && (match s.proc
        case Down | Finished(_) => true
        case Top(_, l) => Partitioned(l)
        case Slot(pc, t, l) => Partitioned(l) && PassHeld(pc, t, l)
        case Drained(_, l) => Partitioned(l)
        case Mined(_, l) => Partitioned(l))
  }

  // ---------------------------------------------------------------- hypotheses, step by step

  /** The id named by printed text is not indexed to another agent. */
  predicate FreshId(l: Local, actor: nat, raw: string) {
    match ExtractInscriptionId(raw)
    case None => true
    case Some(pass) => pass in l.ownerOf ==> l.ownerOf[pass] == actor
  }

  /** The text from which the top of the loop is about to rebuild a receipt. */
  ghost function RecoveredText(t: TickState, files: map<ActionId, string>, polls: seq<Poll>): Option<string> {
    if t.plan.None? || t.receipt.Some? then None
    else if t.plan.value.id in files then Some(files[t.plan.value.id])
    else
      match WaitFor(t.plan.value, polls, None)
      case Resolved(text) => Some(text)
      case _ => None
  }

  /** A step that learns a minted id, from the command or by recovery, learns a fresh one. */
  ghost predicate FreshMint(s: Sys, e: Event) {
    e.Advance? && s.proc.Slot? && s.proc.t.plan.Some? ==>
      var Slot(pc, t, l) := s.proc;
      var plan := t.plan.value;
      match pc
      case Head =>
        var text := RecoveredText(t, s.disk.files, e.polls);
        MintLikeAction(plan.action) && text.Some? ==> FreshId(l, plan.actor, Strip(text.value))
      case Filed(req, raw) => req.Inscribe? ==> FreshId(l, plan.actor, raw)
      case _ => true
  }

  /** Refreshing agrees with the local view; a rebuild lists each pass once. */
  ghost predicate ViewAgrees(l: Local, v: ViewStep) {
    match v
    case Tally(_) => true
    case RefreshAgent(i, active) => active.Some? && active.value in l.ownerOf ==> l.ownerOf[active.value] == i
    case RebuildView(rows) => DistinctPasses(rows)
  }

  ghost predicate AllAgree(l: Local, vs: seq<ViewStep>)
    requires ViewInRange(vs, |l.agents|)
    decreases |vs|
  {
    vs == [] ||
    (&& ViewAgrees(l, vs[0])
     && (assert ViewStepInRange(vs[0], |l.agents|);
         assert forall k | 0 <= k < |vs[1..]| :: vs[1..][k] == vs[k + 1];
         TakeView(l, vs[0]).Success? ==> AllAgree(TakeView(l, vs[0]).value, vs[1..])))
  }

  ghost predicate AgreeingView(l: Local, after: Local) {
    exists vs: seq<ViewStep> ::
      ViewInRange(vs, |l.agents|) && TakeViews(l, vs) == Success(after) && AllAgree(l, vs)
  }

  ghost predicate GoodEvent(s: Sys, e: Event) {
    && FreshMint(s, e)
    && (e.Advance? && s.proc.Mined? && e.after.Some? ==> AgreeingView(s.proc.local, e.after.value))
  }

  ghost predicate GoodHistory(env: Env, s: Sys, history: seq<Event>)
    requires Sound(env) && Wf(env, s)
    decreases |history|
  {
    history == [] ||
    (&& GoodEvent(s, history[0])
     && (StepKeepsWf(env, history[0], s);
         GoodHistory(env, Step(env, history[0], s), history[1..])))
  }

  // ---------------------------------------------------------------- one update

  lemma SameOwnersKeepPartition(l: Local, m: Local)
    requires Partitioned(l) && m.ownerOf == l.ownerOf && |m.agents| == |l.agents|
    requires forall i | 0 <= i < |l.agents| :: m.agents[i].owned == l.agents[i].owned
    ensures Partitioned(m)
  {
  }

  /** What a patch may assume for the partition to survive it. */
  predicate PatchFits(p: Patch, l: Local) {
    match p
    case MintLike(pass, owner, _) => pass in l.ownerOf ==> l.ownerOf[pass] == owner
    case Move(pass, source, target) => pass in l.ownerOf ==> l.ownerOf[pass] == source || l.ownerOf[pass] == target
  }

  /** A patch keeps the partition exactly when it fits, and is done afterwards. */
  lemma PatchKeepsPartitionIff(l: Local, p: Patch)
    requires Partitioned(l) && PatchInRange(p, |l.agents|)
    ensures Partitioned(ApplyPatch(l, p)) <==> PatchFits(p, l)
    ensures PatchDone(p, ApplyPatch(l, p))
  {
    match p
    case MintLike(pass, owner, invalid) => MintKeepsIndex(l, pass, owner, invalid);
    case Move(pass, source, target) => MoveKeepsIndex(l, pass, source, target);
  }

  lemma ReceiptKeepsPartitionIff(plan: Plan, r: Receipt, l: Local)
    requires Partitioned(l) && (r.patch.Some? ==> PatchInRange(r.patch.value, |l.agents|))
    requires ApplyReceipt(plan, r, l).Success?
    ensures Partitioned(ApplyReceipt(plan, r, l).value.0) <==> (r.patch.Some? ==> PatchFits(r.patch.value, l))
  {
    var l1 := l.(metrics := AddDeltas(l.metrics, r.deltas));
    SameOwnersKeepPartition(l, l1);
    if r.patch.Some? {
      PatchKeepsPartitionIff(l1, r.patch.value);
    }
  }

  /** A receipt rebuilt from a result file or from a wallet keeps the partition exactly when the id it
      recovers for a mint is fresh; transfers and payments always keep it. */
  lemma RecoveryKeepsPartitionIff(env: Env, t: TickState, plan: Plan, l: Local, text: string)
    requires Sound(env) && WfTick(env, t) && WfLocal(env, l) && plan.actor < env.agentCount && Partitioned(l)
    requires RebuildReceipt(env, t, plan, l, text).Success?
    ensures var r := RebuildReceipt(env, t, plan, l, text).value;
            && (r.patch.Some? ==> PatchInRange(r.patch.value, |l.agents|))
            && ApplyReceipt(plan, r, l).Success?
            && (Partitioned(ApplyReceipt(plan, r, l).value.0) <==>
                  (MintLikeAction(plan.action) ==> FreshId(l, plan.actor, Strip(text))))
  {
    RebuiltInRange(env, t, plan, l, text);
    var r := RebuildReceipt(env, t, plan, l, text).value;
    ReceiptKeepsPartitionIff(plan, r, l);
    RebuiltPatchFitsIff(env, t, plan, l, text);
  }

  lemma RebuiltPatchFitsIff(env: Env, t: TickState, plan: Plan, l: Local, text: string)
    requires Sound(env) && WfTick(env, t) && WfLocal(env, l) && plan.actor < env.agentCount && Partitioned(l)
    requires RebuildReceipt(env, t, plan, l, text).Success?
    ensures var r := RebuildReceipt(env, t, plan, l, text).value;
            (r.patch.Some? ==> PatchFits(r.patch.value, l)) <==>
              (MintLikeAction(plan.action) ==> FreshId(l, plan.actor, Strip(text)))
  {
    if plan.action.Transfer? {
      var pass := env.drawPass(PosOf(t, plan), 0, l.agents[plan.actor].owned);
      assert pass in l.agents[plan.actor].owned;
      assert l.ownerOf[pass] == plan.actor;
    }
  }

  // ---------------------------------------------------------------- one step of a slot

  ghost predicate MovePartitioned(m: HeadMove) {
    match m
    case Execute(t, l) => Partitioned(l) && t.receipt.None?
    case Resume(_, applied) => applied.Success? ==> Partitioned(applied.value.0)
    case GiveUp(_, l) => Partitioned(l)
    case _ => true
  }

  lemma RecoverKeepsPartition(env: Env, t: TickState, l: Local, plan: Plan, text: string)
    requires Sound(env) && WfLocal(env, l) && WfTick(env, t) && plan.actor < env.agentCount && Partitioned(l)
    requires MintLikeAction(plan.action) ==> FreshId(l, plan.actor, Strip(text))
    ensures MovePartitioned(Recover(env, t, l, plan, text))
  {
    RebuiltInRange(env, t, plan, l, text);
    if RebuildReceipt(env, t, plan, l, text).Success? {
      RecoveryKeepsPartitionIff(env, t, plan, l, text);
    }
  }

  /** A receipt that was persisted with its effect is replayed on an index that already holds it. */
  lemma ReplayKeepsPartition(plan: Plan, t: TickState, l: Local)
    requires Partitioned(l) && t.receipt.Some? && ReceiptDone(t, l)
    requires t.receipt.value.patch.Some? ==> PatchInRange(t.receipt.value.patch.value, |l.agents|)
    ensures var r := ApplyReceipt(plan, t.receipt.value, l); r.Success? ==> Partitioned(r.value.0)
  {
    if ApplyReceipt(plan, t.receipt.value, l).Success? {
      ReceiptKeepsPartitionIff(plan, t.receipt.value, l);
    }
  }

  lemma PlanKeepsPartition(env: Env, t: TickState, l: Local)
    requires Sound(env) && WfTick(env, t) && WfLocal(env, l) && t.available != {} && Partitioned(l)
    ensures Partitioned(PlanFor(env, t, l).1)
  {
    SameOwnersKeepPartition(l, PlanFor(env, t, l).1);
  }

  lemma BooksKeepPartition(t: TickState, l: Local, plan: Plan, o: Outcome, e: string)
    requires plan.actor < |l.agents| && Partitioned(l)
    ensures Partitioned(Book(t, l, plan, o).1)
    ensures Partitioned(BookFailure(t, l, plan, e).1)
  {
    SameOwnersKeepPartition(l, Book(t, l, plan, o).1);
    SameOwnersKeepPartition(l, BookFailure(t, l, plan, e).1);
  }

  lemma HeadMoveKeepsPartition(env: Env, t: TickState, l: Local, files: map<ActionId, string>, polls: seq<Poll>)
    requires Sound(env) && WfTick(env, t) && WfLocal(env, l) && Partitioned(l) && ReceiptDone(t, l)
    requires var text := RecoveredText(t, files, polls);
             text.Some? && MintLikeAction(t.plan.value.action) ==> FreshId(l, t.plan.value.actor, Strip(text.value))
    ensures MovePartitioned(MoveAtHead(env, t, l, files, polls))
  {
    if t.nextSlot < t.slots && t.available != {} {
      if t.plan.None? {
        PlanKeepsPartition(env, t, l);
      } else {
        var plan := t.plan.value;
        BooksKeepPartition(t, l, plan, Outcome("", None, {}), UNRESOLVED);
        if t.receipt.Some? {
          ReplayKeepsPartition(plan, t, l);
        } else {
          var text := RecoveredText(t, files, polls);
          if text.Some? {
            RecoverKeepsPartition(env, t, l, plan, text.value);
          }
        }
      }
    }
  }

  lemma DoMoveKeepsPartition(s: Sys, m: HeadMove)
    requires PartitionEverywhere(s) && s.proc.Slot? && MovePartitioned(m)
    ensures PartitionEverywhere(DoMove(s, m))
  {
  }

  lemma HeadKeepsPartition(env: Env, s: Sys, e: Event)
    requires Sound(env) && Safe(env, s) && PartitionEverywhere(s) && s.proc.Slot? && s.proc.pc.Head?
    requires e.Advance? && FreshMint(s, e)
    ensures PartitionEverywhere(AtHead(env, s, e.polls))
  {
    var Slot(_, t, l) := s.proc;
    HeadMoveKeepsPartition(env, t, l, s.disk.files, e.polls);
    DoMoveKeepsPartition(s, MoveAtHead(env, t, l, s.disk.files, e.polls));
  }

  /** Persisting a state together with the receipt of the step that led to it. */
  lemma RecordKeepsPartition(s: Sys, t: TickState, plan: Plan, before: Local, after: Local, o: Outcome)
    requires PartitionEverywhere(s) && Partitioned(after)
    requires var r := BuildReceipt(plan, o, before.metrics, after.metrics);
             r.Success? && r.value.patch.Some? ==> PatchDone(r.value.patch.value, after)
    ensures PartitionEverywhere(Record(s, t, after, o, BuildReceipt(plan, o, before.metrics, after.metrics)))
  {
  }

  lemma SkipKeepsPartition(env: Env, t: TickState, plan: Plan, l: Local)
    requires Sound(env) && WfTick(env, t) && WfLocal(env, l) && plan.actor < env.agentCount && Partitioned(l)
    requires Decide(env, t, plan, l).SkipAction?
    ensures var (after, o) := CompleteSkip(plan, Decide(env, t, plan, l), l);
            var r := BuildReceipt(plan, o, l.metrics, after.metrics);
            Partitioned(after) && (r.Success? ==> r.value.patch.None?)
  {
    SameOwnersKeepPartition(l, CompleteSkip(plan, Decide(env, t, plan, l), l).0);
    SkipReceipted(env, t, plan, l);
  }

  lemma DecisionHoldsPass(env: Env, t: TickState, plan: Plan, l: Local)
    requires Sound(env) && WfTick(env, t) && WfLocal(env, l) && plan.actor < env.agentCount
    ensures var d := Decide(env, t, plan, l);
            d.Issue? && d.request.SendPass? ==> d.request.pass in l.agents[plan.actor].owned
  {
  }

  lemma AfterDecisionKeepsPartition(s: Sys, plan: Plan, d: Decision, reply: Reply)
    requires PartitionEverywhere(s) && s.proc.Slot? && s.proc.t.plan == Some(plan)
    requires plan.actor < |s.proc.local.agents|
    requires d.SkipAction? ==>
               var (after, o) := CompleteSkip(plan, d, s.proc.local);
               var r := BuildReceipt(plan, o, s.proc.local.metrics, after.metrics);
               Partitioned(after) && (r.Success? ==> r.value.patch.None?)
    requires d.Issue? && d.request.SendPass? ==> d.request.pass in s.proc.local.agents[plan.actor].owned
    ensures PartitionEverywhere(AfterDecision(s, plan, d, reply))
  {
  }

  lemma PlannedKeepsPartition(env: Env, s: Sys)
    requires Sound(env) && Safe(env, s) && PartitionEverywhere(s) && s.proc.Slot? && s.proc.pc.Planned?
    ensures PartitionEverywhere(AtPlanned(env, s))
  {
    var Slot(_, t, l) := s.proc;
    var plan := t.plan.value;
    if Decide(env, t, plan, l).SkipAction? {
      SkipKeepsPartition(env, t, plan, l);
    }
    DecisionHoldsPass(env, t, plan, l);
    AfterDecisionKeepsPartition(s, plan, Decide(env, t, plan, l), env.reply(plan.id));
  }

  /** A completed command keeps the partition when it sends a held pass or mints a fresh id. */
  lemma CompleteKeepsPartition(env: Env, t: TickState, plan: Plan, req: Request, l: Local, raw: string)
    requires WfLocal(env, l) && plan.actor < env.agentCount && RequestInRange(env, req) && Partitioned(l)
    requires Complete(env, t, plan, req, l, raw).Success?
    requires req.SendPass? ==> req.pass in l.agents[plan.actor].owned
    requires req.Inscribe? ==> FreshId(l, plan.actor, raw)
    ensures var (after, o) := Complete(env, t, plan, req, l, raw).value;
            var r := BuildReceipt(plan, o, l.metrics, after.metrics);
            Partitioned(after) && (r.Success? && r.value.patch.Some? ==> PatchDone(r.value.patch.value, after))
  {
    var (after, o) := Complete(env, t, plan, req, l, raw).value;
    CompleteReceipted(env, t, plan, req, l, raw);
    CompletePatchFits(env, t, plan, req, l, raw);
    ReceiptedKeepsPartition(plan, l, after, o, RequestMetric(req));
  }

  lemma CompletePatchFits(env: Env, t: TickState, plan: Plan, req: Request, l: Local, raw: string)
    requires WfLocal(env, l) && plan.actor < env.agentCount && RequestInRange(env, req) && Indexed(l) && Disjoint(l)
    requires Complete(env, t, plan, req, l, raw).Success?
    requires req.SendPass? ==> req.pass in l.agents[plan.actor].owned
    requires req.Inscribe? ==> FreshId(l, plan.actor, raw)
    ensures var (after, o) := Complete(env, t, plan, req, l, raw).value;
            var r := BuildReceipt(plan, o, l.metrics, after.metrics);
            r.Success? && r.value.patch.Some? ==> PatchFits(r.value.patch.value, l)
  {
  }

  lemma ReceiptedKeepsPartition(plan: Plan, l: Local, after: Local, o: Outcome, k: Metric)
    requires Receipted(plan, l, after, o, k) && Partitioned(l)
    requires var r := BuildReceipt(plan, o, l.metrics, after.metrics);
             r.value.patch.Some? ==> PatchFits(r.value.patch.value, l)
    ensures var r := BuildReceipt(plan, o, l.metrics, after.metrics);
            Partitioned(after) && (r.value.patch.Some? ==> PatchDone(r.value.patch.value, after))
  {
    var r := BuildReceipt(plan, o, l.metrics, after.metrics).value;
    SameOwnersKeepPartition(l, l.(metrics := after.metrics));
    if r.patch.Some? {
      PatchKeepsPartitionIff(l.(metrics := after.metrics), r.patch.value);
    }
  }

  lemma FiledKeepsPartition(env: Env, s: Sys, e: Event)
    requires Sound(env) && Safe(env, s) && PartitionEverywhere(s) && s.proc.Slot? && s.proc.pc.Filed?
    requires e.Advance? && FreshMint(s, e)
    ensures PartitionEverywhere(AtFiled(env, s))
  {
    var Slot(Filed(request, raw), t, l) := s.proc;
    var plan := t.plan.value;
    var done := Complete(env, t, plan, request, l, raw);
    if done.Success? {
      CompleteKeepsPartition(env, t, plan, request, l, raw);
      RecordKeepsPartition(s, t, plan, l, done.value.0, done.value.1);
    }
  }

  lemma BookingKeepsPartition(env: Env, s: Sys)
    requires Sound(env) && Safe(env, s) && PartitionEverywhere(s) && s.proc.Slot?
    requires s.proc.pc.Called? || s.proc.pc.Committing? || s.proc.pc.Failing? || s.proc.pc.Cleared?
    ensures PartitionEverywhere(AtSlot(env, s, []))
  {
    var Slot(pc, t, l) := s.proc;
    match pc
    case Committing(o) => BooksKeepPartition(t, l, t.plan.value, o, "");
    case Failing(e) => BooksKeepPartition(t, l, t.plan.value, Outcome("", None, {}), e);
    case _ =>
  }

  lemma SlotKeepsPartition(env: Env, s: Sys, e: Event)
    requires Sound(env) && Safe(env, s) && PartitionEverywhere(s) && s.proc.Slot?
    requires e.Advance? && FreshMint(s, e)
    ensures PartitionEverywhere(AtSlot(env, s, e.polls))
  {
    match s.proc.pc
    case Head => HeadKeepsPartition(env, s, e);
    case Planned => PlannedKeepsPartition(env, s);
    case Filed(_, _) => FiledKeepsPartition(env, s, e);
    case _ => BookingKeepsPartition(env, s);
  }

  // ---------------------------------------------------------------- the phase after mining

  lemma ViewKeepsPartition(l: Local, v: ViewStep)
    requires Partitioned(l) && ViewStepInRange(v, |l.agents|) && TakeView(l, v).Success? && ViewAgrees(l, v)
    ensures Partitioned(TakeView(l, v).value)
  {
    match v
    case Tally(m) => SameOwnersKeepPartition(l, l.(metrics := m));
    case RefreshAgent(i, active) => RefreshKeepsIndex(l, i, active);
    case RebuildView(rows) => RebuildRestoresIndex(l, rows);
  }

  lemma {:induction false} ViewAllKeepsPartition(l: Local, vs: seq<ViewStep>)
    requires Partitioned(l) && ViewInRange(vs, |l.agents|) && TakeViews(l, vs).Success? && AllAgree(l, vs)
    ensures Partitioned(TakeViews(l, vs).value)
    decreases |vs|
  {
    if vs != [] {
      assert ViewStepInRange(vs[0], |l.agents|);
      ViewKeepsPartition(l, vs[0]);
      ViewAllKeepsPartition(TakeView(l, vs[0]).value, vs[1..]);
    }
  }

  lemma MinedKeepsPartition(l: Local, after: Local)
    requires Partitioned(l) && AgreeingView(l, after)
    ensures Partitioned(after)
  {
    var vs :| ViewInRange(vs, |l.agents|) && TakeViews(l, vs) == Success(after) && AllAgree(l, vs);
    ViewAllKeepsPartition(l, vs);
  }

  // ---------------------------------------------------------------- whole histories

  lemma StepKeepsPartition(env: Env, s: Sys, e: Event)
    requires Sound(env) && Safe(env, s) && PartitionEverywhere(s) && Partitioned(env.initial) && GoodEvent(s, e)
    ensures PartitionEverywhere(Step(env, e, s))
  {
    if e.Advance? && s.proc.Slot? {
      SlotKeepsPartition(env, s, e);
    } else if e.Advance? && s.proc.Mined? && e.after.Some? {
      MinedKeepsPartition(s.proc.local, e.after.value);
    }
  }

  lemma {:induction false} HistoryKeepsPartition(env: Env, s: Sys, history: seq<Event>)
    requires Sound(env) && Safe(env, s) && PartitionEverywhere(s) && Partitioned(env.initial)
    requires GoodHistory(env, s, history)
    ensures PartitionEverywhere(Exec(env, s, history))
    decreases |history|
  {
    if history != [] {
      StepIsSafe(env, history[0], s);
      StepKeepsPartition(env, s, history[0]);
      HistoryKeepsPartition(env, Step(env, history[0], s), history[1..]);
    }
  }

  /** Over every history of mints, transfers, receipt replays, rebuilt receipts, refreshes, view
      rebuilds, crashes and restarts in which mints are fresh and the chain agrees, the owned sets
      partition the index, in memory and on disk. */
  lemma PartitionOverAllHistories(env: Env, history: seq<Event>)
    requires Sound(env) && Partitioned(env.initial) && GoodHistory(env, Start(env), history)
    ensures PartitionEverywhere(Exec(env, Start(env), history))
  {
    StartIsConsistent(env);
    HistoryKeepsPartition(env, Start(env), history);
  }
}
