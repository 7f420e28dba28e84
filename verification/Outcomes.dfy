/** What an action that is executed or recovered does, in terms of the agents, the balances and the
    counters before it. */
module Outcomes {
  import opened Wrappers
  import opened OutputText
  import opened World
  import opened Actions
  import opened Probe
  import opened ScriptedCycle
  import opened SlotProtocol

  // ---------------------------------------------------------------- what a remint names

  /** An indexed pass, and one that is valid for its owner if any indexed pass is. */
  ghost predicate GoodPrev(l: Local, prev: string) {
    && prev in l.ownerOf
    && ((exists p | p in l.ownerOf :: ValidAtOwner(l, p)) ==> ValidAtOwner(l, prev))
  }

  predicate ValidAtOwner(l: Local, p: string) {
    p in l.ownerOf && l.ownerOf[p] < |l.agents| && p !in l.agents[l.ownerOf[p]].invalid
  }

  lemma CandidatesAreGood(env: Env, l: Local, p: string)
    requires WfLocal(env, l) && p in RemintCandidates(env, l)
    ensures GoodPrev(l, p)
  {
    var valid := set q | q in l.ownerOf && q !in l.agents[l.ownerOf[q]].invalid;
    forall q | q in l.ownerOf && ValidAtOwner(l, q)
      ensures q in valid
    {
    }
  }

  lemma ChosenIsGood(env: Env, l: Local, pos: Pos)
    requires Sound(env) && WfLocal(env, l)
    ensures ChoosePrev(env, l, pos).None? <==> l.ownerOf == map[]
    ensures ChoosePrev(env, l, pos).Some? ==> GoodPrev(l, ChoosePrev(env, l, pos).value)
  {
    if l.ownerOf == map[] {
      assert RemintCandidates(env, l) == {};
    } else {
      var p :| p in l.ownerOf;
      assert RemintCandidates(env, l) != {};
      CandidatesAreGood(env, l, env.drawPass(pos, 0, RemintCandidates(env, l)));
    }
  }

  /** A remint is skipped exactly when no pass is indexed, and otherwise names a good one, when it is
      executed and when its receipt is rebuilt. */
  lemma RemintNamesGoodPass(env: Env, t: TickState, plan: Plan, l: Local, text: string)
    requires Sound(env) && WfLocal(env, l) && plan.actor < env.agentCount && plan.action == Remint
    ensures Decide(env, t, plan, l).SkipAction? <==> l.ownerOf == map[]
    ensures l.ownerOf != map[] ==>
              exists prev :: Decide(env, t, plan, l) == Issue(Inscribe(Some(prev), false)) && GoodPrev(l, prev)
    ensures RebuildReceipt(env, t, plan, l, text).Success? ==>
              && Decide(env, t, plan, l).Issue?
              && RebuildReceipt(env, t, plan, l, text).value.expectation.Some?
              && RebuildReceipt(env, t, plan, l, text).value.expectation.value.prev == Decide(env, t, plan, l).request.prev
  {
    ChosenIsGood(env, l, PosOf(t, plan));
  }

  // ---------------------------------------------------------------- what the other actions choose

  /** A transfer sends a pass of the actor's to another available agent, or is skipped for want of either. */
  lemma TransferChoices(env: Env, t: TickState, plan: Plan, l: Local)
    requires Sound(env) && WfLocal(env, l) && plan.actor < env.agentCount && plan.action == Transfer
    ensures match Decide(env, t, plan, l)
            case SkipAction(detail, e) =>
              && (l.agents[plan.actor].owned == {} || forall a | a in t.available :: a == plan.actor)
              && detail == (if l.agents[plan.actor].owned == {} then "transfer:skip:no_pass" else "transfer:skip:no_target")
              && Meaningful(e).None?
            case Issue(req) =>
              && req.SendPass? && req.pass in l.agents[plan.actor].owned
              && req.target in t.available && req.target != plan.actor
              && req.targetHadActive == env.hasActivePass(req.target, t.preHeight)
  {
    if Decide(env, t, plan, l).SkipAction? && l.agents[plan.actor].owned != {} {
      forall a | a in t.available
        ensures a == plan.actor
      {
        assert a == plan.actor || a in t.available - {plan.actor};
      }
    }
  }

  lemma TransferSkipIff(env: Env, t: TickState, plan: Plan, l: Local)
    requires Sound(env) && WfLocal(env, l) && plan.actor < env.agentCount && plan.action == Transfer
    ensures Decide(env, t, plan, l).Issue? <==>
              l.agents[plan.actor].owned != {} && exists a | a in t.available :: a != plan.actor
  {
    TransferChoices(env, t, plan, l);
  }

  lemma SpendBounds(env: Env, pos: Pos, pre: nat)
    requires Sound(env)
    ensures SpendAmount(env, pos, pre).None? <==> pre < 2
    ensures SpendAmount(env, pos, pre).Some? ==>
              var sat := SpendAmount(env, pos, pre).value;
              1 <= sat <= 5_000_000 && 2 * sat <= pre && (pre >= 200_000 ==> sat >= 100_000)
  {
  }

  /** A payment to an agent is between 0.01 and 0.25; one by an agent is at most half of its balance and
      between 0.001 and 0.05, and is skipped exactly below 0.002. */
  lemma PaymentChoices(env: Env, t: TickState, plan: Plan, l: Local)
    requires Sound(env) && WfLocal(env, l) && plan.actor < env.agentCount
    ensures plan.action == SendBalance ==>
              var d := Decide(env, t, plan, l);
              d.Issue? && d.request.FundAgent? && 1_000_000 <= d.request.sat <= 25_000_000
    ensures plan.action == SpendBalance ==>
              var pre := env.balanceAt(plan.actor, t.preHeight);
              match Decide(env, t, plan, l)
              case SkipAction(detail, e) => pre < 200_000 && detail == "spend_balance:skip:low_balance" && e.None?
              case Issue(req) =>
                && pre >= 200_000 && req.PayMiner? && req.preBalance == pre
                && 100_000 <= req.sat <= 5_000_000 && 2 * req.sat <= pre
  {
    SpendBounds(env, PosOf(t, plan), env.balanceAt(plan.actor, t.preHeight));
  }

  /** The remaining actions never depend on the state: a mint always mints, an idle slot does nothing. */
  lemma MintAndIdleChoices(env: Env, t: TickState, plan: Plan, l: Local)
    requires WfLocal(env, l) && plan.actor < env.agentCount
    ensures plan.action == Mint ==> Decide(env, t, plan, l) == Issue(Inscribe(None, false))
    ensures plan.action == InvalidMint ==> Decide(env, t, plan, l) == Issue(Inscribe(None, true))
    ensures plan.action == Noop ==> Decide(env, t, plan, l) == SkipAction("noop", None)
  {
  }

  lemma GoodAreCandidates(env: Env, l: Local, p: string)
    requires WfLocal(env, l)
    ensures p in RemintCandidates(env, l) <==> GoodPrev(l, p)
  {
    if GoodPrev(l, p) {
      var valid := set q | q in l.ownerOf && q !in l.agents[l.ownerOf[q]].invalid;
      if valid != {} {
        var q :| q in valid;
        assert ValidAtOwner(l, q);
      }
    } else if p in RemintCandidates(env, l) {
      CandidatesAreGood(env, l, p);
      assert false;
    }
  }

  /** Every choice is the draw made at the position of its slot, from exactly the good ones. */
  lemma DrawnAtItsPosition(env: Env, t: TickState, plan: Plan, l: Local)
    requires WfLocal(env, l) && plan.actor < env.agentCount && Decide(env, t, plan, l).Issue?
    ensures var pos := Pos(t.tick, plan.slot, plan.actor, plan.action, t.preHeight);
            match Decide(env, t, plan, l).request
            case Inscribe(prev, _) => prev.Some? ==> IsDrawOf(env, pos, prev.value, p => GoodPrev(l, p))
            case SendPass(pass, target, _) =>
              && IsDrawOf(env, pos, pass, p => p in l.agents[plan.actor].owned)
              && target == env.drawAgent(pos, 1, t.available - {plan.actor})
            case FundAgent(sat) => sat == env.drawInt(pos, 0, 1_000_000, 25_000_000)
            case PayMiner(pre, sat) => sat == env.drawInt(pos, 0, 100_000, if pre < 10_000_000 then pre / 2 else 5_000_000)
  {
    var pos := PosOf(t, plan);
    match Decide(env, t, plan, l).request
    case Inscribe(prev, _) =>
      if prev.Some? {
        forall p
          ensures p in RemintCandidates(env, l) <==> GoodPrev(l, p)
        {
          GoodAreCandidates(env, l, p);
        }
        assert IsDrawFrom(env, pos, prev.value, RemintCandidates(env, l));
      }
    case SendPass(pass, target, _) =>
      assert IsDrawFrom(env, pos, pass, l.agents[plan.actor].owned);
    case FundAgent(_) =>
    case PayMiner(_, _) =>
  }

  ghost predicate IsDrawFrom(env: Env, pos: Pos, pass: string, choices: set<string>) {
    pass == env.drawPass(pos, 0, choices)
  }

  ghost predicate IsDrawOf(env: Env, pos: Pos, pass: string, good: string -> bool) {
    exists choices: set<string> :: IsDrawFrom(env, pos, pass, choices) && forall p :: p in choices <==> good(p)
  }

  // ---------------------------------------------------------------- what a completed command leaves

  /** All that a patch changes: one pass changes hands, and is marked when the mint was invalid. */
  lemma PatchEffect(l: Local, p: Patch)
    requires PatchInRange(p, |l.agents|)
    ensures var r := ApplyPatch(l, p);
            && r.metrics == l.metrics && r.activeCount == l.activeCount && |r.agents| == |l.agents|
            && (forall i | 0 <= i < |l.agents| ::
                  && r.agents[i].activePass == l.agents[i].activePass && r.agents[i].lastAction == l.agents[i].lastAction
                  && r.agents[i].cooldown == l.agents[i].cooldown && r.agents[i].scriptedIndex == l.agents[i].scriptedIndex)
            && (match p
                case MintLike(pass, owner, invalid) =>
                  && (forall q :: q in r.ownerOf <==> q in l.ownerOf || q == pass)
                  && (forall q | q in r.ownerOf :: r.ownerOf[q] == if q == pass then owner else l.ownerOf[q])
                  && (forall i, q | 0 <= i < |l.agents| ::
                        q in r.agents[i].owned <==> q in l.agents[i].owned || (i == owner && q == pass))
                  && (forall i, q | 0 <= i < |l.agents| ::
                        q in r.agents[i].invalid <==> q in l.agents[i].invalid || (invalid && i == owner && q == pass))
                case Move(pass, source, target) =>
                  && (forall q :: q in r.ownerOf <==> q in l.ownerOf || q == pass)
                  && (forall q | q in r.ownerOf :: r.ownerOf[q] == if q == pass then target else l.ownerOf[q])
                  && (forall i, q | 0 <= i < |l.agents| ::
                        q in r.agents[i].owned <==>
                          (i == target && q == pass) || (q in l.agents[i].owned && !(i == source && q == pass)))
                  && (forall i | 0 <= i < |l.agents| :: r.agents[i].invalid == l.agents[i].invalid))
  {
  }

  /** The counter of a success, by action. */
  predicate CountsSuccess(a: Action, k: Metric) {
    || (a == Mint && k == MintOk) || (a == InvalidMint && k == InvalidMintOk) || (a == Remint && k == RemintOk)
    || (a == Transfer && k == TransferOk) || (a == SendBalance && k == SendOk) || (a == SpendBalance && k == SpendOk)
  }

  predicate CountsFailure(a: Action, k: Metric) {
    || (a == Mint && k == MintFail) || (a == InvalidMint && k == InvalidMintFail) || (a == Remint && k == RemintFail)
    || (a == Transfer && k == TransferFail) || (a == SendBalance && k == SendFail) || (a == SpendBalance && k == SpendFail)
  }

  /** A completed command counts one success of its own action, a skipped slot one skip, nothing else. */
  lemma SuccessCounts(env: Env, t: TickState, plan: Plan, l: Local, raw: string, k: Metric)
    requires Sound(env) && WfTick(env, t) && WfLocal(env, l) && plan.actor < env.agentCount
    ensures var d := Decide(env, t, plan, l);
            match d
            case Issue(req) =>
              RequestInRange(env, req) &&
              var r := Complete(env, t, plan, req, l, raw);
              r.Success? ==> Count(r.value.0.metrics, k) == Count(l.metrics, k) + (if CountsSuccess(plan.action, k) then 1 else 0)
            case SkipAction(_, _) =>
              Count(CompleteSkip(plan, d, l).0.metrics, k) == Count(l.metrics, k) + (if k == Skipped then 1 else 0)
  {
    DecisionInRange(env, t, plan, l);
    match Decide(env, t, plan, l)
    case SkipAction(_, _) =>
    case Issue(req) =>
      if Complete(env, t, plan, req, l, raw).Success? {
        CompleteReceipted(env, t, plan, req, l, raw);
        RequestCounts(env, t, plan, l, k);
      }
  }

  lemma RequestCounts(env: Env, t: TickState, plan: Plan, l: Local, k: Metric)
    requires WfLocal(env, l) && plan.actor < env.agentCount && Decide(env, t, plan, l).Issue?
    ensures CountsSuccess(plan.action, k) <==> k == RequestMetric(Decide(env, t, plan, l).request)
  {
  }

  /** A rebuilt receipt counts the same: one success of the action, and no other counter. */
  lemma RebuiltCounts(env: Env, t: TickState, plan: Plan, l: Local, text: string) returns (m: Metric)
    requires WfLocal(env, l) && plan.actor < env.agentCount && RebuildReceipt(env, t, plan, l, text).Success?
    ensures CountsSuccess(plan.action, m) && RebuildReceipt(env, t, plan, l, text).value.deltas == map[m := 1]
  {
    match plan.action
    case Mint => m := MintOk;
    case InvalidMint => m := InvalidMintOk;
    case Remint => m := RemintOk;
    case Transfer => m := TransferOk;
    case SendBalance => m := SendOk;
    case SpendBalance => m := SpendOk;
  }

  /** A failed slot counts one failure of its action, sends the actor into a cooldown of one slot, and
      leaves everything else of the agents and the index alone. */
  lemma FailureEffect(t: TickState, l: Local, plan: Plan, error: string, k: Metric)
    requires plan.actor < |l.agents|
    ensures var (u, m) := BookFailure(t, l, plan, error);
            && Count(m.metrics, k) == Count(l.metrics, k) + (if CountsFailure(plan.action, k) then 1 else 0)
            && m.ownerOf == l.ownerOf && m.activeCount == l.activeCount && |m.agents| == |l.agents|
            && (forall i | 0 <= i < |l.agents| ::
                  m.agents[i] == if i == plan.actor then l.agents[i].(lastAction := FailedAction, cooldown := 1) else l.agents[i])
            && u.failed == t.failed + 1 && u.available == t.available - {plan.actor} && u.expectations == t.expectations
  {
  }

  /** A booked slot uses up its agents, and lets the actor's cooldown run down. */
  lemma BookEffect(t: TickState, l: Local, plan: Plan, o: Outcome)
    requires plan.actor < |l.agents|
    ensures var (u, m) := Book(t, l, plan, o);
            && m.metrics == l.metrics && m.ownerOf == l.ownerOf && m.activeCount == l.activeCount && |m.agents| == |l.agents|
            && (forall i | 0 <= i < |l.agents| && i != plan.actor :: m.agents[i] == l.agents[i])
            && m.agents[plan.actor].lastAction == Did(plan.action)
            && (l.agents[plan.actor].cooldown > 0 ==> m.agents[plan.actor].cooldown + 1 == l.agents[plan.actor].cooldown)
            && (l.agents[plan.actor].cooldown == 0 ==> m.agents[plan.actor].cooldown == 0)
            && (forall a :: a in u.available <==> a in t.available && a !in o.used)
            && u.failed == t.failed && u.failSamples == t.failSamples
  {
  }

  /** What the expectation of a completed mint says about it: the pass printed, the pass reminted. */
  lemma MintTells(env: Env, t: TickState, plan: Plan, l: Local, prev: Option<string>, invalid: bool, raw: string)
    requires WfLocal(env, l) && plan.actor < env.agentCount
    requires Decide(env, t, plan, l) == Issue(Inscribe(prev, invalid))
    ensures var r := Complete(env, t, plan, Inscribe(prev, invalid), l, raw);
            r.Success? ==>
              && r.value.1.used == {plan.actor}
              && r.value.1.expectation ==
                   Some(Expectation(plan.action, plan.actor, preBalance := Some(env.balanceAt(plan.actor, t.preHeight)),
                                    pass := ExtractInscriptionId(raw), prev := prev, expectInvalid := plan.action == InvalidMint))
              && ExtractInscriptionId(raw).Some?
              && r.value.0.ownerOf == l.ownerOf[ExtractInscriptionId(raw).value := plan.actor]
  {
  }

  /** Of a completed transfer: the pass and the agent chosen, and whether that one had an active pass. */
  lemma TransferTells(env: Env, t: TickState, plan: Plan, l: Local, pass: string, target: nat, had: bool, raw: string)
    requires WfLocal(env, l) && plan.actor < env.agentCount && target < env.agentCount
    requires Decide(env, t, plan, l) == Issue(SendPass(pass, target, had))
    ensures var r := Complete(env, t, plan, SendPass(pass, target, had), l, raw);
            r.Success? ==>
              && r.value.1.used == {plan.actor, target} && ExtractTxid(raw).Some?
              && r.value.1.expectation ==
                   Some(Expectation(Transfer, plan.actor, pass := Some(pass), target := Some(target), targetHadActive := Some(had)))
              && r.value.0.ownerOf == l.ownerOf[pass := target]
  {
  }

  /** Of a completed payment: its amount and the balance before it; ownership is untouched. */
  lemma PaymentTells(env: Env, t: TickState, plan: Plan, l: Local, req: Request, raw: string)
    requires WfLocal(env, l) && plan.actor < env.agentCount && (req.FundAgent? || req.PayMiner?)
    requires Decide(env, t, plan, l) == Issue(req)
    ensures var r := Complete(env, t, plan, req, l, raw);
            && r.Success? && r.value.1.used == {plan.actor}
            && r.value.1.expectation ==
                 Some(Expectation(plan.action, plan.actor, preBalance := Some(env.balanceAt(plan.actor, t.preHeight)),
                                  amount := Some(req.sat)))
            && r.value.0.(metrics := l.metrics) == l
  {
  }

  /** The first twelve characters of a text, or all of it. */
  predicate IsShortened(short: string, text: string) {
    short <= text && |short| == if |text| < 12 then |text| else 12
  }

  /** What a completed command reports: the id found in the printed text, the wallets, the amount. */
  lemma ReportTells(env: Env, t: TickState, plan: Plan, req: Request, l: Local, raw: string)
    requires WfLocal(env, l) && plan.actor < env.agentCount && RequestInRange(env, req)
    requires Complete(env, t, plan, req, l, raw).Success?
    ensures var detail, wallet := Complete(env, t, plan, req, l, raw).value.1.detail, env.walletName(plan.actor);
            match req
            case Inscribe(prev, invalid) =>
              ExtractInscriptionId(raw).Some? &&
              var pass := ExtractInscriptionId(raw).value;
              && (invalid ==> detail == "invalid_mint:" + pass + ":owner=" + wallet)
              && (!invalid && prev.None? ==> detail == "mint:" + pass + ":owner=" + wallet)
              && (!invalid && prev.Some? ==>
                    detail == "remint:prev=" + prev.value + ":remint_like_mint:" + pass + ":owner=" + wallet
                              + ":prev=" + prev.value)
            case SendPass(pass, target, _) =>
              ExtractTxid(raw).Some? &&
              exists short :: IsShortened(short, ExtractTxid(raw).value) &&
                detail == "transfer:" + pass + ":from=" + wallet + ":to=" + env.walletName(target) + ":txid=" + short
            case FundAgent(sat) =>
              exists short :: IsShortened(short, raw) &&
                detail == "send_balance:" + BtcText(sat) + ":to=" + wallet + ":txid=" + short
            case PayMiner(_, sat) =>
              exists short :: IsShortened(short, raw) &&
                detail == "spend_balance:" + BtcText(sat) + ":from=" + wallet + ":txid=" + short
  {
    var printed := if req.SendPass? then ExtractTxid(raw).value else raw;
    assert IsShortened(Prefix12(printed), printed);
  }

  // ---------------------------------------------------------------- amounts as text

  predicate Figures(s: string) {
    forall i | 0 <= i < |s| :: '0' <= s[i] <= '9'
  }

  function Numeral(s: string): int {
    if s == "" then 0 else Numeral(s[..|s| - 1]) * 10 + s[|s| - 1] as int - '0' as int
  }

  lemma OneMoreFigure(front: string, d: nat, c: char)
    requires d < 10 && Figures(front) && c == ['0', '1', '2', '3', '4', '5', '6', '7', '8', '9'][d]
    ensures Figures(front + [c]) && Numeral(front + [c]) == Numeral(front) * 10 + d
  {
    assert (front + [c])[..|front|] == front;
  }

  lemma {:induction false} DigitsAreNumeral(n: nat)
    ensures Digits(n) != "" && Figures(Digits(n)) && Numeral(Digits(n)) == n
  {
    var front := if n < 10 then "" else Digits(n / 10);
    if n >= 10 {
      DigitsAreNumeral(n / 10);
    }
    OneMoreFigure(front, n % 10, ['0', '1', '2', '3', '4', '5', '6', '7', '8', '9'][n % 10]);
  }

  lemma {:induction false} ShortNumeral(n: nat, width: nat)
    requires n < Power10(width) && width > 0
    ensures |Digits(n)| <= width
  {
    if n >= 10 {
      ShortNumeral(n / 10, width - 1);
    }
  }

  function Power10(k: nat): nat {
    if k == 0 then 1 else 10 * Power10(k - 1)
  }

  lemma {:induction false} ZeroInFront(s: string)
    ensures Numeral("0" + s) == Numeral(s)
  {
    var t := "0" + s;
    if s == "" {
      assert t[..|t| - 1] == "";
    } else {
      ZeroInFront(s[..|s| - 1]);
      assert t[..|t| - 1] == "0" + s[..|s| - 1];
    }
  }

  lemma {:induction false} PaddedNumeral(s: string, width: nat)
    requires Figures(s) && |s| <= width
    ensures var t := PadTo(s, width); |t| == width && Figures(t) && Numeral(t) == Numeral(s)
    decreases width - |s|
  {
    if |s| < width {
      ZeroInFront(s);
      PaddedNumeral("0" + s, width);
    }
  }

  lemma Decimals(n: nat)
    requires n < 100_000_000
    ensures var t := PadTo(Digits(n), 8); |t| == 8 && Figures(t) && Numeral(t) == n
  {
    DigitsAreNumeral(n);
    EightDecimals();
    ShortNumeral(n, 8);
    PaddedNumeral(Digits(n), 8);
  }

  lemma EightDecimals()
    ensures Power10(8) == 100_000_000
  {
    assert Power10(4) == 10_000;
  }

  ghost predicate Reads(text: string, sat: int, whole: string, decimals: string) {
    && text == (if sat < 0 then "-" else "") + whole + "." + decimals
    && whole != "" && Figures(whole) && |decimals| == 8 && Figures(decimals)
    && Numeral(whole) * 100_000_000 + Numeral(decimals) == if sat < 0 then -sat else sat
  }

  /** The text of an amount is its sign, whole coins, a point and exactly eight decimals, and names exactly
      the satoshis. */
  lemma AmountText(sat: int)
    ensures exists whole: string, decimals: string :: Reads(BtcText(sat), sat, whole, decimals)
  {
    var n: nat := if sat < 0 then -sat else sat;
    DigitsAreNumeral(n / 100_000_000);
    Decimals(n % 100_000_000);
    assert Reads(BtcText(sat), sat, Digits(n / 100_000_000), PadTo(Digits(n % 100_000_000), 8));
  }

  // ---------------------------------------------------------------- differences of counters

  /** Adding the differences of two counter states to the first gives the second. */
  lemma DifferencesAddUp(before: Metrics, after: Metrics, k: Metric)
    ensures before.Keys <= after.Keys ==> Count(AddDeltas(before, MetricDelta(before, after)), k) == Count(after, k)
    ensures k in MetricDelta(before, after) ==> Count(after, k) != Count(before, k)
  {
  }

  // ---------------------------------------------------------------- planning

  /** A scripted action can be carried out: transfers need a pass and a second agent, remints an indexed
      pass, spending a balance of 0.002; the others always can. */
  lemma ScriptedActionIsPossible(env: Env, t: TickState, l: Local)
    requires Sound(env) && WfTick(env, t) && WfLocal(env, l) && t.available != {} && env.policy.Scripted?
    ensures var plan := PlanFor(env, t, l).0.plan.value;
            && (plan.action in env.policy.cycle || plan.action == Noop)
            && (plan.action == Transfer ==> l.agents[plan.actor].owned != {} && |t.available| >= 2)
            && (plan.action == Remint ==> exists p :: p in l.ownerOf)
            && (plan.action == SpendBalance ==> env.balanceAt(plan.actor, t.preHeight) >= 200_000)
            && (plan.action == Noop && Noop !in env.policy.cycle ==>
                  forall a | a in env.policy.cycle ::
                    || (a == Transfer && (l.agents[plan.actor].owned == {} || |t.available| < 2))
                    || (a == Remint && l.ownerOf == map[])
                    || (a == SpendBalance && env.balanceAt(plan.actor, t.preHeight) < 200_000))
  {
    var plan := PlanFor(env, t, l).0.plan.value;
    var viable := (a: Action) => plan.actor < |l.agents| && Viable(env, l, plan.actor, a, t.available, t.preHeight);
    var c := Choose(env.policy.cycle, l.agents[plan.actor].scriptedIndex, viable);
    assert plan.action == c.action;
    if c.position.None? {
      NoneViable(env.policy.cycle, l.agents[plan.actor].scriptedIndex, viable);
    }
    assert l.ownerOf != map[] ==> exists p :: p in l.ownerOf;
  }

  lemma NoneViable(cycle: seq<Action>, start: nat, viable: Action -> bool)
    requires cycle != [] && Choose(cycle, start, viable).position.None?
    ensures forall a | a in cycle :: !viable(a)
    ensures Choose(cycle, start, viable).nextIndex == (start + 1) % |cycle|
  {
    assert FirstViable(cycle, start, 0, viable).None?;
    forall j | 0 <= j < |cycle|
      ensures !viable(cycle[j])
    {
      var d := Ahead(start, j, |cycle|);
      assert cycle[Wrap(start, d, |cycle|)] == cycle[j];
    }
  }

  /** The wallet that will show the effect: the miner's for a payment to an agent, the agent's own
      otherwise; its listing is taken before the command, with inscriptions only for pass actions. */
  lemma BaselineWatchesSender(env: Env, t: TickState, l: Local)
    requires Sound(env) && WfTick(env, t) && WfLocal(env, l) && t.available != {}
    ensures var plan := PlanFor(env, t, l).0.plan.value;
            && (plan.baseline.None? <==> plan.action == Noop)
            && (plan.baseline.Some? ==>
                  && plan.baseline.value.wallet == (if plan.action == SendBalance then env.minerWallet else env.walletName(plan.actor))
                  && plan.baseline.value.txids == env.baselineOf(plan.id, plan.baseline.value.wallet).0
                  && plan.baseline.value.inscriptions ==
                       (if MintLikeAction(plan.action) || plan.action == Transfer
                        then env.baselineOf(plan.id, plan.baseline.value.wallet).1 else {}))
            && plan.id.tag == env.digest(t.tick, t.nextSlot, plan.actor, plan.action)
            && plan.actor == env.drawActor(t.tick, t.nextSlot, t.preHeight, t.available)
  {
  }

  /** Planning touches nothing but the actor's place in the script; the adaptive policy draws the action. */
  lemma PlanTouchesScriptOnly(env: Env, t: TickState, l: Local)
    requires Sound(env) && WfTick(env, t) && WfLocal(env, l) && t.available != {}
    ensures var (u, m) := PlanFor(env, t, l);
            && m.metrics == l.metrics && m.ownerOf == l.ownerOf && m.activeCount == l.activeCount && |m.agents| == |l.agents|
            && (forall i | 0 <= i < |l.agents| ::
                  m.agents[i].(scriptedIndex := 0) == l.agents[i].(scriptedIndex := 0)
                  && (i != u.plan.value.actor ==> m.agents[i] == l.agents[i]))
            && (env.policy.Adaptive? ==>
                  && m == l
                  && u.plan.value.action == env.drawAction(t.tick, t.nextSlot, u.plan.value.actor, l.agents[u.plan.value.actor],
                                                           t.available, t.preHeight))
  {
    if env.policy.Adaptive? {
      assert PlanFor(env, t, l).1.agents == l.agents;
    }
  }

  /** A tick starts with every active agent available, nothing booked and nothing counted. */
  lemma TickStartsEmpty(env: Env, tick: nat, l: Local, height: nat)
    requires Sound(env) && WfLocal(env, l)
    ensures var (t, m) := TickStart(env, tick, l, height);
            && m == l.(activeCount := env.grow(tick, l.activeCount))
            && (forall i :: i in t.available <==> 0 <= i < m.activeCount)
            && t.tick == tick && t.preHeight == height && t.nextSlot == 0 && t.plan.None? && t.receipt.None?
            && t.results == [] && t.trace == [] && t.expectations == [] && t.failed == 0 && t.failSamples == []
            && (forall a :: CountOf(t.counts, a) == 0 && a in t.counts)
            && t.slots == env.drawSlots(tick, height, |t.available|)
  {
    forall a
      ensures CountOf(NO_COUNTS, a) == 0 && a in NO_COUNTS
    {
      match a
      case Mint => case InvalidMint => case Transfer => case Remint => case SendBalance => case SpendBalance => case Noop =>
    }
  }
}
