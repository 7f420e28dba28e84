/** Executing one planned action, recording its receipt, and getting the receipt back after a
    restart: `op_*`, `execute_agent_action`, `build_action_receipt`,
    `rebuild_receipt_from_external_result`, `apply_action_receipt`. */
module Actions {
  import opened Wrappers
  import opened OutputText
  import opened World

  // ---------------------------------------------------------------- ownership updates

  function SetAgent(l: Local, i: nat, a: Agent): Local
    requires i < |l.agents|
  {
    l.(agents := l.agents[i := a])
  }

  function RecordMint(l: Local, pass: string, owner: nat, invalid: bool): Local
    requires owner < |l.agents|
  {
    var a := l.agents[owner];
    var b := a.(owned := a.owned + {pass}, invalid := if invalid then a.invalid + {pass} else a.invalid);
    SetAgent(l, owner, b).(ownerOf := l.ownerOf[pass := owner])
  }

  function RecordMove(l: Local, pass: string, source: nat, target: nat): Local
    requires source < |l.agents| && target < |l.agents|
  {
    var s := l.agents[source];
    var l1 := SetAgent(l, source, s.(owned := s.owned - {pass}));
    var t := l1.agents[target];
    SetAgent(l1, target, t.(owned := t.owned + {pass})).(ownerOf := l.ownerOf[pass := target])
  }

  function ApplyPatch(l: Local, p: Patch): Local
    requires PatchInRange(p, |l.agents|)
  {
    match p
    case MintLike(pass, owner, invalid) => RecordMint(l, pass, owner, invalid)
    case Move(pass, source, target) => RecordMove(l, pass, source, target)
  }

  predicate PatchInRange(p: Patch, n: nat) {
    match p
    case MintLike(_, owner, _) => owner < n
    case Move(_, source, target) => source < n && target < n
  }

  // ---------------------------------------------------------------- direct execution

  /** The external command an action issues, fixed before the command runs. */
  datatype Request =
    | Inscribe(prev: Option<string>, invalid: bool)
    | SendPass(pass: string, target: nat, targetHadActive: bool)
    | FundAgent(sat: int)
    | PayMiner(preBalance: nat, sat: int)

  datatype Decision =
    | SkipAction(detail: string, expectation: Option<Expectation>)
    | Issue(request: Request)

  /** What one slot hands to the bookkeeping that follows it. */
  datatype Outcome = Outcome(detail: string, expectation: Option<Expectation>, used: set<nat>)

  function RemintCandidates(env: Env, l: Local): set<string>
    requires WfLocal(env, l)
  {
    var nonInvalid := set p | p in l.ownerOf && p !in l.agents[l.ownerOf[p]].invalid;
    if nonInvalid != {} then nonInvalid else l.ownerOf.Keys
  }

  function ChoosePrev(env: Env, l: Local, pos: Pos): Option<string>
    requires WfLocal(env, l)
  {
    var candidates := RemintCandidates(env, l);
    if candidates == {} then None else Some(env.drawPass(pos, 0, candidates))
  }

  function Min(a: int, b: int): int {
    if a <= b then a else b
  }

  /** Satoshi amount of a spend, or nothing when the balance allows none. */
  function SpendAmount(env: Env, pos: Pos, preBalance: nat): Option<int> {
    var maxSat := Min(preBalance / 2, 5_000_000);
    var minSat := Min(100_000, maxSat);
    if maxSat <= 0 || minSat <= 0 then None
    else if maxSat < minSat then Some(maxSat)
    else Some(env.drawInt(pos, 0, minSat, maxSat))
  }

  function PosOf(t: TickState, plan: Plan): Pos {
    Pos(t.tick, plan.slot, plan.actor, plan.action, t.preHeight)
  }

  function Decide(env: Env, t: TickState, plan: Plan, l: Local): Decision
    requires WfLocal(env, l) && plan.actor < env.agentCount
  {
    var pos := PosOf(t, plan);
    match plan.action
    case Noop => SkipAction("noop", None)
    case Mint => Issue(Inscribe(None, false))
    case InvalidMint => Issue(Inscribe(None, true))
    case Transfer =>
      var owned := l.agents[plan.actor].owned;
      var targets := t.available - {plan.actor};
      if owned == {} then SkipAction("transfer:skip:no_pass", Some(Expectation(Noop, plan.actor)))
      else if targets == {} then SkipAction("transfer:skip:no_target", Some(Expectation(Noop, plan.actor)))
      else
        var target := env.drawAgent(pos, 1, targets);
        Issue(SendPass(env.drawPass(pos, 0, owned), target, env.hasActivePass(target, t.preHeight)))
    case Remint =>
      (match ChoosePrev(env, l, pos)
       case None => SkipAction("remint:skip:no_prev", None)
       case Some(prev) => Issue(Inscribe(Some(prev), false)))
    case SendBalance => Issue(FundAgent(env.drawInt(pos, 0, 1_000_000, 25_000_000)))
    case SpendBalance =>
      var pre := env.balanceAt(plan.actor, t.preHeight);
      if pre < 200_000 || SpendAmount(env, pos, pre).None? then
        SkipAction("spend_balance:skip:low_balance", None)
      else Issue(PayMiner(pre, SpendAmount(env, pos, pre).value))
  }

  function Digits(n: nat): string {
    (if n < 10 then [] else Digits(n / 10)) + [['0', '1', '2', '3', '4', '5', '6', '7', '8', '9'][n % 10]]
  }

  function PadTo(s: string, n: nat): string
    decreases n - |s|
  {
    if |s| < n then PadTo("0" + s, n) else s
  }

  /** Eight-decimal amount text of a satoshi count. */
  function BtcText(sat: int): string {
    var n := if sat < 0 then -sat else sat;
    (if sat < 0 then "-" else "") + Digits(n / 100_000_000) + "." + PadTo(Digits(n % 100_000_000), 8)
  }

  function Prefix12(s: string): string {
    if |s| <= 12 then s else s[..12]
  }

  function MintDetail(env: Env, plan: Plan, prev: Option<string>, invalid: bool, pass: string): string {
    var wallet := env.walletName(plan.actor);
    if invalid then "invalid_mint:" + pass + ":owner=" + wallet
    else if prev.Some? then
      "remint:prev=" + prev.value + ":remint_like_mint:" + pass + ":owner=" + wallet + ":prev=" + prev.value
    else "mint:" + pass + ":owner=" + wallet
  }

  function TransferDetail(env: Env, plan: Plan, pass: string, target: nat, txid: string): string {
    "transfer:" + pass + ":from=" + env.walletName(plan.actor) + ":to=" + env.walletName(target)
    + ":txid=" + Prefix12(txid)
  }

  function FundDetail(env: Env, plan: Plan, sat: int, tx: string): string {
    "send_balance:" + BtcText(sat) + ":to=" + env.walletName(plan.actor) + ":txid=" + tx
  }

  function PayDetail(env: Env, plan: Plan, sat: int, tx: string): string {
    "spend_balance:" + BtcText(sat) + ":from=" + env.walletName(plan.actor) + ":txid=" + tx
  }

  function MintAction(prev: Option<string>, invalid: bool): Action {
    if invalid then InvalidMint else if prev.Some? then Remint else Mint
  }

  function MintMetric(prev: Option<string>, invalid: bool): Metric {
    if invalid then InvalidMintOk else if prev.Some? then RemintOk else MintOk
  }

  /** Local effect of a command that printed `raw`: parse the id out of the text, then update the
      ownership view and the counters. A parse failure leaves the local state alone. */
  function Complete(env: Env, t: TickState, plan: Plan, req: Request, l: Local, raw: string)
    : (r: Result<(Local, Outcome), string>)
    requires WfLocal(env, l) && plan.actor < env.agentCount
    requires req.SendPass? ==> req.target < env.agentCount
    ensures r.Success? ==> WfLocal(env, r.value.0)
  {
    match req
    case Inscribe(prev, invalid) =>
      (match ExtractInscriptionId(raw)
       case None => Failure("failed to parse inscription id")
       case Some(pass) =>
         var l1 := RecordMint(l, pass, plan.actor, invalid);
         Success((
           l1.(metrics := Bump(l.metrics, MintMetric(prev, invalid), 1)),
           Outcome(MintDetail(env, plan, prev, invalid, pass),
                   Some(Expectation(MintAction(prev, invalid), plan.actor,
                     preBalance := Some(env.balanceAt(plan.actor, t.preHeight)), pass := Some(pass),
                     prev := prev, expectInvalid := invalid)),
                   {plan.actor}))))
    case SendPass(pass, target, had) =>
      (match ExtractTxid(raw)
       case None => Failure("failed to parse txid")
       case Some(txid) =>
         var l1 := RecordMove(l, pass, plan.actor, target);
         Success((
           l1.(metrics := Bump(l.metrics, TransferOk, 1)),
           Outcome(TransferDetail(env, plan, pass, target, txid),
                   Some(Expectation(Transfer, plan.actor, pass := Some(pass), target := Some(target),
                     targetHadActive := Some(had))),
                   {plan.actor, target}))))
    case FundAgent(sat) =>
      Success((
        l.(metrics := Bump(l.metrics, SendOk, 1)),
        Outcome(FundDetail(env, plan, sat, Prefix12(raw)),
                Some(Expectation(SendBalance, plan.actor,
                  preBalance := Some(env.balanceAt(plan.actor, t.preHeight)), amount := Some(sat))),
                {plan.actor})))
    case PayMiner(pre, sat) =>
      Success((
        l.(metrics := Bump(l.metrics, SpendOk, 1)),
        Outcome(PayDetail(env, plan, sat, Prefix12(raw)),
                Some(Expectation(SpendBalance, plan.actor, preBalance := Some(pre), amount := Some(sat))),
                {plan.actor})))
  }

  /** A skipped action only counts the skip. */
  function CompleteSkip(plan: Plan, d: Decision, l: Local): (Local, Outcome)
    requires d.SkipAction?
  {
    (l.(metrics := Bump(l.metrics, Skipped, 1)), Outcome(d.detail, d.expectation, {plan.actor}))
  }

  // ---------------------------------------------------------------- receipts

  function MetricDelta(before: Metrics, after: Metrics): Metrics {
    map k | k in after && after[k] - Count(before, k) != 0 :: after[k] - Count(before, k)
  }

  predicate MintLikeAction(a: Action) {
    a == Mint || a == InvalidMint || a == Remint
  }

  function BuildReceipt(plan: Plan, o: Outcome, before: Metrics, after: Metrics): Result<Receipt, string> {
    var patch :- (match o.expectation
      case None => Success(None)
      case Some(e) =>
        if MintLikeAction(e.action) then
          (if e.pass.None? then Failure("mint-like receipt missing inscription_id")
           else Success(Some(MintLike(e.pass.value, e.actor, e.expectInvalid))))
        else if e.action == Transfer then
          (if e.pass.None? || e.target.None? then Failure("transfer receipt missing fields")
           else Success(Some(Move(e.pass.value, e.actor, e.target.value))))
        else Success(None));
    Success(Receipt(plan.id, plan.action, plan.actor, o.detail, o.used,
      if o.expectation.Some? && o.expectation.value.action != Noop then o.expectation else None,
      MetricDelta(before, after), patch))
  }

  /** Reconstructs the receipt from recovered text, drawing again from the same position. */
  function RebuildReceipt(env: Env, t: TickState, plan: Plan, l: Local, recovered: string): Result<Receipt, string>
    requires WfLocal(env, l) && plan.actor < env.agentCount
  {
    var raw := Strip(recovered);
    var pos := PosOf(t, plan);
    if raw == [] then Failure("external action result missing raw_output") else
    match plan.action
    case Mint | InvalidMint | Remint =>
      var prev := if plan.action == Remint then ChoosePrev(env, l, pos) else None;
      var invalid := plan.action == InvalidMint;
      if plan.action == Remint && prev.None? then Failure("cannot rebuild remint receipt without prev") else
      (match ExtractInscriptionId(raw)
       case None => Failure("failed to parse inscription id")
       case Some(pass) =>
         Success(Receipt(plan.id, plan.action, plan.actor, MintDetail(env, plan, prev, invalid, pass), {plan.actor},
           Some(Expectation(plan.action, plan.actor, preBalance := Some(env.balanceAt(plan.actor, t.preHeight)),
             pass := Some(pass), prev := prev, expectInvalid := invalid)),
           map[MintMetric(prev, invalid) := 1], Some(MintLike(pass, plan.actor, invalid)))))
    case Transfer =>
      var owned := l.agents[plan.actor].owned;
      var targets := t.available - {plan.actor};
      if owned == {} then Failure("cannot rebuild transfer receipt without owned passes")
      else if targets == {} then Failure("cannot rebuild transfer receipt without target candidates")
      else
        var pass := env.drawPass(pos, 0, owned);
        var target := env.drawAgent(pos, 1, targets);
        (match ExtractTxid(raw)
         case None => Failure("failed to parse txid")
         case Some(txid) =>
           Success(Receipt(plan.id, plan.action, plan.actor,
             TransferDetail(env, plan, pass, target, txid),
             {plan.actor, target},
             Some(Expectation(Transfer, plan.actor, pass := Some(pass), target := Some(target),
               targetHadActive := Some(env.hasActivePass(target, t.preHeight)))),
             map[TransferOk := 1], Some(Move(pass, plan.actor, target)))))
    case SendBalance =>
      var sat := env.drawInt(pos, 0, 1_000_000, 25_000_000);
      (match ExtractTxid(raw)
       case None => Failure("failed to parse txid")
       case Some(txid) =>
         Success(Receipt(plan.id, plan.action, plan.actor,
           FundDetail(env, plan, sat, Prefix12(txid)),
           {plan.actor},
           Some(Expectation(SendBalance, plan.actor,
             preBalance := Some(env.balanceAt(plan.actor, t.preHeight)), amount := Some(sat))),
           map[SendOk := 1], None)))
    case SpendBalance =>
      var pre := env.balanceAt(plan.actor, t.preHeight);
      (match SpendAmount(env, pos, pre)
       case None => Failure("cannot rebuild spend receipt without positive spend amount")
       case Some(sat) =>
         match ExtractTxid(raw)
         case None => Failure("failed to parse txid")
         case Some(txid) =>
           Success(Receipt(plan.id, plan.action, plan.actor,
             PayDetail(env, plan, sat, Prefix12(txid)),
             {plan.actor},
             Some(Expectation(SpendBalance, plan.actor, preBalance := Some(pre), amount := Some(sat))),
             map[SpendOk := 1], None)))
    case Noop => Failure("unsupported action for external receipt rebuild")
  }

  function AddDeltas(m: Metrics, deltas: Metrics): Metrics {
    map k | k in m.Keys + deltas.Keys :: Count(m, k) + Count(deltas, k)
  }

  function ApplyReceipt(plan: Plan, r: Receipt, l: Local): Result<(Local, Outcome), string>
    requires r.patch.Some? ==> PatchInRange(r.patch.value, |l.agents|)
  {
    if r.id != plan.id then Failure("action receipt id mismatch")
    else if r.action != plan.action then Failure("action receipt action mismatch")
    else if r.actor != plan.actor then Failure("action receipt actor mismatch")
    else
      var l1 := l.(metrics := AddDeltas(l.metrics, r.deltas));
      Success((if r.patch.Some? then ApplyPatch(l1, r.patch.value) else l1,
               Outcome(r.detail, r.expectation, r.used)))
  }

  // ---------------------------------------------------------------- faithfulness

  lemma OneBumpDelta(m: Metrics, k: Metric)
    ensures MetricDelta(m, Bump(m, k, 1)) == map[k := 1]
    ensures AddDeltas(m, map[k := 1]) == Bump(m, k, 1)
  {
    var d := MetricDelta(m, Bump(m, k, 1));
    assert k in d;
    assert forall j | j in d :: j == k;
    assert AddDeltas(m, map[k := 1]).Keys == Bump(m, k, 1).Keys;
  }

  /** The text a payment prints is read whole by direct execution but through the id pattern by
      recovery; this says both report the same twelve characters. */
  predicate PaymentTextAgrees(raw: string) {
    ExtractTxid(raw).Some? && Prefix12(ExtractTxid(raw).value) == Prefix12(raw)
  }

  /** Two recovered texts name the same id for this action. */
  predicate SameIdIn(action: Action, x: string, y: string) {
    if MintLikeAction(action) then ExtractInscriptionId(Strip(x)) == ExtractInscriptionId(Strip(y))
    else ExtractTxid(Strip(x)) == ExtractTxid(Strip(y))
  }

  /** Rebuilding looks at the recovered text only through the id it names. */
  lemma RebuildDependsOnId(env: Env, t: TickState, plan: Plan, l: Local, x: string, y: string)
    requires WfLocal(env, l) && plan.actor < env.agentCount
    requires SameIdIn(plan.action, x, y)
    requires RebuildReceipt(env, t, plan, l, x).Success?
    ensures RebuildReceipt(env, t, plan, l, y) == RebuildReceipt(env, t, plan, l, x)
  {
    EmptyTextNamesNothing();
  }

  lemma EmptyTextNamesNothing()
    ensures ExtractInscriptionId([]).None? && ExtractTxid([]).None?
  {
    assert FirstInscription([], 0).None? && FirstTxid([], 0).None?;
  }

  /** Which texts recovery can turn back into the receipt of direct execution. */
  predicate Recoverable(action: Action, raw: string) {
    if MintLikeAction(action) then ExtractInscriptionId(raw).Some?
    else if action == Transfer then ExtractTxid(raw).Some?
    else PaymentTextAgrees(raw)
  }

  /** For every action that issued a command, on every printed text: direct execution followed by
      `build_action_receipt` and recovery from that text give the same receipt exactly when the
      text is recoverable; a pass action whose text does not parse fails both ways. */
  lemma RebuildIsFaithful(env: Env, t: TickState, plan: Plan, l: Local, stdout: string)
    requires WfLocal(env, l) && plan.actor < env.agentCount
    requires Decide(env, t, plan, l).Issue?
    requires RequestInRange(env, Decide(env, t, plan, l).request)
    ensures var raw := Strip(stdout);
            var direct := Complete(env, t, plan, Decide(env, t, plan, l).request, l, raw);
            var rebuilt := RebuildReceipt(env, t, plan, l, raw);
            && (Recoverable(plan.action, raw) <==>
                  direct.Success? && rebuilt.Success?
                  && BuildReceipt(plan, direct.value.1, l.metrics, direct.value.0.metrics) == rebuilt)
            && (MintLikeAction(plan.action) || plan.action == Transfer ==>
                  (direct.Success? <==> Recoverable(plan.action, raw)))
  {
    StripIdempotent(stdout);
    var raw := Strip(stdout);
    assert raw == [] ==> FirstInscription(raw, 0).None? && FirstTxid(raw, 0).None?;
    match plan.action
    case Mint | InvalidMint | Remint => MintRebuild(env, t, plan, l, raw);
    case Transfer => TransferRebuild(env, t, plan, l, raw);
    case SendBalance => FundRebuild(env, t, plan, l, raw);
    case SpendBalance => PayRebuild(env, t, plan, l, raw);
  }

  predicate RequestInRange(env: Env, req: Request) {
    req.SendPass? ==> req.target < env.agentCount
  }

  lemma DecisionInRange(env: Env, t: TickState, plan: Plan, l: Local)
    requires Sound(env) && WfLocal(env, l) && plan.actor < env.agentCount
    requires forall a | a in t.available :: a < env.agentCount
    ensures Decide(env, t, plan, l).Issue? ==> RequestInRange(env, Decide(env, t, plan, l).request)
    ensures Decide(env, t, plan, l).SkipAction? ==> Meaningful(Decide(env, t, plan, l).expectation).None?
  {
  }

  lemma MintRebuild(env: Env, t: TickState, plan: Plan, l: Local, raw: string)
    requires WfLocal(env, l) && plan.actor < env.agentCount && MintLikeAction(plan.action)
    requires Decide(env, t, plan, l).Issue? && Strip(raw) == raw
    ensures var direct := Complete(env, t, plan, Decide(env, t, plan, l).request, l, raw);
            var rebuilt := RebuildReceipt(env, t, plan, l, raw);
            if ExtractInscriptionId(raw).Some? then
              direct.Success? && rebuilt.Success?
              && BuildReceipt(plan, direct.value.1, l.metrics, direct.value.0.metrics) == rebuilt
            else direct.Failure? && rebuilt.Failure?
  {
    var req := Decide(env, t, plan, l).request;
    OneBumpDelta(l.metrics, MintMetric(req.prev, req.invalid));
    assert raw == [] ==> FirstInscription(raw, 0).None?;
  }

  lemma TransferRebuild(env: Env, t: TickState, plan: Plan, l: Local, raw: string)
    requires WfLocal(env, l) && plan.actor < env.agentCount && plan.action == Transfer
    requires Decide(env, t, plan, l).Issue? && Strip(raw) == raw
    requires RequestInRange(env, Decide(env, t, plan, l).request)
    ensures var direct := Complete(env, t, plan, Decide(env, t, plan, l).request, l, raw);
            var rebuilt := RebuildReceipt(env, t, plan, l, raw);
            if ExtractTxid(raw).Some? then
              direct.Success? && rebuilt.Success?
              && BuildReceipt(plan, direct.value.1, l.metrics, direct.value.0.metrics) == rebuilt
            else direct.Failure? && rebuilt.Failure?
  {
    OneBumpDelta(l.metrics, TransferOk);
    assert raw == [] ==> FirstTxid(raw, 0).None?;
  }

  lemma FundRebuild(env: Env, t: TickState, plan: Plan, l: Local, raw: string)
    requires WfLocal(env, l) && plan.actor < env.agentCount && plan.action == SendBalance
    requires Strip(raw) == raw
    ensures var direct := Complete(env, t, plan, Decide(env, t, plan, l).request, l, raw);
            var rebuilt := RebuildReceipt(env, t, plan, l, raw);
            direct.Success?
            && (PaymentTextAgrees(raw) <==>
                  rebuilt.Success?
                  && BuildReceipt(plan, direct.value.1, l.metrics, direct.value.0.metrics) == rebuilt)
  {
    OneBumpDelta(l.metrics, SendOk);
    assert raw == [] ==> FirstTxid(raw, 0).None?;
    if ExtractTxid(raw).Some? {
      var sat := Decide(env, t, plan, l).request.sat;
      SamePrefixText("send_balance:" + BtcText(sat) + ":to=" + env.walletName(plan.actor) + ":txid=",
                     Prefix12(raw), Prefix12(ExtractTxid(raw).value));
    }
  }

  lemma PayRebuild(env: Env, t: TickState, plan: Plan, l: Local, raw: string)
    requires WfLocal(env, l) && plan.actor < env.agentCount && plan.action == SpendBalance
    requires Decide(env, t, plan, l).Issue? && Strip(raw) == raw
    ensures var direct := Complete(env, t, plan, Decide(env, t, plan, l).request, l, raw);
            var rebuilt := RebuildReceipt(env, t, plan, l, raw);
            direct.Success?
            && (PaymentTextAgrees(raw) <==>
                  rebuilt.Success?
                  && BuildReceipt(plan, direct.value.1, l.metrics, direct.value.0.metrics) == rebuilt)
  {
    OneBumpDelta(l.metrics, SpendOk);
    assert raw == [] ==> FirstTxid(raw, 0).None?;
    if ExtractTxid(raw).Some? {
      var sat := Decide(env, t, plan, l).request.sat;
      SamePrefixText("spend_balance:" + BtcText(sat) + ":from=" + env.walletName(plan.actor) + ":txid=",
                     Prefix12(raw), Prefix12(ExtractTxid(raw).value));
    }
  }

  lemma SamePrefixText(p: string, x: string, y: string)
    ensures (p + x == p + y) == (x == y)
  {
    if p + x == p + y {
      assert x == (p + x)[|p|..] == (p + y)[|p|..] == y;
    }
  }

  // ---------------------------------------------------------------- replaying a receipt

  /** The expectation the slot loop keeps: skipped actions leave none. */
  function Meaningful(e: Option<Expectation>): Option<Expectation> {
    if e.Some? && e.value.action != Noop then e else None
  }

  /** The step from `l` to `after` counts metric k once, changes ownership only by one patch, and its
      receipt says exactly that. */
  predicate Receipted(plan: Plan, l: Local, after: Local, o: Outcome, k: Metric) {
    var r := BuildReceipt(plan, o, l.metrics, after.metrics);
    && after.metrics == Bump(l.metrics, k, 1)
    && r.Success?
    && r.value == Receipt(plan.id, plan.action, plan.actor, o.detail, o.used, Meaningful(o.expectation),
                          map[k := 1], r.value.patch)
    && (match r.value.patch
        case None => after == l.(metrics := after.metrics)
        case Some(p) => PatchInRange(p, |l.agents|) && after == ApplyPatch(l.(metrics := after.metrics), p))
  }

  lemma MintReceipted(env: Env, t: TickState, plan: Plan, req: Request, l: Local, raw: string)
    requires WfLocal(env, l) && plan.actor < env.agentCount && req.Inscribe?
    requires Complete(env, t, plan, req, l, raw).Success?
    ensures var (after, o) := Complete(env, t, plan, req, l, raw).value;
            Receipted(plan, l, after, o, MintMetric(req.prev, req.invalid))
  {
    var (after, o) := Complete(env, t, plan, req, l, raw).value;
    OneBumpDelta(l.metrics, MintMetric(req.prev, req.invalid));
    var receipt := BuildReceipt(plan, o, l.metrics, after.metrics).value;
    assert receipt.patch == Some(MintLike(o.expectation.value.pass.value, plan.actor, req.invalid));
  }

  lemma MoveReceipted(env: Env, t: TickState, plan: Plan, req: Request, l: Local, raw: string)
    requires WfLocal(env, l) && plan.actor < env.agentCount && req.SendPass? && RequestInRange(env, req)
    requires Complete(env, t, plan, req, l, raw).Success?
    ensures var (after, o) := Complete(env, t, plan, req, l, raw).value;
            Receipted(plan, l, after, o, TransferOk)
  {
    var (after, o) := Complete(env, t, plan, req, l, raw).value;
    OneBumpDelta(l.metrics, TransferOk);
    var receipt := BuildReceipt(plan, o, l.metrics, after.metrics).value;
    assert receipt.patch == Some(Move(req.pass, plan.actor, req.target));
  }

  lemma PaymentReceipted(env: Env, t: TickState, plan: Plan, req: Request, l: Local, raw: string)
    requires WfLocal(env, l) && plan.actor < env.agentCount && (req.FundAgent? || req.PayMiner?)
    ensures var (after, o) := Complete(env, t, plan, req, l, raw).value;
            Receipted(plan, l, after, o, if req.FundAgent? then SendOk else SpendOk)
  {
    OneBumpDelta(l.metrics, if req.FundAgent? then SendOk else SpendOk);
  }

  lemma SkipReceipted(env: Env, t: TickState, plan: Plan, l: Local)
    requires WfLocal(env, l) && plan.actor < env.agentCount && Decide(env, t, plan, l).SkipAction?
    ensures var (after, o) := CompleteSkip(plan, Decide(env, t, plan, l), l);
            Receipted(plan, l, after, o, Skipped)
  {
    OneBumpDelta(l.metrics, Skipped);
  }

  /** The counter that a command increments. */
  function RequestMetric(req: Request): Metric {
    match req
    case Inscribe(prev, invalid) => MintMetric(prev, invalid)
    case SendPass(_, _, _) => TransferOk
    case FundAgent(_) => SendOk
    case PayMiner(_, _) => SpendOk
  }

  /** Every completed command is receipted. */
  lemma CompleteReceipted(env: Env, t: TickState, plan: Plan, req: Request, l: Local, raw: string)
    requires WfLocal(env, l) && plan.actor < env.agentCount && RequestInRange(env, req)
    requires Complete(env, t, plan, req, l, raw).Success?
    ensures var (after, o) := Complete(env, t, plan, req, l, raw).value;
            Receipted(plan, l, after, o, RequestMetric(req))
  {
    match req
    case Inscribe(_, _) => MintReceipted(env, t, plan, req, l, raw);
    case SendPass(_, _, _) => MoveReceipted(env, t, plan, req, l, raw);
    case FundAgent(_) => PaymentReceipted(env, t, plan, req, l, raw);
    case PayMiner(_, _) => PaymentReceipted(env, t, plan, req, l, raw);
  }

  /** Applying the receipt of a direct execution to the state before it gives the state, the detail
      and the agents of that direct execution. */
  lemma ReceiptReplaysDirectExecution(plan: Plan, l: Local, after: Local, o: Outcome, k: Metric)
    requires Receipted(plan, l, after, o, k)
    ensures var r := BuildReceipt(plan, o, l.metrics, after.metrics).value;
            ApplyReceipt(plan, r, l) == Success((after, Outcome(o.detail, Meaningful(o.expectation), o.used)))
  {
    OneBumpDelta(l.metrics, k);
  }

  /** Ownership patches are idempotent. */
  lemma PatchIdempotent(l: Local, p: Patch)
    requires PatchInRange(p, |l.agents|)
    ensures PatchInRange(p, |ApplyPatch(l, p).agents|)
    ensures ApplyPatch(ApplyPatch(l, p), p) == ApplyPatch(l, p)
  {
    var once := ApplyPatch(l, p);
    var twice := ApplyPatch(once, p);
    match p
    case MintLike(pass, owner, invalid) =>
      assert once.agents[owner].owned + {pass} == once.agents[owner].owned;
      assert invalid ==> once.agents[owner].invalid + {pass} == once.agents[owner].invalid;
      assert twice.agents == once.agents;
    case Move(pass, source, target) =>
      forall i | 0 <= i < |l.agents|
        ensures twice.agents[i] == once.agents[i]
      {
        if i == target || i == source {
          assert twice.agents[i].owned == once.agents[i].owned;
        }
      }
      assert twice.agents == once.agents;
  }

  /** Replaying the receipt on the state saved with it, which already contains its effect, changes
      nothing but one counter: that one is counted a second time. */
  lemma ReplayCountsTwice(plan: Plan, l: Local, after: Local, o: Outcome, k: Metric)
    requires Receipted(plan, l, after, o, k)
    ensures |after.agents| == |l.agents|
    ensures var r := BuildReceipt(plan, o, l.metrics, after.metrics).value;
            ApplyReceipt(plan, r, after)
            == Success((after.(metrics := Bump(after.metrics, k, 1)), Outcome(o.detail, Meaningful(o.expectation), o.used)))
    ensures Count(Bump(after.metrics, k, 1), k) == Count(l.metrics, k) + 2 == Count(after.metrics, k) + 1
  {
    var r := BuildReceipt(plan, o, l.metrics, after.metrics).value;
    OneBumpDelta(after.metrics, k);
    var more := Bump(after.metrics, k, 1);
    if r.patch.Some? {
      var p := r.patch.value;
      PatchIdempotent(l.(metrics := more), p);
      assert ApplyPatch(l.(metrics := after.metrics), p).(metrics := more) == ApplyPatch(l.(metrics := more), p);
      assert ApplyPatch(after.(metrics := more), p) == after.(metrics := more);
    }
  }
}
