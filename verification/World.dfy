/** Entities of the regtest world simulator: what one process holds in memory, what it writes
    to disk, and everything it can only ask the outside world about. */
module World {
  import opened Wrappers

  datatype Action = Mint | InvalidMint | Transfer | Remint | SendBalance | SpendBalance | Noop

  datatype Metric =
    | MintOk | MintFail | InvalidMintOk | InvalidMintFail | TransferOk | TransferFail
    | RemintOk | RemintFail | SendOk | SendFail | SpendOk | SpendFail
    | VerifyOk | VerifyFail | SampleOk | SampleFail | ReorgOk | Skipped

  type Metrics = map<Metric, int>

  datatype LastAction = Init | Did(action: Action) | FailedAction | ReorgReset

  datatype Agent = Agent(
    owned: set<string>,
    invalid: set<string>,
    activePass: Option<string>,
    lastAction: LastAction,
    cooldown: nat,
    scriptedIndex: nat)

  /** Simulator state that every recovery snapshot carries. */
  datatype Local = Local(
    metrics: Metrics,
    agents: seq<Agent>,
    ownerOf: map<string, nat>,
    activeCount: nat)

  /** The id carries tick and slot in clear; the tag stands for the truncated digest. */
  datatype ActionId = ActionId(tick: nat, slot: nat, tag: string)

  /** Wallet contents recorded before an external action, to recognise its effect later. */
  datatype Baseline = Baseline(wallet: string, txids: set<string>, inscriptions: set<string>)

  datatype Plan = Plan(slot: nat, actor: nat, action: Action, id: ActionId, baseline: Option<Baseline>)

  datatype Expectation = Expectation(
    action: Action,
    actor: nat,
    preBalance: Option<nat> := None,
    amount: Option<int> := None,
    pass: Option<string> := None,
    target: Option<nat> := None,
    targetHadActive: Option<bool> := None,
    prev: Option<string> := None,
    expectInvalid: bool := false,
    id: Option<ActionId> := None)

  datatype Patch =
    | MintLike(pass: string, owner: nat, invalid: bool)
    | Move(pass: string, source: nat, target: nat)

  datatype Receipt = Receipt(
    id: ActionId,
    action: Action,
    actor: nat,
    detail: string,
    used: set<nat>,
    expectation: Option<Expectation>,
    deltas: Metrics,
    patch: Option<Patch>)

  datatype TraceEntry =
    | Committed(id: ActionId, slot: nat, actor: nat, action: Action, detail: string, used: set<nat>)
    | Abandoned(id: ActionId, slot: nat, actor: nat, action: Action, error: string)

  /** Loop variables of one tick; the in-tick snapshot persists all of them. */
  datatype TickState = TickState(
    tick: nat,
    nextSlot: nat,
    slots: nat,
    preHeight: nat,
    available: set<nat>,
    results: seq<(ActionId, string)>,
    trace: seq<TraceEntry>,
    counts: map<Action, nat>,
    plan: Option<Plan>,
    receipt: Option<Receipt>,
    expectations: seq<Expectation>,
    failed: nat,
    failSamples: seq<(ActionId, string)>)

  datatype Snapshot =
    | BetweenTicks(nextTick: nat, local: Local)
    | InTick(t: TickState, local: Local)

  /** What an external command does: it may be refused (with or without an effect on the chain)
      or succeed and print text. */
  datatype Reply = Refused(performed: bool, error: string) | Printed(stdout: string)

  /** Position that seeds the random generator of one action's execution. */
  datatype Pos = Pos(tick: nat, slot: nat, actor: nat, action: Action, preHeight: nat)

  datatype Policy = Adaptive | Scripted(cycle: seq<Action>)

  /** Everything outside the process, as functions of what the code passes to it. Draws from a
      position-seeded generator are functions of the position, the draw number and the choices;
      choices are sets because the code sorts them first. */
  datatype Env = Env(
    agentCount: nat,
    initial: Local,
    blocks: nat,
    policy: Policy,
    walletName: nat -> string,
    minerWallet: string,
    digest: (nat, nat, nat, Action) -> string,
    drawActor: (nat, nat, nat, set<nat>) -> nat,
    drawAction: (nat, nat, nat, Agent, set<nat>, nat) -> Action,
    drawPass: (Pos, nat, set<string>) -> string,
    drawAgent: (Pos, nat, set<nat>) -> nat,
    drawInt: (Pos, nat, int, int) -> int,
    drawSlots: (nat, nat, nat) -> nat,
    grow: (nat, nat) -> nat,
    balanceAt: (nat, nat) -> nat,
    hasActivePass: (nat, nat) -> bool,
    baselineOf: (ActionId, string) -> (set<string>, set<string>),
    reply: ActionId -> Reply)

  ghost predicate Sound(env: Env) {
    && (forall a, b, c, s: set<nat> :: s != {} ==> env.drawActor(a, b, c, s) in s)
    && (forall p, k, s: set<string> :: s != {} ==> env.drawPass(p, k, s) in s)
    && (forall p, k, s: set<nat> :: s != {} ==> env.drawAgent(p, k, s) in s)
    && (forall p, k, lo, hi :: lo <= hi ==> lo <= env.drawInt(p, k, lo, hi) <= hi)
    && (forall a: nat, b: nat :: b <= env.agentCount ==> b <= env.grow(a, b) <= env.agentCount)
    && (env.policy.Scripted? ==> env.policy.cycle != [])
    && WfLocal(env, env.initial)
  }

  predicate WfLocal(env: Env, l: Local) {
    && |l.agents| == env.agentCount
    && l.activeCount <= env.agentCount
    && forall p | p in l.ownerOf :: l.ownerOf[p] < env.agentCount
  }

  function Count(m: Metrics, k: Metric): int {
    if k in m then m[k] else 0
  }

  function Bump(m: Metrics, k: Metric, n: int): Metrics {
    m[k := Count(m, k) + n]
  }

  function CountOf(c: map<Action, nat>, a: Action): nat {
    if a in c then c[a] else 0
  }
}
