/** The saturating energy arithmetic of the self-check oracle (`sat_*`, `calc_*`) and the policy it
    implements: balances above a threshold grow energy every block, a decrease is penalised. */
module EnergyOracle {
  const U64_MAX: nat := 0xFFFF_FFFF_FFFF_FFFF
  const THRESHOLD: nat := 100_000
  const GROWTH: nat := 10_000
  const PENALTY: nat := 43_200_000
  const BREAK_EVEN: nat := 4_320

  function Cap(x: int): int {
    if x <= U64_MAX then x else U64_MAX
  }

  function SatAdd(left: int, right: int): int {
    Cap(left + right)
  }

  function SatSub(left: int, right: int): int {
    if left - right > 0 then left - right else 0
  }

  function GrowthDelta(balance: int, r: int): int {
    if balance < THRESHOLD then 0 else Cap(balance * GROWTH * r)
  }

  function PenaltyOf(delta: int): int {
    if delta >= 0 then 0 else Cap(-delta * PENALTY)
  }

  predicate InRange(e: int) {
    0 <= e <= U64_MAX
  }

  // ---------------------------------------------------------------- stepwise and lazy growth

  /** n single-block updates with a constant balance. */
  function Stepwise(e: int, balance: int, n: nat): int {
    if n == 0 then e else SatAdd(Stepwise(e, balance, n - 1), GrowthDelta(balance, 1))
  }

  lemma MulStep(balance: int, n: nat)
    requires n > 0
    ensures balance * GROWTH * n == balance * GROWTH * (n - 1) + balance * GROWTH
    ensures balance >= 0 ==> balance * GROWTH * (n - 1) >= 0
  {
    var g := balance * GROWTH;
    assert g * n == g * (n - 1) + g;
    if balance >= 0 {
      MulNonNegative(g, n - 1);
    }
  }

  lemma MulNonNegative(x: nat, y: nat)
    ensures x * y >= 0
  {
  }

  /** n saturating single-block updates equal one saturating update over n blocks. */
  lemma {:induction false} StepwiseIsLazy(e: int, balance: int, n: nat)
    requires InRange(e)
    ensures Stepwise(e, balance, n) == SatAdd(e, GrowthDelta(balance, n))
  {
    if n > 0 {
      StepwiseIsLazy(e, balance, n - 1);
      MulStep(balance, n);
      assert balance * GROWTH * 1 == balance * GROWTH;
    } else {
      assert balance * GROWTH * 0 == 0;
    }
  }

  // ---------------------------------------------------------------- blocks

  /** Energy of an active pass after a block: growth on the balance before the block, then the penalty
      for what the block took away (`run_agent_self_check`). */
  function NextEnergy(energy: int, balance: int, delta: int): int {
    SatSub(SatAdd(energy, GrowthDelta(balance, 1)), PenaltyOf(delta))
  }

  /** Per-block oracle over the balance changes of a run of blocks. */
  function Oracle(energy: int, balance: int, deltas: seq<int>): int
    decreases |deltas|
  {
    if deltas == [] then energy
    else Oracle(NextEnergy(energy, balance, deltas[0]), balance + deltas[0], deltas[1..])
  }

  /** A record that is only touched by blocks that change the balance, and read lazily in between. */
  datatype Record = Record(energy: int, balance: int, age: nat)

  function Settle(r: Record): int {
    SatAdd(r.energy, GrowthDelta(r.balance, r.age))
  }

  function Touch(r: Record, delta: int): Record {
    if delta == 0 then r.(age := r.age + 1)
    else
      var grown := Settle(r.(age := r.age + 1));
      Record(SatSub(grown, PenaltyOf(delta)), r.balance + delta, 0)
  }

  function Lazy(r: Record, deltas: seq<int>): Record
    decreases |deltas|
  {
    if deltas == [] then r else Lazy(Touch(r, deltas[0]), deltas[1..])
  }

  lemma GrowthNonNegative(balance: int, n: nat)
    ensures 0 <= GrowthDelta(balance, n) <= U64_MAX
  {
    if balance >= THRESHOLD {
      MulNonNegative(balance * GROWTH, n);
    }
  }

  lemma PenaltyNonNegative(delta: int)
    ensures 0 <= PenaltyOf(delta) <= U64_MAX
  {
  }

  lemma {:induction false} StepwiseInRange(e: int, balance: int, n: nat)
    requires InRange(e)
    ensures InRange(Stepwise(e, balance, n))
  {
    if n > 0 {
      StepwiseInRange(e, balance, n - 1);
      GrowthNonNegative(balance, 1);
    }
  }

  lemma NextEnergyInRange(energy: int, balance: int, delta: int)
    requires InRange(energy)
    ensures InRange(NextEnergy(energy, balance, delta))
  {
    GrowthNonNegative(balance, 1);
    PenaltyNonNegative(delta);
  }

  /** Energy is a 64-bit quantity over every run of blocks. */
  lemma {:induction false} OracleInRange(energy: int, balance: int, deltas: seq<int>)
    requires InRange(energy)
    ensures InRange(Oracle(energy, balance, deltas))
    decreases |deltas|
  {
    if deltas != [] {
      NextEnergyInRange(energy, balance, deltas[0]);
      OracleInRange(NextEnergy(energy, balance, deltas[0]), balance + deltas[0], deltas[1..]);
    }
  }

  lemma TouchIsOneBlock(r: Record, delta: int)
    requires InRange(r.energy)
    ensures var t := Touch(r, delta);
            InRange(t.energy) && Settle(t) == NextEnergy(Settle(r), r.balance, delta) && t.balance == r.balance + delta
  {
    StepwiseIsLazy(r.energy, r.balance, r.age);
    StepwiseIsLazy(r.energy, r.balance, r.age + 1);
    StepwiseInRange(r.energy, r.balance, r.age + 1);
    var t := Touch(r, delta);
    assert Settle(r.(age := r.age + 1)) == SatAdd(Settle(r), GrowthDelta(r.balance, 1));
    if delta != 0 {
      PenaltyNonNegative(delta);
      assert GrowthDelta(t.balance, 0) == 0 by {
        assert t.balance * GROWTH * 0 == 0;
      }
    }
  }

  /** Settling energy lazily, only when a balance changes, agrees with the per-block oracle on every
      run of balance changes. */
  lemma {:induction false} LazyAgreesWithOracle(r: Record, deltas: seq<int>)
    requires InRange(r.energy)
    ensures Settle(Lazy(r, deltas)) == Oracle(Settle(r), r.balance, deltas)
    decreases |deltas|
  {
    if deltas != [] {
      TouchIsOneBlock(r, deltas[0]);
      LazyAgreesWithOracle(Touch(r, deltas[0]), deltas[1..]);
    }
  }

  // ---------------------------------------------------------------- deposits

  /** Holding base + deposit for k blocks and taking the deposit out in the last of them. */
  function AfterDeposit(e: int, base: int, deposit: nat, k: nat): int {
    SatSub(SatAdd(e, GrowthDelta(base + deposit, k)), PenaltyOf(0 - deposit))
  }

  function AfterHolding(e: int, base: int, k: nat): int {
    SatAdd(e, GrowthDelta(base, k))
  }

  /** The two closed forms are what the per-block oracle computes. */
  lemma DepositIsARun(e: int, base: int, deposit: nat, k: nat)
    requires InRange(e) && k > 0
    ensures Stepwise(e, base, k) == AfterHolding(e, base, k)
    ensures NextEnergy(Stepwise(e, base + deposit, k - 1), base + deposit, 0 - deposit) == AfterDeposit(e, base, deposit, k)
  {
    StepwiseIsLazy(e, base, k);
    StepwiseIsLazy(e, base + deposit, k);
  }

  lemma Split(base: int, deposit: nat, k: nat)
    ensures (base + deposit) * GROWTH * k == base * GROWTH * k + deposit * GROWTH * k
    ensures deposit * GROWTH * k == GROWTH * (deposit * k)
  {
    assert (base + deposit) * GROWTH == base * GROWTH + deposit * GROWTH;
    var x, y := base * GROWTH, deposit * GROWTH;
    assert (x + y) * k == x * k + y * k;
    assert deposit * GROWTH * k == GROWTH * (deposit * k);
  }

  lemma DepositGain(deposit: nat, k: nat)
    ensures k <= BREAK_EVEN ==> deposit * GROWTH * k <= deposit * PENALTY
    ensures k > BREAK_EVEN && deposit > 0 ==> deposit * GROWTH * k > deposit * PENALTY
  {
    var d := deposit * GROWTH;
    if k <= BREAK_EVEN {
      assert d * k <= d * BREAK_EVEN by {
        MulNonNegative(d, BREAK_EVEN - k);
        assert d * BREAK_EVEN == d * k + d * (BREAK_EVEN - k);
      }
    } else {
      assert d * k >= d * BREAK_EVEN + d by {
        MulNonNegative(d, k - BREAK_EVEN - 1);
        assert d * k == d * BREAK_EVEN + d + d * (k - BREAK_EVEN - 1);
      }
    }
  }

  /** Short deposits never pay: from a base balance at the threshold or above, a deposit withdrawn
      within 4320 blocks never leaves more energy than no deposit, under full saturation. */
  lemma ShortDepositsNeverPay(e: int, base: int, deposit: nat, k: nat)
    requires InRange(e) && base >= THRESHOLD && k <= BREAK_EVEN
    ensures AfterDeposit(e, base, deposit, k) <= AfterHolding(e, base, k)
  {
    Split(base, deposit, k);
    DepositGain(deposit, k);
    GrowthNonNegative(base, k);
    MulNonNegative(base * GROWTH, k);
    MulNonNegative(deposit * GROWTH, k);
  }

  /** Exactly when a deposit pays from a base at the threshold or above: from the 4321st block on, as
      long as holding and the penalty together stay short of saturation. */
  lemma DepositPaysIffLong(e: int, base: int, deposit: nat, k: nat)
    requires InRange(e) && base >= THRESHOLD && deposit > 0
    ensures AfterDeposit(e, base, deposit, k) > AfterHolding(e, base, k) <==>
              k > BREAK_EVEN && e + base * GROWTH * k + deposit * PENALTY < U64_MAX
  {
    Split(base, deposit, k);
    DepositGain(deposit, k);
    GrowthNonNegative(base, k);
    MulNonNegative(base * GROWTH, k);
    MulNonNegative(deposit * GROWTH, k);
  }

  /** Below the threshold the law fails: a deposit that lifts the balance over the threshold also
      earns on the base, and pays exactly when that outweighs the penalty and the penalty stays short
      of saturation. */
  lemma DepositOverThresholdPaysIff(e: int, base: nat, deposit: nat, k: nat)
    requires InRange(e) && base < THRESHOLD <= base + deposit
    ensures AfterDeposit(e, base, deposit, k) > AfterHolding(e, base, k) <==>
              (base + deposit) * k > deposit * BREAK_EVEN && e + deposit * PENALTY < U64_MAX
  {
    assert (base + deposit) * GROWTH * k == GROWTH * ((base + deposit) * k);
    assert deposit * PENALTY == GROWTH * (deposit * BREAK_EVEN);
    MulNonNegative((base + deposit) * GROWTH, k);
  }

  lemma ShortDepositCanPayBelowThreshold()
    ensures 2161 <= BREAK_EVEN && AfterDeposit(0, 99_999, 100_000, 2161) > AfterHolding(0, 99_999, 2161)
  {
    DepositOverThresholdPaysIff(0, 99_999, 100_000, 2161);
  }

  // ---------------------------------------------------------------- in satoshis and blocks

  /** A balance below 100000 never grows; from there on each satoshi earns 10000 a block, and losing one
      costs 43200000, both up to 2^64 - 1. */
  lemma RatesInNumbers(balance: int, blocks: nat, delta: int)
    ensures balance < 100_000 ==> GrowthDelta(balance, blocks) == 0
    ensures balance >= 100_000 ==>
              GrowthDelta(balance, blocks) == Min(balance * 10_000 * blocks, 18_446_744_073_709_551_615)
    ensures delta >= 0 ==> PenaltyOf(delta) == 0
    ensures delta < 0 ==> PenaltyOf(delta) == Min(-delta * 43_200_000, 18_446_744_073_709_551_615)
  {
  }

  function Min(a: int, b: int): int {
    if a < b then a else b
  }

  /** One block of the oracle: it grows by the balance before the block, then pays for what left, never
      above 2^64 - 1 and never below 0. */
  lemma OneBlockInNumbers(energy: int, balance: int, delta: int)
    requires InRange(energy)
    ensures var grown := Min(energy + (if balance < 100_000 then 0 else balance * 10_000), 18_446_744_073_709_551_615);
            NextEnergy(energy, balance, delta)
              == if delta >= 0 || grown == 0 then grown
                 else if grown > -delta * 43_200_000 then grown - -delta * 43_200_000 else 0
  {
    RatesInNumbers(balance, 1, delta);
    assert balance * 10_000 * 1 == balance * 10_000;
  }
}
