/**
 * Consensus parameters, the staking reward and the stake kernel.
 *
 * Hashing is left to the caller: a kernel check is a predicate on the 32-bit
 * kernel value already taken from the hash.
 */
module Consensus {
  import opened Machine
  import opened Arithmetic
  import opened Sums

  const COIN: nat := 100_000_000
  const MAX_SUPPLY: nat := 20_000_000 * COIN
  const YEAR: nat := 365 * 86400

  datatype Params = Params(
    posAnnualRateBps: u32,
    rewardAgeCap: u64,
    maxStakeAge: u64,
    minStakeAge: u64,
    minStakeAmount: u64,
    targetBlockTime: u64)

  const DEFAULT_PARAMS: Params := Params(500, 6 * 86400, 6 * 86400, 6 * 3600, COIN, 60)

  datatype ParamId = PosAnnualRateBps | RewardAgeCap | MinStakeAge | MaxStakeAge | MinStakeAmount | TargetBlockTime

  /** `ParamId::apply`: the changed parameters, or `None` where the source returns an error and changes nothing. */
  function Apply(id: ParamId, p: Params, value: u64): Option<Params> {
    var next :=
      match id
      case PosAnnualRateBps => if 1 <= value <= 1000 then Some(p.(posAnnualRateBps := value)) else None
      case RewardAgeCap => if 60 <= value <= YEAR then Some(p.(rewardAgeCap := value)) else None
      case MinStakeAge => if 60 <= value <= YEAR then Some(p.(minStakeAge := value)) else None
      case MaxStakeAge => if 60 <= value <= YEAR then Some(p.(maxStakeAge := value)) else None
      case MinStakeAmount => if COIN <= value <= MAX_SUPPLY then Some(p.(minStakeAmount := value)) else None
      case TargetBlockTime => if 30 <= value <= 600 then Some(p.(targetBlockTime := value)) else None;
    if next.Some? && next.value.minStakeAge <= next.value.maxStakeAge then next else None
  }

  /** The parameter an id names. */
  function Field(id: ParamId, p: Params): u64 {
    match id
    case PosAnnualRateBps => p.posAnnualRateBps
    case RewardAgeCap => p.rewardAgeCap
    case MinStakeAge => p.minStakeAge
    case MaxStakeAge => p.maxStakeAge
    case MinStakeAmount => p.minStakeAmount
    case TargetBlockTime => p.targetBlockTime
  }

  /** The least and the greatest value policy allows for each parameter. */
  function Bounds(id: ParamId): (nat, nat) {
    match id
    case PosAnnualRateBps => (1, 1000)
    case MinStakeAmount => (100_000_000, 2_000_000_000_000_000)
    case TargetBlockTime => (30, 600)
    case _ => (60, 31_536_000)
  }

  /** `q` is `p` with the one parameter named by `id` set to `value`. */
  predicate Sets(id: ParamId, p: Params, value: u64, q: Params) {
    Field(id, q) == value && forall other :: other != id ==> Field(other, q) == Field(other, p)
  }

  /** Policy admits the change of `p` to `q`: one parameter set, within its bounds, and the two stake ages in order. */
  predicate Admits(id: ParamId, p: Params, value: u64, q: Params) {
    Bounds(id).0 <= value <= Bounds(id).1 && Sets(id, p, value, q) && q.minStakeAge <= q.maxStakeAge
  }

  /** A change is made exactly if policy admits it, and to exactly the parameters it admits. */
  lemma ApplyExactly(id: ParamId, p: Params, value: u64)
    ensures forall q :: Apply(id, p, value) == Some(q) <==> Admits(id, p, value, q)
  {
    forall q ensures Apply(id, p, value) == Some(q) <==> Admits(id, p, value, q) {
      if Sets(id, p, value, q) {
        FieldsDecide(id, p, value, q);
      }
    }
  }

  lemma FieldsDecide(id: ParamId, p: Params, value: u64, q: Params)
    requires Sets(id, p, value, q)
    ensures Apply(id, p, value) == Some(q) <==> Bounds(id).0 <= value <= Bounds(id).1 && q.minStakeAge <= q.maxStakeAge
  {
    assert Field(PosAnnualRateBps, q) == if id == PosAnnualRateBps then value else p.posAnnualRateBps;
    assert Field(RewardAgeCap, q) == if id == RewardAgeCap then value else p.rewardAgeCap;
    assert Field(MinStakeAge, q) == if id == MinStakeAge then value else p.minStakeAge;
    assert Field(MaxStakeAge, q) == if id == MaxStakeAge then value else p.maxStakeAge;
    assert Field(MinStakeAmount, q) == if id == MinStakeAmount then value else p.minStakeAmount;
    assert Field(TargetBlockTime, q) == if id == TargetBlockTime then value else p.targetBlockTime;
  }

  /** Which parameter each id changes, on the default parameters. */
  lemma ApplyByName()
    ensures Apply(PosAnnualRateBps, DEFAULT_PARAMS, 77) == Some(Params(77, 518_400, 518_400, 21_600, 100_000_000, 60))
    ensures Apply(RewardAgeCap, DEFAULT_PARAMS, 77) == Some(Params(500, 77, 518_400, 21_600, 100_000_000, 60))
    ensures Apply(MaxStakeAge, DEFAULT_PARAMS, 30_000) == Some(Params(500, 518_400, 30_000, 21_600, 100_000_000, 60))
    ensures Apply(MaxStakeAge, DEFAULT_PARAMS, 20_000) == None
    ensures Apply(MinStakeAge, DEFAULT_PARAMS, 30_000) == Some(Params(500, 518_400, 518_400, 30_000, 100_000_000, 60))
    ensures Apply(MinStakeAge, DEFAULT_PARAMS, 600_000) == None
    ensures Apply(MinStakeAmount, DEFAULT_PARAMS, 700_000_000) == Some(Params(500, 518_400, 518_400, 21_600, 700_000_000, 60))
    ensures Apply(TargetBlockTime, DEFAULT_PARAMS, 77) == Some(Params(500, 518_400, 518_400, 21_600, 100_000_000, 77))
  {
  }

  /** The ranges the governance policy allows, including the order of the two stake ages. */
  predicate InRange(p: Params) {
    && 1 <= p.posAnnualRateBps <= 1000
    && 60 <= p.rewardAgeCap <= YEAR
    && 60 <= p.minStakeAge <= p.maxStakeAge <= YEAR
    && COIN <= p.minStakeAmount <= MAX_SUPPLY
    && 30 <= p.targetBlockTime <= 600
  }

  datatype Change = Change(id: ParamId, value: u64)

  /** Apply a list of changes in turn; a rejected change leaves the parameters as they were. */
  function ApplyAll(p: Params, changes: seq<Change>): Params
    decreases |changes|
  {
    if changes == [] then p
    else
      var r := Apply(changes[0].id, p, changes[0].value);
      ApplyAll(if r.Some? then r.value else p, changes[1..])
  }

  lemma {:induction false} ApplyAllStaysInRange(p: Params, changes: seq<Change>)
    requires InRange(p)
    ensures InRange(ApplyAll(p, changes))
    decreases |changes|
  {
    if changes != [] {
      var r := Apply(changes[0].id, p, changes[0].value);
      ApplyAllStaysInRange(if r.Some? then r.value else p, changes[1..]);
    }
  }

  /** Changes that lead from the default to `q`, moving the two ages in an order that never crosses them. */
  function Route(q: Params): seq<Change> {
    var low, high := Change(MinStakeAge, q.minStakeAge), Change(MaxStakeAge, q.maxStakeAge);
    [Change(PosAnnualRateBps, q.posAnnualRateBps), Change(RewardAgeCap, q.rewardAgeCap),
     Change(MinStakeAmount, q.minStakeAmount), Change(TargetBlockTime, q.targetBlockTime)]
    + (if q.minStakeAge <= DEFAULT_PARAMS.maxStakeAge then [low, high] else [high, low])
  }

  lemma ApplyAllStep(p: Params, changes: seq<Change>)
    requires changes != [] && Apply(changes[0].id, p, changes[0].value).Some?
    ensures ApplyAll(p, changes) == ApplyAll(Apply(changes[0].id, p, changes[0].value).value, changes[1..])
  {
  }

  lemma RouteReaches(q: Params)
    requires InRange(q)
    ensures ApplyAll(DEFAULT_PARAMS, Route(q)) == q
  {
    var r := Route(q);
    var p1 := DEFAULT_PARAMS.(posAnnualRateBps := q.posAnnualRateBps);
    var p2 := p1.(rewardAgeCap := q.rewardAgeCap);
    var p3 := p2.(minStakeAmount := q.minStakeAmount);
    var p4 := p3.(targetBlockTime := q.targetBlockTime);
    ApplyAllStep(DEFAULT_PARAMS, r);
    ApplyAllStep(p1, r[1..]);
    ApplyAllStep(p2, r[2..]);
    ApplyAllStep(p3, r[3..]);
    assert r[1..][1..] == r[2..] && r[2..][1..] == r[3..] && r[3..][1..] == r[4..] && r[4..][1..] == r[5..];
    ApplyAllStep(p4, r[4..]);
    if q.minStakeAge <= DEFAULT_PARAMS.maxStakeAge {
      ApplyAllStep(p4.(minStakeAge := q.minStakeAge), r[5..]);
    } else {
      ApplyAllStep(p4.(maxStakeAge := q.maxStakeAge), r[5..]);
    }
    assert r[5..][1..] == [];
  }

  /** The parameter sets governance can reach from the default are exactly those within the allowed ranges. */
  lemma ReachableParamsExactly(q: Params)
    ensures (exists changes :: ApplyAll(DEFAULT_PARAMS, changes) == q) <==> InRange(q)
  {
    forall changes | ApplyAll(DEFAULT_PARAMS, changes) == q ensures InRange(q) {
      ApplyAllStaysInRange(DEFAULT_PARAMS, changes);
    }
    if InRange(q) {
      RouteReaches(q);
    }
  }

  lemma MulRotate(a: nat, b: nat, c: nat)
    ensures a * b * c == (b * c) * a
  {
  }

  // ---------------------------------------------------------------- reward

  const REWARD_DENOMINATOR: nat := 10_000 * 86400 * 365

  function RewardNumerator(p: Params, stake: nat, age: nat): nat {
    stake * Min(age, p.rewardAgeCap) * p.posAnnualRateBps
  }

  /** `compute_pos_reward_with`: a 128-bit quotient cast to 64 bits, so it wraps if it does not fit. */
  function Reward(p: Params, stake: u64, age: u64): u64 {
    (RewardNumerator(p, stake, age) / REWARD_DENOMINATOR) % (U64_MAX + 1)
  }

  lemma NumeratorBound(p: Params, stake: nat, age: nat)
    requires InRange(p)
    ensures 10 * RewardNumerator(p, stake, age) <= stake * REWARD_DENOMINATOR
  {
    var a, b := Min(age, p.rewardAgeCap), p.posAnnualRateBps;
    MulLe(a, YEAR, b);
    MulLe(b, 1000, YEAR);
    MulLe(a * b, YEAR * 1000, stake);
    MulRotate(stake, a, b);
  }

  /**
   * Under every parameter set governance can reach, the 128-bit product does not overflow, the final cast
   * loses nothing, and the reward is at most a tenth of the stake.
   */
  lemma RewardIsExactAndBounded(p: Params, stake: u64, age: u64)
    requires InRange(p)
    ensures RewardNumerator(p, stake, age) <= U128_MAX
    ensures Reward(p, stake, age) == (stake * Min(age, p.rewardAgeCap) * p.posAnnualRateBps) / 315_360_000_000
    ensures 10 * Reward(p, stake, age) <= stake
  {
    NumeratorBound(p, stake, age);
    var n := RewardNumerator(p, stake, age);
    assert stake * REWARD_DENOMINATOR <= U64_MAX * REWARD_DENOMINATOR;
    var q := n / REWARD_DENOMINATOR;
    assert q * REWARD_DENOMINATOR <= n;
    assert 10 * q * REWARD_DENOMINATOR <= stake * REWARD_DENOMINATOR;
    assert 10 * q <= stake;
  }

  /** A stake held for a year under an age cap of a year earns its annual rate. */
  lemma RewardOfAYear(p: Params, stake: u64, age: u64)
    requires InRange(p) && p.rewardAgeCap == 31_536_000 <= age
    ensures Reward(p, stake, age) == stake * p.posAnnualRateBps / 10_000
  {
    RewardIsExactAndBounded(p, stake, age);
    var n := stake * p.posAnnualRateBps;
    MulRotate(31_536_000, stake, p.posAnnualRateBps);
    assert RewardNumerator(p, stake, age) == n * 31_536_000 by {
      assert stake * 31_536_000 * p.posAnnualRateBps == n * 31_536_000;
    }
    ScaledQuotient(n, 10_000, 31_536_000);
  }

  lemma ScaledQuotient(n: nat, d: nat, k: nat)
    requires d > 0 && k > 0
    ensures d * k > 0 && (n * k) / (d * k) == n / d
  {
    var q, r := n / d, n % d;
    assert n == q * d + r;
    assert d * k > 0;
    assert n * k == q * (d * k) + r * k;
    MulLe(r + 1, d, k);
    assert r * k < d * k;
    DivisionIs(n * k, d * k, q, r * k);
  }

  lemma DivisionIs(n: nat, d: nat, q: nat, r: nat)
    requires d > 0 && n == q * d + r && r < d
    ensures n / d == q
  {
    QuotientTest(q, d, n);
    QuotientTest(q + 1, d, n);
    assert (q + 1) * d == q * d + d;
  }

  lemma QuotientTest(kernel: nat, total: nat, bound: nat)
    requires total > 0
    ensures kernel * total <= bound <==> kernel <= bound / total
  {
    if kernel <= bound / total {
      assert kernel * total <= (bound / total) * total;
    } else {
      assert (bound / total + 1) * total <= kernel * total;
    }
  }

  lemma FloorSuperadditive(a: nat, b: nat, d: nat)
    requires d > 0
    ensures a / d + b / d <= (a + b) / d
  {
    assert (a / d + b / d) * d <= a + b;
    QuotientTest(a / d + b / d, d, a + b);
  }

  /** Total reward of stakes that all have the same age. */
  function TotalReward(p: Params, parts: seq<u64>, age: u64): nat {
    if parts == [] then 0 else Reward(p, parts[0], age) + TotalReward(p, parts[1..], age)
  }

  /** Cutting one stake into any number of parts never earns more than leaving it whole. */
  lemma {:induction false} SplittingNeverPays(p: Params, parts: seq<u64>, age: u64)
    requires InRange(p) && SeqSum(parts) <= U64_MAX
    ensures TotalReward(p, parts, age) <= Reward(p, SeqSum(parts), age)
  {
    if parts != [] {
      var rest := SeqSum(parts[1..]);
      SplittingNeverPays(p, parts[1..], age);
      RewardIsExactAndBounded(p, parts[0], age);
      RewardIsExactAndBounded(p, rest, age);
      RewardIsExactAndBounded(p, parts[0] + rest, age);
      NumeratorAdds(p, parts[0], rest, age);
      FloorSuperadditive(RewardNumerator(p, parts[0], age), RewardNumerator(p, rest, age), REWARD_DENOMINATOR);
    }
  }

  lemma NumeratorAdds(p: Params, a: nat, b: nat, age: nat)
    ensures RewardNumerator(p, a + b, age) == RewardNumerator(p, a, age) + RewardNumerator(p, b, age)
  {
    var m, r := Min(age, p.rewardAgeCap), p.posAnnualRateBps;
    assert (a + b) * m * r == (a * m + b * m) * r;
  }

  // ---------------------------------------------------------------- kernel

  const KERNEL_SPACE: nat := 0x1_0000_0000

  /** `check_stake_kernel`, the historical rule with its saturating target. */
  predicate WinsV1(value: u64, kernel: u32) {
    kernel <= Min(value / 1000, U32_MAX)
  }

  /** `check_stake_kernel_v2`. */
  predicate WinsV2(value: u64, kernel: u32, totalStaked: u64) {
    totalStaked != 0 && kernel * totalStaked <= value * KERNEL_SPACE
  }

  /** The kernel values that win for a stake. */
  ghost function Winners(value: u64, totalStaked: u64): set<u32> {
    set k: u32 | 0 <= k <= U32_MAX && WinsV2(value, k, totalStaked)
  }

  predicate Under(k: nat, n: nat) { k < n }

  ghost function Below(n: nat): set<u32>
    requires n <= KERNEL_SPACE
  {
    set k: u32 | 0 <= k <= U32_MAX && Under(k, n)
  }

  lemma {:induction false} BelowCount(n: nat)
    requires n <= KERNEL_SPACE
    ensures |Below(n)| == n
  {
    if n > 0 {
      BelowCount(n - 1);
      assert Below(n) == Below(n - 1) + {n - 1};
    } else {
      assert Below(0) == {};
    }
  }

  /** Exactly this many of the 2^32 kernel values win. */
  lemma WinnersCount(value: u64, totalStaked: u64)
    requires totalStaked > 0
    ensures |Winners(value, totalStaked)| == Min(KERNEL_SPACE, value * KERNEL_SPACE / totalStaked + 1)
  {
    var n := Min(KERNEL_SPACE, value * KERNEL_SPACE / totalStaked + 1);
    forall k: u32 ensures k in Winners(value, totalStaked) <==> k in Below(n) {
      QuotientTest(k, totalStaked, value * KERNEL_SPACE);
    }
    assert Winners(value, totalStaked) == Below(n);
    BelowCount(n);
  }

  ghost function TotalWinners(stakes: seq<u64>, totalStaked: u64): nat {
    if stakes == [] then 0 else |Winners(stakes[0], totalStaked)| + TotalWinners(stakes[1..], totalStaked)
  }

  lemma {:induction false} TotalWinnersAtMost(stakes: seq<u64>, totalStaked: u64)
    requires totalStaked > 0
    ensures TotalWinners(stakes, totalStaked) <= SeqSum(stakes) * KERNEL_SPACE / totalStaked + |stakes|
  {
    if stakes != [] {
      TotalWinnersAtMost(stakes[1..], totalStaked);
      WinnersCount(stakes[0], totalStaked);
      FloorSuperadditive(stakes[0] * KERNEL_SPACE, SeqSum(stakes[1..]) * KERNEL_SPACE, totalStaked);
    }
  }

  lemma {:induction false} TotalWinnersAtLeast(stakes: seq<u64>, totalStaked: u64)
    requires totalStaked > 0 && SeqSum(stakes) <= totalStaked
    ensures SeqSum(stakes) * KERNEL_SPACE <= TotalWinners(stakes, totalStaked) * totalStaked
  {
    if stakes != [] {
      TotalWinnersAtLeast(stakes[1..], totalStaked);
      EnoughWinners(stakes[0], totalStaked);
      Distribute(|Winners(stakes[0], totalStaked)|, TotalWinners(stakes[1..], totalStaked), totalStaked);
    }
  }

  lemma Distribute(a: nat, b: nat, c: nat)
    ensures (a + b) * c == a * c + b * c
  {
  }

  lemma EnoughWinners(value: u64, totalStaked: u64)
    requires 0 < totalStaked && value <= totalStaked
    ensures value * KERNEL_SPACE <= |Winners(value, totalStaked)| * totalStaked
  {
    WinnersCount(value, totalStaked);
    var q := value * KERNEL_SPACE / totalStaked;
    if q + 1 <= KERNEL_SPACE {
      assert value * KERNEL_SPACE < (q + 1) * totalStaked;
    } else {
      assert value * KERNEL_SPACE <= totalStaked * KERNEL_SPACE;
    }
  }

  /**
   * Stakers that together hold the whole staked supply win between 2^32 and 2^32 + k kernel values in all,
   * where k is how many stakes it is cut into; stakers holding less never win more than that.
   */
  lemma KernelSharesAddUp(stakes: seq<u64>, totalStaked: u64)
    requires totalStaked > 0 && SeqSum(stakes) <= totalStaked
    ensures TotalWinners(stakes, totalStaked) <= KERNEL_SPACE + |stakes|
    ensures SeqSum(stakes) == totalStaked ==> KERNEL_SPACE <= TotalWinners(stakes, totalStaked)
  {
    TotalWinnersAtMost(stakes, totalStaked);
    TotalWinnersAtLeast(stakes, totalStaked);
    QuotientTest(KERNEL_SPACE + 1, totalStaked, SeqSum(stakes) * KERNEL_SPACE);
    if TotalWinners(stakes, totalStaked) < KERNEL_SPACE {
      MulLe(TotalWinners(stakes, totalStaked), KERNEL_SPACE - 1, totalStaked);
    }
  }

  /**
   * A stake that wins every time need not be the whole supply: it wins every time exactly when what it
   * lacks is at most one part in 2^32 of the supply.
   */
  lemma AlwaysWinsExactly(value: u64, totalStaked: u64)
    requires 0 < totalStaked
    ensures (forall k: u32 :: WinsV2(value, k, totalStaked)) <==> U32_MAX * totalStaked <= value * KERNEL_SPACE
  {
    if U32_MAX * totalStaked <= value * KERNEL_SPACE {
      forall k: u32 ensures WinsV2(value, k, totalStaked) {
        assert k * totalStaked <= U32_MAX * totalStaked;
      }
    } else {
      assert !WinsV2(value, U32_MAX, totalStaked);
    }
  }

  /** The documented claim that only the entire supply always wins is not met: here one unit is missing. */
  lemma AlwaysWinsWithoutWholeSupply()
    ensures forall k: u32 :: WinsV2(0xFFFF_FFFF, k, 0x1_0000_0000)
  {
    AlwaysWinsExactly(0xFFFF_FFFF, 0x1_0000_0000);
  }

  /** The new rule accepts every block the old one did exactly while the staked supply is at most 1000 * 2^32. */
  lemma V2AcceptsV1Exactly(totalStaked: u64)
    requires totalStaked > 0
    ensures (forall value: u64, kernel: u32 :: WinsV1(value, kernel) ==> WinsV2(value, kernel, totalStaked))
       <==> totalStaked <= 1000 * KERNEL_SPACE
  {
    if totalStaked <= 1000 * KERNEL_SPACE {
      forall value: u64, kernel: u32 | WinsV1(value, kernel) ensures WinsV2(value, kernel, totalStaked) {
        assert kernel * totalStaked <= kernel * (1000 * KERNEL_SPACE);
        assert 1000 * kernel <= value;
      }
    } else {
      assert WinsV1(1000, 1) && !WinsV2(1000, 1, totalStaked);
    }
  }
}
