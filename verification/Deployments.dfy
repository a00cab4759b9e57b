/** Version-bit deployments: `deployment_state`, `count_signals` and the activation of governance. */
module Deployments {
  import opened Machine
  import opened Arithmetic

  datatype Deployment = Deployment(bit: nat, startHeight: u32, timeoutHeight: u32)

  datatype DeploymentState = Defined | Started | LockedIn | Active | Failed

  const THRESHOLD_PCT: u32 := 90

  /** Whether a block version signals a bit. */
  predicate Signals(bit: nat, version: u32) {
    version / Pow2(bit) % 2 == 1
  }

  /** A version signals a bit exactly if that bit is set in its binary form. */
  lemma SignalsExactly(bit: nat, version: u32, high: nat, set': bool, low: nat)
    requires low < Pow2(bit) && version == (2 * high + if set' then 1 else 0) * Pow2(bit) + low
    ensures Signals(bit, version) <==> set'
  {
    var q := 2 * high + if set' then 1 else 0;
    QuotientIs(version, Pow2(bit), q, low);
  }

  lemma QuotientIs(n: nat, d: nat, q: nat, r: nat)
    requires d > 0 && n == q * d + r && r < d
    ensures n / d == q
  {
    PeriodOver(n, d, q);
    PeriodOver(n, d, q + 1);
    assert (q + 1) * d == q * d + d;
  }

  function SatMul(a: nat, b: nat): u32 { Min(a * b, U32_MAX) }

  /** The threshold test as the code makes it, with both sides saturating. */
  predicate Meets(signalled: nat, period: u32, pct: u32) {
    SatMul(signalled, 100) >= SatMul(period, pct)
  }

  function CeilDiv(a: nat, b: nat): nat
    requires b > 0
  {
    (a + b - 1) / b
  }

  function CountAt(counts: seq<nat>, p: nat): nat { if p < |counts| then counts[p] else 0 }

  /** A period that is completed, ends before the timeout and reaches the threshold. */
  predicate Locks(d: Deployment, period: u32, pct: u32, tip: nat, counts: seq<nat>, p: nat)
    requires period > 0
  {
    && p <= SatSub(tip / period, 1)
    && (p + 1) * period < d.timeoutHeight
    && Meets(CountAt(counts, p), period, pct)
  }

  ghost predicate FirstLock(d: Deployment, period: u32, pct: u32, tip: nat, counts: seq<nat>, p: nat)
    requires period > 0
  {
    && CeilDiv(d.startHeight, period) <= p
    && Locks(d, period, pct, tip, counts, p)
    && forall q :: CeilDiv(d.startHeight, period) <= q < p ==> !Locks(d, period, pct, tip, counts, q)
  }

  ghost predicate NoLock(d: Deployment, period: u32, pct: u32, tip: nat, counts: seq<nat>)
    requires period > 0
  {
    forall q :: CeilDiv(d.startHeight, period) <= q ==> !Locks(d, period, pct, tip, counts, q)
  }

  lemma PeriodsGrow(p: nat, q: nat, period: nat)
    requires p <= q
    ensures (p + 1) * period <= (q + 1) * period
  {
  }

  /** The state a deployment has, as a relation; `StateUnique` says there is only one. */
  ghost predicate HasState(d: Deployment, period: u32, pct: u32, tip: nat, counts: seq<nat>, r: DeploymentState) {
    if period == 0 || pct == 0 || pct > 100 || tip < d.startHeight then r == Defined
    else if r == Active || r == LockedIn then
      exists p: nat :: FirstLock(d, period, pct, tip, counts, p) && r == if p + 2 <= tip / period then Active else LockedIn
    else NoLock(d, period, pct, tip, counts) && r == if d.timeoutHeight <= tip then Failed else Started
  }

  lemma StateUnique(d: Deployment, period: u32, pct: u32, tip: nat, counts: seq<nat>, a: DeploymentState, b: DeploymentState)
    requires HasState(d, period, pct, tip, counts, a) && HasState(d, period, pct, tip, counts, b)
    ensures a == b
  {
    if !(period == 0 || pct == 0 || pct > 100 || tip < d.startHeight) && (a == Active || a == LockedIn) {
      var p: nat :| FirstLock(d, period, pct, tip, counts, p) && a == if p + 2 <= tip / period then Active else LockedIn;
      LockSettles(d, period, pct, tip, counts, b, p);
    }
  }

  /** `deployment_state`. */
  method StateOf(d: Deployment, period: u32, pct: u32, tip: nat, counts: seq<nat>) returns (r: DeploymentState)
    ensures HasState(d, period, pct, tip, counts, r)
  {
    if period == 0 || pct == 0 || pct > 100 { return Defined; }
    if tip < d.startHeight { return Defined; }
    var tipPeriod := tip / period;
    var lockedIn := LockInAt(d, period, pct, tip, counts);
    match lockedIn {
      case Some(lip) =>
        return if tipPeriod >= lip + 2 then Active else LockedIn;
      case None =>
        return if tip >= d.timeoutHeight then Failed else Started;
    }
  }

  /** The loop of `deployment_state`: the first period to lock in, if any. */
  method LockInAt(d: Deployment, period: u32, pct: u32, tip: nat, counts: seq<nat>) returns (lockedIn: Option<nat>)
    requires period > 0
    ensures match lockedIn
            case Some(p) => FirstLock(d, period, pct, tip, counts, p)
            case None => NoLock(d, period, pct, tip, counts)
  {
    var startPeriod := CeilDiv(d.startHeight, period);
    var lastCompleted := SatSub(tip / period, 1);
    var p := startPeriod;
    while p <= lastCompleted && (p + 1) * period < d.timeoutHeight
      invariant startPeriod <= p
      invariant forall q :: startPeriod <= q < p ==> !Locks(d, period, pct, tip, counts, q)
    {
      if Meets(CountAt(counts, p), period, pct) {
        assert Locks(d, period, pct, tip, counts, p);
        return Some(p);
      }
      p := p + 1;
    }
    forall q | startPeriod <= q ensures !Locks(d, period, pct, tip, counts, q) {
      if p <= q { PeriodsGrow(p, q, period); }
    }
    return None;
  }

  // ------------------------------------------------------------- signal counts

  /** How many of the first `h` blocks lie in period `p` and signal. */
  ghost function SignalsBelow(versions: seq<u32>, bit: nat, period: nat, p: nat, h: nat): nat
    requires period > 0 && h <= |versions|
  {
    if h == 0 then 0
    else SignalsBelow(versions, bit, period, p, h - 1) + if (h - 1) / period == p && Signals(bit, versions[h - 1]) then 1 else 0
  }

  lemma PeriodOver(k: nat, period: nat, p: nat)
    requires period > 0
    ensures p * period <= k <==> p <= k / period
  {
    if p <= k / period {
      MulLe(p, k / period, period);
    } else {
      MulLe(k / period + 1, p, period);
    }
  }

  lemma SamePeriodOrder(a: nat, b: nat, period: nat)
    requires period > 0 && a <= b
    ensures a / period <= b / period
  {
    if b / period < a / period {
      MulLe(b / period + 1, a / period, period);
    }
  }

  /** `count_signals`: for every period, how many main-chain blocks of it signal. */
  method CountSignals(versions: seq<u32>, bit: nat, period: nat) returns (counts: seq<nat>)
    requires versions != []
    ensures period == 0 ==> counts == []
    ensures period > 0 ==> |counts| == (|versions| - 1) / period + 1
    ensures period > 0 ==> forall p :: 0 <= p < |counts| ==> counts[p] == SignalsBelow(versions, bit, period, p, |versions|)
    ensures period > 0 ==> counts == CountsOf(versions, bit, period)
  {
    if period == 0 { return []; }
    counts := seq((|versions| - 1) / period + 1, _ => 0);
    var h := 0;
    while h < |versions|
      invariant 0 <= h <= |versions|
      invariant |counts| == (|versions| - 1) / period + 1
      invariant forall p :: 0 <= p < |counts| ==> counts[p] == SignalsBelow(versions, bit, period, p, h)
    {
      SamePeriodOrder(h, |versions| - 1, period);
      if Signals(bit, versions[h]) {
        counts := counts[h / period := counts[h / period] + 1];
      }
      h := h + 1;
    }
  }

  /** The counts the chain passes on. */
  ghost function CountsOf(versions: seq<u32>, bit: nat, period: nat): seq<nat>
    requires period > 0 && versions != []
  {
    seq((|versions| - 1) / period + 1, p requires p >= 0 => SignalsBelow(versions, bit, period, p, |versions|))
  }

  lemma {:induction false} NothingAhead(versions: seq<u32>, bit: nat, period: nat, p: nat, h: nat)
    requires period > 0 && h <= |versions| && (h == 0 || (h - 1) / period < p)
    ensures SignalsBelow(versions, bit, period, p, h) == 0
  {
    if h > 1 {
      SamePeriodOrder(h - 2, h - 1, period);
      NothingAhead(versions, bit, period, p, h - 1);
    }
  }

  lemma CountsOfAt(versions: seq<u32>, bit: nat, period: nat, p: nat)
    requires period > 0 && versions != []
    ensures CountAt(CountsOf(versions, bit, period), p) == SignalsBelow(versions, bit, period, p, |versions|)
  {
    if p > (|versions| - 1) / period {
      NothingAhead(versions, bit, period, p, |versions|);
    }
  }

  lemma {:induction false} SignalsPrefix(versions: seq<u32>, n: nat, bit: nat, period: nat, p: nat, h: nat)
    requires period > 0 && h <= n <= |versions|
    ensures SignalsBelow(versions[..n], bit, period, p, h) == SignalsBelow(versions, bit, period, p, h)
  {
    if h > 0 {
      SignalsPrefix(versions, n, bit, period, p, h - 1);
    }
  }

  /** Counts only grow, and no longer change once the period is over. */
  lemma {:induction false} SignalsSettle(versions: seq<u32>, bit: nat, period: nat, p: nat, n: nat, m: nat)
    requires period > 0 && n <= m <= |versions|
    ensures SignalsBelow(versions, bit, period, p, n) <= SignalsBelow(versions, bit, period, p, m)
    ensures (p + 1) * period <= n ==> SignalsBelow(versions, bit, period, p, n) == SignalsBelow(versions, bit, period, p, m)
    decreases m - n
  {
    if n < m {
      SignalsSettle(versions, bit, period, p, n, m - 1);
      PeriodOver(m - 1, period, p + 1);
    }
  }

  // -------------------------------------------------------- append-only chains

  /** What locks in after the first `n` blocks, looking at period `p`. */
  ghost predicate LocksAfter(d: Deployment, period: u32, pct: u32, versions: seq<u32>, n: nat, p: nat)
    requires period > 0 && n <= |versions|
  {
    && p <= SatSub(n / period, 1)
    && (p + 1) * period < d.timeoutHeight
    && Meets(SignalsBelow(versions, d.bit, period, p, n), period, pct)
  }

  /** The state the chain reports for block `n`, having the `n` blocks before it. */
  ghost predicate ChainState(d: Deployment, period: u32, pct: u32, versions: seq<u32>, n: nat, r: DeploymentState)
    requires 0 < period && 0 < n <= |versions|
  {
    HasState(d, period, pct, n, CountsOf(versions[..n], d.bit, period), r)
  }

  ghost predicate FirstAfter(d: Deployment, period: u32, pct: u32, versions: seq<u32>, n: nat, p: nat)
    requires period > 0 && n <= |versions|
  {
    && CeilDiv(d.startHeight, period) <= p && LocksAfter(d, period, pct, versions, n, p)
    && forall q :: CeilDiv(d.startHeight, period) <= q < p ==> !LocksAfter(d, period, pct, versions, n, q)
  }

  lemma LocksAgree(d: Deployment, period: u32, pct: u32, versions: seq<u32>, n: nat, p: nat)
    requires period > 0 && 0 < n <= |versions|
    ensures Locks(d, period, pct, n, CountsOf(versions[..n], d.bit, period), p) <==> LocksAfter(d, period, pct, versions, n, p)
  {
    CountsOfAt(versions[..n], d.bit, period, p);
    SignalsPrefix(versions, n, d.bit, period, p, n);
  }

  lemma FirstAgrees(d: Deployment, period: u32, pct: u32, versions: seq<u32>, n: nat, p: nat)
    requires period > 0 && 0 < n <= |versions|
    ensures FirstLock(d, period, pct, n, CountsOf(versions[..n], d.bit, period), p) <==> FirstAfter(d, period, pct, versions, n, p)
  {
    forall q: nat ensures Locks(d, period, pct, n, CountsOf(versions[..n], d.bit, period), q) <==> LocksAfter(d, period, pct, versions, n, q) {
      LocksAgree(d, period, pct, versions, n, q);
    }
  }

  /** A period below another one that counts as completed is itself over. */
  lemma EarlierIsOver(n: nat, period: nat, q: nat)
    requires period > 0 && q + 1 <= n / period
    ensures (q + 1) * period <= n
  {
    MulLe(q + 1, n / period, period);
  }

  lemma MoreMeets(a: nat, b: nat, period: u32, pct: u32)
    requires a <= b
    ensures Meets(a, period, pct) ==> Meets(b, period, pct)
  {
  }

  lemma LocksPersist(d: Deployment, period: u32, pct: u32, versions: seq<u32>, n: nat, m: nat, p: nat)
    requires period > 0 && n <= m <= |versions|
    ensures LocksAfter(d, period, pct, versions, n, p) ==> LocksAfter(d, period, pct, versions, m, p)
    ensures (p + 1) * period <= n && LocksAfter(d, period, pct, versions, m, p) ==> LocksAfter(d, period, pct, versions, n, p)
  {
    SignalsSettle(versions, d.bit, period, p, n, m);
    SamePeriodOrder(n, m, period);
    PeriodOver(n, period, p + 1);
    MoreMeets(SignalsBelow(versions, d.bit, period, p, n), SignalsBelow(versions, d.bit, period, p, m), period, pct);
  }

  lemma FirstPersists(d: Deployment, period: u32, pct: u32, versions: seq<u32>, n: nat, m: nat, p: nat)
    requires period > 0 && n <= m <= |versions| && FirstAfter(d, period, pct, versions, n, p)
    ensures FirstAfter(d, period, pct, versions, m, p)
  {
    LocksPersist(d, period, pct, versions, n, m, p);
    forall q | CeilDiv(d.startHeight, period) <= q < p ensures !LocksAfter(d, period, pct, versions, m, q) {
      EarlierIsOver(n, period, q);
      LocksPersist(d, period, pct, versions, n, m, q);
    }
  }

  /** The order of states: nothing moves back, and the last two are final. */
  predicate Forward(a: DeploymentState, b: DeploymentState) {
    match a
    case Defined => true
    case Started => b != Defined
    case LockedIn => b == LockedIn || b == Active
    case Active => b == Active
    case Failed => b == Failed
  }

  /** On an append-only chain the state only moves forward, whatever the start height, period and threshold. */
  lemma DeploymentMovesForward(d: Deployment, period: u32, pct: u32, versions: seq<u32>, n: nat, m: nat, a: DeploymentState, b: DeploymentState)
    requires 0 < period && 0 < n <= m <= |versions|
    requires ChainState(d, period, pct, versions, n, a) && ChainState(d, period, pct, versions, m, b)
    ensures Forward(a, b)
  {
    var counts, counts' := CountsOf(versions[..n], d.bit, period), CountsOf(versions[..m], d.bit, period);
    if a == LockedIn || a == Active {
      var p: nat :| FirstLock(d, period, pct, n, counts, p) && a == if p + 2 <= n / period then Active else LockedIn;
      FirstAgrees(d, period, pct, versions, n, p);
      FirstPersists(d, period, pct, versions, n, m, p);
      FirstAgrees(d, period, pct, versions, m, p);
      SamePeriodOrder(n, m, period);
      LockSettles(d, period, pct, m, counts', b, p);
    } else if a == Failed && (b == LockedIn || b == Active) {
      var p: nat :| FirstLock(d, period, pct, m, counts', p);
      LocksAgree(d, period, pct, versions, m, p);
      LocksPersist(d, period, pct, versions, n, m, p);
      LocksAgree(d, period, pct, versions, n, p);
      assert false;
    }
  }

  /** On a longer chain an active deployment is still active. */
  lemma ActiveIsFinal(d: Deployment, period: u32, pct: u32, versions: seq<u32>, n: nat, m: nat)
    requires 0 < period && 0 < n <= m <= |versions|
    requires ChainState(d, period, pct, versions, n, Active)
    ensures ChainState(d, period, pct, versions, m, Active)
  {
    var p: nat :| FirstLock(d, period, pct, n, CountsOf(versions[..n], d.bit, period), p) && p + 2 <= n / period;
    FirstAgrees(d, period, pct, versions, n, p);
    FirstPersists(d, period, pct, versions, n, m, p);
    FirstAgrees(d, period, pct, versions, m, p);
    SamePeriodOrder(n, m, period);
  }

  /** Once a first lock-in is known, it settles the state. */
  lemma LockSettles(d: Deployment, period: u32, pct: u32, tip: nat, counts: seq<nat>, r: DeploymentState, p: nat)
    requires period > 0 && 0 < pct <= 100 && d.startHeight <= tip
    requires HasState(d, period, pct, tip, counts, r) && FirstLock(d, period, pct, tip, counts, p)
    ensures r == if p + 2 <= tip / period then Active else LockedIn
  {
    if r == Active || r == LockedIn {
      var q: nat :| FirstLock(d, period, pct, tip, counts, q) && r == if q + 2 <= tip / period then Active else LockedIn;
      assert !(p < q) && !(q < p);
    }
  }

  /** Period `p` reached the threshold in time, and the whole chain agrees on when that locks in and activates. */
  ghost predicate LockInPeriod(d: Deployment, period: u32, pct: u32, versions: seq<u32>, p: nat)
    requires period > 0
  {
    && CeilDiv(d.startHeight, period) <= p
    && (p + 1) * period <= |versions| && (p + 1) * period < d.timeoutHeight
    && Meets(SignalsBelow(versions, d.bit, period, p, (p + 1) * period), period, pct)
    && forall k: nat, b :: 0 < k <= |versions| && ChainState(d, period, pct, versions, k, b) ==>
         b == if k < (p + 1) * period then BeforeLockIn(d, k) else if k < (p + 2) * period then LockedIn else Active
  }

  function BeforeLockIn(d: Deployment, k: nat): DeploymentState { if k < d.startHeight then Defined else Started }

  /**
   * With a start height of at least 1, a chain that has locked in or activated did so because of one completed
   * period that reached the threshold and ended before the timeout; it was locked in for exactly the period
   * after that one and is active from then on.
   */
  lemma LockInLastsOnePeriod(d: Deployment, period: u32, pct: u32, versions: seq<u32>, n: nat, a: DeploymentState)
    requires 0 < period && 1 <= d.startHeight && 0 < n <= |versions|
    requires ChainState(d, period, pct, versions, n, a) && (a == LockedIn || a == Active)
    ensures exists p: nat :: LockInPeriod(d, period, pct, versions, p)
  {
    var p: nat :| FirstLock(d, period, pct, n, CountsOf(versions[..n], d.bit, period), p);
    FirstAgrees(d, period, pct, versions, n, p);
    StartsAfterGenesis(d, period);
    EarlierIsOver(n, period, p);
    SignalsSettle(versions, d.bit, period, p, (p + 1) * period, n);
    forall k: nat, b | 0 < k <= |versions| && ChainState(d, period, pct, versions, k, b)
      ensures b == if k < (p + 1) * period then BeforeLockIn(d, k) else if k < (p + 2) * period then LockedIn else Active
    {
      if (p + 1) * period <= k {
        StateOnceOver(d, period, pct, versions, n, p, k, b);
      } else {
        StateBeforeOver(d, period, pct, versions, n, p, k, b);
      }
    }
    assert LockInPeriod(d, period, pct, versions, p);
  }

  lemma StateOnceOver(d: Deployment, period: u32, pct: u32, versions: seq<u32>, n: nat, p: nat, k: nat, b: DeploymentState)
    requires 0 < period && 0 < pct <= 100 && 1 <= d.startHeight && n <= |versions| && 0 < k <= |versions|
    requires FirstAfter(d, period, pct, versions, n, p) && ChainState(d, period, pct, versions, k, b)
    requires (p + 1) * period <= n && (p + 1) * period <= k
    ensures b == if (p + 2) * period <= k then Active else LockedIn
  {
    FirstSettled(d, period, pct, versions, n, k, p);
    FirstAgrees(d, period, pct, versions, k, p);
    LateEnough(d, period, p, k);
    LockSettles(d, period, pct, k, CountsOf(versions[..k], d.bit, period), b, p);
    PeriodOver(k, period, p + 2);
  }

  lemma StateBeforeOver(d: Deployment, period: u32, pct: u32, versions: seq<u32>, n: nat, p: nat, k: nat, b: DeploymentState)
    requires 0 < period && 0 < pct <= 100 && 1 <= d.startHeight && n <= |versions| && 0 < k <= |versions|
    requires FirstAfter(d, period, pct, versions, n, p) && ChainState(d, period, pct, versions, k, b)
    requires (p + 1) * period <= n && k < (p + 1) * period
    ensures b == BeforeLockIn(d, k)
  {
    if b == LockedIn || b == Active {
      var q: nat :| FirstLock(d, period, pct, k, CountsOf(versions[..k], d.bit, period), q);
      FirstAgrees(d, period, pct, versions, k, q);
      NotBefore(d, period, pct, versions, n, k, p, q);
    }
  }

  lemma StartsAfterGenesis(d: Deployment, period: u32)
    requires period > 0 && 1 <= d.startHeight
    ensures CeilDiv(d.startHeight, period) >= 1
    ensures CeilDiv(d.startHeight, period) * period >= d.startHeight
  {
    SamePeriodOrder(period, d.startHeight + period - 1, period);
    assert period / period == 1;
  }

  lemma LateEnough(d: Deployment, period: u32, p: nat, k: nat)
    requires period > 0 && 1 <= d.startHeight && CeilDiv(d.startHeight, period) <= p && (p + 1) * period <= k
    ensures d.startHeight <= k
  {
    StartsAfterGenesis(d, period);
    MulLe(CeilDiv(d.startHeight, period), p + 1, period);
  }

  /** The first lock-in is the same wherever the chain is cut after its period. */
  lemma FirstSettled(d: Deployment, period: u32, pct: u32, versions: seq<u32>, n: nat, k: nat, p: nat)
    requires period > 0 && n <= |versions| && k <= |versions| && FirstAfter(d, period, pct, versions, n, p)
    requires (p + 1) * period <= n && (p + 1) * period <= k
    ensures FirstAfter(d, period, pct, versions, k, p)
  {
    if n <= k {
      FirstPersists(d, period, pct, versions, n, k, p);
    } else {
      LocksPersist(d, period, pct, versions, k, n, p);
      forall q | CeilDiv(d.startHeight, period) <= q < p ensures !LocksAfter(d, period, pct, versions, k, q) {
        LocksPersist(d, period, pct, versions, k, n, q);
      }
    }
  }

  lemma NotBefore(d: Deployment, period: u32, pct: u32, versions: seq<u32>, n: nat, k: nat, p: nat, q: nat)
    requires period > 0 && n <= |versions| && k <= |versions| && 1 <= d.startHeight
    requires FirstAfter(d, period, pct, versions, n, p)
    requires (p + 1) * period <= n && k < (p + 1) * period
    ensures !FirstAfter(d, period, pct, versions, k, q)
  {
    StartsAfterGenesis(d, period);
    if FirstAfter(d, period, pct, versions, k, q) {
      EarlierIsOver(k, period, q);
      if q < p {
        LocksPersist(d, period, pct, versions, k, n, q);
      } else {
        MulLe(p + 1, q + 1, period);
      }
    }
  }

  // ------------------------------------------------------- where the promise ends

  /** Locked in by a period that is not over yet. */
  ghost predicate LocksEarly(d: Deployment, period: u32, pct: u32, versions: seq<u32>, p: nat)
    requires period > 0
  {
    CeilDiv(d.startHeight, period) <= p && LocksAfter(d, period, pct, versions, |versions|, p) && |versions| < (p + 1) * period
  }

  lemma {:induction false} AtMostAll(versions: seq<u32>, bit: nat, period: nat, p: nat, h: nat)
    requires period > 0 && h <= |versions|
    ensures SignalsBelow(versions, bit, period, p, h) <= h
  {
    if h > 0 {
      AtMostAll(versions, bit, period, p, h - 1);
    }
  }

  function AllSignal(bit: nat, n: nat): seq<u32>
    requires bit < 32
  {
    Pow2Bound(bit);
    seq(n, _ => Pow2(bit))
  }

  lemma Pow2Bound(bit: nat)
    requires bit < 32
    ensures Pow2(bit) <= 0x8000_0000
  {
    Pow2Le(bit, 31);
    assert Pow2(31) == 0x8000_0000 by { Pow2Value(); }
  }

  lemma Pow2Value()
    ensures Pow2(31) == 0x8000_0000
  {
    assert Pow2(8) == 256;
    assert Pow2(16) == 65536;
    assert Pow2(24) == 0x100_0000;
  }

  lemma {:induction false} AllSignalCounts(bit: nat, n: nat, period: nat, h: nat)
    requires bit < 32 && h <= n < period
    ensures SignalsBelow(AllSignal(bit, n), bit, period, 0, h) == h
  {
    if h > 0 {
      AllSignalCounts(bit, n, period, h - 1);
      BitSignals(bit);
      FirstPeriod(h - 1, period);
    }
  }

  lemma BitSignals(bit: nat)
    requires bit < 32
    ensures Pow2(bit) <= U32_MAX && Signals(bit, Pow2(bit))
  {
    Pow2Bound(bit);
    assert Pow2(bit) / Pow2(bit) == 1;
  }

  lemma FirstPeriod(h: nat, period: nat)
    requires h < period
    ensures h / period == 0
  {
  }

  lemma EarlyLockNeeds(d: Deployment, period: u32, pct: u32, versions: seq<u32>, p: nat)
    requires 0 < period && LocksEarly(d, period, pct, versions, p)
    ensures d.startHeight == 0 && period < d.timeoutHeight && Meets(period - 1, period, pct)
  {
    PeriodOver(|versions|, period, p + 1);
    assert p == 0;
    if d.startHeight >= 1 {
      StartsAfterGenesis(d, period);
    }
    AtMostAll(versions, d.bit, period, p, |versions|);
    MoreMeets(SignalsBelow(versions, d.bit, period, p, |versions|), period - 1, period, pct);
  }

  lemma EarlyLockWitness(d: Deployment, period: u32, pct: u32, versions: seq<u32>)
    requires 0 < period && d.startHeight == 0 && period < d.timeoutHeight && Meets(period - 1, period, pct)
    requires |versions| == period - 1 && SignalsBelow(versions, d.bit, period, 0, period - 1) == period - 1
    ensures LocksEarly(d, period, pct, versions, 0)
  {
    PeriodOver(period - 1, period, 1);
  }

  /** The chain reports lock-in while its very first period is still unfinished. */
  ghost predicate LockedInEarly(d: Deployment, period: u32, pct: u32, versions: seq<u32>) {
    0 < |versions| < period && ChainState(d, period, pct, versions, |versions|, LockedIn)
  }

  lemma EarlyStateIsEarlyLock(d: Deployment, period: u32, pct: u32, versions: seq<u32>)
    requires 0 < |versions| < period
    ensures LockedInEarly(d, period, pct, versions) <==> 0 < pct <= 100 && d.startHeight <= |versions| && LocksEarly(d, period, pct, versions, 0)
  {
    var n := |versions|;
    var counts := CountsOf(versions[..n], d.bit, period);
    FirstPeriod(n, period);
    FirstAgrees(d, period, pct, versions, n, 0);
    if LockedInEarly(d, period, pct, versions) {
      var p: nat :| FirstLock(d, period, pct, n, counts, p);
      assert p == 0;
    }
  }

  /**
   * A chain can report lock-in on an unfinished period exactly if the deployment starts at height 0, its first
   * period ends before the timeout, and the threshold is a percentage that can be reached before the last block.
   */
  lemma EarlyLockInExactly(d: Deployment, period: u32, pct: u32)
    requires d.bit < 32
    ensures (exists versions :: LockedInEarly(d, period, pct, versions))
       <==> 0 < pct <= 100 && d.startHeight == 0 && 0 < period < d.timeoutHeight && Meets(period - 1, period, pct)
  {
    forall versions | LockedInEarly(d, period, pct, versions)
      ensures 0 < pct <= 100 && d.startHeight == 0 && period < d.timeoutHeight && Meets(period - 1, period, pct)
    {
      EarlyStateIsEarlyLock(d, period, pct, versions);
      EarlyLockNeeds(d, period, pct, versions, 0);
    }
    if 0 < pct <= 100 && d.startHeight == 0 && 0 < period < d.timeoutHeight && Meets(period - 1, period, pct) {
      NoSignalsNoLock(period, pct);
      AllSignalCounts(d.bit, period - 1, period, period - 1);
      EarlyLockWitness(d, period, pct, AllSignal(d.bit, period - 1));
      EarlyStateIsEarlyLock(d, period, pct, AllSignal(d.bit, period - 1));
    }
  }

  lemma NoSignalsNoLock(period: u32, pct: u32)
    requires 0 < period && 0 < pct && Meets(period - 1, period, pct)
    ensures period > 1
  {
  }

  /** Nine signalling blocks of an unfinished period of ten: the chain reports lock-in at once. */
  lemma EarlyLockInHappens()
    ensures LockedInEarly(Deployment(0, 0, 100), 10, THRESHOLD_PCT, AllSignal(0, 9))
  {
    AllSignalCounts(0, 9, 10, 9);
    EarlyLockWitness(Deployment(0, 0, 100), 10, THRESHOLD_PCT, AllSignal(0, 9));
    EarlyStateIsEarlyLock(Deployment(0, 0, 100), 10, THRESHOLD_PCT, AllSignal(0, 9));
  }

  /** One block in a hundred is enough once both sides saturate. */
  lemma SaturatedThresholdPasses()
    ensures Meets(0x0290_0000, U32_MAX, 100) && 0x0290_0000 * 100 < U32_MAX * 100
  {
  }

  /** The least count at which the left side of the threshold test saturates. */
  const SATURATING_COUNT: nat := 42949673

  /**
   * The saturating threshold test agrees with the percentage it stands for, for every count, exactly when the
   * true threshold is no higher than what a saturating count already reaches.
   */
  lemma ThresholdTestExactly(period: u32, pct: u32)
    ensures (forall signalled: u32 :: Meets(signalled, period, pct) <==> signalled * 100 >= period * pct)
       <==> period * pct <= SATURATING_COUNT * 100
  {
    if period * pct > SATURATING_COUNT * 100 {
      var s: u32 := SATURATING_COUNT;
      assert Meets(s, period, pct);
    }
  }

  /** `governance_active`, at any height. */
  method GovernanceActive(d: Option<Deployment>, period: u32, versions: seq<u32>, height: u32) returns (active: bool)
    requires versions != []
    ensures d.None? || period == 0 ==> !active
    ensures d.Some? && period > 0 ==> (active <==> ActiveAt(d.value, period, versions, height))
  {
    if d.None? { return false; }
    var counts := CountSignals(versions, d.value.bit, period);
    var state := StateOf(d.value, period, THRESHOLD_PCT, height, counts);
    if period > 0 && HasState(d.value, period, THRESHOLD_PCT, height, counts, Active) {
      StateUnique(d.value, period, THRESHOLD_PCT, height, counts, state, Active);
    }
    active := state == Active;
  }

  ghost predicate ActiveAt(d: Deployment, period: u32, versions: seq<u32>, height: nat)
    requires 0 < period && versions != []
  {
    HasState(d, period, THRESHOLD_PCT, height, CountsOf(versions, d.bit, period), Active)
  }

  /**
   * For any height the chain has reached, the answer is the one it gave when that block came next: it does not
   * depend on how far the chain has grown since. So all nodes agree under which rules a past block was applied.
   */
  lemma PastAnswersStand(d: Deployment, period: u32, versions: seq<u32>, n: nat)
    requires 0 < period && 0 < n <= |versions|
    ensures ActiveAt(d, period, versions, n) <==> ChainState(d, period, THRESHOLD_PCT, versions, n, Active)
  {
    var counts, counts' := CountsOf(versions, d.bit, period), CountsOf(versions[..n], d.bit, period);
    forall q: nat | q + 1 <= n / period ensures CountAt(counts, q) == CountAt(counts', q) {
      CountSettled(d.bit, period, versions, n, q);
    }
    if ActiveAt(d, period, versions, n) { ActiveDependsOnPast(d, period, n, counts, counts'); }
    if ChainState(d, period, THRESHOLD_PCT, versions, n, Active) { ActiveDependsOnPast(d, period, n, counts', counts); }
  }

  lemma ActiveDependsOnPast(d: Deployment, period: u32, n: nat, a: seq<nat>, b: seq<nat>)
    requires 0 < period && HasState(d, period, THRESHOLD_PCT, n, a, Active)
    requires forall q: nat :: q + 1 <= n / period ==> CountAt(a, q) == CountAt(b, q)
    ensures HasState(d, period, THRESHOLD_PCT, n, b, Active)
  {
    var p: nat :| FirstLock(d, period, THRESHOLD_PCT, n, a, p) && p + 2 <= n / period;
    SameFirstLock(d, period, THRESHOLD_PCT, n, a, b, p);
  }

  lemma SameFirstLock(d: Deployment, period: u32, pct: u32, n: nat, a: seq<nat>, b: seq<nat>, p: nat)
    requires 0 < period && FirstLock(d, period, pct, n, a, p)
    requires forall q: nat :: q <= p ==> CountAt(a, q) == CountAt(b, q)
    ensures FirstLock(d, period, pct, n, b, p)
  {
    forall q | CeilDiv(d.startHeight, period) <= q < p ensures !Locks(d, period, pct, n, b, q) {
      assert !Locks(d, period, pct, n, a, q) && CountAt(a, q) == CountAt(b, q);
    }
  }

  lemma CountSettled(bit: nat, period: u32, versions: seq<u32>, n: nat, q: nat)
    requires 0 < period && 0 < n <= |versions| && q + 1 <= n / period
    ensures CountAt(CountsOf(versions, bit, period), q) == CountAt(CountsOf(versions[..n], bit, period), q)
  {
    EarlierIsOver(n, period, q);
    CountsOfAt(versions, bit, period, q);
    CountsOfAt(versions[..n], bit, period, q);
    SignalsPrefix(versions, n, bit, period, q, n);
    SignalsSettle(versions, bit, period, q, n, |versions|);
  }
}
