/**
 * The part of the chain that governance depends on: unspent outputs, locks and blocks.
 *
 * A transaction is accepted here if it passes the governance rules, the spending rules and the shape rules.
 * The chain makes further checks (scripts, amounts, kernels, supply); leaving them out only allows more runs,
 * so what is proved of every run here holds of every run of the chain.
 */
module Ledger {
  import opened Machine
  import opened Sums
  import opened Consensus
  import opened GovernanceTypes
  import opened GovernanceRules

  /** `active` says whether governance is active for the block at the tip. */
  datatype State = State(gov: Gov, params: Params, utxos: UtxoMap, height: u32, timestamp: u32, active: bool)

  datatype Step = Begin(timestamp: u32, version: u32) | Apply(tx: Transaction, totalStaked: u64)

  const NO_GOV := Gov(map[], map[])

  /** `governance_active` for the block that comes next on a chain of the given block versions. */
  ghost predicate ActiveNext(env: Env, versions: seq<u32>) {
    && env.deployment.Some? && env.period > 0 && versions != []
    && Deployments.ActiveAt(env.deployment.value, env.period, versions, |versions|)
  }

  /** `is_utxo_eligible`. */
  predicate EntersUtxoSet(env: Env, tx: Transaction, o: TxOutput, height: u32) {
    env.classify(o.script) != OpReturn || (height == 0 && tx.kind == LegacyClaim)
  }

  /** The outputs numbered below `n` that enter the set. */
  function CreatedBelow(env: Env, tx: Transaction, height: u32, timestamp: u32, n: nat): (made: UtxoMap)
    requires n <= |tx.outputs|
    ensures forall at :: at in made <==> at.txid == tx.txid && 0 <= at.vout < n && EntersUtxoSet(env, tx, tx.outputs[at.vout], height)
    ensures forall at :: at in made ==> made[at] == Utxo(at, tx.outputs[at.vout].value, tx.outputs[at.vout].script, height, timestamp)
  {
    if n == 0 then map[]
    else
      var o, at := tx.outputs[n - 1], OutPoint(tx.txid, n - 1);
      var before := CreatedBelow(env, tx, height, timestamp, n - 1);
      if EntersUtxoSet(env, tx, o, height) then before[at := Utxo(at, o.value, o.script, height, timestamp)] else before
  }

  function Created(env: Env, tx: Transaction, height: u32, timestamp: u32): UtxoMap {
    CreatedBelow(env, tx, height, timestamp, |tx.outputs|)
  }

  lemma UpdateSum(a: UtxoMap, b: UtxoMap, at: OutPoint, u: Utxo)
    ensures (a + b)[at := u] == a + b[at := u]
  {
  }

  /** The shape rules of `validate_transaction` that bear on locks. */
  predicate WellShaped(tx: Transaction) {
    (tx.kind == Coinstake ==> |tx.inputs| == 1) && (tx.kind == LegacyClaim ==> tx.inputs == [])
  }

  function Spent(tx: Transaction): set<OutPoint> {
    if tx.kind == Coinbase then {} else Elements(tx.inputs)
  }

  /** Every input is unspent and named once, and only a coinstake may spend a locked one. */
  predicate CanSpend(locks: Locks, utxos: UtxoMap, tx: Transaction, height: u32) {
    tx.kind != Coinbase ==>
    && (forall i :: 0 <= i < |tx.inputs| ==> tx.inputs[i] in utxos)
    && (forall i, j :: 0 <= i < j < |tx.inputs| ==> tx.inputs[i] != tx.inputs[j])
    && (tx.kind == Coinstake || forall i :: 0 <= i < |tx.inputs| ==> !IsLocked(locks, tx.inputs[i], height))
  }

  function ContextOf(s: State, totalStaked: u64): Context {
    Context(s.height, s.timestamp, s.utxos, s.params, totalStaked)
  }

  /** `process_transaction`, once governance is active. */
  function Processed(env: Env, s: State, tx: Transaction, totalStaked: u64): Outcome {
    if s.active then ProcessOutputs(env, s.gov, ContextOf(s, totalStaked), tx.outputs) else Outcome(s.gov, None)
  }

  /**
   * `apply_transaction`: governance first, then inputs and outputs, then the lock of the staked output. Until
   * governance is active nothing is processed and nothing counts as locked.
   */
  function ApplyTx(env: Env, s: State, tx: Transaction, totalStaked: u64): Option<State> {
    var r := Processed(env, s, tx, totalStaked);
    if !WellShaped(tx) || r.error.Some? || !CanSpend(if s.active then r.gov.locks else map[], s.utxos, tx, s.height) then None
    else
      var utxos := s.utxos - Spent(tx) + Created(env, tx, s.height, s.timestamp);
      if tx.kind != Coinstake then Some(s.(gov := r.gov, utxos := utxos))
      else
        var staked := s.utxos[tx.inputs[0]];
        var t := if s.active then TransferLock(r.gov, tx, staked, s.height) else r;
        if !IsStakeable(env, s.params, staked) || t.error.Some? then None
        else Some(s.(gov := t.gov, utxos := utxos))
  }

  /** A ledger, every transaction id that has been used on this chain, and the versions of its blocks. */
  datatype World = World(state: State, used: set<Txid>, versions: seq<u32>)

  ghost predicate StepsTo(env: Env, w: World, step: Step, w': World) {
    match step
    case Begin(timestamp, version) =>
      && w.state.height < U32_MAX
      && w'.used == w.used && w'.versions == w.versions + [version]
      && w'.state == w.state.(gov := w'.state.gov, params := w'.state.params, height := w.state.height + 1,
                              timestamp := timestamp, active := w'.state.active)
      && w'.state.active == ActiveNext(env, w.versions)
      && (if w'.state.active
          then BeginsBlock(env, w.state.gov, w.state.params, w.state.utxos, w.state.height + 1, timestamp, w'.state.gov, w'.state.params)
          else w'.state.gov == w.state.gov && w'.state.params == w.state.params)
    case Apply(tx, totalStaked) =>
      && tx.txid !in w.used
      && w'.used == w.used + {tx.txid} && w'.versions == w.versions
      && ApplyTx(env, w.state, tx, totalStaked) == Some(w'.state)
  }

  ghost predicate Next(env: Env, w: World, w': World) {
    exists step :: StepsTo(env, w, step, w')
  }

  predicate UtxoOk(s: State, used: set<Txid>, at: OutPoint) {
    at in s.utxos ==> s.utxos[at].outpoint == at && at.txid in used && s.utxos[at].height <= s.height
  }

  /** Any chain on which governance has not been active yet; genesis, for one. */
  ghost predicate Initial(env: Env, w: World) {
    && w.state.gov == NO_GOV && !w.state.active
    && |w.versions| == w.state.height + 1 && !ActiveNext(env, w.versions[..w.state.height])
    && forall at :: UtxoOk(w.state, w.used, at)
  }

  ghost predicate IsRun(env: Env, run: seq<World>) {
    && run != []
    && Initial(env, run[0])
    && forall i :: 0 <= i < |run| - 1 ==> NextAt(env, run, i)
  }

  ghost predicate NextAt(env: Env, run: seq<World>, i: nat)
    requires i + 1 < |run|
  {
    Next(env, run[i], run[i + 1])
  }

  // --------------------------------------------------------------- activation

  /** Governance is empty until it is active, and once active stays so. */
  predicate Steady(w: World, w': World) {
    (!w.state.active ==> w.state.gov == NO_GOV) && (w.state.active ==> w'.state.active)
  }

  /** The flag of the tip is what its own deployment gave. */
  ghost predicate Flagged(env: Env, w: World) {
    && |w.versions| == w.state.height + 1
    && (w.state.active <==> ActiveNext(env, w.versions[..w.state.height]))
    && (!w.state.active ==> w.state.gov == NO_GOV)
  }

  lemma ActiveStays(env: Env, versions: seq<u32>, n: nat)
    requires n < |versions| && ActiveNext(env, versions[..n])
    ensures ActiveNext(env, versions)
  {
    var d, period := env.deployment.value, env.period;
    Deployments.PastAnswersStand(d, period, versions[..n], n);
    assert versions[..n][..n] == versions[..n];
    Deployments.ActiveIsFinal(d, period, Deployments.THRESHOLD_PCT, versions, n, |versions|);
    Deployments.PastAnswersStand(d, period, versions, |versions|);
  }

  lemma NextFlagged(env: Env, w: World, w': World)
    requires Flagged(env, w) && Next(env, w, w')
    ensures Flagged(env, w') && Steady(w, w')
  {
    var step :| StepsTo(env, w, step, w');
    if step.Begin? {
      assert w'.versions[..w'.state.height] == w.versions;
      if w.state.active { ActiveStays(env, w.versions, w.state.height); }
    }
  }

  /** Over every run: governance has no state before it is active, and never becomes inactive again. */
  lemma {:induction false} RunFlagged(env: Env, run: seq<World>, n: nat)
    requires IsRun(env, run) && n < |run|
    ensures Flagged(env, run[n])
    ensures n > 0 ==> Steady(run[n - 1], run[n])
    decreases n
  {
    if n > 0 {
      RunFlagged(env, run, n - 1);
      assert NextAt(env, run, n - 1);
      NextFlagged(env, run[n - 1], run[n]);
    }
  }

  /**
   * Over every run: governance is active for the block at the tip exactly if the scheduled deployment is Active, at a
   * threshold of 90%, on the signals of the blocks before it.
   */
  lemma ActiveExactly(env: Env, run: seq<World>, n: nat)
    requires IsRun(env, run) && n < |run|
    ensures var s, before := run[n].state, run[n].versions[..Min(run[n].state.height, |run[n].versions|)];
            s.active <==> env.deployment.Some? && env.period > 0 && |before| == s.height > 0
                          && Deployments.ChainState(env.deployment.value, env.period, 90, before, s.height, Deployments.Active)
  {
    RunFlagged(env, run, n);
    var h := run[n].state.height;
    var before := run[n].versions[..h];
    if h > 0 && env.deployment.Some? && env.period > 0 {
      Deployments.PastAnswersStand(env.deployment.value, env.period, before, h);
    }
  }

  /** Skipping the start of a block is the same as running it on an empty state. */
  lemma BeginIsBlockStart(env: Env, w: World, timestamp: u32, version: u32, w': World)
    requires StepsTo(env, w, Begin(timestamp, version), w') && Steady(w, w')
    ensures BeginsBlock(env, w.state.gov, w.state.params, w.state.utxos, w'.state.height, timestamp, w'.state.gov, w'.state.params)
  {
    if !w'.state.active {
      var order: seq<Rank> := [];
      assert DecideAll(w.state.gov.proposals, w'.state.height) == map[];
      assert DueOrder(map[], w'.state.height, order);
      assert LiveLocks(w.state.gov.locks, w'.state.height) == map[];
    }
  }

  /** While governance is inactive nothing is locked, so the skipped checks would not have mattered. */
  lemma ApplyIsUniform(env: Env, s: State, tx: Transaction, totalStaked: u64)
    requires !s.active ==> s.gov == NO_GOV
    ensures var r := Processed(env, s, tx, totalStaked);
            ApplyTx(env, s, tx, totalStaked).Some? ==>
            && WellShaped(tx) && r.error.None? && CanSpend(r.gov.locks, s.utxos, tx, s.height)
            && var t := if tx.kind == Coinstake then TransferLock(r.gov, tx, s.utxos[tx.inputs[0]], s.height) else r;
               t.error.None? && ApplyTx(env, s, tx, totalStaked).value
                 == s.(gov := t.gov, utxos := s.utxos - Spent(tx) + Created(env, tx, s.height, s.timestamp))
  {
  }

  function Values(utxos: UtxoMap): map<OutPoint, nat> { map at | at in utxos :: utxos[at].value }

  ghost function TotalValue(utxos: UtxoMap): nat { MapSum(Values(utxos)) }
}
