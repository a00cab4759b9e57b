/** The running totals of the chain: the staked and the issued supply, and the legacy addresses already claimed. */
module Totals {
  import opened Machine
  import opened Sums
  import opened Consensus
  import opened GovernanceTypes
  import opened Ledger

  datatype Totals = Totals(staked: u64, supply: u64, claimed: set<Address>)

  // ------------------------------------------------------------- staked supply

  function StakeOf(env: Env, p: Params, u: Utxo): nat { if IsStakeable(env, p, u) then u.value else 0 }

  function Stakes(env: Env, p: Params, utxos: UtxoMap): map<OutPoint, nat> {
    map at | at in utxos :: StakeOf(env, p, utxos[at])
  }

  /** The value of all stakeable outputs. */
  ghost function StakeIn(env: Env, p: Params, utxos: UtxoMap): nat { MapSum(Stakes(env, p, utxos)) }

  /** What the inputs take away, removed one after the other. */
  function StakeRemoved(env: Env, p: Params, utxos: UtxoMap, inputs: seq<OutPoint>): nat
    decreases |inputs|
  {
    if inputs == [] then 0
    else
      (if inputs[0] in utxos then StakeOf(env, p, utxos[inputs[0]]) else 0)
      + StakeRemoved(env, p, utxos - {inputs[0]}, inputs[1..])
  }

  /** What the first `n` outputs add. */
  function StakeAdded(env: Env, p: Params, tx: Transaction, height: u32, timestamp: u32, n: nat): nat
    requires n <= |tx.outputs|
  {
    if n == 0 then 0
    else
      var o, at := tx.outputs[n - 1], OutPoint(tx.txid, n - 1);
      StakeAdded(env, p, tx, height, timestamp, n - 1)
      + if EntersUtxoSet(env, tx, o, height) then StakeOf(env, p, Utxo(at, o.value, o.script, height, timestamp)) else 0
  }

  /** The change one transaction makes to the journal's `staked_delta`. */
  function StakeDelta(env: Env, p: Params, utxos: UtxoMap, tx: Transaction, height: u32, timestamp: u32): int {
    StakeAdded(env, p, tx, height, timestamp, |tx.outputs|)
    - if tx.kind == Coinbase then 0 else StakeRemoved(env, p, utxos, tx.inputs)
  }

  lemma RemoveOne(env: Env, p: Params, utxos: UtxoMap, at: OutPoint)
    requires at in utxos
    ensures StakeIn(env, p, utxos) == StakeOf(env, p, utxos[at]) + StakeIn(env, p, utxos - {at})
  {
    MapSumRemove(Stakes(env, p, utxos), at);
    assert Stakes(env, p, utxos) - {at} == Stakes(env, p, utxos - {at});
  }

  lemma AddOne(env: Env, p: Params, utxos: UtxoMap, at: OutPoint, u: Utxo)
    requires at !in utxos
    ensures StakeIn(env, p, utxos[at := u]) == StakeIn(env, p, utxos) + StakeOf(env, p, u)
  {
    MapSumInsert(Stakes(env, p, utxos), at, StakeOf(env, p, u));
    assert Stakes(env, p, utxos)[at := StakeOf(env, p, u)] == Stakes(env, p, utxos[at := u]);
  }

  lemma {:induction false} RemovedExactly(env: Env, p: Params, utxos: UtxoMap, inputs: seq<OutPoint>)
    ensures StakeIn(env, p, utxos) == StakeIn(env, p, utxos - Elements(inputs)) + StakeRemoved(env, p, utxos, inputs)
    decreases |inputs|
  {
    if inputs == [] {
      assert Elements(inputs) == {} && utxos - {} == utxos;
    } else {
      ElementsHead(inputs);
      assert utxos - {inputs[0]} - Elements(inputs[1..]) == utxos - Elements(inputs);
      RemovedExactly(env, p, utxos - {inputs[0]}, inputs[1..]);
      if inputs[0] in utxos {
        RemoveOne(env, p, utxos, inputs[0]);
      } else {
        assert utxos - {inputs[0]} == utxos;
      }
    }
  }

  lemma {:induction false} AddedExactly(env: Env, p: Params, utxos: UtxoMap, tx: Transaction, height: u32, timestamp: u32, n: nat)
    requires n <= |tx.outputs| && forall at :: at in utxos ==> at.txid != tx.txid
    ensures StakeIn(env, p, utxos + CreatedBelow(env, tx, height, timestamp, n))
         == StakeIn(env, p, utxos) + StakeAdded(env, p, tx, height, timestamp, n)
  {
    if n == 0 {
      assert utxos + CreatedBelow(env, tx, height, timestamp, 0) == utxos;
    } else {
      AddedExactly(env, p, utxos, tx, height, timestamp, n - 1);
      AddedOneMore(env, p, utxos, tx, height, timestamp, n);
    }
  }

  lemma AddedOneMore(env: Env, p: Params, utxos: UtxoMap, tx: Transaction, height: u32, timestamp: u32, n: nat)
    requires 0 < n <= |tx.outputs| && forall at :: at in utxos ==> at.txid != tx.txid
    ensures var o, at := tx.outputs[n - 1], OutPoint(tx.txid, n - 1);
            StakeIn(env, p, utxos + CreatedBelow(env, tx, height, timestamp, n))
            == StakeIn(env, p, utxos + CreatedBelow(env, tx, height, timestamp, n - 1))
               + if EntersUtxoSet(env, tx, o, height) then StakeOf(env, p, Utxo(at, o.value, o.script, height, timestamp)) else 0
  {
    var o, at := tx.outputs[n - 1], OutPoint(tx.txid, n - 1);
    var before, u := CreatedBelow(env, tx, height, timestamp, n - 1), Utxo(at, o.value, o.script, height, timestamp);
    if EntersUtxoSet(env, tx, o, height) {
      AddOne(env, p, utxos + before, at, u);
      UpdateSum(utxos, before, at, u);
    }
  }

  /** An accepted transaction changes the stakeable value by exactly what it journals. */
  lemma TxStake(env: Env, w: World, tx: Transaction, totalStaked: u64, w': World)
    requires StepsTo(env, w, Apply(tx, totalStaked), w') && forall at :: UtxoOk(w.state, w.used, at)
    ensures w'.state.params == w.state.params
    ensures StakeIn(env, w.state.params, w'.state.utxos)
         == StakeIn(env, w.state.params, w.state.utxos)
            + StakeDelta(env, w.state.params, w.state.utxos, tx, w.state.height, w.state.timestamp)
  {
    var s := w.state;
    var left := s.utxos - Spent(tx);
    var inputs: seq<OutPoint> := if tx.kind == Coinbase then [] else tx.inputs;
    assert Elements(inputs) == Spent(tx);
    RemovedExactly(env, s.params, s.utxos, inputs);
    forall at | at in left ensures at.txid != tx.txid { assert UtxoOk(s, w.used, at); }
    AddedExactly(env, s.params, left, tx, s.height, s.timestamp, |tx.outputs|);
  }

  /** Stakeability depends on one parameter only. */
  lemma SameMinimumSameStake(env: Env, p: Params, q: Params, utxos: UtxoMap)
    requires p.minStakeAmount == q.minStakeAmount
    ensures StakeIn(env, p, utxos) == StakeIn(env, q, utxos)
  {
    assert Stakes(env, p, utxos) == Stakes(env, q, utxos);
  }

  /** The commit of a signed change to an unsigned total, saturating at both ends. */
  function Committed(total: u64, delta: int): u64 {
    if delta >= 0 then Min(total + delta, U64_MAX) else SatSub(total, -delta)
  }

  // ------------------------------------------------------------- issued supply

  function InputValue(utxos: UtxoMap, inputs: seq<OutPoint>): nat
    decreases |inputs|
  {
    if inputs == [] then 0
    else (if inputs[0] in utxos then utxos[inputs[0]].value else 0) + InputValue(utxos - {inputs[0]}, inputs[1..])
  }

  function OutputValue(outputs: seq<TxOutput>): nat {
    if outputs == [] then 0 else outputs[0].value + OutputValue(outputs[1..])
  }

  /** `compute_supply_delta`: the sums of inputs and outputs saturate, and a claim of an address issues nothing new. */
  function SupplyDelta(utxos: UtxoMap, tx: Transaction): u64 {
    if tx.kind == LegacyClaim && tx.claim.Some? then 0
    else
      var input := if tx.kind == Coinbase then 0 else Min(InputValue(utxos, tx.inputs), U64_MAX);
      SatSub(Min(OutputValue(tx.outputs), U64_MAX), input)
  }

  // ------------------------------------------------------------ legacy claims

  /** The addresses a list of transactions claims, in order. */
  function Claims(txs: seq<Transaction>): seq<Address> {
    if txs == [] then []
    else
      var tx := txs[|txs| - 1];
      Claims(txs[..|txs| - 1]) + if tx.kind == LegacyClaim && tx.claim.Some? then [tx.claim.value] else []
  }

  /** No claimed address is claimed again, in this block or before. */
  predicate Unclaimed(claimed: set<Address>, claims: seq<Address>) {
    && (forall i :: 0 <= i < |claims| ==> claims[i] !in claimed)
    && (forall i, j :: 0 <= i < j < |claims| ==> claims[i] != claims[j])
  }

  /** Taking the claims of a block back leaves those of the blocks before. */
  lemma ClaimsTakenBack(claimed: set<Address>, claims: seq<Address>)
    requires Unclaimed(claimed, claims)
    ensures claimed + Elements(claims) - Elements(claims) == claimed
  {
  }
}
