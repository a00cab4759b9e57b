/** The issued supply covers the money there is: no chain holds more value than it has recorded as issued. */
module Money {
  import opened Machine
  import opened Sums
  import opened Consensus
  import opened GovernanceTypes
  import opened Ledger
  import opened Totals
  import opened BlockJournal

  // ----------------------------------------------------------- one transaction

  lemma {:induction false} ValueSpent(utxos: UtxoMap, inputs: seq<OutPoint>)
    ensures TotalValue(utxos) == TotalValue(utxos - Elements(inputs)) + InputValue(utxos, inputs)
    decreases |inputs|
  {
    if inputs == [] {
      assert Elements(inputs) == {} && utxos - {} == utxos;
    } else {
      var at := inputs[0];
      ElementsHead(inputs);
      assert utxos - {at} - Elements(inputs[1..]) == utxos - Elements(inputs);
      ValueSpent(utxos - {at}, inputs[1..]);
      if at in utxos {
        MapSumRemove(Values(utxos), at);
        assert Values(utxos) - {at} == Values(utxos - {at});
      } else {
        assert utxos - {at} == utxos;
      }
    }
  }

  lemma {:induction false} OutputValueSnoc(outputs: seq<TxOutput>, o: TxOutput)
    ensures OutputValue(outputs + [o]) == OutputValue(outputs) + o.value
  {
    if outputs == [] {
      assert [o][1..] == [];
    } else {
      assert (outputs + [o])[1..] == outputs[1..] + [o];
      OutputValueSnoc(outputs[1..], o);
    }
  }

  lemma InsertedValue(utxos: UtxoMap, at: OutPoint, u: Utxo)
    requires at !in utxos
    ensures TotalValue(utxos[at := u]) == TotalValue(utxos) + u.value
  {
    MapSumInsert(Values(utxos), at, u.value);
    assert Values(utxos)[at := u.value] == Values(utxos[at := u]);
  }

  lemma {:induction false} ValueMade(env: Env, utxos: UtxoMap, tx: Transaction, height: u32, timestamp: u32, n: nat)
    requires n <= |tx.outputs| && forall at :: at in utxos ==> at.txid != tx.txid
    ensures TotalValue(utxos + CreatedBelow(env, tx, height, timestamp, n)) <= TotalValue(utxos) + OutputValue(tx.outputs[..n])
  {
    if n == 0 {
      assert utxos + CreatedBelow(env, tx, height, timestamp, 0) == utxos;
    } else {
      ValueMade(env, utxos, tx, height, timestamp, n - 1);
      OneMoreMade(env, utxos, tx, height, timestamp, n);
      assert tx.outputs[..n] == tx.outputs[..n - 1] + [tx.outputs[n - 1]];
      OutputValueSnoc(tx.outputs[..n - 1], tx.outputs[n - 1]);
    }
  }

  lemma OneMoreMade(env: Env, utxos: UtxoMap, tx: Transaction, height: u32, timestamp: u32, n: nat)
    requires 0 < n <= |tx.outputs| && forall at :: at in utxos ==> at.txid != tx.txid
    ensures TotalValue(utxos + CreatedBelow(env, tx, height, timestamp, n))
         <= TotalValue(utxos + CreatedBelow(env, tx, height, timestamp, n - 1)) + tx.outputs[n - 1].value
  {
    var o, at := tx.outputs[n - 1], OutPoint(tx.txid, n - 1);
    var before, u := CreatedBelow(env, tx, height, timestamp, n - 1), Utxo(at, o.value, o.script, height, timestamp);
    if EntersUtxoSet(env, tx, o, height) {
      InsertedValue(utxos + before, at, u);
      UpdateSum(utxos, before, at, u);
    }
  }

  /** What the inputs of a transaction are worth; a coinbase has none. */
  function Brought(utxos: UtxoMap, tx: Transaction): nat { if tx.kind == Coinbase then 0 else InputValue(utxos, tx.inputs) }

  /** A transaction leaves no more value than there was, less what it spends, plus what it pays out. */
  lemma TxValue(env: Env, w: World, tx: Transaction, totalStaked: u64, w': World)
    requires StepsTo(env, w, Apply(tx, totalStaked), w') && forall at :: UtxoOk(w.state, w.used, at)
    ensures Brought(w.state.utxos, tx) <= TotalValue(w.state.utxos)
    ensures TotalValue(w'.state.utxos) <= TotalValue(w.state.utxos) - Brought(w.state.utxos, tx) + OutputValue(tx.outputs)
  {
    var s := w.state;
    var inputs: seq<OutPoint> := if tx.kind == Coinbase then [] else tx.inputs;
    var left := s.utxos - Spent(tx);
    assert Elements(inputs) == Spent(tx);
    ValueSpent(s.utxos, inputs);
    forall at | at in left ensures at.txid != tx.txid { assert UtxoOk(s, w.used, at); }
    ValueMade(env, left, tx, s.height, s.timestamp, |tx.outputs|);
    assert tx.outputs[..|tx.outputs|] == tx.outputs;
  }

  predicate IsClaim(tx: Transaction) { tx.kind == LegacyClaim && tx.claim.Some? }

  /** A transaction issues what it pays out beyond what it brings, where both sums fit 64 bits; a claim issues nothing. */
  lemma IssuedExactly(utxos: UtxoMap, tx: Transaction)
    requires OutputValue(tx.outputs) <= U64_MAX && Brought(utxos, tx) <= U64_MAX
    ensures SupplyDelta(utxos, tx) == if IsClaim(tx) then 0 else Max(0, OutputValue(tx.outputs) - Brought(utxos, tx))
  {
  }

  // -------------------------------------------------------------------- claims

  /** What the claims of some addresses are worth together. */
  ghost function ClaimWorth(worth: Address -> nat, claimed: set<Address>): nat { MapSum(WorthOf(worth, claimed)) }

  ghost function WorthOf(worth: Address -> nat, claimed: set<Address>): map<Address, nat> { map a | a in claimed :: worth(a) }

  lemma OneMoreClaim(worth: Address -> nat, claimed: set<Address>, a: Address)
    requires a !in claimed
    ensures ClaimWorth(worth, claimed + {a}) == ClaimWorth(worth, claimed) + worth(a)
  {
    MapSumInsert(WorthOf(worth, claimed), a, worth(a));
    assert WorthOf(worth, claimed)[a := worth(a)] == WorthOf(worth, claimed + {a});
  }

  lemma FewerClaims(worth: Address -> nat, some: set<Address>, all: set<Address>)
    requires some <= all
    ensures ClaimWorth(worth, some) <= ClaimWorth(worth, all)
  {
    MapSumInjection(WorthOf(worth, some), WorthOf(worth, all), map a | a in some :: a);
  }

  /** No claim pays out more than its address is worth. */
  ghost predicate ClaimsWithin(worth: Address -> nat, txs: seq<Transaction>) {
    forall i :: 0 <= i < |txs| && IsClaim(txs[i]) ==> OutputValue(txs[i].outputs) <= worth(txs[i].claim.value)
  }

  /** The addresses claimed once the first `n` transactions of a block are in. */
  ghost function ClaimedBy(claimed: set<Address>, txs: seq<Transaction>, n: nat): set<Address>
    requires n <= |txs|
  {
    claimed + Elements(Claims(txs[..n]))
  }

  lemma ClaimsStep(txs: seq<Transaction>, n: nat)
    requires 0 < n <= |txs|
    ensures Claims(txs[..n]) == Claims(txs[..n - 1]) + if IsClaim(txs[n - 1]) then [txs[n - 1].claim.value] else []
  {
    assert txs[..n][..n - 1] == txs[..n - 1];
  }

  lemma {:induction false} ClaimsPrefix(txs: seq<Transaction>, m: nat, n: nat)
    requires m <= n <= |txs|
    ensures Claims(txs[..m]) <= Claims(txs[..n])
    decreases n
  {
    if m < n {
      ClaimsPrefix(txs, m, n - 1);
      ClaimsStep(txs, n);
    }
  }

  lemma PrefixElements<T>(a: seq<T>, b: seq<T>)
    requires a <= b
    ensures Elements(a) <= Elements(b)
  {
    assert forall x :: x in a ==> x in b;
  }

  lemma ClaimedGrows(claimed: set<Address>, txs: seq<Transaction>, n: nat)
    requires n <= |txs|
    ensures ClaimedBy(claimed, txs, n) <= ClaimedBy(claimed, txs, |txs|)
  {
    ClaimsPrefix(txs, n, |txs|);
    PrefixElements(Claims(txs[..n]), Claims(txs[..|txs|]));
  }

  /** A claim within a block is worth what its address is worth, since nobody claimed it before. */
  lemma ClaimAdds(worth: Address -> nat, claimed: set<Address>, txs: seq<Transaction>, n: nat)
    requires 0 < n <= |txs| && Unclaimed(claimed, Claims(txs))
    ensures ClaimWorth(worth, ClaimedBy(claimed, txs, n))
         == ClaimWorth(worth, ClaimedBy(claimed, txs, n - 1)) + if IsClaim(txs[n - 1]) then worth(txs[n - 1].claim.value) else 0
  {
    ClaimsStep(txs, n);
    if IsClaim(txs[n - 1]) {
      var a, before := txs[n - 1].claim.value, Claims(txs[..n - 1]);
      ElementsSnoc(before, a);
      ClaimsPrefix(txs, n, |txs|);
      assert txs[..|txs|] == txs;
      NewClaim(claimed, Claims(txs), before, a);
      OneMoreClaim(worth, ClaimedBy(claimed, txs, n - 1), a);
      assert ClaimedBy(claimed, txs, n) == ClaimedBy(claimed, txs, n - 1) + {a};
    } else {
      assert Claims(txs[..n]) == Claims(txs[..n - 1]);
    }
  }

  lemma NewClaim(claimed: set<Address>, claims: seq<Address>, before: seq<Address>, a: Address)
    requires Unclaimed(claimed, claims) && before + [a] <= claims
    ensures a !in claimed + Elements(before)
  {
    var n := |before|;
    assert claims[n] == (before + [a])[n] == a;
    forall i | 0 <= i < n ensures before[i] != a { assert claims[i] == (before + [a])[i] == before[i]; }
  }

  // ------------------------------------------------------------------- a block

  /** If the supply and the claims cover the money and there is room for what a transaction issues, they cover it after. */
  lemma TxCovered(env: Env, w: World, tx: Transaction, totalStaked: u64, w': World, supply: nat, claims: nat)
    requires StepsTo(env, w, Apply(tx, totalStaked), w') && forall at :: UtxoOk(w.state, w.used, at)
    requires TotalValue(w.state.utxos) <= supply + claims && claims <= MAX_SUPPLY
    requires supply + SupplyDelta(w.state.utxos, tx) <= MAX_SUPPLY
    ensures TotalValue(w'.state.utxos)
         <= supply + SupplyDelta(w.state.utxos, tx) + claims + if IsClaim(tx) then OutputValue(tx.outputs) else 0
  {
    TxValue(env, w, tx, totalStaked, w');
  }

  lemma {:induction false} DeltaGrows(b: Block, trail: seq<World>, m: nat, n: nat)
    requires |trail| == |b.txs| + 1 && m <= n <= |b.txs|
    ensures BlockSupplyDelta(b, trail, m) <= BlockSupplyDelta(b, trail, n)
    decreases n
  {
    if m < n { DeltaGrows(b, trail, m, n - 1); }
  }

  /** What a block starts from, and what it must keep to, for the supply and the claims to cover the money after it. */
  ghost predicate Coverable(env: Env, w: World, b: Block, trail: seq<World>, supply: nat, worth: Address -> nat, claimed: set<Address>) {
    && AppliesBlock(env, w, b, trail) && Unclaimed(claimed, Claims(b.txs)) && ClaimsWithin(worth, b.txs)
    && TotalValue(w.state.utxos) <= supply + ClaimWorth(worth, claimed)
    && supply + BlockSupplyDelta(b, trail, |b.txs|) <= MAX_SUPPLY
    && ClaimWorth(worth, ClaimedBy(claimed, b.txs, |b.txs|)) <= MAX_SUPPLY
  }

  ghost predicate CoveredAt(b: Block, trail: seq<World>, n: nat, supply: nat, worth: Address -> nat, claimed: set<Address>)
    requires |trail| == |b.txs| + 1 && n <= |b.txs|
  {
    TotalValue(trail[n].state.utxos) <= supply + BlockSupplyDelta(b, trail, n) + ClaimWorth(worth, ClaimedBy(claimed, b.txs, n))
  }

  lemma {:induction false} TrailCovered(env: Env, w: World, b: Block, trail: seq<World>, n: nat, supply: nat, worth: Address -> nat, claimed: set<Address>)
    requires Coverable(env, w, b, trail, supply, worth, claimed) && n <= |b.txs| && forall at :: UtxoOk(w.state, w.used, at)
    ensures CoveredAt(b, trail, n, supply, worth, claimed)
    decreases n
  {
    if n == 0 {
      assert ClaimedBy(claimed, b.txs, 0) == claimed;
    } else {
      TrailCovered(env, w, b, trail, n - 1, supply, worth, claimed);
      TrailStake(env, w, b, trail, n - 1);
      OneMoreCovered(env, w, b, trail, n, supply, worth, claimed, trail[n - 1]);
    }
  }

  lemma OneMoreCovered(env: Env, w: World, b: Block, trail: seq<World>, n: nat, supply: nat, worth: Address -> nat, claimed: set<Address>,
                       before: World)
    requires Coverable(env, w, b, trail, supply, worth, claimed) && 0 < n <= |b.txs|
    requires before == trail[n - 1] && (forall at :: UtxoOk(before.state, before.used, at))
    requires CoveredAt(b, trail, n - 1, supply, worth, claimed)
    ensures CoveredAt(b, trail, n, supply, worth, claimed)
  {
    assert AppliesTx(env, b, trail, n - 1);
    DeltaGrows(b, trail, n, |b.txs|);
    ClaimedGrows(claimed, b.txs, n - 1);
    FewerClaims(worth, ClaimedBy(claimed, b.txs, n - 1), ClaimedBy(claimed, b.txs, |b.txs|));
    ClaimAdds(worth, claimed, b.txs, n);
    TxCovered(env, before, b.txs[n - 1], b.staked, trail[n], supply + BlockSupplyDelta(b, trail, n - 1),
              ClaimWorth(worth, ClaimedBy(claimed, b.txs, n - 1)));
  }

  // ----------------------------------------------------------------- a history

  /** The recorded supply and the claims paid cover the value of all unspent outputs, and the supply is within the cap. */
  ghost function Covered(worth: Address -> nat): (World, Totals) -> bool {
    (w: World, t: Totals) => TotalValue(w.state.utxos) <= t.supply + ClaimWorth(worth, t.claimed) && t.supply <= MAX_SUPPLY
  }

  /** Every block that may have led from one node to the next keeps its claims within their worth. */
  ghost predicate ClaimsHonest(env: Env, n: ChainNode, n': ChainNode, worth: Address -> nat) {
    forall b, trail, t', j :: ExtendsBy(env, n, b, trail, t', j, n') ==> ClaimsWithin(worth, b.txs)
  }

  lemma ExtendKeepsCovered(env: Env, n: ChainNode, b: Block, trail: seq<World>, t': Totals, j: Journal, n': ChainNode, worth: Address -> nat)
    requires NodeOk(env, n) && ExtendsBy(env, n, b, trail, t', j, n') && Histories.Throughout(Covered(worth), n)
    requires ClaimsWithin(worth, b.txs) && ClaimWorth(worth, n'.totals.claimed) <= MAX_SUPPLY
    ensures Histories.Throughout(Covered(worth), n')
  {
    AppendedCovered(env, n.run, n.world, b, trail, n.totals, t', worth);
    ExtendKeeps(env, Covered(worth), n, b, trail, t', j, n');
  }

  lemma AppendedCovered(env: Env, run: seq<World>, w: World, b: Block, trail: seq<World>, t: Totals, t': Totals, worth: Address -> nat)
    requires IsRun(env, run) && w == run[|run| - 1] && AppliesBlock(env, w, b, trail) && Counts(env, w, b, trail, t, t')
    requires Covered(worth)(w, t) && ClaimsWithin(worth, b.txs) && ClaimWorth(worth, t'.claimed) <= MAX_SUPPLY
    ensures Covered(worth)(trail[|b.txs|], t')
  {
    RunOutputsOk(env, run, |run| - 1);
    BlockCovered(env, w, b, trail, t, t', worth);
  }

  lemma BlockCovered(env: Env, w: World, b: Block, trail: seq<World>, t: Totals, t': Totals, worth: Address -> nat)
    requires AppliesBlock(env, w, b, trail) && Counts(env, w, b, trail, t, t') && Covered(worth)(w, t)
    requires (forall at :: UtxoOk(w.state, w.used, at)) && ClaimsWithin(worth, b.txs) && ClaimWorth(worth, t'.claimed) <= MAX_SUPPLY
    ensures Covered(worth)(trail[|b.txs|], t')
  {
    assert b.txs[..|b.txs|] == b.txs;
    TrailCovered(env, w, b, trail, |b.txs|, t.supply, worth, t.claimed);
  }

  lemma ProgressKeepsCovered(env: Env, n: ChainNode, n': ChainNode, worth: Address -> nat)
    requires NodeOk(env, n) && Progress(env, n, n') && Histories.Throughout(Covered(worth), n)
    requires ClaimsHonest(env, n, n', worth) && ClaimWorth(worth, n'.totals.claimed) <= MAX_SUPPLY
    ensures Histories.Throughout(Covered(worth), n')
  {
    if Extends(env, n, n') {
      var block, trail, t', j :| ExtendsBy(env, n, block, trail, t', j, n');
      ExtendKeepsCovered(env, n, block, trail, t', j, n', worth);
    } else {
      OthersKeep(env, Covered(worth), n, n');
    }
  }

  /** The history up to a node keeps its claims within their worth, and that within the cap. */
  ghost predicate HonestUpTo(env: Env, nodes: seq<ChainNode>, n: nat, worth: Address -> nat)
    requires n < |nodes|
  {
    forall i :: 0 <= i < n ==> HonestAt(env, nodes, i, worth)
  }

  ghost predicate HonestAt(env: Env, nodes: seq<ChainNode>, i: nat, worth: Address -> nat)
    requires i + 1 < |nodes|
  {
    ClaimsHonest(env, nodes[i], nodes[i + 1], worth) && ClaimWorth(worth, nodes[i + 1].totals.claimed) <= MAX_SUPPLY
  }

  lemma OneMoreNode(env: Env, nodes: seq<ChainNode>, n: nat, worth: Address -> nat)
    requires NodeHistory(env, nodes) && 0 < n < |nodes| && NodeOk(env, nodes[n - 1])
    requires HonestAt(env, nodes, n - 1, worth) && Histories.Throughout(Covered(worth), nodes[n - 1])
    ensures Histories.Throughout(Covered(worth), nodes[n])
  {
    assert ProgressAt(env, nodes, n - 1);
    ProgressKeepsCovered(env, nodes[n - 1], nodes[n], worth);
  }

  lemma {:induction false} HistoryCovered(env: Env, nodes: seq<ChainNode>, n: nat, worth: Address -> nat)
    requires NodeHistory(env, nodes) && n < |nodes| && Covered(worth)(nodes[0].world, nodes[0].totals) && HonestUpTo(env, nodes, n, worth)
    ensures Histories.Throughout(Covered(worth), nodes[n])
    decreases n
  {
    if n > 0 {
      HonestBefore(env, nodes, n, worth);
      HistoryCovered(env, nodes, n - 1, worth);
      HistoryKeepsOk(env, nodes, n - 1);
      OneMoreNode(env, nodes, n, worth);
    }
  }

  lemma HonestBefore(env: Env, nodes: seq<ChainNode>, n: nat, worth: Address -> nat)
    requires 0 < n < |nodes| && HonestUpTo(env, nodes, n, worth)
    ensures HonestUpTo(env, nodes, n - 1, worth) && HonestAt(env, nodes, n - 1, worth)
  {
    forall i | 0 <= i < n - 1 ensures HonestAt(env, nodes, i, worth) {}
  }

  /**
   * Over every history of blocks, rollbacks and trims: all unspent outputs together are worth at most the recorded
   * supply, which is at most 20 million coins, and what the claimed legacy addresses are worth.
   */
  lemma SupplyCoversMoney(env: Env, nodes: seq<ChainNode>, n: nat, worth: Address -> nat)
    requires NodeHistory(env, nodes) && n < |nodes| && HonestUpTo(env, nodes, n, worth)
    requires TotalValue(nodes[0].world.state.utxos) <= nodes[0].totals.supply + ClaimWorth(worth, nodes[0].totals.claimed)
    requires nodes[0].totals.supply <= MAX_SUPPLY
    ensures var t := nodes[n].totals;
            TotalValue(nodes[n].world.state.utxos) <= t.supply + ClaimWorth(worth, t.claimed) && t.supply <= 20_000_000 * 100_000_000
  {
    HistoryCovered(env, nodes, n, worth);
  }
}
