/**
 * What the activations of a block do to the parameters, said of the proposals and parameters alone.
 *
 * A proposal was tried in a block if its record says so after the block start and did not before.
 */
module Activations {
  import opened Machine
  import opened Consensus
  import opened GovernanceTypes
  import opened GovernanceRules
  import opened GovernanceBlocks
  import opened Ledger

  // ------------------------------------------------------------ one activation

  /** An output of a stakeable kind, of enough value, and neither too young nor too old. */
  predicate StakesUnder(env: Env, q: Params, u: Utxo, timestamp: u32) {
    && (env.classify(u.script) == P2PKH || env.classify(u.script) == P2CS)
    && q.minStakeAmount <= u.value
    && u.timestamp + q.minStakeAge <= timestamp <= u.timestamp + q.maxStakeAge
  }

  ghost predicate CanStake(env: Env, q: Params, utxos: UtxoMap, timestamp: u32) {
    exists at :: at in utxos && StakesUnder(env, q, utxos[at], timestamp)
  }

  /** A proposal turns `q` into `q'`: policy admits the change, and some output can stake after it. */
  ghost predicate TakesEffect(env: Env, p: Proposal, q: Params, utxos: UtxoMap, timestamp: u32, q': Params) {
    Admits(p.param, q, p.newValue, q') && CanStake(env, q', utxos, timestamp)
  }

  /** One activation: it takes effect if it can, and otherwise changes nothing and is marked as failed. */
  ghost predicate Activates(env: Env, p: Proposal, q: Params, utxos: UtxoMap, timestamp: u32, q': Params, failed: bool) {
    if failed then q' == q && forall x :: !TakesEffect(env, p, q, utxos, timestamp, x)
    else TakesEffect(env, p, q, utxos, timestamp, q')
  }

  lemma TryExactly(env: Env, rec: ProposalRecord, params: Params, utxos: UtxoMap, timestamp: u32)
    ensures var next := TryActivate(env, rec, params, utxos, timestamp);
            Activates(env, rec.proposal, params, utxos, timestamp, if next.Some? then next.value else params, next.None?)
  {
    var p := rec.proposal;
    ApplyExactly(p.param, params, p.newValue);
    forall q ensures CanStake(env, q, utxos, timestamp) <==> SomeEligible(env, q, utxos, timestamp) {
      SameEligible(env, q, utxos, timestamp);
    }
    forall x | TakesEffect(env, p, params, utxos, timestamp, x) ensures TryActivate(env, rec, params, utxos, timestamp) == Some(x) {
      assert Admits(p.param, params, p.newValue, x);
    }
    var candidate := Consensus.Apply(p.param, params, p.newValue);
    if candidate.Some? { assert Admits(p.param, params, p.newValue, candidate.value); }
  }

  lemma SameEligible(env: Env, q: Params, utxos: UtxoMap, timestamp: u32)
    ensures CanStake(env, q, utxos, timestamp) <==> SomeEligible(env, q, utxos, timestamp)
  {
    if CanStake(env, q, utxos, timestamp) {
      var at :| at in utxos && StakesUnder(env, q, utxos[at], timestamp);
      assert EligibleAt(env, q, utxos[at], timestamp);
    }
    if SomeEligible(env, q, utxos, timestamp) {
      var at :| at in utxos && EligibleAt(env, q, utxos[at], timestamp);
      assert StakesUnder(env, q, utxos[at], timestamp);
    }
  }

  // ----------------------------------------------------------- several in a row

  ghost predicate ActivationAt(env: Env, proposals: Proposals, utxos: UtxoMap, timestamp: u32, order: seq<ProposalId>, stages: seq<Params>, i: nat)
    requires i < |order| && i + 1 < |stages|
  {
    && order[i] in proposals
    && Activates(env, proposals[order[i]].proposal, stages[i], utxos, timestamp, stages[i + 1], proposals[order[i]].activationFailed)
  }

  /** Activations one after the other, each on the parameters the ones before it left. */
  ghost predicate ActivatesAll(env: Env, proposals: Proposals, utxos: UtxoMap, timestamp: u32, order: seq<ProposalId>, stages: seq<Params>) {
    && |stages| == |order| + 1
    && forall i :: 0 <= i < |order| ==> ActivationAt(env, proposals, utxos, timestamp, order, stages, i)
  }

  function IdsOf(order: seq<Rank>): (ids: seq<ProposalId>)
    ensures |ids| == |order| && forall i :: 0 <= i < |order| ==> ids[i] == order[i].id
  {
    seq(|order|, i requires 0 <= i < |order| => order[i].id)
  }

  lemma {:induction false} ActivateAllExactly(env: Env, proposals: Proposals, params: Params, utxos: UtxoMap, timestamp: u32, order: seq<Rank>)
    returns (stages: seq<Params>)
    requires NoRepeats(order) && forall i :: 0 <= i < |order| ==> order[i].id in proposals
    ensures var r := ActivateAll(env, proposals, params, utxos, timestamp, order);
            && ActivatesAll(env, r.proposals, utxos, timestamp, IdsOf(order), stages)
            && stages[0] == params && stages[|order|] == r.params
    decreases |order|
  {
    if order == [] {
      stages := [params];
    } else {
      var id := order[0].id;
      var next := TryActivate(env, proposals[id], params, utxos, timestamp);
      var proposals' := proposals[id := proposals[id].(applied := true, activationFailed := next.None?)];
      var params' := if next.Some? then next.value else params;
      TryExactly(env, proposals[id], params, utxos, timestamp);
      var rest := ActivateAllExactly(env, proposals', params', utxos, timestamp, order[1..]);
      stages := [params] + rest;
      FirstStays(env, proposals', params', utxos, timestamp, order);
      var r := ActivateAll(env, proposals', params', utxos, timestamp, order[1..]);
      forall i | 0 <= i < |order| ensures ActivationAt(env, r.proposals, utxos, timestamp, IdsOf(order), stages, i) {
        if i > 0 { assert ActivationAt(env, r.proposals, utxos, timestamp, IdsOf(order[1..]), rest, i - 1); }
      }
    }
  }

  /** Later activations leave the record of the first one alone. */
  lemma FirstStays(env: Env, proposals: Proposals, params: Params, utxos: UtxoMap, timestamp: u32, order: seq<Rank>)
    requires order != [] && NoRepeats(order) && forall i :: 0 <= i < |order| ==> order[i].id in proposals
    ensures var r := ActivateAll(env, proposals, params, utxos, timestamp, order[1..]);
            order[0].id in r.proposals && r.proposals[order[0].id] == proposals[order[0].id]
  {
    ActivateAllEffect(env, proposals, params, utxos, timestamp, order[1..]);
    assert !InOrder(order[1..], order[0].id);
  }

  // ------------------------------------------------------------------- a block

  /** By activation height, then by creation height, then by id. */
  predicate Precedes(proposals: Proposals, a: ProposalId, b: ProposalId)
    requires a in proposals && b in proposals
  {
    var x, y := proposals[a], proposals[b];
    || x.proposal.activationHeight < y.proposal.activationHeight
    || (x.proposal.activationHeight == y.proposal.activationHeight
        && (x.createdHeight < y.createdHeight || (x.createdHeight == y.createdHeight && a < b)))
  }

  predicate Tried(before: Proposals, after: Proposals, id: ProposalId) {
    id in before && id in after && !before[id].applied && after[id].applied
  }

  /** The proposals tried in a block, each once and in turn. */
  ghost predicate InTurn(before: Proposals, after: Proposals, order: seq<ProposalId>) {
    && (forall id :: id in order <==> Tried(before, after, id))
    && forall i, j :: 0 <= i < j < |order| ==> order[i] in after && order[j] in after && Precedes(after, order[i], order[j])
  }

  ghost predicate BlockActivates(env: Env, s: State, s': State, order: seq<ProposalId>, stages: seq<Params>) {
    && InTurn(s.gov.proposals, s'.gov.proposals, order)
    && ActivatesAll(env, s'.gov.proposals, s.utxos, s'.timestamp, order, stages)
    && stages[0] == s.params && stages[|order|] == s'.params
  }

  lemma BeginActivates(env: Env, g: Gov, params: Params, utxos: UtxoMap, height: u32, timestamp: u32, g': Gov, params': Params)
    returns (order: seq<ProposalId>, stages: seq<Params>)
    requires BeginsBlock(env, g, params, utxos, height, timestamp, g', params')
    ensures InTurn(g.proposals, g'.proposals, order) && ActivatesAll(env, g'.proposals, utxos, timestamp, order, stages)
    ensures stages[0] == params && stages[|order|] == params'
  {
    var decided := DecideAll(g.proposals, height);
    var ranks: seq<Rank> :| DueOrder(decided, height, ranks)
      && Activated(g'.proposals, params') == ActivateAll(env, decided, params, utxos, timestamp, ranks);
    order := IdsOf(ranks);
    stages := ActivateAllExactly(env, decided, params, utxos, timestamp, ranks);
    BeginBlockRecords(env, g, params, utxos, height, timestamp, g', params');
    DueAreTried(g.proposals, g'.proposals, height, ranks);
    RanksInTurn(decided, g'.proposals, height, ranks);
  }

  lemma DueAreTried(before: Proposals, after: Proposals, height: u32, ranks: seq<Rank>)
    requires DueOrder(DecideAll(before, height), height, ranks) && after.Keys == before.Keys
    requires forall id :: id in before ==> BegunRecord(before[id], after[id], height)
    ensures forall id :: id in IdsOf(ranks) <==> Tried(before, after, id)
  {
    var decided := DecideAll(before, height);
    forall id ensures id in IdsOf(ranks) <==> Tried(before, after, id) {
      if id in before {
        assert BegunRecord(before[id], after[id], height);
        if Due(decided[id], height) {
          assert RankOf(decided, id) in ranks;
          var i :| 0 <= i < |ranks| && ranks[i] == RankOf(decided, id);
          assert IdsOf(ranks)[i] == id;
        }
      }
    }
  }

  lemma RanksInTurn(decided: Proposals, after: Proposals, height: u32, ranks: seq<Rank>)
    requires DueOrder(decided, height, ranks) && after.Keys == decided.Keys
    requires forall id :: id in decided ==> OnlyTried(decided[id], after[id])
    ensures var order := IdsOf(ranks);
            forall i, j :: 0 <= i < j < |order| ==> order[i] in after && order[j] in after && Precedes(after, order[i], order[j])
  {
    forall i, j | 0 <= i < j < |ranks| ensures ranks[i].id in after && ranks[j].id in after && Precedes(after, ranks[i].id, ranks[j].id) {
      assert RankLe(ranks[i], ranks[j]) && ranks[i].id != ranks[j].id;
      assert OnlyTried(decided[ranks[i].id], after[ranks[i].id]) && OnlyTried(decided[ranks[j].id], after[ranks[j].id]);
    }
  }
}
