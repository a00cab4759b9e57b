/** What the start of a block guarantees. */
module GovernanceBlocks {
  import opened Machine
  import opened Consensus
  import opened Sorting
  import opened GovernanceTypes
  import opened GovernanceRules

  ghost predicate NoRepeats(s: seq<Rank>) {
    forall i, j :: 0 <= i < j < |s| ==> s[i].id != s[j].id
  }

  lemma {:induction false} SameRanks(a: seq<Rank>, b: seq<Rank>)
    requires NoRepeats(a) && NoRepeats(b)
    requires forall r :: r in a <==> r in b
    ensures multiset(a) == multiset(b)
  {
    forall r: Rank ensures multiset(a)[r] == multiset(b)[r] {
      OnceInMultiset(a, r);
      OnceInMultiset(b, r);
      assert r in a <==> r in multiset(a);
      assert r in b <==> r in multiset(b);
    }
  }

  /** The order of due activations is determined by the proposals alone. */
  lemma DueOrderUnique(proposals: Proposals, height: u32, a: seq<Rank>, b: seq<Rank>)
    requires DueOrder(proposals, height, a) && DueOrder(proposals, height, b)
    ensures a == b
  {
    forall r | r in a ensures r in b { assert r == RankOf(proposals, r.id); }
    forall r | r in b ensures r in a { assert r == RankOf(proposals, r.id); }
    SameRanks(a, b);
    SortedUnique(a, b, RankLe);
  }

  /** Every node that starts the same block from the same state reaches the same state and parameters. */
  lemma BeginBlockDeterministic(env: Env, g: Gov, params: Params, utxos: UtxoMap, height: u32, timestamp: u32,
                                g1: Gov, p1: Params, g2: Gov, p2: Params)
    requires BeginsBlock(env, g, params, utxos, height, timestamp, g1, p1)
    requires BeginsBlock(env, g, params, utxos, height, timestamp, g2, p2)
    ensures g1 == g2 && p1 == p2
  {
    var decided := DecideAll(g.proposals, height);
    var a :| DueOrder(decided, height, a)
      && Activated(g1.proposals, p1) == ActivateAll(env, decided, params, utxos, timestamp, a);
    var b :| DueOrder(decided, height, b)
      && Activated(g2.proposals, p2) == ActivateAll(env, decided, params, utxos, timestamp, b);
    DueOrderUnique(decided, height, a, b);
  }

  ghost predicate InOrder(order: seq<Rank>, id: ProposalId) {
    exists i :: 0 <= i < |order| && order[i].id == id
  }

  /** How activation changes one record: at most the two fields that say it was tried. */
  ghost predicate OnlyTried(before: ProposalRecord, after: ProposalRecord) {
    after == before.(applied := after.applied, activationFailed := after.activationFailed)
  }

  lemma {:induction false} ActivateAllEffect(env: Env, proposals: Proposals, params: Params, utxos: UtxoMap, timestamp: u32, order: seq<Rank>)
    requires forall i :: 0 <= i < |order| ==> order[i].id in proposals
    ensures var r := ActivateAll(env, proposals, params, utxos, timestamp, order);
            && r.proposals.Keys == proposals.Keys
            && (forall id :: id in proposals ==>
                  if InOrder(order, id) then OnlyTried(proposals[id], r.proposals[id]) && r.proposals[id].applied
                  else r.proposals[id] == proposals[id])
    decreases |order|
  {
    if order != [] {
      var rec := proposals[order[0].id];
      var next := TryActivate(env, rec, params, utxos, timestamp);
      var proposals' := proposals[order[0].id := rec.(applied := true, activationFailed := next.None?)];
      var params' := if next.Some? then next.value else params;
      ActivateAllEffect(env, proposals', params', utxos, timestamp, order[1..]);
      forall id | id in proposals ensures InOrder(order, id) <==> id == order[0].id || InOrder(order[1..], id) {
        if InOrder(order, id) && id != order[0].id {
          var i :| 0 <= i < |order| && order[i].id == id;
          assert order[1..][i - 1].id == id;
        }
        if InOrder(order[1..], id) {
          var i :| 0 <= i < |order[1..]| && order[1..][i].id == id;
          assert order[i + 1].id == id;
        }
      }
    }
  }

  lemma {:induction false} ActivateAllParams(env: Env, proposals: Proposals, params: Params, utxos: UtxoMap, timestamp: u32, order: seq<Rank>)
    requires forall i :: 0 <= i < |order| ==> order[i].id in proposals
    ensures var r := ActivateAll(env, proposals, params, utxos, timestamp, order);
            && (r.params == params || SomeEligible(env, r.params, utxos, timestamp))
            && (InRange(params) ==> InRange(r.params))
            && (order == [] ==> r.params == params)
    decreases |order|
  {
    if order != [] {
      var rec := proposals[order[0].id];
      var next := TryActivate(env, rec, params, utxos, timestamp);
      ActivateAllParams(env, proposals[order[0].id := rec.(applied := true, activationFailed := next.None?)],
                        if next.Some? then next.value else params, utxos, timestamp, order[1..]);
    }
  }

  /**
   * Starting a block, however many activations fall due in it, either leaves the parameters alone or leaves
   * some output eligible to stake under the new ones; parameters in range stay in range; and with no
   * activation due nothing changes.
   */
  lemma BeginBlockKeepsStakingPossible(env: Env, g: Gov, params: Params, utxos: UtxoMap, height: u32, timestamp: u32, g': Gov, params': Params)
    requires BeginsBlock(env, g, params, utxos, height, timestamp, g', params')
    ensures params' == params || SomeEligible(env, params', utxos, timestamp)
    ensures InRange(params) ==> InRange(params')
    ensures (forall id :: id in g.proposals ==> !Due(Decide(g.proposals[id], height), height)) ==> params' == params
  {
    var decided := DecideAll(g.proposals, height);
    var order: seq<Rank> :| DueOrder(decided, height, order)
      && Activated(g'.proposals, params') == ActivateAll(env, decided, params, utxos, timestamp, order);
    ActivateAllParams(env, decided, params, utxos, timestamp, order);
    if order != [] {
      assert Due(decided[order[0].id], height);
    }
  }

  /** How the start of a block changes one proposal record. */
  ghost predicate BegunRecord(before: ProposalRecord, after: ProposalRecord, height: u32) {
    var d := Decide(before, height);
    && OnlyTried(d, after)
    && (if Due(d, height) then after.applied else after == d)
  }

  /** Each record is decided when its voting ends, tried once when its activation falls due, and otherwise kept. */
  lemma BeginBlockRecords(env: Env, g: Gov, params: Params, utxos: UtxoMap, height: u32, timestamp: u32, g': Gov, params': Params)
    requires BeginsBlock(env, g, params, utxos, height, timestamp, g', params')
    ensures g'.proposals.Keys == g.proposals.Keys
    ensures forall id :: id in g.proposals ==> BegunRecord(g.proposals[id], g'.proposals[id], height)
  {
    var decided := DecideAll(g.proposals, height);
    var order: seq<Rank> :| DueOrder(decided, height, order)
      && Activated(g'.proposals, params') == ActivateAll(env, decided, params, utxos, timestamp, order);
    ActivateAllEffect(env, decided, params, utxos, timestamp, order);
    forall id | id in g.proposals ensures InOrder(order, id) <==> Due(decided[id], height) {
      if Due(decided[id], height) {
        assert RankOf(decided, id) in order;
        var i :| 0 <= i < |order| && order[i] == RankOf(decided, id);
        assert order[i].id == id;
      }
    }
  }
}
