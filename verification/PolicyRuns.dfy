/** Over whole runs: where parameters come from, and where counted identities come from. */
module PolicyRuns {
  import opened Machine
  import opened Consensus
  import opened GovernanceTypes
  import opened GovernanceBlocks
  import opened GovernancePolicy
  import opened Activations
  import opened Ledger

  // ---------------------------------------------------------------- parameters

  /** Over every run: a block start tries its due proposals in turn, and its parameters are what they leave. */
  lemma BlockActivations(env: Env, run: seq<World>, i: nat) returns (order: seq<ProposalId>, stages: seq<Params>)
    requires IsRun(env, run) && i + 1 < |run| && run[i].state.height < run[i + 1].state.height
    ensures BlockActivates(env, run[i].state, run[i + 1].state, order, stages)
  {
    var w, w' := run[i], run[i + 1];
    assert NextAt(env, run, i);
    RunFlagged(env, run, i + 1);
    var step :| StepsTo(env, w, step, w');
    match step
    case Begin(timestamp, version) =>
      BeginIsBlockStart(env, w, timestamp, version, w');
      order, stages := BeginActivates(env, w.state.gov, w.state.params, w.state.utxos, w'.state.height, timestamp,
                                      w'.state.gov, w'.state.params);
    case Apply(_, _) => assert false;
  }

  /** The parameters never change but at a block start. */
  lemma ParamsStayInBlock(env: Env, run: seq<World>, i: nat)
    requires IsRun(env, run) && i + 1 < |run| && run[i].state.height == run[i + 1].state.height
    ensures run[i + 1].state.params == run[i].state.params
  {
    assert NextAt(env, run, i);
    var step :| StepsTo(env, run[i], step, run[i + 1]);
  }

  ghost predicate OneTried(before: Proposals, after: Proposals, id: ProposalId) {
    Tried(before, after, id) && forall k :: Tried(before, after, k) ==> k == id
  }

  lemma NoneTwice(before: Proposals, after: Proposals, order: seq<ProposalId>)
    requires InTurn(before, after, order)
    ensures forall i, j :: 0 <= i < j < |order| ==> order[i] != order[j]
  {
    forall i, j | 0 <= i < j < |order| ensures order[i] != order[j] { assert Precedes(after, order[i], order[j]); }
  }

  lemma SoleInOrder(before: Proposals, after: Proposals, order: seq<ProposalId>, id: ProposalId)
    requires InTurn(before, after, order) && OneTried(before, after, id)
    ensures order == [id]
  {
    assert id in order;
    forall i | 0 <= i < |order| ensures order[i] == id { assert order[i] in order; }
    if |order| > 1 {
      var first, second := order[0], order[1];
      NoneTwice(before, after, order);
    }
  }

  /**
   * A block that tries one proposal sets the parameter it names to the value it names, and no other, exactly if policy
   * admits that and some output can stake afterwards; otherwise nothing changes; and the record says which.
   */
  lemma OneActivation(env: Env, run: seq<World>, i: nat, id: ProposalId)
    requires IsRun(env, run) && i + 1 < |run| && run[i].state.height < run[i + 1].state.height
    requires OneTried(run[i].state.gov.proposals, run[i + 1].state.gov.proposals, id)
    ensures var s, s' := run[i].state, run[i + 1].state;
            Activates(env, s'.gov.proposals[id].proposal, s.params, s.utxos, s'.timestamp, s'.params, s'.gov.proposals[id].activationFailed)
  {
    var s, s' := run[i].state, run[i + 1].state;
    var order, stages := BlockActivations(env, run, i);
    SoleInOrder(s.gov.proposals, s'.gov.proposals, order, id);
    assert ActivationAt(env, s'.gov.proposals, s.utxos, s'.timestamp, order, stages, 0);
  }

  /** Whether the `i`th of some activations named parameter `f` and took effect. */
  predicate SetsField(proposals: Proposals, order: seq<ProposalId>, f: ParamId, i: nat) {
    i < |order| && order[i] in proposals && proposals[order[i]].proposal.param == f && !proposals[order[i]].activationFailed
  }

  /** After the first `n`, the parameter is what the last effective one among them set it to, or as it was. */
  ghost predicate FieldFrom(proposals: Proposals, order: seq<ProposalId>, stages: seq<Params>, f: ParamId, n: nat)
    requires n < |stages| == |order| + 1
  {
    || (Field(f, stages[n]) == Field(f, stages[0]) && forall i :: 0 <= i < n ==> !SetsField(proposals, order, f, i))
    || exists i :: 0 <= i < n && SetsField(proposals, order, f, i) && Field(f, stages[n]) == proposals[order[i]].proposal.newValue
                   && forall j :: i < j < n ==> !SetsField(proposals, order, f, j)
  }

  lemma {:induction false} FieldFollows(env: Env, proposals: Proposals, utxos: UtxoMap, timestamp: u32, order: seq<ProposalId>, stages: seq<Params>,
                                        f: ParamId, n: nat)
    requires ActivatesAll(env, proposals, utxos, timestamp, order, stages) && n < |stages|
    ensures FieldFrom(proposals, order, stages, f, n)
    decreases n
  {
    if n > 0 {
      FieldFollows(env, proposals, utxos, timestamp, order, stages, f, n - 1);
      assert ActivationAt(env, proposals, utxos, timestamp, order, stages, n - 1);
      var rec := proposals[order[n - 1]];
      if SetsField(proposals, order, f, n - 1) {
        assert Field(f, stages[n]) == rec.proposal.newValue;
      } else {
        assert Field(f, stages[n]) == Field(f, stages[n - 1]);
        FieldKept(proposals, order, stages, f, n);
      }
    }
  }

  lemma FieldKept(proposals: Proposals, order: seq<ProposalId>, stages: seq<Params>, f: ParamId, n: nat)
    requires 0 < n < |stages| == |order| + 1 && FieldFrom(proposals, order, stages, f, n - 1)
    requires Field(f, stages[n]) == Field(f, stages[n - 1]) && !SetsField(proposals, order, f, n - 1)
    ensures FieldFrom(proposals, order, stages, f, n)
  {
    if exists i :: 0 <= i < n - 1 && SetsField(proposals, order, f, i) && Field(f, stages[n - 1]) == proposals[order[i]].proposal.newValue
                   && forall j :: i < j < n - 1 ==> !SetsField(proposals, order, f, j) {
      var i :| 0 <= i < n - 1 && SetsField(proposals, order, f, i) && Field(f, stages[n - 1]) == proposals[order[i]].proposal.newValue
               && forall j :: i < j < n - 1 ==> !SetsField(proposals, order, f, j);
      assert forall j :: i < j < n ==> !SetsField(proposals, order, f, j);
    }
  }

  /** The proposal tried in this block named parameter `f` and took effect. */
  predicate Effective(s: State, s': State, f: ParamId, id: ProposalId) {
    && Tried(s.gov.proposals, s'.gov.proposals, id)
    && s'.gov.proposals[id].proposal.param == f && !s'.gov.proposals[id].activationFailed
  }

  /** The last effective one, in the order of activation height, creation height and id. */
  ghost predicate LastEffective(s: State, s': State, f: ParamId, id: ProposalId) {
    && Effective(s, s', f, id)
    && forall other :: Effective(s, s', f, other) && other != id ==> Precedes(s'.gov.proposals, other, id)
  }

  /**
   * Over every run: after a block start, a parameter that no proposal tried there named and changed is as it was, and
   * one that some did has the value of the last of them.
   */
  lemma ParamsComeFromProposals(env: Env, run: seq<World>, i: nat, f: ParamId)
    requires IsRun(env, run) && i + 1 < |run| && run[i].state.height < run[i + 1].state.height
    ensures var s, s' := run[i].state, run[i + 1].state;
            || (Field(f, s'.params) == Field(f, s.params) && forall id :: !Effective(s, s', f, id))
            || exists id :: LastEffective(s, s', f, id) && Field(f, s'.params) == s'.gov.proposals[id].proposal.newValue
  {
    var s, s' := run[i].state, run[i + 1].state;
    var after := s'.gov.proposals;
    var order, stages := BlockActivations(env, run, i);
    FieldFollows(env, after, s.utxos, s'.timestamp, order, stages, f, |order|);
    if forall k :: 0 <= k < |order| ==> !SetsField(after, order, f, k) {
      forall id ensures !Effective(s, s', f, id) { NoneEffective(s, s', order, f, id); }
    } else {
      var k :| 0 <= k < |order| && SetsField(after, order, f, k) && Field(f, stages[|order|]) == after[order[k]].proposal.newValue
               && forall j :: k < j < |order| ==> !SetsField(after, order, f, j);
      LastInOrder(s, s', order, f, k);
    }
  }

  lemma NoneEffective(s: State, s': State, order: seq<ProposalId>, f: ParamId, id: ProposalId)
    requires InTurn(s.gov.proposals, s'.gov.proposals, order)
    requires forall k :: 0 <= k < |order| ==> !SetsField(s'.gov.proposals, order, f, k)
    ensures !Effective(s, s', f, id)
  {
    if Effective(s, s', f, id) {
      assert id in order;
      var k :| 0 <= k < |order| && order[k] == id;
      assert SetsField(s'.gov.proposals, order, f, k);
    }
  }

  lemma LastInOrder(s: State, s': State, order: seq<ProposalId>, f: ParamId, k: nat)
    requires InTurn(s.gov.proposals, s'.gov.proposals, order) && SetsField(s'.gov.proposals, order, f, k)
    requires forall j :: k < j < |order| ==> !SetsField(s'.gov.proposals, order, f, j)
    ensures LastEffective(s, s', f, order[k])
  {
    assert order[k] in order;
    forall other | Effective(s, s', f, other) && other != order[k] ensures Precedes(s'.gov.proposals, other, order[k]) {
      assert other in order;
      var j :| 0 <= j < |order| && order[j] == other;
      assert SetsField(s'.gov.proposals, order, f, j);
    }
  }

  // ---------------------------------------------------------------- identities

  /** Output `j` of a transaction is a vote for `id`, under identity `origin`, by the owner of mature stake. */
  ghost predicate VotesFor(env: Env, s: State, tx: Transaction, j: nat, id: ProposalId, origin: OutPoint) {
    && j < |tx.outputs|
    && match env.payload(tx.outputs[j].script)
       case VotePayload(v) =>
         && v.proposal == id && v.outpoint in s.utxos && Origin(s.gov, v.outpoint) == origin
         && Mature(env, Context(s.height, s.timestamp, s.utxos, s.params, 0), s.utxos[v.outpoint])
         && env.voter(v, s.utxos[v.outpoint]).Some?
       case _ => false
  }

  /** Step `k` of a run applies a transaction that votes so. */
  ghost predicate EnteredAt(env: Env, run: seq<World>, k: nat, id: ProposalId, origin: OutPoint)
    requires k + 1 < |run|
  {
    exists tx, totalStaked, j :: StepsTo(env, run[k], Apply(tx, totalStaked), run[k + 1]) && VotesFor(env, run[k].state, tx, j, id, origin)
  }

  function VotedIn(g: Gov, id: ProposalId): set<OutPoint> { if id in g.proposals then g.proposals[id].voted else {} }

  /** Taking outputs never changes the identity an output votes under. */
  lemma OutputKeepsOrigin(env: Env, g: Gov, ctx: Context, o: TxOutput, g': Gov, at: OutPoint)
    requires OutputTaken(env, g, ctx, o, g')
    ensures Origin(g', at) == Origin(g, at)
  {
  }

  lemma OutputEnters(env: Env, g: Gov, ctx: Context, o: TxOutput, g': Gov, id: ProposalId, origin: OutPoint)
    requires OutputTaken(env, g, ctx, o, g') && origin in VotedIn(g', id) && origin !in VotedIn(g, id)
    ensures env.payload(o.script).VotePayload?
    ensures var v := env.payload(o.script).vote;
            v.proposal == id && v.outpoint in ctx.utxos && Origin(g, v.outpoint) == origin
            && Mature(env, ctx, ctx.utxos[v.outpoint]) && env.voter(v, ctx.utxos[v.outpoint]).Some?
  {
  }

  lemma {:induction false} StatesKeepOrigin(env: Env, ctx: Context, outputs: seq<TxOutput>, states: seq<Gov>, n: nat, at: OutPoint)
    requires AllTaken(env, ctx, outputs, states) && n <= |outputs|
    ensures Origin(states[n], at) == Origin(states[0], at)
    decreases n
  {
    if n > 0 {
      StatesKeepOrigin(env, ctx, outputs, states, n - 1, at);
      assert TakenAt(env, ctx, outputs, states, n - 1);
      OutputKeepsOrigin(env, states[n - 1], ctx, outputs[n - 1], states[n], at);
    }
  }

  lemma {:induction false} SomeOutputEnters(env: Env, ctx: Context, outputs: seq<TxOutput>, states: seq<Gov>, n: nat, id: ProposalId, origin: OutPoint)
    returns (j: nat)
    requires AllTaken(env, ctx, outputs, states) && n <= |outputs|
    requires origin in VotedIn(states[n], id) && origin !in VotedIn(states[0], id)
    ensures j < n && env.payload(outputs[j].script).VotePayload?
    ensures var v := env.payload(outputs[j].script).vote;
            v.proposal == id && v.outpoint in ctx.utxos && Origin(states[0], v.outpoint) == origin
            && Mature(env, ctx, ctx.utxos[v.outpoint]) && env.voter(v, ctx.utxos[v.outpoint]).Some?
    decreases n
  {
    if origin in VotedIn(states[n - 1], id) {
      j := SomeOutputEnters(env, ctx, outputs, states, n - 1, id, origin);
    } else {
      j := n - 1;
      assert TakenAt(env, ctx, outputs, states, j);
      OutputEnters(env, states[j], ctx, outputs[j], states[n], id, origin);
      StatesKeepOrigin(env, ctx, outputs, states, j, env.payload(outputs[j].script).vote.outpoint);
    }
  }

  lemma TxEnters(env: Env, w: World, tx: Transaction, totalStaked: u64, w': World, id: ProposalId, origin: OutPoint) returns (j: nat)
    requires StepsTo(env, w, Apply(tx, totalStaked), w')
    requires origin in VotedIn(w'.state.gov, id) && origin !in VotedIn(w.state.gov, id)
    ensures VotesFor(env, w.state, tx, j, id, origin)
  {
    var ctx := ContextOf(w.state, totalStaked);
    var states := StatesTaken(env, w.state.gov, ctx, tx.outputs);
    j := SomeOutputEnters(env, ctx, tx.outputs, states, |tx.outputs|, id, origin);
  }

  /**
   * Over every run: each identity on record for a proposal was entered by a vote that the owner of the output it then
   * named had signed, with mature stake.
   */
  lemma {:induction false} VotesWereAuthorized(env: Env, run: seq<World>, n: nat, id: ProposalId, origin: OutPoint) returns (k: nat)
    requires IsRun(env, run) && n < |run| && origin in VotedIn(run[n].state.gov, id)
    ensures k < n && EnteredAt(env, run, k, id, origin)
    decreases n
  {
    if n == 0 || origin !in VotedIn(run[n - 1].state.gov, id) {
      assert n > 0;
      k := n - 1;
      assert NextAt(env, run, k);
      RunFlagged(env, run, n);
      StepEnters(env, run[k], run[n], id, origin);
    } else {
      k := VotesWereAuthorized(env, run, n - 1, id, origin);
    }
  }

  lemma StepEnters(env: Env, w: World, w': World, id: ProposalId, origin: OutPoint)
    requires Next(env, w, w') && Steady(w, w')
    requires origin in VotedIn(w'.state.gov, id) && origin !in VotedIn(w.state.gov, id)
    ensures exists tx, totalStaked, j :: StepsTo(env, w, Apply(tx, totalStaked), w') && VotesFor(env, w.state, tx, j, id, origin)
  {
    var step :| StepsTo(env, w, step, w');
    match step
    case Begin(timestamp, version) =>
      BeginIsBlockStart(env, w, timestamp, version, w');
      BeginBlockRecords(env, w.state.gov, w.state.params, w.state.utxos, w'.state.height, timestamp, w'.state.gov, w'.state.params);
      assert false;
    case Apply(tx, totalStaked) =>
      var j := TxEnters(env, w, tx, totalStaked, w', id, origin);
  }
}
