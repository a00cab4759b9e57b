/**
 * What governance accepts and what it then does, said of the state alone.
 *
 * Nothing here is defined through the functions of `GovernanceRules`; the lemmas say that those functions accept
 * exactly what is described, and do exactly that.
 */
module GovernancePolicy {
  import opened Machine
  import opened Consensus
  import opened GovernanceTypes
  import opened GovernanceRules

  // --------------------------------------------------------------------- votes

  /** Identity, weight and age of a voting output: its own, or those it was first locked with. */
  function Origin(g: Gov, at: OutPoint): OutPoint { if at in g.locks then g.locks[at].origin else at }

  function Weight(g: Gov, u: Utxo, at: OutPoint): u64 { if at in g.locks then Min(g.locks[at].votingValue, u.value) else u.value }

  function Born(g: Gov, u: Utxo, at: OutPoint): u32 { if at in g.locks then g.locks[at].originHeight else u.height }

  /** Stake of a votable kind, worth a coin and the least stake, and held for the least age. */
  predicate Mature(env: Env, ctx: Context, u: Utxo) {
    && (env.classify(u.script) == P2PKH || env.classify(u.script) == P2CS)
    && 100_000_000 <= u.value && ctx.params.minStakeAmount <= u.value
    && u.timestamp + ctx.params.minStakeAge <= ctx.timestamp
  }

  predicate VotingOpen(rec: ProposalRecord, height: u32) {
    rec.createdHeight < height < rec.proposal.votingEnd && !rec.decided
  }

  predicate TallyFits(rec: ProposalRecord, choice: VoteChoice, weight: u64) {
    && (choice == Yes ==> rec.yes + weight <= U64_MAX)
    && (choice == No ==> rec.no + weight <= U64_MAX)
    && (choice == Abstain ==> rec.abstain + weight <= U64_MAX)
  }

  /** A vote by the owner of mature stake that existed before the proposal, on an open proposal, for the first time. */
  predicate VoteAllowed(env: Env, g: Gov, ctx: Context, v: SignedVote) {
    && v.outpoint in ctx.utxos && v.proposal in g.proposals
    && var u, rec := ctx.utxos[v.outpoint], g.proposals[v.proposal];
       && Mature(env, ctx, u)
       && env.voter(v, u).Some?
       && VotingOpen(rec, ctx.height)
       && Born(g, u, v.outpoint) < rec.createdHeight
       && Origin(g, v.outpoint) !in rec.voted
  }

  /** A vote that counts: it is allowed, and neither the tally nor the end of its lock overflows. */
  predicate VoteStands(env: Env, g: Gov, ctx: Context, v: SignedVote) {
    && VoteAllowed(env, g, ctx, v)
    && TallyFits(g.proposals[v.proposal], v.choice, Weight(g, ctx.utxos[v.outpoint], v.outpoint))
    && g.proposals[v.proposal].proposal.votingEnd + 6 <= U32_MAX
  }

  /** The record after a counted vote: the identity entered, and the weight added to the tally of the choice. */
  predicate VoteEntered(rec: ProposalRecord, choice: VoteChoice, origin: OutPoint, weight: u64, rec': ProposalRecord) {
    && rec'.yes == rec.yes + (if choice == Yes then weight else 0)
    && rec'.no == rec.no + (if choice == No then weight else 0)
    && rec'.abstain == rec.abstain + (if choice == Abstain then weight else 0)
    && rec'.voted == rec.voted + {origin}
    && rec' == rec.(yes := rec'.yes, no := rec'.no, abstain := rec'.abstain, voted := rec'.voted)
  }

  /** The lock a counted vote leaves: until six blocks after the voting, and no shorter than before. */
  predicate VoterLocked(env: Env, g: Gov, ctx: Context, v: SignedVote, end: nat, lock: VoteLock)
    requires v.outpoint in ctx.utxos && env.voter(v, ctx.utxos[v.outpoint]).Some?
  {
    if v.outpoint in g.locks then
      var held := g.locks[v.outpoint];
      lock == if held.unlockHeight < end <= U32_MAX then held.(unlockHeight := end, proposal := v.proposal) else held
    else
      var u := ctx.utxos[v.outpoint];
      lock == VoteLock(u.outpoint, lock.unlockHeight, env.voter(v, u).value, v.proposal, v.outpoint, u.value, u.height) && lock.unlockHeight == end
  }

  /** A counted vote changes one record and one lock. */
  predicate VoteTaken(env: Env, g: Gov, ctx: Context, v: SignedVote, g': Gov) {
    && VoteStands(env, g, ctx, v)
    && v.proposal in g'.proposals && g'.proposals == g.proposals[v.proposal := g'.proposals[v.proposal]]
    && v.outpoint in g'.locks && g'.locks == g.locks[v.outpoint := g'.locks[v.outpoint]]
    && VoteEntered(g.proposals[v.proposal], v.choice, Origin(g, v.outpoint), Weight(g, ctx.utxos[v.outpoint], v.outpoint),
                   g'.proposals[v.proposal])
    && VoterLocked(env, g, ctx, v, g.proposals[v.proposal].proposal.votingEnd + 6, g'.locks[v.outpoint])
  }

  /**
   * A vote is accepted exactly if its output is unspent mature stake whose owner signed it, its proposal is known and
   * open, its identity is older than the proposal and not counted yet, and the tally fits; and then exactly that
   * identity is entered, that tally raised and that output locked.
   */
  lemma VoteExactly(env: Env, g: Gov, ctx: Context, v: SignedVote)
    ensures CastVote(env, g, ctx, v).error.None? <==> VoteStands(env, g, ctx, v)
    ensures forall g' :: CastVote(env, g, ctx, v) == Outcome(g', None) <==> VoteTaken(env, g, ctx, v, g')
  {
    VoteCounts(env, g, ctx, v);
    forall g' ensures CastVote(env, g, ctx, v) == Outcome(g', None) <==> VoteTaken(env, g, ctx, v, g') {
      if VoteStands(env, g, ctx, v) { VoteLeaves(env, g, ctx, v, g'); }
    }
  }

  lemma VoteCounts(env: Env, g: Gov, ctx: Context, v: SignedVote)
    ensures CastVote(env, g, ctx, v).error.None? <==> VoteStands(env, g, ctx, v)
  {
  }

  lemma VoteLeaves(env: Env, g: Gov, ctx: Context, v: SignedVote, g': Gov)
    requires VoteStands(env, g, ctx, v)
    ensures CastVote(env, g, ctx, v).gov == g' <==> VoteTaken(env, g, ctx, v, g')
  {
  }

  /** A refused vote changes nothing, unless the tally or the unlock height overflows after it was entered. */
  lemma RefusedVoteLeaves(env: Env, g: Gov, ctx: Context, v: SignedVote)
    requires CastVote(env, g, ctx, v).error.Some?
    ensures var r := CastVote(env, g, ctx, v);
            || r.gov == g
            || (&& v.outpoint in ctx.utxos && v.proposal in g.proposals && r.gov.locks == g.locks
                && v.proposal in r.gov.proposals && r.gov.proposals == g.proposals[v.proposal := r.gov.proposals[v.proposal]]
                && var u, rec, rec' := ctx.utxos[v.outpoint], g.proposals[v.proposal], r.gov.proposals[v.proposal];
                   || (!TallyFits(rec, v.choice, Weight(g, u, v.outpoint)) && rec' == rec.(voted := rec.voted + {Origin(g, v.outpoint)}))
                   || (rec.proposal.votingEnd + 6 > U32_MAX
                       && VoteEntered(rec, v.choice, Origin(g, v.outpoint), Weight(g, u, v.outpoint), rec')))
  {
  }

  // ----------------------------------------------------------------- proposals

  /** A proposal that is recorded. */
  ghost predicate ProposalStands(env: Env, g: Gov, ctx: Context, p: Proposal, burned: u64) {
    && ctx.height + 2880 <= p.votingEnd <= ctx.height + 10080
    && p.votingEnd + 2016 <= p.activationHeight <= p.votingEnd + 20160
    && p.votingEnd + 6 <= U32_MAX
    && 10_000_000_000 <= p.deposit == burned
    && (exists q :: Admits(p.param, ctx.params, p.newValue, q))
    && env.proposalId(p, ctx.height) !in g.proposals
  }

  /** A fresh record: nothing counted, nothing decided, the quorum measured against the stake of now. */
  predicate ProposalTaken(env: Env, g: Gov, ctx: Context, p: Proposal, g': Gov) {
    && g'.locks == g.locks
    && g'.proposals == g.proposals[env.proposalId(p, ctx.height) :=
         ProposalRecord(p, ctx.height, yes := 0, no := 0, abstain := 0, decided := false, passed := false, applied := false,
                        activationFailed := false, quorumSupply := ctx.totalStaked, voted := {})]
  }

  lemma ProposalExactly(env: Env, g: Gov, ctx: Context, p: Proposal, burned: u64)
    ensures var r := Propose(env, g, ctx, p, burned);
            && (r.error.None? <==> ProposalStands(env, g, ctx, p, burned))
            && (r.error.None? ==> ProposalTaken(env, g, ctx, p, r.gov))
            && (r.error.Some? ==> r.gov == g)
  {
    ApplyExactly(p.param, ctx.params, p.newValue);
    var q := Apply(p.param, ctx.params, p.newValue);
    if q.Some? { assert Admits(p.param, ctx.params, p.newValue, q.value); }
  }

  // -------------------------------------------------------------- transactions

  /** One output: votes and proposals are taken if they stand, anything malformed or unsigned is not. */
  ghost predicate OutputTaken(env: Env, g: Gov, ctx: Context, o: TxOutput, g': Gov) {
    match env.payload(o.script)
    case NoPayload => g' == g
    case ProposalPayload(p) => ProposalStands(env, g, ctx, p, o.value) && ProposalTaken(env, g, ctx, p, g')
    case VotePayload(v) => VoteTaken(env, g, ctx, v, g')
    case _ => false
  }

  lemma OutputExactly(env: Env, g: Gov, ctx: Context, o: TxOutput, g': Gov)
    ensures ProcessOutput(env, g, ctx, o) == Outcome(g', None) <==> OutputTaken(env, g, ctx, o, g')
  {
    match env.payload(o.script)
    case ProposalPayload(p) => ProposalExactly(env, g, ctx, p, o.value);
    case VotePayload(v) => VoteExactly(env, g, ctx, v);
    case _ =>
  }

  /** The outputs taken one after the other, each on the state the ones before it left. */
  ghost predicate AllTaken(env: Env, ctx: Context, outputs: seq<TxOutput>, states: seq<Gov>) {
    && |states| == |outputs| + 1
    && forall i :: 0 <= i < |outputs| ==> TakenAt(env, ctx, outputs, states, i)
  }

  ghost predicate TakenAt(env: Env, ctx: Context, outputs: seq<TxOutput>, states: seq<Gov>, i: nat)
    requires i < |outputs| && i + 1 < |states|
  {
    OutputTaken(env, states[i], ctx, outputs[i], states[i + 1])
  }

  ghost predicate LeadsTo(states: seq<Gov>, g: Gov, g': Gov) { states != [] && states[0] == g && states[|states| - 1] == g' }

  /** A transaction is accepted exactly if each of its outputs is, in order, and leaves what the last one left. */
  lemma TransactionExactly(env: Env, g: Gov, ctx: Context, outputs: seq<TxOutput>, g': Gov)
    ensures ProcessOutputs(env, g, ctx, outputs) == Outcome(g', None)
       <==> exists states :: AllTaken(env, ctx, outputs, states) && LeadsTo(states, g, g')
  {
    if ProcessOutputs(env, g, ctx, outputs) == Outcome(g', None) {
      var states := StatesTaken(env, g, ctx, outputs);
    }
    forall states | AllTaken(env, ctx, outputs, states) && LeadsTo(states, g, g')
      ensures ProcessOutputs(env, g, ctx, outputs) == Outcome(g', None)
    {
      TakenProcesses(env, g, ctx, outputs, states);
    }
  }

  lemma {:induction false} StatesTaken(env: Env, g: Gov, ctx: Context, outputs: seq<TxOutput>) returns (states: seq<Gov>)
    requires ProcessOutputs(env, g, ctx, outputs).error.None?
    ensures AllTaken(env, ctx, outputs, states) && LeadsTo(states, g, ProcessOutputs(env, g, ctx, outputs).gov)
    decreases |outputs|
  {
    if outputs == [] {
      states := [g];
    } else {
      var g1 := ProcessOutput(env, g, ctx, outputs[0]).gov;
      OutputExactly(env, g, ctx, outputs[0], g1);
      var rest := StatesTaken(env, g1, ctx, outputs[1..]);
      states := [g] + rest;
      forall i | 0 <= i < |outputs| ensures TakenAt(env, ctx, outputs, states, i) {
        if i > 0 { assert TakenAt(env, ctx, outputs[1..], rest, i - 1); }
      }
    }
  }

  lemma {:induction false} TakenProcesses(env: Env, g: Gov, ctx: Context, outputs: seq<TxOutput>, states: seq<Gov>)
    requires AllTaken(env, ctx, outputs, states) && states[0] == g
    ensures ProcessOutputs(env, g, ctx, outputs) == Outcome(states[|outputs|], None)
    decreases |outputs|
  {
    if outputs != [] {
      assert TakenAt(env, ctx, outputs, states, 0);
      OutputExactly(env, g, ctx, outputs[0], states[1]);
      forall i | 0 <= i < |outputs| - 1 ensures TakenAt(env, ctx, outputs[1..], states[1..], i) {
        assert TakenAt(env, ctx, outputs, states, i + 1);
      }
      TakenProcesses(env, states[1], ctx, outputs[1..], states[1..]);
    }
  }

  // --------------------------------------------------------------- stake moves

  /** A coinstake that returns a stake whole: one output of value, to the same script, worth at least as much. */
  ghost predicate Returns(tx: Transaction, u: Utxo, i: nat) {
    && tx.kind == Coinstake && i < |tx.outputs|
    && tx.outputs[i].value > 0 && (forall j :: 0 <= j < |tx.outputs| && j != i ==> tx.outputs[j].value == 0)
    && tx.outputs[i].script == u.script && u.value <= tx.outputs[i].value
  }

  /** The lock has moved to output `i`, with identity, weight, age and end as they were. */
  predicate LockMoved(g: Gov, u: Utxo, txid: Txid, i: nat, g': Gov)
    requires u.outpoint in g.locks
  {
    var to := OutPoint(txid, i);
    && g'.proposals == g.proposals
    && to in g'.locks && g'.locks == (g.locks - {u.outpoint})[to := g'.locks[to]]
    && g'.locks[to].outpoint == to
    && g'.locks[to] == g.locks[u.outpoint].(outpoint := to)
  }

  /**
   * The transfer of a live lock succeeds exactly if the transaction returns the stake whole, and then the lock sits on
   * the output it returned to; a refusal changes nothing; and what is not locked is let through.
   */
  lemma TransferExactly(g: Gov, tx: Transaction, u: Utxo, height: u32)
    ensures var r, live := TransferLock(g, tx, u, height), u.outpoint in g.locks && height < g.locks[u.outpoint].unlockHeight;
            && (!live ==> r == Outcome(g, None))
            && (live ==> (r.error.None? <==> exists i :: Returns(tx, u, i)))
            && (live ==> forall i :: Returns(tx, u, i) ==> LockMoved(g, u, tx.txid, i, r.gov))
            && (r.error.Some? ==> r.gov == g)
  {
    var bearing := ValueBearing(tx.outputs);
    if |bearing| == 1 {
      SoleBearing(tx.outputs, bearing[0]);
      if Relocks(tx, u) { assert Returns(tx, u, bearing[0]); }
    }
    forall i: nat | Returns(tx, u, i) ensures bearing == [i] { SoleBearing(tx.outputs, i); }
  }

  /** A list of value-bearing outputs with one entry. */
  lemma {:induction false} SoleBearing(outputs: seq<TxOutput>, i: nat)
    ensures ValueBearing(outputs) == [i]
       <==> i < |outputs| && outputs[i].value > 0 && forall j :: 0 <= j < |outputs| && j != i ==> outputs[j].value == 0
  {
    if outputs != [] {
      var n := |outputs| - 1;
      var before := ValueBearing(outputs[..n]);
      SoleBearing(outputs[..n], i);
      NoneBearing(outputs[..n]);
      if outputs[n].value > 0 {
        assert before + [n] == [i] <==> before == [] && n == i by { SnocIs(before, n, i); }
      } else {
        assert before + [] == before;
      }
    }
  }

  lemma SnocIs(s: seq<nat>, n: nat, i: nat)
    ensures s + [n] == [i] <==> s == [] && n == i
  {
    if s + [n] == [i] { assert |s + [n]| == 1 && (s + [n])[|s|] == n; }
  }

  lemma {:induction false} NoneBearing(outputs: seq<TxOutput>)
    ensures ValueBearing(outputs) == [] <==> forall j :: 0 <= j < |outputs| ==> outputs[j].value == 0
  {
    if outputs != [] { NoneBearing(outputs[..|outputs| - 1]); }
  }
}
