/** The rules of the governance state machine as functions from state to state. */
module GovernanceRules {
  import opened Machine
  import opened Consensus
  import opened Sorting
  import opened GovernanceTypes

  // ------------------------------------------------------------ transactions

  /** `Proposal::validate`. */
  function Validate(p: Proposal, height: u32, burned: u64, params: Params): Option<Error> {
    if p.votingEnd < height then Some(VotingEndInPast)
    else if p.activationHeight < p.votingEnd then Some(ActivationBeforeEnd)
    else if !(MIN_VOTING_BLOCKS <= p.votingEnd - height <= MAX_VOTING_BLOCKS)
         || !(MIN_ACTIVATION_DELAY <= p.activationHeight - p.votingEnd <= MAX_ACTIVATION_DELAY)
         || p.votingEnd + LOCK_GRACE_BLOCKS > U32_MAX
         || p.deposit < MIN_PROPOSAL_DEPOSIT
         || burned != p.deposit
    then Some(BadProposalTerms)
    else if Apply(p.param, params, p.newValue).None? then Some(BadParameter)
    else None
  }

  function NewRecord(p: Proposal, height: u32, totalStaked: u64): ProposalRecord {
    ProposalRecord(p, height, 0, 0, 0, false, false, false, false, totalStaked, {})
  }

  function Propose(env: Env, g: Gov, ctx: Context, p: Proposal, burned: u64): Outcome {
    var refused := Validate(p, ctx.height, burned, ctx.params);
    var id := env.proposalId(p, ctx.height);
    if refused.Some? then Outcome(g, refused)
    else if id in g.proposals then Outcome(g, Some(DuplicateProposal))
    else Outcome(g.(proposals := g.proposals[id := NewRecord(p, ctx.height, ctx.totalStaked)]), None)
  }

  /** The identity, weight and age a vote is counted with: those of the lock, where the outpoint is locked. */
  datatype Claim = Claim(origin: OutPoint, stake: u64, originHeight: u32)

  function ClaimOf(locks: Locks, u: Utxo, at: OutPoint): Claim {
    if at in locks then Claim(locks[at].origin, Min(locks[at].votingValue, u.value), locks[at].originHeight)
    else Claim(at, u.value, u.height)
  }

  predicate MatureStake(env: Env, ctx: Context, u: Utxo) {
    && IsStakeable(env, DEFAULT_PARAMS, u)
    && ctx.params.minStakeAmount <= u.value
    && u.timestamp <= ctx.timestamp
    && ctx.params.minStakeAge <= ctx.timestamp - u.timestamp
  }

  function Tallied(rec: ProposalRecord, choice: VoteChoice): u64 {
    match choice case Yes => rec.yes case No => rec.no case Abstain => rec.abstain
  }

  function Count(rec: ProposalRecord, choice: VoteChoice, stake: u64): ProposalRecord
    requires Tallied(rec, choice) + stake <= U64_MAX
  {
    match choice
    case Yes => rec.(yes := rec.yes + stake)
    case No => rec.(no := rec.no + stake)
    case Abstain => rec.(abstain := rec.abstain + stake)
  }

  /** The reason to refuse a vote before anything has been changed. */
  function VoteRefusal(env: Env, g: Gov, ctx: Context, v: SignedVote): Option<Error> {
    if v.outpoint !in ctx.utxos then Some(OutpointSpent)
    else
      var u := ctx.utxos[v.outpoint];
      if !MatureStake(env, ctx, u) then Some(StakeNotMature)
      else if env.voter(v, u).None? then Some(NotAuthorized)
      else if v.proposal !in g.proposals then Some(UnknownProposal)
      else
        var rec := g.proposals[v.proposal];
        var claim := ClaimOf(g.locks, u, v.outpoint);
        if ctx.height <= rec.createdHeight || rec.proposal.votingEnd <= ctx.height || rec.decided then Some(WindowClosed)
        else if rec.createdHeight <= claim.originHeight then Some(StakeTooNew)
        else if claim.origin in rec.voted then Some(AlreadyCounted)
        else None
  }

  /** The lock a counted vote leaves on its outpoint: a new one, or the old one lasting at least as long. */
  function VoteLocked(locks: Locks, v: SignedVote, u: Utxo, claim: Claim, voter: string, unlock: u32): VoteLock {
    if v.outpoint !in locks then VoteLock(u.outpoint, unlock, voter, v.proposal, claim.origin, claim.stake, claim.originHeight)
    else if locks[v.outpoint].unlockHeight < unlock then locks[v.outpoint].(unlockHeight := unlock, proposal := v.proposal)
    else locks[v.outpoint]
  }

  /** A vote. Its identity is recorded before the tally is checked, so an overflow fails part-way. */
  function CastVote(env: Env, g: Gov, ctx: Context, v: SignedVote): Outcome {
    var refused := VoteRefusal(env, g, ctx, v);
    if refused.Some? then Outcome(g, refused)
    else
      var u := ctx.utxos[v.outpoint];
      var claim := ClaimOf(g.locks, u, v.outpoint);
      var rec := g.proposals[v.proposal];
      var marked := rec.(voted := rec.voted + {claim.origin});
      if Tallied(rec, v.choice) + claim.stake > U64_MAX then
        Outcome(g.(proposals := g.proposals[v.proposal := marked]), Some(TallyOverflow))
      else
        var counted := Count(marked, v.choice, claim.stake);
        var proposals := g.proposals[v.proposal := counted];
        if rec.proposal.votingEnd + LOCK_GRACE_BLOCKS > U32_MAX then
          Outcome(g.(proposals := proposals), Some(UnlockOverflow))
        else
          var unlock: u32 := rec.proposal.votingEnd + LOCK_GRACE_BLOCKS;
          var lock := VoteLocked(g.locks, v, u, claim, env.voter(v, u).value, unlock);
          Outcome(Gov(proposals, g.locks[v.outpoint := lock]), None)
  }

  function ProcessOutput(env: Env, g: Gov, ctx: Context, o: TxOutput): Outcome {
    match env.payload(o.script)
    case NoPayload => Outcome(g, None)
    case MalformedProposal => Outcome(g, Some(BadProposalEncoding))
    case ProposalPayload(p) => Propose(env, g, ctx, p, o.value)
    case MalformedVote => Outcome(g, Some(BadVoteEncoding))
    case VotePayload(v) => CastVote(env, g, ctx, v)
    case UnsignedVote => Outcome(g, Some(UnsignedVoteRefused))
  }

  /** `process_transaction`: the outputs in order, up to the first that fails. */
  function ProcessOutputs(env: Env, g: Gov, ctx: Context, outputs: seq<TxOutput>): Outcome
    decreases |outputs|
  {
    if outputs == [] then Outcome(g, None)
    else
      var first := ProcessOutput(env, g, ctx, outputs[0]);
      if first.error.Some? then first else ProcessOutputs(env, first.gov, ctx, outputs[1..])
  }

  lemma {:induction false} ProcessOutputsSnoc(env: Env, g: Gov, ctx: Context, outputs: seq<TxOutput>, o: TxOutput)
    ensures ProcessOutputs(env, g, ctx, outputs + [o]) ==
            var r := ProcessOutputs(env, g, ctx, outputs);
            if r.error.Some? then r else ProcessOutput(env, r.gov, ctx, o)
    decreases |outputs|
  {
    if outputs == [] {
      assert outputs + [o] == [o];
    } else {
      assert (outputs + [o])[1..] == outputs[1..] + [o];
      ProcessOutputsSnoc(env, ProcessOutput(env, g, ctx, outputs[0]).gov, ctx, outputs[1..], o);
    }
  }

  /** An error ends the processing: what follows the failing output does not matter. */
  lemma {:induction false} ProcessStops(env: Env, g: Gov, ctx: Context, outputs: seq<TxOutput>, n: nat)
    requires n <= |outputs| && ProcessOutputs(env, g, ctx, outputs[..n]).error.Some?
    ensures ProcessOutputs(env, g, ctx, outputs) == ProcessOutputs(env, g, ctx, outputs[..n])
    decreases |outputs| - n
  {
    if n < |outputs| {
      assert outputs[..n + 1] == outputs[..n] + [outputs[n]];
      ProcessOutputsSnoc(env, g, ctx, outputs[..n], outputs[n]);
      ProcessStops(env, g, ctx, outputs, n + 1);
    } else {
      assert outputs[..n] == outputs;
    }
  }

  // ------------------------------------------------------------- stake moves

  /** The outputs of a transaction that carry value, as output numbers. */
  function ValueBearing(outputs: seq<TxOutput>): seq<nat>
    ensures forall i :: 0 <= i < |ValueBearing(outputs)| ==> ValueBearing(outputs)[i] < |outputs|
  {
    if outputs == [] then []
    else
      var n := |outputs| - 1;
      ValueBearing(outputs[..n]) + (if outputs[n].value > 0 then [n] else [])
  }

  predicate IsLocked(locks: Locks, at: OutPoint, height: u32) {
    at in locks && height < locks[at].unlockHeight
  }

  /** Whether a transaction returns a locked stake whole, to the same script, in its only value-bearing output. */
  predicate Relocks(tx: Transaction, u: Utxo) {
    && tx.kind == Coinstake
    && var vs := ValueBearing(tx.outputs);
       && |vs| == 1
       && tx.outputs[vs[0]].script == u.script
       && u.value <= tx.outputs[vs[0]].value
  }

  function Successor(tx: Transaction, u: Utxo): OutPoint
    requires Relocks(tx, u)
  {
    OutPoint(tx.txid, ValueBearing(tx.outputs)[0])
  }

  /** `transfer_stake_lock`. */
  function TransferLock(g: Gov, tx: Transaction, u: Utxo, height: u32): Outcome {
    if !IsLocked(g.locks, u.outpoint, height) then Outcome(g, None)
    else if !Relocks(tx, u) then Outcome(g, Some(BadRelock))
    else
      var to := Successor(tx, u);
      Outcome(g.(locks := (g.locks - {u.outpoint})[to := g.locks[u.outpoint].(outpoint := to)]), None)
  }

  // ------------------------------------------------------------- block start

  datatype Tally = Open | Lost | Won

  /** `tally`, without the proposal fields that `Passed` repeats. */
  function TallyOf(p: Proposal, yes: u64, no: u64, abstain: u64, totalStaked: u64, height: u32): Tally {
    if height < p.votingEnd then Open
    else if totalStaked == 0
         || (yes + no + abstain) * 100 < totalStaked * QUORUM_PCT
         || yes + no == 0
         || yes * 100 < (yes + no) * THRESHOLD_PCT
    then Lost
    else Won
  }

  function Decide(rec: ProposalRecord, height: u32): ProposalRecord {
    var closes := !rec.decided && rec.proposal.votingEnd <= height;
    var won := TallyOf(rec.proposal, rec.yes, rec.no, rec.abstain, rec.quorumSupply, height).Won?;
    var decided := if closes then rec.(decided := true, passed := won) else rec;
    if decided.decided && rec.proposal.votingEnd <= height then decided.(voted := {}) else decided
  }

  predicate Due(rec: ProposalRecord, height: u32) {
    rec.passed && !rec.applied && rec.proposal.activationHeight <= height
  }

  datatype Rank = Rank(activation: u32, created: u32, id: ProposalId)

  /** The order in which activations due in the same block are applied. */
  predicate RankLe(a: Rank, b: Rank) {
    if a.activation != b.activation then a.activation < b.activation
    else if a.created != b.created then a.created < b.created
    else a.id <= b.id
  }

  lemma RankOrder()
    ensures TotalPreorder(RankLe)
  {
  }

  function RankOf(proposals: Proposals, id: ProposalId): Rank
    requires id in proposals
  {
    Rank(proposals[id].proposal.activationHeight, proposals[id].createdHeight, id)
  }

  predicate SomeEligible(env: Env, p: Params, utxos: UtxoMap, timestamp: u32) {
    exists at :: at in utxos && EligibleAt(env, p, utxos[at], timestamp)
  }

  /** The parameters after trying one activation, or `None` if it is refused. */
  function TryActivate(env: Env, rec: ProposalRecord, params: Params, utxos: UtxoMap, timestamp: u32): Option<Params> {
    var candidate := Apply(rec.proposal.param, params, rec.proposal.newValue);
    if candidate.Some? && SomeEligible(env, candidate.value, utxos, timestamp) then candidate else None
  }

  datatype Activated = Activated(proposals: Proposals, params: Params)

  /** Try the activations in the given order; each is tried once, whatever comes of it. */
  function ActivateAll(env: Env, proposals: Proposals, params: Params, utxos: UtxoMap, timestamp: u32, order: seq<Rank>): Activated
    requires forall i :: 0 <= i < |order| ==> order[i].id in proposals
    decreases |order|
  {
    if order == [] then Activated(proposals, params)
    else
      var rec := proposals[order[0].id];
      var next := TryActivate(env, rec, params, utxos, timestamp);
      var tried := rec.(applied := true, activationFailed := next.None?);
      ActivateAll(env, proposals[order[0].id := tried], if next.Some? then next.value else params,
                  utxos, timestamp, order[1..])
  }

  /** The due activations of a decided block, in order. */
  ghost predicate DueOrder(proposals: Proposals, height: u32, order: seq<Rank>) {
    && Sorted(order, RankLe)
    && (forall i, j :: 0 <= i < j < |order| ==> order[i].id != order[j].id)
    && (forall i :: 0 <= i < |order| ==>
          order[i].id in proposals && Due(proposals[order[i].id], height) && order[i] == RankOf(proposals, order[i].id))
    && (forall id :: id in proposals && Due(proposals[id], height) ==> RankOf(proposals, id) in order)
  }

  function DecideAll(proposals: Proposals, height: u32): Proposals {
    map id | id in proposals :: Decide(proposals[id], height)
  }

  function LiveLocks(locks: Locks, height: u32): Locks {
    map at | at in locks && height < locks[at].unlockHeight :: locks[at]
  }

  /** How `begin_block` changes the state and the parameters. */
  ghost predicate BeginsBlock(env: Env, g: Gov, params: Params, utxos: UtxoMap, height: u32, timestamp: u32, g': Gov, params': Params) {
    && g'.locks == LiveLocks(g.locks, height)
    && exists order :: DueOrder(DecideAll(g.proposals, height), height, order)
         && Activated(g'.proposals, params') ==
            ActivateAll(env, DecideAll(g.proposals, height), params, utxos, timestamp, order)
  }

  /** `pending` lists, once each and in any order, the due activations among the ids outside `left`. */
  ghost predicate Collected(proposals: Proposals, height: u32, left: set<ProposalId>, pending: seq<Rank>) {
    && (forall i, j :: 0 <= i < j < |pending| ==> pending[i].id != pending[j].id)
    && (forall i :: 0 <= i < |pending| ==> DueRank(proposals, height, left, pending[i]))
    && (forall id :: id in proposals && id !in left && Due(proposals[id], height) ==> RankOf(proposals, id) in pending)
  }

  predicate DueRank(proposals: Proposals, height: u32, left: set<ProposalId>, r: Rank) {
    r.id in proposals && r.id !in left && Due(proposals[r.id], height) && r == RankOf(proposals, r.id)
  }

  /** Deciding one more proposal extends what has been collected. */
  lemma CollectOne(proposals: Proposals, height: u32, left: set<ProposalId>, pending: seq<Rank>, id: ProposalId, rec: ProposalRecord)
    requires Collected(proposals, height, left, pending) && id in left && id in proposals
    ensures var proposals' := proposals[id := rec];
            var pending' := if Due(rec, height) then pending + [RankOf(proposals', id)] else pending;
            Collected(proposals', height, left - {id}, pending')
  {
    var proposals' := proposals[id := rec];
    var pending' := if Due(rec, height) then pending + [RankOf(proposals', id)] else pending;
    forall i | 0 <= i < |pending'| ensures DueRank(proposals', height, left - {id}, pending'[i]) {
      if i < |pending| {
        assert DueRank(proposals, height, left, pending[i]);
      }
    }
    forall k | k in proposals' && k !in left - {id} && Due(proposals'[k], height) ensures RankOf(proposals', k) in pending' {
      if k != id {
        assert RankOf(proposals, k) in pending;
      }
    }
    forall i, j | 0 <= i < j < |pending'| ensures pending'[i].id != pending'[j].id {
      assert DueRank(proposals, height, left, pending[i]);
    }
  }

  lemma SortedDueOrder(proposals: Proposals, height: u32, pending: seq<Rank>)
    requires Collected(proposals, height, {}, pending)
    ensures DueOrder(proposals, height, Sort(pending, RankLe))
  {
    var order := Sort(pending, RankLe);
    RankOrder();
    SortSorts(pending, RankLe);
    forall i | 0 <= i < |order| ensures order[i] in pending && DueRank(proposals, height, {}, order[i]) {
      assert order[i] in multiset(order);
      assert order[i] in multiset(pending);
    }
    forall r | r in pending ensures r in order {
      assert r in multiset(pending);
    }
    forall i, j | 0 <= i < j < |order| ensures order[i].id != order[j].id {
      if order[i].id == order[j].id {
        assert order[i] == order[j];
        TwiceInMultiset(order, i, j);
        OnceInMultiset(pending, order[i]);
      }
    }
  }

  lemma TwiceInMultiset(s: seq<Rank>, i: nat, j: nat)
    requires i < j < |s| && s[i] == s[j]
    ensures multiset(s)[s[i]] >= 2
  {
    assert s == s[..i] + [s[i]] + s[i + 1..j] + [s[j]] + s[j + 1..];
  }

  lemma {:induction false} OnceInMultiset(s: seq<Rank>, r: Rank)
    requires forall i, j :: 0 <= i < j < |s| ==> s[i].id != s[j].id
    ensures multiset(s)[r] <= 1
  {
    if s != [] {
      var n := |s| - 1;
      OnceInMultiset(s[..n], r);
      assert s == s[..n] + [s[n]];
      if s[n] == r {
        forall i | 0 <= i < n ensures s[..n][i] != r {
          assert s[i].id != s[n].id;
        }
        assert r !in multiset(s[..n]);
      }
    }
  }
}
