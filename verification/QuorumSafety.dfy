/**
 * The votes counted for a proposal never outweigh the stake its quorum is measured against.
 *
 * One proposal is followed from the start of the block that creates it, with a snapshot of what could be staked
 * there. That start is where the staked supply is known, so the snapshot is worth exactly that supply.
 */
module QuorumSafety {
  import opened Machine
  import opened Sums
  import opened Consensus
  import opened GovernanceTypes
  import opened GovernanceRules
  import opened GovernanceBlocks
  import opened Ledger
  import opened Totals
  import opened BlockJournal
  import opened VoteTracking
  import opened VoteSafety
  import opened ProposalLifecycle

  // -------------------------------------------------------------- the snapshot

  function StakeableIn(env: Env, p: Params, utxos: UtxoMap): UtxoMap {
    map at | at in utxos && IsStakeable(env, p, utxos[at]) :: utxos[at]
  }

  function StartSnapshot(env: Env, s: State): Snapshot {
    var stakeable := StakeableIn(env, s.params, s.utxos);
    Snapshot(stakeable, Identity(stakeable), map[], s.params.minStakeAmount)
  }

  /** What can be staked is worth the stakeable value. */
  lemma SnapshotWorth(env: Env, p: Params, utxos: UtxoMap)
    ensures TotalValue(StakeableIn(env, p, utxos)) <= StakeIn(env, p, utxos)
  {
    var parts, whole := Values(StakeableIn(env, p, utxos)), Stakes(env, p, utxos);
    MapSumInjection(parts, whole, map at | at in parts :: at);
  }

  /** A proposal yet to be created: no votes. */
  function Blank(created: u32): ProposalRecord {
    ProposalRecord(Proposal(MinStakeAmount, 0, 0, 0, 0), created, 0, 0, 0, false, false, false, false, 0, {})
  }

  /** The snapshot follows proposal `id`, or the place where it will be created. */
  ghost predicate Followed(env: Env, s: State, used: set<Txid>, id: ProposalId, created: u32, snap: Snapshot) {
    if id in s.gov.proposals then
      var rec := s.gov.proposals[id];
      && rec.createdHeight <= s.height
      && rec.Turnout() == MapSum(snap.counted) && Backed(snap.counted, snap.utxos)
      && (!rec.decided ==> Tracks(env, s, used, rec, snap))
    else
      created == s.height && snap.counted == map[] && Tracks(env, s, used, Blank(created), snap)
  }

  lemma StartFollowed(env: Env, s: State, used: set<Txid>, tr: Trace, id: ProposalId)
    requires Inv(env, s, used, tr) && id !in s.gov.proposals && forall at :: at in s.utxos ==> s.utxos[at].height < s.height
    ensures Followed(env, s, used, id, s.height, StartSnapshot(env, s))
  {
    var snap, rec := StartSnapshot(env, s), Blank(s.height);
    forall at ensures RepOk(s, used, snap, at) && OldOutput(env, s, rec, snap, at) && OldLock(env, s, rec, snap, at) {
      assert UtxoOk(s, used, at) && LockOk(env, s, used, at);
    }
    assert forall a, b :: RepApart(s, snap, a, b);
  }

  lemma FollowedBound(env: Env, s: State, used: set<Txid>, id: ProposalId, created: u32, snap: Snapshot)
    requires Followed(env, s, used, id, created, snap) && id in s.gov.proposals
    ensures s.gov.proposals[id].Turnout() <= TotalValue(snap.utxos)
  {
    BackedBound(snap.counted, snap.utxos);
  }

  /** Tracking depends on a record only through its creation height, its voting end and its voters. */
  lemma TracksCreated(env: Env, s: State, s': State, used: set<Txid>, rec: ProposalRecord, rec': ProposalRecord, snap: Snapshot)
    requires Tracks(env, s, used, rec, snap) && s'.utxos == s.utxos && s'.gov.locks == s.gov.locks
    requires rec'.createdHeight == rec.createdHeight && rec.voted == rec'.voted == {}
    ensures Tracks(env, s', used, rec', snap)
  {
    forall at ensures RepOk(s', used, snap, at) && OldOutput(env, s', rec', snap, at) && OldLock(env, s', rec', snap, at) {
      assert RepOk(s, used, snap, at) && OldOutput(env, s, rec, snap, at) && OldLock(env, s, rec, snap, at);
    }
    forall a, b ensures RepApart(s', snap, a, b) { assert RepApart(s, snap, a, b); }
  }

  // ------------------------------------------------------------- transactions

  lemma ProposeFollowed(env: Env, s: State, used: set<Txid>, ctx: Context, p: Proposal, burned: u64, id: ProposalId,
                        created: u32, snap: Snapshot)
    requires Followed(env, s, used, id, created, snap) && ctx.height == s.height
    requires Propose(env, s.gov, ctx, p, burned).error.None?
    ensures Followed(env, s.(gov := Propose(env, s.gov, ctx, p, burned).gov), used, id, created, snap)
  {
    var s' := s.(gov := Propose(env, s.gov, ctx, p, burned).gov);
    if id in s.gov.proposals {
      if !s.gov.proposals[id].decided { SameTracks(env, s, s', used, used, s.gov.proposals[id], snap); }
    } else if env.proposalId(p, ctx.height) == id {
      TracksCreated(env, s, s', used, Blank(created), s'.gov.proposals[id], snap);
      assert Charged(map[], snap.utxos, map[]);
    } else {
      SameTracks(env, s, s', used, used, Blank(created), snap);
    }
  }

  lemma VoteFollowed(env: Env, s: State, used: set<Txid>, tr: Trace, ctx: Context, v: SignedVote, s': State,
                     id: ProposalId, created: u32, snap: Snapshot)
    returns (snap': Snapshot)
    requires Inv(env, s, used, tr) && Counted(env, s, ctx, v, s') && Followed(env, s, used, id, created, snap)
    requires snap.least <= ctx.params.minStakeAmount
    ensures Followed(env, s', used, id, created, snap') && snap'.utxos == snap.utxos && snap'.least == snap.least
  {
    VoteRecord(env, s, ctx, v, s');
    if v.proposal == id {
      var claim := VoteClaim(s, v);
      VoteTrackedBy(env, s, used, tr, ctx, v, s', snap);
      forall at ensures LockOk(env, s', used, at) { VoteLockOk(env, s, used, tr, ctx, v, s', at); }
      CountOneMore(env, s', used, s.gov.proposals[id], s'.gov.proposals[id], snap, claim);
      snap' := snap.(counted := snap.counted[claim.origin := claim.stake]);
    } else {
      snap' := snap;
      var rec := if id in s.gov.proposals then s.gov.proposals[id] else Blank(created);
      if id !in s.gov.proposals || !rec.decided { VoteKeepsTracks(env, s, used, tr, ctx, v, s', rec, snap); }
    }
  }

  lemma OutputFollowed(env: Env, s: State, used: set<Txid>, tr: Trace, ctx: Context, o: TxOutput, id: ProposalId,
                       created: u32, snap: Snapshot)
    returns (snap': Snapshot)
    requires Inv(env, s, used, tr) && ctx.height == s.height && ctx.utxos == s.utxos && snap.least <= ctx.params.minStakeAmount
    requires Followed(env, s, used, id, created, snap) && ProcessOutput(env, s.gov, ctx, o).error.None?
    ensures Followed(env, s.(gov := ProcessOutput(env, s.gov, ctx, o).gov), used, id, created, snap')
    ensures snap'.utxos == snap.utxos && snap'.least == snap.least
  {
    var s' := s.(gov := ProcessOutput(env, s.gov, ctx, o).gov);
    match env.payload(o.script)
    case NoPayload => snap' := snap; assert s' == s;
    case ProposalPayload(p) => snap' := snap; ProposeFollowed(env, s, used, ctx, p, o.value, id, created, snap);
    case VotePayload(v) => snap' := VoteFollowed(env, s, used, tr, ctx, v, s', id, created, snap);
    case _ => assert false;
  }

  lemma {:induction false} OutputsFollowed(env: Env, s: State, used: set<Txid>, tr: Trace, ctx: Context,
                                           outputs: seq<TxOutput>, id: ProposalId, created: u32, snap: Snapshot)
    returns (snap': Snapshot)
    requires Inv(env, s, used, tr) && ctx.height == s.height && ctx.utxos == s.utxos && snap.least <= ctx.params.minStakeAmount
    requires Followed(env, s, used, id, created, snap) && ProcessOutputs(env, s.gov, ctx, outputs).error.None?
    ensures Followed(env, s.(gov := ProcessOutputs(env, s.gov, ctx, outputs).gov), used, id, created, snap')
    ensures snap'.utxos == snap.utxos && snap'.least == snap.least
    decreases |outputs|
  {
    if outputs == [] {
      snap' := snap;
      assert s.(gov := s.gov) == s;
    } else {
      var g1 := ProcessOutput(env, s.gov, ctx, outputs[0]).gov;
      var snap1 := OutputFollowed(env, s, used, tr, ctx, outputs[0], id, created, snap);
      var tr1 := OutputPreserves(env, s, used, tr, ctx, outputs[0]);
      snap' := OutputsFollowed(env, s.(gov := g1), used, tr1, ctx, outputs[1..], id, created, snap1);
    }
  }

  lemma SpendFollowed(env: Env, s: State, used: set<Txid>, tr: Trace, dead: set<OutPoint>, txid: Txid, outs: UtxoMap,
                      id: ProposalId, created: u32, snap: Snapshot)
    requires Inv(env, s, used, tr) && FreshOutputs(s, used, txid, outs) && Followed(env, s, used, id, created, snap)
    ensures Followed(env, s.(utxos := s.utxos - dead + outs), used + {txid}, id, created, snap)
  {
    var rec := if id in s.gov.proposals then s.gov.proposals[id] else Blank(created);
    if id !in s.gov.proposals || !rec.decided { SpendTracks(env, s, used, dead, txid, outs, rec, snap); }
  }

  lemma MoveFollowed(env: Env, s: State, used: set<Txid>, tr: Trace, from: OutPoint, to: OutPoint, txid: Txid,
                     outs: UtxoMap, id: ProposalId, created: u32, snap: Snapshot)
    requires Inv(env, s, used, tr) && Moves(s, used, from, to, txid, outs) && Followed(env, s, used, id, created, snap)
    requires snap.least <= s.utxos[from].value
    ensures Followed(env, MovedState(s, from, to, outs), used + {txid}, id, created, MovedSnapshot(snap, from, to))
  {
    var rec := if id in s.gov.proposals then s.gov.proposals[id] else Blank(created);
    if id !in s.gov.proposals || !rec.decided { MoveTracks(env, s, used, from, to, txid, outs, rec, snap); }
  }

  lemma TxFollowed(env: Env, w: World, tx: Transaction, totalStaked: u64, w': World, tr: Trace, id: ProposalId,
                   created: u32, snap: Snapshot)
    returns (snap': Snapshot)
    requires Inv(env, w.state, w.used, tr) && StepsTo(env, w, Apply(tx, totalStaked), w') && Steady(w, w')
    requires Followed(env, w.state, w.used, id, created, snap) && snap.least <= w.state.params.minStakeAmount
    ensures Followed(env, w'.state, w'.used, id, created, snap') && snap'.utxos == snap.utxos && snap'.least == snap.least
  {
    var s := w.state;
    var s1 := s.(gov := Processed(env, s, tx, totalStaked).gov);
    ApplyIsUniform(env, s, tx, totalStaked);
    var outputs := if s.active then tx.outputs else [];
    var snap1 := OutputsFollowed(env, s, w.used, tr, ContextOf(s, totalStaked), outputs, id, created, snap);
    var tr1 := ProcessedPreserves(env, s, w.used, tr, tx, totalStaked);
    snap' := SettleFollowed(env, s1, w.used, tr1, tx, w'.state, id, created, snap1);
  }

  lemma SettleFollowed(env: Env, s: State, used: set<Txid>, tr: Trace, tx: Transaction, s': State, id: ProposalId,
                       created: u32, snap: Snapshot)
    returns (snap': Snapshot)
    requires Inv(env, s, used, tr) && Settles(env, s, used, tx, s') && Followed(env, s, used, id, created, snap)
    requires tx.kind == Coinstake ==> snap.least <= s.utxos[tx.inputs[0]].value
    ensures Followed(env, s', used + {tx.txid}, id, created, snap') && snap'.utxos == snap.utxos && snap'.least == snap.least
  {
    var outs := Created(env, tx, s.height, s.timestamp);
    if tx.kind == Coinstake && tx.inputs[0] in s.gov.locks {
      var from := tx.inputs[0];
      SettlesMoved(env, s, used, tr, tx, s');
      var to := Successor(tx, s.utxos[from]);
      MoveFollowed(env, s, used, tr, from, to, tx.txid, outs, id, created, snap);
      snap' := MovedSnapshot(snap, from, to);
    } else {
      SettlesUnlocked(env, s, used, tr, tx, s');
      SpendFollowed(env, s, used, tr, Spent(tx), tx.txid, outs, id, created, snap);
      snap' := snap;
    }
  }

  lemma BegunFollowed(env: Env, s: State, used: set<Txid>, tr: Trace, id: ProposalId, created: u32, snap: Snapshot, s': State)
    requires Followed(env, s, used, id, created, snap) && id in s.gov.proposals && id in s'.gov.proposals
    requires ProposalOk(env, s, used, tr, id)
    requires s'.utxos == s.utxos && s'.gov.locks == LiveLocks(s.gov.locks, s'.height) && s.height <= s'.height
    requires BegunRecord(s.gov.proposals[id], s'.gov.proposals[id], s'.height)
    ensures Followed(env, s', used, id, created, snap)
  {
    var rec, rec' := s.gov.proposals[id], s'.gov.proposals[id];
    if !rec'.decided {
      assert rec' == rec;
      BeginTracks(env, s, used, rec, snap, s');
    }
  }

  lemma BeginFollowed(env: Env, w: World, timestamp: u32, version: u32, w': World, tr: Trace, id: ProposalId, created: u32, snap: Snapshot)
    requires Inv(env, w.state, w.used, tr) && StepsTo(env, w, Begin(timestamp, version), w') && Steady(w, w')
    requires Followed(env, w.state, w.used, id, created, snap) && id in w.state.gov.proposals
    ensures Followed(env, w'.state, w'.used, id, created, snap) && id in w'.state.gov.proposals
  {
    var s, s' := w.state, w'.state;
    BeginIsBlockStart(env, w, timestamp, version, w');
    BeginBlockRecords(env, s.gov, s.params, s.utxos, s'.height, timestamp, s'.gov, s'.params);
    BegunFollowed(env, s, w.used, tr, id, created, snap, s');
  }

  // --------------------------------------------------------------------- runs

  /** World `start` is where the block begins in which world `k` lies. */
  predicate BlockOf(run: seq<World>, start: nat, k: nat) {
    && 0 < start <= k < |run| && run[start - 1].state.height < run[start].state.height
    && run[start].state.height == run[k].state.height
  }

  /** The least stake has not been lowered below what it was at `start`. */
  predicate LeastKept(run: seq<World>, start: nat, n: nat)
    requires start < |run| && n < |run|
  {
    forall i :: start <= i <= n ==> run[start].state.params.minStakeAmount <= run[i].state.params.minStakeAmount
  }

  lemma OutputsAreOlder(env: Env, run: seq<World>, start: nat)
    requires IsRun(env, run) && 0 < start < |run| && run[start - 1].state.height < run[start].state.height
    ensures forall at :: at in run[start].state.utxos ==> run[start].state.utxos[at].height < run[start].state.height
  {
    var tr := RunInvariant(env, run, start - 1);
    assert NextAt(env, run, start - 1);
    forall at | at in run[start].state.utxos ensures run[start].state.utxos[at].height < run[start].state.height {
      assert UtxoOk(run[start - 1].state, run[start - 1].used, at);
    }
  }

  lemma NextFollowed(env: Env, w: World, w': World, tr: Trace, id: ProposalId, created: u32, snap: Snapshot) returns (snap': Snapshot)
    requires Inv(env, w.state, w.used, tr) && Next(env, w, w') && Steady(w, w') && Followed(env, w.state, w.used, id, created, snap)
    requires snap.least <= w.state.params.minStakeAmount && (id in w.state.gov.proposals || w'.state.height == w.state.height)
    ensures Followed(env, w'.state, w'.used, id, created, snap') && snap'.utxos == snap.utxos && snap'.least == snap.least
  {
    var step :| StepsTo(env, w, step, w');
    match step
    case Begin(timestamp, version) =>
      BeginFollowed(env, w, timestamp, version, w', tr, id, created, snap);
      snap' := snap;
    case Apply(tx, totalStaked) =>
      snap' := TxFollowed(env, w, tx, totalStaked, w', tr, id, created, snap);
  }

  /** The snapshot is the one taken at `start`, but for what it has counted and whom it has followed. */
  ghost predicate TakenAt(env: Env, w: World, snap: Snapshot) {
    snap.utxos == StakeableIn(env, w.state.params, w.state.utxos) && snap.least == w.state.params.minStakeAmount
  }

  lemma FollowedFromStart(env: Env, run: seq<World>, start: nat, k: nat, id: ProposalId) returns (snap: Snapshot)
    requires IsRun(env, run) && BlockOf(run, start, k) && k + 1 < |run| && CreatedAt(run, k, id)
    ensures Followed(env, run[start].state, run[start].used, id, run[start].state.height, snap) && TakenAt(env, run[start], snap)
  {
    var tr := RunInvariant(env, run, start);
    OutputsAreOlder(env, run, start);
    NotYetCreated(env, run, start, k, id);
    StartFollowed(env, run[start].state, run[start].used, tr, id);
    snap := StartSnapshot(env, run[start].state);
  }

  lemma FollowedOneMore(env: Env, run: seq<World>, start: nat, k: nat, n: nat, id: ProposalId, before: Snapshot) returns (snap: Snapshot)
    requires IsRun(env, run) && BlockOf(run, start, k) && k + 1 < |run| && CreatedAt(run, k, id) && start < n < |run|
    requires Followed(env, run[n - 1].state, run[n - 1].used, id, run[start].state.height, before) && TakenAt(env, run[start], before)
    requires run[start].state.params.minStakeAmount <= run[n - 1].state.params.minStakeAmount
    ensures Followed(env, run[n].state, run[n].used, id, run[start].state.height, snap) && TakenAt(env, run[start], snap)
  {
    var tr := RunInvariant(env, run, n - 1);
    assert NextAt(env, run, n - 1);
    RunFlagged(env, run, n);
    SameBlockUntilCreated(env, run, start, k, n, id);
    snap := NextFollowed(env, run[n - 1], run[n], tr, id, run[start].state.height, before);
  }

  /** A proposal created in the block, followed from the start of the block to world `n`. */
  lemma {:induction false} RunFollowed(env: Env, run: seq<World>, start: nat, k: nat, n: nat, id: ProposalId) returns (snap: Snapshot)
    requires IsRun(env, run) && BlockOf(run, start, k) && k + 1 < |run| && CreatedAt(run, k, id) && start <= n < |run|
    requires LeastKept(run, start, n)
    ensures Followed(env, run[n].state, run[n].used, id, run[start].state.height, snap) && TakenAt(env, run[start], snap)
    decreases n - start
  {
    if n == start {
      snap := FollowedFromStart(env, run, start, k, id);
    } else {
      var before := RunFollowed(env, run, start, k, n - 1, id);
      snap := FollowedOneMore(env, run, start, k, n, id, before);
    }
  }

  lemma NotYetCreated(env: Env, run: seq<World>, i: nat, k: nat, id: ProposalId)
    requires IsRun(env, run) && i <= k && k + 1 < |run| && CreatedAt(run, k, id)
    ensures id !in run[i].state.gov.proposals
  {
    var tr := RunInvariant(env, run, k);
  }

  /** Until the proposal is there, the run is still inside its block. */
  lemma SameBlockUntilCreated(env: Env, run: seq<World>, start: nat, k: nat, n: nat, id: ProposalId)
    requires IsRun(env, run) && BlockOf(run, start, k) && k + 1 < |run| && CreatedAt(run, k, id) && start < n < |run|
    ensures id in run[n - 1].state.gov.proposals || run[n].state.height == run[n - 1].state.height
  {
    if n - 1 <= k {
      HeightsRise(env, run, start, n - 1);
      HeightsRise(env, run, n - 1, k);
      if n <= k {
        HeightsRise(env, run, n - 1, n);
        HeightsRise(env, run, n, k);
      } else {
        CreationKeepsHeight(env, run, k, id);
      }
    } else {
      var tr := RunInvariant(env, run, n - 1);
    }
  }

  /** Proposals are created by transactions, with the staked supply those see. */
  lemma CreationKeepsHeight(env: Env, run: seq<World>, k: nat, id: ProposalId)
    requires IsRun(env, run) && k + 1 < |run| && CreatedAt(run, k, id)
    ensures run[k + 1].state.height == run[k].state.height
  {
    assert NextAt(env, run, k);
    RunFlagged(env, run, k + 1);
    var step :| StepsTo(env, run[k], step, run[k + 1]);
    if step.Begin? {
      var s, s' := run[k].state, run[k + 1].state;
      BeginIsBlockStart(env, run[k], step.timestamp, step.version, run[k + 1]);
      BeginBlockRecords(env, s.gov, s.params, s.utxos, s'.height, step.timestamp, s'.gov, s'.params);
    }
  }

  /**
   * Over every run: the votes counted for a proposal never weigh more than what could be staked at the start of
   * the block that created it, as long as the least stake has not been lowered since.
   */
  lemma TurnoutWithinStake(env: Env, run: seq<World>, start: nat, k: nat, n: nat, id: ProposalId)
    requires IsRun(env, run) && BlockOf(run, start, k) && k < n < |run| && CreatedAt(run, k, id) && LeastKept(run, start, n)
    ensures id in run[n].state.gov.proposals
    ensures run[n].state.gov.proposals[id].Turnout() <= StakeIn(env, run[start].state.params, run[start].state.utxos)
  {
    var tr := RunInvariant(env, run, n);
    assert id in run[k + 1].state.gov.proposals;
    var snap := RunFollowed(env, run, start, k, n, id);
    FollowedBound(env, run[n].state, run[n].used, id, run[start].state.height, snap);
    SnapshotWorth(env, run[start].state.params, run[start].state.utxos);
  }

  // ------------------------------------------------------------------- quorums

  /** Every proposal's quorum is measured against the stake at the start of its block. */
  ghost predicate QuorumsCounted(env: Env, run: seq<World>) {
    forall start: nat, k: nat, id :: QuorumOk(env, run, start, k, id)
  }

  ghost predicate QuorumOk(env: Env, run: seq<World>, start: nat, k: nat, id: ProposalId) {
    k + 1 < |run| && BlockOf(run, start, k) && CreatedAt(run, k, id) ==> QuorumIs(env, run, start, k, id)
  }

  ghost predicate QuorumIs(env: Env, run: seq<World>, start: nat, k: nat, id: ProposalId)
    requires start < |run| && k + 1 < |run| && CreatedAt(run, k, id)
  {
    run[k + 1].state.gov.proposals[id].quorumSupply == StakeIn(env, run[start].state.params, run[start].state.utxos)
  }

  /** Then the turnout of a proposal is at most the supply its quorum is measured against. */
  lemma TurnoutWithinQuorum(env: Env, run: seq<World>, start: nat, k: nat, n: nat, id: ProposalId)
    requires IsRun(env, run) && QuorumsCounted(env, run)
    requires BlockOf(run, start, k) && k < n < |run| && CreatedAt(run, k, id) && LeastKept(run, start, n)
    ensures id in run[n].state.gov.proposals && run[n].state.gov.proposals[id].Turnout() <= run[n].state.gov.proposals[id].quorumSupply
  {
    TurnoutWithinStake(env, run, start, k, n, id);
    assert QuorumOk(env, run, start, k, id);
    DecisionsAreFinal(env, run, k + 1, n, id);
  }

  /** A new record holds the staked supply the transaction was given. */
  lemma {:induction false} NewQuorums(env: Env, g: Gov, ctx: Context, outputs: seq<TxOutput>, id: ProposalId)
    requires ProcessOutputs(env, g, ctx, outputs).error.None? && id !in g.proposals
    ensures var g' := ProcessOutputs(env, g, ctx, outputs).gov;
            id in g'.proposals ==> g'.proposals[id].quorumSupply == ctx.totalStaked
    decreases |outputs|
  {
    if outputs != [] {
      var g1 := ProcessOutput(env, g, ctx, outputs[0]).gov;
      if id in g1.proposals {
        ProcessRecords(env, g1, ctx, outputs[1..]);
      } else {
        NewQuorums(env, g1, ctx, outputs[1..], id);
      }
    }
  }

  lemma TxQuorum(env: Env, w: World, tx: Transaction, totalStaked: u64, w': World, id: ProposalId)
    requires StepsTo(env, w, Apply(tx, totalStaked), w') && id !in w.state.gov.proposals && id in w'.state.gov.proposals
    ensures w'.state.gov.proposals[id].quorumSupply == totalStaked
  {
    if w.state.active { NewQuorums(env, w.state.gov, ContextOf(w.state, totalStaked), tx.outputs, id); }
  }

  // ----------------------------------------------------------------- histories

  /** Worlds of an appended block belong to that block. */
  lemma AppendedBlock(env: Env, run: seq<World>, b: Block, trail: seq<World>, start: nat, k: nat)
    requires IsRun(env, run) && AppliesBlock(env, run[|run| - 1], b, trail) && BlockOf(run + trail, start, k) && |run| <= k
    ensures start == |run|
  {
    var all, m := run + trail, |run|;
    ExtendedRun(env, run, b, trail);
    TrailMutations(env, run[m - 1], b, trail, 0);
    TrailMutations(env, run[m - 1], b, trail, k - m);
    if start < m {
      HeightsRise(env, all, start, m - 1);
    } else if start > m {
      TrailMutations(env, run[m - 1], b, trail, start - 1 - m);
    }
  }

  /** A block that starts where the recorded staked supply is right gives its proposals the right quorum. */
  lemma BlockQuorum(env: Env, w: World, b: Block, trail: seq<World>, t: Totals, t': Totals, i: nat, id: ProposalId)
    requires AppliesBlock(env, w, b, trail) && Counts(env, w, b, trail, t, t')
    requires t.staked == StakeIn(env, w.state.params, w.state.utxos) && i + 1 < |trail| && CreatedAt(trail, i, id)
    ensures QuorumIs(env, trail, 0, i, id)
  {
    BlockSeesStake(env, w, b, trail, t, t');
    assert AppliesTx(env, b, trail, i);
    TxQuorum(env, trail[i], b.txs[i], b.staked, trail[i + 1], id);
  }

  /** Nothing is created by a block start. */
  lemma CreatedInside(env: Env, run: seq<World>, b: Block, trail: seq<World>, k: nat, id: ProposalId)
    requires IsRun(env, run) && AppliesBlock(env, run[|run| - 1], b, trail) && k + 1 < |run + trail| && CreatedAt(run + trail, k, id)
    ensures k != |run| - 1
  {
    if k == |run| - 1 {
      ExtendedRun(env, run, b, trail);
      TrailMutations(env, run[k], b, trail, 0);
      CreationKeepsHeight(env, run + trail, k, id);
    }
  }

  lemma AppendedQuorum(env: Env, run: seq<World>, b: Block, trail: seq<World>, t: Totals, t': Totals, start: nat, k: nat, id: ProposalId)
    requires IsRun(env, run) && AppliesBlock(env, run[|run| - 1], b, trail) && Counts(env, run[|run| - 1], b, trail, t, t')
    requires t.staked == StakeIn(env, run[|run| - 1].state.params, run[|run| - 1].state.utxos) && |run| <= k
    requires k + 1 < |run + trail| && BlockOf(run + trail, start, k) && CreatedAt(run + trail, k, id)
    ensures QuorumIs(env, run + trail, start, k, id)
  {
    var m := |run|;
    AppendedBlock(env, run, b, trail, start, k);
    assert CreatedAt(trail, k - m, id);
    BlockQuorum(env, run[m - 1], b, trail, t, t', k - m, id);
    assert QuorumIs(env, trail, 0, k - m, id);
  }

  lemma ExtendedQuorum(env: Env, run: seq<World>, b: Block, trail: seq<World>, t: Totals, t': Totals, start: nat, k: nat, id: ProposalId)
    requires IsRun(env, run) && AppliesBlock(env, run[|run| - 1], b, trail) && Counts(env, run[|run| - 1], b, trail, t, t')
    requires t.staked == StakeIn(env, run[|run| - 1].state.params, run[|run| - 1].state.utxos) && QuorumOk(env, run, start, k, id)
    ensures QuorumOk(env, run + trail, start, k, id)
  {
    if k + 1 < |run + trail| && BlockOf(run + trail, start, k) && CreatedAt(run + trail, k, id) {
      CreatedInside(env, run, b, trail, k, id);
      if k >= |run| { AppendedQuorum(env, run, b, trail, t, t', start, k, id); }
    }
  }

  lemma ExtendedQuorums(env: Env, run: seq<World>, w: World, b: Block, trail: seq<World>, t: Totals, t': Totals)
    requires IsRun(env, run) && w == run[|run| - 1] && AppliesBlock(env, w, b, trail) && Counts(env, w, b, trail, t, t')
    requires t.staked == StakeIn(env, w.state.params, w.state.utxos) && QuorumsCounted(env, run)
    ensures QuorumsCounted(env, run + trail)
  {
    forall start: nat, k: nat, id ensures QuorumOk(env, run + trail, start, k, id) {
      assert QuorumOk(env, run, start, k, id);
      ExtendedQuorum(env, run, b, trail, t, t', start, k, id);
    }
  }

  lemma PrefixQuorums(env: Env, run: seq<World>, m: nat)
    requires QuorumsCounted(env, run) && m <= |run|
    ensures QuorumsCounted(env, run[..m])
  {
    forall start: nat, k: nat, id ensures QuorumOk(env, run[..m], start, k, id) {
      assert QuorumOk(env, run, start, k, id);
    }
  }

  lemma AppendKeepsQuorums(env: Env, n: ChainNode, b: Block, trail: seq<World>, t': Totals, j: Journal, n': ChainNode)
    requires IsRun(env, n.run) && n.world == n.run[|n.run| - 1] && ExtendsBy(env, n, b, trail, t', j, n')
    requires n.totals.staked == StakeIn(env, n.world.state.params, n.world.state.utxos) && QuorumsCounted(env, n.run)
    ensures QuorumsCounted(env, n'.run)
  {
    ExtendsByBlock(env, n, b, trail, t', j, n');
    ExtendedQuorums(env, n.run, n.world, b, trail, n.totals, t');
  }

  lemma ProgressKeepsQuorums(env: Env, n: ChainNode, n': ChainNode)
    requires NodeOk(env, n) && Progress(env, n, n') && StakedExact(env)(n.world, n.totals) && QuorumsCounted(env, n.run)
    ensures QuorumsCounted(env, n'.run)
  {
    if Extends(env, n, n') {
      var block, trail, t', j :| ExtendsBy(env, n, block, trail, t', j, n');
      AppendKeepsQuorums(env, n, block, trail, t', j, n');
    } else if RollsBack(n, n') {
      PrefixQuorums(env, n.run, n.starts[|n.starts| - 1] + 1);
    }
  }

  lemma StandsExact(env: Env, nodes: seq<ChainNode>, n: nat)
    requires NodeHistory(env, nodes) && n < |nodes| && StakedExact(env)(nodes[0].world, nodes[0].totals)
    requires forall i :: 0 <= i <= n ==> StakeFits(env, nodes[i])
    ensures NodeOk(env, nodes[n]) && StakedExact(env)(nodes[n].world, nodes[n].totals)
  {
    HistoryKeepsOk(env, nodes, n);
    StakedSupplyIsExact(env, nodes, n);
  }

  lemma OneMoreCounted(env: Env, nodes: seq<ChainNode>, n: nat)
    requires NodeHistory(env, nodes) && 0 < n < |nodes| && NodeOk(env, nodes[n - 1])
    requires StakedExact(env)(nodes[n - 1].world, nodes[n - 1].totals) && QuorumsCounted(env, nodes[n - 1].run)
    ensures QuorumsCounted(env, nodes[n].run)
  {
    assert ProgressAt(env, nodes, n - 1);
    ProgressKeepsQuorums(env, nodes[n - 1], nodes[n]);
  }

  /** Over every history: each proposal's quorum is measured against exactly what could be staked when its block began. */
  lemma {:induction false} QuorumsAreCounted(env: Env, nodes: seq<ChainNode>, n: nat)
    requires NodeHistory(env, nodes) && n < |nodes| && StakedExact(env)(nodes[0].world, nodes[0].totals)
    requires forall i :: 0 <= i <= n ==> StakeFits(env, nodes[i])
    ensures QuorumsCounted(env, nodes[n].run)
    decreases n
  {
    if n > 0 {
      QuorumsAreCounted(env, nodes, n - 1);
      StandsExact(env, nodes, n - 1);
      OneMoreCounted(env, nodes, n);
    }
  }

  /**
   * Over every history of blocks, rollbacks and trims: the turnout of a proposal is at most the supply its quorum
   * is measured against, as long as the least stake has not been lowered since its block began.
   */
  lemma TurnoutNeverExceedsQuorum(env: Env, nodes: seq<ChainNode>, n: nat, start: nat, k: nat, id: ProposalId)
    requires NodeHistory(env, nodes) && n < |nodes| && StakedExact(env)(nodes[0].world, nodes[0].totals)
    requires forall i :: 0 <= i <= n ==> StakeFits(env, nodes[i])
    requires BlockOf(nodes[n].run, start, k) && k + 1 < |nodes[n].run| && CreatedAt(nodes[n].run, k, id)
    requires LeastKept(nodes[n].run, start, |nodes[n].run| - 1)
    ensures var proposals := nodes[n].world.state.gov.proposals;
            id in proposals && proposals[id].Turnout() <= proposals[id].quorumSupply
  {
    HistoryKeepsOk(env, nodes, n);
    QuorumsAreCounted(env, nodes, n);
    TurnoutWithinQuorum(env, nodes[n].run, start, k, |nodes[n].run| - 1, id);
  }
}
