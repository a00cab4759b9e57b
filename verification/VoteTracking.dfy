/**
 * The invariant behind "no stake is counted twice".
 *
 * For each proposal a snapshot remembers the outputs that were unspent when it was created. `rep` follows each
 * of them through coinstakes to the output that carries it now, and `counted` is the weight each voting identity
 * was counted with. A snapshot may leave out what cannot be staked, or is worth less than `least`.
 */
module VoteTracking {
  import opened Machine
  import opened Sums
  import opened GovernanceTypes
  import opened GovernanceRules
  import opened Ledger

  datatype Snapshot = Snapshot(utxos: UtxoMap, rep: map<OutPoint, OutPoint>, counted: map<OutPoint, nat>, least: nat)

  type Trace = map<ProposalId, Snapshot>

  predicate LockOk(env: Env, s: State, used: set<Txid>, at: OutPoint) {
    at in s.gov.locks ==>
      var lock := s.gov.locks[at];
      && at in s.utxos
      && lock.outpoint == at
      && lock.votingValue <= s.utxos[at].value
      && StakeableKind(env.classify(s.utxos[at].script))
      && s.height < lock.unlockHeight
      && lock.origin.txid in used
      && (lock.origin == at || lock.origin !in s.utxos)
      && lock.proposal in s.gov.proposals
      && lock.unlockHeight == s.gov.proposals[lock.proposal].proposal.votingEnd + LOCK_GRACE_BLOCKS
  }

  predicate LocksApart(locks: Locks, a: OutPoint, b: OutPoint) {
    a in locks && b in locks && locks[a].origin == locks[b].origin ==> a == b
  }

  predicate RecordOk(s: State, rec: ProposalRecord, snap: Snapshot) {
    && rec.createdHeight <= s.height
    && rec.proposal.votingEnd + LOCK_GRACE_BLOCKS <= U32_MAX
    && (rec.decided || s.height < rec.proposal.votingEnd)
    && (rec.passed ==> rec.decided)
    && (rec.applied ==> rec.passed)
  }

  /** `at` carries the lock of counted identity `origin`, long enough, and stands for enough of the snapshot. */
  predicate Carries(s: State, rec: ProposalRecord, snap: Snapshot, origin: OutPoint, at: OutPoint) {
    && at in s.gov.locks
    && s.gov.locks[at].origin == origin
    && rec.proposal.votingEnd + LOCK_GRACE_BLOCKS <= s.gov.locks[at].unlockHeight
    && at in snap.rep && snap.rep[at] in snap.utxos
    && origin in snap.counted && snap.counted[origin] <= snap.utxos[snap.rep[at]].value
  }

  predicate RepOk(s: State, used: set<Txid>, snap: Snapshot, at: OutPoint) {
    at in snap.rep ==> snap.rep[at] in snap.utxos && at.txid in used
  }

  predicate RepApart(s: State, snap: Snapshot, a: OutPoint, b: OutPoint) {
    a in snap.rep && b in snap.rep && a in s.utxos && b in s.utxos && snap.rep[a] == snap.rep[b] ==> a == b
  }

  /** An output that the snapshot does not leave out. */
  predicate Weighty(env: Env, snap: Snapshot, u: Utxo) {
    snap.least <= u.value && StakeableKind(env.classify(u.script))
  }

  /** An output older than the proposal is in the snapshot and stands for itself. */
  predicate OldOutput(env: Env, s: State, rec: ProposalRecord, snap: Snapshot, at: OutPoint) {
    at in s.utxos && s.utxos[at].height < rec.createdHeight && Weighty(env, snap, s.utxos[at]) ==>
      at in snap.rep && snap.rep[at] == at && at in snap.utxos && snap.utxos[at] == s.utxos[at]
  }

  /** A lock whose identity is older than the proposal sits on an output that stands for at least its weight. */
  predicate OldLock(env: Env, s: State, rec: ProposalRecord, snap: Snapshot, at: OutPoint) {
    at in s.gov.locks && at in s.utxos && s.gov.locks[at].originHeight < rec.createdHeight && Weighty(env, snap, s.utxos[at]) ==>
      at in snap.rep && snap.rep[at] in snap.utxos && s.gov.locks[at].votingValue <= snap.utxos[snap.rep[at]].value
  }

  ghost predicate Tracks(env: Env, s: State, used: set<Txid>, rec: ProposalRecord, snap: Snapshot) {
    && (forall at :: RepOk(s, used, snap, at))
    && (forall a, b :: RepApart(s, snap, a, b))
    && (forall at :: OldOutput(env, s, rec, snap, at))
    && (forall at :: OldLock(env, s, rec, snap, at))
    && snap.counted.Keys == rec.voted
    && (forall origin :: origin in rec.voted ==> exists at :: Carries(s, rec, snap, origin, at))
  }

  ghost predicate ProposalOk(env: Env, s: State, used: set<Txid>, tr: Trace, id: ProposalId) {
    id in s.gov.proposals ==>
      && id in tr
      && RecordOk(s, s.gov.proposals[id], tr[id]) && tr[id].least == 0
      && s.gov.proposals[id].Turnout() == MapSum(tr[id].counted)
      && Backed(tr[id].counted, tr[id].utxos)
      && (!s.gov.proposals[id].decided ==> Tracks(env, s, used, s.gov.proposals[id], tr[id]))
  }

  ghost predicate Inv(env: Env, s: State, used: set<Txid>, tr: Trace) {
    && (forall at :: UtxoOk(s, used, at))
    && (forall at :: LockOk(env, s, used, at))
    && (forall a, b :: LocksApart(s.gov.locks, a, b))
    && (forall id :: ProposalOk(env, s, used, tr, id))
  }

  /** Each counted identity is charged to its own snapshot output, for no more than that output was worth. */
  ghost predicate Charged(counted: map<OutPoint, nat>, utxos: UtxoMap, charge: map<OutPoint, OutPoint>) {
    && charge.Keys == counted.Keys
    && (forall o :: o in charge ==> charge[o] in utxos && counted[o] <= utxos[charge[o]].value)
    && (forall o, p :: o in charge && p in charge && charge[o] == charge[p] ==> o == p)
  }

  ghost predicate Backed(counted: map<OutPoint, nat>, utxos: UtxoMap) {
    exists charge :: Charged(counted, utxos, charge)
  }

  lemma BackedBound(counted: map<OutPoint, nat>, utxos: UtxoMap)
    requires Backed(counted, utxos)
    ensures MapSum(counted) <= TotalValue(utxos)
  {
    var charge :| Charged(counted, utxos, charge);
    MapSumInjection(counted, Values(utxos), charge);
  }

  /** While a proposal is tracked, its counted weight is charged to distinct outputs of the snapshot. */
  lemma TrackedBacked(env: Env, s: State, used: set<Txid>, rec: ProposalRecord, snap: Snapshot)
    requires forall at :: LockOk(env, s, used, at)
    requires Tracks(env, s, used, rec, snap)
    ensures Backed(snap.counted, snap.utxos)
  {
    var holder := map origin | origin in rec.voted :: Holder(env, s, used, rec, snap, origin);
    var charge := map origin | origin in rec.voted :: snap.rep[holder[origin]];
    forall o, p | o in rec.voted && p in rec.voted && charge[o] == charge[p] ensures o == p {
      assert LockOk(env, s, used, holder[o]) && LockOk(env, s, used, holder[p]);
      assert RepApart(s, snap, holder[o], holder[p]);
    }
    assert Charged(snap.counted, snap.utxos, charge);
  }

  ghost function Holder(env: Env, s: State, used: set<Txid>, rec: ProposalRecord, snap: Snapshot, origin: OutPoint): (at: OutPoint)
    requires Tracks(env, s, used, rec, snap) && origin in rec.voted
    ensures Carries(s, rec, snap, origin, at)
  {
    var at :| Carries(s, rec, snap, origin, at);
    at
  }

  // ---------------------------------------------------------------- proposals

  function Identity(utxos: UtxoMap): map<OutPoint, OutPoint> { map at | at in utxos :: at }

  lemma ProposePreserves(env: Env, s: State, used: set<Txid>, tr: Trace, ctx: Context, p: Proposal, burned: u64) returns (tr': Trace)
    requires Inv(env, s, used, tr) && ctx.height == s.height && ctx.utxos == s.utxos
    requires Propose(env, s.gov, ctx, p, burned).error.None?
    ensures Inv(env, s.(gov := Propose(env, s.gov, ctx, p, burned).gov), used, tr')
    ensures var id := env.proposalId(p, ctx.height);
            tr' == tr[id := Snapshot(s.utxos, Identity(s.utxos), map[], 0)]
  {
    var id := env.proposalId(p, ctx.height);
    var g' := Propose(env, s.gov, ctx, p, burned).gov;
    var s' := s.(gov := g');
    tr' := tr[id := Snapshot(s.utxos, Identity(s.utxos), map[], 0)];
    forall at ensures UtxoOk(s', used, at) { assert UtxoOk(s, used, at); }
    forall at ensures LockOk(env, s', used, at) { assert LockOk(env, s, used, at); }
    forall a, b ensures LocksApart(s'.gov.locks, a, b) { assert LocksApart(s.gov.locks, a, b); }
    forall k ensures ProposalOk(env, s', used, tr', k) {
      assert ProposalOk(env, s, used, tr, k);
      if k == id {
        NewProposalTracked(env, s, used, g'.proposals[id], s');
      } else if k in s.gov.proposals && !s.gov.proposals[k].decided {
        SameTracks(env, s, s', used, used, s.gov.proposals[k], tr[k]);
      }
    }
  }

  lemma NewProposalTracked(env: Env, s: State, used: set<Txid>, rec: ProposalRecord, s': State)
    requires (forall at :: UtxoOk(s, used, at)) && (forall at :: LockOk(env, s, used, at))
    requires rec.voted == {} && s'.utxos == s.utxos && s'.gov.locks == s.gov.locks
    ensures Tracks(env, s', used, rec, Snapshot(s.utxos, Identity(s.utxos), map[], 0)) && Backed(map[], s.utxos)
  {
    assert Charged(map[], s.utxos, map[]);
    var snap := Snapshot(s.utxos, Identity(s.utxos), map[], 0);
    forall at ensures RepOk(s', used, snap, at) && OldOutput(env, s', rec, snap, at) && OldLock(env, s', rec, snap, at) {
      assert UtxoOk(s, used, at) && LockOk(env, s, used, at);
    }
    assert forall a, b :: RepApart(s', snap, a, b);
  }

  /** Tracking depends on the outputs and the locks only. */
  lemma SameTracks(env: Env, s: State, s': State, used: set<Txid>, used': set<Txid>, rec: ProposalRecord, snap: Snapshot)
    requires Tracks(env, s, used, rec, snap) && s'.utxos == s.utxos && s'.gov.locks == s.gov.locks && used <= used'
    ensures Tracks(env, s', used', rec, snap)
  {
    forall at ensures RepOk(s', used', snap, at) && OldOutput(env, s', rec, snap, at) && OldLock(env, s', rec, snap, at) {
      assert RepOk(s, used, snap, at) && OldOutput(env, s, rec, snap, at) && OldLock(env, s, rec, snap, at);
    }
    forall a, b ensures RepApart(s', snap, a, b) { assert RepApart(s, snap, a, b); }
    forall origin | origin in rec.voted ensures exists at :: Carries(s', rec, snap, origin, at) {
      assert Carries(s', rec, snap, origin, Holder(env, s, used, rec, snap, origin));
    }
  }

  // -------------------------------------------------------------------- votes

  /** What a counted vote does to the locks, and how it is counted. */
  ghost predicate Counted(env: Env, s: State, ctx: Context, v: SignedVote, s': State) {
    && ctx.height == s.height && ctx.utxos == s.utxos
    && CastVote(env, s.gov, ctx, v).error.None?
    && s' == s.(gov := CastVote(env, s.gov, ctx, v).gov)
  }

  function VoteClaim(s: State, v: SignedVote): Claim
    requires v.outpoint in s.utxos
  {
    ClaimOf(s.gov.locks, s.utxos[v.outpoint], v.outpoint)
  }

  lemma VoteLockOk(env: Env, s: State, used: set<Txid>, tr: Trace, ctx: Context, v: SignedVote, s': State, at: OutPoint)
    requires Inv(env, s, used, tr) && Counted(env, s, ctx, v, s')
    ensures LockOk(env, s', used, at)
  {
    assert LockOk(env, s, used, at) && UtxoOk(s, used, at);
    assert ProposalOk(env, s, used, tr, v.proposal);
  }

  lemma VoteLocksApart(env: Env, s: State, used: set<Txid>, tr: Trace, ctx: Context, v: SignedVote, s': State, a: OutPoint, b: OutPoint)
    requires Inv(env, s, used, tr) && Counted(env, s, ctx, v, s')
    ensures LocksApart(s'.gov.locks, a, b)
  {
    assert LocksApart(s.gov.locks, a, b);
    assert LockOk(env, s, used, a) && LockOk(env, s, used, b);
  }

  /** The identity a vote is counted with is older than the proposal, and backed for its weight. */
  lemma VoteBacked(env: Env, s: State, used: set<Txid>, tr: Trace, ctx: Context, v: SignedVote, s': State, rec: ProposalRecord, snap: Snapshot)
    requires Inv(env, s, used, tr) && Counted(env, s, ctx, v, s')
    requires Tracks(env, s, used, rec, snap) && VoteClaim(s, v).originHeight < rec.createdHeight
    requires snap.least <= s.utxos[v.outpoint].value
    ensures v.outpoint in snap.rep && snap.rep[v.outpoint] in snap.utxos
    ensures VoteClaim(s, v).stake <= snap.utxos[snap.rep[v.outpoint]].value
    ensures v.outpoint in s'.gov.locks && s'.gov.locks[v.outpoint].votingValue <= snap.utxos[snap.rep[v.outpoint]].value
  {
    assert OldLock(env, s, rec, snap, v.outpoint) && OldOutput(env, s, rec, snap, v.outpoint);
  }

  /** A vote does not disturb the tracking of any proposal, as long as its own counts are left aside. */
  lemma VoteKeepsTracks(env: Env, s: State, used: set<Txid>, tr: Trace, ctx: Context, v: SignedVote, s': State, rec: ProposalRecord, snap: Snapshot)
    requires Inv(env, s, used, tr) && Counted(env, s, ctx, v, s') && Tracks(env, s, used, rec, snap)
    ensures Tracks(env, s', used, rec, snap)
  {
    forall at ensures RepOk(s', used, snap, at) && OldOutput(env, s', rec, snap, at) {
      assert RepOk(s, used, snap, at) && OldOutput(env, s, rec, snap, at);
    }
    forall at ensures OldLock(env, s', rec, snap, at) {
      assert OldLock(env, s, rec, snap, at);
      if at == v.outpoint && VoteClaim(s, v).originHeight < rec.createdHeight && snap.least <= s.utxos[at].value {
        VoteBacked(env, s, used, tr, ctx, v, s', rec, snap);
      }
    }
    forall a, b ensures RepApart(s', snap, a, b) { assert RepApart(s, snap, a, b); }
    forall origin | origin in rec.voted ensures exists at :: Carries(s', rec, snap, origin, at) {
      assert Carries(s', rec, snap, origin, Holder(env, s, used, rec, snap, origin));
    }
  }

  /** Writing a vote down keeps the tracking, once its outpoint carries the identity. */
  lemma RecountTracks(env: Env, s: State, used: set<Txid>, rec: ProposalRecord, rec': ProposalRecord, snap: Snapshot, claim: Claim, at: OutPoint)
    requires Tracks(env, s, used, rec, snap)
    requires rec'.proposal == rec.proposal && rec'.createdHeight == rec.createdHeight && rec'.voted == rec.voted + {claim.origin}
    requires Carries(s, rec', snap.(counted := snap.counted[claim.origin := claim.stake]), claim.origin, at)
    ensures Tracks(env, s, used, rec', snap.(counted := snap.counted[claim.origin := claim.stake]))
  {
    var snap' := snap.(counted := snap.counted[claim.origin := claim.stake]);
    forall x ensures RepOk(s, used, snap', x) && OldOutput(env, s, rec', snap', x) && OldLock(env, s, rec', snap', x) {
      assert RepOk(s, used, snap, x) && OldOutput(env, s, rec, snap, x) && OldLock(env, s, rec, snap, x);
    }
    forall a, b ensures RepApart(s, snap', a, b) { assert RepApart(s, snap, a, b); }
    forall origin | origin in rec'.voted ensures exists x :: Carries(s, rec', snap', origin, x) {
      if origin == claim.origin {
        assert Carries(s, rec', snap', origin, at);
      } else {
        assert Carries(s, rec', snap', origin, Holder(env, s, used, rec, snap, origin));
      }
    }
  }

  /** A vote is tracked by every snapshot that tracks its proposal and does not leave the voting output out. */
  lemma VoteTrackedBy(env: Env, s: State, used: set<Txid>, tr: Trace, ctx: Context, v: SignedVote, s': State, snap: Snapshot)
    requires Inv(env, s, used, tr) && Counted(env, s, ctx, v, s')
    requires Tracks(env, s, used, s.gov.proposals[v.proposal], snap) && snap.least <= s.utxos[v.outpoint].value
    ensures var claim := VoteClaim(s, v);
            && claim.origin !in snap.counted
            && Tracks(env, s', used, s'.gov.proposals[v.proposal], snap.(counted := snap.counted[claim.origin := claim.stake]))
  {
    var id, claim := v.proposal, VoteClaim(s, v);
    VoteKeepsTracks(env, s, used, tr, ctx, v, s', s.gov.proposals[id], snap);
    VoteBacked(env, s, used, tr, ctx, v, s', s.gov.proposals[id], snap);
    VoteRecord(env, s, ctx, v, s');
    VoteCarries(env, s, ctx, v, s', snap);
    RecountTracks(env, s', used, s.gov.proposals[id], s'.gov.proposals[id], snap, claim, v.outpoint);
  }

  lemma VoteCarries(env: Env, s: State, ctx: Context, v: SignedVote, s': State, snap: Snapshot)
    requires Counted(env, s, ctx, v, s') && v.outpoint in snap.rep && snap.rep[v.outpoint] in snap.utxos
    requires VoteClaim(s, v).stake <= snap.utxos[snap.rep[v.outpoint]].value
    ensures var claim := VoteClaim(s, v);
            Carries(s', s'.gov.proposals[v.proposal], snap.(counted := snap.counted[claim.origin := claim.stake]), claim.origin, v.outpoint)
  {
  }

  /** The trace after a vote: its identity and weight are written down. */
  function VoteTrace(s: State, tr: Trace, v: SignedVote): Trace
    requires v.outpoint in s.utxos && v.proposal in tr
  {
    var claim := VoteClaim(s, v);
    tr[v.proposal := tr[v.proposal].(counted := tr[v.proposal].counted[claim.origin := claim.stake])]
  }

  /** A counted vote adds its weight to the tally of its choice, and its identity to the voters. */
  lemma VoteRecord(env: Env, s: State, ctx: Context, v: SignedVote, s': State)
    requires Counted(env, s, ctx, v, s')
    ensures var rec, rec', claim := s.gov.proposals[v.proposal], s'.gov.proposals[v.proposal], VoteClaim(s, v);
            && rec'.yes == rec.yes + (if v.choice == Yes then claim.stake else 0)
            && rec'.no == rec.no + (if v.choice == No then claim.stake else 0)
            && rec'.abstain == rec.abstain + (if v.choice == Abstain then claim.stake else 0)
            && claim.origin !in rec.voted
            && rec' == rec.(yes := rec'.yes, no := rec'.no, abstain := rec'.abstain, voted := rec.voted + {claim.origin})
            && s'.gov.proposals == s.gov.proposals[v.proposal := rec']
  {
  }

  lemma VotedProposalOk(env: Env, s: State, used: set<Txid>, tr: Trace, ctx: Context, v: SignedVote, s': State)
    requires Inv(env, s, used, tr) && Counted(env, s, ctx, v, s') && v.proposal in tr
    requires forall at :: LockOk(env, s', used, at)
    ensures ProposalOk(env, s', used, VoteTrace(s, tr, v), v.proposal)
  {
    var id, claim := v.proposal, VoteClaim(s, v);
    assert ProposalOk(env, s, used, tr, id);
    VoteTrackedBy(env, s, used, tr, ctx, v, s', tr[id]);
    VoteRecord(env, s, ctx, v, s');
    CountOneMore(env, s', used, s.gov.proposals[id], s'.gov.proposals[id], tr[id], claim);
  }

  lemma CountOneMore(env: Env, s: State, used: set<Txid>, rec: ProposalRecord, rec': ProposalRecord, snap: Snapshot, claim: Claim)
    requires forall at :: LockOk(env, s, used, at)
    requires rec.Turnout() == MapSum(snap.counted) && rec'.Turnout() == rec.Turnout() + claim.stake
    requires claim.origin !in snap.counted
    requires Tracks(env, s, used, rec', snap.(counted := snap.counted[claim.origin := claim.stake]))
    ensures rec'.Turnout() == MapSum(snap.counted[claim.origin := claim.stake])
    ensures Backed(snap.counted[claim.origin := claim.stake], snap.utxos)
  {
    MapSumInsert(snap.counted, claim.origin, claim.stake);
    TrackedBacked(env, s, used, rec', snap.(counted := snap.counted[claim.origin := claim.stake]));
  }

  lemma VotePreserves(env: Env, s: State, used: set<Txid>, tr: Trace, ctx: Context, v: SignedVote, s': State)
    requires Inv(env, s, used, tr) && Counted(env, s, ctx, v, s')
    ensures v.proposal in tr && Inv(env, s', used, VoteTrace(s, tr, v))
  {
    assert ProposalOk(env, s, used, tr, v.proposal);
    var tr' := VoteTrace(s, tr, v);
    forall at ensures UtxoOk(s', used, at) { assert UtxoOk(s, used, at); }
    forall at ensures LockOk(env, s', used, at) { VoteLockOk(env, s, used, tr, ctx, v, s', at); }
    forall a, b ensures LocksApart(s'.gov.locks, a, b) { VoteLocksApart(env, s, used, tr, ctx, v, s', a, b); }
    VoteRecord(env, s, ctx, v, s');
    forall k ensures ProposalOk(env, s', used, tr', k) {
      assert ProposalOk(env, s, used, tr, k);
      if k == v.proposal {
        VotedProposalOk(env, s, used, tr, ctx, v, s');
      } else if k in s.gov.proposals && !s.gov.proposals[k].decided {
        VoteKeepsTracks(env, s, used, tr, ctx, v, s', s.gov.proposals[k], tr[k]);
      }
    }
  }
}
