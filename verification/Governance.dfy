/** The `GovernanceState` object, each method proved against the rules. */
module Governance {
  import opened Machine
  import opened Consensus
  import opened Sorting
  import opened GovernanceTypes
  import opened GovernanceRules
  import opened GovernanceBlocks
  import opened GovernancePolicy
  import opened Activations
  import opened GovernanceUndo
  import opened TransactionUndo

  class GovernanceState {
    var proposals: Proposals
    var locks: Locks

    ghost function View(): Gov
      reads this
    {
      Gov(proposals, locks)
    }

    constructor ()
      ensures View() == Gov(map[], map[])
    {
      proposals, locks := map[], map[];
    }

    method AcceptProposal(env: Env, ctx: Context, p: Proposal, burned: u64) returns (error: Option<Error>)
      modifies this
      ensures Outcome(View(), error) == Propose(env, old(View()), ctx, p, burned)
      ensures error.None? <==> ProposalStands(env, old(View()), ctx, p, burned)
      ensures if error.None? then ProposalTaken(env, old(View()), ctx, p, View()) else View() == old(View())
    {
      ProposalExactly(env, View(), ctx, p, burned);
      error := Validate(p, ctx.height, burned, ctx.params);
      if error.Some? { return; }
      var id := env.proposalId(p, ctx.height);
      if id in proposals { return Some(DuplicateProposal); }
      proposals := proposals[id := NewRecord(p, ctx.height, ctx.totalStaked)];
    }

    /** The checks a vote must pass, and the identity and weight it is counted with. */
    method CheckVote(env: Env, ctx: Context, v: SignedVote) returns (error: Option<Error>, claim: Claim)
      ensures error == VoteRefusal(env, View(), ctx, v)
      ensures error.None? <==> VoteAllowed(env, View(), ctx, v)
      ensures error.None? ==> claim == ClaimOf(locks, ctx.utxos[v.outpoint], v.outpoint)
      ensures error.None? ==> claim.origin == Origin(View(), v.outpoint) && claim.stake == Weight(View(), ctx.utxos[v.outpoint], v.outpoint)
    {
      claim := Claim(v.outpoint, 0, 0);
      if v.outpoint !in ctx.utxos { return Some(OutpointSpent), claim; }
      var u := ctx.utxos[v.outpoint];
      if !IsStakeable(env, DEFAULT_PARAMS, u) || u.value < ctx.params.minStakeAmount
         || ctx.timestamp < u.timestamp || ctx.timestamp - u.timestamp < ctx.params.minStakeAge {
        return Some(StakeNotMature), claim;
      }
      if env.voter(v, u).None? { return Some(NotAuthorized), claim; }
      claim := Claim(v.outpoint, u.value, u.height);
      if v.outpoint in locks {
        var held := locks[v.outpoint];
        claim := Claim(held.origin, Min(held.votingValue, u.value), held.originHeight);
      }
      if v.proposal !in proposals { return Some(UnknownProposal), claim; }
      var rec := proposals[v.proposal];
      if ctx.height <= rec.createdHeight || rec.proposal.votingEnd <= ctx.height || rec.decided {
        return Some(WindowClosed), claim;
      }
      if rec.createdHeight <= claim.originHeight { return Some(StakeTooNew), claim; }
      if claim.origin in rec.voted { return Some(AlreadyCounted), claim; }
      error := None;
    }

    method AcceptVote(env: Env, ctx: Context, v: SignedVote) returns (error: Option<Error>)
      modifies this
      ensures Outcome(View(), error) == CastVote(env, old(View()), ctx, v)
      ensures error.None? <==> VoteStands(env, old(View()), ctx, v)
      ensures error.None? <==> VoteTaken(env, old(View()), ctx, v, View())
      ensures !VoteAllowed(env, old(View()), ctx, v) ==> View() == old(View())
    {
      VoteExactly(env, View(), ctx, v);
      var claim;
      error, claim := CheckVote(env, ctx, v);
      if error.Some? { return; }
      var rec := proposals[v.proposal];
      rec := rec.(voted := rec.voted + {claim.origin});
      proposals := proposals[v.proposal := rec];
      if Tallied(rec, v.choice) + claim.stake > U64_MAX { return Some(TallyOverflow); }
      match v.choice {
        case Yes => rec := rec.(yes := rec.yes + claim.stake);
        case No => rec := rec.(no := rec.no + claim.stake);
        case Abstain => rec := rec.(abstain := rec.abstain + claim.stake);
      }
      proposals := proposals[v.proposal := rec];
      assert proposals == old(proposals)[v.proposal := rec];
      if rec.proposal.votingEnd + LOCK_GRACE_BLOCKS > U32_MAX { return Some(UnlockOverflow); }
      LockVoter(v, ctx.utxos[v.outpoint], claim, env.voter(v, ctx.utxos[v.outpoint]).value,
                rec.proposal.votingEnd + LOCK_GRACE_BLOCKS);
    }

    method LockVoter(v: SignedVote, u: Utxo, claim: Claim, voter: string, unlock: u32)
      modifies this`locks
      ensures locks == old(locks)[v.outpoint := VoteLocked(old(locks), v, u, claim, voter, unlock)]
    {
      var lock := VoteLock(u.outpoint, unlock, voter, v.proposal, claim.origin, claim.stake, claim.originHeight);
      if v.outpoint in locks { lock := locks[v.outpoint]; }
      if lock.unlockHeight < unlock {
        lock := lock.(unlockHeight := unlock, proposal := v.proposal);
      }
      locks := locks[v.outpoint := lock];
    }

    method ProcessTransaction(env: Env, tx: Transaction, ctx: Context) returns (error: Option<Error>)
      modifies this
      ensures Outcome(View(), error) == ProcessOutputs(env, old(View()), ctx, tx.outputs)
      ensures error.None? <==> exists states :: AllTaken(env, ctx, tx.outputs, states) && LeadsTo(states, old(View()), View())
    {
      var i := 0;
      while i < |tx.outputs|
        invariant 0 <= i <= |tx.outputs|
        invariant Outcome(View(), None) == ProcessOutputs(env, old(View()), ctx, tx.outputs[..i])
      {
        var o := tx.outputs[i];
        ProcessOutputsSnoc(env, old(View()), ctx, tx.outputs[..i], o);
        assert tx.outputs[..i + 1] == tx.outputs[..i] + [o];
        match env.payload(o.script) {
          case NoPayload => error := None;
          case MalformedProposal => error := Some(BadProposalEncoding);
          case ProposalPayload(p) => error := AcceptProposal(env, ctx, p, o.value);
          case MalformedVote => error := Some(BadVoteEncoding);
          case VotePayload(v) => error := AcceptVote(env, ctx, v);
          case UnsignedVote => error := Some(UnsignedVoteRefused);
        }
        if error.Some? {
          ProcessStops(env, old(View()), ctx, tx.outputs, i + 1);
          TransactionExactly(env, old(View()), ctx, tx.outputs, View());
          return;
        }
        i := i + 1;
      }
      assert tx.outputs[..i] == tx.outputs;
      TransactionExactly(env, old(View()), ctx, tx.outputs, View());
      error := None;
    }

    method TransferStakeLock(tx: Transaction, u: Utxo, height: u32) returns (error: Option<Error>)
      modifies this`locks
      ensures Outcome(View(), error) == TransferLock(old(View()), tx, u, height)
      ensures !(u.outpoint in old(locks) && height < old(locks)[u.outpoint].unlockHeight) ==> error == None && locks == old(locks)
      ensures u.outpoint in old(locks) && height < old(locks)[u.outpoint].unlockHeight ==>
                && (error.None? <==> exists i :: Returns(tx, u, i))
                && (forall i :: Returns(tx, u, i) ==> LockMoved(old(View()), u, tx.txid, i, View()))
      ensures error.Some? ==> locks == old(locks)
    {
      TransferExactly(View(), tx, u, height);
      if !IsLocked(locks, u.outpoint, height) { return None; }
      var bearing := [];
      var i := 0;
      while i < |tx.outputs|
        invariant 0 <= i <= |tx.outputs|
        invariant bearing == ValueBearing(tx.outputs[..i])
      {
        assert tx.outputs[..i + 1][..i] == tx.outputs[..i];
        if tx.outputs[i].value > 0 { bearing := bearing + [i]; }
        i := i + 1;
      }
      assert tx.outputs[..i] == tx.outputs;
      if tx.kind != Coinstake || |bearing| != 1 || tx.outputs[bearing[0]].script != u.script
         || tx.outputs[bearing[0]].value < u.value {
        return Some(BadRelock);
      }
      var lock := locks[u.outpoint];
      locks := locks - {u.outpoint};
      var to := OutPoint(tx.txid, bearing[0]);
      locks := locks[to := lock.(outpoint := to)];
      error := None;
    }

    /** Proposals are visited in no particular order; the result is still determined. */
    method BeginBlock(env: Env, height: u32, params: Params, utxos: UtxoMap, timestamp: u32) returns (params': Params)
      modifies this
      ensures BeginsBlock(env, old(View()), params, utxos, height, timestamp, View(), params')
      ensures locks.Keys == (set at | at in old(locks) && height < old(locks)[at].unlockHeight)
      ensures forall at :: at in locks ==> locks[at] == old(locks)[at]
      ensures exists order, stages ::
                && InTurn(old(proposals), proposals, order) && ActivatesAll(env, proposals, utxos, timestamp, order, stages)
                && stages[0] == params && stages[|order|] == params'
    {
      locks := map at | at in locks && height < locks[at].unlockHeight :: locks[at];
      var pending := DecideProposals(height);
      SortedDueOrder(proposals, height, pending);
      params' := ActivatePending(env, params, utxos, timestamp, Sort(pending, RankLe));
      ghost var order, stages := BeginActivates(env, old(View()), params, utxos, height, timestamp, View(), params');
    }

    /** The first loop of `begin_block`: close what is due to close and collect what is due to activate. */
    method DecideProposals(height: u32) returns (pending: seq<Rank>)
      modifies this`proposals
      ensures proposals == DecideAll(old(proposals), height)
      ensures Collected(proposals, height, {}, pending)
    {
      pending := [];
      var left := proposals.Keys;
      while left != {}
        invariant proposals.Keys == old(proposals).Keys && left <= proposals.Keys
        invariant forall id :: id in proposals ==>
          proposals[id] == if id in left then old(proposals)[id] else Decide(old(proposals)[id], height)
        invariant Collected(proposals, height, left, pending)
        decreases left
      {
        var id :| id in left;
        var rec := DecideOne(proposals[id], height);
        CollectOne(proposals, height, left, pending, id, rec);
        proposals := proposals[id := rec];
        if rec.passed && !rec.applied && rec.proposal.activationHeight <= height {
          pending := pending + [Rank(rec.proposal.activationHeight, rec.createdHeight, id)];
        }
        left := left - {id};
      }
    }

    /** The second loop of `begin_block`. */
    method ActivatePending(env: Env, params: Params, utxos: UtxoMap, timestamp: u32, order: seq<Rank>) returns (params': Params)
      requires forall i :: 0 <= i < |order| ==> order[i].id in proposals
      modifies this`proposals
      ensures Activated(proposals, params') == ActivateAll(env, old(proposals), params, utxos, timestamp, order)
      ensures NoRepeats(order) ==> exists stages ::
                && ActivatesAll(env, proposals, utxos, timestamp, IdsOf(order), stages)
                && stages[0] == params && stages[|order|] == params'
    {
      params' := params;
      var i := 0;
      while i < |order|
        invariant 0 <= i <= |order|
        invariant forall j :: 0 <= j < |order| ==> order[j].id in proposals
        invariant ActivateAll(env, old(proposals), params, utxos, timestamp, order)
               == ActivateAll(env, proposals, params', utxos, timestamp, order[i..])
      {
        var id := order[i].id;
        var rec := proposals[id];
        var candidate := Apply(rec.proposal.param, params', rec.proposal.newValue);
        var failed := candidate.None? || !(exists at :: at in utxos && EligibleAt(env, candidate.value, utxos[at], timestamp));
        assert order[i..][0] == order[i] && order[i..][1..] == order[i + 1..];
        assert failed == TryActivate(env, rec, params', utxos, timestamp).None?;
        proposals := proposals[id := rec.(applied := true, activationFailed := failed)];
        if !failed { params' := candidate.value; }
        i := i + 1;
      }
      ghost var stages;
      if NoRepeats(order) { stages := ActivateAllExactly(env, old(proposals), params, utxos, timestamp, order); }
    }

    method RestoreUndo(undo: Undo)
      requires NeverPanics(proposals, undo.proposals)
      modifies this
      ensures View() == Restore(old(View()), undo)
    {
      var i := |undo.proposals|;
      assert undo.proposals[..i] == undo.proposals;
      while i > 0
        invariant 0 <= i <= |undo.proposals|
        invariant locks == old(locks)
        invariant RestoreProposals(proposals, undo.proposals[..i]) == RestoreProposals(old(proposals), undo.proposals)
        invariant NeverPanics(proposals, undo.proposals[..i])
      {
        i := i - 1;
        assert undo.proposals[..i + 1][..i] == undo.proposals[..i];
        match undo.proposals[i] {
          case Added(id) => proposals := proposals - {id};
          case Removed(id, record) => proposals := proposals[id := record];
          case Updated(id, metadata, added, removed) =>
            var votes := proposals[id].voted - added + removed;
            proposals := proposals[id := metadata.(voted := votes)];
        }
      }
      i := |undo.locks|;
      assert undo.locks[..i] == undo.locks;
      while i > 0
        invariant 0 <= i <= |undo.locks|
        invariant proposals == RestoreProposals(old(proposals), undo.proposals)
        invariant RestoreLocks(locks, undo.locks[..i]) == RestoreLocks(old(locks), undo.locks)
      {
        i := i - 1;
        assert undo.locks[..i + 1][..i] == undo.locks[..i];
        match undo.locks[i].lock {
          case Some(lock) => locks := locks[undo.locks[i].at := lock];
          case None => locks := locks - {undo.locks[i].at};
        }
      }
    }

    /** Whatever happened since `before`, the record returned takes it back. */
    method UndoSince(before: Gov) returns (undo: Undo)
      ensures Undoes(undo, View(), before)
      ensures Restore(View(), undo) == before
    {
      var changed := ProposalsSince(before.proposals);
      var moved := LocksSince(before.locks);
      undo := Undo(changed, moved);
      UndoesRestores(undo, View(), before);
    }

    method ProposalsSince(before: Proposals) returns (cs: seq<ProposalUndo>)
      ensures Restorable(proposals, cs)
      ensures forall i :: 0 <= i < |cs| ==> Rights(cs[i], proposals, before)
      ensures forall id :: Lookup(proposals, id) == Lookup(before, id) || exists i :: 0 <= i < |cs| && cs[i].id == id
    {
      cs := [];
      var left := proposals.Keys + before.Keys;
      ghost var all := left;
      while left != {}
        invariant left <= all
        invariant Restorable(proposals, cs)
        invariant forall i :: 0 <= i < |cs| ==> cs[i].id in all - left && Rights(cs[i], proposals, before)
        invariant forall id :: id in all - left && Lookup(proposals, id) != Lookup(before, id) ==>
                    exists i :: 0 <= i < |cs| && cs[i].id == id
        decreases left
      {
        var id :| id in left;
        ghost var prior := cs;
        if id in proposals && id !in before {
          cs := cs + [Added(id)];
        } else if id in proposals && proposals[id] != before[id] {
          var old' := before[id];
          var entry := Updated(id, old'.Metadata(), proposals[id].voted - old'.voted, old'.voted - proposals[id].voted);
          assert proposals[id].voted - entry.addedVotes + entry.removedVotes == old'.voted;
          cs := cs + [entry];
        } else if id !in proposals {
          cs := cs + [Removed(id, before[id])];
        }
        forall k | k in all - (left - {id}) && Lookup(proposals, k) != Lookup(before, k)
          ensures exists i :: 0 <= i < |cs| && cs[i].id == k
        {
          if k == id {
            assert cs[|cs| - 1].id == k;
          } else {
            var i :| 0 <= i < |prior| && prior[i].id == k;
            assert cs[i].id == k;
          }
        }
        left := left - {id};
      }
    }

    method LocksSince(before: Locks) returns (cs: seq<LockUndo>)
      ensures DistinctOutpoints(cs)
      ensures forall i :: 0 <= i < |cs| ==> cs[i].lock == Lookup(before, cs[i].at)
      ensures forall at :: Lookup(locks, at) == Lookup(before, at) || exists i :: 0 <= i < |cs| && cs[i].at == at
    {
      cs := [];
      var left := before.Keys + locks.Keys;
      ghost var all := left;
      while left != {}
        invariant left <= all
        invariant DistinctOutpoints(cs)
        invariant forall i :: 0 <= i < |cs| ==> cs[i].at in all - left && cs[i].lock == Lookup(before, cs[i].at)
        invariant forall at :: at in all - left && Lookup(locks, at) != Lookup(before, at) ==>
                    exists i :: 0 <= i < |cs| && cs[i].at == at
        decreases left
      {
        var at :| at in left;
        ghost var prior := cs;
        if at in before && (at !in locks || locks[at] != before[at]) {
          cs := cs + [LockUndo(at, Some(before[at]))];
        } else if at !in before {
          cs := cs + [LockUndo(at, None)];
        }
        forall k | k in all - (left - {at}) && Lookup(locks, k) != Lookup(before, k)
          ensures exists i :: 0 <= i < |cs| && cs[i].at == k
        {
          if k == at {
            assert cs[|cs| - 1].at == k;
          } else {
            var i :| 0 <= i < |prior| && prior[i].at == k;
            assert cs[i].at == k;
          }
        }
        left := left - {at};
      }
    }

    /** Taken before a transaction, the record takes back any outcome of processing it. */
    method TransactionUndo(env: Env, tx: Transaction, height: u32) returns (undo: Undo)
      ensures forall ctx: Context :: ctx.height == height ==>
                Undoes(undo, ProcessOutputs(env, View(), ctx, tx.outputs).gov, View())
    {
      var votes: map<ProposalId, set<OutPoint>>, held: map<OutPoint, Option<VoteLock>> := map[], map[];
      var i := 0;
      while i < |tx.outputs|
        invariant 0 <= i <= |tx.outputs|
        invariant Touched(votes, held) == TouchedBy(env, View(), height, tx.outputs[..i])
      {
        assert tx.outputs[..i + 1][..i] == tx.outputs[..i];
        match env.payload(tx.outputs[i].script) {
          case ProposalPayload(p) =>
            var id := env.proposalId(p, height);
            votes := votes[id := if id in votes then votes[id] else {}];
          case VotePayload(v) =>
            var origin := if v.outpoint in locks then locks[v.outpoint].origin else v.outpoint;
            var seen := if v.proposal in votes then votes[v.proposal] else {};
            var added := if v.proposal in proposals && origin !in proposals[v.proposal].voted then {origin} else {};
            votes := votes[v.proposal := seen + added];
            if v.outpoint !in held { held := held[v.outpoint := Lookup(locks, v.outpoint)]; }
          case _ =>
        }
        i := i + 1;
      }
      assert tx.outputs[..i] == tx.outputs;
      ghost var t := Touched(votes, held);
      var entries := RecordVotes(votes, t);
      var locked := RecordLocks(held);
      undo := Undo(entries, locked);
      forall ctx: Context | ctx.height == height
        ensures Undoes(undo, ProcessOutputs(env, View(), ctx, tx.outputs).gov, View())
      {
        TransactionRoundTrip(env, View(), ctx, tx.outputs, undo);
      }
    }

    method RecordVotes(votes: map<ProposalId, set<OutPoint>>, ghost t: Touched) returns (cs: seq<ProposalUndo>)
      requires t.votes == votes
      ensures DistinctIds(cs)
      ensures forall i :: 0 <= i < |cs| ==> cs[i].id in votes && cs[i] == EntryFor(View(), t, cs[i].id)
      ensures forall id :: id in votes ==> exists i :: 0 <= i < |cs| && cs[i].id == id
    {
      cs := [];
      var left := votes.Keys;
      while left != {}
        invariant left <= votes.Keys && DistinctIds(cs)
        invariant forall i :: 0 <= i < |cs| ==> cs[i].id in votes && cs[i].id !in left && cs[i] == EntryFor(View(), t, cs[i].id)
        invariant forall id :: id in votes && id !in left ==> exists i :: 0 <= i < |cs| && cs[i].id == id
        decreases left
      {
        var id :| id in left;
        ghost var prior := cs;
        if id in proposals {
          cs := cs + [Updated(id, proposals[id].Metadata(), votes[id], {})];
        } else {
          cs := cs + [Added(id)];
        }
        forall k | k in votes && k !in left - {id} ensures exists i :: 0 <= i < |cs| && cs[i].id == k {
          if k == id {
            assert cs[|cs| - 1].id == k;
          } else {
            var i :| 0 <= i < |prior| && prior[i].id == k;
            assert cs[i].id == k;
          }
        }
        left := left - {id};
      }
    }
  }

  /** The body of the first loop of `begin_block`. */
  method DecideOne(rec: ProposalRecord, height: u32) returns (r: ProposalRecord)
    ensures r == Decide(rec, height)
  {
    r := rec;
    if !r.decided && r.proposal.votingEnd <= height {
      var won := TallyOf(r.proposal, r.yes, r.no, r.abstain, r.quorumSupply, height).Won?;
      r := r.(decided := true, passed := won);
    }
    if r.decided && r.proposal.votingEnd <= height {
      r := r.(voted := {});
    }
  }

  method RecordLocks(held: map<OutPoint, Option<VoteLock>>) returns (cs: seq<LockUndo>)
    ensures DistinctOutpoints(cs)
    ensures forall i :: 0 <= i < |cs| ==> cs[i].at in held && cs[i].lock == held[cs[i].at]
    ensures forall at :: at in held ==> exists i :: 0 <= i < |cs| && cs[i].at == at
  {
    cs := [];
    var left := held.Keys;
    while left != {}
      invariant left <= held.Keys && DistinctOutpoints(cs)
      invariant forall i :: 0 <= i < |cs| ==> cs[i].at in held && cs[i].at !in left && cs[i].lock == held[cs[i].at]
      invariant forall at :: at in held && at !in left ==> exists i :: 0 <= i < |cs| && cs[i].at == at
      decreases left
    {
      var at :| at in left;
      ghost var prior := cs;
      cs := cs + [LockUndo(at, held[at])];
      forall k | k in held && k !in left - {at} ensures exists i :: 0 <= i < |cs| && cs[i].at == k {
        if k == at {
          assert cs[|cs| - 1].at == k;
        } else {
          var i :| 0 <= i < |prior| && prior[i].at == k;
          assert cs[i].at == k;
        }
      }
      left := left - {at};
    }
  }
}
