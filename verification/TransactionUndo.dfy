/** What a transaction can touch, and why recording just that is enough to take it back. */
module TransactionUndo {
  import opened Machine
  import opened GovernanceTypes
  import opened GovernanceRules
  import opened GovernanceUndo

  function OriginOf(locks: Locks, at: OutPoint): OutPoint { if at in locks then locks[at].origin else at }

  /** The votes a transaction may add to each proposal, and the locks it may change. */
  datatype Touched = Touched(votes: map<ProposalId, set<OutPoint>>, locks: map<OutPoint, Option<VoteLock>>)

  function VotesOn(t: Touched, id: ProposalId): set<OutPoint> { if id in t.votes then t.votes[id] else {} }

  function TouchVote(g: Gov, t: Touched, v: SignedVote): Touched {
    var origin := OriginOf(g.locks, v.outpoint);
    var added := if v.proposal in g.proposals && origin !in g.proposals[v.proposal].voted then {origin} else {};
    Touched(t.votes[v.proposal := VotesOn(t, v.proposal) + added],
            if v.outpoint in t.locks then t.locks else t.locks[v.outpoint := Lookup(g.locks, v.outpoint)])
  }

  function TouchOutput(env: Env, g: Gov, height: u32, t: Touched, o: TxOutput): Touched {
    match env.payload(o.script)
    case ProposalPayload(p) =>
      var id := env.proposalId(p, height);
      t.(votes := t.votes[id := VotesOn(t, id)])
    case VotePayload(v) => TouchVote(g, t, v)
    case _ => t
  }

  function TouchedBy(env: Env, g: Gov, height: u32, outputs: seq<TxOutput>): Touched {
    if outputs == [] then Touched(map[], map[])
    else TouchOutput(env, g, height, TouchedBy(env, g, height, outputs[..|outputs| - 1]), outputs[|outputs| - 1])
  }

  /** One proposal entry changed by no more than the recorded votes. */
  ghost predicate WithinEntry(g: Gov, g': Gov, t: Touched, id: ProposalId) {
    if id !in t.votes then Lookup(g'.proposals, id) == Lookup(g.proposals, id)
    else id in g.proposals ==>
      && id in g'.proposals
      && t.votes[id] !! g.proposals[id].voted
      && g'.proposals[id].voted - t.votes[id] == g.proposals[id].voted
  }

  /** One lock kept its voting identity, and changed only if it was recorded. */
  ghost predicate WithinLock(g: Gov, g': Gov, t: Touched, at: OutPoint) {
    && OriginOf(g'.locks, at) == OriginOf(g.locks, at)
    && (at in t.locks ==> t.locks[at] == Lookup(g.locks, at))
    && (at !in t.locks ==> Lookup(g'.locks, at) == Lookup(g.locks, at))
  }

  ghost predicate Within(g: Gov, g': Gov, t: Touched) {
    && (forall id :: WithinEntry(g, g', t, id))
    && (forall at :: WithinLock(g, g', t, at))
  }

  lemma ProposeWithin(env: Env, g: Gov, g1: Gov, ctx: Context, t: Touched, o: TxOutput)
    requires Within(g, g1, t) && env.payload(o.script).ProposalPayload?
    ensures Within(g, ProcessOutput(env, g1, ctx, o).gov, TouchOutput(env, g, ctx.height, t, o))
  {
    var g2 := ProcessOutput(env, g1, ctx, o).gov;
    var t2 := TouchOutput(env, g, ctx.height, t, o);
    forall id ensures WithinEntry(g, g2, t2, id) { assert WithinEntry(g, g1, t, id); }
    forall at ensures WithinLock(g, g2, t2, at) { assert WithinLock(g, g1, t, at); }
  }

  /** All that a vote can do to one proposal entry, whether or not it succeeds. */
  ghost predicate VoteEntry(g: Gov, g': Gov, v: SignedVote, id: ProposalId) {
    if id != v.proposal || id !in g.proposals then Lookup(g'.proposals, id) == Lookup(g.proposals, id)
    else id in g'.proposals && var voted, voted', origin := g.proposals[id].voted, g'.proposals[id].voted, OriginOf(g.locks, v.outpoint);
      voted' == voted || (origin !in voted && voted' == voted + {origin})
  }

  lemma VoteEntries(env: Env, g: Gov, ctx: Context, v: SignedVote, id: ProposalId)
    ensures VoteEntry(g, CastVote(env, g, ctx, v).gov, v, id)
  {
  }

  /** All that a vote can do to one lock. */
  ghost predicate VoteLocks(g: Gov, g': Gov, v: SignedVote, at: OutPoint) {
    OriginOf(g'.locks, at) == OriginOf(g.locks, at) && (at != v.outpoint ==> Lookup(g'.locks, at) == Lookup(g.locks, at))
  }

  lemma VoteKeepsOrigins(env: Env, g: Gov, ctx: Context, v: SignedVote, at: OutPoint)
    ensures VoteLocks(g, CastVote(env, g, ctx, v).gov, v, at)
  {
  }

  lemma VoteWithinEntry(g: Gov, g1: Gov, g2: Gov, t: Touched, v: SignedVote, id: ProposalId)
    requires WithinEntry(g, g1, t, id) && WithinLock(g, g1, t, v.outpoint) && VoteEntry(g1, g2, v, id)
    ensures WithinEntry(g, g2, TouchVote(g, t, v), id)
  {
  }

  lemma VoteWithinLock(g: Gov, g1: Gov, g2: Gov, t: Touched, v: SignedVote, at: OutPoint)
    requires WithinLock(g, g1, t, at) && VoteLocks(g1, g2, v, at)
    ensures WithinLock(g, g2, TouchVote(g, t, v), at)
  {
  }

  lemma VoteWithin(env: Env, g: Gov, g1: Gov, ctx: Context, t: Touched, v: SignedVote)
    requires Within(g, g1, t)
    ensures Within(g, CastVote(env, g1, ctx, v).gov, TouchVote(g, t, v))
  {
    var g2 := CastVote(env, g1, ctx, v).gov;
    forall id ensures WithinEntry(g, g2, TouchVote(g, t, v), id) {
      assert WithinEntry(g, g1, t, id) && WithinLock(g, g1, t, v.outpoint);
      VoteEntries(env, g1, ctx, v, id);
      VoteWithinEntry(g, g1, g2, t, v, id);
    }
    forall at ensures WithinLock(g, g2, TouchVote(g, t, v), at) {
      assert WithinLock(g, g1, t, at);
      VoteKeepsOrigins(env, g1, ctx, v, at);
      VoteWithinLock(g, g1, g2, t, v, at);
    }
  }

  lemma OutputWithin(env: Env, g: Gov, g1: Gov, ctx: Context, t: Touched, o: TxOutput)
    requires Within(g, g1, t)
    ensures Within(g, ProcessOutput(env, g1, ctx, o).gov, TouchOutput(env, g, ctx.height, t, o))
  {
    var pay := env.payload(o.script);
    if pay.ProposalPayload? {
      ProposeWithin(env, g, g1, ctx, t, o);
    } else if pay.VotePayload? {
      VoteWithin(env, g, g1, ctx, t, pay.vote);
    }
  }

  /** Recording more outputs than were reached does no harm. */
  lemma TouchMore(env: Env, g: Gov, g1: Gov, height: u32, t: Touched, o: TxOutput)
    requires Within(g, g1, t)
    ensures Within(g, g1, TouchOutput(env, g, height, t, o))
  {
    var t2 := TouchOutput(env, g, height, t, o);
    forall id ensures WithinEntry(g, g1, t2, id) { assert WithinEntry(g, g1, t, id); }
    forall at ensures WithinLock(g, g1, t2, at) { assert WithinLock(g, g1, t, at); }
  }

  /** Whatever a transaction does, even if it fails part-way, stays within what was recorded beforehand. */
  lemma {:induction false} ProcessWithin(env: Env, g: Gov, ctx: Context, outputs: seq<TxOutput>)
    ensures Within(g, ProcessOutputs(env, g, ctx, outputs).gov, TouchedBy(env, g, ctx.height, outputs))
    decreases |outputs|
  {
    if outputs != [] {
      var n := |outputs| - 1;
      var done := outputs[..n];
      ProcessWithin(env, g, ctx, done);
      ProcessOutputsSnoc(env, g, ctx, done, outputs[n]);
      assert outputs == done + [outputs[n]];
      var r := ProcessOutputs(env, g, ctx, done);
      var t := TouchedBy(env, g, ctx.height, done);
      if r.error.Some? {
        TouchMore(env, g, r.gov, ctx.height, t, outputs[n]);
      } else {
        OutputWithin(env, g, r.gov, ctx, t, outputs[n]);
      }
    }
  }

  /** The undo entry for one touched proposal. */
  function EntryFor(g: Gov, t: Touched, id: ProposalId): ProposalUndo
    requires id in t.votes
  {
    if id in g.proposals then Updated(id, g.proposals[id].Metadata(), t.votes[id], {}) else Added(id)
  }

  /** An undo record that lists every touched entry once. */
  ghost predicate Records(u: Undo, g: Gov, t: Touched) {
    && DistinctIds(u.proposals) && DistinctOutpoints(u.locks)
    && (forall i :: 0 <= i < |u.proposals| ==> u.proposals[i].id in t.votes && u.proposals[i] == EntryFor(g, t, u.proposals[i].id))
    && (forall id :: id in t.votes ==> exists i :: 0 <= i < |u.proposals| && u.proposals[i].id == id)
    && (forall i :: 0 <= i < |u.locks| ==> u.locks[i].at in t.locks && u.locks[i].lock == t.locks[u.locks[i].at])
    && (forall at :: at in t.locks ==> exists i :: 0 <= i < |u.locks| && u.locks[i].at == at)
  }

  lemma RecordsUndo(u: Undo, g: Gov, g': Gov, t: Touched)
    requires Records(u, g, t) && Within(g, g', t)
    ensures Undoes(u, g', g)
  {
    forall i | 0 <= i < |u.proposals|
      ensures Rights(u.proposals[i], g'.proposals, g.proposals)
      ensures u.proposals[i].Updated? ==> u.proposals[i].id in g'.proposals
    {
      var id := u.proposals[i].id;
      assert WithinEntry(g, g', t, id);
      if id in g.proposals {
        assert g'.proposals[id].voted - t.votes[id] + {} == g.proposals[id].voted;
        assert RestoreProposal(g'.proposals, u.proposals[i])[id] == g.proposals[id];
      }
    }
    forall i | 0 <= i < |u.locks| ensures u.locks[i].lock == Lookup(g.locks, u.locks[i].at) {
      assert WithinLock(g, g', t, u.locks[i].at);
    }
    forall id ensures Lookup(g'.proposals, id) == Lookup(g.proposals, id) || exists i :: 0 <= i < |u.proposals| && u.proposals[i].id == id {
      assert WithinEntry(g, g', t, id);
    }
    forall at ensures Lookup(g'.locks, at) == Lookup(g.locks, at) || exists i :: 0 <= i < |u.locks| && u.locks[i].at == at {
      assert WithinLock(g, g', t, at);
    }
  }

  /** Taking the record first, processing to any outcome and restoring gives back the starting state. */
  lemma TransactionRoundTrip(env: Env, g: Gov, ctx: Context, outputs: seq<TxOutput>, u: Undo)
    requires Records(u, g, TouchedBy(env, g, ctx.height, outputs))
    ensures Undoes(u, ProcessOutputs(env, g, ctx, outputs).gov, g)
    ensures Restore(ProcessOutputs(env, g, ctx, outputs).gov, u) == g
  {
    ProcessWithin(env, g, ctx, outputs);
    RecordsUndo(u, g, ProcessOutputs(env, g, ctx, outputs).gov, TouchedBy(env, g, ctx.height, outputs));
    UndoesRestores(u, ProcessOutputs(env, g, ctx, outputs).gov, g);
  }
}
