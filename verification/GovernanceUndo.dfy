/** Compact undo records, and what makes one restore a state exactly. */
module GovernanceUndo {
  import opened Machine
  import opened GovernanceTypes

  datatype ProposalUndo =
    | Added(id: ProposalId)
    | Removed(id: ProposalId, record: ProposalRecord)
    | Updated(id: ProposalId, metadata: ProposalRecord, addedVotes: set<OutPoint>, removedVotes: set<OutPoint>)

  datatype LockUndo = LockUndo(at: OutPoint, lock: Option<VoteLock>)

  datatype Undo = Undo(proposals: seq<ProposalUndo>, locks: seq<LockUndo>)

  function RestoreProposal(m: Proposals, c: ProposalUndo): Proposals {
    match c
    case Added(id) => m - {id}
    case Removed(id, record) => m[id := record]
    case Updated(id, metadata, added, removed) =>
      if id in m then m[id := metadata.(voted := m[id].voted - added + removed)] else m
  }

  function RestoreLock(m: Locks, c: LockUndo): Locks {
    match c.lock case Some(lock) => m[c.at := lock] case None => m - {c.at}
  }

  /** `restore_undo`: the changes are taken back last first. */
  function RestoreProposals(m: Proposals, cs: seq<ProposalUndo>): Proposals
    decreases |cs|
  {
    if cs == [] then m else RestoreProposals(RestoreProposal(m, cs[|cs| - 1]), cs[..|cs| - 1])
  }

  function RestoreLocks(m: Locks, cs: seq<LockUndo>): Locks
    decreases |cs|
  {
    if cs == [] then m else RestoreLocks(RestoreLock(m, cs[|cs| - 1]), cs[..|cs| - 1])
  }

  function Restore(g: Gov, u: Undo): Gov {
    Gov(RestoreProposals(g.proposals, u.proposals), RestoreLocks(g.locks, u.locks))
  }

  ghost predicate DistinctIds(cs: seq<ProposalUndo>) {
    forall i, j :: 0 <= i < j < |cs| ==> cs[i].id != cs[j].id
  }

  ghost predicate DistinctOutpoints(cs: seq<LockUndo>) {
    forall i, j :: 0 <= i < j < |cs| ==> cs[i].at != cs[j].at
  }

  /** The source panics if an updated proposal is missing when its turn comes. */
  predicate NeverPanics(m: Proposals, cs: seq<ProposalUndo>)
    decreases |cs|
  {
    cs == [] ||
    var c := cs[|cs| - 1];
    (c.Updated? ==> c.id in m) && NeverPanics(RestoreProposal(m, c), cs[..|cs| - 1])
  }

  /** One entry per proposal, and every updated one is there. */
  ghost predicate Restorable(m: Proposals, cs: seq<ProposalUndo>) {
    DistinctIds(cs) && forall i :: 0 <= i < |cs| && cs[i].Updated? ==> cs[i].id in m
  }

  lemma {:induction false} RestorableNeverPanics(m: Proposals, cs: seq<ProposalUndo>)
    requires Restorable(m, cs)
    ensures NeverPanics(m, cs)
    decreases |cs|
  {
    if cs != [] {
      var n := |cs| - 1;
      var m' := RestoreProposal(m, cs[n]);
      forall i | 0 <= i < n && cs[..n][i].Updated? ensures cs[..n][i].id in m' {
        assert cs[i].id != cs[n].id;
      }
      RestorableNeverPanics(m', cs[..n]);
    }
  }

  /** A change that, applied to `m`, brings its own id to where `before` has it. */
  ghost predicate Rights(c: ProposalUndo, m: Proposals, before: Proposals) {
    Lookup(RestoreProposal(m, c), c.id) == Lookup(before, c.id)
  }

  lemma {:induction false} RestoreProposalsExact(m: Proposals, cs: seq<ProposalUndo>, before: Proposals)
    requires DistinctIds(cs)
    requires forall i :: 0 <= i < |cs| ==> Rights(cs[i], m, before)
    requires forall id :: Lookup(m, id) == Lookup(before, id) || exists i :: 0 <= i < |cs| && cs[i].id == id
    ensures RestoreProposals(m, cs) == before
    decreases |cs|
  {
    if cs == [] {
      LookupExtensional(m, before);
    } else {
      var n := |cs| - 1;
      var m' := RestoreProposal(m, cs[n]);
      assert forall id :: id != cs[n].id ==> Lookup(m', id) == Lookup(m, id);
      forall i | 0 <= i < n ensures Rights(cs[..n][i], m', before) {
        assert cs[i].id != cs[n].id;
        SameEffect(m, m', cs[i]);
        assert Rights(cs[i], m, before);
      }
      forall id ensures Lookup(m', id) == Lookup(before, id) || exists i :: 0 <= i < n && cs[..n][i].id == id {
        if id == cs[n].id {
          assert Rights(cs[n], m, before);
        } else if Lookup(m, id) != Lookup(before, id) {
          var i :| 0 <= i < |cs| && cs[i].id == id;
          assert cs[..n][i].id == id;
        }
      }
      RestoreProposalsExact(m', cs[..n], before);
    }
  }

  lemma SameEffect(m: Proposals, m': Proposals, c: ProposalUndo)
    requires Lookup(m, c.id) == Lookup(m', c.id)
    ensures Lookup(RestoreProposal(m, c), c.id) == Lookup(RestoreProposal(m', c), c.id)
  {
  }

  lemma {:induction false} RestoreLocksExact(m: Locks, cs: seq<LockUndo>, before: Locks)
    requires DistinctOutpoints(cs)
    requires forall i :: 0 <= i < |cs| ==> cs[i].lock == Lookup(before, cs[i].at)
    requires forall at :: Lookup(m, at) == Lookup(before, at) || exists i :: 0 <= i < |cs| && cs[i].at == at
    ensures RestoreLocks(m, cs) == before
    decreases |cs|
  {
    if cs == [] {
      LookupExtensional(m, before);
    } else {
      var n := |cs| - 1;
      var m' := RestoreLock(m, cs[n]);
      forall at ensures Lookup(m', at) == Lookup(before, at) || exists i :: 0 <= i < n && cs[..n][i].at == at {
        if at != cs[n].at && Lookup(m, at) != Lookup(before, at) {
          var i :| 0 <= i < |cs| && cs[i].at == at;
          assert cs[..n][i].at == at;
        }
      }
      RestoreLocksExact(m', cs[..n], before);
    }
  }

  /** An undo record that takes `after` back to `before`. */
  ghost predicate Undoes(u: Undo, after: Gov, before: Gov) {
    && Restorable(after.proposals, u.proposals)
    && DistinctOutpoints(u.locks)
    && (forall i :: 0 <= i < |u.proposals| ==> Rights(u.proposals[i], after.proposals, before.proposals))
    && (forall i :: 0 <= i < |u.locks| ==> u.locks[i].lock == Lookup(before.locks, u.locks[i].at))
    && (forall id :: Lookup(after.proposals, id) == Lookup(before.proposals, id)
          || exists i :: 0 <= i < |u.proposals| && u.proposals[i].id == id)
    && (forall at :: Lookup(after.locks, at) == Lookup(before.locks, at)
          || exists i :: 0 <= i < |u.locks| && u.locks[i].at == at)
  }

  lemma UndoesRestores(u: Undo, after: Gov, before: Gov)
    requires Undoes(u, after, before)
    ensures NeverPanics(after.proposals, u.proposals) && Restore(after, u) == before
  {
    RestorableNeverPanics(after.proposals, u.proposals);
    RestoreProposalsExact(after.proposals, u.proposals, before.proposals);
    RestoreLocksExact(after.locks, u.locks, before.locks);
  }

  /** Popping a stack of undo records, the newest first. */
  function RestoreStack(g: Gov, undos: seq<Undo>): Gov
    decreases |undos|
  {
    if undos == [] then g else RestoreStack(Restore(g, undos[|undos| - 1]), undos[..|undos| - 1])
  }

  /** However many blocks are popped, the state is the one those blocks were applied to. */
  lemma {:induction false} RestoreStackExact(states: seq<Gov>, undos: seq<Undo>, keep: nat)
    requires |states| == |undos| + 1 && keep <= |undos|
    requires forall i :: 0 <= i < |undos| ==> Undoes(undos[i], states[i + 1], states[i])
    ensures RestoreStack(states[|undos|], undos[keep..]) == states[keep]
    decreases |undos| - keep
  {
    var n := |undos|;
    if keep < n {
      UndoesRestores(undos[n - 1], states[n], states[n - 1]);
      assert undos[keep..][..n - keep - 1] == undos[..n - 1][keep..];
      RestoreStackExact(states[..n], undos[..n - 1], keep);
    }
  }
}
