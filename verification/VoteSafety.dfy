/** No stake is counted twice, over every run of blocks and transactions. */
module VoteSafety {
  import opened Machine
  import opened Sums
  import opened GovernanceTypes
  import opened GovernanceRules
  import opened GovernanceBlocks
  import opened Ledger
  import opened VoteTracking

  // ------------------------------------------------- spending and creating

  /** `outs` are the outputs of a transaction whose id was never used. */
  ghost predicate FreshOutputs(s: State, used: set<Txid>, txid: Txid, outs: UtxoMap) {
    txid !in used && forall at :: at in outs ==> at.txid == txid && outs[at].outpoint == at && outs[at].height == s.height
  }

  lemma SpendTracks(env: Env, s: State, used: set<Txid>, dead: set<OutPoint>, txid: Txid, outs: UtxoMap, rec: ProposalRecord, snap: Snapshot)
    requires Tracks(env, s, used, rec, snap) && FreshOutputs(s, used, txid, outs) && rec.createdHeight <= s.height
    requires forall at :: LockOk(env, s, used, at)
    requires forall at :: UtxoOk(s, used, at)
    ensures Tracks(env, s.(utxos := s.utxos - dead + outs), used + {txid}, rec, snap)
  {
    var s' := s.(utxos := s.utxos - dead + outs);
    forall at ensures RepOk(s', used + {txid}, snap, at) && OldOutput(env, s', rec, snap, at) && OldLock(env, s', rec, snap, at) {
      assert RepOk(s, used, snap, at) && OldOutput(env, s, rec, snap, at) && OldLock(env, s, rec, snap, at);
      assert LockOk(env, s, used, at) && UtxoOk(s, used, at);
    }
    forall a, b ensures RepApart(s', snap, a, b) {
      assert RepApart(s, snap, a, b) && RepOk(s, used, snap, a) && RepOk(s, used, snap, b);
    }
    forall origin | origin in rec.voted ensures exists at :: Carries(s', rec, snap, origin, at) {
      assert Carries(s', rec, snap, origin, Holder(env, s, used, rec, snap, origin));
    }
  }

  lemma SpendPreserves(env: Env, s: State, used: set<Txid>, tr: Trace, dead: set<OutPoint>, txid: Txid, outs: UtxoMap)
    requires Inv(env, s, used, tr) && FreshOutputs(s, used, txid, outs)
    requires dead !! s.gov.locks.Keys
    ensures Inv(env, s.(utxos := s.utxos - dead + outs), used + {txid}, tr)
  {
    var s', used' := s.(utxos := s.utxos - dead + outs), used + {txid};
    forall at ensures UtxoOk(s', used', at) { assert UtxoOk(s, used, at); }
    forall at ensures LockOk(env, s', used', at) { assert LockOk(env, s, used, at) && UtxoOk(s, used, at); }
    forall a, b ensures LocksApart(s'.gov.locks, a, b) { assert LocksApart(s.gov.locks, a, b); }
    forall k ensures ProposalOk(env, s', used', tr, k) {
      assert ProposalOk(env, s, used, tr, k);
      if k in s.gov.proposals && !s.gov.proposals[k].decided {
        SpendTracks(env, s, used, dead, txid, outs, s.gov.proposals[k], tr[k]);
      }
    }
  }

  // ------------------------------------------------------ moving a locked stake

  function MovedSnapshot(snap: Snapshot, from: OutPoint, to: OutPoint): Snapshot {
    if from in snap.rep then snap.(rep := snap.rep[to := snap.rep[from]]) else snap
  }

  function MovedTrace(tr: Trace, from: OutPoint, to: OutPoint): Trace {
    map id | id in tr :: MovedSnapshot(tr[id], from, to)
  }

  function MovedState(s: State, from: OutPoint, to: OutPoint, outs: UtxoMap): State
    requires from in s.gov.locks
  {
    s.(utxos := s.utxos - {from} + outs,
       gov := s.gov.(locks := (s.gov.locks - {from})[to := s.gov.locks[from].(outpoint := to)]))
  }

  /** The new output holds the stake whole, under the same script. */
  ghost predicate Moves(s: State, used: set<Txid>, from: OutPoint, to: OutPoint, txid: Txid, outs: UtxoMap) {
    && FreshOutputs(s, used, txid, outs)
    && from in s.gov.locks && from in s.utxos && to in outs
    && s.utxos[from].value <= outs[to].value && outs[to].script == s.utxos[from].script
  }

  lemma MoveTracks(env: Env, s: State, used: set<Txid>, from: OutPoint, to: OutPoint, txid: Txid, outs: UtxoMap, rec: ProposalRecord, snap: Snapshot)
    requires Moves(s, used, from, to, txid, outs) && Tracks(env, s, used, rec, snap) && rec.createdHeight <= s.height
    requires snap.least <= s.utxos[from].value
    requires forall at :: LockOk(env, s, used, at)
    requires forall at :: UtxoOk(s, used, at)
    ensures Tracks(env, MovedState(s, from, to, outs), used + {txid}, rec, MovedSnapshot(snap, from, to))
  {
    var s', used', snap' := MovedState(s, from, to, outs), used + {txid}, MovedSnapshot(snap, from, to);
    assert RepOk(s, used, snap, to) && UtxoOk(s, used, from) && LockOk(env, s, used, to) && UtxoOk(s, used, to);
    assert to !in snap.rep && to !in s.utxos && to !in s.gov.locks && from != to;
    forall at ensures RepOk(s', used', snap', at) && OldOutput(env, s', rec, snap', at) && OldLock(env, s', rec, snap', at) {
      assert RepOk(s, used, snap, at) && OldOutput(env, s, rec, snap, at) && OldLock(env, s, rec, snap, at);
      assert RepOk(s, used, snap, from) && OldLock(env, s, rec, snap, from);
      assert LockOk(env, s, used, at) && LockOk(env, s, used, from) && UtxoOk(s, used, at);
    }
    forall a, b ensures RepApart(s', snap', a, b) {
      MoveRepApart(s, used, from, to, txid, outs, snap, a, b);
    }
    forall origin | origin in rec.voted ensures exists at :: Carries(s', rec, snap', origin, at) {
      var at := Holder(env, s, used, rec, snap, origin);
      assert Carries(s', rec, snap', origin, if at == from then to else at);
    }
  }

  lemma MoveRepApart(s: State, used: set<Txid>, from: OutPoint, to: OutPoint, txid: Txid, outs: UtxoMap, snap: Snapshot, a: OutPoint, b: OutPoint)
    requires Moves(s, used, from, to, txid, outs) && to !in snap.rep
    requires forall at :: RepOk(s, used, snap, at)
    requires forall x, y :: RepApart(s, snap, x, y)
    ensures RepApart(MovedState(s, from, to, outs), MovedSnapshot(snap, from, to), a, b)
  {
    assert RepApart(s, snap, a, b) && RepApart(s, snap, from, b) && RepApart(s, snap, a, from);
    assert RepOk(s, used, snap, a) && RepOk(s, used, snap, b);
  }

  lemma MovePreserves(env: Env, s: State, used: set<Txid>, tr: Trace, from: OutPoint, to: OutPoint, txid: Txid, outs: UtxoMap)
    requires Inv(env, s, used, tr) && Moves(s, used, from, to, txid, outs)
    ensures Inv(env, MovedState(s, from, to, outs), used + {txid}, MovedTrace(tr, from, to))
  {
    var s', used', tr' := MovedState(s, from, to, outs), used + {txid}, MovedTrace(tr, from, to);
    forall at ensures UtxoOk(s', used', at) { assert UtxoOk(s, used, at); }
    forall at ensures LockOk(env, s', used', at) {
      assert LockOk(env, s, used, at) && LockOk(env, s, used, from) && UtxoOk(s, used, from) && UtxoOk(s, used, at);
    }
    forall a, b ensures LocksApart(s'.gov.locks, a, b) {
      assert LocksApart(s.gov.locks, a, b) && LocksApart(s.gov.locks, from, b) && LocksApart(s.gov.locks, a, from);
      assert LockOk(env, s, used, to) && UtxoOk(s, used, to);
    }
    forall k ensures ProposalOk(env, s', used', tr', k) {
      assert ProposalOk(env, s, used, tr, k);
      if k in s.gov.proposals && !s.gov.proposals[k].decided {
        MoveTracks(env, s, used, from, to, txid, outs, s.gov.proposals[k], tr[k]);
      }
    }
  }

  // ------------------------------------------------------------- block starts

  lemma BeginTracks(env: Env, s: State, used: set<Txid>, rec: ProposalRecord, snap: Snapshot, s': State)
    requires Tracks(env, s, used, rec, snap) && s'.utxos == s.utxos
    requires s'.height < rec.proposal.votingEnd && s'.gov.locks == LiveLocks(s.gov.locks, s'.height)
    ensures Tracks(env, s', used, rec, snap)
  {
    forall at ensures RepOk(s', used, snap, at) && OldOutput(env, s', rec, snap, at) && OldLock(env, s', rec, snap, at) {
      assert RepOk(s, used, snap, at) && OldOutput(env, s, rec, snap, at) && OldLock(env, s, rec, snap, at);
    }
    forall a, b ensures RepApart(s', snap, a, b) { assert RepApart(s, snap, a, b); }
    forall origin | origin in rec.voted ensures exists at :: Carries(s', rec, snap, origin, at) {
      assert Carries(s', rec, snap, origin, Holder(env, s, used, rec, snap, origin));
    }
  }

  lemma BeginPreserves(env: Env, w: World, timestamp: u32, version: u32, w': World, tr: Trace)
    requires Inv(env, w.state, w.used, tr) && StepsTo(env, w, Begin(timestamp, version), w') && Steady(w, w')
    ensures Inv(env, w'.state, w'.used, tr)
  {
    var s, s' := w.state, w'.state;
    BeginIsBlockStart(env, w, timestamp, version, w');
    BeginBlockRecords(env, s.gov, s.params, s.utxos, s'.height, timestamp, s'.gov, s'.params);
    forall at ensures UtxoOk(s', w.used, at) { assert UtxoOk(s, w.used, at); }
    forall at ensures LockOk(env, s', w.used, at) {
      assert LockOk(env, s, w.used, at);
      if at in s'.gov.locks {
        assert BegunRecord(s.gov.proposals[s.gov.locks[at].proposal], s'.gov.proposals[s.gov.locks[at].proposal], s'.height);
      }
    }
    forall a, b ensures LocksApart(s'.gov.locks, a, b) { assert LocksApart(s.gov.locks, a, b); }
    forall k ensures ProposalOk(env, s', w.used, tr, k) {
      assert ProposalOk(env, s, w.used, tr, k);
      if k in s'.gov.proposals { BeginProposalOk(env, s, w.used, tr, k, s'); }
    }
  }

  lemma BeginProposalOk(env: Env, s: State, used: set<Txid>, tr: Trace, id: ProposalId, s': State)
    requires ProposalOk(env, s, used, tr, id) && id in s.gov.proposals && id in s'.gov.proposals
    requires s'.utxos == s.utxos && s'.gov.locks == LiveLocks(s.gov.locks, s'.height) && s.height <= s'.height
    requires BegunRecord(s.gov.proposals[id], s'.gov.proposals[id], s'.height)
    ensures ProposalOk(env, s', used, tr, id)
  {
    var rec, rec' := s.gov.proposals[id], s'.gov.proposals[id];
    if !rec'.decided {
      assert rec' == rec;
      BeginTracks(env, s, used, rec, tr[id], s');
    }
  }

  // ------------------------------------------------------------- transactions

  /** Known proposals keep their snapshot; new ones get the outputs unspent now. */
  ghost predicate Grows(known: set<ProposalId>, tr: Trace, tr': Trace, utxos: UtxoMap, now: set<ProposalId>) {
    && now <= tr'.Keys && known <= tr.Keys && known <= now
    && forall id :: id in now ==> tr'[id].utxos == if id in known then tr[id].utxos else utxos
  }

  lemma OutputPreserves(env: Env, s: State, used: set<Txid>, tr: Trace, ctx: Context, o: TxOutput) returns (tr': Trace)
    requires Inv(env, s, used, tr) && ctx.height == s.height && ctx.utxos == s.utxos
    requires ProcessOutput(env, s.gov, ctx, o).error.None?
    ensures var g' := ProcessOutput(env, s.gov, ctx, o).gov;
            Inv(env, s.(gov := g'), used, tr') && Grows(s.gov.proposals.Keys, tr, tr', s.utxos, g'.proposals.Keys)
  {
    var g' := ProcessOutput(env, s.gov, ctx, o).gov;
    assert s.gov.proposals.Keys <= tr.Keys by {
      forall id | id in s.gov.proposals ensures id in tr { assert ProposalOk(env, s, used, tr, id); }
    }
    match env.payload(o.script)
    case NoPayload => tr' := tr; assert s.(gov := g') == s;
    case ProposalPayload(p) => tr' := ProposePreserves(env, s, used, tr, ctx, p, o.value);
    case VotePayload(v) =>
      VotePreserves(env, s, used, tr, ctx, v, s.(gov := g'));
      tr' := VoteTrace(s, tr, v);
    case _ => assert false;
  }

  lemma {:induction false} OutputsPreserve(env: Env, s: State, used: set<Txid>, tr: Trace, ctx: Context, outputs: seq<TxOutput>) returns (tr': Trace)
    requires Inv(env, s, used, tr) && ctx.height == s.height && ctx.utxos == s.utxos
    requires ProcessOutputs(env, s.gov, ctx, outputs).error.None?
    ensures var g' := ProcessOutputs(env, s.gov, ctx, outputs).gov;
            Inv(env, s.(gov := g'), used, tr') && Grows(s.gov.proposals.Keys, tr, tr', s.utxos, g'.proposals.Keys)
    decreases |outputs|
  {
    if outputs == [] {
      tr' := tr;
      assert s.(gov := s.gov) == s;
      forall id | id in s.gov.proposals ensures id in tr { assert ProposalOk(env, s, used, tr, id); }
    } else {
      var g1 := ProcessOutput(env, s.gov, ctx, outputs[0]).gov;
      var tr1 := OutputPreserves(env, s, used, tr, ctx, outputs[0]);
      tr' := OutputsPreserve(env, s.(gov := g1), used, tr1, ctx, outputs[1..]);
    }
  }

  lemma CreatedFresh(env: Env, s: State, used: set<Txid>, tx: Transaction)
    requires tx.txid !in used
    ensures FreshOutputs(s, used, tx.txid, Created(env, tx, s.height, s.timestamp))
  {
  }

  /** A coinstake of a locked output carries its lock to an output that exists afterwards. */
  lemma RelockMoves(env: Env, s: State, used: set<Txid>, tr: Trace, tx: Transaction, from: OutPoint)
    requires Inv(env, s, used, tr) && tx.txid !in used && from in s.gov.locks && from in s.utxos
    requires Relocks(tx, s.utxos[from])
    ensures Moves(s, used, from, Successor(tx, s.utxos[from]), tx.txid, Created(env, tx, s.height, s.timestamp))
  {
    assert LockOk(env, s, used, from);
    CreatedFresh(env, s, used, tx);
    var i := ValueBearing(tx.outputs)[0];
    assert EntersUtxoSet(env, tx, tx.outputs[i], s.height);
  }

  lemma ProcessedPreserves(env: Env, s: State, used: set<Txid>, tr: Trace, tx: Transaction, totalStaked: u64) returns (tr': Trace)
    requires Inv(env, s, used, tr) && Processed(env, s, tx, totalStaked).error.None?
    ensures var g' := Processed(env, s, tx, totalStaked).gov;
            Inv(env, s.(gov := g'), used, tr') && Grows(s.gov.proposals.Keys, tr, tr', s.utxos, g'.proposals.Keys)
  {
    tr' := OutputsPreserve(env, s, used, tr, ContextOf(s, totalStaked), if s.active then tx.outputs else []);
  }

  lemma TxPreserves(env: Env, w: World, tx: Transaction, totalStaked: u64, w': World, tr: Trace) returns (tr': Trace)
    requires Inv(env, w.state, w.used, tr) && StepsTo(env, w, Apply(tx, totalStaked), w') && Steady(w, w')
    ensures Inv(env, w'.state, w'.used, tr')
    ensures Grows(w.state.gov.proposals.Keys, tr, tr', w.state.utxos, w'.state.gov.proposals.Keys)
  {
    var s := w.state;
    var s1 := s.(gov := Processed(env, s, tx, totalStaked).gov);
    ApplyIsUniform(env, s, tx, totalStaked);
    var tr1 := ProcessedPreserves(env, s, w.used, tr, tx, totalStaked);
    tr' := SettlePreserves(env, s1, w.used, tr1, tx, w'.state);
  }

  /** What a transaction does after its governance payloads: it spends, creates, and moves the lock it stakes. */
  predicate Settles(env: Env, s: State, used: set<Txid>, tx: Transaction, s': State) {
    && tx.txid !in used && WellShaped(tx) && CanSpend(s.gov.locks, s.utxos, tx, s.height)
    && var t := if tx.kind == Coinstake then TransferLock(s.gov, tx, s.utxos[tx.inputs[0]], s.height) else Outcome(s.gov, None);
       t.error.None? && s' == s.(gov := t.gov, utxos := s.utxos - Spent(tx) + Created(env, tx, s.height, s.timestamp))
  }

  /** Unless it moves a lock, it only spends outputs that carry none. */
  lemma SettlesUnlocked(env: Env, s: State, used: set<Txid>, tr: Trace, tx: Transaction, s': State)
    requires Inv(env, s, used, tr) && Settles(env, s, used, tx, s') && (tx.kind == Coinstake ==> tx.inputs[0] !in s.gov.locks)
    ensures FreshOutputs(s, used, tx.txid, Created(env, tx, s.height, s.timestamp)) && Spent(tx) !! s.gov.locks.Keys
    ensures s' == s.(utxos := s.utxos - Spent(tx) + Created(env, tx, s.height, s.timestamp))
  {
    CreatedFresh(env, s, used, tx);
    UnlockedSpend(env, s, used, tr, tx);
  }

  /** A coinstake of a locked output moves the lock to the output that succeeds it. */
  lemma SettlesMoved(env: Env, s: State, used: set<Txid>, tr: Trace, tx: Transaction, s': State)
    requires Inv(env, s, used, tr) && Settles(env, s, used, tx, s') && tx.kind == Coinstake && tx.inputs[0] in s.gov.locks
    ensures var from, outs := tx.inputs[0], Created(env, tx, s.height, s.timestamp);
            && Relocks(tx, s.utxos[from]) && Moves(s, used, from, Successor(tx, s.utxos[from]), tx.txid, outs)
            && s' == MovedState(s, from, Successor(tx, s.utxos[from]), outs)
  {
    var from := tx.inputs[0];
    CreatedFresh(env, s, used, tx);
    LockedCoinstake(env, s, used, tr, tx, from);
    RelockMoves(env, s, used, tr, tx, from);
    assert Spent(tx) == {from};
  }

  lemma SettlePreserves(env: Env, s: State, used: set<Txid>, tr: Trace, tx: Transaction, s': State) returns (tr': Trace)
    requires Inv(env, s, used, tr) && Settles(env, s, used, tx, s')
    ensures Inv(env, s', used + {tx.txid}, tr') && s'.gov.proposals == s.gov.proposals
    ensures tr'.Keys == tr.Keys && forall id :: id in tr ==> tr'[id].utxos == tr[id].utxos
  {
    var outs := Created(env, tx, s.height, s.timestamp);
    if tx.kind == Coinstake && tx.inputs[0] in s.gov.locks {
      var from := tx.inputs[0];
      SettlesMoved(env, s, used, tr, tx, s');
      MovePreserves(env, s, used, tr, from, Successor(tx, s.utxos[from]), tx.txid, outs);
      tr' := MovedTrace(tr, from, Successor(tx, s.utxos[from]));
    } else {
      SettlesUnlocked(env, s, used, tr, tx, s');
      SpendPreserves(env, s, used, tr, Spent(tx), tx.txid, outs);
      tr' := tr;
    }
  }

  /** Every lock is live, so an accepted coinstake of a locked output re-locks it. */
  lemma LockedCoinstake(env: Env, s: State, used: set<Txid>, tr: Trace, tx: Transaction, from: OutPoint)
    requires Inv(env, s, used, tr) && from in s.gov.locks && from in s.utxos
    ensures s.utxos[from].outpoint == from && IsLocked(s.gov.locks, from, s.height)
    ensures TransferLock(s.gov, tx, s.utxos[from], s.height).error.None? ==> Relocks(tx, s.utxos[from])
  {
    assert LockOk(env, s, used, from) && UtxoOk(s, used, from);
  }

  lemma UnlockedSpend(env: Env, s: State, used: set<Txid>, tr: Trace, tx: Transaction)
    requires Inv(env, s, used, tr) && WellShaped(tx) && CanSpend(s.gov.locks, s.utxos, tx, s.height)
    requires tx.kind == Coinstake ==> tx.inputs[0] !in s.gov.locks
    ensures Spent(tx) !! s.gov.locks.Keys
    ensures tx.kind == Coinstake ==> TransferLock(s.gov, tx, s.utxos[tx.inputs[0]], s.height) == Outcome(s.gov, None)
  {
    forall at | at in Spent(tx) ensures at !in s.gov.locks {
      assert LockOk(env, s, used, at);
    }
    if tx.kind == Coinstake {
      assert UtxoOk(s, used, tx.inputs[0]);
    }
  }

  lemma NextPreserves(env: Env, w: World, w': World, tr: Trace) returns (tr': Trace)
    requires Inv(env, w.state, w.used, tr) && Next(env, w, w') && Steady(w, w')
    ensures Inv(env, w'.state, w'.used, tr')
    ensures Grows(w.state.gov.proposals.Keys, tr, tr', w.state.utxos, w'.state.gov.proposals.Keys)
  {
    var step :| StepsTo(env, w, step, w');
    match step
    case Begin(timestamp, version) =>
      tr' := tr;
      BeginPreserves(env, w, timestamp, version, w', tr);
      BeginIsBlockStart(env, w, timestamp, version, w');
      var s, s' := w.state, w'.state;
      BeginBlockRecords(env, s.gov, s.params, s.utxos, s'.height, timestamp, s'.gov, s'.params);
      forall id | id in s.gov.proposals ensures id in tr { assert ProposalOk(env, s, w.used, tr, id); }
    case Apply(tx, totalStaked) =>
      tr' := TxPreserves(env, w, tx, totalStaked, w', tr);
  }

  // --------------------------------------------------------------------- runs

  /** Proposal `id` was created by the step out of world `k`. */
  ghost predicate CreatedAt(run: seq<World>, k: nat, id: ProposalId)
    requires k + 1 < |run|
  {
    id !in run[k].state.gov.proposals && id in run[k + 1].state.gov.proposals
  }

  /** Each snapshot is the set of outputs unspent when its proposal was created. */
  ghost predicate Linked(run: seq<World>, n: nat, tr: Trace)
    requires n < |run|
  {
    forall k, id :: 0 <= k < n && CreatedAt(run, k, id) ==> id in tr && tr[id].utxos == run[k].state.utxos
  }

  /** No proposal is ever forgotten. */
  ghost predicate Remembered(run: seq<World>, n: nat)
    requires n < |run|
  {
    forall k :: 0 <= k <= n ==> run[k].state.gov.proposals.Keys <= run[n].state.gov.proposals.Keys
  }

  lemma {:induction false} RunInvariant(env: Env, run: seq<World>, n: nat) returns (tr: Trace)
    requires IsRun(env, run) && n < |run|
    ensures Inv(env, run[n].state, run[n].used, tr) && Linked(run, n, tr) && Remembered(run, n)
    decreases n
  {
    if n == 0 {
      tr := map[];
      InitialInv(env, run[0]);
    } else {
      var tr0 := RunInvariant(env, run, n - 1);
      assert NextAt(env, run, n - 1);
      RunFlagged(env, run, n);
      tr := NextPreserves(env, run[n - 1], run[n], tr0);
      LinkedOneMore(run, n, tr0, tr);
    }
  }

  lemma LinkedOneMore(run: seq<World>, n: nat, tr: Trace, tr': Trace)
    requires 0 < n < |run| && Linked(run, n - 1, tr) && Remembered(run, n - 1)
    requires Grows(run[n - 1].state.gov.proposals.Keys, tr, tr', run[n - 1].state.utxos, run[n].state.gov.proposals.Keys)
    ensures Linked(run, n, tr') && Remembered(run, n)
  {
    forall k, id | 0 <= k < n && CreatedAt(run, k, id) ensures id in tr' && tr'[id].utxos == run[k].state.utxos {
      if k < n - 1 {
        assert id in run[k + 1].state.gov.proposals;
        assert CreatedAt(run, k, id);
      }
    }
  }

  lemma InitialInv(env: Env, w: World)
    requires Initial(env, w)
    ensures Inv(env, w.state, w.used, map[])
  {
    forall at ensures UtxoOk(w.state, w.used, at) && LockOk(env, w.state, w.used, at) {}
    forall a, b ensures LocksApart(w.state.gov.locks, a, b) {}
    forall id ensures ProposalOk(env, w.state, w.used, map[], id) {}
  }

  /**
   * Over every run: the votes counted for a proposal never weigh more than all outputs that were unspent when
   * it was created, however those outputs have moved or been split since.
   */
  lemma TurnoutNeverExceedsSupply(env: Env, run: seq<World>, k: nat, n: nat, id: ProposalId)
    requires IsRun(env, run) && k < n < |run| && CreatedAt(run, k, id)
    ensures id in run[n].state.gov.proposals
    ensures run[n].state.gov.proposals[id].Turnout() <= TotalValue(run[k].state.utxos)
  {
    var tr := RunInvariant(env, run, n);
    assert id in run[k + 1].state.gov.proposals;
    assert ProposalOk(env, run[n].state, run[n].used, tr, id);
    BackedBound(tr[id].counted, tr[id].utxos);
  }

  /**
   * Over every run, before and after the decision: the tallies are exactly the sum of the weights of some identities,
   * matched one to one with outputs that were unspent when the proposal was created, each counted for at most
   * what its output was worth. While voting is open these are the identities on record.
   */
  lemma NoStakeCountedTwice(env: Env, run: seq<World>, k: nat, n: nat, id: ProposalId)
    requires IsRun(env, run) && k < n < |run| && CreatedAt(run, k, id)
    ensures id in run[n].state.gov.proposals
    ensures exists counted :: VotesBacked(run[n].state.gov.proposals[id], run[k].state.utxos, counted)
  {
    var tr := RunInvariant(env, run, n);
    assert id in run[k + 1].state.gov.proposals;
    assert ProposalOk(env, run[n].state, run[n].used, tr, id);
    assert VotesBacked(run[n].state.gov.proposals[id], run[k].state.utxos, tr[id].counted);
  }

  ghost predicate VotesBacked(rec: ProposalRecord, utxos: UtxoMap, counted: map<OutPoint, nat>) {
    rec.Turnout() == MapSum(counted) && Backed(counted, utxos) && (!rec.decided ==> counted.Keys == rec.voted)
  }

  /**
   * Over every run: each identity counted for an open proposal is carried by exactly one lock, which sits on an
   * unspent output and lasts at least until the end of voting plus the grace period; and every lock lasts
   * exactly as long as the proposal it names requires.
   */
  lemma CountedVotesStayLocked(env: Env, run: seq<World>, n: nat, id: ProposalId, origin: OutPoint)
    requires IsRun(env, run) && n < |run| && id in run[n].state.gov.proposals
    requires !run[n].state.gov.proposals[id].decided && origin in run[n].state.gov.proposals[id].voted
    ensures exists at :: LockedFor(run[n].state, origin, run[n].state.gov.proposals[id].proposal.votingEnd, at)
    ensures forall a, b :: CarriesLock(run[n].state, origin, a) && CarriesLock(run[n].state, origin, b) ==> a == b
  {
    var tr := RunInvariant(env, run, n);
    var s := run[n].state;
    assert ProposalOk(env, s, run[n].used, tr, id);
    var at := Holder(env, s, run[n].used, s.gov.proposals[id], tr[id], origin);
    assert LockOk(env, s, run[n].used, at);
    assert LockedFor(s, origin, s.gov.proposals[id].proposal.votingEnd, at);
    forall a, b | CarriesLock(s, origin, a) && CarriesLock(s, origin, b) ensures a == b {
      assert LocksApart(s.gov.locks, a, b);
    }
  }

  predicate CarriesLock(s: State, origin: OutPoint, at: OutPoint) {
    at in s.gov.locks && s.gov.locks[at].origin == origin
  }

  predicate LockedFor(s: State, origin: OutPoint, votingEnd: u32, at: OutPoint) {
    && CarriesLock(s, origin, at) && at in s.utxos
    && votingEnd + LOCK_GRACE_BLOCKS <= s.gov.locks[at].unlockHeight
  }

  lemma LocksNameTheirProposal(env: Env, run: seq<World>, n: nat, at: OutPoint)
    requires IsRun(env, run) && n < |run| && at in run[n].state.gov.locks
    ensures var s := run[n].state; var lock := s.gov.locks[at];
            && at in s.utxos && lock.outpoint == at && s.height < lock.unlockHeight
            && lock.votingValue <= s.utxos[at].value
            && lock.proposal in s.gov.proposals
            && lock.unlockHeight == s.gov.proposals[lock.proposal].proposal.votingEnd + LOCK_GRACE_BLOCKS
  {
    var tr := RunInvariant(env, run, n);
    assert LockOk(env, run[n].state, run[n].used, at);
  }
}
