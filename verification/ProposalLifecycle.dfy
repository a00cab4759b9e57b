/** When a proposal is decided and applied, and how long its locks last, over every run. */
module ProposalLifecycle {
  import opened Machine
  import opened Consensus
  import opened GovernanceTypes
  import opened GovernanceRules
  import opened GovernanceBlocks
  import opened Ledger
  import opened VoteTracking
  import opened VoteSafety

  predicate Won(rec: ProposalRecord) {
    TallyOf(rec.proposal, rec.yes, rec.no, rec.abstain, rec.quorumSupply, rec.proposal.votingEnd).Won?
  }

  /** The approved policy for windows, delays and deposits. */
  predicate WithinPolicy(p: Proposal, created: u32) {
    && MIN_VOTING_BLOCKS <= p.votingEnd - created <= MAX_VOTING_BLOCKS
    && MIN_ACTIVATION_DELAY <= p.activationHeight - p.votingEnd <= MAX_ACTIVATION_DELAY
    && MIN_PROPOSAL_DEPOSIT <= p.deposit
  }

  /** The status of a proposal is a function of the height and its tallies. */
  predicate OnSchedule(rec: ProposalRecord, height: u32) {
    && WithinPolicy(rec.proposal, rec.createdHeight)
    && (rec.decided <==> rec.proposal.votingEnd <= height)
    && (rec.passed <==> rec.decided && Won(rec))
    && (rec.applied <==> rec.passed && rec.proposal.activationHeight <= height)
    && (rec.decided ==> rec.voted == {})
  }

  ghost predicate AllOnSchedule(s: State) {
    forall id :: id in s.gov.proposals ==> OnSchedule(s.gov.proposals[id], s.height)
  }

  /** The integer comparisons of the tally are the percentages of the policy, without rounding. */
  lemma TallyIsExactPercentage(p: Proposal, yes: u64, no: u64, abstain: u64, totalStaked: u64, height: u32)
    ensures TallyOf(p, yes, no, abstain, totalStaked, height).Won? <==>
            && p.votingEnd <= height && totalStaked > 0 && yes + no > 0
            && (yes + no + abstain) as real / totalStaked as real >= 0.33
            && yes as real / (yes + no) as real >= 0.66
  {
    if totalStaked > 0 { PercentageTest(yes + no + abstain, totalStaked, QUORUM_PCT); }
    if yes + no > 0 { PercentageTest(yes, yes + no, THRESHOLD_PCT); }
  }

  lemma PercentageTest(part: nat, whole: nat, pct: nat)
    requires whole > 0
    ensures part * 100 >= whole * pct <==> part as real / whole as real >= pct as real / 100.0
  {
    var x, y, z := part as real, whole as real, pct as real;
    assert x / y >= z / 100.0 <==> x * 100.0 >= y * z by { CrossMultiply(x, y, z, 100.0); }
    assert (part * 100) as real == x * 100.0 && (whole * pct) as real == y * z;
  }

  lemma CrossMultiply(a: real, b: real, c: real, d: real)
    requires b > 0.0 && d > 0.0
    ensures a / b >= c / d <==> a * d >= b * c
  {
    var q, r := a / b, c / d;
    assert a == q * b && c == r * d;
    assert a * d == q * (b * d) && b * c == r * (b * d);
    assert b * d > 0.0;
    if q >= r {
      assert q * (b * d) >= r * (b * d);
    } else {
      assert q * (b * d) < r * (b * d);
    }
  }

  /** How a transaction may change a record that exists already. */
  predicate Polled(before: ProposalRecord, after: ProposalRecord, height: u32) {
    || after == before
    || (&& !before.decided && height < before.proposal.votingEnd
        && before.yes <= after.yes && before.no <= after.no && before.abstain <= after.abstain
        && after == before.(yes := after.yes, no := after.no, abstain := after.abstain, voted := after.voted))
  }

  /** A record as it is when its proposal is accepted, or after votes in the same transaction. */
  predicate Fresh(rec: ProposalRecord, height: u32) {
    && !rec.decided && !rec.passed && !rec.applied && rec.createdHeight == height
    && WithinPolicy(rec.proposal, height)
  }

  ghost predicate TxRecords(g: Gov, g': Gov, height: u32) {
    && (forall id :: id in g.proposals ==> id in g'.proposals && Polled(g.proposals[id], g'.proposals[id], height))
    && (forall id :: id in g'.proposals && id !in g.proposals ==> Fresh(g'.proposals[id], height))
  }

  lemma OutputRecords(env: Env, g: Gov, ctx: Context, o: TxOutput)
    requires ProcessOutput(env, g, ctx, o).error.None?
    ensures TxRecords(g, ProcessOutput(env, g, ctx, o).gov, ctx.height)
  {
  }

  lemma {:induction false} ProcessRecords(env: Env, g: Gov, ctx: Context, outputs: seq<TxOutput>)
    requires ProcessOutputs(env, g, ctx, outputs).error.None?
    ensures TxRecords(g, ProcessOutputs(env, g, ctx, outputs).gov, ctx.height)
    decreases |outputs|
  {
    if outputs != [] {
      var g1 := ProcessOutput(env, g, ctx, outputs[0]).gov;
      OutputRecords(env, g, ctx, outputs[0]);
      ProcessRecords(env, g1, ctx, outputs[1..]);
    }
  }

  lemma ApplyRecords(env: Env, w: World, tx: Transaction, totalStaked: u64, w': World)
    requires StepsTo(env, w, Apply(tx, totalStaked), w')
    ensures TxRecords(w.state.gov, w'.state.gov, w.state.height)
    ensures w'.state.height == w.state.height && w'.state.params == w.state.params
  {
    if w.state.active { ProcessRecords(env, w.state.gov, ContextOf(w.state, totalStaked), tx.outputs); }
  }

  lemma BegunOnSchedule(before: ProposalRecord, after: ProposalRecord, height: u32)
    requires height < U32_MAX && OnSchedule(before, height) && BegunRecord(before, after, height + 1)
    ensures OnSchedule(after, height + 1)
    ensures before.decided ==> after == before.(applied := after.applied, activationFailed := after.activationFailed)
    ensures before.applied ==> after == before
    ensures !before.decided && after.decided ==> height + 1 == before.proposal.votingEnd
    ensures !before.applied && after.applied ==> height + 1 == before.proposal.activationHeight
  {
  }

  lemma BeginOnSchedule(env: Env, w: World, timestamp: u32, version: u32, w': World)
    requires StepsTo(env, w, Begin(timestamp, version), w') && Steady(w, w') && AllOnSchedule(w.state)
    ensures AllOnSchedule(w'.state)
  {
    var s, s' := w.state, w'.state;
    BeginIsBlockStart(env, w, timestamp, version, w');
    BeginBlockRecords(env, s.gov, s.params, s.utxos, s'.height, timestamp, s'.gov, s'.params);
    forall id | id in s'.gov.proposals ensures OnSchedule(s'.gov.proposals[id], s'.height) {
      BegunOnSchedule(s.gov.proposals[id], s'.gov.proposals[id], s.height);
    }
  }

  lemma ApplyOnSchedule(env: Env, w: World, tx: Transaction, totalStaked: u64, w': World)
    requires StepsTo(env, w, Apply(tx, totalStaked), w') && Steady(w, w') && AllOnSchedule(w.state)
    ensures AllOnSchedule(w'.state)
  {
    ApplyRecords(env, w, tx, totalStaked, w');
    forall id | id in w'.state.gov.proposals ensures OnSchedule(w'.state.gov.proposals[id], w'.state.height) {
      if id in w.state.gov.proposals {
        assert Polled(w.state.gov.proposals[id], w'.state.gov.proposals[id], w.state.height);
      }
    }
  }

  lemma NextOnSchedule(env: Env, w: World, w': World)
    requires Next(env, w, w') && Steady(w, w') && AllOnSchedule(w.state)
    ensures AllOnSchedule(w'.state)
  {
    var step :| StepsTo(env, w, step, w');
    match step
    case Begin(timestamp, version) => BeginOnSchedule(env, w, timestamp, version, w');
    case Apply(tx, totalStaked) => ApplyOnSchedule(env, w, tx, totalStaked, w');
  }

  /**
   * Over every run: a proposal is decided exactly from its voting end on, passed exactly if the tallies then
   * reached quorum and threshold, and tried exactly from its activation height on.
   */
  lemma {:induction false} ProposalsStayOnSchedule(env: Env, run: seq<World>, n: nat)
    requires IsRun(env, run) && n < |run|
    ensures AllOnSchedule(run[n].state)
    decreases n
  {
    if n > 0 {
      ProposalsStayOnSchedule(env, run, n - 1);
      assert NextAt(env, run, n - 1);
      RunFlagged(env, run, n);
      NextOnSchedule(env, run[n - 1], run[n]);
    }
  }

  /** How a record may change over any number of steps. */
  predicate Evolved(before: ProposalRecord, after: ProposalRecord) {
    && after.proposal == before.proposal && after.createdHeight == before.createdHeight
    && after.quorumSupply == before.quorumSupply
    && before.yes <= after.yes && before.no <= after.no && before.abstain <= after.abstain
    && (before.decided ==> after == before.(applied := after.applied, activationFailed := after.activationFailed))
    && (before.applied ==> after == before)
  }

  lemma BegunEvolves(before: ProposalRecord, after: ProposalRecord, height: u32)
    requires height < U32_MAX && OnSchedule(before, height) && BegunRecord(before, after, height + 1)
    ensures Evolved(before, after)
  {
    BegunOnSchedule(before, after, height);
  }

  lemma PolledEvolves(before: ProposalRecord, after: ProposalRecord, height: u32)
    requires Polled(before, after, height) && OnSchedule(before, height)
    ensures Evolved(before, after)
  {
  }

  lemma EvolvedTransitive(a: ProposalRecord, b: ProposalRecord, c: ProposalRecord)
    requires Evolved(a, b) && Evolved(b, c)
    ensures Evolved(a, c)
  {
  }

  lemma BeginEvolves(env: Env, w: World, timestamp: u32, version: u32, w': World, id: ProposalId)
    requires StepsTo(env, w, Begin(timestamp, version), w') && Steady(w, w') && id in w.state.gov.proposals
    requires OnSchedule(w.state.gov.proposals[id], w.state.height)
    ensures id in w'.state.gov.proposals && Evolved(w.state.gov.proposals[id], w'.state.gov.proposals[id])
  {
    var s, s' := w.state, w'.state;
    BeginIsBlockStart(env, w, timestamp, version, w');
    BeginBlockRecords(env, s.gov, s.params, s.utxos, s'.height, timestamp, s'.gov, s'.params);
    BegunEvolves(s.gov.proposals[id], s'.gov.proposals[id], s.height);
  }

  lemma ApplyEvolves(env: Env, w: World, tx: Transaction, totalStaked: u64, w': World, id: ProposalId)
    requires StepsTo(env, w, Apply(tx, totalStaked), w') && id in w.state.gov.proposals
    requires OnSchedule(w.state.gov.proposals[id], w.state.height)
    ensures id in w'.state.gov.proposals && Evolved(w.state.gov.proposals[id], w'.state.gov.proposals[id])
  {
    ApplyRecords(env, w, tx, totalStaked, w');
    PolledEvolves(w.state.gov.proposals[id], w'.state.gov.proposals[id], w.state.height);
  }

  lemma NextEvolves(env: Env, w: World, w': World, id: ProposalId)
    requires Next(env, w, w') && Steady(w, w') && id in w.state.gov.proposals && OnSchedule(w.state.gov.proposals[id], w.state.height)
    ensures id in w'.state.gov.proposals && Evolved(w.state.gov.proposals[id], w'.state.gov.proposals[id])
  {
    var step :| StepsTo(env, w, step, w');
    match step
    case Begin(timestamp, version) => BeginEvolves(env, w, timestamp, version, w', id);
    case Apply(tx, totalStaked) => ApplyEvolves(env, w, tx, totalStaked, w', id);
  }

  /** Over every run: once decided, a proposal's tallies and result never change; once tried, nothing about it does. */
  lemma {:induction false} DecisionsAreFinal(env: Env, run: seq<World>, i: nat, j: nat, id: ProposalId)
    requires IsRun(env, run) && i <= j < |run| && id in run[i].state.gov.proposals
    ensures id in run[j].state.gov.proposals
    ensures Evolved(run[i].state.gov.proposals[id], run[j].state.gov.proposals[id])
    decreases j - i
  {
    if i < j {
      DecisionsAreFinal(env, run, i, j - 1, id);
      ProposalsStayOnSchedule(env, run, j - 1);
      var w, w' := run[j - 1], run[j];
      assert NextAt(env, run, j - 1);
      RunFlagged(env, run, j);
      NextEvolves(env, w, w', id);
      EvolvedTransitive(run[i].state.gov.proposals[id], w.state.gov.proposals[id], w'.state.gov.proposals[id]);
    }
  }

  /** The proposal is tried by the step out of world `i`. */
  predicate TriedAt(run: seq<World>, i: nat, id: ProposalId)
    requires i + 1 < |run|
  {
    && id in run[i].state.gov.proposals && !run[i].state.gov.proposals[id].applied
    && id in run[i + 1].state.gov.proposals && run[i + 1].state.gov.proposals[id].applied
  }

  /** Over every run: no proposal is tried twice. */
  lemma TriedAtMostOnce(env: Env, run: seq<World>, i: nat, j: nat, id: ProposalId)
    requires IsRun(env, run) && i + 1 < |run| && j + 1 < |run| && TriedAt(run, i, id) && TriedAt(run, j, id)
    ensures i == j
  {
    if i < j {
      DecisionsAreFinal(env, run, i + 1, j, id);
    } else if j < i {
      DecisionsAreFinal(env, run, j + 1, i, id);
    }
  }

  /**
   * Over every run: the parameters change only when a passed proposal is tried at its activation height, and
   * then some unspent output is eligible to stake under the new ones.
   */
  lemma ParamsChangeOnlyByActivation(env: Env, run: seq<World>, i: nat)
    requires IsRun(env, run) && i + 1 < |run| && run[i + 1].state.params != run[i].state.params
    ensures SomeEligible(env, run[i + 1].state.params, run[i + 1].state.utxos, run[i + 1].state.timestamp)
    ensures exists id :: TriedAt(run, i, id) && run[i].state.gov.proposals[id].passed
                && run[i].state.gov.proposals[id].proposal.activationHeight == run[i + 1].state.height
  {
    ProposalsStayOnSchedule(env, run, i);
    assert NextAt(env, run, i);
    RunFlagged(env, run, i + 1);
    var step :| StepsTo(env, run[i], step, run[i + 1]);
    match step
    case Begin(timestamp, version) =>
      var id := ActivationBehindChange(env, run[i], timestamp, version, run[i + 1]);
      assert TriedAt(run, i, id);
    case Apply(tx, totalStaked) =>
      ApplyRecords(env, run[i], tx, totalStaked, run[i + 1]);
      assert false;
  }

  /** What falls due is tried, and was passed and untried before. */
  lemma DueIsTried(before: ProposalRecord, after: ProposalRecord, height: u32)
    requires height < U32_MAX && OnSchedule(before, height) && BegunRecord(before, after, height + 1)
    requires Due(Decide(before, height + 1), height + 1)
    ensures !before.applied && after.applied && before.passed && before.proposal.activationHeight == height + 1
  {
    BegunOnSchedule(before, after, height);
  }

  lemma ActivationBehindChange(env: Env, w: World, timestamp: u32, version: u32, w': World) returns (id: ProposalId)
    requires StepsTo(env, w, Begin(timestamp, version), w') && Steady(w, w') && AllOnSchedule(w.state)
    requires w'.state.params != w.state.params
    ensures SomeEligible(env, w'.state.params, w'.state.utxos, w'.state.timestamp)
    ensures id in w.state.gov.proposals && id in w'.state.gov.proposals
    ensures var before, after := w.state.gov.proposals[id], w'.state.gov.proposals[id];
            !before.applied && after.applied && before.passed && before.proposal.activationHeight == w'.state.height
  {
    var s, s' := w.state, w'.state;
    BeginIsBlockStart(env, w, timestamp, version, w');
    BeginBlockRecords(env, s.gov, s.params, s.utxos, s'.height, timestamp, s'.gov, s'.params);
    BeginBlockKeepsStakingPossible(env, s.gov, s.params, s.utxos, s'.height, timestamp, s'.gov, s'.params);
    id :| id in s.gov.proposals && Due(Decide(s.gov.proposals[id], s'.height), s'.height);
    DueIsTried(s.gov.proposals[id], s'.gov.proposals[id], s.height);
  }

  lemma {:induction false} ParamsStayInRange(env: Env, run: seq<World>, n: nat)
    requires IsRun(env, run) && n < |run| && InRange(run[0].state.params)
    ensures InRange(run[n].state.params)
    decreases n
  {
    if n > 0 {
      ParamsStayInRange(env, run, n - 1);
      assert NextAt(env, run, n - 1);
      var step :| StepsTo(env, run[n - 1], step, run[n]);
      var s, s' := run[n - 1].state, run[n].state;
      if step.Begin? && run[n].state.active {
        BeginBlockKeepsStakingPossible(env, s.gov, s.params, s.utxos, s'.height, step.timestamp, s'.gov, s'.params);
      }
    }
  }

  // -------------------------------------------------------------------- locks

  /** Identity, weight and age of `lock` are carried on, for at least as long. */
  predicate CarriedOn(locks: Locks, lock: VoteLock, at: OutPoint) {
    && at in locks && locks[at].origin == lock.origin && locks[at].votingValue == lock.votingValue
    && locks[at].originHeight == lock.originHeight && lock.unlockHeight <= locks[at].unlockHeight
  }

  lemma OutputKeepsLocks(env: Env, g: Gov, ctx: Context, o: TxOutput, at: OutPoint)
    requires at in g.locks
    ensures CarriedOn(ProcessOutput(env, g, ctx, o).gov.locks, g.locks[at], at)
  {
  }

  lemma {:induction false} ProcessKeepsLocks(env: Env, g: Gov, ctx: Context, outputs: seq<TxOutput>, at: OutPoint)
    requires at in g.locks
    ensures CarriedOn(ProcessOutputs(env, g, ctx, outputs).gov.locks, g.locks[at], at)
    decreases |outputs|
  {
    if outputs != [] {
      OutputKeepsLocks(env, g, ctx, outputs[0], at);
      ProcessKeepsLocks(env, ProcessOutput(env, g, ctx, outputs[0]).gov, ctx, outputs[1..], at);
    }
  }

  lemma TransferKeepsLock(g: Gov, tx: Transaction, u: Utxo, height: u32, at: OutPoint)
    requires at in g.locks && tx.txid != at.txid
    ensures var g' := TransferLock(g, tx, u, height).gov;
            exists to :: CarriedOn(g'.locks, g.locks[at], to)
  {
    var g' := TransferLock(g, tx, u, height).gov;
    if IsLocked(g.locks, u.outpoint, height) && Relocks(tx, u) && u.outpoint == at {
      assert CarriedOn(g'.locks, g.locks[at], Successor(tx, u));
    } else {
      assert CarriedOn(g'.locks, g.locks[at], at);
    }
  }

  lemma CarriedOnTransitive(a: Locks, b: Locks, lock: VoteLock, at: OutPoint, to: OutPoint)
    requires CarriedOn(a, lock, at) && CarriedOn(b, a[at], to)
    ensures CarriedOn(b, lock, to)
  {
  }

  lemma NextKeepsLock(env: Env, w: World, w': World, tr: Trace, at: OutPoint)
    requires Inv(env, w.state, w.used, tr) && Next(env, w, w') && Steady(w, w') && at in w.state.gov.locks
    requires w'.state.height < w.state.gov.locks[at].unlockHeight
    ensures exists to :: CarriedOn(w'.state.gov.locks, w.state.gov.locks[at], to)
  {
    var lock := w.state.gov.locks[at];
    var step :| StepsTo(env, w, step, w');
    match step
    case Begin(_, _) =>
      assert CarriedOn(w'.state.gov.locks, lock, at);
    case Apply(tx, totalStaked) =>
      assert LockOk(env, w.state, w.used, at) && UtxoOk(w.state, w.used, at);
      var r := ProcessOutputs(env, w.state.gov, ContextOf(w.state, totalStaked), tx.outputs);
      ProcessKeepsLocks(env, w.state.gov, ContextOf(w.state, totalStaked), tx.outputs, at);
      if tx.kind == Coinstake {
        TransferKeepsLock(r.gov, tx, w.state.utxos[tx.inputs[0]], w.state.height, at);
        var to :| CarriedOn(w'.state.gov.locks, r.gov.locks[at], to);
        CarriedOnTransitive(r.gov.locks, w'.state.gov.locks, lock, at, to);
      } else {
        assert CarriedOn(w'.state.gov.locks, lock, at);
      }
  }

  lemma RunKeepsLock(env: Env, run: seq<World>, n: nat, at: OutPoint)
    requires IsRun(env, run) && n + 1 < |run| && at in run[n].state.gov.locks
    requires run[n + 1].state.height < run[n].state.gov.locks[at].unlockHeight
    ensures var before, after := run[n].state.gov.locks, run[n + 1].state.gov.locks;
            exists to :: CarriedOn(after, before[at], to)
  {
    var tr := RunInvariant(env, run, n);
    assert NextAt(env, run, n);
    RunFlagged(env, run, n + 1);
    NextKeepsLock(env, run[n], run[n + 1], tr, at);
  }

  lemma {:induction false} HeightsRise(env: Env, run: seq<World>, i: nat, j: nat)
    requires IsRun(env, run) && i <= j < |run|
    ensures run[i].state.height <= run[j].state.height
    decreases j - i
  {
    if i < j {
      HeightsRise(env, run, i, j - 1);
      assert NextAt(env, run, j - 1);
    }
  }

  /**
   * Over every run: until its unlock height a lock is never lost. Whatever blocks and stakes come between, some
   * output carries the same identity, weight and age, locked at least as long.
   */
  lemma {:induction false} LocksNeverShrink(env: Env, run: seq<World>, i: nat, j: nat, at: OutPoint)
    requires IsRun(env, run) && i <= j < |run| && at in run[i].state.gov.locks
    requires run[j].state.height < run[i].state.gov.locks[at].unlockHeight
    ensures exists to :: CarriedOn(run[j].state.gov.locks, run[i].state.gov.locks[at], to)
    decreases j - i
  {
    var lock := run[i].state.gov.locks[at];
    if i == j {
      assert CarriedOn(run[j].state.gov.locks, lock, at);
    } else {
      HeightsRise(env, run, j - 1, j);
      LocksNeverShrink(env, run, i, j - 1, at);
      var mid :| CarriedOn(run[j - 1].state.gov.locks, lock, mid);
      RunKeepsLock(env, run, j - 1, mid);
      var to :| CarriedOn(run[j].state.gov.locks, run[j - 1].state.gov.locks[mid], to);
      CarriedOnTransitive(run[j - 1].state.gov.locks, run[j].state.gov.locks, lock, mid, to);
    }
  }
}
