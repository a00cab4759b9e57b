/** Journaled blocks: rolling one back, failing part-way through one, and reorganizing over many. */
module BlockJournal {
  import opened Machine
  import opened Consensus
  import opened GovernanceTypes
  import opened GovernanceUndo
  import opened Ledger
  import opened Totals
  import opened Histories
  import opened VoteSafety

  // -------------------------------------------------------- the output journal

  /** What block application does to the unspent outputs, one at a time. */
  datatype Mutation = Insert(at: OutPoint, utxo: Utxo) | Delete(at: OutPoint)

  /** What it writes down: an insertion forgets whether the key was free. */
  datatype UtxoChange = UtxoAdded(at: OutPoint) | UtxoRemoved(at: OutPoint, utxo: Utxo)

  function Mutate(utxos: UtxoMap, m: Mutation): UtxoMap {
    match m case Insert(at, u) => utxos[at := u] case Delete(at) => utxos - {at}
  }

  function LogOf(utxos: UtxoMap, m: Mutation): seq<UtxoChange> {
    match m
    case Insert(at, _) => [UtxoAdded(at)]
    case Delete(at) => if at in utxos then [UtxoRemoved(at, utxos[at])] else []
  }

  function Replay(utxos: UtxoMap, ms: seq<Mutation>): UtxoMap
    decreases |ms|
  {
    if ms == [] then utxos else Replay(Mutate(utxos, ms[0]), ms[1..])
  }

  function Log(utxos: UtxoMap, ms: seq<Mutation>): seq<UtxoChange>
    decreases |ms|
  {
    if ms == [] then [] else LogOf(utxos, ms[0]) + Log(Mutate(utxos, ms[0]), ms[1..])
  }

  function RollbackChange(utxos: UtxoMap, c: UtxoChange): UtxoMap {
    match c case UtxoAdded(at) => utxos - {at} case UtxoRemoved(at, u) => utxos[at := u]
  }

  /** `rollback_changes`: the newest change first. */
  function RollbackChanges(utxos: UtxoMap, cs: seq<UtxoChange>): UtxoMap
    decreases |cs|
  {
    if cs == [] then utxos else RollbackChanges(RollbackChange(utxos, cs[|cs| - 1]), cs[..|cs| - 1])
  }

  lemma {:induction false} RollbackConcat(utxos: UtxoMap, a: seq<UtxoChange>, b: seq<UtxoChange>)
    ensures RollbackChanges(utxos, a + b) == RollbackChanges(RollbackChanges(utxos, b), a)
    decreases |b|
  {
    if b == [] {
      assert a + b == a;
    } else {
      var n := |b| - 1;
      assert (a + b)[..|a + b| - 1] == a + b[..n];
      RollbackConcat(RollbackChange(utxos, b[n]), a, b[..n]);
    }
  }

  /** The first mutation of this key, if any, inserts it. */
  predicate InsertedFirst(ms: seq<Mutation>, at: OutPoint)
    decreases |ms|
  {
    ms != [] && if ms[0].at == at then ms[0].Insert? else InsertedFirst(ms[1..], at)
  }

  lemma {:induction false} RollbackAt(utxos: UtxoMap, ms: seq<Mutation>, at: OutPoint)
    ensures Lookup(RollbackChanges(Replay(utxos, ms), Log(utxos, ms)), at)
         == if at in utxos && InsertedFirst(ms, at) then None else Lookup(utxos, at)
    decreases |ms|
  {
    if ms != [] {
      var next := Mutate(utxos, ms[0]);
      RollbackAt(next, ms[1..], at);
      RollbackConcat(Replay(next, ms[1..]), LogOf(utxos, ms[0]), Log(next, ms[1..]));
      var restored := RollbackChanges(Replay(next, ms[1..]), Log(next, ms[1..]));
      RollbackOne(restored, utxos, ms[0], at);
    }
  }

  lemma RollbackOne(restored: UtxoMap, utxos: UtxoMap, m: Mutation, at: OutPoint)
    ensures Lookup(RollbackChanges(restored, LogOf(utxos, m)), at)
         == if m.at != at then Lookup(restored, at)
            else if m.Insert? then None
            else if at in utxos then Some(utxos[at]) else Lookup(restored, at)
  {
    var log := LogOf(utxos, m);
    if log != [] {
      assert log[..0] == [];
      assert RollbackChanges(restored, log) == RollbackChange(restored, log[0]);
    }
  }

  /**
   * Rolling back the journal of any sequence of mutations restores the unspent outputs exactly when no
   * mutation inserted over an output that was unspent at the start and not yet spent.
   */
  lemma RollbackRestoresExactly(utxos: UtxoMap, ms: seq<Mutation>)
    ensures RollbackChanges(Replay(utxos, ms), Log(utxos, ms)) == utxos
       <==> forall at :: at in utxos ==> !InsertedFirst(ms, at)
  {
    var restored := RollbackChanges(Replay(utxos, ms), Log(utxos, ms));
    forall at ensures Lookup(restored, at) == if at in utxos && InsertedFirst(ms, at) then None else Lookup(utxos, at) {
      RollbackAt(utxos, ms, at);
    }
    if forall at :: at in utxos ==> !InsertedFirst(ms, at) {
      LookupExtensional(restored, utxos);
    } else {
      var at :| at in utxos && InsertedFirst(ms, at);
      assert Lookup(restored, at) != Lookup(utxos, at);
    }
  }

  /** An output that reuses a live outpoint is lost by the rollback. */
  lemma RollbackLosesOverwritten(utxos: UtxoMap, at: OutPoint, u: Utxo)
    requires at in utxos
    ensures RollbackChanges(Replay(utxos, [Insert(at, u)]), Log(utxos, [Insert(at, u)])) != utxos
  {
    assert InsertedFirst([Insert(at, u)], at);
    RollbackRestoresExactly(utxos, [Insert(at, u)]);
  }

  lemma {:induction false} FreshInsertsAreNotFirst(ms: seq<Mutation>, at: OutPoint)
    requires forall i :: 0 <= i < |ms| && ms[i].Insert? ==> ms[i].at != at
    ensures !InsertedFirst(ms, at)
    decreases |ms|
  {
    if ms != [] {
      FreshInsertsAreNotFirst(ms[1..], at);
    }
  }

  // ------------------------------------------------------------------- blocks

  datatype Block = Block(timestamp: u32, version: u32, txs: seq<Transaction>, staked: u64)

  function Deletes(inputs: seq<OutPoint>): seq<Mutation> {
    if inputs == [] then [] else [Delete(inputs[0])] + Deletes(inputs[1..])
  }

  function Inserts(env: Env, tx: Transaction, height: u32, timestamp: u32, n: nat): seq<Mutation>
    requires n <= |tx.outputs|
  {
    if n == 0 then []
    else
      var at := OutPoint(tx.txid, n - 1);
      var o := tx.outputs[n - 1];
      Inserts(env, tx, height, timestamp, n - 1)
      + if EntersUtxoSet(env, tx, o, height) then [Insert(at, Utxo(at, o.value, o.script, height, timestamp))] else []
  }

  /** The mutations of one transaction, in the order the chain makes them. */
  function TxMutations(env: Env, tx: Transaction, height: u32, timestamp: u32): seq<Mutation> {
    (if tx.kind == Coinbase then [] else Deletes(tx.inputs)) + Inserts(env, tx, height, timestamp, |tx.outputs|)
  }

  function BlockMutations(env: Env, txs: seq<Transaction>, height: u32, timestamp: u32): seq<Mutation> {
    if txs == [] then []
    else BlockMutations(env, txs[..|txs| - 1], height, timestamp) + TxMutations(env, txs[|txs| - 1], height, timestamp)
  }

  lemma {:induction false} ReplayConcat(utxos: UtxoMap, a: seq<Mutation>, b: seq<Mutation>)
    ensures Replay(utxos, a + b) == Replay(Replay(utxos, a), b)
    decreases |a|
  {
    if a == [] {
      assert a + b == b;
    } else {
      assert (a + b)[1..] == a[1..] + b;
      ReplayConcat(Mutate(utxos, a[0]), a[1..], b);
    }
  }

  lemma {:induction false} ReplayDeletes(utxos: UtxoMap, inputs: seq<OutPoint>)
    ensures Replay(utxos, Deletes(inputs)) == utxos - Elements(inputs)
    decreases |inputs|
  {
    if inputs == [] {
      assert Elements(inputs) == {};
      assert utxos - {} == utxos;
    } else {
      assert Deletes(inputs)[1..] == Deletes(inputs[1..]);
      ReplayDeletes(utxos - {inputs[0]}, inputs[1..]);
      ElementsHead(inputs);
      assert utxos - {inputs[0]} - Elements(inputs[1..]) == utxos - Elements(inputs);
    }
  }

  lemma ReplayLast(utxos: UtxoMap, ms: seq<Mutation>, m: Mutation)
    ensures Replay(utxos, ms + [m]) == Mutate(Replay(utxos, ms), m)
  {
    ReplayConcat(utxos, ms, [m]);
    assert [m][1..] == [];
  }

  lemma {:induction false} ReplayInserts(env: Env, utxos: UtxoMap, tx: Transaction, height: u32, timestamp: u32, n: nat)
    requires n <= |tx.outputs|
    ensures Replay(utxos, Inserts(env, tx, height, timestamp, n)) == utxos + CreatedBelow(env, tx, height, timestamp, n)
  {
    if n > 0 {
      ReplayInserts(env, utxos, tx, height, timestamp, n - 1);
      var before := Inserts(env, tx, height, timestamp, n - 1);
      var o, at := tx.outputs[n - 1], OutPoint(tx.txid, n - 1);
      var m := Insert(at, Utxo(at, o.value, o.script, height, timestamp));
      if EntersUtxoSet(env, tx, o, height) {
        ReplayLast(utxos, before, m);
        assert Inserts(env, tx, height, timestamp, n) == before + [m];
        UpdateSum(utxos, CreatedBelow(env, tx, height, timestamp, n - 1), at, m.utxo);
      } else {
        assert Inserts(env, tx, height, timestamp, n) == before;
      }
    }
  }

  lemma ReplayTx(env: Env, utxos: UtxoMap, tx: Transaction, height: u32, timestamp: u32)
    ensures Replay(utxos, TxMutations(env, tx, height, timestamp)) == utxos - Spent(tx) + Created(env, tx, height, timestamp)
  {
    var ds := if tx.kind == Coinbase then [] else Deletes(tx.inputs);
    var ins := Inserts(env, tx, height, timestamp, |tx.outputs|);
    ReplayConcat(utxos, ds, ins);
    ReplayDeletes(utxos, tx.inputs);
    ReplayInserts(env, utxos - Spent(tx), tx, height, timestamp, |tx.outputs|);
    assert utxos - {} == utxos;
  }

  /** The worlds a block passes through: after its start, and after each of its transactions. */
  ghost predicate AppliesBlock(env: Env, w: World, b: Block, trail: seq<World>) {
    && |trail| == |b.txs| + 1
    && StepsTo(env, w, Begin(b.timestamp, b.version), trail[0])
    && forall i :: 0 <= i < |b.txs| ==> AppliesTx(env, b, trail, i)
  }

  ghost predicate AppliesTx(env: Env, b: Block, trail: seq<World>, i: nat)
    requires i < |b.txs| && i + 1 < |trail|
  {
    StepsTo(env, trail[i], Apply(b.txs[i], b.staked), trail[i + 1])
  }

  lemma StepMutations(env: Env, w: World, tx: Transaction, totalStaked: u64, w': World)
    requires StepsTo(env, w, Apply(tx, totalStaked), w')
    ensures w'.state.utxos == Replay(w.state.utxos, TxMutations(env, tx, w.state.height, w.state.timestamp))
    ensures w'.state.height == w.state.height && w'.state.timestamp == w.state.timestamp
    ensures w'.used == w.used + {tx.txid} && tx.txid !in w.used && w'.versions == w.versions
    ensures w'.state.active == w.state.active && (!w.state.active ==> w'.state.gov == w.state.gov)
  {
    ReplayTx(env, w.state.utxos, tx, w.state.height, w.state.timestamp);
  }

  lemma BlockMutationsSnoc(env: Env, txs: seq<Transaction>, n: nat, height: u32, timestamp: u32)
    requires n < |txs|
    ensures BlockMutations(env, txs[..n + 1], height, timestamp)
         == BlockMutations(env, txs[..n], height, timestamp) + TxMutations(env, txs[n], height, timestamp)
  {
    assert txs[..n + 1][..n] == txs[..n];
  }

  /** After `n` transactions the outputs are those the journaled mutations lead to, and every id was unused. */
  ghost predicate Mutated(env: Env, w: World, b: Block, w': World, n: nat)
    requires n <= |b.txs|
  {
    && w'.state.height == w.state.height + 1 && w'.state.timestamp == b.timestamp
    && w'.state.utxos == Replay(w.state.utxos, BlockMutations(env, b.txs[..n], w'.state.height, b.timestamp))
    && w.used <= w'.used && w'.versions == w.versions + [b.version]
    && (!w'.state.active ==> w'.state.gov == w.state.gov)
    && (forall i :: 0 <= i < n ==> b.txs[i].txid !in w.used)
  }

  lemma {:induction false} TrailMutations(env: Env, w: World, b: Block, trail: seq<World>, n: nat)
    requires AppliesBlock(env, w, b, trail) && n <= |b.txs|
    ensures Mutated(env, w, b, trail[n], n)
    decreases n
  {
    if n == 0 {
      assert b.txs[..0] == [];
    } else {
      TrailMutations(env, w, b, trail, n - 1);
      assert AppliesTx(env, b, trail, n - 1);
      OneMoreMutated(env, w, b, trail[n - 1], trail[n], n);
    }
  }

  lemma OneMoreMutated(env: Env, w: World, b: Block, w1: World, w2: World, n: nat)
    requires 0 < n <= |b.txs| && Mutated(env, w, b, w1, n - 1) && StepsTo(env, w1, Apply(b.txs[n - 1], b.staked), w2)
    ensures Mutated(env, w, b, w2, n)
  {
    var tx := b.txs[n - 1];
    StepMutations(env, w1, tx, b.staked, w2);
    BlockMutationsSnoc(env, b.txs, n - 1, w1.state.height, b.timestamp);
    ReplayConcat(w.state.utxos, BlockMutations(env, b.txs[..n - 1], w1.state.height, b.timestamp),
                 TxMutations(env, tx, w1.state.height, b.timestamp));
  }

  lemma {:induction false} InsertsAreOwn(env: Env, tx: Transaction, height: u32, timestamp: u32, n: nat, i: nat)
    requires n <= |tx.outputs| && i < |Inserts(env, tx, height, timestamp, n)|
    ensures Inserts(env, tx, height, timestamp, n)[i].at.txid == tx.txid
  {
    if i < |Inserts(env, tx, height, timestamp, n - 1)| {
      InsertsAreOwn(env, tx, height, timestamp, n - 1, i);
    }
  }

  lemma {:induction false} DeletesOnly(inputs: seq<OutPoint>, i: nat)
    requires i < |Deletes(inputs)|
    ensures Deletes(inputs)[i].Delete?
  {
    if i > 0 {
      DeletesOnly(inputs[1..], i - 1);
    }
  }

  /** A block inserts nothing but outputs of its own transactions. */
  lemma {:induction false} BlockInsertsAreOwn(env: Env, txs: seq<Transaction>, height: u32, timestamp: u32, i: nat)
    requires i < |BlockMutations(env, txs, height, timestamp)| && BlockMutations(env, txs, height, timestamp)[i].Insert?
    ensures exists j :: 0 <= j < |txs| && BlockMutations(env, txs, height, timestamp)[i].at.txid == txs[j].txid
    decreases |txs|
  {
    var n := |txs| - 1;
    var before := BlockMutations(env, txs[..n], height, timestamp);
    if i < |before| {
      BlockInsertsAreOwn(env, txs[..n], height, timestamp, i);
      var j :| 0 <= j < |txs[..n]| && before[i].at.txid == txs[..n][j].txid;
      assert txs[j] == txs[..n][j];
    } else {
      var ds := if txs[n].kind == Coinbase then [] else Deletes(txs[n].inputs);
      if i - |before| < |ds| {
        DeletesOnly(txs[n].inputs, i - |before|);
      } else {
        InsertsAreOwn(env, txs[n], height, timestamp, |txs[n].outputs|, i - |before| - |ds|);
      }
    }
  }

  // ------------------------------------------------------------------- totals

  /** What the first `n` transactions of a block add to the journal's `staked_delta`. */
  ghost function BlockStakeDelta(env: Env, b: Block, trail: seq<World>, n: nat): int
    requires |trail| == |b.txs| + 1 && n <= |b.txs|
  {
    if n == 0 then 0
    else
      var s := trail[n - 1].state;
      BlockStakeDelta(env, b, trail, n - 1) + StakeDelta(env, s.params, s.utxos, b.txs[n - 1], s.height, s.timestamp)
  }

  /** What they add to its `supply_delta`, saturating. */
  ghost function BlockSupplyDelta(b: Block, trail: seq<World>, n: nat): u64
    requires |trail| == |b.txs| + 1 && n <= |b.txs|
  {
    if n == 0 then 0 else Min(BlockSupplyDelta(b, trail, n - 1) + SupplyDelta(trail[n - 1].state.utxos, b.txs[n - 1]), U64_MAX)
  }

  /**
   * How `apply_block_journaled` moves the totals. The staked supply is counted anew when the block start changed
   * the least stake; the transactions see it as it then is, and their changes are committed at the end.
   */
  ghost predicate Counts(env: Env, w: World, b: Block, trail: seq<World>, t: Totals, t': Totals) {
    && |trail| == |b.txs| + 1
    && var s := trail[0].state;
       && b.staked == (if s.params.minStakeAmount != w.state.params.minStakeAmount then StakeIn(env, s.params, s.utxos) else t.staked)
       && t'.staked == Committed(b.staked, BlockStakeDelta(env, b, trail, |b.txs|))
       && t'.supply == t.supply + BlockSupplyDelta(b, trail, |b.txs|) <= MAX_SUPPLY
       && Unclaimed(t.claimed, Claims(b.txs)) && t'.claimed == t.claimed + Elements(Claims(b.txs))
  }

  lemma {:induction false} TrailStake(env: Env, w: World, b: Block, trail: seq<World>, n: nat)
    requires AppliesBlock(env, w, b, trail) && n <= |b.txs| && forall at :: UtxoOk(w.state, w.used, at)
    ensures forall at :: UtxoOk(trail[n].state, trail[n].used, at)
    ensures trail[n].state.params == trail[0].state.params
    ensures StakeIn(env, trail[0].state.params, trail[n].state.utxos)
         == StakeIn(env, trail[0].state.params, trail[0].state.utxos) + BlockStakeDelta(env, b, trail, n)
    decreases n
  {
    if n == 0 {
      forall at ensures UtxoOk(trail[0].state, trail[0].used, at) { assert UtxoOk(w.state, w.used, at); }
    } else {
      TrailStake(env, w, b, trail, n - 1);
      assert AppliesTx(env, b, trail, n - 1);
      TxStake(env, trail[n - 1], b.txs[n - 1], b.staked, trail[n]);
      OutputsStayOk(env, trail[n - 1], b.txs[n - 1], b.staked, trail[n]);
    }
  }

  lemma OutputsStayOk(env: Env, w: World, tx: Transaction, totalStaked: u64, w': World)
    requires StepsTo(env, w, Apply(tx, totalStaked), w') && forall at :: UtxoOk(w.state, w.used, at)
    ensures forall at :: UtxoOk(w'.state, w'.used, at)
  {
    forall at ensures UtxoOk(w'.state, w'.used, at) { assert UtxoOk(w.state, w.used, at); }
  }

  /** The staked supply a block shows its transactions is the stake at its start, if the recorded one was right. */
  lemma BlockSeesStake(env: Env, w: World, b: Block, trail: seq<World>, t: Totals, t': Totals)
    requires AppliesBlock(env, w, b, trail) && Counts(env, w, b, trail, t, t') && t.staked == StakeIn(env, w.state.params, w.state.utxos)
    ensures b.staked == StakeIn(env, trail[0].state.params, trail[0].state.utxos)
  {
    var s := trail[0].state;
    if s.params.minStakeAmount == w.state.params.minStakeAmount {
      SameMinimumSameStake(env, s.params, w.state.params, s.utxos);
    }
  }

  /**
   * A block keeps the recorded staked supply equal to the value of the stakeable outputs, through spends, new
   * outputs and changes of the least stake, exactly if that value fits the 64 bits it is kept in.
   */
  lemma BlockKeepsStakedExactly(env: Env, w: World, b: Block, trail: seq<World>, t: Totals, t': Totals)
    requires AppliesBlock(env, w, b, trail) && Counts(env, w, b, trail, t, t') && forall at :: UtxoOk(w.state, w.used, at)
    requires t.staked == StakeIn(env, w.state.params, w.state.utxos)
    ensures var s := trail[|b.txs|].state;
            t'.staked == StakeIn(env, s.params, s.utxos) <==> StakeIn(env, s.params, s.utxos) <= U64_MAX
  {
    BlockSeesStake(env, w, b, trail, t, t');
    TrailStake(env, w, b, trail, |b.txs|);
  }

  // ----------------------------------------------------------------- rollback

  /** What a block leaves behind so that it can be taken back. Time and activation are read off the chain. */
  datatype Journal = Journal(
    changes: seq<UtxoChange>,
    claims: seq<Address>,
    undo: Option<Undo>,
    previousParams: Params,
    previousStaked: u64,
    previousSupply: u64,
    previousTimestamp: u32,
    previousActive: bool)

  function RestoreGov(g: Gov, undo: Option<Undo>): Gov { if undo.Some? then Restore(g, undo.value) else g }

  /** `rollback_journal`, on the state and the totals. */
  function RollbackState(s: State, j: Journal): State {
    s.(gov := RestoreGov(s.gov, j.undo), params := j.previousParams, utxos := RollbackChanges(s.utxos, j.changes))
  }

  function RollbackTotals(t: Totals, j: Journal): Totals {
    Totals(j.previousStaked, j.previousSupply, t.claimed - Elements(j.claims))
  }

  /** `rollback_one_block`: the same, and the block is taken off the chain. */
  function RollbackBlock(s: State, j: Journal): State
    requires s.height > 0
  {
    RollbackState(s, j).(height := s.height - 1, timestamp := j.previousTimestamp, active := j.previousActive)
  }

  /** What a journal remembers of the state and totals before its block. */
  predicate Remembers(j: Journal, w: World, t: Totals) {
    && j.previousParams == w.state.params && j.previousStaked == t.staked && j.previousSupply == t.supply
    && j.previousTimestamp == w.state.timestamp && j.previousActive == w.state.active
  }

  /** Whether the journal's undo record is the one for `g`: there is none while governance is inactive. */
  ghost predicate UndoFor(j: Journal, active: bool, g: Gov, before: Gov) {
    if active then j.undo.Some? && Undoes(j.undo.value, g, before) else j.undo == None && g == before
  }

  /** The journal of a block, taken as the chain takes it. */
  ghost predicate Journals(env: Env, w: World, b: Block, w': World, t: Totals, j: Journal) {
    && j.changes == Log(w.state.utxos, BlockMutations(env, b.txs, w'.state.height, b.timestamp))
    && j.claims == Claims(b.txs)
    && UndoFor(j, w'.state.active, w'.state.gov, w.state.gov)
    && Remembers(j, w, t)
  }

  /** Mutations that only insert outputs of unused transaction ids are rolled back exactly. */
  lemma FreshMutationsRollBack(w: World, ms: seq<Mutation>)
    requires forall at :: UtxoOk(w.state, w.used, at)
    requires forall i :: 0 <= i < |ms| && ms[i].Insert? ==> ms[i].at.txid !in w.used
    ensures RollbackChanges(Replay(w.state.utxos, ms), Log(w.state.utxos, ms)) == w.state.utxos
  {
    forall at | at in w.state.utxos ensures !InsertedFirst(ms, at) {
      assert UtxoOk(w.state, w.used, at);
      FreshInsertsAreNotFirst(ms, at);
    }
    RollbackRestoresExactly(w.state.utxos, ms);
  }

  lemma BlockMutationsFresh(env: Env, w: World, txs: seq<Transaction>, height: u32, timestamp: u32, i: nat)
    requires forall k :: 0 <= k < |txs| ==> txs[k].txid !in w.used
    requires i < |BlockMutations(env, txs, height, timestamp)| && BlockMutations(env, txs, height, timestamp)[i].Insert?
    ensures BlockMutations(env, txs, height, timestamp)[i].at.txid !in w.used
  {
    BlockInsertsAreOwn(env, txs, height, timestamp, i);
  }

  lemma UndoForRestores(j: Journal, active: bool, g: Gov, before: Gov)
    requires UndoFor(j, active, g, before)
    ensures RestoreGov(g, j.undo) == before
  {
    if active { UndoesRestores(j.undo.value, g, before); }
  }

  lemma DoneAndPartialFresh(env: Env, w: World, b: Block, trail: seq<World>, n: nat, partial: seq<Mutation>)
    requires AppliesBlock(env, w, b, trail) && n <= |b.txs|
    requires forall at :: UtxoOk(w.state, w.used, at)
    requires forall i :: 0 <= i < |partial| && partial[i].Insert? ==> partial[i].at.txid !in w.used
    ensures var ms := BlockMutations(env, b.txs[..n], trail[n].state.height, b.timestamp) + partial;
            RollbackChanges(Replay(w.state.utxos, ms), Log(w.state.utxos, ms)) == w.state.utxos
  {
    var done := BlockMutations(env, b.txs[..n], trail[n].state.height, b.timestamp);
    TrailMutations(env, w, b, trail, n);
    forall i | 0 <= i < |done + partial| && (done + partial)[i].Insert? ensures (done + partial)[i].at.txid !in w.used {
      if i < |done| {
        BlockMutationsFresh(env, w, b.txs[..n], trail[n].state.height, b.timestamp, i);
      } else {
        assert (done + partial)[i] == partial[i - |done|];
      }
    }
    FreshMutationsRollBack(w, done + partial);
  }

  /** The state and totals in which a block stopped: after `n` transactions and part of the next. */
  ghost predicate StoppedAt(env: Env, w: World, b: Block, trail: seq<World>, n: nat, partial: seq<Mutation>, t: Totals, s: State, t': Totals, j: Journal)
    requires |trail| == |b.txs| + 1 && n <= |b.txs|
  {
    var ms := BlockMutations(env, b.txs[..n], trail[n].state.height, b.timestamp) + partial;
    && s.utxos == Replay(w.state.utxos, ms) && j.changes == Log(w.state.utxos, ms)
    && UndoFor(j, s.active, s.gov, w.state.gov)
    && Unclaimed(t.claimed, j.claims) && t'.claimed == t.claimed + Elements(j.claims)
    && Remembers(j, w, t)
  }

  /**
   * A block that stops part-way through some transaction, having left governance, parameters and totals in any
   * state, is taken back exactly by what was journaled up to there.
   */
  lemma FailedBlockIsUndone(env: Env, w: World, b: Block, trail: seq<World>, n: nat, partial: seq<Mutation>, t: Totals, s: State, t': Totals, j: Journal)
    requires AppliesBlock(env, w, b, trail) && n <= |b.txs|
    requires forall at :: UtxoOk(w.state, w.used, at)
    requires forall i :: 0 <= i < |partial| && partial[i].Insert? ==> partial[i].at.txid !in w.used
    requires StoppedAt(env, w, b, trail, n, partial, t, s, t', j)
    ensures RollbackState(s, j) == s.(gov := w.state.gov, params := w.state.params, utxos := w.state.utxos)
    ensures RollbackTotals(t', j) == t
  {
    DoneAndPartialFresh(env, w, b, trail, n, partial);
    UndoForRestores(j, s.active, s.gov, w.state.gov);
    ClaimsTakenBack(t.claimed, j.claims);
  }

  /** Rolling back a whole block restores everything it was applied to. */
  lemma BlockIsUndone(env: Env, w: World, b: Block, trail: seq<World>, t: Totals, t': Totals, j: Journal)
    requires AppliesBlock(env, w, b, trail) && Counts(env, w, b, trail, t, t') && Journals(env, w, b, trail[|b.txs|], t, j)
    requires forall at :: UtxoOk(w.state, w.used, at)
    ensures trail[|b.txs|].state.height > 0
    ensures RollbackBlock(trail[|b.txs|].state, j) == w.state && RollbackTotals(t', j) == t
  {
    var n := |b.txs|;
    TrailMutations(env, w, b, trail, n);
    assert b.txs[..n] == b.txs;
    var ms := BlockMutations(env, b.txs, trail[n].state.height, b.timestamp);
    assert ms + [] == ms;
    FailedBlockIsUndone(env, w, b, trail, n, [], t, trail[n].state, t', j);
  }

  // ------------------------------------------------------------------- reorgs

  type ChainNode = Node<World, Totals, Journal>

  ghost predicate AppliedAs(env: Env, w: World, b: Block, trail: seq<World>, t: Totals, t': Totals, j: Journal) {
    AppliesBlock(env, w, b, trail) && Counts(env, w, b, trail, t, t') && Journals(env, w, b, trail[|b.txs|], t, j)
  }

  /** Some block leads from one state and totals to another, leaving the given journal. */
  ghost function Applied(env: Env): Histories.Block<World, Totals, Journal> {
    (w: World, trail: seq<World>, t: Totals, t': Totals, j: Journal) => exists b :: AppliedAs(env, w, b, trail, t, t', j)
  }

  ghost predicate NodeOk(env: Env, n: ChainNode) {
    IsRun(env, n.run) && Journaled(Applied(env), n)
  }

  /** Append a block. */
  ghost predicate Extends(env: Env, n: ChainNode, n': ChainNode) {
    exists b, trail, t', j :: ExtendsBy(env, n, b, trail, t', j, n')
  }

  ghost predicate ExtendsBy(env: Env, n: ChainNode, b: Block, trail: seq<World>, t': Totals, j: Journal, n': ChainNode) {
    n.run != [] && AppliedAs(env, n.world, b, trail, n.totals, t', j) && n' == Extended(n, trail, t', j)
  }

  lemma ExtendsByBlock(env: Env, n: ChainNode, b: Block, trail: seq<World>, t': Totals, j: Journal, n': ChainNode)
    requires ExtendsBy(env, n, b, trail, t', j, n')
    ensures AppliesBlock(env, n.world, b, trail) && Counts(env, n.world, b, trail, n.totals, t')
    ensures n'.run == n.run + trail && n'.totals == t' && n'.world == trail[|b.txs|]
  {
  }

  /** The chain one block shorter, by `rollback_one_block`: computed from the present state and a journal alone. */
  function RolledBack(w: World, j: Journal, used: set<Txid>): World
    requires w.state.height > 0 && w.versions != []
  {
    World(RollbackBlock(w.state, j), used, w.versions[..|w.versions| - 1])
  }

  /** Roll the newest journaled block back. The ids it used are free again. */
  ghost predicate RollsBack(n: ChainNode, n': ChainNode) {
    && n.journals != [] && |n.starts| == |n.journals| == |n.before| && n.world.state.height > 0 && n.world.versions != []
    && var k := |n.journals| - 1;
       && n.starts[k] < |n.run|
       && n' == Shortened(n, RolledBack(n.world, n.journals[k], n.run[n.starts[k]].used), RollbackTotals(n.totals, n.journals[k]))
  }

  /** Forget the oldest journal. */
  ghost predicate Trims(n: ChainNode, n': ChainNode) {
    n.journals != [] && |n.starts| == |n.journals| == |n.before| && n' == Trimmed(n)
  }

  lemma ExtendedRun(env: Env, run: seq<World>, b: Block, trail: seq<World>)
    requires IsRun(env, run) && AppliesBlock(env, run[|run| - 1], b, trail)
    ensures IsRun(env, run + trail)
  {
    var m, all := |run|, run + trail;
    forall i | 0 <= i < |all| - 1 ensures NextAt(env, all, i) {
      if i == m - 1 {
        assert StepsTo(env, all[i], Begin(b.timestamp, b.version), all[i + 1]);
      } else if i >= m {
        assert AppliesTx(env, b, trail, i - m);
        assert StepsTo(env, all[i], Apply(b.txs[i - m], b.staked), all[i + 1]);
      } else {
        assert NextAt(env, run, i);
      }
    }
  }

  lemma RunPrefix(env: Env, run: seq<World>, n: nat)
    requires IsRun(env, run) && 0 < n <= |run|
    ensures IsRun(env, run[..n])
  {
    forall i | 0 <= i < n - 1 ensures NextAt(env, run[..n], i) {
      assert NextAt(env, run, i);
    }
  }

  lemma RunOutputsOk(env: Env, run: seq<World>, n: nat)
    requires IsRun(env, run) && n < |run|
    ensures forall at :: UtxoOk(run[n].state, run[n].used, at)
  {
    var tr := RunInvariant(env, run, n);
  }

  lemma ExtendKeepsOk(env: Env, n: ChainNode, b: Block, trail: seq<World>, t': Totals, j: Journal, n': ChainNode)
    requires NodeOk(env, n) && ExtendsBy(env, n, b, trail, t', j, n')
    ensures NodeOk(env, n')
  {
    ExtendedRun(env, n.run, b, trail);
    assert Applied(env)(n.world, trail, n.totals, t', j);
    ExtendedIsJournaled(Applied(env), n, trail, t', j);
  }

  /** The state and totals computed from a journal are those its block was applied to. */
  lemma AppliedIsUndone(env: Env, w: World, trail: seq<World>, t: Totals, t': Totals, j: Journal)
    requires trail != [] && Applied(env)(w, trail, t, t', j) && forall at :: UtxoOk(w.state, w.used, at)
    ensures var w' := trail[|trail| - 1];
            w'.state.height > 0 && w'.versions != [] && RolledBack(w', j, w.used) == w && RollbackTotals(t', j) == t
  {
    var b :| AppliedAs(env, w, b, trail, t, t', j);
    BlockIsUndone(env, w, b, trail, t, t', j);
    TrailMutations(env, w, b, trail, |b.txs|);
    var w' := trail[|b.txs|];
    assert w'.versions[..|w'.versions| - 1] == w.versions;
  }

  lemma RollbackReturns(env: Env, n: ChainNode, n': ChainNode)
    requires NodeOk(env, n) && RollsBack(n, n')
    ensures var k := |n.journals| - 1; n' == Shortened(n, n.run[n.starts[k]], n.before[k])
  {
    var k := |n.journals| - 1;
    NewestBlock(Applied(env), n);
    RunOutputsOk(env, n.run, n.starts[k]);
    AppliedIsUndone(env, n.run[n.starts[k]], n.run[n.starts[k] + 1..], n.before[k], n.totals, n.journals[k]);
  }

  /** A rollback leads exactly to where the block started: state, totals, governance, used ids and versions. */
  lemma RollbackKeepsOk(env: Env, n: ChainNode, n': ChainNode)
    requires NodeOk(env, n) && RollsBack(n, n')
    ensures NodeOk(env, n')
    ensures var k := |n.journals| - 1; n'.world == n.run[n.starts[k]] && n'.totals == n.before[k]
  {
    var k := |n.journals| - 1;
    RollbackReturns(env, n, n');
    RunPrefix(env, n.run, n.starts[k] + 1);
    ShortenedIsJournaled(Applied(env), n);
  }

  ghost predicate Progress(env: Env, n: ChainNode, n': ChainNode) {
    Extends(env, n, n') || RollsBack(n, n') || Trims(n, n')
  }

  ghost predicate NodeHistory(env: Env, nodes: seq<ChainNode>) {
    && nodes != []
    && Initial(env, nodes[0].world) && nodes[0] == NewNode(nodes[0].world, nodes[0].totals)
    && forall i :: 0 <= i < |nodes| - 1 ==> ProgressAt(env, nodes, i)
  }

  ghost predicate ProgressAt(env: Env, nodes: seq<ChainNode>, i: nat)
    requires i + 1 < |nodes|
  {
    Progress(env, nodes[i], nodes[i + 1])
  }

  /**
   * A node that extends, rolls back and extends again in any order, also across the activation of governance, is
   * always in a state some run without a rollback reaches; so everything proved of runs holds of it, across every
   * reorganization.
   */
  lemma ReorgsReachOnlyRunStates(env: Env, nodes: seq<ChainNode>, n: nat)
    requires NodeHistory(env, nodes) && n < |nodes|
    ensures NodeOk(env, nodes[n])
    ensures exists run :: IsRun(env, run) && run[|run| - 1] == nodes[n].world
  {
    HistoryKeepsOk(env, nodes, n);
    assert IsRun(env, nodes[n].run);
  }

  lemma {:induction false} HistoryKeepsOk(env: Env, nodes: seq<ChainNode>, n: nat)
    requires NodeHistory(env, nodes) && n < |nodes|
    ensures NodeOk(env, nodes[n])
  {
    if n == 0 {
      StartIsOk(env, nodes[0]);
    } else {
      HistoryKeepsOk(env, nodes, n - 1);
      assert ProgressAt(env, nodes, n - 1);
      ProgressKeepsOk(env, nodes[n - 1], nodes[n]);
    }
  }

  lemma StartIsOk(env: Env, n: ChainNode)
    requires Initial(env, n.world) && n == NewNode(n.world, n.totals)
    ensures NodeOk(env, n)
  {
  }

  lemma ProgressKeepsOk(env: Env, n: ChainNode, n': ChainNode)
    requires NodeOk(env, n) && Progress(env, n, n')
    ensures NodeOk(env, n')
  {
    if Extends(env, n, n') {
      var block, trail, t', j :| ExtendsBy(env, n, block, trail, t', j, n');
      ExtendKeepsOk(env, n, block, trail, t', j, n');
    } else if RollsBack(n, n') {
      RollbackKeepsOk(env, n, n');
    } else {
      TrimmedIsJournaled(Applied(env), n);
    }
  }

  // ---------------------------------------------- the staked supply over a history

  /** The recorded staked supply is the value of the stakeable outputs. */
  ghost function StakedExact(env: Env): (World, Totals) -> bool {
    (w: World, t: Totals) => t.staked == StakeIn(env, w.state.params, w.state.utxos)
  }

  ghost predicate StakeFits(env: Env, n: ChainNode) {
    StakeIn(env, n.world.state.params, n.world.state.utxos) <= U64_MAX
  }

  /** What holds after a block as it did before every journaled one holds throughout. */
  lemma ExtendKeeps(env: Env, good: (World, Totals) -> bool, n: ChainNode, b: Block, trail: seq<World>, t': Totals, j: Journal, n': ChainNode)
    requires NodeOk(env, n) && ExtendsBy(env, n, b, trail, t', j, n') && Throughout(good, n) && good(trail[|b.txs|], t')
    ensures Throughout(good, n')
  {
    ExtendedThroughout(Applied(env), good, n, trail, t', j);
  }

  /** A rollback or a trim keeps whatever holds throughout. */
  lemma OthersKeep(env: Env, good: (World, Totals) -> bool, n: ChainNode, n': ChainNode)
    requires NodeOk(env, n) && (RollsBack(n, n') || Trims(n, n')) && Throughout(good, n)
    ensures Throughout(good, n')
  {
    if RollsBack(n, n') {
      RollbackReturns(env, n, n');
      ShortenedThroughout(Applied(env), good, n);
    } else {
      TrimmedThroughout(good, n);
    }
  }

  lemma ExtendKeepsExact(env: Env, n: ChainNode, b: Block, trail: seq<World>, t': Totals, j: Journal, n': ChainNode)
    requires NodeOk(env, n) && ExtendsBy(env, n, b, trail, t', j, n') && Throughout(StakedExact(env), n) && StakeFits(env, n')
    ensures Throughout(StakedExact(env), n')
  {
    RunOutputsOk(env, n.run, |n.run| - 1);
    BlockKeepsStakedExactly(env, n.world, b, trail, n.totals, t');
    ExtendKeeps(env, StakedExact(env), n, b, trail, t', j, n');
  }

  lemma ProgressKeepsExact(env: Env, n: ChainNode, n': ChainNode)
    requires NodeOk(env, n) && Progress(env, n, n') && Throughout(StakedExact(env), n) && StakeFits(env, n')
    ensures Throughout(StakedExact(env), n')
  {
    if Extends(env, n, n') {
      var block, trail, t', j :| ExtendsBy(env, n, block, trail, t', j, n');
      ExtendKeepsExact(env, n, block, trail, t', j, n');
    } else {
      OthersKeep(env, StakedExact(env), n, n');
    }
  }

  lemma OneMoreExact(env: Env, nodes: seq<ChainNode>, n: nat)
    requires NodeHistory(env, nodes) && 0 < n < |nodes| && NodeOk(env, nodes[n - 1])
    requires Throughout(StakedExact(env), nodes[n - 1]) && StakeFits(env, nodes[n])
    ensures Throughout(StakedExact(env), nodes[n])
  {
    assert ProgressAt(env, nodes, n - 1);
    ProgressKeepsExact(env, nodes[n - 1], nodes[n]);
  }

  /**
   * Over every history of blocks, rollbacks and trims: the recorded staked supply is exactly the value of the
   * stakeable outputs, as long as that value has always fitted 64 bits.
   */
  lemma {:induction false} StakedSupplyIsExact(env: Env, nodes: seq<ChainNode>, n: nat)
    requires NodeHistory(env, nodes) && n < |nodes| && StakedExact(env)(nodes[0].world, nodes[0].totals)
    requires forall i :: 0 <= i <= n ==> StakeFits(env, nodes[i])
    ensures Throughout(StakedExact(env), nodes[n])
    ensures nodes[n].totals.staked == StakeIn(env, nodes[n].world.state.params, nodes[n].world.state.utxos)
    decreases n
  {
    if n > 0 {
      StakedSupplyIsExact(env, nodes, n - 1);
      HistoryKeepsOk(env, nodes, n - 1);
      assert StakeFits(env, nodes[n]);
      OneMoreExact(env, nodes, n);
    }
  }
}
