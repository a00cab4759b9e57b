/** Which transactions the ledger accepts and what each leaves, said of the state alone. */
module LedgerPolicy {
  import opened Machine
  import opened GovernanceTypes
  import opened GovernanceRules
  import opened GovernancePolicy
  import opened Ledger

  predicate Live(g: Gov, at: OutPoint, height: u32) { at in g.locks && height < g.locks[at].unlockHeight }

  /** A coinstake has one input and a claim none; every input is unspent and named once. */
  predicate InputsStand(s: State, tx: Transaction) {
    && (tx.kind == Coinstake ==> |tx.inputs| == 1) && (tx.kind == LegacyClaim ==> |tx.inputs| == 0)
    && (tx.kind != Coinbase ==>
          && (forall i :: 0 <= i < |tx.inputs| ==> tx.inputs[i] in s.utxos)
          && (forall i, j :: 0 <= i < j < |tx.inputs| ==> tx.inputs[i] != tx.inputs[j]))
  }

  /** The governance state after the outputs of a transaction: they count only while governance is active. */
  ghost predicate OutputsRead(env: Env, s: State, tx: Transaction, totalStaked: u64, g: Gov) {
    if s.active then
      exists states :: AllTaken(env, Context(s.height, s.timestamp, s.utxos, s.params, totalStaked), tx.outputs, states) && LeadsTo(states, s.gov, g)
    else g == s.gov
  }

  /** An output is made: data carriers are not, but for the distribution at genesis. */
  predicate Makes(env: Env, s: State, tx: Transaction, at: OutPoint) {
    && at.txid == tx.txid && at.vout < |tx.outputs|
    && (env.classify(tx.outputs[at.vout].script) == OpReturn ==> s.height == 0 && tx.kind == LegacyClaim)
  }

  /** What is unspent afterwards: what was and is not spent, and what is made. */
  ghost predicate UnspentAt(env: Env, s: State, tx: Transaction, utxos: UtxoMap, at: OutPoint) {
    var stays := at in s.utxos && (tx.kind == Coinbase || at !in tx.inputs);
    && (at in utxos <==> stays || Makes(env, s, tx, at))
    && (Makes(env, s, tx, at) ==>
          utxos[at] == Utxo(at, tx.outputs[at.vout].value, tx.outputs[at.vout].script, s.height, s.timestamp))
    && (stays && !Makes(env, s, tx, at) ==> utxos[at] == s.utxos[at])
  }

  /** Locked stake leaves its output only by a coinstake that returns it whole, and then the lock goes with it. */
  ghost predicate LocksKept(env: Env, s: State, tx: Transaction, g: Gov, g': Gov)
    requires InputsStand(s, tx)
  {
    if tx.kind == Coinstake then
      var u := s.utxos[tx.inputs[0]];
      && (env.classify(u.script) == P2PKH || env.classify(u.script) == P2CS) && s.params.minStakeAmount <= u.value
      && (if s.active && Live(g, u.outpoint, s.height) then exists i :: Returns(tx, u, i) && LockMoved(g, u, tx.txid, i, g')
          else g' == g)
    else
      && (s.active && tx.kind != Coinbase ==> forall i :: 0 <= i < |tx.inputs| ==> !Live(g, tx.inputs[i], s.height))
      && g' == g
  }

  /** A transaction accepted by way of the governance state `g`. */
  ghost predicate AcceptedBy(env: Env, s: State, tx: Transaction, totalStaked: u64, g: Gov, s': State) {
    && InputsStand(s, tx) && OutputsRead(env, s, tx, totalStaked, g) && LocksKept(env, s, tx, g, s'.gov)
    && (forall at :: UnspentAt(env, s, tx, s'.utxos, at))
    && s' == s.(gov := s'.gov, utxos := s'.utxos)
  }

  lemma ReadExactly(env: Env, s: State, tx: Transaction, totalStaked: u64, g: Gov)
    ensures OutputsRead(env, s, tx, totalStaked, g) <==> Processed(env, s, tx, totalStaked) == Outcome(g, None)
  {
    if s.active { TransactionExactly(env, s.gov, ContextOf(s, totalStaked), tx.outputs, g); }
  }

  lemma UnspentExactly(env: Env, s: State, tx: Transaction, utxos: UtxoMap)
    ensures utxos == s.utxos - Spent(tx) + Created(env, tx, s.height, s.timestamp) <==> forall at :: UnspentAt(env, s, tx, utxos, at)
  {
    var left, made := s.utxos - Spent(tx), Created(env, tx, s.height, s.timestamp);
    forall at ensures at in made <==> Makes(env, s, tx, at) {}
    if forall at :: UnspentAt(env, s, tx, utxos, at) {
      forall at ensures Lookup(utxos, at) == Lookup(left + made, at) { assert UnspentAt(env, s, tx, utxos, at); }
      LookupExtensional(utxos, left + made);
    }
  }

  lemma SpendExactly(env: Env, s: State, tx: Transaction, g: Gov, g': Gov)
    requires InputsStand(s, tx)
    ensures LocksKept(env, s, tx, g, g') <==>
            && CanSpend(if s.active then g.locks else map[], s.utxos, tx, s.height)
            && (tx.kind != Coinstake ==> g' == g)
            && (tx.kind == Coinstake ==>
                  && IsStakeable(env, s.params, s.utxos[tx.inputs[0]])
                  && Outcome(g', None) == if s.active then TransferLock(g, tx, s.utxos[tx.inputs[0]], s.height) else Outcome(g, None))
  {
    if tx.kind == Coinstake {
      var u := s.utxos[tx.inputs[0]];
      TransferExactly(g, tx, u, s.height);
      forall i: nat | Returns(tx, u, i) && Live(g, u.outpoint, s.height) && LockMoved(g, u, tx.txid, i, g')
        ensures TransferLock(g, tx, u, s.height) == Outcome(g', None)
      {
        SameMove(g, u, tx.txid, i, g', TransferLock(g, tx, u, s.height).gov);
      }
    }
  }

  lemma SameMove(g: Gov, u: Utxo, txid: Txid, i: nat, a: Gov, b: Gov)
    requires u.outpoint in g.locks && LockMoved(g, u, txid, i, a) && LockMoved(g, u, txid, i, b)
    ensures a == b
  {
  }

  /** A transaction is accepted exactly if it stands in each of these respects, and leaves exactly what they say. */
  lemma AcceptedExactly(env: Env, s: State, tx: Transaction, totalStaked: u64, s': State)
    ensures ApplyTx(env, s, tx, totalStaked) == Some(s') <==> exists g :: AcceptedBy(env, s, tx, totalStaked, g, s')
  {
    var r := Processed(env, s, tx, totalStaked);
    forall g ensures OutputsRead(env, s, tx, totalStaked, g) <==> r == Outcome(g, None) { ReadExactly(env, s, tx, totalStaked, g); }
    UnspentExactly(env, s, tx, s'.utxos);
    if InputsStand(s, tx) { SpendExactly(env, s, tx, r.gov, s'.gov); }
    if ApplyTx(env, s, tx, totalStaked) == Some(s') {
      assert AcceptedBy(env, s, tx, totalStaked, r.gov, s');
    }
  }
}
