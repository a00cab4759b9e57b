/** What a scan finds, said of the blocks alone: the payments to the wallet that nothing later on the chain spends. */
module ScanMeaning {
  import opened Lineage
  import opened UtxoSet
  import opened Rescan

  // ------------------------------------------------------------------- a block

  /** None of the transactions from the `i`th on spends the outpoint. */
  ghost predicate NotSpentFrom(txs: seq<Tx>, i: nat, at: OutPoint) {
    forall j :: i <= j < |txs| ==> at !in txs[j].inputs
  }

  /** Transaction `i` pays the wallet at the outpoint, and no later one of the block spends it. */
  ghost predicate PaidIn(txs: seq<Tx>, mine: set<nat>, i: nat, at: OutPoint) {
    i < |txs| && PaysAt(txs[i], mine, at) && NotSpentFrom(txs, i + 1, at)
  }

  /** What a block leaves at an outpoint: the coin that was there if it spends it nowhere, or an output it pays there. */
  ghost predicate BlockLeaves(m: CoinMap, txs: seq<Tx>, height: nat, mine: set<nat>, m': CoinMap, at: OutPoint) {
    && (at in m' <==> (at in m && NotSpentFrom(txs, 0, at)) || exists i: nat :: PaidIn(txs, mine, i, at))
    && (at in m' ==> || (at in m && NotSpentFrom(txs, 0, at) && m'[at] == m[at])
                     || exists i: nat :: PaidIn(txs, mine, i, at) && CoinFrom(txs[i], height, at, m'[at]))
  }

  lemma {:induction false} BlockExactly(m: CoinMap, txs: seq<Tx>, height: nat, mine: set<nat>, at: OutPoint)
    ensures BlockLeaves(m, txs, height, mine, BlockMap(m, txs, height, mine), at)
  {
    if txs != [] {
      var n := |txs| - 1;
      var before := BlockMap(m, txs[..n], height, mine);
      BlockExactly(m, txs[..n], height, mine, at);
      TxMapExactly(before, txs[n], height, mine, {}, at);
      OneMoreTx(m, txs, height, mine, before, BlockMap(m, txs, height, mine), at);
    }
  }

  lemma OneMoreTx(m: CoinMap, txs: seq<Tx>, height: nat, mine: set<nat>, before: CoinMap, after: CoinMap, at: OutPoint)
    requires txs != [] && BlockLeaves(m, txs[..|txs| - 1], height, mine, before, at)
    requires TxLeaves(before, txs[|txs| - 1], height, mine, {}, after, at)
    ensures BlockLeaves(m, txs, height, mine, after, at)
  {
    var n := |txs| - 1;
    var last := txs[n];
    assert NotSpentFrom(txs, 0, at) <==> NotSpentFrom(txs[..n], 0, at) && at !in last.inputs;
    forall i: nat | i < n ensures PaidIn(txs, mine, i, at) <==> PaidIn(txs[..n], mine, i, at) && at !in last.inputs {
      assert NotSpentFrom(txs, i + 1, at) <==> NotSpentFrom(txs[..n], i + 1, at) && at !in last.inputs;
    }
    assert PaidIn(txs, mine, n, at) <==> PaysAt(last, mine, at);
    if at in before && at !in last.inputs && !(at in m && NotSpentFrom(txs[..n], 0, at) && before[at] == m[at]) {
      var i: nat :| PaidIn(txs[..n], mine, i, at) && CoinFrom(txs[..n][i], height, at, before[at]);
      assert PaidIn(txs, mine, i, at) && CoinFrom(txs[i], height, at, after[at]);
    }
  }

  // ----------------------------------------------------------------- a lineage

  /** No block of the lineage of `h` above height `from` spends the outpoint. */
  ghost predicate NotSpentAbove(bodies: Bodies, h: Hash, from: nat, at: OutPoint) {
    forall b :: IsAncestor(b, h) && from < Height(b) ==> NotSpentFrom(bodies(b), 0, at)
  }

  /** Transaction `i` of block `b`, on the lineage of `h` from the birthday on, pays the wallet and is never spent. */
  ghost predicate PaidOn(bodies: Bodies, mine: set<nat>, h: Hash, birthday: nat, b: Hash, i: nat, at: OutPoint) {
    && IsAncestor(b, h) && birthday <= Height(b)
    && PaidIn(bodies(b), mine, i, at) && NotSpentAbove(bodies, h, Height(b), at)
  }

  ghost predicate ScanFinds(bodies: Bodies, mine: set<nat>, h: Hash, birthday: nat, m: CoinMap, at: OutPoint) {
    && (at in m <==> exists b, i: nat :: PaidOn(bodies, mine, h, birthday, b, i, at))
    && (at in m ==> exists b, i: nat :: PaidOn(bodies, mine, h, birthday, b, i, at) && CoinFrom(bodies(b)[i], Height(b), at, m[at]))
  }

  /**
   * A scan from scratch holds an outpoint exactly if some transaction on the chain, from the birthday on, pays the
   * wallet there and nothing later on the chain spends it; and every coin it holds has the value, address and height of
   * such a payment.
   */
  lemma {:induction false} FreshScanExactly(bodies: Bodies, mine: set<nat>, h: Hash, birthday: nat, at: OutPoint)
    ensures ScanFinds(bodies, mine, h, birthday, FreshScan(bodies, mine, h, birthday), at)
    decreases h
  {
    if Height(h) < birthday {
      NothingBefore(bodies, mine, h, birthday, at);
    } else {
      var before: CoinMap := if Height(h) == birthday || !h.Of? then map[] else FreshScan(bodies, mine, h.header.prev, birthday);
      BlockExactly(before, bodies(h), Height(h), mine, at);
      if Height(h) == birthday || !h.Of? {
        FirstBlock(bodies, mine, h, birthday, FreshScan(bodies, mine, h, birthday), at);
      } else {
        FreshScanExactly(bodies, mine, h.header.prev, birthday, at);
        OneMoreBlock(bodies, mine, h, birthday, before, FreshScan(bodies, mine, h, birthday), at);
      }
    }
  }

  lemma NothingBefore(bodies: Bodies, mine: set<nat>, h: Hash, birthday: nat, at: OutPoint)
    requires Height(h) < birthday
    ensures ScanFinds(bodies, mine, h, birthday, map[], at)
  {
    forall b, i: nat ensures !PaidOn(bodies, mine, h, birthday, b, i, at) {
      if IsAncestor(b, h) { AncestorIsAt(b, h); }
    }
  }

  /** The block itself is the only one of its lineage at its height. */
  lemma NotSpentAboveTip(bodies: Bodies, h: Hash, at: OutPoint)
    ensures NotSpentAbove(bodies, h, Height(h), at)
  {
    forall b | IsAncestor(b, h) ensures Height(b) <= Height(h) { AncestorIsAt(b, h); }
  }

  lemma FirstBlock(bodies: Bodies, mine: set<nat>, h: Hash, birthday: nat, m: CoinMap, at: OutPoint)
    requires birthday <= Height(h) && (Height(h) == birthday || !h.Of?)
    requires BlockLeaves(map[], bodies(h), Height(h), mine, m, at)
    ensures ScanFinds(bodies, mine, h, birthday, m, at)
  {
    NotSpentAboveTip(bodies, h, at);
    forall b, i: nat | PaidOn(bodies, mine, h, birthday, b, i, at) ensures b == h { AncestorIsAt(b, h); }
    if at in m {
      var i: nat :| PaidIn(bodies(h), mine, i, at) && CoinFrom(bodies(h)[i], Height(h), at, m[at]);
      assert PaidOn(bodies, mine, h, birthday, h, i, at);
    }
  }

  /** A payment on the lineage below is one on the whole lineage exactly if the new block does not spend it. */
  lemma PaidBelow(bodies: Bodies, mine: set<nat>, h: Hash, birthday: nat, b: Hash, i: nat, at: OutPoint)
    requires h.Of? && IsAncestor(b, h.header.prev)
    ensures PaidOn(bodies, mine, h, birthday, b, i, at)
       <==> PaidOn(bodies, mine, h.header.prev, birthday, b, i, at) && NotSpentFrom(bodies(h), 0, at)
  {
    AncestorIsAt(b, h.header.prev);
    if NotSpentAbove(bodies, h, Height(b), at) {
      assert IsAncestor(h, h);
      forall c | IsAncestor(c, h.header.prev) && Height(b) < Height(c) ensures NotSpentFrom(bodies(c), 0, at) { assert IsAncestor(c, h); }
    }
  }

  lemma OneMoreBlock(bodies: Bodies, mine: set<nat>, h: Hash, birthday: nat, before: CoinMap, after: CoinMap, at: OutPoint)
    requires h.Of? && birthday < Height(h) && ScanFinds(bodies, mine, h.header.prev, birthday, before, at)
    requires BlockLeaves(before, bodies(h), Height(h), mine, after, at)
    ensures ScanFinds(bodies, mine, h, birthday, after, at)
  {
    NotSpentAboveTip(bodies, h, at);
    forall b, i: nat | PaidOn(bodies, mine, h, birthday, b, i, at) ensures at in after {
      if b != h {
        PaidBelow(bodies, mine, h, birthday, b, i, at);
      }
    }
    if at in after {
      if at in before && NotSpentFrom(bodies(h), 0, at) && after[at] == before[at] {
        var b, i: nat :| PaidOn(bodies, mine, h.header.prev, birthday, b, i, at) && CoinFrom(bodies(b)[i], Height(b), at, before[at]);
        PaidBelow(bodies, mine, h, birthday, b, i, at);
      } else {
        var i: nat :| PaidIn(bodies(h), mine, i, at) && CoinFrom(bodies(h)[i], Height(h), at, after[at]);
        assert PaidOn(bodies, mine, h, birthday, h, i, at);
      }
    }
  }
}
