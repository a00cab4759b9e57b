/** Scanning blocks into the wallet, and what a rollback to a fork followed by a rescan is worth. */
module Rescan {
  import opened Machine
  import opened Arithmetic
  import opened Lineage
  import opened UtxoSet

  /** An output with the address its script pays, and a transaction with its id. */
  datatype TxOut = TxOut(value: u64, address: nat)
  datatype Tx = Tx(txid: nat, inputs: seq<OutPoint>, outputs: seq<TxOut>)

  type CoinMap = map<OutPoint, Coin>

  function CoinOf(tx: Tx, i: nat, height: nat): Coin
    requires i < |tx.outputs|
  {
    Coin(OutPoint(tx.txid, i), tx.outputs[i].value, tx.outputs[i].address, height)
  }

  /** The first `n` outputs that pay the wallet and are not reserved. */
  function FoundBelow(tx: Tx, height: nat, mine: set<nat>, reserved: set<OutPoint>, n: nat): CoinMap
    requires n <= |tx.outputs|
  {
    map i | 0 <= i < n && tx.outputs[i].address in mine && OutPoint(tx.txid, i) !in reserved ::
      OutPoint(tx.txid, i) := CoinOf(tx, i, height)
  }

  function Found(tx: Tx, height: nat, mine: set<nat>, reserved: set<OutPoint>): CoinMap {
    FoundBelow(tx, height, mine, reserved, |tx.outputs|)
  }

  /** One transaction: spent coins go, found coins come, a coin already there stays as it is. */
  function TxMap(m: CoinMap, tx: Tx, height: nat, mine: set<nat>, reserved: set<OutPoint>): CoinMap {
    Found(tx, height, mine, reserved - Elements(tx.inputs)) + (m - Elements(tx.inputs))
  }

  /** A transaction pays one of the addresses at this outpoint. */
  predicate PaysAt(tx: Tx, mine: set<nat>, at: OutPoint) {
    at.txid == tx.txid && at.vout < |tx.outputs| && tx.outputs[at.vout].address in mine
  }

  /** A coin is the output it names, found at this height. */
  predicate CoinFrom(tx: Tx, height: nat, at: OutPoint, coin: Coin) {
    && at.vout < |tx.outputs| && coin.outpoint == at && coin.height == height
    && coin.value == tx.outputs[at.vout].value && coin.address == tx.outputs[at.vout].address
  }

  /** What one transaction leaves at an outpoint: the coin that was there and is not spent, or the output paid there. */
  ghost predicate TxLeaves(m: CoinMap, tx: Tx, height: nat, mine: set<nat>, reserved: set<OutPoint>, m': CoinMap, at: OutPoint) {
    var stays, comes := at in m && at !in tx.inputs, PaysAt(tx, mine, at) && (at !in reserved || at in tx.inputs);
    && (at in m' <==> stays || comes)
    && (stays ==> m'[at] == m[at])
    && (!stays && comes ==> CoinFrom(tx, height, at, m'[at]))
  }

  lemma TxMapExactly(m: CoinMap, tx: Tx, height: nat, mine: set<nat>, reserved: set<OutPoint>, at: OutPoint)
    ensures TxLeaves(m, tx, height, mine, reserved, TxMap(m, tx, height, mine, reserved), at)
  {
  }

  lemma FoundStep(tx: Tx, height: nat, mine: set<nat>, reserved: set<OutPoint>, n: nat, m: CoinMap, m': CoinMap)
    requires n < |tx.outputs|
    requires m' == if OutPoint(tx.txid, n) in reserved || OutPoint(tx.txid, n) in FoundBelow(tx, height, mine, reserved, n) + m
                        || tx.outputs[n].address !in mine
                   then FoundBelow(tx, height, mine, reserved, n) + m
                   else (FoundBelow(tx, height, mine, reserved, n) + m)[OutPoint(tx.txid, n) := CoinOf(tx, n, height)]
    ensures m' == FoundBelow(tx, height, mine, reserved, n + 1) + m
  {
  }

  lemma InputsStep(inputs: seq<OutPoint>, n: nat)
    requires n < |inputs|
    ensures Elements(inputs[..n + 1]) == Elements(inputs[..n]) + {inputs[n]}
  {
    assert inputs[..n + 1] == inputs[..n] + [inputs[n]];
    ElementsSnoc(inputs[..n], inputs[n]);
  }

  /** `record_matching_outputs`: spends first, then every output for every address. */
  method RecordMatchingOutputs(coins: UtxoSet, tx: Tx, height: nat, addresses: seq<nat>)
    requires coins.Valid()
    modifies coins
    ensures coins.Valid()
    ensures var mine := set a | a in addresses;
            MapOf(coins.utxos) == TxMap(MapOf(old(coins.utxos)), tx, height, mine, old(coins.reserved))
    ensures var mine := set a | a in addresses;
            forall at :: TxLeaves(MapOf(old(coins.utxos)), tx, height, mine, old(coins.reserved), MapOf(coins.utxos), at)
    ensures coins.reserved == old(coins.reserved) - Elements(tx.inputs)
  {
    ghost var m, reserved, mine := MapOf(coins.utxos), coins.reserved, set a | a in addresses;
    RecordSpends(coins, tx.inputs);
    RecordOutputs(coins, tx, height, addresses);
    forall at ensures TxLeaves(m, tx, height, mine, reserved, MapOf(coins.utxos), at) {
      TxMapExactly(m, tx, height, mine, reserved, at);
    }
  }

  method RecordOutputs(coins: UtxoSet, tx: Tx, height: nat, addresses: seq<nat>)
    requires coins.Valid()
    modifies coins
    ensures coins.Valid() && coins.reserved == old(coins.reserved)
    ensures var mine := set a | a in addresses;
            MapOf(coins.utxos) == Found(tx, height, mine, coins.reserved) + MapOf(old(coins.utxos))
  {
    var mine := set a | a in addresses;
    ghost var left, reserved := MapOf(coins.utxos), coins.reserved;
    var n := 0;
    while n < |tx.outputs|
      invariant 0 <= n <= |tx.outputs| && coins.Valid() && coins.reserved == reserved
      invariant MapOf(coins.utxos) == FoundBelow(tx, height, mine, reserved, n) + left
    {
      RecordOutput(coins, CoinOf(tx, n, height), addresses);
      FoundStep(tx, height, mine, reserved, n, left, MapOf(coins.utxos));
      n := n + 1;
    }
  }

  method RecordSpends(coins: UtxoSet, inputs: seq<OutPoint>)
    requires coins.Valid()
    modifies coins
    ensures coins.Valid()
    ensures MapOf(coins.utxos) == MapOf(old(coins.utxos)) - Elements(inputs)
    ensures coins.reserved == old(coins.reserved) - Elements(inputs)
  {
    var k := 0;
    assert Elements(inputs[..0]) == {};
    while k < |inputs|
      invariant 0 <= k <= |inputs| && coins.Valid()
      invariant MapOf(coins.utxos) == MapOf(old(coins.utxos)) - Elements(inputs[..k])
      invariant coins.reserved == old(coins.reserved) - Elements(inputs[..k])
    {
      InputsStep(inputs, k);
      var noted := coins.NoteSpend(inputs[k]);
      coins.Remove(inputs[k]);
      k := k + 1;
    }
    assert inputs[..k] == inputs;
  }

  /** The inner loop over the wallet's addresses: a coin is added for each that matches, but only once. */
  method RecordOutput(coins: UtxoSet, coin: Coin, addresses: seq<nat>)
    requires coins.Valid()
    modifies coins`utxos
    ensures coins.Valid()
    ensures MapOf(coins.utxos) ==
      if coin.outpoint in coins.reserved || coin.outpoint in MapOf(old(coins.utxos)) || coin.address !in addresses
      then MapOf(old(coins.utxos)) else MapOf(old(coins.utxos))[coin.outpoint := coin]
  {
    var k := 0;
    while k < |addresses|
      invariant 0 <= k <= |addresses| && coins.Valid()
      invariant MapOf(coins.utxos) ==
        if coin.outpoint in coins.reserved || coin.outpoint in MapOf(old(coins.utxos)) || coin.address !in addresses[..k]
        then MapOf(old(coins.utxos)) else MapOf(old(coins.utxos))[coin.outpoint := coin]
    {
      assert addresses[..k + 1] == addresses[..k] + [addresses[k]];
      if addresses[k] == coin.address { coins.Add(coin); }
      k := k + 1;
    }
    assert addresses[..k] == addresses;
  }

  // ------------------------------------------------------------ scanning blocks

  /** What a wallet holds: its spendable coins, and the outpoints it has reserved. */
  datatype Held = Held(coins: CoinMap, reserved: set<OutPoint>)

  function TxHeld(w: Held, tx: Tx, height: nat, mine: set<nat>): Held {
    Held(TxMap(w.coins, tx, height, mine, w.reserved), w.reserved - Elements(tx.inputs))
  }

  function BlockHeld(w: Held, txs: seq<Tx>, height: nat, mine: set<nat>): Held {
    if txs == [] then w else TxHeld(BlockHeld(w, txs[..|txs| - 1], height, mine), txs[|txs| - 1], height, mine)
  }

  /** The same without reservations. */
  function BlockMap(m: CoinMap, txs: seq<Tx>, height: nat, mine: set<nat>): CoinMap {
    if txs == [] then m
    else TxMap(BlockMap(m, txs[..|txs| - 1], height, mine), txs[|txs| - 1], height, mine, {})
  }

  function BlockSpends(txs: seq<Tx>): set<OutPoint> {
    if txs == [] then {} else BlockSpends(txs[..|txs| - 1]) + Elements(txs[|txs| - 1].inputs)
  }

  /** The bodies of all blocks, by hash. */
  type Bodies = Hash -> seq<Tx>

  /** Scan the blocks of the lineage of `h` above height `from`, upwards. */
  function ScanAbove(bodies: Bodies, mine: set<nat>, m: CoinMap, h: Hash, from: nat): CoinMap {
    if Height(h) <= from then m
    else BlockMap(ScanAbove(bodies, mine, m, h.header.prev, from), bodies(h), Height(h), mine)
  }

  function ScanHeld(bodies: Bodies, mine: set<nat>, w: Held, h: Hash, from: nat): Held {
    if Height(h) <= from then w
    else BlockHeld(ScanHeld(bodies, mine, w, h.header.prev, from), bodies(h), Height(h), mine)
  }

  lemma {:induction false} BlockHeldFree(m: CoinMap, txs: seq<Tx>, height: nat, mine: set<nat>)
    ensures BlockHeld(Held(m, {}), txs, height, mine) == Held(BlockMap(m, txs, height, mine), {})
  {
    if txs != [] { BlockHeldFree(m, txs[..|txs| - 1], height, mine); }
  }

  lemma {:induction false} ScanHeldFree(bodies: Bodies, mine: set<nat>, m: CoinMap, h: Hash, from: nat)
    ensures ScanHeld(bodies, mine, Held(m, {}), h, from) == Held(ScanAbove(bodies, mine, m, h, from), {})
  {
    if Height(h) > from {
      ScanHeldFree(bodies, mine, m, h.header.prev, from);
      BlockHeldFree(ScanAbove(bodies, mine, m, h.header.prev, from), bodies(h), Height(h), mine);
    }
  }

  function SpentAbove(bodies: Bodies, h: Hash, from: nat): set<OutPoint> {
    if Height(h) <= from then {} else SpentAbove(bodies, h.header.prev, from) + BlockSpends(bodies(h))
  }

  /** The wallet a scan of the whole lineage from height `birthday` finds. */
  function FreshScan(bodies: Bodies, mine: set<nat>, h: Hash, birthday: nat): CoinMap {
    if Height(h) < birthday then map[]
    else if Height(h) == birthday || !h.Of? then BlockMap(map[], bodies(h), Height(h), mine)
    else BlockMap(FreshScan(bodies, mine, h.header.prev, birthday), bodies(h), Height(h), mine)
  }

  lemma {:induction false} FreshScanSplits(bodies: Bodies, mine: set<nat>, h: Hash, birthday: nat, from: nat)
    requires from <= Height(h) && birthday <= from + 1
    ensures FreshScan(bodies, mine, h, birthday)
         == ScanAbove(bodies, mine, FreshScan(bodies, mine, AncestorAt(h, from), birthday), h, from)
  {
    if from < Height(h) {
      FreshScanSplits(bodies, mine, h.header.prev, birthday, from);
      if Height(h) == birthday {
        assert FreshScan(bodies, mine, h.header.prev, birthday) == map[];
      }
    }
  }

  /** A coin that was there before and is never spent stays as it is; every other coin is new. */
  ghost predicate Carried(m: CoinMap, m': CoinMap, spent: set<OutPoint>, from: nat, at: OutPoint) {
    && (at in m && at !in spent ==> at in m' && m'[at] == m[at])
    && (at in m' && !(at in m && at !in spent) ==> m'[at].height > from)
  }

  lemma {:induction false} BlockCarries(m: CoinMap, txs: seq<Tx>, height: nat, mine: set<nat>, from: nat, at: OutPoint)
    requires from < height
    ensures Carried(m, BlockMap(m, txs, height, mine), BlockSpends(txs), from, at)
  {
    if txs != [] {
      BlockCarries(m, txs[..|txs| - 1], height, mine, from, at);
    }
  }

  lemma {:induction false} ScanCarries(bodies: Bodies, mine: set<nat>, m: CoinMap, h: Hash, from: nat, at: OutPoint)
    ensures Carried(m, ScanAbove(bodies, mine, m, h, from), SpentAbove(bodies, h, from), from, at)
  {
    if Height(h) > from {
      ScanCarries(bodies, mine, m, h.header.prev, from, at);
      BlockCarries(ScanAbove(bodies, mine, m, h.header.prev, from), bodies(h), Height(h), mine, from, at);
    }
  }

  /** Which outpoints a scan holds, split into what it kept and what it found. */
  lemma {:induction false} BlockKeys(m: CoinMap, txs: seq<Tx>, height: nat, mine: set<nat>)
    ensures BlockMap(m, txs, height, mine).Keys
         == (m.Keys - BlockSpends(txs)) + BlockMap(map[], txs, height, mine).Keys
  {
    if txs != [] {
      BlockKeys(m, txs[..|txs| - 1], height, mine);
    }
  }

  lemma {:induction false} ScanKeys(bodies: Bodies, mine: set<nat>, m: CoinMap, h: Hash, from: nat)
    ensures ScanAbove(bodies, mine, m, h, from).Keys
         == (m.Keys - SpentAbove(bodies, h, from)) + ScanAbove(bodies, mine, map[], h, from).Keys
  {
    if Height(h) > from {
      ScanKeys(bodies, mine, m, h.header.prev, from);
      BlockKeys(ScanAbove(bodies, mine, m, h.header.prev, from), bodies(h), Height(h), mine);
      BlockKeys(ScanAbove(bodies, mine, map[], h.header.prev, from), bodies(h), Height(h), mine);
    }
  }

  lemma {:induction false} BlockHeldKeys(w: Held, txs: seq<Tx>, height: nat, mine: set<nat>)
    requires w.coins.Keys !! w.reserved
    ensures var w' := BlockHeld(w, txs, height, mine);
            w'.reserved == w.reserved - BlockSpends(txs) && w'.coins.Keys == BlockMap(w.coins, txs, height, mine).Keys - w'.reserved
  {
    if txs != [] {
      var n := |txs| - 1;
      BlockHeldKeys(w, txs[..n], height, mine);
      TxHeldKeys(BlockHeld(w, txs[..n], height, mine), BlockMap(w.coins, txs[..n], height, mine), txs[n], height, mine);
    }
  }

  lemma TxHeldKeys(w: Held, m: CoinMap, tx: Tx, height: nat, mine: set<nat>)
    requires w.coins.Keys == m.Keys - w.reserved
    ensures TxHeld(w, tx, height, mine).coins.Keys == TxMap(m, tx, height, mine, {}).Keys - TxHeld(w, tx, height, mine).reserved
  {
    var inputs := Elements(tx.inputs);
    var found, all := Found(tx, height, mine, w.reserved - inputs), Found(tx, height, mine, {} - inputs);
    assert found.Keys == all.Keys - (w.reserved - inputs);
  }

  /** Reservations take away from a scan exactly the outpoints that are still reserved at its end. */
  lemma {:induction false} ScanHeldKeys(bodies: Bodies, mine: set<nat>, w: Held, h: Hash, from: nat)
    requires w.coins.Keys !! w.reserved
    ensures var w' := ScanHeld(bodies, mine, w, h, from);
            && w'.reserved == w.reserved - SpentAbove(bodies, h, from)
            && w'.coins.Keys == ScanAbove(bodies, mine, w.coins, h, from).Keys - w'.reserved
  {
    if Height(h) > from {
      ScanHeldKeys(bodies, mine, w, h.header.prev, from);
      var v, m := ScanHeld(bodies, mine, w, h.header.prev, from), ScanAbove(bodies, mine, w.coins, h.header.prev, from);
      BlockHeldKeys(v, bodies(h), Height(h), mine);
      BlockKeys(v.coins, bodies(h), Height(h), mine);
      BlockKeys(m, bodies(h), Height(h), mine);
    }
  }

  /** Rolling the old branch back leaves exactly the coins of the common part that it did not spend. */
  lemma RollbackLeaves(bodies: Bodies, mine: set<nat>, m: CoinMap, old': Hash, fork: nat)
    requires forall at :: at in m ==> m[at].height <= fork
    ensures Below(ScanAbove(bodies, mine, m, old', fork), fork) == m - SpentAbove(bodies, old', fork)
  {
    var scanned := ScanAbove(bodies, mine, m, old', fork);
    forall at ensures at in Below(scanned, fork) <==> at in m - SpentAbove(bodies, old', fork) {
      ScanCarries(bodies, mine, m, old', fork, at);
    }
    forall at | at in Below(scanned, fork) ensures Below(scanned, fork)[at] == (m - SpentAbove(bodies, old', fork))[at] {
      ScanCarries(bodies, mine, m, old', fork, at);
    }
  }

  lemma {:induction false} BlockHeights(m: CoinMap, txs: seq<Tx>, height: nat, mine: set<nat>, at: OutPoint)
    ensures at in BlockMap(m, txs, height, mine) ==>
              BlockMap(m, txs, height, mine)[at].height == height || (at in m && BlockMap(m, txs, height, mine)[at] == m[at])
  {
    if txs != [] {
      BlockHeights(m, txs[..|txs| - 1], height, mine, at);
    }
  }

  lemma {:induction false} FreshScanHeights(bodies: Bodies, mine: set<nat>, h: Hash, birthday: nat, at: OutPoint)
    ensures at in FreshScan(bodies, mine, h, birthday) ==> FreshScan(bodies, mine, h, birthday)[at].height <= Height(h)
  {
    if Height(h) >= birthday {
      if Height(h) == birthday || !h.Of? {
        BlockHeights(map[], bodies(h), Height(h), mine, at);
      } else {
        FreshScanHeights(bodies, mine, h.header.prev, birthday, at);
        BlockHeights(FreshScan(bodies, mine, h.header.prev, birthday), bodies(h), Height(h), mine, at);
      }
    }
  }

  // ----------------------------------------------------------- whole coins

  function BlockCreates(txs: seq<Tx>): set<OutPoint> {
    if txs == [] then {}
    else
      var tx := txs[|txs| - 1];
      BlockCreates(txs[..|txs| - 1]) + set i | 0 <= i < |tx.outputs| :: OutPoint(tx.txid, i)
  }

  function CreatedAbove(bodies: Bodies, h: Hash, from: nat): set<OutPoint> {
    if Height(h) <= from then {} else CreatedAbove(bodies, h.header.prev, from) + BlockCreates(bodies(h))
  }

  /** `a` is part of `b`, and what it lacks is among `lacking`. */
  ghost predicate PartOf(a: CoinMap, b: CoinMap, lacking: set<OutPoint>) {
    && (forall at :: at in a ==> at in b && a[at] == b[at])
    && (forall at :: at in b && at !in a ==> at in lacking)
  }

  lemma {:induction false} BlockKeepsPart(a: CoinMap, b: CoinMap, lacking: set<OutPoint>, txs: seq<Tx>, height: nat, mine: set<nat>)
    requires PartOf(a, b, lacking) && lacking !! BlockCreates(txs)
    ensures PartOf(BlockMap(a, txs, height, mine), BlockMap(b, txs, height, mine), lacking)
  {
    if txs != [] {
      var n := |txs| - 1;
      BlockKeepsPart(a, b, lacking, txs[..n], height, mine);
      forall at | at in Found(txs[n], height, mine, {} - Elements(txs[n].inputs)) ensures at !in lacking {
        assert at in BlockCreates(txs);
      }
    }
  }

  lemma {:induction false} ScanKeepsPart(bodies: Bodies, mine: set<nat>, a: CoinMap, b: CoinMap, lacking: set<OutPoint>, h: Hash, from: nat)
    requires PartOf(a, b, lacking) && lacking !! CreatedAbove(bodies, h, from)
    ensures PartOf(ScanAbove(bodies, mine, a, h, from), ScanAbove(bodies, mine, b, h, from), lacking)
  {
    if Height(h) > from {
      ScanKeepsPart(bodies, mine, a, b, lacking, h.header.prev, from);
      BlockKeepsPart(ScanAbove(bodies, mine, a, h.header.prev, from), ScanAbove(bodies, mine, b, h.header.prev, from),
                     lacking, bodies(h), Height(h), mine);
    }
  }

  /**
   * Where the new branch creates no outpoint that is already in the common part (section "Specification" of
   * BIP 30), the rescan agrees with the fresh scan on value, address and height of every coin it holds.
   */
  lemma RescanCoinsAgree(bodies: Bodies, mine: set<nat>, old': Hash, best: Hash, fork: nat, birthday: nat)
    requires Rooted(old') && Rooted(best) && fork <= MeetHeight(old', best) && birthday <= fork + 1
    requires FreshScan(bodies, mine, AncestorAt(best, fork), birthday).Keys !! CreatedAbove(bodies, best, fork)
    ensures var rescanned := ScanAbove(bodies, mine, Below(FreshScan(bodies, mine, old', birthday), fork), best, fork);
            var scratch := FreshScan(bodies, mine, best, birthday);
            forall at :: at in rescanned ==> at in scratch && rescanned[at] == scratch[at]
  {
    var m := FreshScan(bodies, mine, AncestorAt(best, fork), birthday);
    CommonScan(bodies, mine, old', best, fork, birthday);
    ScanKeepsPart(bodies, mine, m - SpentAbove(bodies, old', fork), m, m.Keys, best, fork);
  }

  /** What both branches start from. */
  lemma CommonScan(bodies: Bodies, mine: set<nat>, old': Hash, best: Hash, fork: nat, birthday: nat)
    requires Rooted(old') && Rooted(best) && fork <= MeetHeight(old', best) && birthday <= fork + 1
    ensures var m := FreshScan(bodies, mine, AncestorAt(best, fork), birthday);
            && Below(FreshScan(bodies, mine, old', birthday), fork) == m - SpentAbove(bodies, old', fork)
            && FreshScan(bodies, mine, best, birthday) == ScanAbove(bodies, mine, m, best, fork)
  {
    var common := AncestorAt(best, fork);
    AgreeExactlyBelowMeet(old', best, fork);
    var m := FreshScan(bodies, mine, common, birthday);
    FreshScanSplits(bodies, mine, old', birthday, fork);
    FreshScanSplits(bodies, mine, best, birthday, fork);
    forall at | at in m ensures m[at].height <= fork {
      FreshScanHeights(bodies, mine, common, birthday, at);
    }
    RollbackLeaves(bodies, mine, m, old', fork);
  }

  /** A coin spent only on the abandoned branch is lost: the documented "all a reorg invalidates" is not all. */
  lemma RescanCanLose(bodies: Bodies, genesisWork: nat, c1: Hash, a2: Hash, b2: Hash, b3: Hash)
    requires c1 == Of(Header(Genesis, 0x207f_ffff, 0)) && a2 == Of(Header(c1, 0x207f_ffff, 1))
    requires b2 == Of(Header(c1, 0x207f_ffff, 2)) && b3 == Of(Header(b2, 0x207f_ffff, 3))
    requires bodies == Story(c1, a2) && genesisWork + 6 <= U128_MAX
    ensures ChainWork(genesisWork, a2) < ChainWork(genesisWork, b3) && MeetHeight(a2, b3) == 1
    ensures COIN in FreshScan(bodies, {1}, b3, 0)
    ensures COIN !in ScanAbove(bodies, {1}, Below(FreshScan(bodies, {1}, a2, 0), 1), b3, 1)
  {
    EasyWork(0x207f_ffff);
    assert TrueWork(genesisWork, c1) == genesisWork + 2 && TrueWork(genesisWork, b2) == genesisWork + 4;
    assert MeetHeight(a2, b3) == MeetHeight(a2, b2) == MeetHeight(c1, c1) == 1;
    FreshOfStory(c1, a2, a2, 0);
    FreshOfStory(c1, a2, b3, 0);
    QuietScan(c1, a2, map[], b3, 1);
    assert !IsAncestor(a2, b3) && IsAncestor(c1, b3);
  }

  lemma EasyWork(bits: u32)
    requires bits == 0x207f_ffff
    ensures HeaderWork(bits) == 2
  {
    var e, m := Exponent(bits), Mantissa(bits);
    assert e == 32 && m == 0x7f_ffff;
    var n := 12;
    assert Pow2(n) == 4096;
    Pow2Square(n);
    assert 280 - 8 * e == 2 * n;
  }

  // ------------------------------------------------------- over any number of reorgs

  predicate WithinAt(w: CoinMap, f: CoinMap, at: OutPoint) {
    at in w ==> at in f && f[at].height <= w[at].height
  }

  /** Everything in `w` is in `f` too, and there no later. */
  ghost predicate Contained(w: CoinMap, f: CoinMap) {
    forall at :: WithinAt(w, f, at)
  }

  predicate LowAt(f: CoinMap, height: nat, at: OutPoint) {
    at in f ==> f[at].height <= height
  }

  ghost predicate NotAbove(f: CoinMap, height: nat) {
    forall at :: LowAt(f, height, at)
  }

  lemma StillNotAbove(f: CoinMap, a: nat, b: nat)
    requires NotAbove(f, a) && a <= b
    ensures NotAbove(f, b)
  {
    forall at ensures LowAt(f, b, at) { assert LowAt(f, a, at); }
  }

  lemma ContainedKeys(w: CoinMap, f: CoinMap)
    requires Contained(w, f)
    ensures w.Keys <= f.Keys
  {
    forall at | at in w ensures at in f { assert WithinAt(w, f, at); }
  }

  lemma TxContained(w: Held, f: CoinMap, tx: Tx, height: nat, mine: set<nat>)
    requires Contained(w.coins, f) && NotAbove(f, height)
    ensures Contained(TxHeld(w, tx, height, mine).coins, TxMap(f, tx, height, mine, {}))
    ensures NotAbove(TxMap(f, tx, height, mine, {}), height)
  {
    var w', f' := TxHeld(w, tx, height, mine).coins, TxMap(f, tx, height, mine, {});
    forall at ensures WithinAt(w', f', at) && LowAt(f', height, at) {
      assert WithinAt(w.coins, f, at) && LowAt(f, height, at);
    }
  }

  lemma {:induction false} BlockContained(w: Held, f: CoinMap, txs: seq<Tx>, height: nat, mine: set<nat>)
    requires Contained(w.coins, f) && NotAbove(f, height)
    ensures Contained(BlockHeld(w, txs, height, mine).coins, BlockMap(f, txs, height, mine))
    ensures NotAbove(BlockMap(f, txs, height, mine), height)
  {
    if txs != [] {
      var n := |txs| - 1;
      BlockContained(w, f, txs[..n], height, mine);
      TxContained(BlockHeld(w, txs[..n], height, mine), BlockMap(f, txs[..n], height, mine), txs[n], height, mine);
    }
  }

  /** Scanning keeps a wallet, reservations or not, within what a scan without reservations finds. */
  lemma {:induction false} ScanContained(bodies: Bodies, mine: set<nat>, w: Held, f: CoinMap, h: Hash, from: nat)
    requires Contained(w.coins, f) && NotAbove(f, from)
    ensures Contained(ScanHeld(bodies, mine, w, h, from).coins, ScanAbove(bodies, mine, f, h, from))
    ensures NotAbove(ScanAbove(bodies, mine, f, h, from), Max(from, Height(h)))
  {
    if Height(h) > from {
      ScanContained(bodies, mine, w, f, h.header.prev, from);
      StillNotAbove(ScanAbove(bodies, mine, f, h.header.prev, from), Max(from, Height(h.header.prev)), Height(h));
      BlockContained(ScanHeld(bodies, mine, w, h.header.prev, from), ScanAbove(bodies, mine, f, h.header.prev, from),
                     bodies(h), Height(h), mine);
    }
  }

  lemma FreshNotAbove(bodies: Bodies, mine: set<nat>, h: Hash, birthday: nat)
    ensures NotAbove(FreshScan(bodies, mine, h, birthday), Height(h))
  {
    forall at ensures LowAt(FreshScan(bodies, mine, h, birthday), Height(h), at) {
      FreshScanHeights(bodies, mine, h, birthday, at);
    }
  }

  /** What a rollback leaves was there in the common part. */
  lemma RollbackContained(bodies: Bodies, mine: set<nat>, w: CoinMap, seen: Hash, best: Hash, fork: nat, start: nat, birthday: nat)
    requires Rooted(seen) && Rooted(best) && fork < start <= MeetHeight(seen, best) + 1 && birthday <= start
    requires Contained(w, FreshScan(bodies, mine, seen, birthday))
    ensures Contained(Below(w, fork), FreshScan(bodies, mine, AncestorAt(best, start - 1), birthday))
  {
    var fresh', common := FreshScan(bodies, mine, seen, birthday), FreshScan(bodies, mine, AncestorAt(best, start - 1), birthday);
    CommonScan(bodies, mine, seen, best, start - 1, birthday);
    KeptIsCommon(w, fresh', common, SpentAbove(bodies, seen, start - 1), fork, start - 1);
  }

  lemma KeptIsCommon(w: CoinMap, f: CoinMap, common: CoinMap, spent: set<OutPoint>, fork: nat, height: nat)
    requires Contained(w, f) && Below(f, height) == common - spent && fork <= height
    ensures Contained(Below(w, fork), common)
  {
    forall at ensures WithinAt(Below(w, fork), common, at) {
      assert WithinAt(w, f, at);
      if at in Below(w, fork) { assert at in Below(f, height) && Below(f, height)[at] == f[at]; }
    }
  }

  /**
   * Rolling back to any height and rescanning from a block at most one above the meeting point keeps a wallet
   * within the scan of its chain, whatever it lacked before and whatever is reserved.
   */
  lemma ReorgContained(bodies: Bodies, mine: set<nat>, w: Held, seen: Hash, best: Hash, fork: nat, start: nat, birthday: nat)
    requires Rooted(seen) && Rooted(best) && fork < start <= MeetHeight(seen, best) + 1 && birthday <= start
    requires Contained(w.coins, FreshScan(bodies, mine, seen, birthday))
    ensures Contained(ScanHeld(bodies, mine, Held(Below(w.coins, fork), w.reserved), best, start - 1).coins,
                      FreshScan(bodies, mine, best, birthday))
  {
    RollbackContained(bodies, mine, w.coins, seen, best, fork, start, birthday);
    ScanOntoCommon(bodies, mine, Held(Below(w.coins, fork), w.reserved), best, start - 1, birthday);
  }

  lemma ScanOntoCommon(bodies: Bodies, mine: set<nat>, w: Held, best: Hash, from: nat, birthday: nat)
    requires from <= Height(best) && birthday <= from + 1
    requires Contained(w.coins, FreshScan(bodies, mine, AncestorAt(best, from), birthday))
    ensures Contained(ScanHeld(bodies, mine, w, best, from).coins, FreshScan(bodies, mine, best, birthday))
  {
    FreshNotAbove(bodies, mine, AncestorAt(best, from), birthday);
    ScanContained(bodies, mine, w, FreshScan(bodies, mine, AncestorAt(best, from), birthday), best, from);
    FreshScanSplits(bodies, mine, best, birthday, from);
  }

  /** What such a rescan lacks: coins of the common part that were gone before and are not found again. */
  ghost function Missing(bodies: Bodies, mine: set<nat>, kept: CoinMap, best: Hash, start: nat, birthday: nat): set<OutPoint>
    requires 0 < start <= Height(best) + 1
  {
    FreshScan(bodies, mine, AncestorAt(best, start - 1), birthday).Keys - kept.Keys
    - SpentAbove(bodies, best, start - 1) - ScanAbove(bodies, mine, map[], best, start - 1).Keys
  }

  /**
   * The outpoints a wallet holds after a reorganization, whatever it lacked before: those of a scan from scratch,
   * less the missing ones and less those still reserved.
   */
  lemma RescanLessMissing(bodies: Bodies, mine: set<nat>, w: Held, seen: Hash, best: Hash, fork: nat, start: nat, birthday: nat)
    requires Rooted(seen) && Rooted(best) && fork < start <= MeetHeight(seen, best) + 1 && birthday <= start
    requires Contained(w.coins, FreshScan(bodies, mine, seen, birthday)) && w.coins.Keys !! w.reserved
    ensures var w' := ScanHeld(bodies, mine, Held(Below(w.coins, fork), w.reserved), best, start - 1);
            && w'.reserved == w.reserved - SpentAbove(bodies, best, start - 1)
            && w'.coins.Keys == FreshScan(bodies, mine, best, birthday).Keys
                                - Missing(bodies, mine, Below(w.coins, fork), best, start, birthday) - w'.reserved
  {
    var kept := Held(Below(w.coins, fork), w.reserved);
    KeptKeys(bodies, mine, w.coins, seen, best, fork, start, birthday);
    ScanLessMissing(bodies, mine, kept.coins, best, start, birthday);
    HeldLessMissing(bodies, mine, kept, best, start - 1, ScanHeld(bodies, mine, kept, best, start - 1),
                    FreshScan(bodies, mine, best, birthday).Keys, Missing(bodies, mine, kept.coins, best, start, birthday));
  }

  lemma KeptKeys(bodies: Bodies, mine: set<nat>, w: CoinMap, seen: Hash, best: Hash, fork: nat, start: nat, birthday: nat)
    requires Rooted(seen) && Rooted(best) && fork < start <= MeetHeight(seen, best) + 1 && birthday <= start
    requires Contained(w, FreshScan(bodies, mine, seen, birthday))
    ensures Below(w, fork).Keys <= FreshScan(bodies, mine, AncestorAt(best, start - 1), birthday).Keys
  {
    RollbackContained(bodies, mine, w, seen, best, fork, start, birthday);
    ContainedKeys(Below(w, fork), FreshScan(bodies, mine, AncestorAt(best, start - 1), birthday));
  }

  lemma HeldLessMissing(bodies: Bodies, mine: set<nat>, kept: Held, best: Hash, from: nat, w': Held, all: set<OutPoint>, gone: set<OutPoint>)
    requires kept.coins.Keys !! kept.reserved && w' == ScanHeld(bodies, mine, kept, best, from)
    requires ScanAbove(bodies, mine, kept.coins, best, from).Keys == all - gone
    ensures w'.reserved == kept.reserved - SpentAbove(bodies, best, from) && w'.coins.Keys == all - gone - w'.reserved
  {
    ScanHeldKeys(bodies, mine, kept, best, from);
  }

  /** A wallet that lacked nothing and has nothing reserved misses only what the blocks above the fork had spent. */
  lemma MissingOfExactWallet(bodies: Bodies, mine: set<nat>, seen: Hash, best: Hash, fork: nat, birthday: nat)
    requires Rooted(seen) && Rooted(best) && fork <= MeetHeight(seen, best) && birthday <= fork + 1
    ensures Missing(bodies, mine, Below(FreshScan(bodies, mine, seen, birthday), fork), best, fork + 1, birthday)
         == FreshScan(bodies, mine, AncestorAt(best, fork), birthday).Keys * SpentAbove(bodies, seen, fork)
            - SpentAbove(bodies, best, fork) - ScanAbove(bodies, mine, map[], best, fork).Keys
  {
    CommonScan(bodies, mine, seen, best, fork, birthday);
  }

  lemma ScanLessMissing(bodies: Bodies, mine: set<nat>, kept: CoinMap, best: Hash, start: nat, birthday: nat)
    requires 0 < start <= Height(best) + 1 && birthday <= start
    requires kept.Keys <= FreshScan(bodies, mine, AncestorAt(best, start - 1), birthday).Keys
    ensures ScanAbove(bodies, mine, kept, best, start - 1).Keys
         == FreshScan(bodies, mine, best, birthday).Keys - Missing(bodies, mine, kept, best, start, birthday)
  {
    FreshScanSplits(bodies, mine, best, birthday, start - 1);
    TwoScans(bodies, mine, FreshScan(bodies, mine, AncestorAt(best, start - 1), birthday), kept, best, start - 1);
  }

  lemma TwoScans(bodies: Bodies, mine: set<nat>, all: CoinMap, kept: CoinMap, h: Hash, from: nat)
    requires kept.Keys <= all.Keys
    ensures ScanAbove(bodies, mine, kept, h, from).Keys
         == ScanAbove(bodies, mine, all, h, from).Keys
            - (all.Keys - kept.Keys - SpentAbove(bodies, h, from) - ScanAbove(bodies, mine, map[], h, from).Keys)
  {
    ScanKeys(bodies, mine, all, h, from);
    ScanKeys(bodies, mine, kept, h, from);
    Lacks(all.Keys, kept.Keys, SpentAbove(bodies, h, from), ScanAbove(bodies, mine, map[], h, from).Keys);
  }

  lemma Lacks(all: set<OutPoint>, kept: set<OutPoint>, spent: set<OutPoint>, found: set<OutPoint>)
    requires kept <= all
    ensures kept - spent + found == (all - spent + found) - (all - kept - spent - found)
  {
  }

  /** A wallet, and the block up to which it has scanned. */
  datatype Moment = Moment(seen: Hash, wallet: Held)

  ghost predicate Shrinks(a: CoinMap, b: CoinMap) {
    forall at :: at in b ==> at in a && b[at] == a[at]
  }

  /** What happens to a wallet: coins are reserved or spent, new blocks are scanned, or a reorganization is handled. */
  ghost predicate Follows(bodies: Bodies, mine: set<nat>, birthday: nat, a: Moment, b: Moment) {
    || (b.seen == a.seen && Shrinks(a.wallet.coins, b.wallet.coins))
    || (&& Rooted(b.seen) && IsAncestor(a.seen, b.seen) && birthday <= Height(a.seen) + 1
        && b.wallet == ScanHeld(bodies, mine, a.wallet, b.seen, Height(a.seen)))
    || exists fork, start :: Reorganizes(bodies, mine, birthday, a, b, fork, start)
  }

  ghost predicate Reorganizes(bodies: Bodies, mine: set<nat>, birthday: nat, a: Moment, b: Moment, fork: nat, start: nat) {
    && Rooted(a.seen) && Rooted(b.seen) && fork < start <= MeetHeight(a.seen, b.seen) + 1 && birthday <= start
    && b.wallet == ScanHeld(bodies, mine, Held(Below(a.wallet.coins, fork), a.wallet.reserved), b.seen, start - 1)
  }

  lemma StepContained(bodies: Bodies, mine: set<nat>, birthday: nat, a: Moment, b: Moment)
    requires Follows(bodies, mine, birthday, a, b) && Contained(a.wallet.coins, FreshScan(bodies, mine, a.seen, birthday))
    ensures Contained(b.wallet.coins, FreshScan(bodies, mine, b.seen, birthday))
  {
    if b.seen == a.seen && Shrinks(a.wallet.coins, b.wallet.coins) {
      var fresh' := FreshScan(bodies, mine, a.seen, birthday);
      forall at ensures WithinAt(b.wallet.coins, fresh', at) { assert WithinAt(a.wallet.coins, fresh', at); }
    } else if fork, start :| Reorganizes(bodies, mine, birthday, a, b, fork, start) {
      ReorgContained(bodies, mine, a.wallet, a.seen, b.seen, fork, start, birthday);
    } else {
      AncestorIsAt(a.seen, b.seen);
      ScanOntoCommon(bodies, mine, a.wallet, b.seen, Height(a.seen), birthday);
    }
  }

  /**
   * Over any number of scans, complete or not, reservations and reorganizations: a wallet never holds an outpoint
   * that a scan from scratch up to the same block would not hold, as long as no rescan starts more than one block
   * above what the wallet has seen of the new chain.
   */
  lemma {:induction false} WalletsNeverInvent(bodies: Bodies, mine: set<nat>, birthday: nat, history: seq<Moment>, n: nat)
    requires n < |history| && history[0].wallet.coins == map[]
    requires forall i :: 0 <= i < |history| - 1 ==> FollowsAt(bodies, mine, birthday, history, i)
    ensures Contained(history[n].wallet.coins, FreshScan(bodies, mine, history[n].seen, birthday))
    ensures history[n].wallet.coins.Keys <= FreshScan(bodies, mine, history[n].seen, birthday).Keys
  {
    var fresh' := FreshScan(bodies, mine, history[n].seen, birthday);
    if n == 0 {
      forall at ensures WithinAt(history[0].wallet.coins, fresh', at) {}
    } else {
      WalletsNeverInvent(bodies, mine, birthday, history, n - 1);
      assert FollowsAt(bodies, mine, birthday, history, n - 1);
      StepContained(bodies, mine, birthday, history[n - 1], history[n]);
    }
    ContainedKeys(history[n].wallet.coins, fresh');
  }

  ghost predicate FollowsAt(bodies: Bodies, mine: set<nat>, birthday: nat, history: seq<Moment>, i: nat)
    requires i + 1 < |history|
  {
    Follows(bodies, mine, birthday, history[i], history[i + 1])
  }

  // --------------------------------------------------------- when coins are invented

  const COIN := OutPoint(7, 0)

  /** Block bodies in which `payer` creates a coin, `spender` spends it and nothing else happens. */
  function Story(payer: Hash, spender: Hash): Bodies {
    h => if h == payer then [Tx(7, [], [TxOut(5, 1)])] else if h == spender then [Tx(8, [COIN], [])] else []
  }

  lemma PaidBlock(m: CoinMap, height: nat)
    requires COIN !in m
    ensures BlockMap(m, [Tx(7, [], [TxOut(5, 1)])], height, {1}) == m[COIN := Coin(COIN, 5, 1, height)]
  {
    var tx := Tx(7, [], [TxOut(5, 1)]);
    assert [tx][..0] == [];
    assert Found(tx, height, {1}, {} - {}) == map[COIN := Coin(COIN, 5, 1, height)] by {
      assert tx.outputs[0].address in {1};
    }
  }

  lemma SpentBlock(m: CoinMap, height: nat)
    ensures BlockMap(m, [Tx(8, [COIN], [])], height, {1}) == m - {COIN}
  {
    var tx := Tx(8, [COIN], []);
    assert [tx][..0] == [];
    assert Elements(tx.inputs) == {COIN} by { assert tx.inputs[0] == COIN; }
  }

  /** The coin is there on exactly the chains that pay it and do not spend it. */
  lemma {:induction false} FreshOfStory(payer: Hash, spender: Hash, h: Hash, birthday: nat)
    requires birthday <= Height(payer) && (IsAncestor(spender, h) ==> Height(payer) < Height(spender))
    ensures FreshScan(Story(payer, spender), {1}, h, birthday) ==
            if IsAncestor(payer, h) && !IsAncestor(spender, h) then map[COIN := Coin(COIN, 5, 1, Height(payer))] else map[]
  {
    if IsAncestor(payer, h) { AncestorIsAt(payer, h); }
    if IsAncestor(spender, h) { AncestorIsAt(spender, h); }
    if Height(h) >= birthday {
      var before := map[];
      if Height(h) > birthday && h.Of? {
        FreshOfStory(payer, spender, h.header.prev, birthday);
        before := FreshScan(Story(payer, spender), {1}, h.header.prev, birthday);
        if h == payer && IsAncestor(payer, h.header.prev) { AncestorIsAt(payer, h.header.prev); }
      }
      if h == payer {
        PaidBlock(before, Height(h));
      } else if h == spender {
        SpentBlock(before, Height(h));
      }
    }
  }

  /** Scanning blocks in which nothing happens changes nothing. */
  lemma {:induction false} QuietScan(payer: Hash, spender: Hash, m: CoinMap, h: Hash, from: nat)
    requires IsAncestor(payer, h) ==> Height(payer) <= from
    requires IsAncestor(spender, h) ==> Height(spender) <= from
    ensures ScanAbove(Story(payer, spender), {1}, m, h, from) == m
  {
    if Height(h) > from { QuietScan(payer, spender, m, h.header.prev, from); }
  }

  /** The wallet after rolling the scan of `seen` back to `fork` and scanning `best` from `start` on. */
  ghost function Rescanned(bodies: Bodies, mine: set<nat>, seen: Hash, best: Hash, fork: nat, start: nat, birthday: nat): CoinMap
    requires start > 0
  {
    ScanAbove(bodies, mine, Below(FreshScan(bodies, mine, seen, birthday), fork), best, start - 1)
  }

  /** No block contents make the rescan hold a coin that a scan from scratch does not. */
  ghost predicate NeverInvents(seen: Hash, best: Hash, fork: nat, start: nat, birthday: nat)
    requires start > 0
  {
    forall bodies, mine :: Rescanned(bodies, mine, seen, best, fork, start, birthday).Keys <= FreshScan(bodies, mine, best, birthday).Keys
  }

  /** A block of the abandoned branch that survives the rollback pays a coin the new chain knows nothing of. */
  lemma AbandonedCoinStays(seen: Hash, best: Hash, fork: nat, start: nat, birthday: nat)
    requires Rooted(seen) && Rooted(best) && fork < start
    requires MeetHeight(seen, best) < Min(fork, Height(seen)) && birthday <= Min(fork, Height(seen))
    ensures !NeverInvents(seen, best, fork, start, birthday)
  {
    var k := Max(birthday, MeetHeight(seen, best) + 1);
    var payer := AncestorAt(seen, k);
    AncestorAtRooted(seen, k);
    if IsAncestor(payer, best) {
      AncestorIsAt(payer, best);
      AgreeExactlyBelowMeet(seen, best, k);
    }
    AbandonedPays(seen, best, fork, start, birthday, payer);
  }

  lemma AbandonedPays(seen: Hash, best: Hash, fork: nat, start: nat, birthday: nat, payer: Hash)
    requires Rooted(seen) && Rooted(best) && start > 0 && birthday <= Height(payer) <= fork
    requires IsAncestor(payer, seen) && !IsAncestor(payer, best)
    ensures !NeverInvents(seen, best, fork, start, birthday)
  {
    var bodies := Story(payer, Unknown(0));
    var kept := map[COIN := Coin(COIN, 5, 1, Height(payer))];
    NoUnknown(seen);
    NoUnknown(best);
    FreshOfStory(payer, Unknown(0), seen, birthday);
    FreshOfStory(payer, Unknown(0), best, birthday);
    assert Below(kept, fork) == kept;
    QuietScan(payer, Unknown(0), kept, best, start - 1);
    assert COIN in Rescanned(bodies, {1}, seen, best, fork, start, birthday).Keys;
  }

  /** A block of the new branch that is never scanned spends a coin of the common part. */
  lemma MissedSpendStays(seen: Hash, best: Hash, fork: nat, start: nat, birthday: nat)
    requires Rooted(seen) && Rooted(best) && fork < start <= Height(best) + 1
    requires birthday <= fork && birthday <= MeetHeight(seen, best) && MeetHeight(seen, best) + 1 < start
    ensures !NeverInvents(seen, best, fork, start, birthday)
  {
    var payer, spender := AncestorAt(best, birthday), AncestorAt(best, MeetHeight(seen, best) + 1);
    OnlyOnBest(seen, best, birthday);
    StoryGoesWrong(seen, best, fork, start, birthday, payer, spender);
  }

  lemma OnlyOnBest(seen: Hash, best: Hash, k: nat)
    requires Rooted(seen) && Rooted(best) && k <= MeetHeight(seen, best) < Height(best)
    ensures IsAncestor(AncestorAt(best, k), seen) && !IsAncestor(AncestorAt(best, MeetHeight(seen, best) + 1), seen)
    ensures IsAncestor(AncestorAt(best, MeetHeight(seen, best) + 1), best)
  {
    var m := MeetHeight(seen, best);
    AncestorAtRooted(best, m + 1);
    AgreeExactlyBelowMeet(seen, best, k);
    AncestorAtRooted(seen, k);
    if IsAncestor(AncestorAt(best, m + 1), seen) {
      AncestorIsAt(AncestorAt(best, m + 1), seen);
      AgreeExactlyBelowMeet(seen, best, m + 1);
    }
  }

  lemma Invented(bodies: Bodies, mine: set<nat>, seen: Hash, best: Hash, fork: nat, start: nat, birthday: nat, at: OutPoint)
    requires start > 0 && at in Rescanned(bodies, mine, seen, best, fork, start, birthday) && at !in FreshScan(bodies, mine, best, birthday)
    ensures !NeverInvents(seen, best, fork, start, birthday)
  {
    assert !(Rescanned(bodies, mine, seen, best, fork, start, birthday).Keys <= FreshScan(bodies, mine, best, birthday).Keys);
  }

  lemma StoryKeeps(seen: Hash, best: Hash, fork: nat, start: nat, birthday: nat, payer: Hash, spender: Hash)
    requires start > 0 && birthday <= Height(payer) <= fork && Height(payer) < Height(spender) < start
    requires IsAncestor(payer, seen) && !IsAncestor(spender, seen)
    ensures COIN in Rescanned(Story(payer, spender), {1}, seen, best, fork, start, birthday)
  {
    var kept := map[COIN := Coin(COIN, 5, 1, Height(payer))];
    FreshOfStory(payer, spender, seen, birthday);
    assert Below(kept, fork) == kept;
    QuietScan(payer, spender, kept, best, start - 1);
  }

  /** The old chain pays and does not spend; the new one spends in a block that is not scanned. */
  lemma StoryGoesWrong(seen: Hash, best: Hash, fork: nat, start: nat, birthday: nat, payer: Hash, spender: Hash)
    requires start > 0 && birthday <= Height(payer) <= fork && Height(payer) < Height(spender) < start
    requires IsAncestor(payer, seen) && !IsAncestor(spender, seen) && IsAncestor(spender, best)
    ensures !NeverInvents(seen, best, fork, start, birthday)
  {
    var bodies := Story(payer, spender);
    StoryKeeps(seen, best, fork, start, birthday, payer, spender);
    FreshOfStory(payer, spender, best, birthday);
    Invented(bodies, {1}, seen, best, fork, start, birthday, COIN);
  }

  lemma {:induction false} NoUnknown(h: Hash)
    requires Rooted(h)
    ensures !IsAncestor(Unknown(0), h)
  {
    if h.Of? { NoUnknown(h.header.prev); }
  }

  /** With nothing kept, there is nothing to be wrong about. */
  lemma NothingKept(seen: Hash, best: Hash, fork: nat, start: nat, birthday: nat)
    requires Rooted(seen) && Rooted(best) && fork < start <= Height(best) + 1 && Min(fork, Height(seen)) < birthday <= fork + 1
    ensures NeverInvents(seen, best, fork, start, birthday)
  {
    forall bodies, mine
      ensures Rescanned(bodies, mine, seen, best, fork, start, birthday).Keys <= FreshScan(bodies, mine, best, birthday).Keys
    {
      KeepsNothing(bodies, mine, seen, fork, birthday);
      FoundLater(bodies, mine, best, start, birthday);
    }
  }

  lemma KeepsNothing(bodies: Bodies, mine: set<nat>, seen: Hash, fork: nat, birthday: nat)
    requires Min(fork, Height(seen)) < birthday
    ensures Below(FreshScan(bodies, mine, seen, birthday), fork) == map[]
  {
    forall at ensures at !in Below(FreshScan(bodies, mine, seen, birthday), fork) {
      FreshNotBelow(bodies, mine, seen, birthday, at);
      FreshScanHeights(bodies, mine, seen, birthday, at);
    }
  }

  lemma FoundLater(bodies: Bodies, mine: set<nat>, best: Hash, start: nat, birthday: nat)
    requires 0 < start <= Height(best) + 1 && birthday <= start
    ensures ScanAbove(bodies, mine, map[], best, start - 1).Keys <= FreshScan(bodies, mine, best, birthday).Keys
  {
    ScanLessMissing(bodies, mine, map[], best, start, birthday);
  }

  lemma {:induction false} FreshNotBelow(bodies: Bodies, mine: set<nat>, h: Hash, birthday: nat, at: OutPoint)
    ensures at in FreshScan(bodies, mine, h, birthday) ==> birthday <= FreshScan(bodies, mine, h, birthday)[at].height
  {
    if Height(h) >= birthday {
      if Height(h) == birthday || !h.Of? {
        BlockHeights(map[], bodies(h), Height(h), mine, at);
      } else {
        FreshNotBelow(bodies, mine, h.header.prev, birthday, at);
        BlockHeights(FreshScan(bodies, mine, h.header.prev, birthday), bodies(h), Height(h), mine, at);
      }
    }
  }

  lemma RescanWithin(bodies: Bodies, mine: set<nat>, seen: Hash, best: Hash, fork: nat, start: nat, birthday: nat)
    requires Rooted(seen) && Rooted(best) && fork < start <= MeetHeight(seen, best) + 1 && birthday <= start
    ensures Rescanned(bodies, mine, seen, best, fork, start, birthday).Keys <= FreshScan(bodies, mine, best, birthday).Keys
  {
    var fresh' := FreshScan(bodies, mine, seen, birthday);
    assert Contained(fresh', fresh') by { forall at ensures WithinAt(fresh', fresh', at) {} }
    RollbackContained(bodies, mine, fresh', seen, best, fork, start, birthday);
    ContainedKeys(Below(fresh', fork), FreshScan(bodies, mine, AncestorAt(best, start - 1), birthday));
    ScanLessMissing(bodies, mine, Below(FreshScan(bodies, mine, seen, birthday), fork), best, start, birthday);
  }

  /**
   * Rolling back to `fork` and rescanning from `start` can be trusted, whatever the blocks hold, exactly if the
   * rescan starts at most one above the meeting point, or nothing scanned before survives the rollback.
   */
  lemma NeverInventsExactly(seen: Hash, best: Hash, fork: nat, start: nat, birthday: nat)
    requires Rooted(seen) && Rooted(best) && fork < start <= Height(best) + 1 && birthday <= fork + 1
    ensures NeverInvents(seen, best, fork, start, birthday)
       <==> start <= MeetHeight(seen, best) + 1 || Min(fork, Height(seen)) < birthday
  {
    var m := MeetHeight(seen, best);
    if start <= m + 1 {
      forall bodies, mine
        ensures Rescanned(bodies, mine, seen, best, fork, start, birthday).Keys <= FreshScan(bodies, mine, best, birthday).Keys
      {
        RescanWithin(bodies, mine, seen, best, fork, start, birthday);
      }
    } else if Min(fork, Height(seen)) < birthday {
      NothingKept(seen, best, fork, start, birthday);
    } else if m < Min(fork, Height(seen)) {
      AbandonedCoinStays(seen, best, fork, start, birthday);
    } else {
      MissedSpendStays(seen, best, fork, start, birthday);
    }
  }
}
