/** Fork search, the reaction to a reorganization, and scanning with many unreliable peers. */
module Wallet {
  import opened Machine
  import opened Lineage
  import opened HeaderChain
  import opened UtxoSet
  import opened Rescan
  import opened Filters

  // ------------------------------------------------------------- fork search

  /** `a` is found by following stored parents from `t`. */
  predicate Reaches(store: Store, a: Hash, t: Hash) {
    a == t || (t in store && t.Of? && Reaches(store, a, t.header.prev))
  }

  /** `is_ancestor`. */
  method CheckAncestor(chain: HeaderChain, ancestor: Hash, tip: Hash) returns (r: bool)
    requires chain.Valid()
    ensures r == Reaches(chain.headers, ancestor, tip)
  {
    var known := ancestor in chain.headers;
    var cursor := tip;
    while cursor != ancestor
      invariant Reaches(chain.headers, ancestor, tip) == Reaches(chain.headers, ancestor, cursor)
      decreases cursor
    {
      if cursor !in chain.headers { return false; }
      assert Faithful(chain.genesisWork, chain.headers, cursor);
      var entry := chain.headers[cursor];
      if known && entry.height <= chain.headers[ancestor].height {
        assert Faithful(chain.genesisWork, chain.headers, ancestor);
        NotReachedBelow(chain.headers, ancestor, cursor);
        return false;
      }
      if entry.height == 0 { return false; }
      cursor := entry.prev;
    }
    r := true;
  }

  lemma {:induction false} NotReachedBelow(store: Store, a: Hash, t: Hash)
    requires Height(t) <= Height(a) && a != t
    ensures !Reaches(store, a, t)
  {
    if t.Of? { NotReachedBelow(store, a, t.header.prev); }
  }

  /** In terms of lineage alone: an ancestor, with everything above it stored. */
  lemma {:induction false} ReachesExactly(store: Store, a: Hash, t: Hash)
    ensures Reaches(store, a, t) <==>
            IsAncestor(a, t) && (a == t || (Height(a) < Height(t) && StoredDown(store, t, Height(a) + 1)))
  {
    if a != t && t.Of? {
      ReachesExactly(store, a, t.header.prev);
      if IsAncestor(a, t) {
        AncestorIsAt(a, t);
        AncestorIsAt(a, t.header.prev);
      }
    }
  }

  /** What `find_fork` computes, in terms of lineage, of what is stored and of the window. */
  ghost function ForkOf(store: Store, best: Hash, floor: nat, old': Hash): nat
    requires Rooted(best) && Rooted(old')
  {
    var m := MeetHeight(old', best);
    if StoredDown(store, old', m) && StoredDown(store, best, m) then m
    else if StoredDown(store, old', 0) then 0
    else floor
  }

  /** Whether `hashes_from` at a block's own height starts with that block. */
  lemma FirstIsOnBest(store: Store, best: Hash, c: Hash)
    requires Rooted(best) && best in store
    ensures var r := Reverse(Walk(store, best, Height(c)));
            r != [] && r[0] == c <==>
            Height(c) <= Height(best) && AncestorAt(best, Height(c)) == c && StoredDown(store, best, Height(c))
  {
    HashesFromExactly(store, best, Height(c));
    if Height(c) <= Height(best) {
      LowestIsLowest(store, best, Height(c));
    }
  }

  /** The search has come down to height `k` of the old lineage without finding the best chain. */
  ghost predicate SearchedTo(store: Store, best: Hash, old': Hash, k: nat)
    requires Rooted(best) && k <= Height(old')
  {
    && (k < Height(old') ==> StoredDown(store, old', k + 1))
    && forall j :: k < j <= Height(old') && j <= Height(best) ==>
         !(AncestorAt(best, j) == AncestorAt(old', j) && StoredDown(store, best, j))
  }

  /** `find_fork`, for any block that was once the tip. */
  method FindFork(chain: HeaderChain, oldBest: Hash) returns (fork: nat)
    requires chain.Valid() && Rooted(oldBest)
    ensures fork == ForkOf(chain.headers, chain.best, chain.RetainedFloor(), oldBest)
  {
    assert Faithful(chain.genesisWork, chain.headers, chain.best);
    var cursor := oldBest;
    while cursor in chain.headers
      invariant Rooted(cursor) && Height(cursor) <= Height(oldBest) && cursor == AncestorAt(oldBest, Height(cursor))
      invariant SearchedTo(chain.headers, chain.best, oldBest, Height(cursor))
      decreases cursor
    {
      assert Faithful(chain.genesisWork, chain.headers, cursor);
      var height := chain.headers[cursor].height;
      var from := chain.HashesFrom(height);
      FirstIsOnBest(chain.headers, chain.best, cursor);
      ExtendStored(chain.headers, oldBest, height);
      if from != [] && from[0] == cursor {
        FoundFork(chain.headers, chain.best, chain.RetainedFloor(), oldBest, height);
        return height;
      }
      if height == 0 {
        NothingFound(chain.headers, chain.best, chain.RetainedFloor(), oldBest);
        return 0;
      }
      AncestorStep(oldBest, height);
      cursor := chain.headers[cursor].prev;
    }
    LostTrack(chain.headers, chain.best, chain.RetainedFloor(), oldBest, Height(cursor));
    return chain.RetainedFloor();
  }

  lemma ExtendStored(store: Store, old': Hash, k: nat)
    requires k <= Height(old') && AncestorAt(old', k) in store && (k < Height(old') ==> StoredDown(store, old', k + 1))
    ensures StoredDown(store, old', k)
  {
    if k < Height(old') { StoredDownStep(store, old', k + 1); }
  }

  lemma FoundFork(store: Store, best: Hash, floor: nat, old': Hash, k: nat)
    requires Rooted(best) && Rooted(old') && k <= Height(old') && k <= Height(best)
    requires StoredDown(store, old', k) && StoredDown(store, best, k) && AncestorAt(best, k) == AncestorAt(old', k)
    requires SearchedTo(store, best, old', k)
    ensures ForkOf(store, best, floor, old') == k
  {
    var m := MeetHeight(old', best);
    AgreeExactlyBelowMeet(old', best, k);
    MeetIsCommon(old', best);
    if k < m {
      StoredDownMeans(store, best, k, m);
    }
  }

  lemma NothingFound(store: Store, best: Hash, floor: nat, old': Hash)
    requires Rooted(best) && Rooted(old') && StoredDown(store, old', 0) && SearchedTo(store, best, old', 0)
    ensures ForkOf(store, best, floor, old') == 0
  {
    var m := MeetHeight(old', best);
    MeetIsCommon(old', best);
    assert m > 0 ==> !(AncestorAt(best, m) == AncestorAt(old', m) && StoredDown(store, best, m));
  }

  lemma LostTrack(store: Store, best: Hash, floor: nat, old': Hash, k: nat)
    requires Rooted(best) && Rooted(old') && k <= Height(old') && AncestorAt(old', k) !in store
    requires SearchedTo(store, best, old', k)
    ensures ForkOf(store, best, floor, old') == floor
  {
    var m := MeetHeight(old', best);
    MeetIsCommon(old', best);
    if StoredDown(store, old', 0) { StoredDownMeans(store, old', 0, k); }
    if m <= k && StoredDown(store, old', m) { StoredDownMeans(store, old', m, k); }
    if k < m {
      assert !(AncestorAt(best, m) == AncestorAt(old', m) && StoredDown(store, best, m));
    }
  }

  /** The greatest height at which the two lineages share a block. */
  ghost predicate HighestCommon(a: Hash, b: Hash, k: nat) {
    && k <= Height(a) && k <= Height(b) && AncestorAt(a, k) == AncestorAt(b, k)
    && forall j :: k < j <= Height(a) && j <= Height(b) ==> AncestorAt(a, j) != AncestorAt(b, j)
  }

  lemma HighestCommonIsMeet(a: Hash, b: Hash, k: nat)
    requires Rooted(a) && Rooted(b)
    ensures HighestCommon(a, b, k) <==> k == MeetHeight(a, b)
  {
    var m := MeetHeight(a, b);
    MeetIsCommon(a, b);
    forall j: nat | j <= Height(a) && j <= Height(b) ensures AncestorAt(a, j) == AncestorAt(b, j) <==> j <= m {
      AgreeExactlyBelowMeet(a, b, j);
    }
  }

  /**
   * `find_fork` gives the highest common height exactly if both lineages are stored down to it, or if the height
   * it falls back to happens to be the right one.
   */
  lemma ForkIsHighestCommonExactly(store: Store, best: Hash, floor: nat, old': Hash)
    requires Rooted(best) && Rooted(old')
    ensures var m := MeetHeight(old', best);
            HighestCommon(old', best, ForkOf(store, best, floor, old')) <==>
            || (StoredDown(store, old', m) && StoredDown(store, best, m))
            || m == if StoredDown(store, old', 0) then 0 else floor
  {
    HighestCommonIsMeet(old', best, ForkOf(store, best, floor, old'));
  }

  // ----------------------------------------------------------------- scanning

  /** Scan a list of blocks in order. */
  function ScanSeq(bodies: Bodies, mine: set<nat>, w: Held, hashes: seq<Hash>): Held {
    if hashes == [] then w
    else
      var n := |hashes| - 1;
      BlockHeld(ScanSeq(bodies, mine, w, hashes[..n]), bodies(hashes[n]), Height(hashes[n]), mine)
  }

  const CFILTERS_RANGE_LIMIT: nat := 1000

  function Matched(bodies: Bodies, matches: Hash -> bool): Bodies { h => if matches(h) then bodies(h) else [] }

  /** Nothing in the block pays the wallet, or spends what it holds or has reserved. */
  ghost predicate Irrelevant(txs: seq<Tx>, mine: set<nat>, w: Held) {
    && (forall k, i :: 0 <= k < |txs| && 0 <= i < |txs[k].outputs| ==> txs[k].outputs[i].address !in mine)
    && (forall k :: 0 <= k < |txs| ==> Elements(txs[k].inputs) !! w.coins.Keys && Elements(txs[k].inputs) !! w.reserved)
  }

  lemma {:induction false} IrrelevantChangesNothing(w: Held, txs: seq<Tx>, height: nat, mine: set<nat>)
    requires Irrelevant(txs, mine, w)
    ensures BlockHeld(w, txs, height, mine) == w
  {
    if txs != [] {
      var n := |txs| - 1;
      var tx := txs[n];
      assert forall k :: 0 <= k < n ==> txs[..n][k] == txs[k];
      IrrelevantChangesNothing(w, txs[..n], height, mine);
      var inputs := Elements(tx.inputs);
      assert w.reserved - inputs == w.reserved && w.coins - inputs == w.coins;
      assert Found(tx, height, mine, w.reserved - inputs) == map[];
    }
  }

  /** Where filters never miss a block that matters, fetching only the matching blocks loses nothing. */
  lemma {:induction false} MatchingIsEnough(bodies: Bodies, matches: Hash -> bool, mine: set<nat>, w: Held, hashes: seq<Hash>)
    requires forall k :: 0 <= k < |hashes| && !matches(hashes[k]) ==> Irrelevant(bodies(hashes[k]), mine, ScanSeq(bodies, mine, w, hashes[..k]))
    ensures ScanSeq(Matched(bodies, matches), mine, w, hashes) == ScanSeq(bodies, mine, w, hashes)
  {
    if hashes != [] {
      var n := |hashes| - 1;
      assert forall k :: 0 <= k < n ==> hashes[..n][k] == hashes[k] && hashes[..n][..k] == hashes[..k];
      MatchingIsEnough(bodies, matches, mine, w, hashes[..n]);
      if !matches(hashes[n]) {
        IrrelevantChangesNothing(ScanSeq(bodies, mine, w, hashes[..n]), bodies(hashes[n]), Height(hashes[n]), mine);
      }
    }
  }

  /** Scanning what `hashes_from` lists is scanning the lineage. */
  lemma {:induction false} ScanSeqIsScanHeld(bodies: Bodies, mine: set<nat>, store: Store, w: Held, h: Hash, from: nat)
    requires from < Height(h) ==> StoredDown(store, h, from + 1)
    ensures ScanSeq(bodies, mine, w, Reverse(Walk(store, h, from + 1))) == ScanHeld(bodies, mine, w, h, from)
  {
    if from < Height(h) {
      ScanSeqIsScanHeld(bodies, mine, store, w, h.header.prev, from);
      var below := Reverse(Walk(store, h.header.prev, from + 1));
      assert Walk(store, h, from + 1)[1..] == Walk(store, h.header.prev, from + 1);
      assert Reverse(Walk(store, h, from + 1)) == below + [h];
      assert (below + [h])[..|below|] == below;
    }
  }

  class BtcSync {
    const chain: HeaderChain
    const coins: UtxoSet
    const bodies: Bodies
    /** Whether the compact filter of a block matches the wallet. */
    const matches: Hash -> bool
    const addresses: seq<nat>
    /** How many blocks this pass has scanned. */
    var scanned: nat
    /** Which blocks it has scanned, in order. */
    ghost var processed: seq<Hash>

    constructor (chain: HeaderChain, coins: UtxoSet, bodies: Bodies, matches: Hash -> bool, addresses: seq<nat>)
      ensures this.chain == chain && this.coins == coins && this.bodies == bodies && this.matches == matches
      ensures this.addresses == addresses && scanned == 0 && processed == []
    {
      this.chain, this.coins, this.bodies, this.matches, this.addresses := chain, coins, bodies, matches, addresses;
      scanned, processed := 0, [];
    }

    ghost function Mine(): set<nat> { set a | a in addresses }

    /** What the wallet sees of the blocks: only those whose filter matches are fetched. */
    ghost function Seen(): Bodies { Matched(bodies, matches) }

    /** The blocks from a height up, as the header chain lists them. */
    ghost function Range(start: nat): seq<Hash>
      reads chain
    {
      Reverse(Walk(chain.headers, chain.best, start))
    }

    ghost predicate Ready()
      reads chain, coins
    {
      chain.Valid() && coins.Valid()
    }

    ghost function Holds(): Held
      reads coins
    {
      Held(MapOf(coins.utxos), coins.reserved)
    }

    method ScanBlock(hash: Hash)
      requires coins.Valid()
      modifies coins
      ensures coins.Valid()
      ensures Holds() == BlockHeld(old(Holds()), bodies(hash), Height(hash), Mine())
    {
      var txs, k := bodies(hash), 0;
      while k < |txs|
        invariant 0 <= k <= |txs| && coins.Valid()
        invariant Holds() == BlockHeld(old(Holds()), txs[..k], Height(hash), Mine())
      {
        assert txs[..k + 1][..k] == txs[..k];
        RecordMatchingOutputs(coins, txs[k], Height(hash), addresses);
        k := k + 1;
      }
      assert txs[..k] == txs;
    }

    /**
     * `scan_utxos_bip158_inner`: a peer that serves only so many blocks before it fails. Blocks are scanned in
     * order, and each is counted once it has been recorded.
     */
    method ScanInner(start: nat, serves: nat, ghost range: seq<Hash>) returns (ok: bool)
      requires Ready() && range == if addresses == [] then [] else Range(Max(start, chain.RetainedFloor()))
      modifies coins, this
      ensures Ready()
      ensures ok == (serves >= |range|)
      ensures scanned == old(scanned) + Min(serves, |range|)
      ensures processed == old(processed) + range[..Min(serves, |range|)]
      ensures Holds() == ScanSeq(Seen(), Mine(), old(Holds()), range[..Min(serves, |range|)])
    {
      var hashes := chain.HashesFrom(Max(start, chain.RetainedFloor()));
      if hashes == [] || addresses == [] { return true; }
      ok := ScanEach(hashes, serves);
    }

    method ScanEach(hashes: seq<Hash>, serves: nat) returns (ok: bool)
      requires coins.Valid()
      modifies coins, this
      ensures coins.Valid()
      ensures ok == (serves >= |hashes|)
      ensures scanned == old(scanned) + Min(serves, |hashes|)
      ensures processed == old(processed) + hashes[..Min(serves, |hashes|)]
      ensures Holds() == ScanSeq(Seen(), Mine(), old(Holds()), hashes[..Min(serves, |hashes|)])
    {
      ghost var states := StatesOf(Seen(), Mine(), Holds(), hashes);
      StatesSteps(Seen(), Mine(), Holds(), hashes);
      var k := 0;
      while k < |hashes|
        invariant 0 <= k <= |hashes| && k <= serves && coins.Valid()
        invariant ScannedSince(old(scanned), old(processed), hashes, states, k)
      {
        var end := Min(k + CFILTERS_RANGE_LIMIT, |hashes|);
        k := ScanChunk(hashes, k, end, serves, old(scanned), old(processed), states);
        if k < end { return false; }
      }
      ok := true;
    }

    /** One request: the blocks up to `end`, or as many as the peer serves. */
    method ScanChunk(hashes: seq<Hash>, from: nat, end: nat, serves: nat, ghost n: nat, ghost so: seq<Hash>, ghost states: seq<Held>) returns (k: nat)
      requires coins.Valid() && from <= end <= |hashes| && from <= serves
      requires Steps(Seen(), Mine(), hashes, states) && ScannedSince(n, so, hashes, states, from)
      modifies coins, this
      ensures coins.Valid() && k == Min(end, serves) && ScannedSince(n, so, hashes, states, k)
    {
      k := from;
      while k < end
        invariant from <= k <= end && k <= serves && coins.Valid() && ScannedSince(n, so, hashes, states, k)
      {
        if k == serves { return; }
        assert StepAt(Seen(), Mine(), hashes, states, k);
        ScanOne(hashes[k]);
        assert so + hashes[..k + 1] == so + hashes[..k] + [hashes[k]];
        k := k + 1;
      }
    }

    /** One block: fetched only if its filter matches, and counted either way. */
    method ScanOne(hash: Hash)
      requires coins.Valid()
      modifies coins, this
      ensures coins.Valid() && scanned == old(scanned) + 1 && processed == old(processed) + [hash]
      ensures Holds() == BlockHeld(old(Holds()), Seen()(hash), Height(hash), Mine())
    {
      if matches(hash) { ScanBlock(hash); }
      scanned := scanned + 1;
      processed := processed + [hash];
    }

    /** Exactly the first `k` of the given blocks have been scanned since. */
    ghost predicate ScannedSince(n: nat, so: seq<Hash>, hashes: seq<Hash>, states: seq<Held>, k: nat)
      requires k <= |hashes| && |states| == |hashes| + 1
      reads this, coins
    {
      scanned == n + k && processed == so + hashes[..k] && Holds() == states[k]
    }

    /** The blocks scanned so far are the first of the range, each once, and the wallet shows exactly them. */
    ghost predicate ScannedPrefix(w: Held, range: seq<Hash>)
      reads this, coins
    {
      IsPrefix(Seen(), Mine(), w, range, scanned, processed, Holds())
    }

    lemma RestOfRange(start: nat, n: nat)
      requires chain.Valid() && chain.RetainedFloor() <= start <= Height(chain.best)
      requires StoredDown(chain.headers, chain.best, start) && n <= |Range(start)|
      ensures Range(Max(start + n, chain.RetainedFloor())) == Range(start)[n..]
    {
      assert Faithful(chain.genesisWork, chain.headers, chain.best);
      RangeAt(chain.headers, chain.best, start);
      RangeResumes(chain.headers, chain.best, start, n);
    }

    /** One peer takes over where the last one failed. */
    method Resume(start: nat, serves: nat, ghost w: Held, ghost range: seq<Hash>) returns (ok: bool)
      requires Ready() && chain.RetainedFloor() <= start <= Height(chain.best) && StoredDown(chain.headers, chain.best, start)
      requires range == Range(start) && ScannedPrefix(w, range)
      modifies coins, this
      ensures Ready() && ScannedPrefix(w, range)
      ensures ok <==> addresses == [] || scanned == |range|
    {
      RestOfRange(start, scanned);
      ghost var done, so, held := scanned, processed, Holds();
      ghost var rest := if addresses == [] then [] else range[done..];
      ok := ScanInner(start + scanned, serves, rest);
      PrefixGrows(Seen(), Mine(), w, range, done, so, held, rest, Min(serves, |rest|));
      RestServed(range, done, addresses, serves);
    }

    /**
     * `scan_utxos_bip158_multi_pass`: peers are tried in turn, each resuming where the one before it failed.
     * Whatever the peers do, the blocks scanned are a prefix of the requested range, each once and in order, and
     * the whole length is reported exactly when the whole range was scanned.
     */
    method MultiPass(peers: seq<nat>, requested: nat) returns (r: Option<nat>)
      requires Ready() && scanned == 0 && processed == []
      modifies coins, this
      ensures Ready()
      ensures ScannedPrefix(old(Holds()), Range(Max(requested, chain.RetainedFloor())))
      ensures if r.Some? then r.value == scanned else scanned == 0
      ensures var start := Max(requested, chain.RetainedFloor());
              var expected, gaps := |Range(start)|, start + |Range(start)| != chain.bestHeight + 1;
              && (r == Some(expected) <==> scanned == expected)
              && (r.None? <==> scanned == 0 && expected > 0 && (gaps || (addresses != [] && peers != [])))
    {
      var start := Max(requested, chain.RetainedFloor());
      ghost var w, range := Holds(), Range(start);
      var hashes := chain.HashesFrom(start);
      var expected := |hashes|;
      assert ScannedPrefix(w, range) by { assert range[..0] == []; }
      if expected == 0 { return Some(0); }
      // No peer is accepted for a range that is not contiguous.
      if start > chain.bestHeight || expected != chain.bestHeight - start + 1 { return None; }
      assert Faithful(chain.genesisWork, chain.headers, chain.best);
      RangeIsContiguous(chain.headers, chain.best, start);
      var failed, i := false, 0;
      while i < |peers|
        invariant 0 <= i <= |peers| && Ready()
        invariant ScannedPrefix(w, range) && scanned < expected
        invariant failed <==> addresses != [] && i > 0
      {
        var ok := Resume(start, peers[i], w, range);
        if ok && scanned == expected { return Some(scanned); }
        if !ok { failed := true; }
        i := i + 1;
      }
      if scanned > 0 || !failed { return Some(scanned); }
      r := None;
    }
  }

  /** What is held after each of the blocks. */
  ghost function StatesOf(bodies: Bodies, mine: set<nat>, w: Held, hashes: seq<Hash>): (states: seq<Held>)
    ensures |states| == |hashes| + 1
  {
    seq(|hashes| + 1, k requires 0 <= k <= |hashes| => ScanSeq(bodies, mine, w, hashes[..k]))
  }

  ghost predicate StepAt(bodies: Bodies, mine: set<nat>, hashes: seq<Hash>, states: seq<Held>, k: nat)
    requires k < |hashes| && |states| == |hashes| + 1
  {
    states[k + 1] == BlockHeld(states[k], bodies(hashes[k]), Height(hashes[k]), mine)
  }

  ghost predicate Steps(bodies: Bodies, mine: set<nat>, hashes: seq<Hash>, states: seq<Held>) {
    |states| == |hashes| + 1 && forall k :: 0 <= k < |hashes| ==> StepAt(bodies, mine, hashes, states, k)
  }

  lemma StatesSteps(bodies: Bodies, mine: set<nat>, w: Held, hashes: seq<Hash>)
    ensures Steps(bodies, mine, hashes, StatesOf(bodies, mine, w, hashes)) && StatesOf(bodies, mine, w, hashes)[0] == w
  {
    var states := StatesOf(bodies, mine, w, hashes);
    forall k | 0 <= k < |hashes| ensures StepAt(bodies, mine, hashes, states, k) {
      assert hashes[..k + 1][..k] == hashes[..k];
    }
  }

  lemma {:induction false} ScanSeqConcat(bodies: Bodies, mine: set<nat>, w: Held, a: seq<Hash>, b: seq<Hash>)
    ensures ScanSeq(bodies, mine, w, a + b) == ScanSeq(bodies, mine, ScanSeq(bodies, mine, w, a), b)
    decreases |b|
  {
    if b == [] {
      assert a + b == a;
    } else {
      var n := |b| - 1;
      assert (a + b)[..|a + b| - 1] == a + b[..n];
      ScanSeqConcat(bodies, mine, w, a, b[..n]);
    }
  }

  /** Exactly the first `n` blocks of the range have been scanned. */
  ghost predicate IsPrefix(bodies: Bodies, mine: set<nat>, w: Held, range: seq<Hash>, n: nat, processed: seq<Hash>, held: Held) {
    n <= |range| && processed == range[..n] && held == ScanSeq(bodies, mine, w, range[..n])
  }

  /** A peer serves the rest of a range exactly if that brings the scan to its end, or there is nothing to look for. */
  lemma RestServed(range: seq<Hash>, done: nat, addresses: seq<nat>, serves: nat)
    requires done <= |range|
    ensures var rest := if addresses == [] then [] else range[done..];
            serves >= |rest| <==> addresses == [] || done + Min(serves, |rest|) == |range|
  {
  }

  lemma PrefixGrows(bodies: Bodies, mine: set<nat>, w: Held, range: seq<Hash>, done: nat, processed: seq<Hash>, held: Held, rest: seq<Hash>, n: nat)
    requires IsPrefix(bodies, mine, w, range, done, processed, held)
    requires n <= |rest| && (rest == range[done..] || rest == [])
    ensures IsPrefix(bodies, mine, w, range, done + n, processed + rest[..n], ScanSeq(bodies, mine, held, rest[..n]))
  {
    assert range[..done + n] == range[..done] + rest[..n];
    ScanSeqConcat(bodies, mine, w, range[..done], rest[..n]);
  }

  /** A range of full length is stored without a gap. */
  lemma RangeIsContiguous(store: Store, best: Hash, start: nat)
    requires Rooted(best) && best in store && start <= Height(best)
    requires |Reverse(Walk(store, best, start))| == Height(best) - start + 1
    ensures StoredDown(store, best, start)
  {
    HashesFromExactly(store, best, start);
    LowestIsLowest(store, best, start);
  }

  /** Asking for the range further up gives the rest of the same range. */
  lemma RangeResumes(store: Store, best: Hash, start: nat, n: nat)
    requires Rooted(best) && start <= Height(best) && StoredDown(store, best, start) && n <= Height(best) - start + 1
    ensures |Reverse(Walk(store, best, start))| == Height(best) - start + 1
    ensures Reverse(Walk(store, best, start + n)) == Reverse(Walk(store, best, start))[n..]
  {
    StoredDownMeans(store, best, start, Height(best));
    RangeAt(store, best, start);
    var whole, rest := Reverse(Walk(store, best, start)), Reverse(Walk(store, best, start + n));
    if start + n <= Height(best) {
      StoredDownMeans(store, best, start, start + n);
      RangeAt(store, best, start + n);
      SuffixIs(whole, rest, n);
    } else {
      HashesFromExactly(store, best, start + n);
    }
  }

  lemma SuffixIs(whole: seq<Hash>, rest: seq<Hash>, n: nat)
    requires n <= |whole| && |rest| == |whole| - n
    requires forall i :: 0 <= i < |rest| ==> rest[i] == whole[n + i]
    ensures rest == whole[n..]
  {
  }

  lemma RangeAt(store: Store, best: Hash, start: nat)
    requires Rooted(best) && best in store && start <= Height(best) && StoredDown(store, best, start)
    ensures var r := Reverse(Walk(store, best, start));
            |r| == Height(best) - start + 1 && forall i :: 0 <= i < |r| ==> r[i] == AncestorAt(best, start + i)
  {
    HashesFromExactly(store, best, start);
  }

  // ------------------------------------------------------------------- reorgs

  class BtcWallet {
    const chain: HeaderChain
    const coins: UtxoSet
    const filters: FilterHeaderStore
    var lastScannedHeight: nat
    var rescanOnSync: bool
    var resetOnSync: bool
    var synced: bool
    var completedScan: Option<(nat, Hash)>

    ghost predicate Valid()
      reads this, chain, coins, filters
    {
      chain.Valid() && coins.Valid() && filters.Valid()
    }

    constructor (chain: HeaderChain, coins: UtxoSet, filters: FilterHeaderStore)
      ensures this.chain == chain && this.coins == coins && this.filters == filters
      ensures lastScannedHeight == 0 && !rescanOnSync && !resetOnSync && !synced && completedScan == None
    {
      this.chain, this.coins, this.filters := chain, coins, filters;
      lastScannedHeight, rescanOnSync, resetOnSync, synced, completedScan := 0, false, false, false, None;
    }

    /** `reset_chain_cache_from`: drop what the reorganization invalidates and schedule a rescan above it. */
    method ResetChainCacheFrom(fork: Option<nat>)
      requires Valid()
      modifies this, coins, filters
      ensures Valid() && rescanOnSync && !synced && completedScan == None && resetOnSync == old(resetOnSync)
      ensures filters.records == map[] && filters.checkpoints == map[] && filters.candidates == map[]
      ensures filters.candidateTip == None && filters.observedTip == None && filters.agreeingGroups == {}
      ensures coins.reserved == old(coins.reserved)
      ensures match fork
              case Some(k) => lastScannedHeight == k + 1 && MapOf(coins.utxos) == Below(MapOf(old(coins.utxos)), k)
              case None => lastScannedHeight == 0 && MapOf(coins.utxos) == map[]
    {
      rescanOnSync := true;
      completedScan := None;
      filters.Clear();
      match fork {
        case Some(k) =>
          coins.RollbackAbove(k);
          lastScannedHeight := k + 1;
        case None =>
          coins.ClearChainUtxos();
          lastScannedHeight := 0;
      }
      synced := false;
    }

    /** The reorganization decision of `sync`. */
    method CheckReorg(previousBest: Hash)
      requires Valid() && Rooted(previousBest)
      modifies this, coins, filters
      ensures Valid() && resetOnSync == old(resetOnSync) && coins.reserved == old(coins.reserved)
      ensures (MapOf(coins.utxos), lastScannedHeight) ==
              Reacted(chain.headers, chain.best, chain.RetainedFloor(), previousBest, MapOf(old(coins.utxos)), old(lastScannedHeight))
      ensures rescanOnSync == (old(rescanOnSync) || !Reaches(chain.headers, previousBest, chain.best))
      ensures if Reaches(chain.headers, previousBest, chain.best) then synced == old(synced) && completedScan == old(completedScan)
              else !synced && completedScan == None
      ensures filters.records == (if Reaches(chain.headers, previousBest, chain.best) then old(filters.records) else map[])
    {
      if chain.best == previousBest { return; }
      var onChain := CheckAncestor(chain, previousBest, chain.best);
      if !onChain { LeaveBranch(previousBest); }
    }

    method LeaveBranch(previousBest: Hash)
      requires Valid() && Rooted(previousBest) && !Reaches(chain.headers, previousBest, chain.best)
      modifies this, coins, filters
      ensures Valid() && rescanOnSync && resetOnSync == old(resetOnSync) && coins.reserved == old(coins.reserved)
      ensures !synced && completedScan == None && filters.records == map[]
      ensures (MapOf(coins.utxos), lastScannedHeight) ==
              Reacted(chain.headers, chain.best, chain.RetainedFloor(), previousBest, MapOf(old(coins.utxos)), old(lastScannedHeight))
    {
      var fork := FindFork(chain, previousBest);
      ResetChainCacheFrom(Some(fork));
    }

    /**
     * What `sync` does once new headers are in. A restored wallet is cleared first. Then nothing is dropped if the
     * old tip is found on the best chain, and exactly what lies above the fork if it is not.
     */
    method AfterHeaders(previousBest: Hash, added: nat)
      requires Valid() && Rooted(previousBest)
      modifies this, coins, filters
      ensures Valid() && !resetOnSync && coins.reserved == old(coins.reserved)
      ensures (MapOf(coins.utxos), lastScannedHeight) ==
              Reacted(chain.headers, chain.best, chain.RetainedFloor(), previousBest,
                      if old(resetOnSync) then map[] else MapOf(old(coins.utxos)), if old(resetOnSync) then 0 else old(lastScannedHeight))
      ensures rescanOnSync == (old(resetOnSync) || old(rescanOnSync) || !Reaches(chain.headers, previousBest, chain.best))
      ensures var dropped := old(resetOnSync) || !Reaches(chain.headers, previousBest, chain.best);
              && synced == (added > 0 || (!dropped && old(synced)))
              && completedScan == (if dropped then None else old(completedScan))
              && filters.records.Keys == (if dropped then {} else Kept(old(filters.records), chain.RetainedFloor(), chain.headers.Keys))
      ensures filters.candidateTip == Some(chain.best)
    {
      ClearRestored();
      CheckReorg(previousBest);
      Settle(added);
    }

    /** A wallet restored without its headers starts over. */
    method ClearRestored()
      requires Valid()
      modifies this, coins, filters
      ensures Valid() && !resetOnSync && coins.reserved == old(coins.reserved)
      ensures if old(resetOnSync)
              then MapOf(coins.utxos) == map[] && lastScannedHeight == 0 && rescanOnSync && !synced && completedScan == None
                   && filters.records == map[]
              else MapOf(coins.utxos) == MapOf(old(coins.utxos)) && lastScannedHeight == old(lastScannedHeight)
                   && rescanOnSync == old(rescanOnSync) && synced == old(synced) && completedScan == old(completedScan)
                   && filters.records == old(filters.records)
    {
      if resetOnSync {
        ResetChainCacheFrom(None);
        resetOnSync := false;
      }
    }

    /** The end of `sync`: note that headers came, and prune the filters to the chain. */
    method Settle(added: nat)
      requires Valid()
      modifies this`synced, filters
      ensures Valid() && synced == (added > 0 || old(synced)) && filters.candidateTip == Some(chain.best)
      ensures filters.records.Keys == Kept(old(filters.records), chain.RetainedFloor(), chain.headers.Keys)
    {
      if added > 0 { synced := true; }
      filters.Prune(chain);
    }
  }

  /** The filters that stay: of stored blocks, from one below the window up. */
  function Kept(records: map<Hash, FilterRecord>, floor: nat, stored: set<Hash>): set<Hash> {
    set h | h in records && floor <= records[h].height + 1 && h in stored
  }

  /** The coins and the next height to scan after a change of tip. */
  ghost function Reacted(store: Store, best: Hash, floor: nat, old': Hash, coins: CoinMap, next: nat): (CoinMap, nat)
    requires Rooted(best) && Rooted(old')
  {
    if Reaches(store, old', best) then (coins, next)
    else (Below(coins, ForkOf(store, best, floor, old')), ForkOf(store, best, floor, old') + 1)
  }

  /**
   * A wallet is left alone exactly if its old tip is an ancestor of the new one with everything above it stored.
   * So it is also rolled back when the old tip never left the best chain and headers above it were pruned.
   */
  lemma LeftAloneExactly(store: Store, best: Hash, floor: nat, old': Hash)
    requires Rooted(best) && Rooted(old')
    ensures (forall coins, next: nat :: Reacted(store, best, floor, old', coins, next) == (coins, next))
       <==> IsAncestor(old', best) && (old' == best || (Height(old') < Height(best) && StoredDown(store, best, Height(old') + 1)))
  {
    ReachesExactly(store, old', best);
    if !Reaches(store, old', best) {
      assert Reacted(store, best, floor, old', map[], 0) != (map[], 0);
    }
  }

  /** Where the rescan after a reorganization starts: above the fork, and not below the window. */
  ghost function RescanStart(store: Store, best: Hash, floor: nat, old': Hash): nat
    requires Rooted(best) && Rooted(old')
  {
    Max(ForkOf(store, best, floor, old') + 1, floor)
  }

  /** That is where the scan goes on once the reaction has set the next height and the window cuts off what is below it. */
  lemma RescanStartsThere(store: Store, best: Hash, floor: nat, old': Hash, coins: CoinMap, next: nat)
    requires Rooted(best) && Rooted(old') && !Reaches(store, old', best)
    ensures RescanStart(store, best, floor, old') == Max(Reacted(store, best, floor, old', coins, next).1, floor)
  {
  }

  /** A lineage meets another where its descendant does, or where it ends. */
  lemma MeetOfAncestor(seen: Hash, old': Hash, best: Hash)
    requires Rooted(seen) && Rooted(old') && Rooted(best) && IsAncestor(seen, old')
    ensures MeetHeight(seen, best) == Min(Height(seen), MeetHeight(old', best))
  {
    var m, k := MeetHeight(old', best), Min(Height(seen), MeetHeight(old', best));
    AncestorIsAt(seen, old');
    AncestorAtAncestor(old', Height(seen), k);
    AgreeExactlyBelowMeet(old', best, k);
    AgreeExactlyBelowMeet(seen, best, k);
    if k < MeetHeight(seen, best) {
      AncestorAtAncestor(old', Height(seen), k + 1);
      AgreeExactlyBelowMeet(old', best, k + 1);
      AgreeExactlyBelowMeet(seen, best, k + 1);
    }
  }

  /**
   * Whether the reaction to a reorganization can be trusted, for every store and for a wallet that has scanned the
   * old chain up to any block `seen`: no block contents make the rescan hold a coin that a scan from scratch does
   * not, exactly if it starts at most one above the meeting point and at most one above what was scanned (or
   * nothing scanned before survives the rollback).
   */
  lemma ReorgIsSoundExactly(store: Store, best: Hash, floor: nat, old': Hash, seen: Hash, birthday: nat)
    requires Rooted(best) && Rooted(old') && Rooted(seen) && IsAncestor(seen, old')
    requires floor <= Height(best) && birthday <= ForkOf(store, best, floor, old') + 1
    ensures var fork, start := ForkOf(store, best, floor, old'), RescanStart(store, best, floor, old');
            NeverInvents(seen, best, fork, start, birthday) <==>
            || (start <= MeetHeight(old', best) + 1 && start <= Height(seen) + 1)
            || Min(fork, Height(seen)) < birthday
  {
    MeetOfAncestor(seen, old', best);
    NeverInventsExactly(seen, best, ForkOf(store, best, floor, old'), RescanStart(store, best, floor, old'), birthday);
  }

  /**
   * The whole reaction to a reorganization, for every store in which it can be trusted and the range to scan is
   * whole. A wallet that held only outpoints of the old chain up to `seen`, rolled back to the fork and rescanned,
   * holds exactly the outpoints of a scan of the new chain from scratch, less those of the common part that were
   * gone before and are not found again, and less those still reserved.
   */
  lemma ReorgThenRescan(bodies: Bodies, mine: set<nat>, store: Store, best: Hash, floor: nat, old': Hash, seen: Hash, w: Held, birthday: nat,
                        fork: nat, start: nat, w': Held)
    requires Rooted(best) && Rooted(old') && Rooted(seen)
    requires Contained(w.coins, FreshScan(bodies, mine, seen, birthday)) && w.coins.Keys !! w.reserved
    requires fork == ForkOf(store, best, floor, old') && start == RescanStart(store, best, floor, old')
    requires birthday <= start <= MeetHeight(seen, best) + 1
    requires start <= Height(best) ==> StoredDown(store, best, start)
    requires w' == ScanSeq(bodies, mine, Held(Below(w.coins, fork), w.reserved), Reverse(Walk(store, best, start)))
    ensures Contained(w'.coins, FreshScan(bodies, mine, best, birthday))
    ensures w'.coins.Keys == FreshScan(bodies, mine, best, birthday).Keys
                             - Missing(bodies, mine, Below(w.coins, fork), best, start, birthday) - w'.reserved
  {
    RescanOfStore(bodies, mine, store, best, seen, w, fork, start, birthday, Held(Below(w.coins, fork), w.reserved), w');
  }

  lemma RescanOfStore(bodies: Bodies, mine: set<nat>, store: Store, best: Hash, seen: Hash, w: Held, fork: nat, start: nat, birthday: nat,
                      kept: Held, w': Held)
    requires Rooted(best) && Rooted(seen) && fork < start <= MeetHeight(seen, best) + 1 && birthday <= start
    requires Contained(w.coins, FreshScan(bodies, mine, seen, birthday)) && w.coins.Keys !! w.reserved
    requires start <= Height(best) ==> StoredDown(store, best, start)
    requires kept == Held(Below(w.coins, fork), w.reserved)
    requires w' == ScanSeq(bodies, mine, kept, Reverse(Walk(store, best, start)))
    ensures Contained(w'.coins, FreshScan(bodies, mine, best, birthday))
    ensures w'.coins.Keys == FreshScan(bodies, mine, best, birthday).Keys
                             - Missing(bodies, mine, kept.coins, best, start, birthday) - w'.reserved
  {
    ScanSeqIsScanHeld(bodies, mine, store, kept, best, start - 1);
    RescanIsExact(bodies, mine, best, seen, w, fork, start, birthday, kept, w');
  }

  lemma RescanIsExact(bodies: Bodies, mine: set<nat>, best: Hash, seen: Hash, w: Held, fork: nat, start: nat, birthday: nat,
                      kept: Held, w': Held)
    requires Rooted(best) && Rooted(seen) && fork < start <= MeetHeight(seen, best) + 1 && birthday <= start
    requires Contained(w.coins, FreshScan(bodies, mine, seen, birthday)) && w.coins.Keys !! w.reserved
    requires kept == Held(Below(w.coins, fork), w.reserved) && w' == ScanHeld(bodies, mine, kept, best, start - 1)
    ensures Contained(w'.coins, FreshScan(bodies, mine, best, birthday))
    ensures w'.coins.Keys == FreshScan(bodies, mine, best, birthday).Keys
                             - Missing(bodies, mine, kept.coins, best, start, birthday) - w'.reserved
  {
    ReorgContained(bodies, mine, w, seen, best, fork, start, birthday);
    RescanLessMissing(bodies, mine, w, seen, best, fork, start, birthday);
  }
}
