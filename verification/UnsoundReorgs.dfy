/**
 * Header chains, reached by accepting headers, after which the fork search, the ancestor test or the rescan misses
 * what its documentation promises. In the first three the headers that arrive in one synchronization outgrow the
 * window by the slack, and the prune that follows drops the old tip.
 */
module UnsoundReorgs {
  import opened Machine
  import opened Lineage
  import opened HeaderChain
  import opened Rescan
  import opened Wallet

  /** The least difficulty of a test network: two units of work a block. */
  const EASY: u32 := 0x207f_ffff

  predicate Easy(h: Hash) { h.Genesis? || (h.Of? && h.header.bits == EASY && Easy(h.header.prev)) }

  function Block(prev: Hash, id: nat): Hash { Of(Header(prev, EASY, id)) }

  lemma {:induction false} EasyChainWork(h: Hash)
    requires Easy(h)
    ensures Rooted(h) && TrueWork(2, h) == 2 + 2 * Height(h)
  {
    if h.Of? {
      EasyChainWork(h.header.prev);
      EasyWork(EASY);
    }
  }

  /** A chain of easy headers with `n` headers stored. */
  ghost predicate Growing(chain: HeaderChain, n: nat)
    reads chain
  {
    && chain.Valid() && chain.Bounded() && chain.genesisWork == 2 && Easy(chain.best) && chain.bestHeight < 2000
    && |chain.headers| == n
  }

  lemma OneMore(store: Store, h: Hash, entry: StoredHeader)
    requires h !in store
    ensures store[h := entry].Keys == store.Keys + {h} && |store[h := entry]| == |store| + 1
  {
    assert |store.Keys + {h}| == |store.Keys| + 1;
  }

  /** Accept one more easy header, with room for it. The tip moves to it exactly if it is higher. */
  method Grow(chain: HeaderChain, prev: Hash, id: nat, ghost n: nat) returns (h: Hash)
    requires Growing(chain, n) && Easy(prev) && prev in chain.headers && Height(prev) < 1999
    requires Block(prev, id) !in chain.headers && (chain.retention == 0 || n < chain.retention + PRUNE_SLACK)
    modifies chain
    ensures Growing(chain, n + 1) && h == Block(prev, id) && chain.retention == old(chain.retention)
    ensures chain.headers.Keys == old(chain.headers.Keys) + {h} && chain.accepted == old(chain.accepted) + {h}
    ensures chain.best == if Height(h) > old(chain.bestHeight) then h else old(chain.best)
  {
    h := Block(prev, id);
    TipWork(h, chain.best);
    OneMore(chain.headers, h, Entry(2, h.header));
    var ok := chain.AddHeader(h.header, Height(h), true);
  }

  /** Accept a header that becomes the tip and is one too many: the store is cut to the window. */
  method Overflow(chain: HeaderChain, prev: Hash, id: nat, ghost n: nat, ghost floor: nat) returns (h: Hash, ghost store: Store)
    requires Growing(chain, n) && Easy(prev) && prev in chain.headers && chain.bestHeight <= Height(prev) < 1999
    requires Block(prev, id) !in chain.headers && 0 < chain.retention < 100 && n == chain.retention + PRUNE_SLACK
    requires floor > 0 && floor + chain.retention == Height(prev) + 1
    modifies chain
    ensures chain.Valid() && h == Block(prev, id) && chain.best == h && chain.accepted == old(chain.accepted) + {h}
    ensures chain.RetainedFloor() == floor
    ensures store.Keys == old(chain.headers.Keys) + {h} && PrunedStore(store, h, floor, chain.headers)
  {
    h := Block(prev, id);
    TipWork(h, chain.best);
    OneMore(chain.headers, h, Entry(2, h.header));
    store := chain.headers[h := Entry(2, h.header)];
    var ok := chain.AddHeader(h.header, Height(h), true);
    CutAt(store, h, chain.retention, floor, chain.headers);
  }

  /** Of two easy tips the higher one has more work. */
  lemma TipWork(h: Hash, best: Hash)
    requires Easy(h) && Easy(best) && Height(h) < 2001 && Height(best) < 2001
    ensures Rooted(h) && Rooted(best)
    ensures ChainWork(2, h) > ChainWork(2, best) <==> Height(h) > Height(best)
  {
    EasyChainWork(h);
    EasyChainWork(best);
  }

  /** A store one too large is cut to the window. */
  lemma CutAt(store: Store, h: Hash, retention: nat, floor: nat, store': Store)
    requires PrunedIfLarge(store, h, retention, store') && |store| > retention + PRUNE_SLACK
    requires 0 < retention && 0 < floor && floor + retention == Height(h)
    ensures PrunedStore(store, h, floor, store')
  {
  }

  /** A chain of `n` blocks in a row, under a window too long to matter yet. */
  method Trunk(retention: nat, n: nat) returns (chain: HeaderChain, c: Hash)
    requires 0 < retention && 1 < n < retention + PRUNE_SLACK && n < 1990
    ensures fresh(chain) && Growing(chain, n + 1) && chain.retention == retention && chain.best == c && chain.bestHeight == n
    ensures Easy(c) && c in chain.headers && Height(c) == n && c.Of? && c.header.prev in chain.headers && c in chain.accepted
    ensures forall h :: h in chain.headers ==> Height(h) <= n
  {
    chain := new HeaderChain(2);
    chain.SetRetention(retention);
    c := Genesis;
    var k := 0;
    while k < n
      invariant 0 <= k <= n && fresh(chain)
      invariant Growing(chain, k + 1) && chain.retention == retention && chain.best == c && chain.bestHeight == k
      invariant Easy(c) && c in chain.headers && Height(c) == k && c in chain.accepted
      invariant k > 0 ==> c.Of? && c.header.prev in chain.headers
      invariant forall h :: h in chain.headers ==> Height(h) <= k
    {
      c := Grow(chain, c, 0, k + 1);
      k := k + 1;
    }
  }

  lemma WalkStep(store: Store, h: Hash, floor: nat)
    requires h in store && floor <= Height(h) && h.Of?
    ensures Walk(store, h, floor) == [h] + Walk(store, h.header.prev, floor)
    ensures Height(h) == floor ==> Walk(store, h, floor) == [h]
  {
  }

  /** A tip `a` with a rival `b1` on the same parent, and no room for another header. */
  method Rivals(retention: nat) returns (chain: HeaderChain, c: Hash, a: Hash, b1: Hash)
    requires 0 < retention < 100
    ensures fresh(chain) && Growing(chain, retention + PRUNE_SLACK) && chain.retention == retention && chain.best == a
    ensures Easy(c) && c.Of? && Height(c) == chain.bestHeight - 1 == retention + PRUNE_SLACK - 3
    ensures a == Block(c, 1) && b1 == Block(c, 2) && a in chain.accepted
    ensures c.header.prev in chain.headers && c in chain.headers && b1 in chain.headers
    ensures forall h :: h in chain.headers ==> Height(h) <= Height(c) + 1
  {
    chain, c := Trunk(retention, retention + PRUNE_SLACK - 3);
    a := Grow(chain, c, 1, retention + PRUNE_SLACK - 2);
    b1 := Grow(chain, c, 2, retention + PRUNE_SLACK - 1);
  }

  // ------------------------------------------------------------- above the fork

  lemma OvershootFacts(store: Store, store': Store, c: Hash, a: Hash, b1: Hash, b2: Hash)
    requires Rooted(c) && a == Block(c, 1) && b1 == Block(c, 2) && b2 == Block(b1, 3)
    requires b1 in store && b2 in store && PrunedStore(store, b2, Height(b1), store')
    ensures Rooted(a) && Rooted(b2) && MeetHeight(a, b2) == Height(c)
    ensures ForkOf(store', b2, Height(b1), a) == Height(b1)
    ensures !NeverInvents(a, b2, Height(b1), RescanStart(store', b2, Height(b1), a), 0)
  {
    assert MeetHeight(a, b2) == MeetHeight(a, b1) == MeetHeight(c, c) == Height(c);
    WalkStep(store, b2, Height(b1));
    WalkStep(store, b1, Height(b1));
    assert a !in store';
    ReorgIsSoundExactly(store', b2, Height(b1), a, a, 0);
  }

  /**
   * The tip `a` is overtaken by two blocks on its parent, in one synchronization. The fork search answers one above
   * the highest common block, and a coin paid in `a` outlives the rescan.
   */
  method Overshoot() returns (chain: HeaderChain, a: Hash)
    ensures chain.Valid() && a in chain.accepted && Rooted(a) && Rooted(chain.best)
    ensures ForkOf(chain.headers, chain.best, chain.RetainedFloor(), a) == MeetHeight(a, chain.best) + 1
    ensures !NeverInvents(a, chain.best, MeetHeight(a, chain.best) + 1, RescanStart(chain.headers, chain.best, chain.RetainedFloor(), a), 0)
  {
    var c, b1;
    chain, c, a, b1 := Rivals(1);
    var b2, store := Overflow(chain, b1, 3, 1025, Height(b1));
    EasyChainWork(c);
    OvershootFacts(store, chain.headers, c, a, b1, b2);
  }

  // ------------------------------------------------------------- below the fork

  lemma UndershootFacts(store: Store, store': Store, c: Hash, a: Hash, b1: Hash, b2: Hash)
    requires Rooted(c) && c.Of? && a == Block(c, 1) && b1 == Block(c, 2) && b2 == Block(b1, 3)
    requires c.header.prev in store && c in store && b1 in store && b2 in store && Height(c) > 1
    requires PrunedStore(store, b2, Height(c) - 1, store')
    ensures Rooted(a) && Rooted(b2) && MeetHeight(a, b2) == Height(c)
    ensures ForkOf(store', b2, Height(c) - 1, a) == Height(c) - 1
  {
    var floor := Height(c) - 1;
    assert MeetHeight(a, b2) == MeetHeight(a, b1) == MeetHeight(c, c) == Height(c);
    WalkStep(store, b2, floor);
    WalkStep(store, b1, floor);
    WalkStep(store, c, floor);
    WalkStep(store, c.header.prev, floor);
    assert Walk(store, b2, floor) == [b2, b1, c, c.header.prev];
    assert a !in store';
  }

  /** The same under a window of three blocks: the fork search answers one below the highest common block. */
  method Undershoot() returns (chain: HeaderChain, a: Hash)
    ensures chain.Valid() && a in chain.accepted && Rooted(a) && Rooted(chain.best)
    ensures ForkOf(chain.headers, chain.best, chain.RetainedFloor(), a) == MeetHeight(a, chain.best) - 1
  {
    var c, b1;
    chain, c, a, b1 := Rivals(3);
    var b2, store := Overflow(chain, b1, 3, 1027, Height(c) - 1);
    EasyChainWork(c);
    UndershootFacts(store, chain.headers, c, a, b1, b2);
  }

  // --------------------------------------------------------------- out of sight

  lemma OutOfSightFacts(store: Store, store': Store, c: Hash, b1: Hash, b2: Hash, b3: Hash)
    requires Rooted(c) && b1 == Block(c, 1) && b2 == Block(b1, 2) && b3 == Block(b2, 3) && Height(c) > 0
    requires b2 in store && b3 in store && PrunedStore(store, b3, Height(b2), store')
    ensures Rooted(b3) && IsAncestor(c, b3) && !Reaches(store', c, b3)
    ensures ForkOf(store', b3, Height(b2), c) == Height(b2) == Height(c) + 2
    ensures !NeverInvents(c, b3, Height(b2), RescanStart(store', b3, Height(b2), c), 0)
  {
    WalkStep(store, b3, Height(b2));
    WalkStep(store, b2, Height(b2));
    assert Walk(store, b3, Height(b2)) == [b3, b2];
    assert b1 !in store' && c !in store';
    assert !Reaches(store', c, b1) && !Reaches(store', c, b2);
    assert IsAncestor(c, b1) && IsAncestor(c, b2);
    assert MeetHeight(c, b2) == MeetHeight(c, b1) == MeetHeight(c, c) == Height(c);
    ReorgIsSoundExactly(store', b3, Height(b2), c, c, 0);
  }

  method Row() returns (chain: HeaderChain, c: Hash, b1: Hash, b2: Hash)
    ensures fresh(chain) && Growing(chain, 1025) && chain.retention == 1 && chain.best == b2 && chain.bestHeight == 1024
    ensures Easy(c) && Height(c) == 1022 && b1 == Block(c, 1) && b2 == Block(b1, 2) && c in chain.accepted && b2 in chain.headers
    ensures forall h :: h in chain.headers ==> Height(h) <= 1024
  {
    chain, c := Trunk(1, 1022);
    b1 := Grow(chain, c, 1, 1023);
    b2 := Grow(chain, b1, 2, 1024);
  }

  /**
   * Three blocks on the tip `c`, in one synchronization. `c` is on the best chain and is not found there. The fork
   * search answers two above it, and a coin that the first new block spends outlives the rescan.
   */
  method OutOfSight() returns (chain: HeaderChain, c: Hash)
    ensures chain.Valid() && c in chain.accepted && Rooted(c) && Rooted(chain.best)
    ensures IsAncestor(c, chain.best) && !Reaches(chain.headers, c, chain.best)
    ensures ForkOf(chain.headers, chain.best, chain.RetainedFloor(), c) == Height(c) + 2
    ensures !NeverInvents(c, chain.best, Height(c) + 2, RescanStart(chain.headers, chain.best, chain.RetainedFloor(), c), 0)
  {
    var b1, b2;
    chain, c, b1, b2 := Row();
    var b3, store := Overflow(chain, b2, 3, 1025, Height(b2));
    EasyChainWork(c);
    OutOfSightFacts(store, chain.headers, c, b1, b2, b3);
  }

  // ---------------------------------------------------------------- skipped blocks

  lemma SkippedFacts(store: Store, c1: Hash, c2: Hash, a3: Hash, b3: Hash, b4: Hash)
    requires c1 == Block(Genesis, 1) && c2 == Block(c1, 2) && a3 == Block(c2, 3) && b3 == Block(c2, 4) && b4 == Block(b3, 5)
    requires store.Keys == {Genesis, c1, c2, a3, b3, b4}
    ensures Rooted(c1) && Rooted(a3) && Rooted(b4) && IsAncestor(c1, a3)
    ensures StoredDown(store, a3, 0) && StoredDown(store, b4, 0)
    ensures MeetHeight(a3, b4) == ForkOf(store, b4, 0, a3) == 2
    ensures !NeverInvents(c1, b4, 2, RescanStart(store, b4, 0, a3), 0)
  {
    assert MeetHeight(a3, b4) == MeetHeight(a3, b3) == MeetHeight(c2, c2) == 2;
    assert StoredDown(store, c2, 0) && StoredDown(store, c2, 2);
    assert StoredDown(store, b3, 0) && StoredDown(store, b3, 2);
    ReorgIsSoundExactly(store, b4, 0, a3, c1, 0);
  }

  method Two() returns (chain: HeaderChain, c1: Hash, c2: Hash)
    ensures fresh(chain) && Growing(chain, 3) && chain.retention == 0 && chain.best == c2 && chain.bestHeight == 2
    ensures c1 == Block(Genesis, 1) && c2 == Block(c1, 2) && chain.headers.Keys == {Genesis, c1, c2}
  {
    chain := new HeaderChain(2);
    c1 := Grow(chain, Genesis, 1, 1);
    c2 := Grow(chain, c1, 2, 2);
  }

  method Three() returns (chain: HeaderChain, c1: Hash, c2: Hash, a3: Hash)
    ensures fresh(chain) && Growing(chain, 4) && chain.retention == 0 && chain.best == a3 && chain.bestHeight == 3
    ensures c1 == Block(Genesis, 1) && c2 == Block(c1, 2) && a3 == Block(c2, 3) && a3 in chain.accepted
    ensures chain.headers.Keys == {Genesis, c1, c2, a3}
  {
    chain, c1, c2 := Two();
    a3 := Grow(chain, c2, 3, 3);
  }

  method Four() returns (chain: HeaderChain, c1: Hash, c2: Hash, a3: Hash, b3: Hash)
    ensures fresh(chain) && Growing(chain, 5) && chain.retention == 0 && chain.bestHeight == 3
    ensures c1 == Block(Genesis, 1) && c2 == Block(c1, 2) && a3 == Block(c2, 3) && b3 == Block(c2, 4) && a3 in chain.accepted
    ensures chain.headers.Keys == {Genesis, c1, c2, a3, b3}
  {
    chain, c1, c2, a3 := Three();
    b3 := Grow(chain, c2, 4, 4);
  }

  /**
   * `c1`, `c2` and `a3`, overtaken by `b3` and `b4` on `c2`, with every header stored. The fork search is right.
   * A wallet that has scanned no further than `c1` is told to go on above the fork, so that `c2` is never scanned
   * and a coin that `c2` spends can stay.
   */
  method Skipped() returns (chain: HeaderChain, c1: Hash, a3: Hash)
    ensures chain.Valid() && Rooted(c1) && Rooted(a3) && Rooted(chain.best) && IsAncestor(c1, a3) && a3 in chain.accepted
    ensures StoredDown(chain.headers, a3, 0) && StoredDown(chain.headers, chain.best, 0) && chain.RetainedFloor() == 0
    ensures ForkOf(chain.headers, chain.best, 0, a3) == MeetHeight(a3, chain.best) == Height(c1) + 1
    ensures !NeverInvents(c1, chain.best, 2, RescanStart(chain.headers, chain.best, 0, a3), 0)
  {
    var c2, b3;
    chain, c1, c2, a3, b3 := Four();
    var b4 := Grow(chain, b3, 5, 5);
    SkippedFacts(chain.headers, c1, c2, a3, b3, b4);
  }
}
