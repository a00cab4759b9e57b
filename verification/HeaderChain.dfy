/**
 * The work-based Bitcoin header chain with pruning.
 *
 * Proof of work and difficulty are one verdict supplied by the caller. Genesis is always present, as in every
 * chain the wallet builds.
 */
module HeaderChain {
  import opened Machine
  import opened Lineage

  const PRUNE_SLACK: nat := 1024

  datatype StoredHeader = StoredHeader(prev: Hash, height: u32, work: u128)

  type Store = map<Hash, StoredHeader>

  /** The blocks from `h` down that are stored without a gap and not below `floor`. */
  function Walk(store: Store, h: Hash, floor: nat): seq<Hash> {
    if h !in store || Height(h) < floor then []
    else if h.Of? then [h] + Walk(store, h.header.prev, floor)
    else [h]
  }

  /** One step of a walk. */
  lemma WalkOn(store: Store, floor: nat, walked: seq<Hash>, h: Hash)
    requires h in store && floor <= Height(h)
    ensures walked + Walk(store, h, floor) ==
            if h.Of? then walked + [h] + Walk(store, h.header.prev, floor) else walked + [h]
  {
  }

  /** Whether the lineage of `h` is stored from `h` down to height `k`. */
  predicate StoredDown(store: Store, h: Hash, k: nat)
    requires k <= Height(h)
  {
    h in store && (Height(h) == k || StoredDown(store, h.header.prev, k))
  }

  lemma {:induction false} StoredDownMeans(store: Store, h: Hash, k: nat, j: nat)
    requires k <= j <= Height(h) && StoredDown(store, h, k)
    ensures AncestorAt(h, j) in store && StoredDown(store, h, j)
  {
    if j < Height(h) { StoredDownMeans(store, h.header.prev, k, j); }
  }

  lemma {:induction false} StoredDownStep(store: Store, h: Hash, k: nat)
    requires 0 < k <= Height(h) && StoredDown(store, h, k)
    ensures StoredDown(store, h, k - 1) <==> AncestorAt(h, k - 1) in store
  {
    if k < Height(h) { StoredDownStep(store, h.header.prev, k); }
  }

  /** Lowest height down to which the lineage of `h` is stored, but not below `floor`. */
  function Lowest(store: Store, h: Hash, floor: nat): (k: nat)
    requires h in store && floor <= Height(h)
    ensures floor <= k <= Height(h)
  {
    if Height(h) == floor || h.header.prev !in store then Height(h) else Lowest(store, h.header.prev, floor)
  }

  lemma {:induction false} WalkLength(store: Store, h: Hash, floor: nat)
    requires Rooted(h)
    ensures h in store && floor <= Height(h) ==> |Walk(store, h, floor)| == Height(h) - Lowest(store, h, floor) + 1
    ensures |Walk(store, h, floor)| <= SatSub(Height(h) + 1, floor)
  {
    if h in store && floor <= Height(h) && h.Of? {
      WalkLength(store, h.header.prev, floor);
    }
  }

  /** A walk lists the lineage from the top down, as far as it is stored. */
  lemma {:induction false} WalkAt(store: Store, h: Hash, floor: nat, i: nat)
    requires Rooted(h) && i < |Walk(store, h, floor)|
    ensures i <= Height(h) && Walk(store, h, floor)[i] == AncestorAt(h, Height(h) - i)
    ensures Walk(store, h, floor)[i] in store
  {
    if i > 0 {
      WalkAt(store, h.header.prev, floor, i - 1);
    }
  }

  lemma {:induction false} LowestIsLowest(store: Store, h: Hash, floor: nat)
    requires h in store && floor <= Height(h)
    ensures StoredDown(store, h, Lowest(store, h, floor))
    ensures forall k :: floor <= k <= Height(h) ==> (StoredDown(store, h, k) <==> Lowest(store, h, floor) <= k)
  {
    if Height(h) != floor && h.header.prev in store {
      LowestIsLowest(store, h.header.prev, floor);
    }
  }

  function Reverse(s: seq<Hash>): seq<Hash> { if s == [] then [] else Reverse(s[1..]) + [s[0]] }

  lemma {:induction false} ReverseAt(s: seq<Hash>)
    ensures |Reverse(s)| == |s|
    ensures forall i :: 0 <= i < |s| ==> Reverse(s)[i] == s[|s| - 1 - i]
  {
    if s != [] { ReverseAt(s[1..]); }
  }

  /** What a stored header must say about its block. */
  predicate Faithful(genesisWork: nat, store: Store, h: Hash)
    requires h in store
  {
    Rooted(h) && Height(h) <= U32_MAX && store[h] == StoredHeader(PrevOf(h), Height(h), ChainWork(genesisWork, h))
  }

  /** The headers a prune at `floor` leaves. */
  ghost predicate PrunedStore(store: Store, best: Hash, floor: nat, store': Store) {
    && store'.Keys == Elements(Walk(store, best, floor)) + {Genesis}
    && forall h :: h in store' ==> h in store && store'[h] == store[h]
  }

  /** Genesis and the tip are stored, and every stored header tells the truth about its lineage. */
  ghost predicate StoreOk(genesisWork: nat, store: Store, best: Hash) {
    && Genesis in store && best in store
    && forall h {:trigger Faithful(genesisWork, store, h)} :: h in store ==> Faithful(genesisWork, store, h)
  }

  /** No header ever accepted has more work than the tip. */
  ghost predicate NoneBetter(genesisWork: nat, accepted: set<Hash>, bestWork: nat) {
    forall h :: h in accepted ==> Rooted(h) && ChainWork(genesisWork, h) <= bestWork
  }

  /** What is stored for a header. */
  function Entry(genesisWork: nat, header: Header): StoredHeader
    requires Height(Of(header)) <= U32_MAX
  {
    StoredHeader(header.prev, Height(Of(header)), ChainWork(genesisWork, Of(header)))
  }

  /** Pruning waits until the store has outgrown the window by the slack. */
  ghost predicate PrunedIfLarge(store: Store, best: Hash, retention: nat, store': Store) {
    if retention == 0 || Height(best) <= retention || |store| <= retention + PRUNE_SLACK then store' == store
    else PrunedStore(store, best, Height(best) - retention, store')
  }

  lemma AddKeepsStore(genesisWork: nat, store: Store, best: Hash, header: Header, best': Hash)
    requires StoreOk(genesisWork, store, best) && header.prev in store && (best' == best || best' == Of(header))
    requires store[header.prev].height < U32_MAX
    ensures Rooted(Of(header)) && Height(Of(header)) == store[header.prev].height + 1
    ensures ChainWork(genesisWork, Of(header)) == Min(store[header.prev].work + HeaderWork(header.bits), U128_MAX)
    ensures StoreOk(genesisWork, store[Of(header) := Entry(genesisWork, header)], best')
  {
    var h := Of(header);
    assert Faithful(genesisWork, store, header.prev);
    WorkSaturatesOnce(genesisWork, h);
    var store' := store[h := Entry(genesisWork, header)];
    forall x | x in store' ensures Faithful(genesisWork, store', x) {
      if x != h { assert Faithful(genesisWork, store, x); }
    }
  }

  class HeaderChain {
    const genesisWork: u128
    var headers: Store
    var best: Hash
    var bestHeight: u32
    var bestWork: u128
    var retention: nat
    /** Every header ever accepted, whether or not it is still stored. */
    ghost var accepted: set<Hash>

    ghost predicate Valid()
      reads this
    {
      && StoreOk(genesisWork, headers, best)
      && bestHeight == Height(best) && bestWork == ChainWork(genesisWork, best)
      && headers.Keys <= accepted
      && NoneBetter(genesisWork, accepted, bestWork)
    }

    /** The memory bound that pruning keeps. */
    ghost predicate Bounded()
      reads this
    {
      retention == 0 || bestHeight <= retention || |headers| <= retention + PRUNE_SLACK
    }

    /** `anchored`: only genesis is known. */
    constructor (genesisWork: u128)
      ensures Valid() && Bounded() && this.genesisWork == genesisWork
      ensures headers.Keys == {Genesis} == accepted && best == Genesis && retention == 0
    {
      this.genesisWork := genesisWork;
      headers := map[Genesis := StoredHeader(Unknown(0), 0, genesisWork)];
      best, bestHeight, bestWork, retention := Genesis, 0, genesisWork, 0;
      accepted := {Genesis};
    }

    /**
     * `add_header`: accepted if it was stored already, or is valid and sits one above a stored parent. The tip
     * moves only to more work, and no header ever accepted has more work than the tip.
     */
    method AddHeader(header: Header, height: u32, valid: bool) returns (ok: bool)
      requires Valid() && Bounded()
      modifies this
      ensures Valid() && Bounded() && retention == old(retention)
      ensures var h := Of(header);
              && (ok <==> h in old(headers) || (valid && header.prev in old(headers) && height == Height(h)))
              && accepted == (if ok then old(accepted) + {h} else old(accepted))
              && best == (if ok && h !in old(headers) && ChainWork(genesisWork, h) > old(bestWork) then h else old(best))
      ensures old(bestWork) <= bestWork
      ensures if !ok || Of(header) in old(headers) then headers == old(headers)
              else PrunedIfLarge(old(headers)[Of(header) := Entry(genesisWork, header)], best, retention, headers)
    {
      var hash := Of(header);
      if hash in headers { return true; }
      if !valid { return false; }
      if height == 0 { return false; }
      if header.prev !in headers { return false; }
      var parent := headers[header.prev];
      assert Faithful(genesisWork, headers, header.prev);
      if height != parent.height + 1 { return false; }
      Accept(header, parent);
      ok := true;
    }

    method Accept(header: Header, parent: StoredHeader)
      requires Valid() && Of(header) !in headers && header.prev in headers && parent == headers[header.prev]
      requires parent.height < U32_MAX && Height(Of(header)) <= U32_MAX
      modifies this`headers, this`best, this`bestHeight, this`bestWork, this`accepted
      ensures Valid() && Bounded() && old(bestWork) <= bestWork && accepted == old(accepted) + {Of(header)}
      ensures PrunedIfLarge(old(headers)[Of(header) := Entry(genesisWork, header)], best, retention, headers)
      ensures best == if ChainWork(genesisWork, Of(header)) > old(bestWork) then Of(header) else old(best)
    {
      Insert(header, parent);
      Prune();
    }

    /** The part of `add_header` that stores a header on its parent and moves the tip to more work. */
    method Insert(header: Header, parent: StoredHeader)
      requires Valid() && Of(header) !in headers && header.prev in headers && parent == headers[header.prev]
      requires parent.height < U32_MAX && Height(Of(header)) <= U32_MAX
      modifies this`headers, this`best, this`bestHeight, this`bestWork, this`accepted
      ensures Valid() && old(bestWork) <= bestWork && accepted == old(accepted) + {Of(header)}
      ensures headers == old(headers)[Of(header) := Entry(genesisWork, header)]
      ensures best == if ChainWork(genesisWork, Of(header)) > old(bestWork) then Of(header) else old(best)
    {
      var hash, height := Of(header), parent.height + 1;
      AddKeepsStore(genesisWork, headers, best, header, best);
      AddKeepsStore(genesisWork, headers, best, header, hash);
      var work: u128 := Min(parent.work + HeaderWork(header.bits), U128_MAX);
      headers := headers[hash := StoredHeader(header.prev, height, work)];
      accepted := accepted + {hash};
      if work > bestWork {
        bestHeight, best, bestWork := height, hash, work;
      }
    }

    /** `prune`: only once the store has outgrown the window by the slack. */
    method Prune()
      requires Valid()
      modifies this`headers
      ensures Valid() && Bounded()
      ensures PrunedIfLarge(old(headers), best, retention, headers)
    {
      if retention == 0 || bestHeight <= retention { return; }
      if |headers| <= retention + PRUNE_SLACK { return; }
      PruneForce();
    }

    /** `prune_force`: keep the best chain down to the window, and genesis. */
    method PruneForce()
      requires Valid()
      modifies this`headers
      ensures Valid()
      ensures if retention == 0 || bestHeight <= retention then headers == old(headers)
              else PrunedStore(old(headers), best, bestHeight - retention, headers) && |headers| <= retention + 2
    {
      if retention == 0 || bestHeight <= retention { return; }
      var keepFrom := bestHeight - retention;
      var keep := CollectKept(keepFrom);
      var kept := Retain(headers, keep + {Genesis});
      PruneFits(headers, best, keepFrom, kept, genesisWork);
      headers := kept;
    }

    /** The loop of `prune_force`: walk the best chain down to the window. */
    method CollectKept(keepFrom: nat) returns (keep: set<Hash>)
      requires Valid()
      ensures keep == Elements(Walk(headers, best, keepFrom))
    {
      keep := {};
      var cursor := best;
      ghost var walked: seq<Hash> := [];
      while cursor in headers && headers[cursor].height >= keepFrom
        invariant Walk(headers, best, keepFrom) == walked + Walk(headers, cursor, keepFrom)
        invariant keep == Elements(walked)
        decreases cursor
      {
        assert Faithful(genesisWork, headers, cursor);
        ElementsSnoc(walked, cursor);
        WalkOn(headers, keepFrom, walked, cursor);
        keep := keep + {cursor};
        walked := walked + [cursor];
        if headers[cursor].height == 0 { return; }
        cursor := headers[cursor].prev;
      }
      assert cursor in headers ==> Faithful(genesisWork, headers, cursor);
      assert walked + [] == walked;
    }

    /** `set_retention`. */
    method SetRetention(retention: nat)
      requires Valid()
      modifies this
      ensures Valid() && Bounded() && this.retention == retention
      ensures best == old(best) && bestHeight == old(bestHeight) && bestWork == old(bestWork) && accepted == old(accepted)
      ensures if retention == 0 || bestHeight <= retention then headers == old(headers)
              else PrunedStore(old(headers), best, bestHeight - retention, headers)
    {
      this.retention := retention;
      PruneForce();
    }

    /** `retained_floor`: the window length is cut to 32 bits. */
    function RetainedFloor(): (floor: nat)
      reads this
      ensures retention == 0 || bestHeight == 0 ==> floor == 0
      ensures 0 < retention <= bestHeight && retention <= U32_MAX ==> floor + retention == bestHeight
    {
      if retention == 0 then 0 else SatSub(bestHeight, retention % (U32_MAX + 1))
    }

    /** `hashes_from`: the best chain at heights from `start` up, ascending, as far down as it is stored. */
    method HashesFrom(start: nat) returns (hashes: seq<Hash>)
      requires Valid()
      ensures hashes == Reverse(Walk(headers, best, start))
    {
      var down: seq<Hash> := [];
      var hash := best;
      while hash in headers && headers[hash].height >= start
        invariant Walk(headers, best, start) == down + Walk(headers, hash, start)
        decreases hash
      {
        assert Faithful(genesisWork, headers, hash);
        WalkOn(headers, start, down, hash);
        down := down + [hash];
        if headers[hash].height == 0 { return Reverse(down); }
        hash := headers[hash].prev;
      }
      assert hash in headers ==> Faithful(genesisWork, headers, hash);
      assert down + [] == down;
      hashes := Reverse(down);
    }

    /** `is_active_anchor`: the block is on the best chain at this height, and the chain is stored down to it. */
    method IsActiveAnchor(hash: Hash, height: nat) returns (active: bool)
      requires Valid()
      ensures active == OnChain(headers, best, hash, height)
    {
      var cursor := best;
      while cursor in headers
        invariant OnChain(headers, best, hash, height) == OnChain(headers, cursor, hash, height)
        decreases cursor
      {
        assert Faithful(genesisWork, headers, cursor);
        if headers[cursor].height <= height {
          return headers[cursor].height == height && cursor == hash;
        }
        cursor := headers[cursor].prev;
      }
      active := false;
    }
  }

  predicate OnChain(store: Store, top: Hash, hash: Hash, height: nat) {
    top in store &&
    if Height(top) <= height then Height(top) == height && top == hash else OnChain(store, top.header.prev, hash, height)
  }

  /** The anchor test in terms of lineage alone. */
  lemma {:induction false} OnChainExactly(store: Store, top: Hash, hash: Hash, height: nat)
    ensures OnChain(store, top, hash, height)
       <==> height <= Height(top) && AncestorAt(top, height) == hash && StoredDown(store, top, height)
  {
    if top in store && Height(top) > height {
      OnChainExactly(store, top.header.prev, hash, height);
    }
  }

  /** What `hashes_from` returns, in terms of lineage alone. */
  lemma HashesFromExactly(store: Store, best: Hash, start: nat)
    requires Rooted(best) && best in store
    ensures var r := Reverse(Walk(store, best, start));
            if start > Height(best) then r == []
            else var lo := Lowest(store, best, start);
              && |r| == Height(best) - lo + 1
              && (forall i :: 0 <= i < |r| ==> r[i] == AncestorAt(best, lo + i))
              && (StoredDown(store, best, start) ==> lo == start)
  {
    var walk := Walk(store, best, start);
    WalkLength(store, best, start);
    ReverseAt(walk);
    if start <= Height(best) {
      LowestIsLowest(store, best, start);
      forall i | 0 <= i < |walk| ensures Reverse(walk)[i] == AncestorAt(best, Lowest(store, best, start) + i) {
        WalkAt(store, best, start, |walk| - 1 - i);
      }
    }
  }

  function Retain(store: Store, keep: set<Hash>): Store { map h | h in store && h in keep :: store[h] }

  lemma PruneKeeps(store: Store, best: Hash, floor: nat, store': Store, genesisWork: nat)
    requires StoreOk(genesisWork, store, best) && floor <= Height(best)
    requires store' == Retain(store, Elements(Walk(store, best, floor)) + {Genesis})
    ensures PrunedStore(store, best, floor, store')
    ensures StoreOk(genesisWork, store', best) && store'.Keys <= store.Keys && Rooted(best)
  {
    assert Faithful(genesisWork, store, best);
    assert Walk(store, best, floor)[0] == best;
    forall h | h in Elements(Walk(store, best, floor)) ensures h in store {
      var i :| 0 <= i < |Walk(store, best, floor)| && Walk(store, best, floor)[i] == h;
      WalkAt(store, best, floor, i);
    }
    forall h | h in store' ensures Faithful(genesisWork, store', h) {
      assert Faithful(genesisWork, store, h);
    }
  }

  lemma PruneSize(store: Store, best: Hash, floor: nat, store': Store)
    requires Rooted(best) && floor <= Height(best) && PrunedStore(store, best, floor, store')
    ensures |store'| <= Height(best) - floor + 2
  {
    WalkLength(store, best, floor);
    ElementsCount(Walk(store, best, floor));
    assert |store'| == |store'.Keys|;
  }

  lemma PruneFits(store: Store, best: Hash, floor: nat, store': Store, genesisWork: nat)
    requires StoreOk(genesisWork, store, best) && floor <= Height(best)
    requires store' == Retain(store, Elements(Walk(store, best, floor)) + {Genesis})
    ensures PrunedStore(store, best, floor, store') && StoreOk(genesisWork, store', best)
    ensures |store'| <= Height(best) - floor + 2
  {
    PruneKeeps(store, best, floor, store', genesisWork);
    PruneSize(store, best, floor, store');
  }

  lemma {:induction false} PruneInvisibleFrom(store: Store, h: Hash, floor: nat, store': Store, start: nat)
    requires floor <= start
    requires Elements(Walk(store, h, floor)) <= store'.Keys <= store.Keys
    ensures Walk(store', h, start) == Walk(store, h, start)
    ensures forall hash :: OnChain(store', h, hash, start) == OnChain(store, h, hash, start)
  {
    if h in store && floor <= Height(h) {
      assert h in Elements(Walk(store, h, floor));
      if h.Of? {
        assert Walk(store, h, floor)[1..] == Walk(store, h.header.prev, floor);
        forall x | x in Elements(Walk(store, h.header.prev, floor)) ensures x in Elements(Walk(store, h, floor)) {
        }
        PruneInvisibleFrom(store, h.header.prev, floor, store', start);
      }
    }
  }

  /** A prune does not change the answer to any question about heights inside the window. */
  lemma PruneInvisibleInWindow(store: Store, best: Hash, floor: nat, store': Store, start: nat)
    requires PrunedStore(store, best, floor, store') && floor <= start
    ensures Reverse(Walk(store', best, start)) == Reverse(Walk(store, best, start))
    ensures forall hash :: OnChain(store', best, hash, start) == OnChain(store, best, hash, start)
  {
    PruneInvisibleFrom(store, best, floor, store', start);
  }
}
