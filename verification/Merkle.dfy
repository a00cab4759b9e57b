/** Merkle commitments: the in-place root, inclusion proofs and the commitment to the unspent outputs. */
module Merkle {
  import opened Machine
  import opened Sorting
  import opened GovernanceTypes

  type Hash = int
  type PairHash = (Hash, Hash) -> Hash

  const ZERO_HASH: Hash := 0

  // ----------------------------------------------------------------- the tree

  /** Nodes on level `d` above `n` leaves. */
  function Width(n: nat, d: nat): nat { if d == 0 then n else (Width(n, d - 1) + 1) / 2 }

  function Depth(n: nat): nat { if n <= 1 then 0 else 1 + Depth((n + 1) / 2) }

  lemma {:induction false} WidthShift(n: nat, d: nat)
    ensures Width((n + 1) / 2, d) == Width(n, d + 1)
  {
    if d > 0 { WidthShift(n, d - 1); }
  }

  lemma {:induction false} WidthAtDepth(n: nat)
    requires n > 0
    ensures Width(n, Depth(n)) == 1
  {
    if n > 1 {
      WidthAtDepth((n + 1) / 2);
      WidthShift(n, Depth((n + 1) / 2));
    }
  }

  lemma {:induction false} WidthPositive(n: nat, d: nat)
    requires n > 0
    ensures Width(n, d) > 0
  {
    if d > 0 { WidthPositive(n, d - 1); }
  }

  /** The right child of node `j`, or the left one again where the level below has an odd end. */
  function RightChild(w: nat, j: nat): nat
    requires w > 0
  {
    Min(2 * j + 1, w - 1)
  }

  /** Node `i` of level `d`, top down: the hash of its two children. */
  function Node(h: PairHash, leaves: seq<Hash>, d: nat, i: nat): Hash
    requires i < Width(|leaves|, d)
    decreases d
  {
    if d == 0 then leaves[i]
    else
      var w := Width(|leaves|, d - 1);
      h(Node(h, leaves, d - 1, 2 * i), Node(h, leaves, d - 1, RightChild(w, i)))
  }

  function Root(h: PairHash, leaves: seq<Hash>): Hash {
    if leaves == [] then ZERO_HASH
    else
      WidthAtDepth(|leaves|);
      Node(h, leaves, Depth(|leaves|), 0)
  }

  /** Neighbours hashed in pairs, left before right, the last one with itself if it has no neighbour. */
  function PairUp(h: PairHash, leaves: seq<Hash>): (pairs: seq<Hash>)
    ensures |pairs| == (|leaves| + 1) / 2
  {
    seq((|leaves| + 1) / 2, i requires 0 <= i < (|leaves| + 1) / 2 =>
      h(leaves[2 * i], if 2 * i + 1 < |leaves| then leaves[2 * i + 1] else leaves[2 * i]))
  }

  lemma FirstOfPairs(h: PairHash, leaves: seq<Hash>, i: nat)
    requires i < Width(|leaves|, 1)
    ensures i < |PairUp(h, leaves)| && Node(h, leaves, 1, i) == PairUp(h, leaves)[i]
  {
    assert Width(|leaves|, 0) == |leaves|;
    assert Node(h, leaves, 0, 2 * i) == leaves[2 * i];
    assert Node(h, leaves, 0, RightChild(|leaves|, i)) == leaves[RightChild(|leaves|, i)];
  }

  lemma NextOfPairs(h: PairHash, a: seq<Hash>, b: seq<Hash>, d: nat, i: nat, w: nat)
    requires d > 0 && Width(|a|, d) == Width(|b|, d - 1) == w && 2 * i < w
    requires Node(h, a, d, 2 * i) == Node(h, b, d - 1, 2 * i)
    requires Node(h, a, d, RightChild(w, i)) == Node(h, b, d - 1, RightChild(w, i))
    ensures i < Width(|a|, d + 1) == Width(|b|, d) && Node(h, a, d + 1, i) == Node(h, b, d, i)
  {
  }

  ghost predicate PairedAt(h: PairHash, leaves: seq<Hash>, pairs: seq<Hash>, i: nat)
    requires i < |pairs| == Width(|leaves|, 1)
  {
    pairs[i] == Node(h, leaves, 1, i)
  }

  lemma {:induction false} NodeOfPairs(h: PairHash, leaves: seq<Hash>, pairs: seq<Hash>, d: nat, i: nat)
    requires |pairs| == Width(|leaves|, 1) && (forall k :: 0 <= k < |pairs| ==> PairedAt(h, leaves, pairs, k))
    requires i < Width(|leaves|, d + 1)
    ensures i < Width(|pairs|, d) && Node(h, leaves, d + 1, i) == Node(h, pairs, d, i)
    decreases d
  {
    if d == 0 {
      assert PairedAt(h, leaves, pairs, i);
    } else {
      var w := Width(|leaves|, d);
      WidthShift(|leaves|, d - 1);
      NodeOfPairs(h, leaves, pairs, d - 1, 2 * i);
      NodeOfPairs(h, leaves, pairs, d - 1, RightChild(w, i));
      NextOfPairs(h, leaves, pairs, d, i, w);
    }
  }

  /** The root bottom up: of nothing it is zero, of one leaf the leaf, and of more the root of their pairs. */
  lemma RootExactly(h: PairHash, leaves: seq<Hash>)
    ensures Root(h, leaves) == if |leaves| == 0 then 0 else if |leaves| == 1 then leaves[0] else Root(h, PairUp(h, leaves))
  {
    if |leaves| > 1 {
      WidthAtDepth(|leaves|);
      var pairs := PairUp(h, leaves);
      forall i | 0 <= i < |pairs| ensures PairedAt(h, leaves, pairs, i) { FirstOfPairs(h, leaves, i); }
      NodeOfPairs(h, leaves, pairs, Depth(|leaves|) - 1, 0);
    }
  }

  /**
   * `compute_merkle_root_from_txids`: one buffer, overwritten level by level, with the last hash of an odd level
   * written once more behind it.
   */
  method ComputeMerkleRoot(h: PairHash, txids: seq<Hash>) returns (root: Hash)
    ensures root == Root(h, txids)
  {
    var len := |txids|;
    if len == 0 { return ZERO_HASH; }
    var buf := new Hash[len + 1];
    var k := 0;
    while k < len
      invariant 0 <= k <= len
      invariant forall i :: 0 <= i < k ==> buf[i] == txids[i]
    {
      buf[k] := txids[k];
      k := k + 1;
    }
    ghost var d := 0;
    assert buf[..len] == Level(h, txids, 0);
    while len > 1
      invariant 0 < len <= |txids| && len == Width(|txids|, d) && d + Depth(len) == Depth(|txids|)
      invariant buf[..len] == Level(h, txids, d)
    {
      LevelUp(h, txids, d);
      len := ReduceLevel(h, buf, len);
      d := d + 1;
    }
    assert buf[0] == buf[..len][0];
    root := buf[0];
  }

  /** All nodes of level `d`. */
  ghost function Level(h: PairHash, leaves: seq<Hash>, d: nat): (level: seq<Hash>)
    ensures |level| == Width(|leaves|, d)
  {
    seq(Width(|leaves|, d), i requires 0 <= i < Width(|leaves|, d) => Node(h, leaves, d, i))
  }

  /** The level above a given one. */
  ghost function NextLevel(h: PairHash, level: seq<Hash>): seq<Hash> {
    seq((|level| + 1) / 2, i requires 0 <= i < (|level| + 1) / 2 => h(level[2 * i], level[RightChild(|level|, i)]))
  }

  lemma LevelUp(h: PairHash, leaves: seq<Hash>, d: nat)
    ensures NextLevel(h, Level(h, leaves, d)) == Level(h, leaves, d + 1)
  {
  }

  /** A level of even length: the last node is repeated if need be. */
  ghost function Padded(level: seq<Hash>): seq<Hash>
    requires level != []
  {
    if |level| % 2 == 0 then level else level + [level[|level| - 1]]
  }

  lemma NextFromPadded(h: PairHash, level: seq<Hash>, i: nat)
    requires level != [] && 2 * i < |level|
    ensures |Padded(level)| == 2 * |NextLevel(h, level)|
    ensures NextLevel(h, level)[i] == h(Padded(level)[2 * i], Padded(level)[2 * i + 1])
  {
    assert Padded(level)[2 * i + 1] == level[RightChild(|level|, i)];
  }

  /** Overwrite the level at the front of the buffer by the level above it. */
  method ReduceLevel(h: PairHash, buf: array<Hash>, w: nat) returns (half: nat)
    requires 1 < w < buf.Length
    modifies buf
    ensures half == (w + 1) / 2
    ensures buf[..half] == NextLevel(h, old(buf[..w]))
  {
    ghost var level := buf[..w];
    var len := w;
    if len % 2 == 1 {
      buf[len] := buf[len - 1];
      len := len + 1;
    }
    half := len / 2;
    ghost var padded, next := Padded(level), NextLevel(h, level);
    assert buf[..len] == padded;
    var i := 0;
    while i < half
      invariant 0 <= i <= half
      invariant forall j :: 0 <= j < i ==> buf[j] == next[j]
      invariant forall j :: 2 * i <= j < len ==> buf[j] == padded[j]
    {
      NextFromPadded(h, level, i);
      buf[i] := h(buf[2 * i], buf[2 * i + 1]);
      i := i + 1;
    }
  }

  // --------------------------------------------------------- inclusion proofs

  function Fold(h: PairHash, current: Hash, siblings: seq<Hash>, index: nat): Hash
    decreases |siblings|
  {
    if siblings == [] then current
    else Fold(h, if index % 2 == 0 then h(current, siblings[0]) else h(siblings[0], current), siblings[1..], index / 2)
  }

  /** `verify_inclusion`. */
  method VerifyInclusion(h: PairHash, txid: Hash, root: Hash, siblings: seq<Hash>, index: nat) returns (ok: bool)
    ensures ok <==> Fold(h, txid, siblings, index) == root
  {
    var current, idx, k := txid, index, 0;
    while k < |siblings|
      invariant 0 <= k <= |siblings|
      invariant Fold(h, current, siblings[k..], idx) == Fold(h, txid, siblings, index)
    {
      assert siblings[k..][0] == siblings[k] && siblings[k..][1..] == siblings[k + 1..];
      current := if idx % 2 == 0 then h(current, siblings[k]) else h(siblings[k], current);
      idx := idx / 2;
      k := k + 1;
    }
    ok := current == root;
  }

  function SiblingIndex(w: nat, i: nat): nat
    requires i < w
  {
    if i % 2 == 0 then Min(i + 1, w - 1) else i - 1
  }

  /** The genuine proof for node `i` of level `d`, up to level `top`. */
  function PathTo(h: PairHash, leaves: seq<Hash>, d: nat, i: nat, top: nat): seq<Hash>
    requires d <= top && i < Width(|leaves|, d)
    decreases top - d
  {
    if d == top then []
    else [Node(h, leaves, d, SiblingIndex(Width(|leaves|, d), i))] + PathTo(h, leaves, d + 1, i / 2, top)
  }

  function Proof(h: PairHash, leaves: seq<Hash>, i: nat): seq<Hash>
    requires i < |leaves|
  {
    PathTo(h, leaves, 0, i, Depth(|leaves|))
  }

  lemma StepUp(h: PairHash, leaves: seq<Hash>, d: nat, i: nat)
    requires i < Width(|leaves|, d)
    ensures i / 2 < Width(|leaves|, d + 1)
    ensures var x, s := Node(h, leaves, d, i), Node(h, leaves, d, SiblingIndex(Width(|leaves|, d), i));
            Node(h, leaves, d + 1, i / 2) == if i % 2 == 0 then h(x, s) else h(s, x)
  {
  }

  lemma {:induction false} PathFolds(h: PairHash, leaves: seq<Hash>, d: nat, i: nat, top: nat)
    requires d <= top && i < Width(|leaves|, d) && Width(|leaves|, top) == 1
    ensures |PathTo(h, leaves, d, i, top)| == top - d
    ensures Fold(h, Node(h, leaves, d, i), PathTo(h, leaves, d, i, top), i) == Node(h, leaves, top, 0)
    decreases top - d
  {
    if d < top {
      StepUp(h, leaves, d, i);
      PathFolds(h, leaves, d + 1, i / 2, top);
      var path := PathTo(h, leaves, d, i, top);
      assert path[1..] == PathTo(h, leaves, d + 1, i / 2, top);
    }
  }

  /** Every genuine proof is accepted. */
  lemma GenuineProofsAccepted(h: PairHash, leaves: seq<Hash>, i: nat)
    requires i < |leaves|
    ensures |Proof(h, leaves, i)| == Depth(|leaves|)
    ensures Fold(h, leaves[i], Proof(h, leaves, i), i) == Root(h, leaves)
  {
    WidthAtDepth(|leaves|);
    PathFolds(h, leaves, 0, i, Depth(|leaves|));
  }

  /** Two different pairs with the same hash. */
  predicate Collides(h: PairHash, p: (Hash, Hash), q: (Hash, Hash)) {
    p != q && h(p.0, p.1) == h(q.0, q.1)
  }

  /** What is hashed into node `j` of level `d + 1`. */
  function Children(h: PairHash, leaves: seq<Hash>, d: nat, j: nat): (Hash, Hash)
    requires j < Width(|leaves|, d + 1)
  {
    (Node(h, leaves, d, 2 * j), Node(h, leaves, d, RightChild(Width(|leaves|, d), j)))
  }

  /** What one step of the fold hashes. */
  function Joined(x: Hash, sibling: Hash, i: nat): (Hash, Hash) { if i % 2 == 0 then (x, sibling) else (sibling, x) }

  lemma JoinsItsSibling(h: PairHash, leaves: seq<Hash>, d: nat, i: nat)
    requires i < Width(|leaves|, d)
    ensures i / 2 < Width(|leaves|, d + 1)
    ensures Children(h, leaves, d, i / 2) == Joined(Node(h, leaves, d, i), Node(h, leaves, d, SiblingIndex(Width(|leaves|, d), i)), i)
  {
  }

  lemma HashesItsChildren(h: PairHash, leaves: seq<Hash>, d: nat, j: nat)
    requires j < Width(|leaves|, d + 1)
    ensures var c := Children(h, leaves, d, j); Node(h, leaves, d + 1, j) == h(c.0, c.1)
  {
  }

  /**
   * Some step of the fold, started at node `i` of level `d`, hashes another pair than the tree does at that
   * place, to the same hash.
   */
  predicate FoldCollides(h: PairHash, leaves: seq<Hash>, x: Hash, siblings: seq<Hash>, d: nat, i: nat)
    requires i < Width(|leaves|, d)
    decreases |siblings|
  {
    siblings != [] &&
    var pair := Joined(x, siblings[0], i);
    Collides(h, pair, Children(h, leaves, d, i / 2)) || FoldCollides(h, leaves, h(pair.0, pair.1), siblings[1..], d + 1, i / 2)
  }

  lemma {:induction false} AcceptedIsGenuine(h: PairHash, leaves: seq<Hash>, x: Hash, siblings: seq<Hash>, d: nat, i: nat, top: nat)
    requires d <= top && |siblings| == top - d && i < Width(|leaves|, d) && Width(|leaves|, top) == 1
    requires Fold(h, x, siblings, i) == Node(h, leaves, top, 0)
    ensures FoldCollides(h, leaves, x, siblings, d, i)
         || (x == Node(h, leaves, d, i) && siblings == PathTo(h, leaves, d, i, top))
    decreases top - d
  {
    if d < top && !FoldCollides(h, leaves, x, siblings, d, i) {
      var pair := Joined(x, siblings[0], i);
      AcceptedIsGenuine(h, leaves, h(pair.0, pair.1), siblings[1..], d + 1, i / 2, top);
      GenuineBelow(h, leaves, x, siblings, d, i, top);
    }
  }

  lemma GenuineBelow(h: PairHash, leaves: seq<Hash>, x: Hash, siblings: seq<Hash>, d: nat, i: nat, top: nat)
    requires d < top && |siblings| == top - d && i < Width(|leaves|, d)
    requires var pair := Joined(x, siblings[0], i);
             h(pair.0, pair.1) == Node(h, leaves, d + 1, i / 2) && !Collides(h, pair, Children(h, leaves, d, i / 2))
    requires siblings[1..] == PathTo(h, leaves, d + 1, i / 2, top)
    ensures x == Node(h, leaves, d, i) && siblings == PathTo(h, leaves, d, i, top)
  {
    JoinsItsSibling(h, leaves, d, i);
    HashesItsChildren(h, leaves, d, i / 2);
    assert siblings == [siblings[0]] + siblings[1..];
  }

  /**
   * An accepted proof of tree depth, for an index in range, proves the leaf at that index and is the genuine
   * proof; otherwise a step of its fold collides with the tree at the same place.
   */
  lemma AcceptedProofsAreSound(h: PairHash, leaves: seq<Hash>, x: Hash, siblings: seq<Hash>, i: nat)
    requires i < |leaves| && |siblings| == Depth(|leaves|)
    requires Fold(h, x, siblings, i) == Root(h, leaves)
    ensures FoldCollides(h, leaves, x, siblings, 0, i) || (x == leaves[i] && siblings == Proof(h, leaves, i))
  {
    WidthAtDepth(|leaves|);
    AcceptedIsGenuine(h, leaves, x, siblings, 0, i, Depth(|leaves|));
  }

  /** The two trees hash different pairs to the same hash at node `j` of level `d + 1`. */
  predicate NodesCollide(h: PairHash, a: seq<Hash>, b: seq<Hash>, d: nat, j: nat)
    requires |a| == |b| && j < Width(|a|, d + 1)
  {
    Collides(h, Children(h, a, d, j), Children(h, b, d, j))
  }

  ghost predicate TreesCollide(h: PairHash, a: seq<Hash>, b: seq<Hash>)
    requires |a| == |b|
  {
    exists d: nat, j: nat :: d < Depth(|a|) && j < Width(|a|, d + 1) && NodesCollide(h, a, b, d, j)
  }

  lemma {:induction false} NodesAgree(h: PairHash, a: seq<Hash>, b: seq<Hash>, d: nat, i: nat)
    requires |a| == |b| > 0 && d <= Depth(|a|) && i < Width(|a|, d)
    requires Root(h, a) == Root(h, b) && !TreesCollide(h, a, b)
    ensures Node(h, a, d, i) == Node(h, b, d, i)
    decreases Depth(|a|) - d
  {
    WidthAtDepth(|a|);
    if d < Depth(|a|) {
      JoinsItsSibling(h, a, d, i);
      NodesAgree(h, a, b, d + 1, i / 2);
      assert !NodesCollide(h, a, b, d, i / 2);
      AgreesBelow(h, a, b, d, i);
    }
  }

  lemma AgreesBelow(h: PairHash, a: seq<Hash>, b: seq<Hash>, d: nat, i: nat)
    requires |a| == |b| && i < Width(|a|, d) && i / 2 < Width(|a|, d + 1)
    requires Node(h, a, d + 1, i / 2) == Node(h, b, d + 1, i / 2) && !NodesCollide(h, a, b, d, i / 2)
    ensures Node(h, a, d, i) == Node(h, b, d, i)
  {
    HashesItsChildren(h, a, d, i / 2);
    HashesItsChildren(h, b, d, i / 2);
    JoinsItsSibling(h, a, d, i);
    JoinsItsSibling(h, b, d, i);
  }

  /** The root binds the leaves: equally long lists with the same root are equal, or the two trees collide at a node. */
  lemma RootBindsLeaves(h: PairHash, a: seq<Hash>, b: seq<Hash>)
    requires |a| == |b| && Root(h, a) == Root(h, b)
    ensures a == b || TreesCollide(h, a, b)
  {
    if a != [] && !TreesCollide(h, a, b) {
      forall i | 0 <= i < |a| ensures a[i] == b[i] {
        NodesAgree(h, a, b, 0, i);
      }
    }
  }

  /** The length matters: repeating the last leaf of an odd list does not change the root. */
  lemma RootIgnoresRepeatedLast(h: PairHash, leaves: seq<Hash>)
    requires |leaves| % 2 == 1 && |leaves| > 1
    ensures Root(h, leaves + [leaves[|leaves| - 1]]) == Root(h, leaves)
  {
    var n := |leaves|;
    var longer := leaves + [leaves[n - 1]];
    assert Depth(n) == Depth(n + 1) == 1 + Depth((n + 1) / 2);
    WidthAtDepth(n);
    WidthAtDepth(n + 1);
    SameAboveLeaves(h, leaves, longer, Depth(n), 0);
  }

  lemma {:induction false} SameWidth(n: nat, d: nat)
    requires n % 2 == 1 && d > 0
    ensures Width(n, d) == Width(n + 1, d)
  {
    if d > 1 { SameWidth(n, d - 1); }
  }

  lemma {:induction false} SameAboveLeaves(h: PairHash, leaves: seq<Hash>, longer: seq<Hash>, d: nat, i: nat)
    requires |leaves| % 2 == 1 && longer == leaves + [leaves[|leaves| - 1]]
    requires d > 0 && i < Width(|leaves|, d) && i < Width(|longer|, d)
    ensures Node(h, leaves, d, i) == Node(h, longer, d, i)
    decreases d
  {
    if d > 1 {
      SameWidth(|leaves|, d - 1);
      var w := Width(|leaves|, d - 1);
      SameAboveLeaves(h, leaves, longer, d - 1, 2 * i);
      SameAboveLeaves(h, leaves, longer, d - 1, RightChild(w, i));
      SameFromChildren(h, leaves, longer, d, i, w);
    } else {
      SameOnLeaves(h, leaves, longer, i);
    }
  }

  lemma SameOnLeaves(h: PairHash, leaves: seq<Hash>, longer: seq<Hash>, i: nat)
    requires |leaves| % 2 == 1 && longer == leaves + [leaves[|leaves| - 1]] && i < Width(|leaves|, 1)
    ensures i < Width(|longer|, 1) && Node(h, leaves, 1, i) == Node(h, longer, 1, i)
  {
  }

  lemma SameFromChildren(h: PairHash, a: seq<Hash>, b: seq<Hash>, d: nat, i: nat, w: nat)
    requires d > 0 && Width(|a|, d - 1) == Width(|b|, d - 1) == w && 2 * i < w
    requires Node(h, a, d - 1, 2 * i) == Node(h, b, d - 1, 2 * i)
    requires Node(h, a, d - 1, RightChild(w, i)) == Node(h, b, d - 1, RightChild(w, i))
    ensures i < Width(|a|, d) == Width(|b|, d) && Node(h, a, d, i) == Node(h, b, d, i)
  {
  }

  // ------------------------------------------------- the unspent-output commitment

  type LeafHash = Utxo -> Hash

  predicate KeyLe(a: Utxo, b: Utxo) {
    if a.outpoint.txid != b.outpoint.txid then a.outpoint.txid < b.outpoint.txid
    else a.outpoint.vout <= b.outpoint.vout
  }

  function LeavesOf(leaf: LeafHash, utxos: seq<Utxo>): seq<Hash> { seq(|utxos|, i requires 0 <= i < |utxos| => leaf(utxos[i])) }

  /** The commitment to the outputs in the order given. */
  method ComputeUtxoRootOrdered(h: PairHash, leaf: LeafHash, utxos: seq<Utxo>) returns (root: Hash)
    ensures root == Root(h, LeavesOf(leaf, utxos))
  {
    root := ComputeMerkleRoot(h, LeavesOf(leaf, utxos));
  }

  /** In the order of transaction ids, and within a transaction of output numbers. */
  ghost predicate ByOutpoint(utxos: seq<Utxo>) {
    forall i, j :: 0 <= i < j < |utxos| ==>
      || utxos[i].outpoint.txid < utxos[j].outpoint.txid
      || (utxos[i].outpoint.txid == utxos[j].outpoint.txid && utxos[i].outpoint.vout <= utxos[j].outpoint.vout)
  }

  /** The commitment to the outputs sorted by outpoint. */
  method ComputeUtxoRootSorted(h: PairHash, leaf: LeafHash, utxos: seq<Utxo>) returns (root: Hash)
    ensures root == Root(h, LeavesOf(leaf, Sort(utxos, KeyLe)))
    ensures exists sorted :: multiset(sorted) == multiset(utxos) && ByOutpoint(sorted) && root == Root(h, LeavesOf(leaf, sorted))
  {
    SortsByOutpoint(utxos);
    if utxos == [] { return ZERO_HASH; }
    root := ComputeMerkleRoot(h, LeavesOf(leaf, Sort(utxos, KeyLe)));
  }

  lemma KeyOrder()
    ensures TotalPreorder(KeyLe)
  {
  }

  lemma SortsByOutpoint(utxos: seq<Utxo>)
    ensures multiset(Sort(utxos, KeyLe)) == multiset(utxos) && ByOutpoint(Sort(utxos, KeyLe))
  {
    KeyOrder();
    SortSorts(utxos, KeyLe);
  }

  ghost predicate DistinctKeys(utxos: seq<Utxo>) {
    forall i, j :: 0 <= i < j < |utxos| ==> utxos[i].outpoint != utxos[j].outpoint
  }

  /**
   * The sorted commitment depends only on which outputs are unspent, not on how they are listed; listing them in
   * outpoint order to begin with gives the same commitment without sorting.
   */
  lemma UtxoRootIsCanonical(h: PairHash, leaf: LeafHash, a: seq<Utxo>, b: seq<Utxo>)
    requires DistinctKeys(a) && multiset(a) == multiset(b)
    ensures Root(h, LeavesOf(leaf, Sort(a, KeyLe))) == Root(h, LeavesOf(leaf, Sort(b, KeyLe)))
    ensures Sorted(a, KeyLe) ==> Root(h, LeavesOf(leaf, a)) == Root(h, LeavesOf(leaf, Sort(b, KeyLe)))
  {
    KeyOrder();
    KeysSeparate(a);
    SortIsOrderIndependent(a, b, KeyLe);
    SortSorts(b, KeyLe);
    if Sorted(a, KeyLe) {
      SortedUnique(a, Sort(b, KeyLe), KeyLe);
    }
  }

  lemma KeysSeparate(a: seq<Utxo>)
    requires DistinctKeys(a)
    ensures Separates(a, KeyLe)
  {
    forall i, j | 0 <= i < |a| && 0 <= j < |a| && KeyLe(a[i], a[j]) && KeyLe(a[j], a[i]) ensures a[i] == a[j] {
      assert a[i].outpoint == a[j].outpoint;
    }
  }
}
