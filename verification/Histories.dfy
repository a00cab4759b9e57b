/**
 * Histories of journaled blocks, whatever a block is: a node extends its chain, rolls the newest block back and
 * forgets old journals, in any order.
 */
module Histories {
  /**
   * A node: its chain state, totals and journals; and, for the record, the run behind it, where on that run each
   * journaled block started and the totals it started from.
   */
  datatype Node<W, T, J> = Node(world: W, totals: T, journals: seq<J>, run: seq<W>, starts: seq<nat>, before: seq<T>)

  /** Whether a block leads from a state through the given states, from totals to totals, with the given journal. */
  type Block<!W, !T, !J> = (W, seq<W>, T, T, J) -> bool

  ghost predicate Segment<W, T, J>(block: Block<W, T, J>, run: seq<W>, from: nat, to: nat, t: T, t': T, j: J) {
    from < to < |run| && block(run[from], run[from + 1..to + 1], t, t', j)
  }

  /** Where the `i`th journaled block ends: at the start of the next, or at the tip. */
  function EndOf<W, T, J>(n: Node<W, T, J>, i: nat): nat
    requires i < |n.starts| && n.run != []
  {
    if i + 1 < |n.starts| then n.starts[i + 1] else |n.run| - 1
  }

  /** The totals after the `i`th journaled block. */
  function AfterOf<W, T, J>(n: Node<W, T, J>, i: nat): T
    requires i < |n.before|
  {
    if i + 1 < |n.before| then n.before[i + 1] else n.totals
  }

  /** The run holds the `i`th journaled block, from its start to its end. */
  ghost predicate BlockAt<W, T, J>(block: Block<W, T, J>, n: Node<W, T, J>, i: nat)
    requires i < |n.starts| == |n.journals| == |n.before| && n.run != []
  {
    Segment(block, n.run, n.starts[i], EndOf(n, i), n.before[i], AfterOf(n, i), n.journals[i])
  }

  /** The journals are those of the last blocks of the run, one after the other up to its end. */
  ghost predicate Journaled<W, T, J>(block: Block<W, T, J>, n: Node<W, T, J>) {
    && n.run != [] && n.run[|n.run| - 1] == n.world
    && |n.starts| == |n.journals| == |n.before|
    && forall i :: 0 <= i < |n.starts| ==> BlockAt(block, n, i)
  }

  /** A node that has never applied a block. */
  function NewNode<W, T, J>(world: W, totals: T): Node<W, T, J> { Node(world, totals, [], [world], [], []) }

  /** Append a block. */
  function Extended<W, T, J>(n: Node<W, T, J>, trail: seq<W>, totals: T, j: J): Node<W, T, J>
    requires trail != [] && n.run != []
  {
    Node(trail[|trail| - 1], totals, n.journals + [j], n.run + trail, n.starts + [|n.run| - 1], n.before + [n.totals])
  }

  /** Stand where the newest journaled block started, with the given state and totals. */
  function Shortened<W, T, J>(n: Node<W, T, J>, world: W, totals: T): Node<W, T, J>
    requires n.journals != [] && |n.starts| == |n.journals| == |n.before| && n.starts[|n.starts| - 1] < |n.run|
  {
    var k := |n.journals| - 1;
    Node(world, totals, n.journals[..k], n.run[..n.starts[k] + 1], n.starts[..k], n.before[..k])
  }

  /** Forget the oldest journal. */
  function Trimmed<W, T, J>(n: Node<W, T, J>): Node<W, T, J>
    requires n.journals != [] && |n.starts| == |n.journals| == |n.before|
  {
    n.(journals := n.journals[1..], starts := n.starts[1..], before := n.before[1..])
  }

  lemma ExtendedIsJournaled<W, T, J>(block: Block<W, T, J>, n: Node<W, T, J>, trail: seq<W>, totals: T, j: J)
    requires Journaled(block, n) && trail != [] && block(n.world, trail, n.totals, totals, j)
    ensures Journaled(block, Extended(n, trail, totals, j))
  {
    var n' := Extended(n, trail, totals, j);
    forall i | 0 <= i < |n'.starts| ensures BlockAt(block, n', i) {
      if i < |n.starts| {
        assert BlockAt(block, n, i);
        assert n'.run[n.starts[i] + 1..EndOf(n, i) + 1] == n.run[n.starts[i] + 1..EndOf(n, i) + 1];
      } else {
        assert n'.run[|n.run|..|n'.run|] == trail;
      }
    }
  }

  /** Every journaled block starts on the run, and no later than the ones after it. */
  lemma {:induction false} StartsRise<W, T, J>(block: Block<W, T, J>, n: Node<W, T, J>, i: nat, k: nat)
    requires Journaled(block, n) && i <= k < |n.starts|
    ensures n.starts[i] <= n.starts[k] < |n.run|
    decreases k - i
  {
    assert BlockAt(block, n, k);
    if i < k {
      StartsRise(block, n, i, k - 1);
      assert BlockAt(block, n, k - 1);
    }
  }

  /** The newest block, seen from where it started. */
  lemma NewestBlock<W, T, J>(block: Block<W, T, J>, n: Node<W, T, J>)
    requires Journaled(block, n) && n.journals != []
    ensures var k := |n.journals| - 1;
            && n.starts[k] < |n.run| - 1
            && block(n.run[n.starts[k]], n.run[n.starts[k] + 1..], n.before[k], n.totals, n.journals[k])
            && n.run[n.starts[k] + 1..][|n.run| - n.starts[k] - 2] == n.world
  {
    var k := |n.journals| - 1;
    assert BlockAt(block, n, k);
    assert n.run[n.starts[k] + 1..|n.run|] == n.run[n.starts[k] + 1..];
  }

  lemma ShortenedIsJournaled<W, T, J>(block: Block<W, T, J>, n: Node<W, T, J>)
    requires Journaled(block, n) && n.journals != []
    ensures var k := |n.journals| - 1;
            n.starts[k] < |n.run| && Journaled(block, Shortened(n, n.run[n.starts[k]], n.before[k]))
  {
    var k := |n.journals| - 1;
    StartsRise(block, n, k, k);
    var n' := Shortened(n, n.run[n.starts[k]], n.before[k]);
    forall i | 0 <= i < |n'.starts| ensures BlockAt(block, n', i) {
      assert BlockAt(block, n, i);
      StartsRise(block, n, i + 1, k);
      assert n'.run[n.starts[i] + 1..n.starts[i + 1] + 1] == n.run[n.starts[i] + 1..n.starts[i + 1] + 1];
    }
  }

  lemma TrimmedIsJournaled<W, T, J>(block: Block<W, T, J>, n: Node<W, T, J>)
    requires Journaled(block, n) && n.journals != []
    ensures Journaled(block, Trimmed(n))
  {
    var n' := Trimmed(n);
    forall i | 0 <= i < |n'.starts| ensures BlockAt(block, n', i) {
      assert BlockAt(block, n, i + 1);
    }
  }

  // ------------------------------------------------- what holds before every block

  /** Something that holds of the state and totals now, and held before every journaled block. */
  ghost predicate Throughout<W, T, J>(good: (W, T) -> bool, n: Node<W, T, J>) {
    good(n.world, n.totals) && forall i :: 0 <= i < |n.starts| ==> HeldAt(good, n, i)
  }

  predicate HeldAt<W, T, J>(good: (W, T) -> bool, n: Node<W, T, J>, i: nat)
    requires i < |n.starts|
  {
    n.starts[i] < |n.run| && i < |n.before| && good(n.run[n.starts[i]], n.before[i])
  }

  lemma ExtendedThroughout<W, T, J>(block: Block<W, T, J>, good: (W, T) -> bool, n: Node<W, T, J>, trail: seq<W>, totals: T, j: J)
    requires Journaled(block, n) && Throughout(good, n) && trail != [] && good(trail[|trail| - 1], totals)
    ensures Throughout(good, Extended(n, trail, totals, j))
  {
    var n' := Extended(n, trail, totals, j);
    forall i | 0 <= i < |n'.starts| ensures HeldAt(good, n', i) {
      if i < |n.starts| { assert HeldAt(good, n, i); }
    }
  }

  lemma ShortenedThroughout<W, T, J>(block: Block<W, T, J>, good: (W, T) -> bool, n: Node<W, T, J>)
    requires Journaled(block, n) && Throughout(good, n) && n.journals != []
    ensures var k := |n.journals| - 1;
            n.starts[k] < |n.run| && Throughout(good, Shortened(n, n.run[n.starts[k]], n.before[k]))
  {
    var k := |n.journals| - 1;
    assert HeldAt(good, n, k);
    var n' := Shortened(n, n.run[n.starts[k]], n.before[k]);
    forall i | 0 <= i < |n'.starts| ensures HeldAt(good, n', i) {
      assert HeldAt(good, n, i);
      StartsRise(block, n, i, k);
    }
  }

  lemma TrimmedThroughout<W, T, J>(good: (W, T) -> bool, n: Node<W, T, J>)
    requires Throughout(good, n) && n.journals != [] && |n.starts| == |n.journals| == |n.before|
    ensures Throughout(good, Trimmed(n))
  {
    var n' := Trimmed(n);
    forall i | 0 <= i < |n'.starts| ensures HeldAt(good, n', i) { assert HeldAt(good, n, i + 1); }
  }
}
