/** Sums over finite maps and sequences of natural numbers. */
module Sums {
  /** Total of all values of a finite map. */
  ghost function MapSum<K(!new)>(m: map<K, nat>): (total: nat)
  {
    if m == map[] then 0
    else
      var k :| k in m;
      m[k] + MapSum(m - {k})
  }

  /** The total does not depend on which key is taken out first. */
  lemma {:induction false} MapSumRemove<K(!new)>(m: map<K, nat>, k: K)
    requires k in m
    ensures MapSum(m) == m[k] + MapSum(m - {k})
    decreases |m|
  {
    var j :| j in m && MapSum(m) == m[j] + MapSum(m - {j});
    if j != k {
      assert |m - {j}| < |m| by { assert (m - {j}).Keys < m.Keys; KeysShrink(m, j); }
      MapSumRemove(m - {j}, k);
      assert |m - {k}| < |m| by { KeysShrink(m, k); }
      MapSumRemove(m - {k}, j);
      assert m - {j} - {k} == m - {k} - {j};
    }
  }

  lemma KeysShrink<K, V>(m: map<K, V>, k: K)
    requires k in m
    ensures |m - {k}| == |m| - 1
  {
    assert (m - {k}).Keys == m.Keys - {k};
    assert |(m - {k}).Keys| == |m.Keys| - 1;
    assert |m| == |m.Keys| && |m - {k}| == |(m - {k}).Keys|;
  }

  lemma MapSumInsert<K(!new)>(m: map<K, nat>, k: K, v: nat)
    requires k !in m
    ensures MapSum(m[k := v]) == MapSum(m) + v
  {
    MapSumRemove(m[k := v], k);
    assert m[k := v] - {k} == m;
  }

  /**
   * If every entry of `parts` is charged to its own entry of `whole`, and never
   * for more than that entry is worth, then `parts` totals at most `whole`.
   */
  lemma {:induction false} MapSumInjection<K(!new), L(!new)>(parts: map<K, nat>, whole: map<L, nat>, charge: map<K, L>)
    requires parts.Keys <= charge.Keys
    requires forall k :: k in parts ==> charge[k] in whole && parts[k] <= whole[charge[k]]
    requires forall j, k :: j in parts && k in parts && charge[j] == charge[k] ==> j == k
    ensures MapSum(parts) <= MapSum(whole)
    decreases |parts|
  {
    if parts != map[] {
      var k :| k in parts;
      KeysShrink(parts, k);
      MapSumRemove(parts, k);
      MapSumRemove(whole, charge[k]);
      MapSumInjection(parts - {k}, whole - {charge[k]}, charge);
    }
  }

  /** Total of a sequence. */
  function SeqSum(s: seq<nat>): (total: nat) { if s == [] then 0 else s[0] + SeqSum(s[1..]) }

  lemma {:induction false} SeqSumConcat(a: seq<nat>, b: seq<nat>)
    ensures SeqSum(a + b) == SeqSum(a) + SeqSum(b)
  {
    if a == [] {
      assert a + b == b;
    } else {
      SeqSumConcat(a[1..], b);
      assert (a + b)[1..] == a[1..] + b;
    }
  }

  lemma SeqSumSnoc(a: seq<nat>, x: nat)
    ensures SeqSum(a + [x]) == SeqSum(a) + x
  {
    SeqSumConcat(a, [x]);
    assert [x][1..] == [];
  }
}
