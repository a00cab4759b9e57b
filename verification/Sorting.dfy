/** A stable insertion sort standing in for the standard library's `sort_by`. */
module Sorting {
  ghost predicate TotalPreorder<T(!new)>(le: (T, T) -> bool) {
    && (forall x, y :: le(x, y) || le(y, x))
    && (forall x, y, z :: le(x, y) && le(y, z) ==> le(x, z))
  }

  ghost predicate Sorted<T>(s: seq<T>, le: (T, T) -> bool) {
    forall i, j :: 0 <= i < j < |s| ==> le(s[i], s[j])
  }

  /** The order tells the elements of `s` apart. */
  ghost predicate Separates<T>(s: seq<T>, le: (T, T) -> bool) {
    forall i, j :: 0 <= i < |s| && 0 <= j < |s| && le(s[i], s[j]) && le(s[j], s[i]) ==> s[i] == s[j]
  }

  function Insert<T>(x: T, s: seq<T>, le: (T, T) -> bool): seq<T> {
    if s == [] then [x]
    else if le(x, s[0]) then [x] + s
    else [s[0]] + Insert(x, s[1..], le)
  }

  function Sort<T>(s: seq<T>, le: (T, T) -> bool): seq<T> {
    if s == [] then [] else Insert(s[0], Sort(s[1..], le), le)
  }

  lemma {:induction false} InsertSorts<T(!new)>(x: T, s: seq<T>, le: (T, T) -> bool)
    requires TotalPreorder(le) && Sorted(s, le)
    ensures multiset(Insert(x, s, le)) == multiset{x} + multiset(s)
    ensures Sorted(Insert(x, s, le), le)
  {
    if s != [] {
      assert s == [s[0]] + s[1..];
      if !le(x, s[0]) {
        InsertSorts(x, s[1..], le);
        var r := Insert(x, s[1..], le);
        forall i | 0 <= i < |r| ensures le(s[0], r[i]) {
          assert r[i] in multiset(r);
          assert r[i] in multiset{x} + multiset(s[1..]);
        }
      }
    }
  }

  lemma {:induction false} SortSorts<T(!new)>(s: seq<T>, le: (T, T) -> bool)
    requires TotalPreorder(le)
    ensures multiset(Sort(s, le)) == multiset(s)
    ensures Sorted(Sort(s, le), le)
  {
    if s != [] {
      SortSorts(s[1..], le);
      InsertSorts(s[0], Sort(s[1..], le), le);
      assert s == [s[0]] + s[1..];
    }
  }

  /** Two sorted arrangements of the same elements start alike, if the order tells them apart. */
  lemma SortedHeads<T(!new)>(a: seq<T>, b: seq<T>, le: (T, T) -> bool)
    requires Sorted(a, le) && Sorted(b, le)
    requires multiset(a) == multiset(b) && a != [] && b != []
    requires Separates(a, le)
    ensures a[0] == b[0]
  {
    assert a[0] in multiset(b) && b[0] in multiset(a);
    var i :| 0 <= i < |b| && b[i] == a[0];
    var j :| 0 <= j < |a| && a[j] == b[0];
    if i != 0 && j != 0 {
      assert le(b[0], b[i]) && le(a[0], a[j]);
    }
  }

  lemma TailMultiset<T>(a: seq<T>)
    requires a != []
    ensures multiset(a[1..]) == multiset(a) - multiset{a[0]}
  {
    assert a == [a[0]] + a[1..];
  }

  lemma SortedTails<T>(a: seq<T>, b: seq<T>, le: (T, T) -> bool)
    requires a != [] && b != [] && a[0] == b[0] && multiset(a) == multiset(b)
    requires Sorted(a, le) && Sorted(b, le) && Separates(a, le)
    ensures Sorted(a[1..], le) && Sorted(b[1..], le) && Separates(a[1..], le)
    ensures multiset(a[1..]) == multiset(b[1..])
  {
    TailMultiset(a);
    TailMultiset(b);
  }

  lemma SameLength<T>(a: seq<T>, b: seq<T>)
    requires multiset(a) == multiset(b)
    ensures |a| == |b|
  {
    assert |a| == |multiset(a)| == |multiset(b)| == |b|;
  }

  lemma Reassemble<T>(a: seq<T>, b: seq<T>)
    requires a != [] && b != [] && a[0] == b[0] && a[1..] == b[1..]
    ensures a == b
  {
    assert a == [a[0]] + a[1..] && b == [b[0]] + b[1..];
  }

  /** Where the order tells the elements apart, there is only one sorted arrangement of them. */
  lemma {:induction false} SortedUnique<T(!new)>(a: seq<T>, b: seq<T>, le: (T, T) -> bool)
    requires Sorted(a, le) && Sorted(b, le)
    requires multiset(a) == multiset(b)
    requires Separates(a, le)
    ensures a == b
  {
    SameLength(a, b);
    if a != [] {
      SortedHeads(a, b, le);
      SortedTails(a, b, le);
      SortedUnique(a[1..], b[1..], le);
      Reassemble(a, b);
    }
  }

  lemma SortIsOrderIndependent<T(!new)>(s: seq<T>, t: seq<T>, le: (T, T) -> bool)
    requires TotalPreorder(le)
    requires multiset(s) == multiset(t)
    requires Separates(s, le)
    ensures Sort(s, le) == Sort(t, le)
  {
    SortSorts(s, le);
    SortSorts(t, le);
    forall i, j | 0 <= i < |Sort(s, le)| && 0 <= j < |Sort(s, le)|
        && le(Sort(s, le)[i], Sort(s, le)[j]) && le(Sort(s, le)[j], Sort(s, le)[i])
      ensures Sort(s, le)[i] == Sort(s, le)[j]
    {
      assert Sort(s, le)[i] in multiset(s) && Sort(s, le)[j] in multiset(s);
    }
    SortedUnique(Sort(s, le), Sort(t, le), le);
  }
}
