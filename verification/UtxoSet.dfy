/** The wallet's unspent outputs, its reservations, and coin selection. */
module UtxoSet {
  import opened Machine
  import opened Sums
  import opened Sorting

  const MAX_MONEY_SATS: nat := 21_000_000 * 100_000_000

  datatype OutPoint = OutPoint(txid: nat, vout: nat)
  datatype Coin = Coin(outpoint: OutPoint, value: u64, address: nat, height: nat)

  predicate Has(s: seq<Coin>, at: OutPoint) { exists i :: 0 <= i < |s| && s[i].outpoint == at }

  ghost predicate Distinct(s: seq<Coin>) {
    forall i, j :: 0 <= i < j < |s| ==> s[i].outpoint != s[j].outpoint
  }

  /** The coins of `s` other than the one at this outpoint. */
  function Without(s: seq<Coin>, at: OutPoint): seq<Coin> {
    if s == [] then []
    else Without(s[..|s| - 1], at) + if s[|s| - 1].outpoint == at then [] else [s[|s| - 1]]
  }

  /** The coins of `s` confirmed at or below a height. */
  function UpTo(s: seq<Coin>, height: nat): seq<Coin> {
    if s == [] then []
    else UpTo(s[..|s| - 1], height) + if s[|s| - 1].height <= height then [s[|s| - 1]] else []
  }

  /** A list of coins as a map from outpoint to coin. */
  function MapOf(s: seq<Coin>): map<OutPoint, Coin> {
    if s == [] then map[] else MapOf(s[..|s| - 1])[s[|s| - 1].outpoint := s[|s| - 1]]
  }

  lemma {:induction false} MapOfHas(s: seq<Coin>, at: OutPoint)
    ensures at in MapOf(s) <==> Has(s, at)
    ensures at in MapOf(s) ==> MapOf(s)[at] in s && MapOf(s)[at].outpoint == at
  {
    if s != [] {
      var n := |s| - 1;
      MapOfHas(s[..n], at);
      if Has(s[..n], at) {
        var i :| 0 <= i < n && s[..n][i].outpoint == at;
        assert s[i].outpoint == at;
      }
      if Has(s, at) && s[n].outpoint != at {
        var i :| 0 <= i < |s| && s[i].outpoint == at;
        assert s[..n][i].outpoint == at;
      }
      assert s[n].outpoint == at ==> Has(s, at);
    }
  }

  lemma {:induction false} MapOfAt(s: seq<Coin>, i: nat)
    requires Distinct(s) && i < |s|
    ensures s[i].outpoint in MapOf(s) && MapOf(s)[s[i].outpoint] == s[i]
  {
    var n := |s| - 1;
    if i < n {
      MapOfAt(s[..n], i);
      assert s[i].outpoint != s[n].outpoint;
    }
  }

  lemma {:induction false} WithoutElements(s: seq<Coin>, at: OutPoint)
    ensures forall u :: u in Without(s, at) ==> u in s && u.outpoint != at
  {
    if s != [] {
      WithoutElements(s[..|s| - 1], at);
    }
  }

  lemma {:induction false} WithoutDistinct(s: seq<Coin>, at: OutPoint)
    requires Distinct(s)
    ensures Distinct(Without(s, at))
  {
    if s != [] {
      var n := |s| - 1;
      var rest := Without(s[..n], at);
      WithoutDistinct(s[..n], at);
      WithoutElements(s[..n], at);
      forall i | 0 <= i < |rest| ensures rest[i].outpoint != s[n].outpoint {
        assert rest[i] in s[..n];
      }
    }
  }

  lemma {:induction false} WithoutKeys(s: seq<Coin>, at: OutPoint)
    requires Distinct(s)
    ensures MapOf(Without(s, at)) == MapOf(s) - {at}
  {
    if s != [] {
      var n := |s| - 1;
      var last, rest := s[n], Without(s[..n], at);
      WithoutKeys(s[..n], at);
      if last.outpoint != at {
        AppendMap(rest, last);
      } else {
        MapOfMissing(s, n);
        assert rest + [] == rest;
      }
    }
  }

  lemma WithoutMap(s: seq<Coin>, at: OutPoint)
    requires Distinct(s)
    ensures MapOf(Without(s, at)) == MapOf(s) - {at}
    ensures Distinct(Without(s, at))
    ensures forall u :: u in Without(s, at) ==> u in s && u.outpoint != at
  {
    WithoutElements(s, at);
    WithoutDistinct(s, at);
    WithoutKeys(s, at);
  }

  lemma MapOfMissing(s: seq<Coin>, n: nat)
    requires Distinct(s) && n < |s|
    ensures s[n].outpoint !in MapOf(s[..n])
  {
    MapOfHas(s[..n], s[n].outpoint);
    assert forall i :: 0 <= i < n ==> s[..n][i] == s[i];
  }

  function Below(m: map<OutPoint, Coin>, height: nat): map<OutPoint, Coin> {
    map at | at in m && m[at].height <= height :: m[at]
  }

  lemma {:induction false} UpToMap(s: seq<Coin>, height: nat)
    requires Distinct(s)
    ensures MapOf(UpTo(s, height)) == Below(MapOf(s), height)
    ensures Distinct(UpTo(s, height))
    ensures forall u :: u in UpTo(s, height) ==> u in s
  {
    if s != [] {
      var n := |s| - 1;
      var last, rest := s[n], UpTo(s[..n], height);
      UpToMap(s[..n], height);
      MapOfMissing(s, n);
      if last.height <= height {
        assert UpTo(s, height) == rest + [last];
        assert (rest + [last])[..|rest|] == rest;
        forall i | 0 <= i < |rest| ensures rest[i].outpoint != last.outpoint {
          assert rest[i] in s[..n];
        }
      } else {
        assert UpTo(s, height) == rest;
      }
    }
  }

  lemma AppendMap(s: seq<Coin>, u: Coin)
    ensures MapOf(s + [u]) == MapOf(s)[u.outpoint := u]
    ensures Distinct(s) && !Has(s, u.outpoint) ==> Distinct(s + [u])
  {
    assert (s + [u])[..|s|] == s;
  }

  function Total(s: seq<Coin>): nat { SeqSum(ValuesOf(s)) }

  function ValuesOf(s: seq<Coin>): seq<nat> { seq(|s|, i requires 0 <= i < |s| => s[i].value) }

  // ------------------------------------------------------------------ the set

  class UtxoSet {
    var utxos: seq<Coin>
    var reserved: set<OutPoint>
    var reservedUtxos: seq<Coin>
    var spentReserved: set<OutPoint>

    /** Spendable outpoints are distinct and never reserved; kept details belong to reservations. */
    ghost predicate Valid()
      reads this
    {
      && Distinct(utxos) && Distinct(reservedUtxos)
      && (forall i :: 0 <= i < |utxos| ==> utxos[i].outpoint !in reserved)
      && (forall i :: 0 <= i < |reservedUtxos| ==> reservedUtxos[i].outpoint in reserved)
    }

    constructor ()
      ensures Valid() && utxos == [] && reserved == {} && reservedUtxos == [] && spentReserved == {}
    {
      utxos, reserved, reservedUtxos, spentReserved := [], {}, [], {};
    }

    method Add(u: Coin)
      requires Valid()
      modifies this`utxos
      ensures Valid()
      ensures MapOf(utxos) == if u.outpoint in reserved || u.outpoint in MapOf(old(utxos)) then MapOf(old(utxos))
                              else MapOf(old(utxos))[u.outpoint := u]
    {
      MapOfHas(utxos, u.outpoint);
      if u.outpoint in reserved { return; }
      if !Has(utxos, u.outpoint) {
        AppendMap(utxos, u);
        utxos := utxos + [u];
      }
    }

    method Remove(at: OutPoint)
      requires Valid()
      modifies this`utxos
      ensures Valid()
      ensures MapOf(utxos) == MapOf(old(utxos)) - {at}
    {
      WithoutMap(utxos, at);
      KeepsUnreserved(utxos, Without(utxos, at), reserved);
      utxos := Without(utxos, at);
    }

    method ClearChainUtxos()
      requires Valid()
      modifies this`utxos
      ensures Valid() && utxos == []
    {
      utxos := [];
    }

    method RollbackAbove(height: nat)
      requires Valid()
      modifies this`utxos
      ensures Valid()
      ensures MapOf(utxos) == Below(MapOf(old(utxos)), height)
    {
      UpToMap(utxos, height);
      KeepsUnreserved(utxos, UpTo(utxos, height), reserved);
      utxos := UpTo(utxos, height);
    }

    method Reserve(at: OutPoint)
      requires Valid()
      modifies this`utxos, this`reserved
      ensures Valid()
      ensures MapOf(utxos) == MapOf(old(utxos)) - {at} && reserved == old(reserved) + {at}
    {
      WithoutMap(utxos, at);
      Remove(at);
      MapOfHas(utxos, at);
      reserved := reserved + {at};
    }

    method ReserveUtxo(u: Coin)
      requires Valid()
      modifies this`utxos, this`reserved, this`reservedUtxos
      ensures Valid()
      ensures MapOf(utxos) == MapOf(old(utxos)) - {u.outpoint} && reserved == old(reserved) + {u.outpoint}
      ensures MapOf(reservedUtxos) == MapOf(old(reservedUtxos))[u.outpoint := u]
    {
      Reserve(u.outpoint);
      KeepDetails(u);
    }

    /** Keep the details of a reserved coin, in place of older ones. */
    method KeepDetails(u: Coin)
      requires Valid() && u.outpoint in reserved
      modifies this`reservedUtxos
      ensures Valid() && MapOf(reservedUtxos) == MapOf(old(reservedUtxos))[u.outpoint := u]
    {
      ReplacedMap(reservedUtxos, u);
      ReplacedReserved(reservedUtxos, u, reserved);
      reservedUtxos := Without(reservedUtxos, u.outpoint) + [u];
    }

    method NoteSpend(at: OutPoint) returns (noted: bool)
      requires Valid()
      modifies this`reserved, this`reservedUtxos, this`spentReserved
      ensures Valid()
      ensures noted <==> at in old(reserved)
      ensures reserved == old(reserved) - {at}
      ensures MapOf(reservedUtxos) == MapOf(old(reservedUtxos)) - {at}
      ensures spentReserved == if noted then old(spentReserved) + {at} else old(spentReserved)
    {
      noted := at in reserved;
      if noted {
        EndReservation(at);
        spentReserved := spentReserved + {at};
      } else {
        NotKept(reservedUtxos, reserved, at);
      }
    }

    /** What a spend and a release have in common. */
    method EndReservation(at: OutPoint)
      requires Valid()
      modifies this`reserved, this`reservedUtxos
      ensures Valid()
      ensures reserved == old(reserved) - {at} && MapOf(reservedUtxos) == MapOf(old(reservedUtxos)) - {at}
    {
      WithoutMap(reservedUtxos, at);
      KeepsReservedBut(reservedUtxos, at, reserved);
      reservedUtxos := Without(reservedUtxos, at);
      reserved := reserved - {at};
    }

    method Release(at: OutPoint) returns (released: bool)
      requires Valid()
      modifies this`reserved, this`reservedUtxos
      ensures Valid()
      ensures released <==> at in old(reserved)
      ensures reserved == old(reserved) - {at}
      ensures MapOf(reservedUtxos) == MapOf(old(reservedUtxos)) - {at}
    {
      released := at in reserved;
      EndReservation(at);
    }

    /**
     * `select`: largest first. It succeeds exactly when both amounts are sane, there is a coin at all and the
     * coins cover the sum; what it returns are coins of the set that cover the sum, and no fewer coins can.
     */
    method Select(amount: u64, fee: u64) returns (r: Option<seq<Coin>>)
      requires Valid()
      ensures r.Some? <==> amount <= MAX_MONEY_SATS && fee <= MAX_MONEY_SATS && utxos != [] && amount + fee <= Total(utxos)
      ensures r.Some? ==> LeastCover(utxos, r.value, amount + fee)
    {
      if amount > MAX_MONEY_SATS || fee > MAX_MONEY_SATS { return None; }
      LargestOrder();
      SortSorts(utxos, LargestFirst);
      var sorted := Sort(utxos, LargestFirst);
      PermutationTotal(sorted, utxos);
      var k := CountNeeded(sorted, amount + fee);
      if k.None? { return None; }
      SelectedIsBest(sorted, utxos, k.value, amount + fee);
      r := Some(sorted[..k.value]);
    }
  }

  /** The loop of `select`: how many coins from the front reach the sum, the first one being taken in any case. */
  method CountNeeded(sorted: seq<Coin>, required: nat) returns (r: Option<nat>)
    requires required <= U64_MAX
    ensures r.Some? <==> sorted != [] && required <= Total(sorted)
    ensures r.Some? ==> 0 < r.value <= |sorted| && required <= Total(sorted[..r.value])
                        && (r.value > 1 ==> Total(sorted[..r.value - 1]) < required)
  {
    var sum: u64, k := 0, 0;
    assert sorted[..0] == [];
    while k < |sorted|
      invariant 0 <= k <= |sorted|
      invariant sum == Min(Total(sorted[..k]), U64_MAX)
      invariant k > 0 ==> sum < required
    {
      assert sorted[..k + 1] == sorted[..k] + [sorted[k]];
      TotalSnoc(sorted[..k], sorted[k]);
      sum := Min(sum + sorted[k].value, U64_MAX);
      k := k + 1;
      if sum >= required {
        PrefixTotals(sorted, k, |sorted|);
        assert sorted[..|sorted|] == sorted;
        return Some(k);
      }
    }
    assert sorted[..k] == sorted;
    r := None;
  }

  /**
   * Coins of the set that cover the sum, as few as possible, or one if nothing was asked for; and no choice of as
   * many coins is worth more.
   */
  ghost predicate LeastCover(utxos: seq<Coin>, chosen: seq<Coin>, required: nat) {
    && multiset(chosen) <= multiset(utxos) && required <= Total(chosen)
    && (required == 0 ==> |chosen| == 1)
    && (0 < required ==> forall cover :: Covers(utxos, cover, required) ==> |chosen| <= |cover|)
    && (forall other :: Covers(utxos, other, 0) && |other| == |chosen| ==> Total(other) <= Total(chosen))
  }

  ghost predicate Covers(utxos: seq<Coin>, cover: seq<Coin>, required: nat) {
    multiset(cover) <= multiset(utxos) && required <= Total(cover)
  }

  lemma KeepsUnreserved(s: seq<Coin>, t: seq<Coin>, reserved: set<OutPoint>)
    requires forall u :: u in t ==> u in s
    requires forall i :: 0 <= i < |s| ==> s[i].outpoint !in reserved
    ensures forall i :: 0 <= i < |t| ==> t[i].outpoint !in reserved
  {
    forall i | 0 <= i < |t| ensures t[i].outpoint !in reserved { assert t[i] in s; }
  }

  lemma KeepsReserved(s: seq<Coin>, t: seq<Coin>, reserved: set<OutPoint>)
    requires forall u :: u in t ==> u in s
    requires forall i :: 0 <= i < |s| ==> s[i].outpoint in reserved
    ensures forall i :: 0 <= i < |t| ==> t[i].outpoint in reserved
  {
    forall i | 0 <= i < |t| ensures t[i].outpoint in reserved { assert t[i] in s; }
  }

  lemma ReplacedMap(s: seq<Coin>, u: Coin)
    requires Distinct(s)
    ensures var t := Without(s, u.outpoint) + [u]; Distinct(t) && MapOf(t) == MapOf(s)[u.outpoint := u]
  {
    var kept := Without(s, u.outpoint);
    WithoutMap(s, u.outpoint);
    MapOfHas(kept, u.outpoint);
    AppendMap(kept, u);
    assert (MapOf(s) - {u.outpoint})[u.outpoint := u] == MapOf(s)[u.outpoint := u];
  }

  lemma ReplacedReserved(s: seq<Coin>, u: Coin, reserved: set<OutPoint>)
    requires Distinct(s) && u.outpoint in reserved && forall i :: 0 <= i < |s| ==> s[i].outpoint in reserved
    ensures var t := Without(s, u.outpoint) + [u]; forall i :: 0 <= i < |t| ==> t[i].outpoint in reserved
  {
    WithoutMap(s, u.outpoint);
    KeepsReserved(s, Without(s, u.outpoint), reserved);
  }

  lemma KeepsReservedBut(s: seq<Coin>, at: OutPoint, reserved: set<OutPoint>)
    requires Distinct(s) && forall i :: 0 <= i < |s| ==> s[i].outpoint in reserved
    ensures forall i :: 0 <= i < |Without(s, at)| ==> Without(s, at)[i].outpoint in reserved - {at}
  {
    WithoutMap(s, at);
    forall i | 0 <= i < |Without(s, at)| ensures Without(s, at)[i].outpoint in reserved - {at} {
      assert Without(s, at)[i] in s;
    }
  }

  lemma NotKept(s: seq<Coin>, reserved: set<OutPoint>, at: OutPoint)
    requires (forall i :: 0 <= i < |s| ==> s[i].outpoint in reserved) && at !in reserved
    ensures MapOf(s) - {at} == MapOf(s)
  {
    MapOfHas(s, at);
  }

  // ---------------------------------------------------------------- selection

  predicate LargestFirst(a: Coin, b: Coin) { a.value >= b.value }

  lemma LargestOrder()
    ensures TotalPreorder(LargestFirst)
  {
  }

  lemma TotalSnoc(s: seq<Coin>, u: Coin)
    ensures Total(s + [u]) == Total(s) + u.value
  {
    assert ValuesOf(s + [u]) == ValuesOf(s) + [u.value];
    SeqSumSnoc(ValuesOf(s), u.value);
  }

  lemma TotalRemove(s: seq<Coin>, i: nat)
    requires i < |s|
    ensures Total(s) == Total(s[..i] + s[i + 1..]) + s[i].value
  {
    var a, b := ValuesOf(s[..i]), ValuesOf(s[i + 1..]);
    assert ValuesOf(s) == a + [s[i].value] + b;
    assert ValuesOf(s[..i] + s[i + 1..]) == a + b;
    SeqSumConcat(a + [s[i].value], b);
    SeqSumSnoc(a, s[i].value);
    SeqSumConcat(a, b);
  }

  lemma RemoveMultiset(s: seq<Coin>, i: nat)
    requires i < |s|
    ensures multiset(s[..i] + s[i + 1..]) == multiset(s) - multiset{s[i]}
  {
    assert s == s[..i] + [s[i]] + s[i + 1..];
  }

  lemma {:induction false} PermutationTotal(a: seq<Coin>, b: seq<Coin>)
    requires multiset(a) == multiset(b)
    ensures |a| == |b| && Total(a) == Total(b)
    decreases |a|
  {
    assert |a| == |multiset(a)| == |multiset(b)| == |b|;
    if a != [] {
      var n := |a| - 1;
      assert a[n] in multiset(b);
      var i :| 0 <= i < |b| && b[i] == a[n];
      assert a == a[..n] + [a[n]];
      RemoveMultiset(b, i);
      PermutationTotal(a[..n], b[..i] + b[i + 1..]);
      TotalRemove(b, i);
      TotalSnoc(a[..n], a[n]);
    }
  }

  lemma SubLength(c: seq<Coin>, s: seq<Coin>)
    requires multiset(c) <= multiset(s)
    ensures |c| <= |s|
  {
    assert |multiset(s)| == |multiset(c)| + |multiset(s) - multiset(c)|;
  }

  lemma FrontStep(sorted: seq<Coin>, k: nat)
    requires Sorted(sorted, LargestFirst) && k < |sorted|
    ensures Total(sorted[..k]) + sorted[|sorted| - 1].value <= Total(sorted[..k + 1])
  {
    assert sorted[..k + 1] == sorted[..k] + [sorted[k]];
    TotalSnoc(sorted[..k], sorted[k]);
    if k < |sorted| - 1 {
      assert LargestFirst(sorted[k], sorted[|sorted| - 1]);
    }
  }

  /** A selection without one occurrence of the last coin is a selection from the others. */
  lemma DropLast(sorted: seq<Coin>, c: seq<Coin>) returns (c': seq<Coin>)
    requires sorted != [] && multiset(c) <= multiset(sorted)
    ensures multiset(c') <= multiset(sorted[..|sorted| - 1])
    ensures (c' == c) || (|c'| == |c| - 1 && Total(c) == Total(c') + sorted[|sorted| - 1].value)
  {
    var n := |sorted| - 1;
    assert sorted == sorted[..n] + [sorted[n]];
    if sorted[n] in multiset(c) {
      var i :| 0 <= i < |c| && c[i] == sorted[n];
      RemoveMultiset(c, i);
      TotalRemove(c, i);
      c' := c[..i] + c[i + 1..];
    } else {
      c' := c;
    }
  }

  /** No selection of coins is worth more than as many coins from the front of the sorted list. */
  lemma {:induction false} FrontIsWorthMost(sorted: seq<Coin>, c: seq<Coin>)
    requires Sorted(sorted, LargestFirst) && multiset(c) <= multiset(sorted)
    ensures |c| <= |sorted| && Total(c) <= Total(sorted[..|c|])
    decreases |sorted|
  {
    SubLength(c, sorted);
    if sorted == [] {
      assert c == sorted[..|c|];
    } else {
      var n := |sorted| - 1;
      var c' := DropLast(sorted, c);
      FrontIsWorthMost(sorted[..n], c');
      assert sorted[..n][..|c'|] == sorted[..|c'|];
      if |c'| != |c| {
        FrontStep(sorted, |c'|);
      }
    }
  }

  lemma {:induction false} PrefixTotals(s: seq<Coin>, i: nat, j: nat)
    requires i <= j <= |s|
    ensures Total(s[..i]) <= Total(s[..j])
    decreases j - i
  {
    if i < j {
      PrefixTotals(s, i, j - 1);
      assert s[..j] == s[..j - 1] + [s[j - 1]];
      TotalSnoc(s[..j - 1], s[j - 1]);
    }
  }

  lemma SelectedIsBest(sorted: seq<Coin>, utxos: seq<Coin>, k: nat, required: nat)
    requires Sorted(sorted, LargestFirst) && multiset(sorted) == multiset(utxos)
    requires 0 < k <= |sorted| && required <= Total(sorted[..k]) && (k > 1 ==> Total(sorted[..k - 1]) < required)
    ensures LeastCover(utxos, sorted[..k], required)
  {
    assert sorted == sorted[..k] + sorted[k..];
    assert sorted[..0] == [];
    forall other | Covers(utxos, other, 0) && |other| == k ensures Total(other) <= Total(sorted[..k]) {
      FrontIsWorthMost(sorted, other);
    }
    if 0 < required {
      forall cover | Covers(utxos, cover, required) ensures k <= |cover| {
        FrontIsWorthMost(sorted, cover);
        if |cover| < k {
          PrefixTotals(sorted, |cover|, k - 1);
        }
      }
    }
  }
}
