/** Machine integers and the small result types shared by every module. */
module Machine {
  const U32_MAX: nat := 0xFFFF_FFFF
  const U64_MAX: nat := 0xFFFF_FFFF_FFFF_FFFF
  const U128_MAX: nat := 0xFFFF_FFFF_FFFF_FFFF_FFFF_FFFF_FFFF_FFFF

  type u32 = x: nat | x <= U32_MAX
  type u64 = x: nat | x <= U64_MAX
  type u128 = x: nat | x <= U128_MAX

  datatype Option<+T> = None | Some(value: T)

  function Min(a: int, b: int): int { if a <= b then a else b }
  function Max(a: int, b: int): int { if a <= b then b else a }

  /** `saturating_sub` on an unsigned machine integer. */
  function SatSub(a: nat, b: nat): nat { if a <= b then 0 else a - b }

  /** Look a key up the way `BTreeMap::get` does. */
  function Lookup<K, V>(m: map<K, V>, k: K): Option<V> { if k in m then Some(m[k]) else None }

  /** Maps that answer every lookup alike are equal. */
  lemma LookupExtensional<K, V>(a: map<K, V>, b: map<K, V>)
    requires forall k :: k in a || k in b ==> Lookup(a, k) == Lookup(b, k)
    ensures a == b
  {
    forall k | k in a ensures k in b && a[k] == b[k] { assert Lookup(a, k) == Lookup(b, k); }
    forall k | k in b ensures k in a { assert Lookup(a, k) == Lookup(b, k); }
  }

  function Elements<T(==)>(s: seq<T>): set<T> { set x | x in s }

  lemma ElementsHead<T>(s: seq<T>)
    requires s != []
    ensures Elements(s) == {s[0]} + Elements(s[1..])
  {
    assert s == [s[0]] + s[1..];
  }

  lemma ElementsSnoc<T>(s: seq<T>, x: T)
    ensures Elements(s + [x]) == Elements(s) + {x}
  {
  }

  lemma {:induction false} ElementsCount<T>(s: seq<T>)
    ensures |Elements(s)| <= |s|
  {
    if s != [] {
      ElementsCount(s[1..]);
      ElementsHead(s);
    }
  }
}
