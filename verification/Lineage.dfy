/**
 * Block hashes and the lineage behind them.
 *
 * A hash is the term that was hashed, so equal hashes mean equal headers and no header is its own ancestor:
 * the two facts about SHA-256 the header chain relies on.
 */
module Lineage {
  import opened Machine
  import opened Arithmetic

  datatype Hash = Genesis | Unknown(id: nat) | Of(header: Header)
  datatype Header = Header(prev: Hash, bits: u32, rest: nat)

  function PrevOf(h: Hash): Hash { if h.Of? then h.header.prev else Unknown(0) }

  /** Whether the parents of a block lead to genesis. */
  predicate Rooted(h: Hash) { h.Genesis? || (h.Of? && Rooted(h.header.prev)) }

  function Height(h: Hash): nat { if h.Of? then 1 + Height(h.header.prev) else 0 }

  predicate IsAncestor(a: Hash, h: Hash) { a == h || (h.Of? && IsAncestor(a, h.header.prev)) }

  /** The block of the lineage of `h` at height `k`. */
  function AncestorAt(h: Hash, k: nat): (a: Hash)
    requires k <= Height(h)
    ensures Height(a) == k
  {
    if Height(h) == k then h else AncestorAt(h.header.prev, k)
  }

  lemma {:induction false} AncestorAtRooted(h: Hash, k: nat)
    requires Rooted(h) && k <= Height(h)
    ensures Rooted(AncestorAt(h, k)) && IsAncestor(AncestorAt(h, k), h)
  {
    if Height(h) != k { AncestorAtRooted(h.header.prev, k); }
  }

  lemma {:induction false} AncestorIsAt(a: Hash, h: Hash)
    requires IsAncestor(a, h)
    ensures Height(a) <= Height(h) && AncestorAt(h, Height(a)) == a
  {
    if a != h {
      AncestorIsAt(a, h.header.prev);
    }
  }

  lemma {:induction false} AncestorAtAncestor(h: Hash, j: nat, k: nat)
    requires k <= j <= Height(h)
    ensures AncestorAt(AncestorAt(h, j), k) == AncestorAt(h, k)
  {
    if Height(h) != j { AncestorAtAncestor(h.header.prev, j, k); }
  }

  lemma AncestorStep(h: Hash, k: nat)
    requires 0 < k <= Height(h)
    ensures AncestorAt(h, k).Of? && AncestorAt(h, k).header.prev == AncestorAt(h, k - 1)
  {
    var a := AncestorAt(h, k);
    AncestorAtAncestor(h, k, k - 1);
    assert Height(a.header.prev) == k - 1;
  }

  lemma {:induction false} RootAt(h: Hash)
    requires Rooted(h)
    ensures AncestorAt(h, 0) == Genesis
  {
    if h.Of? { RootAt(h.header.prev); }
  }

  /** The greatest height at which two lineages share a block. */
  function MeetHeight(a: Hash, b: Hash): (m: nat)
    requires Rooted(a) && Rooted(b)
    ensures m <= Height(a) && m <= Height(b)
    decreases Height(a) + Height(b)
  {
    if a == b then Height(a)
    else if Height(a) > Height(b) then MeetHeight(a.header.prev, b)
    else if Height(b) > Height(a) then MeetHeight(a, b.header.prev)
    else MeetHeight(a.header.prev, b.header.prev)
  }

  lemma {:induction false} MeetIsCommon(a: Hash, b: Hash)
    requires Rooted(a) && Rooted(b)
    ensures AncestorAt(a, MeetHeight(a, b)) == AncestorAt(b, MeetHeight(a, b))
    decreases Height(a) + Height(b)
  {
    if a == b {
    } else if Height(a) > Height(b) {
      MeetIsCommon(a.header.prev, b);
    } else if Height(b) > Height(a) {
      MeetIsCommon(a, b.header.prev);
    } else {
      MeetIsCommon(a.header.prev, b.header.prev);
    }
  }

  lemma {:induction false} CommonIsBelowMeet(a: Hash, b: Hash, k: nat)
    requires Rooted(a) && Rooted(b) && k <= Height(a) && k <= Height(b)
    requires AncestorAt(a, k) == AncestorAt(b, k)
    ensures k <= MeetHeight(a, b)
    decreases Height(a) + Height(b)
  {
    if a == b {
    } else if Height(a) > Height(b) {
      CommonIsBelowMeet(a.header.prev, b, k);
    } else if Height(b) > Height(a) {
      CommonIsBelowMeet(a, b.header.prev, k);
    } else {
      CommonIsBelowMeet(a.header.prev, b.header.prev, k);
    }
  }

  /** Two lineages agree at a height exactly if it is at or below where they meet. */
  lemma AgreeExactlyBelowMeet(a: Hash, b: Hash, k: nat)
    requires Rooted(a) && Rooted(b) && k <= Height(a) && k <= Height(b)
    ensures AncestorAt(a, k) == AncestorAt(b, k) <==> k <= MeetHeight(a, b)
  {
    if AncestorAt(a, k) == AncestorAt(b, k) {
      CommonIsBelowMeet(a, b, k);
    } else if k <= MeetHeight(a, b) {
      MeetIsCommon(a, b);
      AncestorAtAncestor(a, MeetHeight(a, b), k);
      AncestorAtAncestor(b, MeetHeight(a, b), k);
    }
  }

  // --------------------------------------------------------------------- work

  function Exponent(bits: u32): nat { bits / 0x100_0000 }
  function Mantissa(bits: u32): nat { bits % 0x100_0000 }

  /** `header_work`. */
  function HeaderWork(bits: u32): u128 {
    if Mantissa(bits) == 0 then 0 else WorkFor(Exponent(bits), Mantissa(bits))
  }

  function WorkFor(exponent: nat, mantissa: nat): u128
    requires mantissa > 0
  {
    var shift := SatSub(280, 8 * exponent);
    if shift >= 128 then U128_MAX
    else
      QuotientSmall(shift, mantissa);
      Quotient(Pow2(shift), mantissa)
  }

  lemma {:induction false} Pow2Square(n: nat)
    ensures Pow2(2 * n) == Pow2(n) * Pow2(n)
  {
    Pow2Add(n, n);
  }

  lemma {:induction false} Pow2Sixteen(n: nat)
    requires n == 16
    ensures Pow2(n) == 0x1_0000 && Pow2(2 * n) == 0x1_0000_0000
  {
    var h := 8;
    assert Pow2(h) == 256;
    Pow2Square(h);
    Pow2Square(n);
  }

  lemma Pow2Max()
    ensures Pow2(128) == U128_MAX + 1
  {
    var n := 16;
    Pow2Sixteen(n);
    Pow2Square(2 * n);
    Pow2Square(4 * n);
  }

  lemma QuotientSmall(shift: nat, m: nat)
    requires shift < 128 && m > 0
    ensures Quotient(Pow2(shift), m) <= U128_MAX
  {
    Pow2Max();
    Pow2Le(shift, 127);
    assert Pow2(128) == 2 * Pow2(127);
    QuotientLe(Pow2(shift), m);
  }

  lemma QuotientLe(a: nat, m: nat)
    requires m > 0
    ensures Quotient(a, m) <= a
  {
    var q := a / m;
    assert q * m <= a;
    MulLe(1, m, q);
  }

  function Quotient(a: nat, m: nat): nat
    requires m > 0
  {
    a / m
  }

  /** The target that compact bits stand for. */
  function Target(exponent: nat, mantissa: nat): nat {
    if exponent >= 3 then mantissa * Pow2(8 * (exponent - 3)) else Quotient(mantissa, Pow2(8 * (3 - exponent)))
  }

  /** Work as documented: 2^256 divided by the target, held within 128 bits. */
  function DocumentedWork(target: nat): nat
    requires target > 0
  {
    Min(Quotient(Pow2(256), target), U128_MAX)
  }

  /** The bits for which the computation is exact. */
  predicate WithinRange(exponent: nat, mantissa: nat) {
    (exponent < 20 ==> mantissa <= Pow2(152 - 8 * exponent)) && (exponent > 35 ==> mantissa != 1)
  }

  /**
   * When the work is the documented one. From exponent 20 to 35 it always is. Below, the code saturates every
   * header, which is right only for a mantissa small enough to push the quotient over 128 bits; above, it gives
   * a target beyond 2^256 one unit of work if the mantissa is 1.
   */
  lemma WorkIsDocumentedExactly(bits: u32)
    requires Target(Exponent(bits), Mantissa(bits)) > 0
    ensures HeaderWork(bits) == DocumentedWork(Target(Exponent(bits), Mantissa(bits)))
       <==> WithinRange(Exponent(bits), Mantissa(bits))
  {
    WorkForExactly(Exponent(bits), Mantissa(bits));
  }

  /** And what it is where it is not the documented one: nothing without a mantissa, and the ends of the scale. */
  lemma WorkElsewhere(bits: u32)
    ensures Mantissa(bits) == 0 ==> HeaderWork(bits) == 0
    ensures Mantissa(bits) > 0 && Exponent(bits) < 20 ==> HeaderWork(bits) == U128_MAX
    ensures Mantissa(bits) == 1 && Exponent(bits) > 35 ==> HeaderWork(bits) == 1
  {
    if Mantissa(bits) == 1 && Exponent(bits) > 35 { assert Quotient(Pow2(0), 1) == 1; }
  }

  /** A target of 23 significant bits at exponent 19: the quotient fits 107 bits, and the code answers 2^128 - 1. */
  lemma WorkCanOverstate(bits: u32)
    requires bits == 0x137f_ffff
    ensures HeaderWork(bits) == U128_MAX
    ensures var target := Target(Exponent(bits), Mantissa(bits)); target > 0 && DocumentedWork(target) <= Pow2(106)
  {
    var e, m := Exponent(bits), Mantissa(bits);
    assert e == 19 && m == 0x7f_ffff;
    SmallQuotient(e, m);
  }

  lemma SmallQuotient(e: nat, m: nat)
    requires e == 19 && 0x40_0000 <= m < 0x100_0000
    ensures WorkFor(e, m) == U128_MAX && Target(e, m) > 0 && Quotient(Pow2(256), Target(e, m)) <= Pow2(106)
  {
    var a, p := Pow2(280 - 8 * e), Pow2(8 * (e - 3));
    TargetPositive(m, p);
    SplitPower(e);
    QuotientCancels(a, m, p);
    Pow2Add(e + 3, 87 + e);
    TwentyTwo(e + 3);
    MulLe(Pow2(e + 3), m, Pow2(87 + e));
    AtMost(a, m, Pow2(87 + e));
  }

  lemma TwentyTwo(n: nat)
    requires n == 22
    ensures Pow2(n) == 0x40_0000
  {
    var h := 11;
    assert Pow2(h) == 2048;
    Pow2Square(h);
  }

  lemma AtMost(a: nat, m: nat, q: nat)
    requires m > 0 && a <= m * q
    ensures Quotient(a, m) <= q
  {
    var r := a / m;
    assert r * m <= a;
    if r > q { MulStrict(q, r, m); }
  }

  lemma WorkForExactly(e: nat, m: nat)
    requires m < 0x100_0000 && Target(e, m) > 0
    ensures m > 0
    ensures WorkFor(e, m) == DocumentedWork(Target(e, m)) <==> WithinRange(e, m)
  {
    if e < 3 {
      TinyExponent(e, m);
    } else if e < 20 {
      SmallExponent(e, m);
    } else if e <= 35 {
      UsualExponent(e, m);
    } else {
      HugeExponent(e, m);
    }
  }

  lemma HugeExponent(e: nat, m: nat)
    requires 36 <= e && Target(e, m) > 0
    ensures m > 0 && (WorkFor(e, m) == DocumentedWork(Target(e, m)) <==> m != 1)
  {
    HugeTarget(e, m);
    OneOver(m);
  }

  lemma OneOver(m: nat)
    requires m > 0
    ensures Quotient(Pow2(0), m) == if m == 1 then 1 else 0
  {
  }

  lemma TinyExponent(e: nat, m: nat)
    requires e < 3 && m < 0x100_0000 && Target(e, m) > 0
    ensures m > 0 && m <= Pow2(152 - 8 * e) && WorkFor(e, m) == DocumentedWork(Target(e, m))
  {
    var p := Pow2(8 * (3 - e));
    QuotientLe(m, p);
    Pow2TwentyFour();
    Pow2Le(24, 152 - 8 * e);
    Pow2Le(24, 128);
    FitsExactly(3, Target(e, m));
  }

  lemma SmallExponent(e: nat, m: nat)
    requires 3 <= e < 20 && m < 0x100_0000 && Target(e, m) > 0
    ensures m > 0 && (WorkFor(e, m) == DocumentedWork(Target(e, m)) <==> m <= Pow2(152 - 8 * e))
  {
    SplitPower(e);
    QuotientCancels(Pow2(280 - 8 * e), m, Pow2(8 * (e - 3)));
    FitsExactly(e, m);
  }

  lemma UsualExponent(e: nat, m: nat)
    requires 20 <= e <= 35 && m < 0x100_0000 && Target(e, m) > 0
    ensures m > 0 && WorkFor(e, m) == DocumentedWork(Target(e, m))
  {
    SplitPower(e);
    QuotientCancels(Pow2(280 - 8 * e), m, Pow2(8 * (e - 3)));
  }

  lemma Pow2TwentyFour()
    ensures Pow2(24) == 0x100_0000
  {
    var n := 12;
    assert Pow2(n) == 4096;
    Pow2Square(n);
  }

  lemma TargetPositive(m: nat, p: nat)
    requires m > 0 && p > 0
    ensures m * p > 0
  {
  }

  lemma SplitPower(e: nat)
    requires 3 <= e <= 35
    ensures Pow2(256) == Pow2(280 - 8 * e) * Pow2(8 * (e - 3))
  {
    Pow2Add(280 - 8 * e, 8 * (e - 3));
  }

  lemma QuotientCancels(a: nat, m: nat, p: nat)
    requires m > 0 && p > 0
    ensures m * p > 0 && Quotient(a * p, m * p) == Quotient(a, m)
  {
    var q := a / m;
    TargetPositive(m, p);
    MulLe(q * m, a, p);
    MulStrict(a, (q + 1) * m, p);
    MulAssoc(q, m, p);
    MulAssoc(q + 1, m, p);
    QuotientIs(a * p, m * p, q);
  }

  lemma MulAssoc(a: nat, b: nat, c: nat)
    ensures a * b * c == a * (b * c)
  {
  }

  lemma MulStrict(a: nat, b: nat, p: nat)
    requires a < b && p > 0
    ensures a * p < b * p
  {
  }

  lemma QuotientIs(x: nat, y: nat, q: nat)
    requires y > 0 && q * y <= x < (q + 1) * y
    ensures x / y == q
  {
    var r := x / y;
    assert r * y <= x < (r + 1) * y;
    if r < q { MulLe(r + 1, q, y); }
    if q < r { MulLe(q + 1, r, y); }
  }

  /** Below exponent 20 the quotient fills 128 bits exactly for small mantissas. */
  lemma FitsExactly(e: nat, m: nat)
    requires 3 <= e < 20 && 0 < m < 0x100_0000
    ensures Quotient(Pow2(280 - 8 * e), m) >= U128_MAX <==> m <= Pow2(152 - 8 * e)
  {
    Pow2Max();
    Pow2Add(128, 152 - 8 * e);
    AtLeastMax(Pow2(280 - 8 * e), m, Pow2(152 - 8 * e));
  }

  lemma AtLeastMax(a: nat, m: nat, p: nat)
    requires a == (U128_MAX + 1) * p && 0 < m < 0x100_0000
    ensures Quotient(a, m) >= U128_MAX <==> m <= p
  {
    var q := a / m;
    assert q * m <= a < (q + 1) * m;
    if m <= p {
      MulLe(m, p, U128_MAX + 1);
      if q < U128_MAX { MulLe(q + 1, U128_MAX, m); }
    } else {
      MulLe(p + 1, m, U128_MAX);
      if q >= U128_MAX { MulLe(U128_MAX, q, m); }
    }
  }

  lemma HugeTarget(e: nat, m: nat)
    requires 36 <= e && Target(e, m) > 0
    ensures m > 0 && Quotient(Pow2(256), Target(e, m)) == 0
  {
    Pow2Le(257, 8 * (e - 3));
    assert Pow2(257) == 2 * Pow2(256);
    MulLe(1, m, Pow2(8 * (e - 3)));
    QuotientIs(Pow2(256), m * Pow2(8 * (e - 3)), 0);
  }

  /** Work accumulated from genesis, without saturation. */
  function TrueWork(genesisWork: nat, h: Hash): nat {
    match h
    case Genesis => genesisWork
    case Unknown(_) => 0
    case Of(header) => TrueWork(genesisWork, header.prev) + HeaderWork(header.bits)
  }

  /** Work as the chain stores it. */
  function ChainWork(genesisWork: nat, h: Hash): u128 { Min(TrueWork(genesisWork, h), U128_MAX) }

  /** Adding work with saturation at each block is the same as saturating the true sum. */
  lemma WorkSaturatesOnce(genesisWork: nat, h: Hash)
    requires h.Of?
    ensures ChainWork(genesisWork, h) == Min(ChainWork(genesisWork, h.header.prev) + HeaderWork(h.header.bits), U128_MAX)
  {
  }
}
