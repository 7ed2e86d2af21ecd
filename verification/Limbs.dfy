/**
 * Field elements as 16 signed 64-bit limbs in radix 2^16 (curve25519.c): carries are lazy,
 * so limbs may be negative or too wide, and every operation writes its result in place.
 */
module Limbs {
  import opened Radix
  import opened Field

  const BASE: nat := 0x10000

  /** What `long long` operands of a carry pass may hold: 2^62 leaves room for the pass itself. */
  const LAZY: nat := 0x4000_0000_0000_0000

  /** The field element that 16 limbs stand for. */
  ghost function Elem(s: seq<int>): (r: int)
    requires |s| == 16
    ensures 0 <= r < Prime
  {
    Sum(s, BASE, 16) % Prime
  }

  ghost predicate Within(s: seq<int>, bound: int)
  {
    forall i :: 0 <= i < |s| ==> -bound <= s[i] <= bound
  }

  /** d is s after one carry pass: normal digits, with the carry out of the top folded into d[0]. */
  ghost predicate Carried(s: seq<int>, d: seq<int>)
  {
    && |s| == |d| == 16
    && d[0] == Digit(s, BASE, 0) + 38 * Carry(s, BASE, 16)
    && forall i :: 1 <= i < 16 ==> d[i] == Digit(s, BASE, i)
  }

  /** The shape every multiplication leaves: normal limbs, the lowest off by at most one fold. */
  ghost predicate Reduced(s: seq<int>)
  {
    && |s| == 16
    && -38 <= s[0] <= 0xffff + 38
    && forall i :: 1 <= i < 16 ==> 0 <= s[i] <= 0xffff
  }

  lemma {:induction false} CarryBound(s: seq<int>, i: nat)
    requires i <= |s| && Within(s, LAZY)
    ensures -0x8000_0000_0000 <= Carry(s, BASE, i) <= 0x8000_0000_0000
  {
    if i > 0 {
      CarryBound(s, i - 1);
    }
  }

  lemma PowValues()
    ensures Pow(BASE, 15) == 0x1_0000_0000_0000_0000_0000_0000_0000_0000_0000_0000_0000_0000_0000_0000_0000
    ensures Pow(BASE, 16) == 2 * Prime + 38
  {
    assert Pow(BASE, 4) == 0x1_0000_0000_0000_0000;
    PowAdd(BASE, 4, 4);
    PowAdd(BASE, 8, 4);
    PowAdd(BASE, 12, 3);
    assert Pow(BASE, 3) == 0x1_0000_0000_0000;
    assert Pow(BASE, 16) == BASE * Pow(BASE, 15);
  }

  lemma FoldTop(t: int, c: int, s: int)
    requires t + c * (2 * Prime + 38) == s
    ensures t + 38 * c == s - 2 * c * Prime
  {
  }

  /**
   * A carry pass removes a multiple of 2 * Prime: it moves the top carry 16 limbs down with
   * weight 38, and 2^256 = 2 * Prime + 38.
   */
  lemma CarriedKeepsElem(s: seq<int>, d: seq<int>)
    requires Carried(s, d)
    ensures Elem(d) == Elem(s)
  {
    var c, u, v := Carry(s, BASE, 16), Sum(s, BASE, 16), Sum(d, BASE, 16);
    CarryKeepsSumPlus(s, d, 38 * c, BASE, 16);
    PowValues();
    FoldTop(v - 38 * c, c, u);
    ModShift(u, -2 * c, Prime);
  }

  /** The tail of a carry chain over normal limbs only ever carries one unit. */
  lemma {:induction false} CarrySettles(s: seq<int>, n: nat)
    requires |s| == 16 && 4 <= n <= 16
    requires Within(s[..1], 0x20_0000_0000_0000)
    requires forall i :: 1 <= i < 16 ==> 0 <= s[i] < BASE
    ensures -1 <= Carry(s, BASE, n) <= 1
  {
    if n == 4 {
      assert s[..1][0] == s[0];
      assert Carry(s, BASE, 0) == 0;
      assert -0x20_0000_0000 <= Carry(s, BASE, 1) <= 0x20_0000_0000;
      assert -0x20_0000 <= Carry(s, BASE, 2) <= 0x20_0001;
      assert -0x20 <= Carry(s, BASE, 3) <= 0x21;
    } else {
      CarrySettles(s, n - 1);
    }
  }

  lemma CarriedOnce(s: seq<int>, d: seq<int>)
    requires Carried(s, d) && Within(s, LAZY)
    ensures Within(d[..1], 0x20_0000_0000_0000)
    ensures forall i :: 1 <= i < 16 ==> 0 <= d[i] < BASE
    ensures Within(d, LAZY)
  {
    CarryBound(s, 16);
  }

  /** Two passes suffice for the shape M promises ... */
  lemma CarriedTwice(s: seq<int>, d: seq<int>, e: seq<int>)
    requires Carried(s, d) && Carried(d, e) && Within(s, LAZY)
    ensures Reduced(e)
  {
    CarriedOnce(s, d);
    CarrySettles(d, 16);
  }

  method CarryPass(o: array<i64>)
    requires o.Length == 16
    requires Within(o[..], LAZY)
    modifies o
    ensures Carried(old(o[..]), o[..])
  {
    ghost var s: seq<int> := o[..];
    for i := 0 to 16
      invariant forall k :: 0 < k < i ==> o[k] == Digit(s, BASE, k)
      invariant i > 0 ==> o[0] == Digit(s, BASE, 0) + if i == 16 then 38 * Carry(s, BASE, 16) else 0
      invariant i < 16 ==> o[i] == s[i] + Carry(s, BASE, i)
      invariant forall k :: i < k < 16 ==> o[k] == s[k]
    {
      CarryBound(s, i);
      CarryBound(s, i + 1);
      o[i] := o[i] + 0x10000;
      var c: i64 := o[i] / 0x10000;
      var fold: i64 := if i == 15 then 37 * (c - 1) else 0;
      var next := if i < 15 then i + 1 else 0;
      assert c - 1 == Carry(s, BASE, i + 1);
      o[next] := o[next] + (c - 1 + fold);
      var low: i64 := c * 0x10000;
      o[i] := o[i] - low;
    }
  }

  /** The widest limbs any caller hands to a multiplication. */
  const WIDE: int := 0x4_0000

  /** A full product column: at most 16 terms of 2^36. */
  const TERM: int := 0x10_0000_0000

  ghost predicate ColumnsWithin(t: seq<int>, i: nat, j: nat)
  {
    && |t| == 31
    && forall k :: 0 <= k < 31 ==>
      var terms := if i <= k < i + j then i + 1 else i;
      -(terms * TERM) <= t[k] <= terms * TERM
  }

  lemma TermBound(x: int, y: int, m: int)
    requires -m <= x <= m && -m <= y <= m
    ensures -(m * m) <= x * y <= m * m
  {
    assert (m - x) * (m + y) >= 0 && (m + x) * (m - y) >= 0;
    assert (m - x) * (m - y) >= 0 && (m + x) * (m + y) >= 0;
  }

  /** All the column sums of a product, and their magnitude. */
  method Convolve(a: array<i64>, b: array<i64>) returns (t: array<i64>)
    requires a.Length == b.Length == 16
    requires Within(a[..], WIDE) && Within(b[..], WIDE)
    ensures fresh(t) && t.Length == 31
    ensures Sum(t[..], BASE, 31) == Sum(a[..], BASE, 16) * Sum(b[..], BASE, 16)
    ensures Within(t[..], 16 * TERM)
  {
    t := new i64[31](_ => 0);
    ghost var av: seq<int>, bv: seq<int> := a[..], b[..];
    ZeroSum(t[..], BASE, 31);
    for i := 0 to 16
      invariant Sum(t[..], BASE, 31) == Sum(av, BASE, i) * Sum(bv, BASE, 16)
      invariant ColumnsWithin(t[..], i, 0)
    {
      for j := 0 to 16
        invariant Sum(t[..], BASE, 31)
               == Sum(av, BASE, i) * Sum(bv, BASE, 16) + av[i] * Pow(BASE, i) * Sum(bv, BASE, j)
        invariant ColumnsWithin(t[..], i, j)
      {
        ghost var before: seq<int> := t[..];
        TermBound(av[i], bv[j], WIDE);
        var term: i64 := a[i] * b[j];
        assert before[i + j] == t[i + j];
        t[i + j] := t[i + j] + term;
        ProductStep(before, t[..], av, bv, BASE, 31, i, j, Sum(av, BASE, i) * Sum(bv, BASE, 16));
      }
      RowDone(av, BASE, i, Sum(bv, BASE, 16));
    }
  }

  /** Columns 16..30 are worth 38 times as much 16 columns lower, modulo the prime. */
  lemma FoldKeepsElem(t: seq<int>, o: seq<int>)
    requires |t| == 31 && |o| == 16
    requires o[15] == t[15] && forall i :: 0 <= i < 15 ==> o[i] == t[i] + 38 * t[i + 16]
    ensures Elem(o) == Sum(t, BASE, 31) % Prime
  {
    var high := t[16..] + [0];
    SumSame(t[16..], high, BASE, 15);
    SumLinear(t, high, o, 38, BASE, 16);
    assert Sum(high, BASE, 16) == Sum(high, BASE, 15);
    SumSplit(t, BASE, 16, 15);
    PowValues();
    var h, l := Sum(t[16..], BASE, 15), Sum(t, BASE, 16);
    FoldTop(l, h, l + h * (2 * Prime + 38));
    ModShift(Sum(t, BASE, 31), -2 * h, Prime);
  }

  lemma ProductElem(x: int, y: int)
    ensures Mul(x % Prime, y % Prime) == (x * y) % Prime
  {
    ModMul(x, y, Prime);
  }

  /** The two carry passes that end every multiplication. */
  method CarryTwice(o: array<i64>)
    requires o.Length == 16 && Within(o[..], LAZY)
    modifies o
    ensures Reduced(o[..]) && Elem(o[..]) == old(Elem(o[..]))
  {
    ghost var s: seq<int> := o[..];
    CarryPass(o);
    ghost var d: seq<int> := o[..];
    CarriedKeepsElem(s, d);
    CarriedOnce(s, d);
    CarryPass(o);
    CarriedKeepsElem(d, o[..]);
    CarriedTwice(s, d, o[..]);
  }

  /** Fold the 15 high product columns into the low ones. */
  method FoldColumns(t: array<i64>)
    requires t.Length == 31 && Within(t[..], 16 * TERM)
    modifies t
    ensures forall k :: 0 <= k < 15 ==> t[k] == old(t[k]) + 38 * old(t[k + 16])
    ensures forall k :: 15 <= k < 31 ==> t[k] == old(t[k])
  {
    ghost var wide: seq<int> := t[..];
    for i := 0 to 15
      invariant forall k :: 0 <= k < i ==> t[k] == wide[k] + 38 * wide[k + 16]
      invariant forall k :: i <= k < 31 ==> t[k] == wide[k]
    {
      assert wide[i + 16] == t[i + 16];
      var high: i64 := 38 * t[i + 16];
      t[i] := t[i] + high;
    }
  }

  method CopyLimbs(o: array<i64>, t: array<i64>)
    requires o.Length == 16 && t.Length >= 16
    modifies o
    ensures o[..] == old(t[..16])
  {
    ghost var tv := t[..];
    for i := 0 to 16
      invariant forall k :: 0 <= k < i ==> o[k] == tv[k]
      invariant t[..] == tv
    {
      o[i] := t[i];
    }
    assert o[..] == tv[..16];
  }

  /** Multiplication; o may be a, b or both. */
  method MulLimbs(o: array<i64>, a: array<i64>, b: array<i64>)
    requires o.Length == a.Length == b.Length == 16
    requires Within(a[..], WIDE) && Within(b[..], WIDE)
    modifies o
    ensures Reduced(o[..])
    ensures Elem(o[..]) == Mul(old(Elem(a[..])), old(Elem(b[..])))
  {
    ProductElem(Sum(a[..], BASE, 16), Sum(b[..], BASE, 16));
    var t := Convolve(a, b);
    ghost var wide: seq<int> := t[..];
    FoldColumns(t);
    CopyLimbs(o, t);
    FoldKeepsElem(wide, o[..]);
    CarryTwice(o);
  }

  method SquareLimbs(o: array<i64>, a: array<i64>)
    requires o.Length == a.Length == 16
    requires Within(a[..], WIDE)
    modifies o
    ensures Reduced(o[..])
    ensures Elem(o[..]) == Mul(old(Elem(a[..])), old(Elem(a[..])))
  {
    MulLimbs(o, a, a);
  }

  lemma SumElem(a: seq<int>, b: seq<int>, o: seq<int>)
    requires |a| == |b| == |o| == 16
    requires forall i :: 0 <= i < 16 ==> o[i] == a[i] + b[i]
    ensures Elem(o) == Add(Elem(a), Elem(b))
  {
    SumLinear(a, b, o, 1, BASE, 16);
    ModAdd(Sum(a, BASE, 16), Sum(b, BASE, 16), Prime);
  }

  lemma DifferenceElem(a: seq<int>, b: seq<int>, o: seq<int>)
    requires |a| == |b| == |o| == 16
    requires forall i :: 0 <= i < 16 ==> o[i] == a[i] - b[i]
    ensures Elem(o) == Sub(Elem(a), Elem(b))
  {
    SumLinear(a, b, o, -1, BASE, 16);
    ModSub(Sum(a, BASE, 16), Sum(b, BASE, 16), Prime);
  }

  /** Addition without carrying; o may be a, b or both. Bounds add up instead. */
  method AddLimbs(o: array<i64>, a: array<i64>, b: array<i64>, ghost m: int, ghost n: int)
    requires o.Length == a.Length == b.Length == 16
    requires Within(a[..], m) && Within(b[..], n) && m + n <= LAZY
    modifies o
    ensures Within(o[..], m + n)
    ensures Elem(o[..]) == Add(old(Elem(a[..])), old(Elem(b[..])))
  {
    ghost var av: seq<int>, bv: seq<int> := a[..], b[..];
    for i := 0 to 16
      invariant forall k :: 0 <= k < i ==> o[k] == av[k] + bv[k]
      invariant forall k :: i <= k < 16 ==> a[k] == av[k] && b[k] == bv[k]
    {
      o[i] := a[i] + b[i];
    }
    SumElem(av, bv, o[..]);
  }

  method SubLimbs(o: array<i64>, a: array<i64>, b: array<i64>, ghost m: int, ghost n: int)
    requires o.Length == a.Length == b.Length == 16
    requires Within(a[..], m) && Within(b[..], n) && m + n <= LAZY
    modifies o
    ensures Within(o[..], m + n)
    ensures Elem(o[..]) == Sub(old(Elem(a[..])), old(Elem(b[..])))
  {
    ghost var av: seq<int>, bv: seq<int> := a[..], b[..];
    for i := 0 to 16
      invariant forall k :: 0 <= k < i ==> o[k] == av[k] - bv[k]
      invariant forall k :: i <= k < 16 ==> a[k] == av[k] && b[k] == bv[k]
    {
      o[i] := a[i] - b[i];
    }
    DifferenceElem(av, bv, o[..]);
  }
}
