/**
 * Scalars modulo the order of the Ed25519 base point (RFC 8032 section 5.1): modL, reduce and
 * the scalar half of a signature. Digits are bytes held in `long long`s, balanced around zero
 * while the top half is eliminated.
 */
module GroupOrder {
  import opened Radix
  import opened Field
  import opened Encoding

  /** 2^252 + Delta, the order of the base point. */
  const L: nat := 0x1000_0000_0000_0000_0000_0000_0000_0000_14de_f9de_a2f7_9cd6_5812_631a_5cf5_d3ed

  const Delta: nat := 0x14de_f9de_a2f7_9cd6_5812_631a_5cf5_d3ed

  /** Section 5.1 of RFC 8032: 2^252 + 27742317777372353535851937790883648493. */
  lemma OrderIs()
    ensures L == 0x1000_0000_0000_0000_0000_0000_0000_0000_0000_0000_0000_0000_0000_0000_0000_0000
                 + 27742317777372353535851937790883648493
  {
  }

  /** The bytes of L, lowest first, as the C table lists them. */
  function OrderByte(k: int): (r: byte)
    ensures 16 <= k < 31 ==> r == 0
  {
    if k == 0 then 0xed else if k == 1 then 0xd3 else if k == 2 then 0xf5 else if k == 3 then 0x5c
    else if k == 4 then 0x1a else if k == 5 then 0x63 else if k == 6 then 0x12 else if k == 7 then 0x58
    else if k == 8 then 0xd6 else if k == 9 then 0x9c else if k == 10 then 0xf7 else if k == 11 then 0xa2
    else if k == 12 then 0xde else if k == 13 then 0xf9 else if k == 14 then 0xde else if k == 15 then 0x14
    else if k == 31 then 0x10 else 0
  }

  ghost function OrderBytes(): (s: seq<int>)
    ensures IsOrder(s)
  {
    seq(32, k => OrderByte(k))
  }

  lemma Pow256()
    ensures Pow(256, 16) == 0x1_0000_0000_0000_0000_0000_0000_0000_0000
    ensures Pow(256, 31) == 0x1_00_0000_0000_0000_0000_0000_0000_0000_0000_0000_0000_0000_0000_0000_0000_0000
    ensures Pow(256, 32) == 256 * Pow(256, 31)
  {
    assert Pow(256, 15) == 0x100_0000_0000_0000_0000_0000_0000_0000;
    PowAdd(256, 16, 15);
  }

  /** The table's low 16 bytes are Delta. */
  lemma LowOrderBytes(s: seq<int>)
    requires |s| >= 16 && forall k :: 0 <= k < 16 ==> s[k] == OrderByte(k)
    ensures Sum(s, 256, 16) == Delta
  {
    FourDigits(s, 256, 0);
    FourDigits(s, 256, 4);
    FourDigits(s, 256, 8);
    FourDigits(s, 256, 12);
  }

  ghost predicate IsOrder(l: seq<int>)
  {
    |l| == 32 && forall k :: 0 <= k < 32 ==> l[k] == OrderByte(k)
  }

  lemma OrderSums(l: seq<int>)
    requires IsOrder(l)
    ensures Sum(l, 256, 20) == Delta
    ensures Sum(l, 256, 32) == L
  {
    LowOrderBytes(l);
    SumZeroTail(l, 256, 16, 20);
    SumZeroTail(l, 256, 16, 31);
    Pow256();
    assert Sum(l, 256, 32) == Sum(l, 256, 31) + 0x10 * Pow(256, 31);
  }

  // ---- one round of the elimination ----

  /** What modL is given: digits of 21 bits, as reduce and signing produce. */
  const INPUT: int := 0x20_0000

  /** The magnitude of digit j once digits i..63 have been eliminated. */
  function Cap(j: int, i: int): int
  {
    if j >= i then 0
    else if i == 64 || j < i - 32 then INPUT
    else if j < i - 12 then 128
    else if j <= 50 then 129
    else 2 * INPUT
  }

  ghost predicate Capped(x: seq<int>, i: int)
  {
    |x| == 64 && forall j :: 0 <= j < 64 ==> -Cap(j, i) <= x[j] <= Cap(j, i)
  }

  /** The magnitude of the carry into step k of a round. */
  function CarryCap(k: int, first: bool): int
  {
    if k == 0 then 0 else if k <= 16 then 0x800_0000 else if k == 17 then 0x10_0000
    else if first then 0x4000 else if k == 18 then 0x2000 else if k == 19 then 70 else 1
  }

  /** x when the round that eliminates digit i, started on s, has reached digit j. */
  ghost predicate RoundBounds(s: seq<int>, x: seq<int>, i: int, j: int)
    requires 32 <= i < 64 && i - 32 <= j <= i - 12 && |s| == 64
  {
    && |x| == 64
    && (forall n :: i - 32 <= n < j ==> -128 <= x[n] <= 127)
    && (forall n :: 0 <= n < i - 32 || j <= n < 64 ==> x[n] == s[n])
  }

  /** The next carry stays within its cap. */
  lemma StepBounds(x: int, top: int, carry: int, k: int, first: bool)
    requires 0 <= k < 20 && -CarryCap(k, first) <= carry <= CarryCap(k, first)
    requires -2 * INPUT <= top <= 2 * INPUT
    requires var cap := if first || k == 0 then INPUT else 128; -cap <= x <= cap
    ensures var term := 16 * top * OrderByte(k);
            var y := x + (carry - term);
            && -0x10_0000_0000 <= 16 * top <= 0x10_0000_0000
            && -0x10_0000_0000 <= term <= 0x10_0000_0000
            && -0x20_0000_0000 <= y <= 0x20_0000_0000
            && -CarryCap(k + 1, first) <= (y + 128) / 256 <= CarryCap(k + 1, first)
            && -128 <= y - (y + 128) / 256 * 256 <= 127
  {
    TermCap(16 * top, OrderByte(k));
  }

  lemma TermCap(top: int, b: byte)
    requires -0x400_0000 <= top <= 0x400_0000
    ensures -0x3_fc00_0000 <= top * b <= 0x3_fc00_0000
    ensures b == 0 ==> top * b == 0
  {
    Scale(top, 0x400_0000, b);
    Scale(-0x400_0000, top, b);
  }

  lemma StepAlgebra(x: int, y: int, carry: int, term: int, next: int, p: int)
    requires y == x + (carry - term - next * 256) * p
    ensures y + next * (256 * p) == x + carry * p - term * p
  {
    Distribute(carry - term, -(next * 256), p);
    Distribute(carry, -term, p);
    Associate(next, 256, p);
  }

  /** What the steps so far have subtracted: q times the low digits of l, where q = top * 256^m. */
  lemma StepValue(x: seq<int>, y: seq<int>, l: seq<int>, top: int, m: nat, k: nat,
                  carry: int, next: int, start: int, q: int)
    requires |x| == 64 && |l| == 32 && m < 32 && k < 20 && q == top * Pow(256, m)
    requires Sum(x, 256, 64) + carry * Pow(256, m + k) == start - q * Sum(l, 256, k)
    requires y == x[m + k := x[m + k] + (carry - top * l[k]) - next * 256]
    ensures Sum(y, 256, 64) + next * Pow(256, m + k + 1) == start - q * Sum(l, 256, k + 1)
  {
    SumUpdate(x, y, 256, 64, m + k, carry - top * l[k] - next * 256);
    StepAlgebra(Sum(x, 256, 64), Sum(y, 256, 64), carry, top * l[k], next, Pow(256, m + k));
    PowAdd(256, m, k);
    ProductTerm(top, l[k], Pow(256, m), Pow(256, k), Sum(l, 256, k));
  }

  /** Clearing the top digit completes the multiple of L. */
  lemma RoundValue(x: seq<int>, y: seq<int>, l: seq<int>, m: nat, top: int, carry: int, start: int, q: int)
    requires IsOrder(l)
    requires |x| == 64 && m < 32 && x[m + 32] == top && q == 16 * top * Pow(256, m)
    requires Kept(x, carry, m + 20, start, q, Sum(l, 256, 20))
    requires y == x[m + 20 := x[m + 20] + carry][m + 32 := 0]
    ensures Sum(y, 256, 64) == start - q * L
  {
    var z := x[m + 20 := x[m + 20] + carry];
    SumUpdate(x, z, 256, 64, m + 20, carry);
    SumUpdate(z, y, 256, 64, m + 32, -top);
    TopTerm(top, m);
    OrderSums(l);
    Associate(16, top, Pow(256, m));
  }

  lemma TopTerm(top: int, m: nat)
    ensures (-top) * Pow(256, m + 32) == -((top * Pow(256, m)) * (16 * (L - Delta)))
  {
    PowAdd(256, m, 32);
    TopPower();
    Associate(top, Pow(256, m), Pow(256, 32));
    Negate(top, Pow(256, m + 32));
  }

  lemma Negate(x: int, p: int)
    ensures (-x) * p == -(x * p)
  {
  }

  lemma TopPower()
    ensures Pow(256, 32) == 16 * (L - Delta)
  {
    Pow256();
  }

  /** The body of the inner loop: subtract at digit j and pass on a balanced carry. */
  method SubtractAt(x: array<i64>, i: int, j: int, carry: i64, ghost lk: int) returns (next: i64)
    requires x.Length == 64 && 32 <= i < 64 && i - 32 <= j < i - 12 && lk == OrderByte(j - (i - 32))
    requires -CarryCap(j - (i - 32), i == 63) <= carry <= CarryCap(j - (i - 32), i == 63)
    requires -2 * INPUT <= x[i] <= 2 * INPUT
    requires var cap := if i == 63 || j == i - 32 then INPUT else 128; -cap <= x[j] <= cap
    modifies x
    ensures -CarryCap(j + 1 - (i - 32), i == 63) <= next <= CarryCap(j + 1 - (i - 32), i == 63)
    ensures x[..] == old(x[..])[j := old(x[j]) + (carry - 16 * old(x[i]) * lk) - next * 256]
    ensures -128 <= x[j] <= 127
  {
    StepBounds(x[j], x[i], carry, j - (i - 32), i == 63);
    var scaled: i64 := 16 * x[i];
    var term: i64 := scaled * OrderByte(j - (i - 32));
    x[j] := x[j] + (carry - term);
    next := (x[j] + 128) / 0x100;
    x[j] := x[j] - next * 0x100;
  }

  /** The number kept by a round: what is left plus the carry is q times the used digits of l less. */
  ghost predicate Kept(x: seq<int>, carry: int, j: nat, start: int, q: int, low: int)
    requires |x| == 64
  {
    Sum(x, 256, 64) + carry * Pow(256, j) == start - q * low
  }

  /** The same step, with what it keeps of the number. */
  method SubtractStep(x: array<i64>, i: int, j: int, carry: i64,
                      ghost top: int, ghost q: int, ghost l: seq<int>, ghost start: int)
    returns (next: i64)
    requires x.Length == 64 && 32 <= i < 64 && i - 32 <= j < i - 12
    requires -CarryCap(j - (i - 32), i == 63) <= carry <= CarryCap(j - (i - 32), i == 63)
    requires -2 * INPUT <= x[i] <= 2 * INPUT
    requires var cap := if i == 63 || j == i - 32 then INPUT else 128; -cap <= x[j] <= cap
    requires x[i] == top && q == 16 * top * Pow(256, i - 32) && IsOrder(l)
    requires Kept(x[..], carry, j, start, q, Sum(l, 256, j - (i - 32)))
    modifies x
    ensures -CarryCap(j + 1 - (i - 32), i == 63) <= next <= CarryCap(j + 1 - (i - 32), i == 63)
    ensures forall n :: 0 <= n < 64 && n != j ==> x[n] == old(x[n])
    ensures -128 <= x[j] <= 127
    ensures Kept(x[..], next, j + 1, start, q, Sum(l, 256, j + 1 - (i - 32)))
  {
    ghost var before: seq<int> := x[..];
    next := SubtractAt(x, i, j, carry, l[j - (i - 32)]);
    StepKept(before, x[..], l, 16 * top, i, j, carry, next, start, q);
  }

  lemma StepKept(x: seq<int>, y: seq<int>, l: seq<int>, top: int, i: int, j: int,
                 carry: int, next: int, start: int, q: int)
    requires |x| == 64 && |l| == 32 && 32 <= i < 64 && i - 32 <= j < i - 12 && q == top * Pow(256, i - 32)
    requires Kept(x, carry, j, start, q, Sum(l, 256, j - (i - 32)))
    requires y == x[j := x[j] + (carry - top * l[j - (i - 32)]) - next * 256]
    ensures Kept(y, next, j + 1, start, q, Sum(l, 256, j + 1 - (i - 32)))
  {
    StepValue(x, y, l, top, i - 32, j - (i - 32), carry, next, start, q);
  }

  lemma DigitCap(s: seq<int>, x: seq<int>, i: int, j: int)
    requires 32 <= i < 64 && i - 32 <= j < i - 12 && Capped(s, i + 1) && RoundBounds(s, x, i, j)
    ensures x[i] == s[i] && -2 * INPUT <= x[i] <= 2 * INPUT
    ensures var cap := if i == 63 || j == i - 32 then INPUT else 128; -cap <= x[j] <= cap
  {
  }

  /** The inner loop of a round. */
  method SubtractMultiple(x: array<i64>, i: int, ghost top: int, ghost q: int, ghost l: seq<int>) returns (carry: i64)
    requires x.Length == 64 && 32 <= i < 64 && Capped(x[..], i + 1)
    requires x[i] == top && q == 16 * top * Pow(256, i - 32) && IsOrder(l)
    modifies x
    ensures RoundBounds(old(x[..]), x[..], i, i - 12)
    ensures -CarryCap(20, i == 63) <= carry <= CarryCap(20, i == 63)
    ensures Kept(x[..], carry, i - 12, old(Sum(x[..], 256, 64)), q, Sum(l, 256, 20))
  {
    ghost var s: seq<int>, start := x[..], Sum(x[..], 256, 64);
    carry := 0;
    assert Sum(l, 256, 0) == 0 && q * Sum(l, 256, 0) == 0;
    for j := i - 32 to i - 12
      invariant RoundBounds(s, x[..], i, j)
      invariant -CarryCap(j - (i - 32), i == 63) <= carry <= CarryCap(j - (i - 32), i == 63)
      invariant Kept(x[..], carry, j, start, q, Sum(l, 256, j - (i - 32)))
    {
      DigitCap(s, x[..], i, j);
      carry := SubtractStep(x, i, j, carry, top, q, l, start);
    }
  }

  /** The end of a round: the last carry moves up and digit i is cleared. */
  method FinishRound(x: array<i64>, i: int, carry: i64)
    requires x.Length == 64 && 32 <= i < 64
    requires -2 * INPUT <= x[i - 12] <= 2 * INPUT && -INPUT <= carry <= INPUT
    modifies x
    ensures x[..] == old(x[..])[i - 12 := old(x[i - 12]) + carry][i := 0]
  {
    x[i - 12] := x[i - 12] + carry;
    x[i] := 0;
  }

  /** One round: subtract a multiple of L that clears digit i. */
  method EliminateDigit(x: array<i64>, i: int, ghost l: seq<int>) returns (ghost q: int)
    requires x.Length == 64 && 32 <= i < 64 && Capped(x[..], i + 1) && IsOrder(l)
    modifies x
    ensures Capped(x[..], i)
    ensures Sum(x[..], 256, 64) == old(Sum(x[..], 256, 64)) - q * L
  {
    ghost var s: seq<int>, start, top := x[..], Sum(x[..], 256, 64), x[i];
    q := 16 * top * Pow(256, i - 32);
    var carry := SubtractMultiple(x, i, top, q, l);
    ghost var before: seq<int> := x[..];
    RoundCap(s, before, i, carry);
    FinishRound(x, i, carry);
    RoundValue(before, x[..], l, i - 32, top, carry, start, q);
  }

  lemma RoundCap(s: seq<int>, x: seq<int>, i: int, carry: int)
    requires 32 <= i < 64 && Capped(s, i + 1) && RoundBounds(s, x, i, i - 12)
    requires -CarryCap(20, i == 63) <= carry <= CarryCap(20, i == 63)
    ensures Capped(x[i - 12 := x[i - 12] + carry][i := 0], i)
    ensures x[i] == s[i] && -2 * INPUT <= x[i - 12] <= 2 * INPUT
  {
  }

  // ---- the final correction ----

  /** Digits of magnitude 129 are worth little more than half of the next power. */
  lemma {:induction false} SumCap(s: seq<int>, n: nat)
    requires n <= |s| && forall j :: 0 <= j < n ==> -129 <= s[j] <= 129
    ensures -129 * Pow(256, n) <= 255 * Sum(s, 256, n) <= 129 * Pow(256, n)
  {
    if n > 0 {
      SumCap(s, n - 1);
      var p := Pow(256, n - 1);
      Scale(s[n - 1], 129, p);
      Scale(-129, s[n - 1], p);
      assert Pow(256, n) == 256 * p;
    }
  }

  /** Taking the top digit's multiple of L off leaves less than L in magnitude. */
  lemma OneMultipleSuffices(s: seq<int>, q: int)
    requires |s| == 64 && (forall j :: 0 <= j < 32 ==> -129 <= s[j] <= 129) && q == s[31] / 16
    ensures -(L as int) < Sum(s, 256, 32) - q * L < L
  {
    SumCap(s, 31);
    Pow256();
    assert Sum(s, 256, 32) == Sum(s, 256, 31) + s[31] * Pow(256, 31);
  }

  lemma {:induction false} SmallCarry(s: seq<int>, n: nat, bound: nat)
    requires n <= |s| && forall j :: 0 <= j < n ==> -(bound as int) <= s[j] <= bound
    ensures -(bound as int) - 1 <= Carry(s, 256, n) <= bound
  {
    if n > 0 {
      SmallCarry(s, n - 1, bound);
    }
  }

  /** s minus q times the digits of l. */
  ghost function Minus(s: seq<int>, q: int, l: seq<int>): (d: seq<int>)
    requires |s| >= 32 && |l| == 32
    ensures |d| == 32 && forall j :: 0 <= j < 32 ==> d[j] == s[j] - q * l[j]
  {
    seq(32, j requires 0 <= j < 32 => s[j] - q * l[j])
  }

  lemma MinusLinear(s: seq<int>, q: int, l: seq<int>)
    requires |s| >= 32 && |l| == 32
    ensures Sum(Minus(s, q, l), 256, 32) == Sum(s, 256, 32) - q * Sum(l, 256, 32)
  {
    var d := Minus(s, q, l);
    forall j | 0 <= j < 32 ensures d[j] == s[j] + (-q) * l[j] {
      Negate(q, l[j]);
    }
    SumLinear(s, l, d, -q, 256, 32);
    Negate(q, Sum(l, 256, 32));
  }

  lemma MinusSum(s: seq<int>, q: int, l: seq<int>)
    requires |s| >= 32 && IsOrder(l)
    ensures Sum(Minus(s, q, l), 256, 32) == Sum(s, 256, 32) - q * L
  {
    MinusLinear(s, q, l);
    OrderSums(l);
  }

  lemma MinusBound(s: seq<int>, q: int, l: seq<int>, j: nat)
    requires |s| >= 32 && IsOrder(l) && j < 32 && -16 <= q <= 16 && -129 <= s[j] <= 255
    ensures -0x1000 <= q * l[j] <= 0x1000
    ensures -0x2000 <= Minus(s, q, l)[j] <= 0x2000
  {
    Scale(q, 16, l[j]);
    Scale(-16, q, l[j]);
  }

  lemma MinusBounds(s: seq<int>, q: int, l: seq<int>)
    requires |s| >= 32 && IsOrder(l) && -16 <= q <= 16 && forall j :: 0 <= j < 32 ==> -129 <= s[j] <= 255
    ensures forall j :: 0 <= j < 32 ==> -0x1000 <= q * l[j] <= 0x1000 && -0x2000 <= Minus(s, q, l)[j] <= 0x2000
  {
    forall j | 0 <= j < 32 ensures -0x1000 <= q * l[j] <= 0x1000 && -0x2000 <= Minus(s, q, l)[j] <= 0x2000 {
      MinusBound(s, q, l, j);
    }
  }

  /** One digit of that subtraction; d is what the digit is worth before the carry. */
  method TakeTopAt(x: array<i64>, j: nat, carry: i64, ghost top: int, ghost lj: int, ghost d: int) returns (next: i64)
    requires x.Length == 64 && j < 32 && lj == OrderByte(j) && x[31] / 16 == top && -9 <= top <= 8
    requires d == x[j] - top * lj && -0x2001 <= carry <= 0x2000
    requires -129 <= x[j] <= 129
    modifies x
    ensures x[..] == old(x[..])[j := (d + carry) % 256]
    ensures next == (d + carry) / 256
  {
    Scale(top, 8, lj);
    Scale(-9, top, lj);
    var term: i64 := (x[31] / 16) * OrderByte(j);
    assert term == top * lj;
    x[j] := x[j] + (carry - term);
    next := x[j] / 0x100;
    x[j] := x[j] % 0x100;
  }

  /** d is x less `top` times the order, digit by digit. */
  ghost predicate LessOrder(x: seq<int>, top: int, l: seq<int>, d: seq<int>)
  {
    && |x| == 64 && |d| == 32 && IsOrder(l)
    && forall j :: 0 <= j < 32 ==> d[j] == x[j] - top * l[j] && -0x2000 <= d[j] <= 0x2000
  }

  /** Subtract x[31] / 16 times L from the low half and normalise it. */
  method TakeTopMultiple(x: array<i64>, ghost top: int, ghost l: seq<int>, ghost d: seq<int>) returns (carry: i64)
    requires x.Length == 64 && x[31] / 16 == top && LessOrder(x[..], top, l, d)
    requires forall j :: 0 <= j < 32 ==> -129 <= x[j] <= 129
    modifies x
    ensures carry == Carry(d, 256, 32)
    ensures forall j :: 0 <= j < 32 ==> x[j] == Digit(d, 256, j)
    ensures forall j :: 32 <= j < 64 ==> x[j] == old(x[j])
  {
    ghost var s: seq<int> := x[..];
    carry := 0;
    assert Carry(d, 256, 0) == 0;
    for j := 0 to 32
      invariant carry == Carry(d, 256, j)
      invariant forall n :: 0 <= n < j ==> x[n] == Digit(d, 256, n)
      invariant forall n :: j <= n < 64 ==> x[n] == s[n]
    {
      SmallCarry(d, j, 0x2000);
      assert x[31] == s[31] && x[j] == s[j];
      assert d[j] == s[j] - top * l[j];
      carry := TakeTopAt(x, j, carry, top, l[j], d[j]);
    }
  }

  /** Subtract carry * L digit by digit. */
  method SubtractOrder(x: array<i64>, carry: i64, ghost l: seq<int>)
    requires x.Length == 64 && IsOrder(l) && -1 <= carry <= 0
    requires forall j :: 0 <= j < 32 ==> 0 <= x[j] <= 255
    modifies x
    ensures forall j :: 0 <= j < 32 ==> x[j] == Minus(old(x[..]), carry, l)[j]
    ensures forall j :: 32 <= j < 64 ==> x[j] == old(x[j])
  {
    ghost var s: seq<int> := x[..];
    for j := 0 to 32
      invariant forall n :: 0 <= n < j ==> x[n] == Minus(s, carry, l)[n]
      invariant forall n :: j <= n < 64 ==> x[n] == s[n]
    {
      MinusBound(s, carry, l, j);
      var term: i64 := carry * OrderByte(j);
      x[j] := x[j] - term;
    }
  }

  /** Normalise for the last time, into bytes. */
  method EmitBytes(r: array<byte>, at: nat, x: array<i64>, ghost d: seq<int>)
    requires x.Length == 64 && at + 32 <= r.Length && |d| == 32
    requires forall j :: 0 <= j < 32 ==> x[j] == d[j] && -0x2000 <= d[j] <= 0x2000
    requires x[32] == 0
    modifies r, x
    ensures forall j :: 0 <= j < 32 ==> r[at + j] == Digit(d, 256, j)
    ensures forall j :: 0 <= j < r.Length && !(at <= j < at + 32) ==> r[j] == old(r[j])
  {
    assert Carry(d, 256, 0) == 0;
    for i := 0 to 32
      invariant x[i] == (if i < 32 then d[i] else 0) + Carry(d, 256, i)
      invariant forall n :: i < n < 32 ==> x[n] == d[n]
      invariant i < 32 ==> x[32] == 0
      invariant forall j :: 0 <= j < i ==> r[at + j] == Digit(d, 256, j)
      invariant forall j :: 0 <= j < r.Length && !(at <= j < at + 32) ==> r[j] == old(r[j])
    {
      SmallCarry(d, i, 0x2000);
      x[i + 1] := x[i + 1] + x[i] / 0x100;
      r[at + i] := x[i] % 0x100;
    }
  }

  /** Whatever the sign left after one multiple, the two normalisations end at the residue. */
  lemma Residue(v: int, q: int, low: int, carry: int, out: int, up: int, p: int)
    requires -(L as int) < v - q * L < L && p == Pow(256, 32)
    requires 0 <= low < p && low + carry * p == v - q * L
    requires 0 <= out < p && out + up * p == low - carry * L
    ensures -1 <= carry <= 0 && out == v % L
  {
    Pow256();
    var w := v - q * L;
    if w >= 0 {
      ModUnique(w, 0, w, p);
      ModUnique(w, carry, low, p);
      ModUnique(w, up, out, p);
      ModUnique(v, q, w, L);
    } else {
      ModUnique(w, -1, w + p, p);
      ModUnique(w, carry, low, p);
      ModUnique(w + L + p, 1, w + L, p);
      ModUnique(w + L + p, up, out, p);
      ModUnique(v, q - 1, w + L, L);
    }
  }

  /** The value side of the two normalisations: digits d, then e, then the bytes out. */
  lemma FinalValue(x: seq<int>, q: int, l: seq<int>, d: seq<int>, y: seq<int>, carry: int, out: seq<byte>)
    requires |x| == 64 && IsOrder(l) && (forall j :: 0 <= j < 32 ==> -129 <= x[j] <= 129) && q == x[31] / 16
    requires |y| == 64 && d == Minus(x, q, l) && carry == Carry(d, 256, 32)
    requires forall j :: 0 <= j < 32 ==> y[j] == Digit(d, 256, j)
    requires |out| == 32 && forall j :: 0 <= j < 32 ==> out[j] == Digit(Minus(y, carry, l), 256, j)
    ensures Number(out) == Sum(x, 256, 32) % L
  {
    var e := Minus(y, carry, l);
    CarryKeepsSum(d, y, 256, 32);
    CarryKeepsSum(e, out, 256, 32);
    MinusSum(x, q, l);
    MinusSum(y, carry, l);
    OneMultipleSuffices(x, q);
    SumBound(y, 256, 32);
    SumBound(out, 256, 32);
    Residue(Sum(x, 256, 32), q, Sum(y, 256, 32), carry, Sum(out, 256, 32), Carry(e, 256, 32), Pow(256, 32));
  }

  /** The first normalisation carries out nothing, or borrows once. */
  lemma BorrowOnce(x: seq<int>, q: int, l: seq<int>, y: seq<int>)
    requires |x| == 64 && IsOrder(l) && (forall j :: 0 <= j < 32 ==> -129 <= x[j] <= 129) && q == x[31] / 16
    requires |y| == 64 && forall j :: 0 <= j < 32 ==> y[j] == Digit(Minus(x, q, l), 256, j)
    ensures -1 <= Carry(Minus(x, q, l), 256, 32) <= 0
  {
    CarryKeepsSum(Minus(x, q, l), y, 256, 32);
    MinusSum(x, q, l);
    OneMultipleSuffices(x, q);
    SumBound(y, 256, 32);
    Pow256();
  }

  lemma LowHalf(x: seq<int>)
    requires Capped(x, 32)
    ensures Sum(x, 256, 64) == Sum(x, 256, 32)
    ensures forall j :: 0 <= j < 32 ==> -129 <= x[j] <= 129
  {
    SumZeroTail(x, 256, 32, 64);
  }

  /** The elimination loop: the residue stays, the top half goes. */
  method EliminateTop(x: array<i64>)
    requires x.Length == 64 && forall j :: 0 <= j < 64 ==> -INPUT <= x[j] <= INPUT
    modifies x
    ensures Capped(x[..], 32)
    ensures Sum(x[..], 256, 64) % L == old(Sum(x[..], 256, 64)) % L
  {
    ghost var start := Sum(x[..], 256, 64);
    ghost var l := OrderBytes();
    for i := 64 downto 32
      invariant Capped(x[..], i)
      invariant Sum(x[..], 256, 64) % L == start % L
    {
      ghost var v := Sum(x[..], 256, 64);
      ghost var q := EliminateDigit(x, i, l);
      ModShift(v, -q, L);
    }
  }

  /** The final correction: at most one more L, then bytes. */
  method EmitResidue(r: array<byte>, at: nat, x: array<i64>)
    requires x.Length == 64 && at + 32 <= r.Length
    requires (forall j :: 0 <= j < 32 ==> -129 <= x[j] <= 129) && x[32] == 0
    modifies r, x
    ensures Number(r[at..at + 32]) == old(Sum(x[..], 256, 32)) % L
    ensures forall j :: 0 <= j < r.Length && !(at <= j < at + 32) ==> r[j] == old(r[j])
  {
    ghost var s: seq<int>, l := x[..], OrderBytes();
    ghost var q := s[31] / 16;
    ghost var d := Minus(s, q, l);
    MinusBounds(s, q, l);
    var carry := TakeTopMultiple(x, q, l, d);
    ghost var y: seq<int> := x[..];
    BorrowOnce(s, q, l, y);
    SubtractOrder(x, carry, l);
    MinusBounds(y, carry, l);
    EmitBytes(r, at, x, Minus(y, carry, l));
    FinalValue(s, q, l, d, y, carry, r[at..at + 32]);
  }

  /** modL: the canonical bytes of the residue modulo L, at r[at..at+32]. */
  method ModL(r: array<byte>, at: nat, x: array<i64>)
    requires x.Length == 64 && at + 32 <= r.Length
    requires forall j :: 0 <= j < 64 ==> -INPUT <= x[j] <= INPUT
    modifies r, x
    ensures r[at..at + 32] == LittleEndian(old(Sum(x[..], 256, 64)) % L, 32)
    ensures forall j :: 0 <= j < r.Length && !(at <= j < at + 32) ==> r[j] == old(r[j])
  {
    EliminateTop(x);
    LowHalf(x[..]);
    EmitResidue(r, at, x);
    EncodeNumber(r[at..at + 32]);
  }

  method WidenBytes(r: array<byte>) returns (x: array<i64>)
    requires r.Length == 64
    ensures fresh(x) && x.Length == 64 && forall k :: 0 <= k < 64 ==> x[k] == r[k]
  {
    x := new i64[64];
    for i := 0 to 64
      invariant forall k :: 0 <= k < i ==> x[k] == r[k]
    {
      x[i] := r[i];
    }
  }

  method ZeroBytes(r: array<byte>)
    modifies r
    ensures forall k :: 0 <= k < r.Length ==> r[k] == 0
  {
    for i := 0 to r.Length
      invariant forall k :: 0 <= k < i ==> r[k] == 0
    {
      r[i] := 0;
    }
  }

  /** reduce: a 64-byte hash becomes its residue, the upper half of the buffer zero. */
  method Reduce(r: array<byte>)
    requires r.Length == 64
    modifies r
    ensures r[..32] == LittleEndian(old(Number(r[..])) % L, 32)
    ensures forall k :: 32 <= k < 64 ==> r[k] == 0
  {
    var x := WidenBytes(r);
    SumSame(r[..], x[..], 256, 64);
    ZeroBytes(r);
    ModL(r, 0, x);
    assert r[..32] == r[0..32];
  }

  /** Column k of r + h * d after i full rows and j terms of the next. */
  ghost predicate Accumulated(x: seq<int>, i: nat, j: nat)
  {
    && |x| == 64
    && forall k :: 0 <= k < 64 ==> 0 <= x[k] <= 255 + (if i <= k < i + j then i + 1 else i) * 65025
  }

  /** x += h * d, schoolbook. */
  method MultiplyAccumulate(x: array<i64>, h: array<byte>, d: array<byte>)
    requires x.Length == h.Length == d.Length == 64
    requires forall k :: 0 <= k < 64 ==> 0 <= x[k] <= 255
    modifies x
    ensures forall k :: 0 <= k < 64 ==> 0 <= x[k] <= INPUT
    ensures Sum(x[..], 256, 64)
         == old(Sum(x[..], 256, 64)) + Sum(h[..], 256, 32) * Sum(d[..], 256, 32)
  {
    ghost var hv: seq<int>, dv: seq<int>, start := h[..], d[..], Sum(x[..], 256, 64);
    assert Sum(hv, 256, 0) == 0;
    for i := 0 to 32
      invariant Sum(x[..], 256, 64) == start + Sum(hv, 256, i) * Sum(dv, 256, 32)
      invariant Accumulated(x[..], i, 0)
    {
      ghost var done := start + Sum(hv, 256, i) * Sum(dv, 256, 32);
      assert Sum(dv, 256, 0) == 0;
      for j := 0 to 32
        invariant Sum(x[..], 256, 64) == done + hv[i] * Pow(256, i) * Sum(dv, 256, j)
        invariant Accumulated(x[..], i, j)
      {
        ghost var before: seq<int> := x[..];
        ByteProduct(hv[i], dv[j]);
        assert before[i + j] == x[i + j];
        var term: i64 := h[i] as int * d[j] as int;
        x[i + j] := x[i + j] + term;
        ProductStep(before, x[..], hv, dv, 256, 64, i, j, done);
      }
      RowDone(hv, 256, i, Sum(dv, 256, 32));
    }
  }

  lemma ByteProduct(x: int, y: int)
    requires 0 <= x <= 255 && 0 <= y <= 255
    ensures 0 <= x * y <= 65025
  {
    Scale(x, 255, y);
    Scale(0, x, y);
  }

  /** The accumulator starts as the 32 bytes of r. */
  method WidenLow(r: array<byte>) returns (x: array<i64>)
    requires r.Length == 64
    ensures fresh(x) && x.Length == 64 && (forall k :: 0 <= k < 64 ==> 0 <= x[k] <= 255)
    ensures Sum(x[..], 256, 64) == Sum(r[..], 256, 32)
  {
    x := new i64[64](_ => 0);
    for i := 0 to 32
      invariant forall k :: 0 <= k < i ==> x[k] == r[k]
      invariant forall k :: i <= k < 64 ==> x[k] == 0
    {
      x[i] := r[i];
    }
    ghost var xv: seq<int> := x[..];
    SumSame(r[..], xv, 256, 32);
    SumZeroTail(xv, 256, 32, 64);
  }

  /** The scalar half of a signature: S = (r + h * d) mod L (RFC 8032 section 5.1.6). */
  method SignScalar(s: array<byte>, r: array<byte>, h: array<byte>, d: array<byte>)
    requires s.Length == r.Length == h.Length == d.Length == 64
    modifies s
    ensures s[32..] == old(LittleEndian((Sum(r[..], 256, 32) + Sum(h[..], 256, 32) * Sum(d[..], 256, 32)) % L, 32))
    ensures s[..32] == old(s[..32])
  {
    var x := WidenLow(r);
    MultiplyAccumulate(x, h, d);
    ModL(s, 32, x);
    assert s[32..64] == s[32..];
  }
}
