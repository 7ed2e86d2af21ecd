/** Field elements as 32 bytes: pack25519 and unpack25519 (RFC 7748 section 5). */
module Encoding {
  import opened Radix
  import opened Field
  import opened Limbs

  /** The n little-endian bytes of v, dropping anything above. */
  function LittleEndian(v: int, n: nat): (s: seq<byte>)
    ensures |s| == n
  {
    if n == 0 then [] else LittleEndian(v, n - 1) + [v / Pow(256, n - 1) % 256]
  }

  /** The number that a byte string stands for. */
  function Number(s: seq<byte>): int { Sum(s, 256, |s|) }

  /** Bytes are the only encoding of their number at their length. */
  lemma {:induction false} EncodingUnique(s: seq<byte>, n: nat, v: int, high: int)
    requires n <= |s| && v == Sum(s, 256, n) + high * Pow(256, n)
    ensures LittleEndian(v, n) == s[..n]
    ensures Pow(256, n) > 0
  {
    if n > 0 {
      var p := Pow(256, n - 1);
      var x := s[n - 1];
      Distribute(x, high * 256, p);
      Associate(high, 256, p);
      EncodingUnique(s, n - 1, v, x + high * 256);
      SumBound(s, 256, n - 1);
      ModUnique(v, x + high * 256, Sum(s, 256, n - 1), p);
      ModUnique(x + high * 256, high, x, 256);
      assert s[..n] == s[..n - 1] + [x];
    }
  }

  lemma EncodeNumber(s: seq<byte>)
    ensures LittleEndian(Number(s), |s|) == s
  {
    EncodingUnique(s, |s|, Number(s), 0);
    assert s[..|s|] == s;
  }

  lemma {:induction false} LimbPow(n: nat)
    ensures Pow(BASE, n) == Pow(256, 2 * n)
  {
    if n > 0 {
      LimbPow(n - 1);
      assert Pow(256, 2 * n) == 256 * Pow(256, 2 * n - 1);
    }
  }

  /** Limb k holds bytes 2k and 2k + 1. */
  lemma {:induction false} LimbsAreBytes(t: seq<int>, s: seq<int>, n: nat)
    requires n <= |t| && 2 * n <= |s|
    requires forall i :: 0 <= i < n ==> t[i] == s[2 * i] + 256 * s[2 * i + 1]
    ensures Sum(t, BASE, n) == Sum(s, 256, 2 * n)
  {
    if n > 0 {
      LimbsAreBytes(t, s, n - 1);
      LimbPow(n - 1);
      var p := Pow(BASE, n - 1);
      assert Pow(256, 2 * n - 1) == 256 * Pow(256, 2 * n - 2);
      assert Pow(256, 2 * n) == 256 * Pow(256, 2 * n - 1);
      Distribute(s[2 * n - 2], 256 * s[2 * n - 1], p);
      Associate(s[2 * n - 1], 256, p);
      var half := Sum(s, 256, 2 * n - 2);
      assert Sum(s, 256, 2 * n - 1) == half + s[2 * n - 2] * p;
      assert Sum(s, 256, 2 * n) == Sum(s, 256, 2 * n - 1) + s[2 * n - 1] * (256 * p);
    }
  }

  const TWO_TO_255: nat := Prime + 19

  /** Decode a u-coordinate: the top bit is ignored and values from the prime upward are accepted. */
  ghost function DecodeU(s: seq<byte>): int
    requires |s| == 32
  {
    Number(s) % TWO_TO_255 % Prime
  }

  /** Clearing the top bit of the top limb reduces the number modulo 2^255. */
  lemma MaskTopLimb(t: seq<int>, o: seq<int>)
    requires |t| == |o| == 16 && o[15] == t[15] % 0x8000
    requires forall i :: 0 <= i < 16 ==> 0 <= t[i] < BASE
    requires forall i :: 0 <= i < 15 ==> o[i] == t[i]
    ensures Sum(o, BASE, 16) == Sum(t, BASE, 16) % TWO_TO_255
  {
    SumSame(t, o, BASE, 15);
    SumBound(t, BASE, 15);
    PowValues();
    var p := Pow(BASE, 15);
    var q := t[15] / 0x8000;
    assert t[15] == 0x8000 * q + o[15];
    Distribute(0x8000 * q, o[15], p);
    assert 0x8000 * q * p == q * TWO_TO_255;
    Scale(o[15], 0x7fff, p);
    Scale(0, o[15], p);
    ModUnique(Sum(t, BASE, 16), q, Sum(o, BASE, 16), TWO_TO_255);
  }

  lemma UnpackedElem(n: seq<byte>, t: seq<int>, o: seq<int>)
    requires |n| == 32 && |t| == |o| == 16
    requires forall i :: 0 <= i < 16 ==> t[i] == n[2 * i] as int + 256 * n[2 * i + 1] as int
    requires forall i :: 0 <= i < 16 ==> 0 <= t[i] < BASE
    requires o[15] == t[15] % 0x8000 && forall i :: 0 <= i < 15 ==> o[i] == t[i]
    ensures Sum(o, BASE, 16) == Number(n) % TWO_TO_255
  {
    LimbsAreBytes(t, n, 16);
    MaskTopLimb(t, o);
  }

  method Unpack(o: array<i64>, n: array<byte>)
    requires o.Length == 16 && n.Length == 32
    modifies o
    ensures forall k :: 0 <= k < 16 ==> 0 <= o[k] <= 0xffff
    ensures Elem(o[..]) == DecodeU(n[..])
  {
    for i := 0 to 16
      invariant forall k :: 0 <= k < i ==> o[k] == n[2 * k] as int + 256 * n[2 * k + 1] as int
    {
      var high: i64 := n[2 * i + 1] as int * 0x100;
      o[i] := n[2 * i] + high;
    }
    ghost var t: seq<int> := o[..];
    o[15] := o[15] % 0x8000;
    UnpackedElem(n[..], t, o[..]);
  }

  /** Carries out of limb 1 and above never exceed, and never oppose, the carry out of limb 0. */
  lemma {:induction false} CarryFollows(s: seq<int>, n: nat)
    requires Reduced(s) && 1 <= n <= 16
    ensures -1 <= Carry(s, BASE, 1) <= 1
    ensures Carry(s, BASE, n) == 0 || Carry(s, BASE, n) == Carry(s, BASE, 1)
  {
    if n == 1 {
      assert Carry(s, BASE, 0) == 0;
    } else {
      CarryFollows(s, n - 1);
    }
  }

  /** A third pass makes every limb normal: folding the last carry in cannot carry again. */
  lemma CarriedThrice(s: seq<int>, d: seq<int>)
    requires Reduced(s) && Carried(s, d)
    ensures forall i :: 0 <= i < 16 ==> 0 <= d[i] < BASE
  {
    CarryFollows(s, 16);
    assert Carry(s, BASE, 0) == 0;
    assert Carry(s, BASE, 1) == s[0] / BASE && Digit(s, BASE, 0) == s[0] % BASE;
  }

  /** The limbs of the prime that pack25519 subtracts. */
  function PrimeLimb(i: int): int
  {
    if i == 0 then 0xffed else if i < 15 then 0xffff else 0x7fff
  }

  ghost function PrimeLimbs(): (s: seq<int>)
    ensures |s| == 16 && forall i :: 0 <= i < 16 ==> s[i] == PrimeLimb(i)
  {
    seq(16, i => PrimeLimb(i))
  }

  lemma {:induction false} PrimeLimbsBelow(n: nat)
    requires 1 <= n <= 15
    ensures Sum(PrimeLimbs(), BASE, n) == Pow(BASE, n) - 19
  {
    if n == 1 {
      assert Sum(PrimeLimbs(), BASE, 0) == 0 && Pow(BASE, 0) == 1;
    } else {
      PrimeLimbsBelow(n - 1);
    }
  }

  lemma PrimeLimbsSum()
    ensures Sum(PrimeLimbs(), BASE, 16) == Prime
  {
    PrimeLimbsBelow(15);
    PowValues();
  }

  ghost function MinusPrime(t: seq<int>): (s: seq<int>)
    requires |t| == 16
    ensures |s| == 16 && forall i :: 0 <= i < 16 ==> s[i] == t[i] - PrimeLimb(i)
  {
    seq(16, i requires 0 <= i < 16 => t[i] - PrimeLimb(i))
  }

  ghost predicate Normal(t: seq<int>)
  {
    |t| == 16 && forall i :: 0 <= i < 16 ==> 0 <= t[i] < BASE
  }

  /** m is t minus the prime with borrows propagated; its top limb keeps the sign. */
  ghost predicate Subtracted(t: seq<int>, m: seq<int>)
    requires |t| == 16
  {
    var s := MinusPrime(t);
    && |m| == 16
    && m[15] == s[15] + Carry(s, BASE, 15)
    && forall i :: 0 <= i < 15 ==> m[i] == Digit(s, BASE, i)
  }

  /** Every borrow is a single unit. */
  lemma {:induction false} BorrowBound(t: seq<int>, n: nat)
    requires Normal(t) && n <= 15
    ensures -1 <= Carry(MinusPrime(t), BASE, n) <= 0
  {
    if n > 0 {
      BorrowBound(t, n - 1);
    }
  }

  lemma SubtractedSum(t: seq<int>, m: seq<int>)
    requires Normal(t) && Subtracted(t, m)
    ensures Sum(m, BASE, 16) == Sum(t, BASE, 16) - Prime
  {
    var s := MinusPrime(t);
    SumLinear(t, PrimeLimbs(), s, -1, BASE, 16);
    PrimeLimbsSum();
    CarryKeepsSum(s, m, BASE, 15);
    Distribute(s[15], Carry(s, BASE, 15), Pow(BASE, 15));
  }

  lemma SubtractedSign(t: seq<int>, m: seq<int>)
    requires Normal(t) && Subtracted(t, m)
    ensures -0x8000 <= m[15] <= 0x8000
    ensures m[15] >= 0 <==> Sum(t, BASE, 16) >= Prime
  {
    SubtractedSum(t, m);
    BorrowBound(t, 15);
    SumBound(m, BASE, 15);
    SignOfTop(m[15], Sum(m, BASE, 15), Pow(BASE, 15));
  }

  lemma SignOfTop(top: int, low: int, p: int)
    requires 0 <= low < p
    ensures low + top * p >= 0 <==> top >= 0
  {
    if top >= 0 {
      Scale(0, top, p);
    } else {
      Scale(top, -1, p);
    }
  }

  /** The borrow bit of the C code is minus the carry of the flooring chain. */
  lemma BorrowStep(t: seq<int>, i: nat)
    requires Normal(t) && i < 15
    ensures var x := MinusPrime(t)[i] + Carry(MinusPrime(t), BASE, i);
            && -0x10000 <= x <= 0xffff
            && x % 0x10000 == Digit(MinusPrime(t), BASE, i)
            && x / 0x10000 % 2 == -Carry(MinusPrime(t), BASE, i + 1)
            && 0 <= x / 0x10000 % 2 <= 1
  {
    BorrowBound(t, i);
    BorrowBound(t, i + 1);
  }

  /** One step: limb i takes the borrow of limb i - 1, which is then masked. */
  method BorrowAt(m: array<i64>, t: array<i64>, i: nat)
    requires m.Length == t.Length == 16 && m != t && Normal(t[..]) && 1 <= i < 15
    requires m[i - 1] == MinusPrime(t[..])[i - 1] + Carry(MinusPrime(t[..]), BASE, i - 1)
    modifies m
    ensures m[i - 1] == Digit(MinusPrime(t[..]), BASE, i - 1)
    ensures m[i] == MinusPrime(t[..])[i] + Carry(MinusPrime(t[..]), BASE, i)
    ensures forall k :: 0 <= k < i - 1 ==> m[k] == old(m[k])
  {
    BorrowStep(t[..], i - 1);
    var borrow: i64 := m[i - 1] / 0x10000 % 2;
    m[i] := t[i] - 0xffff - borrow;
    m[i - 1] := m[i - 1] % 0x10000;
  }

  /** The loop of a trial subtraction: limb 14 is still to be masked. */
  method BorrowChain(m: array<i64>, t: array<i64>)
    requires m.Length == t.Length == 16 && m != t && Normal(t[..])
    modifies m
    ensures forall k :: 0 <= k < 14 ==> m[k] == Digit(MinusPrime(t[..]), BASE, k)
    ensures m[14] == MinusPrime(t[..])[14] + Carry(MinusPrime(t[..]), BASE, 14)
  {
    ghost var tv: seq<int> := t[..];
    ghost var s := MinusPrime(tv);
    m[0] := t[0] - 0xffed;
    assert Carry(s, BASE, 0) == 0;
    for i := 1 to 15
      invariant t[..] == tv
      invariant forall k :: 0 <= k < i - 1 ==> m[k] == Digit(s, BASE, k)
      invariant m[i - 1] == s[i - 1] + Carry(s, BASE, i - 1)
    {
      BorrowAt(m, t, i);
    }
  }

  lemma TopSign(t: seq<int>, top: int)
    requires Normal(t) && top == MinusPrime(t)[15] + Carry(MinusPrime(t), BASE, 15)
    ensures -0x8000 <= top <= 0x8000
    ensures top / 0x10000 % 2 == if top < 0 then 1 else 0
  {
    BorrowBound(t, 15);
  }

  /** One trial subtraction: m becomes t minus the prime, and the result tells a borrow. */
  method TrialSubtract(m: array<i64>, t: array<i64>) returns (b: i64)
    requires m.Length == t.Length == 16 && m != t && Normal(t[..])
    modifies m
    ensures Subtracted(t[..], m[..])
    ensures b == if m[15] < 0 then 1 else 0
  {
    BorrowChain(m, t);
    ghost var tv: seq<int> := t[..];
    BorrowStep(tv, 14);
    var borrow: i64 := m[14] / 0x10000 % 2;
    m[15] := t[15] - 0x7fff - borrow;
    TopSign(tv, m[15]);
    b := m[15] / 0x10000 % 2;
    m[14] := m[14] % 0x10000;
  }

  /** Swap p and q when b is 1, leave both when b is 0. */
  method ConditionalSwap(p: array<i64>, q: array<i64>, b: int)
    requires p.Length == q.Length == 16 && p != q && 0 <= b <= 1
    modifies p, q
    ensures p[..] == old(if b == 1 then q[..] else p[..])
    ensures q[..] == old(if b == 1 then p[..] else q[..])
  {
    ghost var pv, qv := p[..], q[..];
    for i := 0 to 16
      invariant forall k :: 0 <= k < i ==> p[k] == (if b == 1 then qv[k] else pv[k])
      invariant forall k :: 0 <= k < i ==> q[k] == (if b == 1 then pv[k] else qv[k])
      invariant forall k :: i <= k < 16 ==> p[k] == pv[k] && q[k] == qv[k]
    {
      if b == 1 {
        p[i], q[i] := q[i], p[i];
      }
    }
  }

  /** The masked exclusive-or that sel25519 uses for a swap, on the 64-bit words themselves. */
  lemma MaskedSwap(p: bv64, q: bv64, b: bv64)
    requires b == 0 || b == 1
    ensures var t := !(b - 1) & (p ^ q);
            p ^ t == (if b == 1 then q else p) && q ^ t == (if b == 1 then p else q)
  {
    if b == 1 {
      MaskOn(p, q);
    } else {
      MaskOff(p, q);
    }
  }

  lemma MaskOn(p: bv64, q: bv64)
    ensures p ^ (!(1 - 1) & (p ^ q)) == q && q ^ (!(1 - 1) & (p ^ q)) == p
  {
  }

  lemma MaskOff(p: bv64, q: bv64)
    ensures p ^ (!(0 - 1) & (p ^ q)) == p && q ^ (!(0 - 1) & (p ^ q)) == q
  {
  }

  /** Subtract the prime once if the limbs are worth at least the prime. */
  method ReduceOnce(t: array<i64>, m: array<i64>)
    requires m.Length == t.Length == 16 && m != t && Normal(t[..])
    modifies t, m
    ensures Normal(t[..])
    ensures var v := old(Sum(t[..], BASE, 16));
            Sum(t[..], BASE, 16) == if v >= Prime then v - Prime else v
  {
    var b := TrialSubtract(m, t);
    SubtractedSum(t[..], m[..]);
    SubtractedSign(t[..], m[..]);
    ConditionalSwap(t, m, 1 - b);
  }

  lemma TwoSubtractionsSuffice(v: int)
    requires 0 <= v < 2 * Prime + 38
    ensures var w := if v >= Prime then v - Prime else v;
            (if w >= Prime then w - Prime else w) == v % Prime
  {
    if v < Prime {
      ModUnique(v, 0, v, Prime);
    } else if v < 2 * Prime {
      ModUnique(v, 1, v - Prime, Prime);
    } else {
      ModUnique(v, 2, v - 2 * Prime, Prime);
    }
  }

  /** Limbs of any magnitude a carry pass accepts, brought to the unique number below the prime. */
  method Freeze(t: array<i64>)
    requires t.Length == 16 && Within(t[..], LAZY)
    modifies t
    ensures Normal(t[..]) && Sum(t[..], BASE, 16) == old(Elem(t[..]))
  {
    CarryTwice(t);
    ghost var s: seq<int> := t[..];
    CarryPass(t);
    CarriedKeepsElem(s, t[..]);
    CarriedThrice(s, t[..]);
    SumBound(t[..], BASE, 16);
    PowValues();
    TwoSubtractionsSuffice(Sum(t[..], BASE, 16));
    var m := new i64[16];
    ReduceOnce(t, m);
    ReduceOnce(t, m);
  }

  lemma PackedBytes(t: seq<int>, o: seq<byte>)
    requires Normal(t) && |o| == 32
    requires forall i :: 0 <= i < 16 ==> o[2 * i] == t[i] % 256 && o[2 * i + 1] == t[i] / 256
    ensures o == LittleEndian(Sum(t, BASE, 16), 32)
  {
    LimbsAreBytes(t, o, 16);
    EncodeNumber(o);
  }

  /** pack25519: the canonical bytes of the element that n stands for. */
  method Pack(o: array<byte>, n: array<i64>)
    requires o.Length == 32 && n.Length == 16 && Within(n[..], LAZY)
    modifies o
    ensures o[..] == LittleEndian(old(Elem(n[..])), 32)
  {
    var t := new i64[16];
    CopyLimbs(t, n);
    assert t[..] == n[..16] == n[..];
    Freeze(t);
    ghost var tv: seq<int> := t[..];
    for i := 0 to 16
      invariant t[..] == tv
      invariant forall k :: 0 <= k < i ==> o[2 * k] == t[k] % 256 && o[2 * k + 1] == t[k] / 256
    {
      assert 0 <= tv[i] < BASE;
      o[2 * i] := t[i] % 0x100;
      o[2 * i + 1] := t[i] / 0x100;
    }
    PackedBytes(tv, o[..]);
  }

  /** Equal bytes mean equal elements, so comparing packed bytes compares field elements. */
  lemma PackInjective(x: int, y: int)
    requires 0 <= x < Prime && 0 <= y < Prime
    requires LittleEndian(x, 32) == LittleEndian(y, 32)
    ensures x == y
  {
    NumberOfEncoding(x, 32);
    NumberOfEncoding(y, 32);
    PackRange();
    ModUnique(x, 0, x, Pow(256, 32));
    ModUnique(y, 0, y, Pow(256, 32));
  }

  lemma PackRange()
    ensures Pow(256, 32) == 2 * Prime + 38
  {
    PowValues();
    LimbPow(16);
  }

  /** Decoding an encoding gives the number back, modulo 256^n. */
  lemma {:induction false} NumberOfEncoding(v: int, n: nat)
    ensures Number(LittleEndian(v, n)) == v % Pow(256, n)
  {
    if n == 0 {
      ModUnique(v, v, 0, 1);
    } else {
      NumberOfEncoding(v, n - 1);
      var s, p := LittleEndian(v, n), Pow(256, n - 1);
      SumSame(s, LittleEndian(v, n - 1), 256, n - 1);
      DivMod(v, p);
    }
  }

  lemma DivMod(v: int, p: nat)
    requires p > 0
    ensures v % (256 * p) == v % p + (v / p % 256) * p
  {
    var q, r := v / p, v % p;
    assert v == p * q + r;
    var low, high := q % 256, q / 256;
    assert q == 256 * high + low;
    Distribute(256 * high, low, p);
    Associate(high, 256, p);
    assert p * q == q * p;
    Scale(low, 255, p);
    Scale(0, low, p);
    ModUnique(v, high, r + low * p, 256 * p);
  }

  /** A canonical encoding survives unpacking and packing. */
  lemma RoundTrip(n: seq<byte>)
    requires |n| == 32 && Number(n) < Prime
    ensures LittleEndian(DecodeU(n), 32) == n
  {
    SumBound(n, 256, 32);
    ModUnique(Number(n), 0, Number(n), TWO_TO_255);
    ModUnique(Number(n), 0, Number(n), Prime);
    EncodeNumber(n);
  }
}
