/** X25519: dropbear_curve25519_scalarmult against the Montgomery ladder of RFC 7748 section 5. */
module X25519 {
  import opened Radix
  import opened Field
  import opened Limbs
  import opened Encoding
  import opened Inversion

  // ---- RFC 7748 section 5, on field elements ----

  const A24: int := 121665

  datatype Points = Points(x2: int, z2: int, x3: int, z3: int)

  function Swapped(bit: int, p: Points): Points
  {
    if bit == 1 then Points(p.x3, p.z3, p.x2, p.z2) else p
  }

  /** The body of the loop between the two conditional swaps. */
  function Differential(x1: int, p: Points): Points
  {
    var a, b := Add(p.x2, p.z2), Sub(p.x2, p.z2);
    var aa, bb := Mul(a, a), Mul(b, b);
    var e := Sub(aa, bb);
    var c, d := Add(p.x3, p.z3), Sub(p.x3, p.z3);
    var da, cb := Mul(d, a), Mul(c, b);
    Points(
      Mul(aa, bb),
      Mul(e, Add(aa, Mul(A24, e))),
      Mul(Add(da, cb), Add(da, cb)),
      Mul(x1, Mul(Sub(da, cb), Sub(da, cb))))
  }

  function Bit(k: int, t: nat): int { k / Pow(2, t) % 2 }

  /** The RFC defers each swap back to the next round: `swap` remembers the last scalar bit. */
  datatype State = State(points: Points, swap: int)

  function Start(u: int): State { State(Points(1, 0, u, 1), 0) }

  function Step(u: int, s: State, kt: int): State
  {
    State(Differential(u, Swapped((s.swap + kt) % 2, s.points)), kt)
  }

  /** The state after rounds t = 254 down to `t`. */
  function Rounds(u: int, k: int, t: nat): State
    requires t <= 255
    decreases 255 - t, u, k
  {
    if t == 255 then Start(u) else Step(u, Rounds(u, k, t + 1), Bit(k, t))
  }

  function Ladder(k: int, u: int): int
  {
    var s := Rounds(u, k, 0);
    var p := Swapped(s.swap, s.points);
    Mul(p.x2, Exp(p.z2, Prime - 2))
  }

  /** decodeScalar25519: clear the low three bits and bit 255, set bit 254. */
  function Clamp(n: seq<byte>): (z: seq<byte>)
    requires |n| == 32
    ensures |z| == 32
  {
    n[0 := n[0] - n[0] % 8][31 := n[31] % 64 + 64]
  }

  ghost function X25519(n: seq<byte>, p: seq<byte>): seq<byte>
    requires |n| == |p| == 32
  {
    LittleEndian(Ladder(Number(Clamp(n)), DecodeU(p)), 32)
  }

  /** The masks the C code clamps with, on the bytes themselves. */
  lemma ClampMasks(b: bv8)
    ensures b & 248 == b - b % 8
    ensures (b & 127) | 64 == b % 64 + 64
  {
  }

  // ---- the order in which the code does it ----

  /** The code swaps before and after every round instead. */
  function CodeStep(u: int, p: Points, r: int): Points
  {
    Swapped(r, Differential(u, Swapped(r, p)))
  }

  lemma SwapTwice(p: Points, s: int, r: int)
    requires 0 <= s <= 1 && 0 <= r <= 1
    ensures Swapped(r, Swapped(s, p)) == Swapped((s + r) % 2, p)
  {
  }

  /** Swapping eagerly gives the RFC's points once its pending swap is done. */
  lemma StepAgrees(u: int, s: State, kt: int)
    requires 0 <= s.swap <= 1 && 0 <= kt <= 1
    ensures CodeStep(u, Swapped(s.swap, s.points), kt)
         == Swapped(Step(u, s, kt).swap, Step(u, s, kt).points)
  {
    SwapTwice(s.points, s.swap, kt);
  }

  /** Reading a scalar bit out of its byte. */
  lemma BitOfByte(z: seq<byte>, i: nat)
    requires i < 8 * |z|
    ensures Bit(Number(z), i) == z[i / 8] / Pow(2, i % 8) % 2
  {
    var j, m := i / 8, i % 8;
    SumSplit(z, 256, j, |z| - j);
    SumSplit(z[j..], 256, 1, |z| - j - 1);
    assert Sum(z[j..], 256, 1) == z[j] + Sum(z[j..], 256, 0);
    var high := Sum(z[j..][1..], 256, |z| - j - 1);
    SumBound(z, 256, j);
    var top := z[j] + high * 256;
    ModUnique(Number(z), top, Sum(z, 256, j), Pow(256, j));
    PowOctets(j);
    PowAdd(2, 8 * j, m);
    DivTwice(Number(z), Pow(2, 8 * j), Pow(2, m));
    TopBit(z[j], high, m);
  }

  lemma DivTwice(v: int, p: nat, q: nat)
    requires p > 0 && q > 0
    ensures v / (p * q) == v / p / q
  {
    var a, r := v / p, v % p;
    var b, t := a / q, a % q;
    assert v == p * a + r && a == q * b + t;
    assert p * a == p * (q * b) + p * t;
    assert p * (q * b) == b * (p * q);
    Scale(t, q - 1, p);
    Scale(0, t, p);
    assert t * p == p * t && (q - 1) * p == p * q - p;
    ModUnique(v, b, p * t + r, p * q);
  }

  /** The bits consumed so far. */
  function Prefix(k: nat, i: nat): nat { k / Pow(2, i) }

  lemma PrefixStep(k: nat, i: nat)
    ensures Prefix(k, i) == 2 * Prefix(k, i + 1) + Bit(k, i)
    ensures 0 <= Bit(k, i) <= 1
  {
    assert Pow(2, i + 1) == 2 * Pow(2, i);
    DivTwice(k, Pow(2, i), 2);
    assert Pow(2, i) * 2 == Pow(2, i + 1);
  }

  lemma TopBit(x: int, high: int, m: nat)
    requires m < 8
    ensures (x + high * 256) / Pow(2, m) % 2 == x / Pow(2, m) % 2
  {
    PowAdd(2, m, 7 - m);
    assert Pow(2, 7) == 128;
    DropMultiple(x, high, Pow(2, m), Pow(2, 7 - m));
  }

  lemma DropMultiple(x: int, high: int, p: nat, q: nat)
    requires p > 0 && p * q == 128
    ensures (x + high * 256) / p % 2 == x / p % 2
  {
    var d, r := x / p, x % p;
    assert x == p * d + r;
    var up := (high * q) * 2;
    Associate(high * 2, q, p);
    assert (high * 2) * q == up;
    assert q * p == 128;
    assert up * p == high * 256;
    Distribute(d, up, p);
    assert p * d == d * p;
    ModUnique(x + high * 256, d + up, r, p);
    ModShift(d, high * q, 2);
  }

  // ---- the ladder on limbs, in place ----

  /** The code's a, c, b, d hold the RFC's x2, z2, x3, z3. */
  ghost function PointsOf(a: array<i64>, c: array<i64>, b: array<i64>, d: array<i64>): Points
    requires a.Length == b.Length == c.Length == d.Length == 16
    reads a, b, c, d
  {
    Points(Elem(a[..]), Elem(c[..]), Elem(b[..]), Elem(d[..]))
  }

  ghost predicate AllReduced(a: array<i64>, b: array<i64>, c: array<i64>, d: array<i64>)
    reads a, b, c, d
  {
    Reduced(a[..]) && Reduced(b[..]) && Reduced(c[..]) && Reduced(d[..])
  }

  /** Six separate arrays of 16 limbs. */
  ghost predicate Locals(a: array<i64>, b: array<i64>, c: array<i64>, d: array<i64>, e: array<i64>, f: array<i64>)
  {
    && a.Length == b.Length == c.Length == d.Length == e.Length == f.Length == 16
    && a != b && a != c && a != d && a != e && a != f
    && b != c && b != d && b != e && b != f
    && c != d && c != e && c != f
    && d != e && d != f && e != f
  }

  const NARROW: int := 0x1_0025

  /** The first half of a round: sums, differences, squares and the two cross products. */
  method CrossProducts(a: array<i64>, b: array<i64>, c: array<i64>, d: array<i64>,
                       e: array<i64>, f: array<i64>)
    requires Locals(a, b, c, d, e, f) && AllReduced(a, b, c, d)
    modifies a, b, c, d, e, f
    ensures AllReduced(a, c, d, f)
    ensures var x2, z2 := old(Elem(a[..])), old(Elem(c[..]));
            var x3, z3 := old(Elem(b[..])), old(Elem(d[..]));
            && Elem(d[..]) == Mul(Add(x2, z2), Add(x2, z2))
            && Elem(f[..]) == Mul(Sub(x2, z2), Sub(x2, z2))
            && Elem(a[..]) == Mul(Add(x3, z3), Sub(x2, z2))
            && Elem(c[..]) == Mul(Sub(x3, z3), Add(x2, z2))
  {
    AddLimbs(e, a, c, NARROW, NARROW);
    SubLimbs(a, a, c, NARROW, NARROW);
    AddLimbs(c, b, d, NARROW, NARROW);
    SubLimbs(b, b, d, NARROW, NARROW);
    SquareLimbs(d, e);
    SquareLimbs(f, a);
    MulLimbs(a, c, a);
    MulLimbs(c, b, e);
  }

  /** The second half: the doubled point into a, c and the sum into b, d. */
  method Recombine(a: array<i64>, b: array<i64>, c: array<i64>, d: array<i64>,
                   e: array<i64>, f: array<i64>, x: array<i64>, k: array<i64>)
    requires Locals(a, b, c, d, e, f) && AllReduced(a, c, d, f)
    requires x.Length == k.Length == 16 && Within(x[..], WIDE) && Within(k[..], WIDE)
    requires x !in {a, b, c, d, e, f} && k !in {a, b, c, d, e, f}
    modifies a, b, c, d, e, f
    ensures AllReduced(a, b, c, d)
    ensures var aa, bb := old(Elem(d[..])), old(Elem(f[..]));
            var cb, da := old(Elem(a[..])), old(Elem(c[..]));
            && Elem(a[..]) == Mul(aa, bb)
            && Elem(c[..]) == Mul(Sub(aa, bb), Add(Mul(Sub(aa, bb), Elem(k[..])), aa))
            && Elem(b[..]) == Mul(Add(cb, da), Add(cb, da))
            && Elem(d[..]) == Mul(Mul(Sub(cb, da), Sub(cb, da)), Elem(x[..]))
  {
    AddLimbs(e, a, c, NARROW, NARROW);
    SubLimbs(a, a, c, NARROW, NARROW);
    SquareLimbs(b, a);
    SubLimbs(c, d, f, NARROW, NARROW);
    MulLimbs(a, c, k);
    AddLimbs(a, a, d, NARROW, NARROW);
    MulLimbs(c, c, a);
    MulLimbs(a, d, f);
    MulLimbs(d, b, x);
    SquareLimbs(b, e);
  }

  lemma SquareOfDifference(x: int, y: int)
    ensures Mul(Sub(x, y), Sub(x, y)) == Mul(Sub(y, x), Sub(y, x))
  {
    ModMul(x - y, x - y, Prime);
    ModMul(y - x, y - x, Prime);
    assert (x - y) * (x - y) == (y - x) * (y - x);
  }

  /** The code's products are the RFC's with the factors in another order. */
  lemma DifferentialAgrees(u: int, p: Points)
    ensures var xz, zx := Add(p.x2, p.z2), Sub(p.x2, p.z2);
            var aa, bb := Mul(xz, xz), Mul(zx, zx);
            var cb, da := Mul(Add(p.x3, p.z3), zx), Mul(Sub(p.x3, p.z3), xz);
            Differential(u, p) == Points(
              Mul(aa, bb),
              Mul(Sub(aa, bb), Add(Mul(Sub(aa, bb), A24), aa)),
              Mul(Add(cb, da), Add(cb, da)),
              Mul(Mul(Sub(cb, da), Sub(cb, da)), u))
  {
    var xz, zx := Add(p.x2, p.z2), Sub(p.x2, p.z2);
    var aa, bb := Mul(xz, xz), Mul(zx, zx);
    var cb, da := Mul(Add(p.x3, p.z3), zx), Mul(Sub(p.x3, p.z3), xz);
    MulCommutes(A24, Sub(aa, bb));
    SquareOfDifference(cb, da);
    MulCommutes(u, Mul(Sub(da, cb), Sub(da, cb)));
  }

  /** One round of the loop, swaps included. */
  method Round(a: array<i64>, b: array<i64>, c: array<i64>, d: array<i64>,
               e: array<i64>, f: array<i64>, x: array<i64>, k: array<i64>, r: int)
    requires Locals(a, b, c, d, e, f) && AllReduced(a, b, c, d)
    requires x.Length == k.Length == 16 && Within(x[..], WIDE) && Within(k[..], WIDE)
    requires x !in {a, b, c, d, e, f} && k !in {a, b, c, d, e, f}
    requires Elem(k[..]) == A24 && 0 <= r <= 1
    modifies a, b, c, d, e, f
    ensures AllReduced(a, b, c, d)
    ensures PointsOf(a, c, b, d) == CodeStep(Elem(x[..]), old(PointsOf(a, c, b, d)), r)
  {
    ConditionalSwap(a, b, r);
    ConditionalSwap(c, d, r);
    ghost var p := PointsOf(a, c, b, d);
    CrossProducts(a, b, c, d, e, f);
    Recombine(a, b, c, d, e, f, x, k);
    DifferentialAgrees(Elem(x[..]), p);
    ConditionalSwap(a, b, r);
    ConditionalSwap(c, d, r);
  }

  lemma SmallElem(s: seq<int>, v: int)
    requires |s| == 16 && s[0] + BASE * s[1] == v && 0 <= v < Prime
    requires forall i :: 2 <= i < 16 ==> s[i] == 0
    ensures Elem(s) == v
  {
    SumSplit(s, BASE, 2, 14);
    ZeroSum(s[2..], BASE, 14);
    assert Sum(s, BASE, 0) == 0 && Pow(BASE, 0) == 1;
    assert Sum(s, BASE, 1) == s[0] && Pow(BASE, 1) == BASE;
    assert Sum(s, BASE, 2) == s[0] + s[1] * BASE;
    ModUnique(v, 0, v, Prime);
  }

  /** Fill o with the limbs of a small constant. */
  method Constant(low: i64, next: i64) returns (o: array<i64>)
    requires 0 <= low < BASE && 0 <= next < BASE
    ensures fresh(o) && o.Length == 16 && Reduced(o[..])
    ensures Elem(o[..]) == low + BASE * next
  {
    o := new i64[16](_ => 0);
    o[0], o[1] := low, next;
    SmallElem(o[..], low + BASE * next);
  }

  method DecodeScalar(n: array<byte>) returns (z: array<byte>)
    requires n.Length == 32
    ensures fresh(z) && z.Length == 32 && z[..] == Clamp(n[..])
  {
    z := new byte[32];
    for i := 0 to 31
      invariant forall j :: 0 <= j < i ==> z[j] == n[j]
    {
      z[i] := n[i];
    }
    z[31] := n[31] % 64 + 64;
    z[0] := z[0] - z[0] % 8;
  }

  /** The points the RFC has after rounds 254 down to t, its pending swap done. */
  ghost function Settled(u: int, k: int, t: nat): Points
    requires t <= 255
  {
    Swapped(Rounds(u, k, t).swap, Rounds(u, k, t).points)
  }

  lemma RoundSettles(u: int, z: seq<byte>, i: nat)
    requires |z| == 32 && i < 255
    ensures 0 <= z[i / 8] / Pow(2, i % 8) % 2 <= 1
    ensures CodeStep(u, Settled(u, Number(z), i + 1), z[i / 8] / Pow(2, i % 8) % 2) == Settled(u, Number(z), i)
  {
    BitOfByte(z, i);
    StepAgrees(u, Rounds(u, Number(z), i + 1), z[i / 8] / Pow(2, i % 8) % 2);
  }

  /** All 255 rounds, from the limbs of the start points. */
  method MontgomeryLadder(a: array<i64>, b: array<i64>, c: array<i64>, d: array<i64>,
                          x: array<i64>, z: array<byte>)
    requires a.Length == b.Length == c.Length == d.Length == x.Length == 16 && z.Length == 32
    requires a != b && a != c && a != d && b != c && b != d && c != d && x !in {a, b, c, d}
    requires AllReduced(a, b, c, d) && Within(x[..], WIDE)
    requires PointsOf(a, c, b, d) == Start(Elem(x[..])).points
    modifies a, b, c, d
    ensures AllReduced(a, b, c, d)
    ensures PointsOf(a, c, b, d) == old(Settled(Elem(x[..]), Number(z[..]), 0))
  {
    var k := Constant(0xDB41, 1);
    var e := new i64[16];
    var f := new i64[16];
    ghost var u, zv, xv := Elem(x[..]), z[..], x[..];
    assert Locals(a, b, c, d, e, f);
    for i := 255 downto 0
      invariant AllReduced(a, b, c, d)
      invariant z[..] == zv && x[..] == xv && Elem(k[..]) == A24 && Reduced(k[..])
      invariant PointsOf(a, c, b, d) == Settled(u, Number(zv), i)
    {
      RoundSettles(u, zv, i);
      var r: i64 := z[i / 8] / Pow(2, i % 8) % 2;
      Round(a, b, c, d, e, f, x, k, r);
    }
  }

  /** Leave projective coordinates and encode. */
  method Affine(q: array<byte>, a: array<i64>, c: array<i64>)
    requires q.Length == 32 && a.Length == c.Length == 16 && a != c
    requires Reduced(a[..]) && Reduced(c[..])
    modifies q, a, c
    ensures q[..] == LittleEndian(Mul(old(Elem(a[..])), Exp(old(Elem(c[..])), Prime - 2)), 32)
  {
    ReducedIsNarrow(c[..]);
    ReducedIsNarrow(a[..]);
    Invert(c, c);
    ReducedIsNarrow(c[..]);
    MulLimbs(a, a, c);
    ReducedIsNarrow(a[..]);
    Pack(q, a);
  }

  /** dropbear_curve25519_scalarmult: q receives X25519(n, p). */
  method ScalarMult(q: array<byte>, n: array<byte>, p: array<byte>)
    requires q.Length == n.Length == p.Length == 32
    modifies q
    ensures q[..] == old(X25519(n[..], p[..]))
  {
    var z := DecodeScalar(n);
    var x := new i64[16];
    Unpack(x, p);
    var a := Constant(1, 0);
    var c := Constant(0, 0);
    var d := Constant(1, 0);
    var b := new i64[16];
    CopyLimbs(b, x);
    assert b[..] == x[..16] == x[..];
    MontgomeryLadder(a, b, c, d, x, z);
    Affine(q, a, c);
  }
}
