/**
 * What the ladder of X25519 means: its step doubles and adds on the Montgomery curve
 * v^2 = u^3 + 486662 u^2 + u (RFC 7748 section 4.1), and its rounds multiply by the scalar.
 */
module Montgomery {
  import opened Radix
  import opened Field
  import opened Groups
  import opened Encoding
  import opened Inversion
  import opened X25519

  // ---- identities of integers ----

  lemma Squares(x: int, z: int)
    ensures (x + z) * (x + z) == x * x + 2 * (x * z) + z * z
    ensures (x - z) * (x - z) == x * x - 2 * (x * z) + z * z
  {
    assert (x + z) * (x + z) == x * (x + z) + z * (x + z);
    assert (x - z) * (x - z) == x * (x - z) - z * (x - z);
  }

  lemma DifferenceOfSquares(x: int, z: int)
    ensures (x + z) * (x - z) == x * x - z * z
  {
    assert (x + z) * (x - z) == x * (x - z) + z * (x - z);
  }

  lemma Regrouped(s: int, d: int)
    ensures (s * s) * (d * d) == (s * d) * (s * d)
  {
    assert (s * s) * (d * d) == s * (s * (d * d));
    assert s * (d * d) == (s * d) * d;
    assert s * ((s * d) * d) == (s * d) * (s * d);
  }

  lemma Doubled(v: int)
    ensures (2 * v) * (2 * v) == 4 * (v * v)
  {
  }

  /** The cross products add up to twice xw - zt and differ by twice xt - zw, up to sign. */
  lemma Crossed(x: int, z: int, w: int, t: int)
    ensures (w - t) * (x + z) + (w + t) * (x - z) == 2 * (x * w - z * t)
    ensures (w - t) * (x + z) - (w + t) * (x - z) == 2 * (z * w - x * t)
  {
    assert (w - t) * (x + z) == w * x + w * z - t * x - t * z by { Expand(w, -t, x, z); }
    assert (w + t) * (x - z) == w * x - w * z + t * x - t * z by { Expand(w, t, x, -z); }
    assert w * x == x * w && t * z == z * t && w * z == z * w && t * x == x * t;
  }

  lemma Expand(a: int, b: int, c: int, d: int)
    ensures (a + b) * (c + d) == a * c + a * d + b * c + b * d
  {
    assert (a + b) * (c + d) == a * (c + d) + b * (c + d);
  }

  lemma SameSquare(x: int, y: int)
    requires x == -y
    ensures x * x == y * y
  {
  }

  // ---- the step ----

  lemma FourTimes(v: int)
    ensures Mul(4, Mul(v, v)) == 4 * (v * v) % Prime && Cong(Mul(4, Mul(v, v)), 4 * (v * v))
  {
    CongMod(v * v);
    CongMul(4, 4, Mul(v, v), v * v);
  }

  /** The doubled point, (x : z) being projective. */
  lemma Doubling(u: int, p: Points)
    ensures var r, xx, xz, zz := Differential(u, p), Mul(p.x2, p.x2), Mul(p.x2, p.z2), Mul(p.z2, p.z2);
            && r.x2 == Mul(Sub(xx, zz), Sub(xx, zz))
            && r.z2 == Mul(Mul(4, xz), Add(Add(xx, Mul(486662, xz)), zz))
  {
    var x, z := p.x2, p.z2;
    var a, b := Add(x, z), Sub(x, z);
    var aa, bb := Mul(a, a), Mul(b, b);
    CongMod(x + z);
    CongMod(x - z);
    CongMul(a, x + z, a, x + z);
    CongMul(b, x - z, b, x - z);
    CongMul(aa, (x + z) * (x + z), bb, (x - z) * (x - z));
    Regrouped(x + z, x - z);
    DifferenceOfSquares(x, z);
    Squares(x, z);
    CongSub(aa, (x + z) * (x + z), bb, (x - z) * (x - z));
    var e := Sub(aa, bb);
    CongMul(121665, 121665, e, 4 * (x * z));
    CongAdd(aa, x * x + 2 * (x * z) + z * z, Mul(121665, e), 121665 * (4 * (x * z)));
    CongMul(e, 4 * (x * z), Add(aa, Mul(121665, e)), x * x + 486662 * (x * z) + z * z);
    var xx, xz, zz := Mul(x, x), Mul(x, z), Mul(z, z);
    CongMul(x, x, x, x);
    CongMul(x, x, z, z);
    CongMul(z, z, z, z);
    CongSub(xx, x * x, zz, z * z);
    CongMul(Sub(xx, zz), x * x - z * z, Sub(xx, zz), x * x - z * z);
    CongMul(4, 4, xz, x * z);
    CongMul(486662, 486662, xz, x * z);
    CongAdd(xx, x * x, Mul(486662, xz), 486662 * (x * z));
    CongAdd(Add(xx, Mul(486662, xz)), x * x + 486662 * (x * z), zz, z * z);
    CongMul(Mul(4, xz), 4 * (x * z), Add(Add(xx, Mul(486662, xz)), zz), x * x + 486662 * (x * z) + z * z);
  }

  /** The sum of two points whose difference has affine coordinate u. */
  lemma DifferentialAddition(u: int, p: Points, even: int, odd: int)
    requires even == p.x2 * p.x3 - p.z2 * p.z3 && odd == p.x2 * p.z3 - p.z2 * p.x3
    ensures Differential(u, p).x3 == Mul(4, Mul(even, even))
    ensures Differential(u, p).z3 == Mul(u, Mul(4, Mul(odd, odd)))
  {
    var x, z, w, t := p.x2, p.z2, p.x3, p.z3;
    var a, b, c, d := Add(x, z), Sub(x, z), Add(w, t), Sub(w, t);
    CongMod(x + z);
    CongMod(x - z);
    CongMod(w + t);
    CongMod(w - t);
    var da, cb := Mul(d, a), Mul(c, b);
    CongMul(d, w - t, a, x + z);
    CongMul(c, w + t, b, x - z);
    Crossed(x, z, w, t);
    CongAdd(da, (w - t) * (x + z), cb, (w + t) * (x - z));
    CongSub(da, (w - t) * (x + z), cb, (w + t) * (x - z));
    CongMul(Add(da, cb), 2 * even, Add(da, cb), 2 * even);
    CongMul(Sub(da, cb), -2 * odd, Sub(da, cb), -2 * odd);
    Doubled(even);
    Doubled(odd);
    SameSquare(-2 * odd, 2 * odd);
    CongMul(u, u, Mul(Sub(da, cb), Sub(da, cb)), 4 * (odd * odd));
    FourTimes(even);
    FourTimes(odd);
    CongMul(u, u, Mul(4, Mul(odd, odd)), 4 * (odd * odd));
  }

  // ---- the ladder ----

  /**
   * The doubling and differential addition of Montgomery curves at one pair: shows(x, z, g) says
   * that x / z is the coordinate of g, (1 : 0) standing for zero; g and h differ by b.
   */
  ghost predicate LawAt<G(!new)>(shows: (int, int, G) -> bool, u: int, op: (G, G) -> G, b: G, p: Points, g: G, h: G)
  {
    var xx, xz, zz := Mul(p.x2, p.x2), Mul(p.x2, p.z2), Mul(p.z2, p.z2);
    var even, odd := p.x2 * p.x3 - p.z2 * p.z3, p.x2 * p.z3 - p.z2 * p.x3;
    shows(p.x2, p.z2, g) && shows(p.x3, p.z3, h) && (h == op(b, g) || g == op(b, h)) ==>
      && shows(Mul(Sub(xx, zz), Sub(xx, zz)), Mul(Mul(4, xz), Add(Add(xx, Mul(486662, xz)), zz)), op(g, g))
      && shows(Mul(4, Mul(even, even)), Mul(u, Mul(4, Mul(odd, odd))), op(g, h))
  }

  ghost predicate MontgomeryLaw<G(!new)>(shows: (int, int, G) -> bool, u: int, op: (G, G) -> G, zero: G, b: G)
  {
    && shows(1, 0, zero) && shows(u, 1, b)
    && forall p, g, h :: LawAt(shows, u, op, b, p, g, h)
  }

  /** The points stand for [n]B and [n+1]B. */
  ghost predicate At<G(!new)>(shows: (int, int, G) -> bool, op: (G, G) -> G, zero: G, b: G, p: Points, n: nat)
  {
    shows(p.x2, p.z2, Multiple(op, zero, n, b)) && shows(p.x3, p.z3, Multiple(op, zero, n + 1, b))
  }

  lemma StepLaw<G(!new)>(shows: (int, int, G) -> bool, u: int, op: (G, G) -> G, zero: G, b: G, p: Points, g: G, h: G)
    requires MontgomeryLaw(shows, u, op, zero, b) && shows(p.x2, p.z2, g) && shows(p.x3, p.z3, h)
    requires h == op(b, g) || g == op(b, h)
    ensures var r := Differential(u, p); shows(r.x2, r.z2, op(g, g)) && shows(r.x3, r.z3, op(g, h))
  {
    assert LawAt(shows, u, op, b, p, g, h);
    Doubling(u, p);
    DifferentialAddition(u, p, p.x2 * p.x3 - p.z2 * p.z3, p.x2 * p.z3 - p.z2 * p.x3);
  }

  /** A round with bit r takes n to 2n + r. */
  lemma RoundMultiplies<G(!new)>(shows: (int, int, G) -> bool, u: int, op: (G, G) -> G, zero: G, b: G,
                                 p: Points, n: nat, r: int)
    requires AbelianGroup(op, zero) && MontgomeryLaw(shows, u, op, zero, b)
    requires At(shows, op, zero, b, p, n) && 0 <= r <= 1
    ensures At(shows, op, zero, b, CodeStep(u, p, r), 2 * n + r)
  {
    var g, h := Multiple(op, zero, n, b), Multiple(op, zero, n + 1, b);
    RoundSums(op, zero, n, r, b);
    if r == 1 {
      StepLaw(shows, u, op, zero, b, Swapped(1, p), h, g);
    } else {
      StepLaw(shows, u, op, zero, b, p, g, h);
      assert op(g, h) == op(h, g);
    }
  }

  /** After the rounds for bits 254 down to t the points are those of the bits read so far. */
  lemma {:induction false} LadderInvariant<G(!new)>(shows: (int, int, G) -> bool, u: int, op: (G, G) -> G, zero: G, b: G,
                                                    k: nat, t: nat)
    requires AbelianGroup(op, zero) && MontgomeryLaw(shows, u, op, zero, b)
    requires t <= 255 && Prefix(k, 255) == 0
    ensures At(shows, op, zero, b, Settled(u, k, t), Prefix(k, t)) && 0 <= Rounds(u, k, t).swap <= 1
    decreases 255 - t
  {
    if t == 255 {
      OneMultiple(op, zero, b);
    } else {
      var s := Rounds(u, k, t + 1);
      LadderInvariant(shows, u, op, zero, b, k, t + 1);
      PrefixStep(k, t);
      StepAgrees(u, s, Bit(k, t));
      RoundMultiplies(shows, u, op, zero, b, Settled(u, k, t + 1), Prefix(k, t + 1), Bit(k, t));
    }
  }

  /** For every scalar below 2^255 and every u, the ladder ends at the scalar multiple. */
  lemma LadderComputesMultiple<G(!new)>(shows: (int, int, G) -> bool, u: int, op: (G, G) -> G, zero: G, b: G, k: nat)
    requires AbelianGroup(op, zero) && MontgomeryLaw(shows, u, op, zero, b) && k < Prime + 19
    ensures var r := Settled(u, k, 0);
            && shows(r.x2, r.z2, Multiple(op, zero, k, b))
            && Ladder(k, u) == Mul(r.x2, Exp(r.z2, Prime - 2))
  {
    PowersOfTwo();
    ModUnique(k, 0, k, Pow(2, 255));
    ModUnique(k, k, 0, Pow(2, 0));
    LadderInvariant(shows, u, op, zero, b, k, 0);
  }

  /** The last power is a division where Fermat's little theorem holds, and gives 0 for 0. */
  lemma PowerDivides(x: int, z: int)
    requires 0 <= z < Prime
    ensures var q := Mul(x, Exp(z, Prime - 2));
            && (Exp(z, Prime - 1) == 1 ==> Mul(q, z) == x % Prime)
            && (z == 0 ==> q == 0)
  {
    var e := Exp(z, Prime - 2);
    assert Exp(z, Prime - 1) == Mul(z, e);
    MulCommutes(z, e);
    MulAssociates(x, e, z);
    if z == 0 {
      assert Exp(z, Prime - 2) == Mul(0, Exp(z, Prime - 3));
    }
  }

  // ---- scalars and coordinates ----

  /** Clamping bit by bit: bits 0, 1, 2 and 255 are cleared, bit 254 is set, the rest stay. */
  lemma ClampedBit(n: seq<byte>, t: nat)
    requires |n| == 32 && t < 256
    ensures Bit(Number(Clamp(n)), t)
         == if t in {0, 1, 2, 255} then 0 else if t == 254 then 1 else Bit(Number(n), t)
  {
    BitOfByte(Clamp(n), t);
    BitOfByte(n, t);
    ClampedByte(n[if t < 8 then 0 else 31], t % 8);
  }

  lemma ClampedByte(b: byte, i: nat)
    requires i < 8
    ensures (b - b % 8) / Pow(2, i) % 2 == if i < 3 then 0 else b / Pow(2, i) % 2
    ensures (b % 64 + 64) / Pow(2, i) % 2 == if i == 7 then 0 else if i == 6 then 1 else b / Pow(2, i) % 2
  {
    assert Pow(2, 0) == 1 && Pow(2, 1) == 2 && Pow(2, 2) == 4 && Pow(2, 3) == 8;
    assert Pow(2, 4) == 16 && Pow(2, 5) == 32 && Pow(2, 6) == 64 && Pow(2, 7) == 128;
    LowBits(b);
    MiddleBits(b);
    HighBits(b);
  }

  /** Adding 64 h moves each of the bits below the sixth by an even amount. */
  lemma Untouched(m: int, h: int)
    ensures (m + 64 * h) % 2 == m % 2
    ensures (m + 64 * h) / 2 % 2 == m / 2 % 2 && (m + 64 * h) / 4 % 2 == m / 4 % 2
    ensures (m + 64 * h) / 8 % 2 == m / 8 % 2 && (m + 64 * h) / 16 % 2 == m / 16 % 2
    ensures (m + 64 * h) / 32 % 2 == m / 32 % 2
  {
    EvenShift(m, 32 * h);
    ShiftedQuotient(m, 32 * h, 2);
    EvenShift(m / 2, 16 * h);
    ShiftedQuotient(m, 16 * h, 4);
    EvenShift(m / 4, 8 * h);
    ShiftedQuotient(m, 8 * h, 8);
    EvenShift(m / 8, 4 * h);
    ShiftedQuotient(m, 4 * h, 16);
    EvenShift(m / 16, 2 * h);
    ShiftedQuotient(m, 2 * h, 32);
    EvenShift(m / 32, h);
  }

  lemma EvenShift(x: int, k: int)
    ensures (x + 2 * k) % 2 == x % 2
  {
  }

  lemma ShiftedQuotient(m: int, k: int, d: nat)
    requires d > 0
    ensures (m + k * d) / d == m / d + k
  {
    assert m == d * (m / d) + m % d;
    assert d * (m / d) + k * d == (m / d + k) * d;
    ModUnique(m + k * d, m / d + k, m % d, d);
  }

  lemma LowBits(b: byte)
    ensures (b - b % 8) % 2 == 0 && (b - b % 8) / 2 % 2 == 0 && (b - b % 8) / 4 % 2 == 0
    ensures (b % 64 + 64) % 2 == b % 2 && (b % 64 + 64) / 2 % 2 == b / 2 % 2 && (b % 64 + 64) / 4 % 2 == b / 4 % 2
  {
    var q := b / 8;
    assert b - b % 8 == 8 * q;
    ShiftedQuotient(0, 4 * q, 2);
    ShiftedQuotient(0, 2 * q, 4);
    EvenShift(0, 4 * q);
    EvenShift(0, 2 * q);
    EvenShift(0, q);
    Untouched(b % 64, 1);
    Untouched(b % 64, b / 64);
  }

  lemma MiddleBits(b: byte)
    ensures (b - b % 8) / 8 == b / 8 && (b - b % 8) / 16 == b / 16 && (b - b % 8) / 32 == b / 32
    ensures (b % 64 + 64) / 8 % 2 == b / 8 % 2 && (b % 64 + 64) / 16 % 2 == b / 16 % 2 && (b % 64 + 64) / 32 % 2 == b / 32 % 2
  {
    var q := b / 8;
    assert b - b % 8 == 8 * q;
    ShiftedQuotient(0, q, 8);
    DivTwice(b, 8, 2);
    DivTwice(8 * q, 8, 2);
    DivTwice(b, 8, 4);
    DivTwice(8 * q, 8, 4);
    Untouched(b % 64, 1);
    Untouched(b % 64, b / 64);
  }

  lemma HighBits(b: byte)
    ensures (b - b % 8) / 64 == b / 64 && (b - b % 8) / 128 == b / 128
    ensures (b % 64 + 64) / 64 % 2 == 1 && (b % 64 + 64) / 128 % 2 == 0
  {
  }

  /** Bytes with the top bit clear are worth less than 2^255. */
  lemma SmallNumber(s: seq<byte>)
    requires |s| == 32 && s[31] < 128
    ensures 0 <= Number(s) < Prime + 19
  {
    var low, p := Sum(s, 256, 31), Pow(256, 31);
    SumBound(s, 256, 31);
    PowOctets(31);
    PowAdd(2, 248, 7);
    assert Pow(2, 7) == 128;
    PowersOfTwo();
    Scale(s[31], 127, p);
    Scale(0, s[31], p);
    assert 128 * p == p * 128;
  }

  /** The top bit of a coordinate plays no part. */
  lemma TopBitIgnored(s: seq<byte>)
    requires |s| == 32
    ensures DecodeU(s) == Number(s[31 := s[31] % 128]) % Prime
  {
    var m := s[31 := s[31] % 128];
    var p, q := Pow(256, 31), s[31] / 128;
    SumSame(s, m, 256, 31);
    SmallNumber(m);
    PowOctets(31);
    PowAdd(2, 248, 7);
    assert Pow(2, 7) == 128;
    PowersOfTwo();
    assert s[31] == 128 * q + m[31];
    Distribute(128 * q, m[31], p);
    assert 128 * q * p == q * (p * 128);
    ModUnique(Number(s), q, Number(m), Pow(2, 255));
  }

  /** The scalar that n stands for after clamping. */
  ghost predicate ScalarOf(n: seq<byte>, k: nat)
    requires |n| == 32
  {
    && k < Prime + 19
    && forall t: nat :: t < 256 ==>
         Bit(k, t) == if t in {0, 1, 2, 255} then 0 else if t == 254 then 1 else Bit(Number(n), t)
  }

  /**
   * Section 5 of RFC 7748 in terms of the curve: for all 32-byte n and p the result is x / z of
   * [k]B, where k is n clamped and B has the coordinate of p without its top bit.
   */
  lemma X25519Multiplies<G(!new)>(shows: (int, int, G) -> bool, op: (G, G) -> G, zero: G, b: G,
                                  n: seq<byte>, p: seq<byte>) returns (k: nat, x: int, z: int)
    requires |n| == |p| == 32 && AbelianGroup(op, zero)
    requires MontgomeryLaw(shows, Number(p[31 := p[31] % 128]) % Prime, op, zero, b)
    ensures ScalarOf(n, k) && shows(x, z, Multiple(op, zero, k, b))
    ensures Number(X25519.X25519(n, p)) == Mul(x, Exp(z, Prime - 2))
  {
    var u := DecodeU(p);
    TopBitIgnored(p);
    SmallNumber(Clamp(n));
    k := Number(Clamp(n));
    forall t: nat | t < 256
      ensures Bit(k, t) == if t in {0, 1, 2, 255} then 0 else if t == 254 then 1 else Bit(Number(n), t)
    {
      ClampedBit(n, t);
    }
    LadderComputesMultiple(shows, u, op, zero, b, k);
    x, z := Settled(u, k, 0).x2, Settled(u, k, 0).z2;
    NumberOfEncoding(Ladder(k, u), 32);
    PackRange();
    ModUnique(Ladder(k, u), 0, Ladder(k, u), Pow(256, 32));
  }
}
