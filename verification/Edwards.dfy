/**
 * Ed25519 points in extended coordinates (RFC 8032 section 5.1.4): the unified addition on
 * limbs, and the swap ladder that multiplies a point by a 256-bit scalar.
 */
module Edwards {
  import opened Radix
  import opened Field
  import opened Limbs
  import opened Encoding
  import opened Groups
  import opened X25519

  datatype Point = Point(x: int, y: int, z: int, t: int)

  /** The curve constant -121665/121666. */
  const D: int := 0x5203_6cee_2b6f_fe73_8cc7_4079_7779_e898_0070_0a4d_4141_d8ab_75eb_4dca_1359_78a3

  const Neutral: Point := Point(0, 1, 1, 0)

  /** RFC 8032 section 5.1.4, letter for letter. */
  function PointAdd(p: Point, q: Point): Point
  {
    var a := Mul(Sub(p.y, p.x), Sub(q.y, q.x));
    var b := Mul(Add(p.y, p.x), Add(q.y, q.x));
    var c := Mul(Mul(Mul(p.t, 2), D), q.t);
    var d := Mul(Mul(p.z, 2), q.z);
    var e, f, g, h := Sub(b, a), Sub(d, c), Add(d, c), Add(b, a);
    Point(Mul(e, f), Mul(g, h), Mul(f, g), Mul(e, h))
  }

  lemma CurveConstant()
    ensures Mul(D, 121666) == Sub(0, 121665)
  {
    ModUnique(D * 121666, 77954, Prime - 121665, Prime);
    ModUnique(-121665, -1, Prime - 121665, Prime);
  }

  // ---- the curve law ----

  lemma Halves(x1: int, y1: int, x2: int, y2: int)
    ensures (y1 + x1) * (y2 + x2) - (y1 - x1) * (y2 - x2) == 2 * (x1 * y2 + x2 * y1)
    ensures (y1 + x1) * (y2 + x2) + (y1 - x1) * (y2 - x2) == 2 * (y1 * y2 + x1 * x2)
  {
    assert (y1 + x1) * (y2 + x2) == y1 * y2 + y1 * x2 + x1 * y2 + x1 * x2;
    assert (y1 - x1) * (y2 - x2) == y1 * y2 - y1 * x2 - x1 * y2 + x1 * x2;
    assert y1 * x2 == x2 * y1;
  }

  /** The four factors of RFC 8032, in whole numbers. */
  lemma Factors(p: Point, q: Point, e: int, f: int, g: int, h: int)
    requires e == 2 * (p.x * q.y + q.x * p.y) && h == 2 * (p.y * q.y + p.x * q.x)
    requires f == 2 * (p.z * q.z - D * (p.t * q.t)) && g == 2 * (p.z * q.z + D * (p.t * q.t))
    ensures PointAdd(p, q) == Point(Mul(e, f), Mul(g, h), Mul(f, g), Mul(e, h))
  {
    var minus, plus := (p.y - p.x) * (q.y - q.x), (p.y + p.x) * (q.y + q.x);
    CongMod(p.y - p.x);
    CongMod(q.y - q.x);
    CongMod(p.y + p.x);
    CongMod(q.y + q.x);
    CongMul(Sub(p.y, p.x), p.y - p.x, Sub(q.y, q.x), q.y - q.x);
    CongMul(Add(p.y, p.x), p.y + p.x, Add(q.y, q.x), q.y + q.x);
    var a, b := Mul(Sub(p.y, p.x), Sub(q.y, q.x)), Mul(Add(p.y, p.x), Add(q.y, q.x));
    CongSub(b, plus, a, minus);
    CongAdd(b, plus, a, minus);
    Halves(p.x, p.y, q.x, q.y);
    Twice(p.z, q.z);
    TwiceTimesD(p.t, q.t);
    var c, d := Mul(Mul(Mul(p.t, 2), D), q.t), Mul(Mul(p.z, 2), q.z);
    var ct, dt := 2 * (D * (p.t * q.t)), 2 * (p.z * q.z);
    CongMod(ct);
    CongMod(dt);
    CongSub(d, dt, c, ct);
    CongAdd(d, dt, c, ct);
    CongMul(Sub(b, a), e, Sub(d, c), f);
    CongMul(Add(d, c), g, Add(b, a), h);
    CongMul(Sub(d, c), f, Add(d, c), g);
    CongMul(Sub(b, a), e, Add(b, a), h);
  }

  lemma Twice(z: int, u: int)
    ensures Mul(Mul(z, 2), u) == 2 * (z * u) % Prime
  {
    MulModLeft(z * 2, u);
    assert z * 2 * u == 2 * (z * u);
  }

  lemma TwiceTimesD(t: int, u: int)
    ensures Mul(Mul(Mul(t, 2), D), u) == 2 * (D * (t * u)) % Prime
  {
    MulModLeft(t * 2, D);
    MulModLeft(t * 2 * D, u);
    assert t * 2 * D * u == 2 * (D * (t * u));
  }

  /** X Y = Z T, the condition on extended coordinates. */
  predicate Extended(p: Point) { Cong(p.x * p.y, p.z * p.t) }

  lemma CrossExtended(e: int, f: int, g: int, h: int)
    ensures (e * f) * (g * h) == (f * g) * (e * h)
  {
    assert (e * f) * (g * h) == e * (f * (g * h)) && (f * g) * (e * h) == f * (g * (e * h));
    assert f * (g * (e * h)) == e * (f * (g * h));
  }

  lemma SumIsExtended(p: Point, q: Point)
    ensures Extended(PointAdd(p, q))
  {
    var r := PointAdd(p, q);
    var e, h := 2 * (p.x * q.y + q.x * p.y), 2 * (p.y * q.y + p.x * q.x);
    var f, g := 2 * (p.z * q.z - D * (p.t * q.t)), 2 * (p.z * q.z + D * (p.t * q.t));
    Factors(p, q, e, f, g, h);
    CongMod(e * f);
    CongMod(g * h);
    CongMod(f * g);
    CongMod(e * h);
    CongMul(r.x, e * f, r.y, g * h);
    CongMul(r.z, f * g, r.t, e * h);
    CrossExtended(e, f, g, h);
  }

  /** Z1 Z2 T1 T2 Z1 Z2 is X1 X2 Y1 Y2 on extended coordinates. */
  lemma ProductOfAll(p: Point, q: Point)
    requires Extended(p) && Extended(q)
    ensures Cong((p.z * q.z) * (p.t * q.t), (p.x * q.x) * (p.y * q.y))
  {
    CongMul(p.x * p.y, p.z * p.t, q.x * q.y, q.z * q.t);
    CrossFour(p.x, p.y, q.x, q.y);
    CrossFour(p.z, p.t, q.z, q.t);
  }

  lemma CrossFour(a: int, b: int, c: int, d: int)
    ensures (a * b) * (c * d) == (a * c) * (b * d)
  {
    assert (a * b) * (c * d) == a * (b * (c * d)) && (a * c) * (b * d) == a * (c * (b * d));
    assert b * (c * d) == c * (b * d);
  }

  /** From a == 4 e f and b == 4 f g: a z g == b z e. */
  lemma CrossedOut(a: int, b: int, e: int, f: int, g: int, z: int, w: int)
    requires Cong(a, 2 * e * (2 * f)) && Cong(b, 2 * f * (2 * g)) && Cong(w, z * g)
    ensures Cong(a * w, b * (z * e))
  {
    CongMul(a, 2 * e * (2 * f), w, z * g);
    CongMul(b, 2 * f * (2 * g), z * e, z * e);
    Tidy(e, f, g, z);
  }

  lemma Tidy(e: int, f: int, g: int, z: int)
    ensures 2 * e * (2 * f) * (z * g) == 2 * f * (2 * g) * (z * e)
  {
    assert 2 * e * (2 * f) == 4 * (e * f) && 2 * f * (2 * g) == 4 * (f * g);
    CrossFour(e, f, z, g);
    CrossFour(f, g, z, e);
    assert (e * f) * (z * g) == (e * z) * (f * g) && (f * g) * (z * e) == (f * z) * (g * e);
    assert (e * z) * (f * g) == (f * z) * (g * e) by {
      assert (e * z) * (f * g) == e * (z * (f * g)) && (f * z) * (g * e) == f * (z * (g * e));
      assert z * (f * g) == f * (z * g);
      assert e * (f * (z * g)) == f * (e * (z * g));
      assert e * (z * g) == z * (g * e);
    }
    assert 4 * (e * f) * (z * g) == 4 * ((e * f) * (z * g)) && 4 * (f * g) * (z * e) == 4 * ((f * g) * (z * e));
  }

  lemma OutOfBrackets(z: int, d: int, t: int)
    ensures z * z + d * (z * t) == z * (z + d * t) && z * z - d * (z * t) == z * (z - d * t)
  {
    assert z * (d * t) == d * (z * t);
  }

  /**
   * The affine law of section 5.1.4 of RFC 8032, multiplied out: with x = X / Z and y = Y / Z the
   * sum has x (1 + d x1 x2 y1 y2) = x1 y2 + x2 y1 and y (1 - d x1 x2 y1 y2) = y1 y2 + x1 x2.
   */
  lemma AffineSum(p: Point, q: Point)
    requires Extended(p) && Extended(q)
    ensures var r := PointAdd(p, q);
            var zz, dxy := p.z * q.z, D * ((p.x * q.x) * (p.y * q.y));
            && Extended(r)
            && Cong(r.x * (zz * zz + dxy), r.z * (zz * (p.x * q.y + q.x * p.y)))
            && Cong(r.y * (zz * zz - dxy), r.z * (zz * (p.y * q.y + p.x * q.x)))
  {
    var r := PointAdd(p, q);
    var zz, tt, xy := p.z * q.z, p.t * q.t, (p.x * q.x) * (p.y * q.y);
    var e, f, g, h := p.x * q.y + q.x * p.y, zz - D * tt, zz + D * tt, p.y * q.y + p.x * q.x;
    SumIsExtended(p, q);
    Factors(p, q, 2 * e, 2 * f, 2 * g, 2 * h);
    CongMod(2 * e * (2 * f));
    CongMod(2 * g * (2 * h));
    CongMod(2 * f * (2 * g));
    ProductOfAll(p, q);
    CongMul(D, D, zz * tt, xy);
    CongAdd(zz * zz, zz * zz, D * (zz * tt), D * xy);
    CongSub(zz * zz, zz * zz, D * (zz * tt), D * xy);
    OutOfBrackets(zz, D, tt);
    CrossedOut(r.x, r.z, e, f, g, zz, zz * zz + D * xy);
    TwiceTwice(h, g);
    TwiceTwice(g, f);
    CrossedOut(r.y, r.z, h, g, f, zz, zz * zz - D * xy);
  }

  lemma TwiceTwice(a: int, b: int)
    ensures 2 * a * (2 * b) == 2 * b * (2 * a)
  {
  }

  /** The neutral point is (0, 1): adding it gives the same affine point. */
  lemma AddNeutral(q: Point)
    ensures var r := PointAdd(Neutral, q); Cong(r.x * q.z, q.x * r.z) && Cong(r.y * q.z, q.y * r.z)
  {
    var r := PointAdd(Neutral, q);
    assert Neutral.x == 0 && Neutral.y == 1 && Neutral.z == 1 && Neutral.t == 0;
    Factors(Neutral, q, 2 * q.x, 2 * q.z, 2 * q.z, 2 * q.y);
    CongMod(2 * q.x * (2 * q.z));
    CongMod(2 * q.z * (2 * q.y));
    CongMod(2 * q.z * (2 * q.z));
    CongMul(r.x, 2 * q.x * (2 * q.z), q.z, q.z);
    CongMul(q.x, q.x, r.z, 2 * q.z * (2 * q.z));
    CongMul(r.y, 2 * q.z * (2 * q.y), q.z, q.z);
    CongMul(q.y, q.y, r.z, 2 * q.z * (2 * q.z));
    Moved(q.x, q.z);
    Moved(q.y, q.z);
  }

  lemma Moved(x: int, z: int)
    ensures 2 * x * (2 * z) * z == x * (2 * z * (2 * z)) && 2 * z * (2 * x) * z == x * (2 * z * (2 * z))
  {
    assert 2 * x * (2 * z) * z == 4 * (x * z * z) && x * (2 * z * (2 * z)) == 4 * (x * (z * z));
  }

  function D2Limb(i: int): i64
  {
    if i == 0 then 0xf159 else if i == 1 then 0x26b2 else if i == 2 then 0x9b94 else if i == 3 then 0xebd6
    else if i == 4 then 0xb156 else if i == 5 then 0x8283 else if i == 6 then 0x149a else if i == 7 then 0x00e0
    else if i == 8 then 0xd130 else if i == 9 then 0xeef3 else if i == 10 then 0x80f2 else if i == 11 then 0x198e
    else if i == 12 then 0xfce7 else if i == 13 then 0x56df else if i == 14 then 0xd9dc else 0x2406
  }

  /** The table D2 is twice the curve constant. */
  lemma D2Elem(s: seq<int>)
    requires |s| == 16 && forall i :: 0 <= i < 16 ==> s[i] == D2Limb(i)
    ensures Elem(s) == Mul(2, D)
  {
    D2Sum(s);
    ModUnique(2 * D, 1, 2 * D - Prime, Prime);
    ModUnique(Sum(s, BASE, 16), 0, 2 * D - Prime, Prime);
  }

  lemma D2Sum(s: seq<int>)
    requires |s| == 16 && forall i :: 0 <= i < 16 ==> s[i] == D2Limb(i)
    ensures Sum(s, BASE, 16) == 2 * D - Prime
  {
    FourDigits(s, BASE, 0);
    FourDigits(s, BASE, 4);
    assert Sum(s, BASE, 8) == 0x00e0_149a_8283_b156_ebd6_9b94_26b2_f159;
    FourDigits(s, BASE, 8);
    FourDigits(s, BASE, 12);
  }

  /** The code multiplies by constants in another order. */
  lemma ConstantsCommute(t1: int, t2: int, z1: int, z2: int)
    ensures Mul(Mul(t1, t2), Mul(2, D)) == Mul(Mul(Mul(t1, 2), D), t2)
    ensures Add(Mul(z1, z2), Mul(z1, z2)) == Mul(Mul(z1, 2), z2)
  {
    MulAssociates(t1, t2, Mul(2, D));
    MulCommutes(t2, Mul(2, D));
    MulAssociates(t1, Mul(2, D), t2);
    MulAssociates(t1, 2, D);
    MulModLeft(z1 * 2, z2);
    ModAdd(z1 * z2, z1 * z2, Prime);
    assert z1 * 2 * z2 == z1 * z2 + z1 * z2;
  }

  // ---- addition on limbs, in place ----

  /** A `gf p[4]`: the limb arrays of X, Y, Z and T. */
  datatype Coords = Coords(x: array<i64>, y: array<i64>, z: array<i64>, t: array<i64>)
  {
    ghost predicate Separate()
    {
      && x.Length == y.Length == z.Length == t.Length == 16
      && x != y && x != z && x != t && y != z && y != t && z != t
    }

    ghost predicate Apart(a: array<i64>)
    {
      a != x && a != y && a != z && a != t
    }

    ghost predicate AllReduced()
      reads x, y, z, t
    {
      Reduced(x[..]) && Reduced(y[..]) && Reduced(z[..]) && Reduced(t[..])
    }

    ghost function Value(): Point
      requires Separate()
      reads x, y, z, t
    {
      Point(Elem(x[..]), Elem(y[..]), Elem(z[..]), Elem(t[..]))
    }
  }

  /** (u + v) * (m + n) on fresh limbs. */
  method SumProduct(u: array<i64>, v: array<i64>, m: array<i64>, n: array<i64>) returns (o: array<i64>)
    requires u.Length == v.Length == m.Length == n.Length == 16
    requires Reduced(u[..]) && Reduced(v[..]) && Reduced(m[..]) && Reduced(n[..])
    ensures fresh(o) && o.Length == 16 && Reduced(o[..])
    ensures Elem(o[..]) == Mul(Add(Elem(u[..]), Elem(v[..])), Add(Elem(m[..]), Elem(n[..])))
  {
    o := new i64[16];
    var t := new i64[16];
    AddLimbs(o, u, v, NARROW, NARROW);
    AddLimbs(t, m, n, NARROW, NARROW);
    MulLimbs(o, o, t);
  }

  /** (u - v) * (m - n) on fresh limbs. */
  method DifferenceProduct(u: array<i64>, v: array<i64>, m: array<i64>, n: array<i64>) returns (o: array<i64>)
    requires u.Length == v.Length == m.Length == n.Length == 16
    requires Reduced(u[..]) && Reduced(v[..]) && Reduced(m[..]) && Reduced(n[..])
    ensures fresh(o) && o.Length == 16 && Reduced(o[..])
    ensures Elem(o[..]) == Mul(Sub(Elem(u[..]), Elem(v[..])), Sub(Elem(m[..]), Elem(n[..])))
  {
    o := new i64[16];
    var t := new i64[16];
    SubLimbs(o, u, v, NARROW, NARROW);
    SubLimbs(t, m, n, NARROW, NARROW);
    MulLimbs(o, o, t);
  }

  method TwiceD() returns (k: array<i64>)
    ensures fresh(k) && k.Length == 16 && Reduced(k[..]) && Elem(k[..]) == Mul(2, D)
  {
    k := new i64[16](i => D2Limb(i));
    D2Elem(k[..]);
  }

  /** 2 * d * t1 * t2. */
  method TProduct(t1: array<i64>, t2: array<i64>) returns (o: array<i64>)
    requires t1.Length == t2.Length == 16 && Reduced(t1[..]) && Reduced(t2[..])
    ensures fresh(o) && o.Length == 16 && Reduced(o[..])
    ensures Elem(o[..]) == Mul(Mul(Mul(Elem(t1[..]), 2), D), Elem(t2[..]))
  {
    o := new i64[16];
    var k := TwiceD();
    ConstantsCommute(Elem(t1[..]), Elem(t2[..]), 0, 0);
    MulLimbs(o, t1, t2);
    MulLimbs(o, o, k);
  }

  /** 2 * z1 * z2, left uncarried. */
  method ZProduct(z1: array<i64>, z2: array<i64>) returns (o: array<i64>)
    requires z1.Length == z2.Length == 16 && Reduced(z1[..]) && Reduced(z2[..])
    ensures fresh(o) && o.Length == 16 && Within(o[..], 2 * NARROW)
    ensures Elem(o[..]) == Mul(Mul(Elem(z1[..]), 2), Elem(z2[..]))
  {
    o := new i64[16];
    ConstantsCommute(0, 0, Elem(z1[..]), Elem(z2[..]));
    MulLimbs(o, z1, z2);
    AddLimbs(o, o, o, NARROW, NARROW);
  }

  /** u - v and u + v on fresh limbs. */
  method Butterfly(u: array<i64>, v: array<i64>, ghost m: int) returns (minus: array<i64>, plus: array<i64>)
    requires u.Length == v.Length == 16 && Within(u[..], m) && Reduced(v[..]) && m <= 2 * NARROW
    ensures fresh(minus) && fresh(plus) && minus != plus && minus.Length == plus.Length == 16
    ensures Within(minus[..], WIDE) && Within(plus[..], WIDE)
    ensures Elem(minus[..]) == Sub(Elem(u[..]), Elem(v[..]))
    ensures Elem(plus[..]) == Add(Elem(u[..]), Elem(v[..]))
  {
    minus := new i64[16];
    plus := new i64[16];
    SubLimbs(minus, u, v, m, NARROW);
    AddLimbs(plus, u, v, m, NARROW);
  }

  /** The four products that end an addition. */
  method Outputs(p: Coords, e: array<i64>, f: array<i64>, g: array<i64>, h: array<i64>)
    requires p.Separate() && e.Length == f.Length == g.Length == h.Length == 16
    requires p.Apart(e) && p.Apart(f) && p.Apart(g) && p.Apart(h)
    requires Within(e[..], WIDE) && Within(f[..], WIDE) && Within(g[..], WIDE) && Within(h[..], WIDE)
    modifies p.x, p.y, p.z, p.t
    ensures p.AllReduced()
    ensures var ev, fv, gv, hv := Elem(e[..]), Elem(f[..]), Elem(g[..]), Elem(h[..]);
            p.Value() == Point(Mul(ev, fv), Mul(hv, gv), Mul(gv, fv), Mul(ev, hv))
  {
    MulLimbs(p.x, e, f);
    MulLimbs(p.y, h, g);
    MulLimbs(p.z, g, f);
    MulLimbs(p.t, e, h);
  }

  /** p becomes p + q; doubling passes the same arrays twice. */
  method AddInto(p: Coords, q: Coords)
    requires p.Separate() && q.Separate() && p.AllReduced() && q.AllReduced()
    modifies p.x, p.y, p.z, p.t
    ensures p.AllReduced()
    ensures p.Value() == old(PointAdd(p.Value(), q.Value()))
  {
    var a := DifferenceProduct(p.y, p.x, q.y, q.x);
    var b := SumProduct(p.x, p.y, q.x, q.y);
    var c := TProduct(p.t, q.t);
    var d := ZProduct(p.z, q.z);
    AddCommutes(Elem(p.x[..]), Elem(p.y[..]));
    AddCommutes(Elem(q.x[..]), Elem(q.y[..]));
    var e, h := Butterfly(b, a, NARROW);
    var f, g := Butterfly(d, c, 2 * NARROW);
    Outputs(p, e, f, g, h);
    MulCommutes(Elem(h[..]), Elem(g[..]));
    MulCommutes(Elem(g[..]), Elem(f[..]));
  }

  lemma AddCommutes(x: int, y: int)
    ensures Add(x, y) == Add(y, x)
  {
  }

  // ---- the swap ladder ----

  datatype Pair = Pair(p: Point, q: Point)

  function SwapPair(b: int, s: Pair): Pair
  {
    if b == 1 then Pair(s.q, s.p) else s
  }

  /** swap, q += p, p += p, swap. */
  function LadderStep(s: Pair, b: int): Pair
  {
    var t := SwapPair(b, s);
    SwapPair(b, Pair(PointAdd(t.p, t.p), PointAdd(t.q, t.p)))
  }

  /** The pair after scalar bits 255 down to i. */
  function LadderRounds(q: Point, k: int, i: nat): Pair
    requires i <= 256
    decreases 256 - i, q, k
  {
    if i == 256 then Pair(Neutral, q) else LadderStep(LadderRounds(q, k, i + 1), Bit(k, i))
  }

  ghost predicate Disjoint(p: Coords, q: Coords)
  {
    p.Separate() && q.Separate() && p.Apart(q.x) && p.Apart(q.y) && p.Apart(q.z) && p.Apart(q.t)
  }

  ghost predicate BothReduced(p: Coords, q: Coords)
    reads p.x, p.y, p.z, p.t, q.x, q.y, q.z, q.t
  {
    p.AllReduced() && q.AllReduced()
  }

  method SwapPoints(p: Coords, q: Coords, b: int)
    requires Disjoint(p, q) && BothReduced(p, q) && 0 <= b <= 1
    modifies p.x, p.y, p.z, p.t, q.x, q.y, q.z, q.t
    ensures BothReduced(p, q)
    ensures Pair(p.Value(), q.Value()) == old(SwapPair(b, Pair(p.Value(), q.Value())))
  {
    ConditionalSwap(p.x, q.x, b);
    ConditionalSwap(p.y, q.y, b);
    ConditionalSwap(p.z, q.z, b);
    ConditionalSwap(p.t, q.t, b);
  }

  method LadderRound(p: Coords, q: Coords, b: int)
    requires Disjoint(p, q) && BothReduced(p, q) && 0 <= b <= 1
    modifies p.x, p.y, p.z, p.t, q.x, q.y, q.z, q.t
    ensures BothReduced(p, q)
    ensures Pair(p.Value(), q.Value()) == old(LadderStep(Pair(p.Value(), q.Value()), b))
  {
    SwapPoints(p, q, b);
    AddInto(q, p);
    AddInto(p, p);
    SwapPoints(p, q, b);
  }

  method SetSmall(o: array<i64>, v: i64)
    requires o.Length == 16 && 0 <= v <= 1
    modifies o
    ensures Reduced(o[..]) && Elem(o[..]) == v
  {
    for i := 0 to 16
      invariant forall k :: 0 <= k < i ==> o[k] == if k == 0 then v else 0
    {
      o[i] := if i == 0 then v else 0;
    }
    SmallElem(o[..], v);
  }

  method SetNeutral(p: Coords)
    requires p.Separate()
    modifies p.x, p.y, p.z, p.t
    ensures p.AllReduced() && p.Value() == Neutral
  {
    SetSmall(p.x, 0);
    SetSmall(p.y, 1);
    SetSmall(p.z, 1);
    SetSmall(p.t, 0);
  }

  /** scalarmult: p receives the ladder's first point; q is used up. */
  method ScalarMult(p: Coords, q: Coords, s: array<byte>)
    requires Disjoint(p, q) && q.AllReduced() && s.Length == 32
    modifies p.x, p.y, p.z, p.t, q.x, q.y, q.z, q.t
    ensures p.AllReduced() && p.Value() == old(LadderRounds(q.Value(), Number(s[..]), 0)).p
  {
    ghost var start, sv := q.Value(), s[..];
    SetNeutral(p);
    for i := 256 downto 0
      invariant BothReduced(p, q) && s[..] == sv
      invariant Pair(p.Value(), q.Value()) == LadderRounds(start, Number(sv), i)
    {
      var b: i64 := s[i / 8] / Pow(2, i % 8) % 2;
      BitOfByte(sv, i);
      LadderRound(p, q, b);
    }
  }

  // ---- what the ladder computes ----

  /** On the points of `curve`, PointAdd is the group operation as seen through `image`. */
  ghost predicate Represents<G(!new)>(curve: Point -> bool, image: Point -> G, op: (G, G) -> G, zero: G)
  {
    && curve(Neutral) && image(Neutral) == zero
    && forall p, q {:trigger PointAdd(p, q)} :: curve(p) && curve(q) ==>
         curve(PointAdd(p, q)) && image(PointAdd(p, q)) == op(image(p), image(q))
  }

  /** A round seen through the image. */
  lemma StepImage<G(!new)>(curve: Point -> bool, image: Point -> G, op: (G, G) -> G, zero: G, s: Pair, b: int)
    requires Represents(curve, image, op, zero)
    requires curve(s.p) && curve(s.q) && 0 <= b <= 1
    ensures var t, x, y := LadderStep(s, b), image(s.p), image(s.q);
            && curve(t.p) && curve(t.q)
            && image(t.p) == (if b == 1 then op(x, y) else op(x, x))
            && image(t.q) == (if b == 1 then op(y, y) else op(y, x))
  {
  }

  /** A round takes [n]Q and [n+1]Q to [2n+b]Q and [2n+b+1]Q. */
  lemma StepMultiple<G(!new)>(curve: Point -> bool, image: Point -> G, op: (G, G) -> G, zero: G,
                              q: Point, s: Pair, n: nat, b: int)
    requires AbelianGroup(op, zero) && Represents(curve, image, op, zero)
    requires curve(s.p) && curve(s.q) && 0 <= b <= 1
    requires image(s.p) == Multiple(op, zero, n, image(q)) && image(s.q) == Multiple(op, zero, n + 1, image(q))
    ensures var t := LadderStep(s, b);
            && curve(t.p) && curve(t.q)
            && image(t.p) == Multiple(op, zero, 2 * n + b, image(q))
            && image(t.q) == Multiple(op, zero, 2 * n + b + 1, image(q))
  {
    RoundSums(op, zero, n, b, image(q));
    StepImage(curve, image, op, zero, s, b);
  }

  /** At every round the two points are [k']Q and [k'+1]Q, so their difference is always Q. */
  lemma {:induction false} LadderInvariant<G(!new)>(curve: Point -> bool, image: Point -> G,
                                                    op: (G, G) -> G, zero: G, q: Point, k: nat, i: nat)
    requires AbelianGroup(op, zero) && Represents(curve, image, op, zero) && curve(q)
    requires i <= 256 && Prefix(k, 256) == 0
    ensures var s := LadderRounds(q, k, i);
            && curve(s.p) && curve(s.q)
            && image(s.p) == Multiple(op, zero, Prefix(k, i), image(q))
            && image(s.q) == Multiple(op, zero, Prefix(k, i) + 1, image(q))
    decreases 256 - i
  {
    if i == 256 {
      OneMultiple(op, zero, image(q));
    } else {
      LadderInvariant(curve, image, op, zero, q, k, i + 1);
      PrefixStep(k, i);
      StepMultiple(curve, image, op, zero, q, LadderRounds(q, k, i + 1), Prefix(k, i + 1), Bit(k, i));
    }
  }

  /** For every scalar and point, the ladder returns [s]Q. */
  lemma LadderComputesMultiple<G(!new)>(curve: Point -> bool, image: Point -> G,
                                        op: (G, G) -> G, zero: G, q: Point, s: seq<byte>)
    requires AbelianGroup(op, zero) && Represents(curve, image, op, zero) && curve(q) && |s| == 32
    ensures 0 <= Number(s)
    ensures image(LadderRounds(q, Number(s), 0).p) == Multiple(op, zero, Number(s), image(q))
  {
    SumBound(s, 256, 32);
    PowOctets(32);
    ModUnique(Number(s), 0, Number(s), Pow(2, 256));
    LadderInvariant(curve, image, op, zero, q, Number(s), 0);
    ModUnique(Number(s), Number(s), 0, Pow(2, 0));
  }
}
