/** The field of integers modulo 2^255 - 19 (RFC 7748 section 4.1, RFC 8032 section 5.1). */
module Field {

  const Prime: nat := 0x7fff_ffff_ffff_ffff_ffff_ffff_ffff_ffff_ffff_ffff_ffff_ffff_ffff_ffff_ffff_ffed

  function Add(x: int, y: int): int { (x + y) % Prime }

  function Sub(x: int, y: int): int { (x - y) % Prime }

  function Mul(x: int, y: int): int { (x * y) % Prime }

  /** x to the power e, by its definition. */
  function Exp(x: int, e: nat): int
  {
    if e == 0 then 1 else Mul(x, Exp(x, e - 1))
  }

  lemma ModShift(x: int, k: int, m: nat)
    requires m > 0
    ensures (x + k * m) % m == x % m
  {
    var q, r := x / m, x % m;
    assert x == m * q + r;
    ModUnique(x + k * m, q + k, r, m);
  }

  lemma ModUnique(x: int, q: int, r: int, m: nat)
    requires m > 0 && 0 <= r < m && x == q * m + r
    ensures x % m == r && x / m == q
  {
    var d := x / m - q;
    assert x == m * (x / m) + x % m;
    assert d * m == r - x % m;
    NoMultipleBetween(d, m);
  }

  lemma NoMultipleBetween(d: int, m: int)
    requires -m < d * m < m
    ensures d == 0
  {
  }

  /** Arithmetic modulo m may reduce its operands first. */
  lemma ModAdd(x: int, y: int, m: nat)
    requires m > 0
    ensures (x % m + y % m) % m == (x + y) % m
  {
    ModShift(x % m + y % m, x / m + y / m, m);
    assert x == m * (x / m) + x % m && y == m * (y / m) + y % m;
    assert (x / m + y / m) * m == m * (x / m) + m * (y / m);
  }

  lemma ModSub(x: int, y: int, m: nat)
    requires m > 0
    ensures (x % m - y % m) % m == (x - y) % m
  {
    ModShift(x % m - y % m, x / m - y / m, m);
    assert x == m * (x / m) + x % m && y == m * (y / m) + y % m;
    assert (x / m - y / m) * m == m * (x / m) - m * (y / m);
  }

  lemma ModMul(x: int, y: int, m: nat)
    requires m > 0
    ensures ((x % m) * (y % m)) % m == (x * y) % m
  {
    var q, r := x / m, x % m;
    var s, t := y / m, y % m;
    assert x == m * q + r && y == m * s + t;
    MulExpand(m, q, r, s, t);
    ModShift(r * t, q * y + r * s, m);
  }

  lemma MulExpand(m: int, q: int, r: int, s: int, t: int)
    ensures (m * q + r) * (m * s + t) == r * t + (q * (m * s + t) + r * s) * m
  {
    var y := m * s + t;
    assert (m * q + r) * y == m * q * y + r * y;
    assert r * y == r * (m * s) + r * t;
    assert r * (m * s) == r * s * m;
    assert (q * y + r * s) * m == q * y * m + r * s * m;
    assert m * q * y == q * y * m;
  }

  lemma MulModLeft(x: int, y: int)
    ensures Mul(x % Prime, y) == Mul(x, y)
  {
    ModMulLeft(x, y, Prime);
  }

  lemma ModMulLeft(x: int, y: int, m: nat)
    requires m > 0
    ensures (x % m * y) % m == (x * y) % m
  {
    var q, r := x / m, x % m;
    assert x == m * q + r;
    assert m * q * y == q * y * m;
    assert x * y == r * y + q * y * m;
    ModShift(r * y, q * y, m);
  }

  lemma MulCommutes(x: int, y: int)
    ensures Mul(x, y) == Mul(y, x)
  {
    assert x * y == y * x;
  }

  lemma MulAssociates(x: int, y: int, z: int)
    ensures Mul(Mul(x, y), z) == Mul(x, Mul(y, z))
  {
    MulModLeft(x * y, z);
    MulModLeft(y * z, x);
    MulCommutes(x, Mul(y, z));
    assert (x * y) * z == (y * z) * x;
  }

  lemma {:induction false} ExpAdd(x: int, m: nat, n: nat)
    ensures Exp(x, m + n) == Mul(Exp(x, m), Exp(x, n))
    ensures 0 <= Exp(x, m) < Prime
  {
    if m == 0 {
      ExpRange(x, n);
    } else {
      ExpAdd(x, m - 1, n);
      MulAssociates(x, Exp(x, m - 1), Exp(x, n));
    }
  }

  lemma ExpRange(x: int, n: nat)
    ensures 0 <= Exp(x, n) < Prime
    ensures Mul(1, Exp(x, n)) == Exp(x, n)
  {
  }

  lemma ExpOne(x: int)
    requires 0 <= x < Prime
    ensures Exp(x, 1) == x
  {
    assert Exp(x, 1) == Mul(x, Exp(x, 0));
  }

  // ---- equal modulo Prime ----

  predicate Cong(x: int, y: int) { x % Prime == y % Prime }

  lemma CongMod(x: int)
    ensures Cong(x % Prime, x)
  {
    ModUnique(x % Prime, 0, x % Prime, Prime);
  }

  /** Arithmetic on representatives. */
  lemma CongAdd(a: int, x: int, b: int, y: int)
    requires Cong(a, x) && Cong(b, y)
    ensures Add(a, b) == (x + y) % Prime && Cong(Add(a, b), x + y)
  {
    ModAdd(a, b, Prime);
    ModAdd(x, y, Prime);
    CongMod(x + y);
  }

  lemma CongSub(a: int, x: int, b: int, y: int)
    requires Cong(a, x) && Cong(b, y)
    ensures Sub(a, b) == (x - y) % Prime && Cong(Sub(a, b), x - y)
  {
    ModSub(a, b, Prime);
    ModSub(x, y, Prime);
    CongMod(x - y);
  }

  lemma CongMul(a: int, x: int, b: int, y: int)
    requires Cong(a, x) && Cong(b, y)
    ensures Mul(a, b) == (x * y) % Prime && Cong(Mul(a, b), x * y)
  {
    ModMul(a, b, Prime);
    ModMul(x, y, Prime);
    CongMod(x * y);
  }

  /** The prime in the words of RFC 7748 section 4.1. */
  lemma PrimeIs()
    ensures Prime == 0x8000_0000_0000_0000_0000_0000_0000_0000_0000_0000_0000_0000_0000_0000_0000_0000 - 19
  {
  }
}
