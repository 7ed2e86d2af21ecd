/** Positional values of limb and byte sequences, and the carry chains that keep them. */
module Radix {

  /** A C `long long`: every value stored in a variable of this type is proved to fit. */
  type i64 = x: int | -0x8000_0000_0000_0000 <= x < 0x8000_0000_0000_0000

  /** A C `unsigned char`. */
  type byte = x: int | 0 <= x < 256

  /** A C `unsigned int`. */
  type u32 = x: int | 0 <= x < 0x1_0000_0000

  function Min(a: int, b: int): int { if a < b then a else b }

  function Max(a: int, b: int): int { if a < b then b else a }

  function Pow(b: nat, n: nat): (r: nat)
    ensures b > 0 ==> r > 0
  {
    if n == 0 then 1 else b * Pow(b, n - 1)
  }

  /** The number whose n low digits in radix b are s[0], s[1], ..., of any sign and size. */
  function Sum(s: seq<int>, b: nat, n: nat): int
    requires n <= |s|
  {
    if n == 0 then 0 else Sum(s, b, n - 1) + s[n - 1] * Pow(b, n - 1)
  }

  /** The carry into digit i when s is normalised from the bottom with flooring division. */
  function Carry(s: seq<int>, b: nat, i: nat): int
    requires i <= |s| && b > 0
  {
    if i == 0 then 0 else (s[i - 1] + Carry(s, b, i - 1)) / b
  }

  function Digit(s: seq<int>, b: nat, i: nat): (r: int)
    requires i < |s| && b > 0
    ensures 0 <= r < b
  {
    (s[i] + Carry(s, b, i)) % b
  }

  lemma Distribute(x: int, y: int, z: int)
    ensures (x + y) * z == x * z + y * z
  {
  }

  lemma Associate(x: int, y: int, z: int)
    ensures (x * y) * z == x * (y * z)
  {
  }

  lemma {:induction false} PowAdd(b: nat, m: nat, n: nat)
    ensures Pow(b, m + n) == Pow(b, m) * Pow(b, n)
  {
    if m > 0 {
      PowAdd(b, m - 1, n);
      Associate(b, Pow(b, m - 1), Pow(b, n));
    }
  }

  lemma {:induction false} PowOctets(k: nat)
    ensures Pow(2, 8 * k) == Pow(256, k)
    decreases k
  {
    if k > 0 {
      PowOctets(k - 1);
      PowAdd(2, 8, 8 * (k - 1));
      assert Pow(2, 1) == 2 && Pow(2, 2) == 4 && Pow(2, 4) == 16 && Pow(2, 8) == 256;
    }
  }

  lemma {:induction false} SumSame(s: seq<int>, t: seq<int>, b: nat, n: nat)
    requires n <= |s| && n <= |t|
    requires forall i :: 0 <= i < n ==> s[i] == t[i]
    ensures Sum(s, b, n) == Sum(t, b, n)
  {
    if n > 0 {
      SumSame(s, t, b, n - 1);
    }
  }

  /** Adding d to digit k adds d * b^k to the number. */
  lemma {:induction false} SumUpdate(s: seq<int>, t: seq<int>, b: nat, n: nat, k: nat, d: int)
    requires k < n <= |s| && n <= |t|
    requires t[k] == s[k] + d
    requires forall i :: 0 <= i < n && i != k ==> t[i] == s[i]
    ensures Sum(t, b, n) == Sum(s, b, n) + d * Pow(b, k)
  {
    if k == n - 1 {
      SumSame(s, t, b, k);
      assert (s[k] + d) * Pow(b, k) == s[k] * Pow(b, k) + d * Pow(b, k);
    } else {
      SumUpdate(s, t, b, n - 1, k, d);
    }
  }

  lemma {:induction false} ZeroSum(s: seq<int>, b: nat, n: nat)
    requires n <= |s| && forall i :: 0 <= i < n ==> s[i] == 0
    ensures Sum(s, b, n) == 0
  {
    if n > 0 {
      ZeroSum(s, b, n - 1);
    }
  }

  /** Leading zeros are worth nothing. */
  lemma {:induction false} SumZeroTail(s: seq<int>, b: nat, m: nat, n: nat)
    requires m <= n <= |s| && forall i :: m <= i < n ==> s[i] == 0
    ensures Sum(s, b, n) == Sum(s, b, m)
  {
    if n > m {
      SumZeroTail(s, b, m, n - 1);
    }
  }

  lemma ProductTerm(x: int, y: int, p: int, q: int, rest: int)
    ensures x * p * (rest + y * q) == x * p * rest + x * y * (p * q)
  {
    Distribute(rest, y * q, x * p);
    Associate(x, y, p * q);
    Associate(y, p, q);
    Associate(x, p, y * q);
    assert y * (p * q) == p * (y * q);
  }

  /** One inner step of schoolbook multiplication; `done` is what the earlier rows are worth. */
  lemma ProductStep(t: seq<int>, u: seq<int>, a: seq<int>, b: seq<int>, base: nat, n: nat, i: nat, j: nat, done: int)
    requires i < |a| && j < |b| && i + j < n <= |t|
    requires Sum(t, base, n) == done + a[i] * Pow(base, i) * Sum(b, base, j)
    requires u == t[i + j := t[i + j] + a[i] * b[j]]
    ensures Sum(u, base, n) == done + a[i] * Pow(base, i) * Sum(b, base, j + 1)
  {
    SumUpdate(t, u, base, n, i + j, a[i] * b[j]);
    PowAdd(base, i, j);
    ProductTerm(a[i], b[j], Pow(base, i), Pow(base, j), Sum(b, base, j));
  }

  /** A finished row extends the left factor by one digit. */
  lemma RowDone(a: seq<int>, base: nat, i: nat, b: int)
    requires i < |a|
    ensures Sum(a, base, i) * b + a[i] * Pow(base, i) * b == Sum(a, base, i + 1) * b
  {
    Distribute(Sum(a, base, i), a[i] * Pow(base, i), b);
  }

  lemma LinearStep(x: int, y: int, c: int, p: int, rest: int)
    ensures (x + c * y) * p + c * rest == x * p + c * (rest + y * p)
  {
    Distribute(x, c * y, p);
    Associate(c, y, p);
    Distribute(rest, y * p, c);
  }

  /** Adding two limb vectors digit by digit, the second scaled by c, adds the numbers. */
  lemma {:induction false} SumLinear(s: seq<int>, t: seq<int>, u: seq<int>, c: int, b: nat, n: nat)
    requires n <= |s| && n <= |t| && n <= |u|
    requires forall i :: 0 <= i < n ==> u[i] == s[i] + c * t[i]
    ensures Sum(u, b, n) == Sum(s, b, n) + c * Sum(t, b, n)
  {
    if n > 0 {
      SumLinear(s, t, u, c, b, n - 1);
      LinearStep(s[n - 1], t[n - 1], c, Pow(b, n - 1), Sum(t, b, n - 1));
    }
  }

  lemma CarryStep(x: int, c: int, b: nat, p: int)
    requires b > 0
    ensures ((x + c) % b) * p + ((x + c) / b) * (b * p) == x * p + c * p
  {
    var q, r := (x + c) / b, (x + c) % b;
    assert x + c == b * q + r;
    Associate(q, b, p);
    assert q * b == b * q;
    Distribute(r, b * q, p);
    Distribute(x, c, p);
  }

  /** High digits are worth b^m times what they are on their own. */
  lemma {:induction false} SumSplit(s: seq<int>, b: nat, m: nat, n: nat)
    requires m + n <= |s|
    ensures Sum(s, b, m + n) == Sum(s, b, m) + Sum(s[m..], b, n) * Pow(b, m)
  {
    if n > 0 {
      SumSplit(s, b, m, n - 1);
      var x, p := s[m + n - 1], Pow(b, n - 1);
      PowAdd(b, n - 1, m);
      Associate(x, p, Pow(b, m));
      Distribute(Sum(s[m..], b, n - 1), x * p, Pow(b, m));
    }
  }

  /** A carry chain keeps the number: the digits plus the carry out are worth what came in. */
  lemma {:induction false} CarryKeepsSum(s: seq<int>, d: seq<int>, b: nat, n: nat)
    requires n <= |s| && n <= |d| && b > 0
    requires forall i :: 0 <= i < n ==> d[i] == Digit(s, b, i)
    ensures Sum(d, b, n) + Carry(s, b, n) * Pow(b, n) == Sum(s, b, n)
  {
    if n > 0 {
      CarryKeepsSum(s, d, b, n - 1);
      CarryStep(s[n - 1], Carry(s, b, n - 1), b, Pow(b, n - 1));
    }
  }

  lemma Scale(x: int, y: int, p: int)
    requires x <= y && 0 <= p
    ensures x * p <= y * p
  {
  }

  /** The same when w is added to the lowest digit afterwards. */
  lemma CarryKeepsSumPlus(s: seq<int>, d: seq<int>, w: int, b: nat, n: nat)
    requires 0 < n <= |s| && n <= |d| && b > 0 && d[0] == Digit(s, b, 0) + w
    requires forall i :: 1 <= i < n ==> d[i] == Digit(s, b, i)
    ensures Sum(d, b, n) + Carry(s, b, n) * Pow(b, n) == Sum(s, b, n) + w
  {
    var t := d[0 := Digit(s, b, 0)];
    CarryKeepsSum(s, t, b, n);
    SumUpdate(t, d, b, n, 0, w);
    assert w * Pow(b, 0) == w;
  }

  /** Normal digits give a number below b^n. */
  lemma {:induction false} SumBound(s: seq<int>, b: nat, n: nat)
    requires n <= |s| && b > 0
    requires forall i :: 0 <= i < n ==> 0 <= s[i] < b
    ensures 0 <= Sum(s, b, n) < Pow(b, n)
  {
    if n > 0 {
      SumBound(s, b, n - 1);
      var p := Pow(b, n - 1);
      Scale(0, s[n - 1], p);
      Scale(s[n - 1], b - 1, p);
      Distribute(b - 1, 1, p);
    }
  }

  lemma FourDigits(s: seq<int>, b: nat, n: nat)
    requires n + 4 <= |s|
    ensures Sum(s, b, n + 4) == Sum(s, b, n) + s[n] * Pow(b, n) + s[n + 1] * Pow(b, n + 1)
                              + s[n + 2] * Pow(b, n + 2) + s[n + 3] * Pow(b, n + 3)
  {
    assert Sum(s, b, n + 2) == Sum(s, b, n + 1) + s[n + 1] * Pow(b, n + 1);
    assert Sum(s, b, n + 3) == Sum(s, b, n + 2) + s[n + 2] * Pow(b, n + 2);
  }
}
