/** The fixed square-and-multiply ladders of curve25519.c. */
module Inversion {
  import opened Radix
  import opened Field
  import opened Limbs

  /**
   * The exponent after k rounds of a ladder that squares every round and multiplies in every
   * round but those in `skip`.
   */
  function Exponent(k: nat, skip: set<nat>): nat
  {
    if k == 0 then 1
    else 2 * Exponent(k - 1, skip) + if k in skip then 0 else 1
  }

  /** Without skipped rounds the exponent is all ones. */
  lemma {:induction false} AllOnes(k: nat, skip: set<nat>)
    requires forall j: nat :: 1 <= j <= k ==> j !in skip
    ensures Exponent(k, skip) + 1 == Pow(2, k + 1)
  {
    if k == 0 {
      assert Pow(2, 1) == 2 * Pow(2, 0);
    } else {
      AllOnes(k - 1, skip);
    }
  }

  lemma PowersOfTwo()
    ensures Pow(2, 250) == 0x400_0000_0000_0000_0000_0000_0000_0000_0000_0000_0000_0000_0000_0000_0000_0000
    ensures Pow(2, 255) == Prime + 19
  {
    assert Pow(2, 10) == 0x400;
    PowAdd(2, 10, 10);
    PowAdd(2, 20, 20);
    assert Pow(2, 40) == 0x100_0000_0000;
    PowAdd(2, 40, 40);
    assert Pow(2, 80) == 0x1_0000_0000_0000_0000_0000;
    PowAdd(2, 80, 40);
    assert Pow(2, 120) == 0x100_0000_0000_0000_0000_0000_0000_0000;
    PowAdd(2, 120, 120);
    assert Pow(2, 240) == 0x1_0000_0000_0000_0000_0000_0000_0000_0000_0000_0000_0000_0000_0000_0000_0000;
    PowAdd(2, 240, 10);
    assert Pow(2, 5) == 32;
    PowAdd(2, 250, 5);
  }

  /** inv25519 multiplies in every round but a = 4 and a = 2, the 250th and the 252nd. */
  lemma InvertExponent()
    ensures Exponent(254, {250, 252}) == Prime - 2
  {
    var skip: set<nat> := {250, 252};
    AllOnes(249, skip);
    PowersOfTwo();
    assert Exponent(250, skip) == 2 * Exponent(249, skip);
    assert Exponent(251, skip) == 2 * Exponent(250, skip) + 1;
    assert Exponent(252, skip) == 2 * Exponent(251, skip);
    assert Exponent(253, skip) == 2 * Exponent(252, skip) + 1;
  }

  /** pow2523 multiplies in every round but a = 1, the 250th. */
  lemma Pow2523Exponent()
    ensures Exponent(251, {250}) == (Prime - 5) / 8
  {
    var skip: set<nat> := {250};
    AllOnes(249, skip);
    assert Exponent(250, skip) == 2 * Exponent(249, skip);
    assert Exponent(251, skip) == 2 * Exponent(250, skip) + 1;
    PowersOfTwo();
  }

  lemma SquareStep(x: int, e: nat)
    requires 0 <= x < Prime
    ensures Mul(Exp(x, e), Exp(x, e)) == Exp(x, 2 * e)
    ensures Mul(Exp(x, 2 * e), x) == Exp(x, 2 * e + 1)
  {
    ExpAdd(x, e, e);
    ExpAdd(x, 2 * e, 1);
    ExpOne(x);
  }

  lemma ReducedIsNarrow(s: seq<int>)
    requires Reduced(s)
    ensures Within(s, 0x1_0025)
  {
  }

  /** One round: square c and, unless skipped, multiply by x. */
  method Round(c: array<i64>, x: array<i64>, multiply: bool, ghost e: nat)
    requires c.Length == x.Length == 16 && c != x
    requires Within(c[..], WIDE) && Within(x[..], WIDE)
    requires Elem(c[..]) == Exp(Elem(x[..]), e)
    modifies c
    ensures Within(c[..], WIDE)
    ensures Elem(c[..]) == Exp(Elem(x[..]), 2 * e + if multiply then 1 else 0)
    ensures Reduced(c[..])
  {
    SquareStep(Elem(x[..]), e);
    SquareLimbs(c, c);
    ReducedIsNarrow(c[..]);
    if multiply {
      MulLimbs(c, c, x);
      ReducedIsNarrow(c[..]);
    }
  }

  /** Inversion as x^(p-2); o may be x. */
  method Invert(o: array<i64>, x: array<i64>)
    requires o.Length == x.Length == 16 && Within(x[..], WIDE)
    modifies o
    ensures Reduced(o[..])
    ensures Elem(o[..]) == Exp(old(Elem(x[..])), Prime - 2)
  {
    var c := new i64[16];
    CopyLimbs(c, x);
    assert c[..] == x[..16] == x[..];
    ghost var xv := x[..];
    ExpOne(Elem(xv));
    ghost var skip: set<nat> := {250, 252};
    for a := 254 downto 0
      invariant Within(c[..], WIDE) && (a < 254 ==> Reduced(c[..]))
      invariant x[..] == xv && Elem(c[..]) == Exp(Elem(xv), Exponent(254 - a, skip))
    {
      Round(c, x, a != 2 && a != 4, Exponent(253 - a, skip));
    }
    InvertExponent();
    CopyLimbs(o, c);
    assert o[..] == c[..16] == c[..];
  }

  /** x^(2^252 - 3) = x^((p - 5) / 8), the exponent of the square-root candidate in RFC 8032 section 5.1.3. */
  method Pow2523(o: array<i64>, x: array<i64>)
    requires o.Length == x.Length == 16 && Within(x[..], WIDE)
    modifies o
    ensures Reduced(o[..])
    ensures Elem(o[..]) == Exp(old(Elem(x[..])), (Prime - 5) / 8)
  {
    var c := new i64[16];
    CopyLimbs(c, x);
    assert c[..] == x[..16] == x[..];
    ghost var xv := x[..];
    ExpOne(Elem(xv));
    ghost var skip: set<nat> := {250};
    for a := 251 downto 0
      invariant Within(c[..], WIDE) && (a < 251 ==> Reduced(c[..]))
      invariant x[..] == xv && Elem(c[..]) == Exp(Elem(xv), Exponent(251 - a, skip))
    {
      Round(c, x, a != 1, Exponent(250 - a, skip));
    }
    Pow2523Exponent();
    CopyLimbs(o, c);
    assert o[..] == c[..16] == c[..];
  }
}
