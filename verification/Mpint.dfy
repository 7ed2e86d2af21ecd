/** Multiple precision integers on the wire: buf_putmpint and buf_getmpint of buffer.c. */
module Mpint {
  import opened Options
  import opened Radix
  import opened Buffers

  /** mp_count_bits. */
  function Bits(n: nat): (k: nat)
    ensures k == 0 <==> n == 0
  {
    if n == 0 then 0 else 1 + Bits(n / 2)
  }

  lemma {:induction false} BitsBound(n: nat, m: nat)
    ensures Bits(n) <= m <==> n < Pow(2, m)
    decreases n + m
  {
    if n > 0 && m > 0 {
      BitsBound(n / 2, m - 1);
    }
  }

  lemma PowHalf(k: nat)
    requires k > 0
    ensures 2 * Pow(2, 8 * k - 1) == Pow(256, k)
  {
    PowOctets(k);
  }

  // ---- the encoding as section 5 of RFC 4251 defines it ----

  /**
   * The contents of the mpint of n: big-endian, the top bit clear since n is not negative, no
   * leading zero byte that could be left out, and nothing at all for zero.
   */
  predicate IsMpint(c: seq<byte>, n: nat)
  {
    && FromBytes(c) == n
    && (c != [] ==> c[0] < 128)
    && (|c| == 1 ==> c[0] != 0)
    && (|c| > 1 ==> c[0] != 0 || c[1] >= 128)
  }

  /** The leading byte decides how large the number is. */
  lemma {:induction false} LeadingByte(c: seq<byte>)
    requires c != []
    ensures c[0] * Pow(256, |c| - 1) <= FromBytes(c) < (c[0] + 1) * Pow(256, |c| - 1)
    decreases |c|
  {
    if |c| > 1 {
      var front := c[..|c| - 1];
      LeadingByte(front);
      Widen(c[0], Pow(256, |c| - 2), FromBytes(front), c[|c| - 1]);
    }
  }

  lemma Widen(x: int, p: int, v: int, d: int)
    requires x * p <= v < (x + 1) * p && 0 <= d < 256
    ensures x * (256 * p) <= v * 256 + d < (x + 1) * (256 * p)
  {
    assert x * (256 * p) == 256 * (x * p) && (x + 1) * (256 * p) == 256 * ((x + 1) * p);
  }

  lemma {:induction false} TailValue(c: seq<byte>)
    requires c != [] && c[0] == 0
    ensures FromBytes(c[1..]) == FromBytes(c)
    decreases |c|
  {
    if |c| > 1 {
      TailValue(c[..|c| - 1]);
      assert c[..|c| - 1][1..] == c[1..][..|c| - 2];
    }
  }

  /** How long the encoding is, by the number alone. */
  lemma MpintLength(c: seq<byte>, n: nat)
    requires IsMpint(c, n)
    ensures |c| == if n == 0 then 0 else Bits(n) / 8 + 1
  {
    if c != [] {
      var k := |c|;
      LeadingByte(c);
      PowHalf(k);
      TopBitClear(c[0], Pow(256, k - 1), Pow(2, 8 * k - 1), n);
      BitsBound(n, 8 * k - 1);
      if k > 1 {
        PowHalf(k - 1);
        if c[0] == 0 {
          TailValue(c);
          LeadingByte(c[1..]);
          TopBitSet(c[1], Pow(256, k - 2), Pow(2, 8 * (k - 1) - 1), n);
        } else {
          Scaled(c[0], Pow(256, k - 1), n);
        }
        BitsBound(n, 8 * (k - 1) - 1);
      } else {
        BitsBound(n, 0);
      }
    }
  }

  lemma TopBitClear(x: int, p: int, half: int, n: int)
    requires x < 128 && 2 * half == 256 * p && n < (x + 1) * p && p > 0
    ensures n < half
  {
    assert (x + 1) * p <= 128 * p;
  }

  lemma TopBitSet(x: int, p: int, half: int, n: int)
    requires x >= 128 && 2 * half == 256 * p && x * p <= n && p > 0
    ensures n >= half
  {
    assert x * p >= 128 * p;
  }

  lemma Scaled(x: int, p: int, n: int)
    requires x >= 1 && x * p <= n && p > 0
    ensures n >= p
  {
    assert x * p >= 1 * p;
  }

  /** There is only one such encoding. */
  lemma MpintUnique(c: seq<byte>, d: seq<byte>, n: nat)
    requires IsMpint(c, n) && IsMpint(d, n)
    ensures c == d
  {
    MpintLength(c, n);
    MpintLength(d, n);
    FromBytesUnique(c);
    FromBytesUnique(d);
  }

  // ---- buf_putmpint ----

  /** The length that buf_putmpint stores. */
  function StoredLen(n: nat): nat { if n == 0 then 0 else Bits(n) / 8 + 1 }

  /** The pad byte when the top bit would be set, then what mp_to_ubin writes. */
  function Stored(n: nat): seq<byte>
  {
    if n == 0 then []
    else if Bits(n) % 8 == 0 then [0] + ToBytes(n, StoredLen(n) - 1)
    else ToBytes(n, StoredLen(n))
  }

  function PutMpint(b: Buf, n: nat): (r: Option<Buf>)
    requires Proper(b)
    ensures r.Some? ==> Proper(r.value)
  {
    var c := PutInt(b, StoredLen(n));
    if c.None? then None else PutBytes(c.value, Stored(n))
  }

  lemma {:induction false} LeadingZero(n: nat, k: nat)
    requires n < Pow(256, k)
    ensures [0] + ToBytes(n, k) == ToBytes(n, k + 1)
    decreases k, n
  {
    if k > 0 {
      LeadingZero(n / 256, k - 1);
      assert [0] + ToBytes(n, k) == ([0] + ToBytes(n / 256, k - 1)) + [n % 256];
    } else {
      assert n == 0 && ToBytes(0, 1) == ToBytes(0, 0) + [0];
    }
  }

  lemma StoredIsBytes(n: nat)
    ensures Stored(n) == ToBytes(n, StoredLen(n))
  {
    if n > 0 && Bits(n) % 8 == 0 {
      BitsBound(n, Bits(n));
      PowOctets(Bits(n) / 8);
      LeadingZero(n, Bits(n) / 8);
    }
  }

  /** What is stored is the minimal encoding, of the length announced. */
  lemma StoredIsMpint(n: nat)
    ensures IsMpint(Stored(n), n) && |Stored(n)| == StoredLen(n)
  {
    StoredIsBytes(n);
    if n > 0 {
      var k := StoredLen(n);
      var c := Stored(n);
      BitsBound(n, 8 * k - 1);
      PowHalf(k);
      ToBytesValue(n, k);
      LeadingByte(c);
      if c[0] >= 128 {
        TopBitSet(c[0], Pow(256, k - 1), Pow(2, 8 * k - 1), n);
      }
      if k > 1 {
        BitsBound(n, 8 * (k - 1) - 1);
        PowHalf(k - 1);
        if c[0] == 0 && c[1] < 128 {
          TailValue(c);
          LeadingByte(c[1..]);
          TopBitClear(c[1], Pow(256, k - 2), Pow(2, 8 * (k - 1) - 1), n);
        }
      }
    }
  }

  // ---- buf_getmpint ----

  datatype Got = Exits | Failure | Success(n: nat, rest: Buf)

  function GetMpint(b: Buf): Got
    requires Proper(b)
  {
    match GetInt(b)
    case None => Exits
    case Some((len, c)) =>
      if len == 0 then Success(0, c)
      else if len > BUF_MAX_MPINT then Failure
      else if c.pos >= c.len then Exits
      else if c.data[c.pos] >= 128 then Failure
      else if c.pos + len > c.len then Exits
      else Success(FromBytes(c.data[c.pos..c.pos + len]), c.(pos := c.pos + len))
  }

  /** What stands in the buffer once the number has been written. */
  lemma Written(b: Buf, n: nat)
    requires Proper(b) && b.pos + 4 + StoredLen(n) <= |b.data|
    ensures PutMpint(b, n).Some?
    ensures var d, len := PutMpint(b, n).value, StoredLen(n);
            && d.pos == b.pos + 4 + len <= d.len
            && d.data[b.pos..b.pos + 4] == ToBytes(len, 4)
            && d.data[b.pos + 4..d.pos] == Stored(n)
            && d.data[b.pos..d.pos] == ToBytes(len, 4) + Stored(n)
            && GetInt(Rewind(d, b)) == Some((len, d.(pos := b.pos + 4)))
  {
    StoredIsMpint(n);
    var len, s := StoredLen(n), Stored(n);
    PutBytesTwice(b, ToBytes(len, 4), s);
    Pow256();
    ToBytesValue(len, 4);
    var d := PutMpint(b, n).value;
    assert d.data[b.pos..b.pos + 4] == ToBytes(len, 4);
    assert d.data[b.pos + 4..d.pos] == s;
  }

  lemma LengthLimit(bits: nat)
    ensures bits / 8 + 1 <= BUF_MAX_MPINT <==> bits < 8240
  {
  }

  /**
   * Reading back what was written gives the same number and the same position, exactly for the
   * numbers of fewer than 8240 bits.
   */
  lemma MpintRoundTrip(b: Buf, n: nat)
    requires Proper(b) && b.pos + 4 + StoredLen(n) <= |b.data|
    ensures var c := PutMpint(b, n);
            c.Some? && (GetMpint(Rewind(c.value, b)) == Success(n, c.value) <==> Bits(n) < 8240)
    ensures Bits(n) >= 8240 ==> GetMpint(Rewind(PutMpint(b, n).value, b)) == Failure
  {
    Written(b, n);
    StoredIsMpint(n);
    var d, len := PutMpint(b, n).value, StoredLen(n);
    var c := d.(pos := b.pos + 4);
    if n == 0 {
      assert GetMpint(Rewind(d, b)) == Success(0, c);
    } else {
      assert c.data[c.pos] == Stored(n)[0];
      LengthLimit(Bits(n));
      if len <= BUF_MAX_MPINT {
        assert GetMpint(Rewind(d, b)) == Success(FromBytes(Stored(n)), d);
      } else {
        assert GetMpint(Rewind(d, b)) == Failure;
      }
    }
  }

  /** The bytes written are the length and the one encoding of section 5 of RFC 4251. */
  lemma MpintBytes(b: Buf, n: nat, c: seq<byte>)
    requires Proper(b) && b.pos + 4 + StoredLen(n) <= |b.data| && IsMpint(c, n)
    ensures var d := PutMpint(b, n).value;
            d.pos <= |d.data| && d.data[b.pos..d.pos] == ToBytes(|c|, 4) + c
  {
    Written(b, n);
    StoredIsMpint(n);
    MpintUnique(c, Stored(n), n);
  }
}
