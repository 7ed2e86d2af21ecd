/**
 * The growable byte buffer of buffer.c and the SSH data types read and written with it
 * (section 5 of RFC 4251). The functions work on values, with None where the C code exits;
 * BufferObjects.dfy runs them in place on an array.
 */
module Buffers {
  import opened Options
  import opened Radix

  const BUF_MAX_INCR: int := 1000000000
  const BUF_MAX_SIZE: int := 1000000000
  const BUF_MAX_MPINT: int := 8240 / 8
  const MAX_STRING_LEN: int := 9000

  /** The whole allocation, the used length and the position. */
  datatype Buf = Buf(data: seq<byte>, len: nat, pos: nat)

  predicate Proper(b: Buf) { b.pos <= b.len <= |b.data| <= BUF_MAX_SIZE }

  /** The next n bytes: buf_getptr. */
  function Peek(b: Buf, n: nat): Option<seq<byte>>
    requires Proper(b)
  {
    if b.pos + n > b.len then None else Some(b.data[b.pos..b.pos + n])
  }

  function Skip(b: Buf, n: nat): (r: Option<Buf>)
    requires Proper(b)
    ensures r.Some? ==> Proper(r.value)
  {
    if b.pos + n > b.len then None else Some(b.(pos := b.pos + n))
  }

  /** buf_putbytes: overwrite from the position on, growing the used part as needed. */
  function PutBytes(b: Buf, bytes: seq<byte>): (r: Option<Buf>)
    requires Proper(b)
    ensures r.Some? ==> Proper(r.value) && |r.value.data| == |b.data|
  {
    var end := b.pos + |bytes|;
    if end > |b.data| then None
    else Some(Buf(b.data[..b.pos] + bytes + b.data[end..], Max(b.len, end), end))
  }

  // ---- big-endian numbers ----

  function FromBytes(s: seq<byte>): nat
  {
    if s == [] then 0 else FromBytes(s[..|s| - 1]) * 256 + s[|s| - 1]
  }

  function ToBytes(n: nat, k: nat): (s: seq<byte>)
    ensures |s| == k
  {
    if k == 0 then [] else ToBytes(n / 256, k - 1) + [n % 256]
  }

  /** A uint32 on the wire: most significant byte first (section 5 of RFC 4251). */
  lemma BigEndian(n: nat)
    requires n < 0x1_0000_0000
    ensures ToBytes(n, 4) == [n / 0x100_0000, n / 0x1_0000 % 256, n / 256 % 256, n % 256]
  {
    assert ToBytes(n, 4) == ToBytes(n / 256, 3) + [n % 256];
    assert ToBytes(n / 256, 3) == ToBytes(n / 256 / 256, 2) + [n / 256 % 256];
    assert ToBytes(n / 256 / 256, 2) == ToBytes(n / 256 / 256 / 256, 1) + [n / 256 / 256 % 256];
    assert ToBytes(n / 256 / 256 / 256, 1) == ToBytes(n / 256 / 256 / 256 / 256, 0) + [n / 256 / 256 / 256 % 256];
  }

  lemma {:induction false} ToBytesValue(n: nat, k: nat)
    requires n < Pow(256, k)
    ensures FromBytes(ToBytes(n, k)) == n
    decreases k, n
  {
    if k > 0 {
      var s := ToBytes(n, k);
      assert s[..k - 1] == ToBytes(n / 256, k - 1);
      ToBytesValue(n / 256, k - 1);
    }
  }

  lemma {:induction false} FromBytesUnique(s: seq<byte>)
    ensures FromBytes(s) < Pow(256, |s|)
    ensures ToBytes(FromBytes(s), |s|) == s
    decreases |s|
  {
    if s != [] {
      var n, front, last := FromBytes(s), s[..|s| - 1], s[|s| - 1];
      FromBytesUnique(front);
      assert n / 256 == FromBytes(front) && n % 256 == last;
    }
  }

  // ---- uint32 and string ----

  function PutInt(b: Buf, v: nat): (r: Option<Buf>)
    requires Proper(b)
    ensures r.Some? ==> Proper(r.value)
  {
    PutBytes(b, ToBytes(v, 4))
  }

  function GetInt(b: Buf): (r: Option<(nat, Buf)>)
    requires Proper(b)
    ensures r.Some? ==> Proper(r.value.1)
  {
    if b.pos + 4 > b.len then None else Some((FromBytes(b.data[b.pos..b.pos + 4]), b.(pos := b.pos + 4)))
  }

  function PutString(b: Buf, s: seq<byte>): (r: Option<Buf>)
    requires Proper(b)
    ensures r.Some? ==> Proper(r.value)
  {
    var c := PutInt(b, |s|);
    if c.None? then None else PutBytes(c.value, s)
  }

  function GetString(b: Buf): (r: Option<(seq<byte>, Buf)>)
    requires Proper(b)
    ensures r.Some? ==> Proper(r.value.1)
  {
    var c := GetInt(b);
    if c.None? || c.value.0 > MAX_STRING_LEN then None
    else
      var p, d := Peek(c.value.1, c.value.0), Skip(c.value.1, c.value.0);
      if p.None? || d.None? then None else Some((p.value, d.value))
  }

  /** Reading from where `b` stood when it was written. */
  function Rewind(c: Buf, b: Buf): Buf { c.(pos := b.pos) }

  lemma PutBytesPeek(b: Buf, bytes: seq<byte>)
    requires Proper(b) && b.pos + |bytes| <= |b.data|
    ensures var c := PutBytes(b, bytes).value;
            Peek(Rewind(c, b), |bytes|) == Some(bytes) && Skip(Rewind(c, b), |bytes|) == Some(c)
  {
  }

  /** Two writes one after the other are one write. */
  lemma PutBytesTwice(b: Buf, s: seq<byte>, t: seq<byte>)
    requires Proper(b) && b.pos + |s| + |t| <= |b.data|
    ensures PutBytes(PutBytes(b, s).value, t) == PutBytes(b, s + t)
  {
    var c := PutBytes(b, s).value;
    assert c.data[..c.pos] + t + c.data[c.pos + |t|..] == b.data[..b.pos] + (s + t) + b.data[b.pos + |s| + |t|..];
  }

  lemma PutIntRead(b: Buf, v: nat)
    requires Proper(b) && v < 0x1_0000_0000 && b.pos + 4 <= |b.data|
    ensures var c := PutInt(b, v).value; GetInt(Rewind(c, b)) == Some((v, c))
  {
    PutBytesPeek(b, ToBytes(v, 4));
    Pow256();
    ToBytesValue(v, 4);
  }

  lemma Pow256()
    ensures Pow(256, 4) == 0x1_0000_0000
  {
    assert Pow(256, 1) == 256 && Pow(256, 2) == 65536 && Pow(256, 3) == 16777216;
  }

  /**
   * What buf_putstring writes, buf_getstring reads, ending at the same position, exactly when
   * the string is no longer than MAX_STRING_LEN.
   */
  lemma StringRoundTrip(b: Buf, s: seq<byte>)
    requires Proper(b) && b.pos + 4 + |s| <= |b.data|
    ensures var c := PutString(b, s);
            c.Some? && (GetString(Rewind(c.value, b)) == Some((s, c.value)) <==> |s| <= MAX_STRING_LEN)
  {
    var c := PutInt(b, |s|).value;
    var d := PutBytes(c, s).value;
    Pow256();
    ToBytesValue(|s|, 4);
    PutBytesTwice(b, ToBytes(|s|, 4), s);
    assert d.data[b.pos..b.pos + 4] == ToBytes(|s|, 4);
    assert d.data[c.pos..c.pos + |s|] == s;
  }
}
