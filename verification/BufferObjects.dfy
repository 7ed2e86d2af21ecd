/**
 * struct buf of buffer.c: an array with a used length and a position, changed in place. Each
 * method is proved to do what its function in Buffers or Mpint does; `ok` is false where the
 * C code exits.
 */
module BufferObjects {
  import opened Options
  import opened Radix
  import opened Buffers
  import opened Mpint

  class Buffer {
    var data: array<byte>
    var len: u32
    var pos: u32

    ghost predicate Valid()
      reads this
    {
      pos <= len <= data.Length <= BUF_MAX_SIZE
    }

    ghost function View(): (b: Buf)
      reads this, data
      ensures Valid() ==> Proper(b) && |b.data| == data.Length
    {
      Buf(data[..], len, pos)
    }

    /** buf_new. */
    constructor (size: u32)
      requires size <= BUF_MAX_SIZE
      ensures Valid() && fresh(data) && data.Length == size && len == 0 == pos
    {
      data := new byte[size];
      len, pos := 0, 0;
    }

    /** buf_resize. */
    method Resize(newsize: u32) returns (ok: bool)
      requires Valid()
      modifies this
      ensures Valid() && ok == (newsize <= BUF_MAX_SIZE)
      ensures ok ==>
                && fresh(data) && data.Length == newsize
                && len == (if old(len) <= newsize then old(len) else newsize)
                && pos == (if old(pos) <= newsize then old(pos) else newsize)
                && data[..len] == old(data[..])[..len]
    {
      if newsize > BUF_MAX_SIZE {
        return false;
      }
      var bigger := new byte[newsize];
      forall i | 0 <= i < newsize && i < data.Length {
        bigger[i] := data[i];
      }
      data := bigger;
      len := if newsize < len then newsize else len;
      pos := if newsize < pos then newsize else pos;
      return true;
    }

    /** buf_setlen. */
    method SetLen(newlen: u32) returns (ok: bool)
      requires Valid()
      modifies this`len, this`pos
      ensures Valid() && ok == (newlen <= data.Length)
      ensures if ok then len == newlen && pos == (if old(pos) <= newlen then old(pos) else newlen)
              else len == old(len) && pos == old(pos)
    {
      if newlen > data.Length {
        return false;
      }
      len := newlen;
      pos := if pos <= len then pos else len;
      return true;
    }

    /** buf_incrlen. */
    method IncrLen(incr: u32) returns (ok: bool)
      requires Valid()
      modifies this`len
      ensures Valid() && ok == (old(len) + incr <= data.Length) && len == if ok then old(len) + incr else old(len)
    {
      if incr > BUF_MAX_INCR || len + incr > data.Length {
        return false;
      }
      len := len + incr;
      return true;
    }

    /** buf_setpos. */
    method SetPos(newpos: u32) returns (ok: bool)
      requires Valid()
      modifies this`pos
      ensures Valid() && ok == (newpos <= len) && pos == if ok then newpos else old(pos)
    {
      if newpos > len {
        return false;
      }
      pos := newpos;
      return true;
    }

    /** buf_incrpos. */
    method IncrPos(incr: u32) returns (ok: bool)
      requires Valid()
      modifies this`pos
      ensures Valid() && ok == Skip(old(View()), incr).Some?
      ensures ok ==> View() == Skip(old(View()), incr).value
    {
      if incr > BUF_MAX_INCR || pos + incr > len {
        return false;
      }
      pos := pos + incr;
      return true;
    }

    /** buf_incrwritepos. */
    method IncrWritePos(incr: u32) returns (ok: bool)
      requires Valid()
      modifies this`len, this`pos
      ensures Valid() && ok == (old(pos) + incr <= data.Length)
      ensures ok ==> pos == old(pos) + incr && len == Max(old(len), pos)
    {
      if incr > BUF_MAX_INCR || pos + incr > data.Length {
        return false;
      }
      pos := pos + incr;
      if pos > len {
        len := pos;
      }
      return true;
    }

    /** buf_getptr and the copy its callers make. */
    method GetPtr(n: u32) returns (ok: bool, bytes: seq<byte>)
      requires Valid()
      ensures ok == Peek(View(), n).Some? && (ok ==> bytes == Peek(View(), n).value)
    {
      if n > BUF_MAX_INCR || pos + n > len {
        return false, [];
      }
      return true, data[pos..pos + n];
    }

    /** buf_putbyte. */
    method PutByte(val: byte) returns (ok: bool)
      requires Valid()
      modifies this`len, this`pos, data
      ensures Valid() && ok == Buffers.PutBytes(old(View()), [val]).Some?
      ensures ok ==> View() == Buffers.PutBytes(old(View()), [val]).value
    {
      if pos >= len {
        var more := IncrLen(1);
        if !more {
          return false;
        }
      }
      data[pos] := val;
      pos := pos + 1;
      ok := true;
    }

    /** buf_putbytes: memcpy at the position, then buf_incrwritepos. */
    method PutBytes(bytes: seq<byte>) returns (ok: bool)
      requires Valid()
      modifies this`len, this`pos, data
      ensures Valid() && ok == Buffers.PutBytes(old(View()), bytes).Some?
      ensures ok ==> View() == Buffers.PutBytes(old(View()), bytes).value
    {
      if |bytes| > BUF_MAX_INCR || pos + |bytes| > data.Length {
        return false;
      }
      forall i | 0 <= i < |bytes| {
        data[pos + i] := bytes[i];
      }
      assert data[..] == old(data[..])[..pos] + bytes + old(data[..])[pos + |bytes|..];
      pos := pos + |bytes|;
      if pos > len {
        len := pos;
      }
      ok := true;
    }

    /** buf_putint: STORE32H at the position. */
    method PutInt(val: u32) returns (ok: bool)
      requires Valid()
      modifies this`len, this`pos, data
      ensures Valid() && ok == Buffers.PutInt(old(View()), val).Some?
      ensures ok ==> View() == Buffers.PutInt(old(View()), val).value
    {
      Store32(val);
      ok := PutBytes([val / 0x100_0000 % 256, val / 0x1_0000 % 256, val / 0x100 % 256, val % 256]);
    }

    /** buf_getint: LOAD32H at the position. */
    method GetInt() returns (ok: bool, val: u32)
      requires Valid()
      modifies this`pos
      ensures Valid() && ok == Buffers.GetInt(old(View())).Some?
      ensures ok ==> (val, View()) == Buffers.GetInt(old(View())).value
    {
      var s;
      ok, s := GetPtr(4);
      if !ok {
        return false, 0;
      }
      Load32(s);
      val := (s[0] as int) * 0x100_0000 + (s[1] as int) * 0x1_0000 + (s[2] as int) * 0x100 + s[3];
      ok := IncrPos(4);
    }

    /** buf_putstring. */
    method PutString(s: seq<byte>) returns (ok: bool)
      requires Valid() && |s| < 0x1_0000_0000
      modifies this`len, this`pos, data
      ensures Valid() && ok == Buffers.PutString(old(View()), s).Some?
      ensures ok ==> View() == Buffers.PutString(old(View()), s).value
    {
      ok := PutInt(|s|);
      if ok {
        ok := PutBytes(s);
      }
    }

    /** buf_getstring. */
    method GetString() returns (ok: bool, s: seq<byte>)
      requires Valid()
      modifies this`pos
      ensures Valid() && ok == Buffers.GetString(old(View())).Some?
      ensures ok ==> (s, View()) == Buffers.GetString(old(View())).value
    {
      var n;
      ok, n := GetInt();
      s := [];
      if !ok || n > MAX_STRING_LEN {
        return false, [];
      }
      ok, s := GetPtr(n);
      if ok {
        ok := IncrPos(n);
      }
    }

    /** The value of an mpint, with a zero byte in front when it needs one. */
    method PutPadded(pad: bool, bytes: seq<byte>) returns (ok: bool)
      requires Valid()
      modifies this`len, this`pos, data
      ensures Valid() && ok == Buffers.PutBytes(old(View()), if pad then [0] + bytes else bytes).Some?
      ensures ok ==> View() == Buffers.PutBytes(old(View()), if pad then [0] + bytes else bytes).value
    {
      SplitPut(View(), bytes);
      if pad {
        ok := PutByte(0);
        if !ok {
          return false;
        }
      }
      ok := PutBytes(bytes);
    }

    /** buf_putmpint, with mp_to_ubin writing the fewest bytes that hold n. */
    method PutMpint(n: nat) returns (ok: bool)
      requires Valid() && StoredLen(n) <= BUF_MAX_SIZE
      modifies this`len, this`pos, data
      ensures Valid() && ok == Mpint.PutMpint(old(View()), n).Some?
      ensures ok ==> View() == Mpint.PutMpint(old(View()), n).value
    {
      var size, pad := 0, 0;
      if n > 0 {
        size := Bits(n);
        pad := if size % 8 == 0 then 1 else 0;
        size := size / 8 + 1;
      }
      ok := PutInt(size);
      if !ok {
        return false;
      }
      ghost var was := View();
      if size > 0 {
        ok := PutPadded(pad == 1, ToBytes(n, size - pad));
      } else {
        PutNothing(was);
      }
    }

    /** buf_getmpint: exits, fails, or gives the number. */
    method GetMpint() returns (exits: bool, ok: bool, n: nat)
      requires Valid()
      modifies this`pos
      ensures Valid()
      ensures Mpint.GetMpint(old(View())) == if exits then Exits else if !ok then Failure else Success(n, View())
    {
      var more, size := GetInt();
      if !more {
        return true, false, 0;
      }
      if size == 0 {
        return false, true, 0;
      }
      if size > BUF_MAX_MPINT {
        return false, false, 0;
      }
      var s;
      more, s := GetPtr(1);
      if !more {
        return true, false, 0;
      }
      if s[0] >= 128 {
        return false, false, 0;
      }
      more, s := GetPtr(size);
      if !more {
        return true, false, 0;
      }
      more := IncrPos(size);
      return false, true, FromBytes(s);
    }
  }

  lemma PutNothing(b: Buf)
    requires Proper(b)
    ensures Buffers.PutBytes(b, []) == Some(b)
  {
    assert b.data[..b.pos] + [] + b.data[b.pos..] == b.data;
  }

  lemma Store32(v: nat)
    requires v < 0x1_0000_0000
    ensures ToBytes(v, 4) == [v / 0x100_0000 % 256, v / 0x1_0000 % 256, v / 0x100 % 256, v % 256]
  {
    assert ToBytes(v / 0x100_0000, 1) == [v / 0x100_0000 % 256];
    assert ToBytes(v / 0x1_0000, 2) == [v / 0x100_0000 % 256, v / 0x1_0000 % 256];
    assert ToBytes(v / 0x100, 3) == [v / 0x100_0000 % 256, v / 0x1_0000 % 256, v / 0x100 % 256];
  }

  lemma Load32(s: seq<byte>)
    requires |s| == 4
    ensures FromBytes(s) == (s[0] as int) * 0x100_0000 + (s[1] as int) * 0x1_0000 + (s[2] as int) * 0x100 + s[3]
    ensures FromBytes(s) < 0x1_0000_0000
  {
    var a, b, c := s[..3], s[..2], s[..1];
    assert a[..2] == b && b[..1] == c && c[..0] == [];
    assert FromBytes(c) == FromBytes([]) * 256 + c[0] == s[0] as int;
    assert FromBytes(b) == FromBytes(c) * 256 + b[1];
    assert FromBytes(a) == FromBytes(b) * 256 + a[2];
    assert FromBytes(s) == FromBytes(a) * 256 + s[3];
  }

  /** The pad byte first, then the rest, is one write of both. */
  lemma SplitPut(b: Buf, bytes: seq<byte>)
    requires Proper(b)
    ensures Buffers.PutBytes(b, [0] + bytes).Some? ==>
              && Buffers.PutBytes(b, [0]).Some?
              && Buffers.PutBytes(Buffers.PutBytes(b, [0]).value, bytes) == Buffers.PutBytes(b, [0] + bytes)
    ensures Buffers.PutBytes(b, [0] + bytes).None? ==>
              Buffers.PutBytes(b, [0]).None? || Buffers.PutBytes(Buffers.PutBytes(b, [0]).value, bytes).None?
  {
    if b.pos + 1 + |bytes| <= |b.data| {
      PutBytesTwice(b, [0], bytes);
    }
  }
}
