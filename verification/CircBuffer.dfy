/**
 * The ring buffer of circbuffer.c. `contents` is the queue of bytes it stands for; every
 * operation is stated on that queue, and the run-time assertions of the C code are `assert`s.
 */
module CircBuffers {
  import opened Radix
  import opened Field

  const MAX_CBUF_SIZE: int := 100000000

  /** The n bytes found from `start` on, going round. */
  function Around(data: seq<byte>, start: nat, n: nat): (s: seq<byte>)
    requires start <= |data| && n <= |data|
    ensures |s| == n
  {
    (data[start..] + data)[..n]
  }

  /** Positions wrap at most once. */
  lemma Wrapped(size: int, at: int)
    requires 0 <= at < 2 * size
    ensures at % size == if at < size then at else at - size
  {
    if at >= size {
      assert at == (at - size) + size;
    }
  }

  /** The consistency check of cbuf_writelen, in unsigned arithmetic. */
  lemma PositionsAgree(size: int, readpos: int, writepos: int, used: int)
    requires 0 < size <= MAX_CBUF_SIZE && 0 <= readpos < size && 0 <= used <= size
    requires writepos == (readpos + used) % size
    ensures ((2 * size + writepos - readpos) % 0x1_0000_0000) % size == used % size
    ensures ((2 * size + readpos - writepos) % 0x1_0000_0000) % size == (size - used) % size
  {
    Wrapped(size, readpos + used);
    Shift(size, used);
    Shift(size, size - used);
    assert 0 <= 2 * size + writepos - readpos < 0x1_0000_0000;
    assert 0 <= 2 * size + readpos - writepos < 0x1_0000_0000;
  }

  lemma Shift(size: int, x: int)
    requires size > 0
    ensures (x + size) % size == x % size && (x + size + size) % size == x % size
  {
    ModShift(x, 1, size);
    ModShift(x, 2, size);
  }

  /** A read-out in two pieces, as cbuf_readptrs gives them. */
  lemma AroundInTwo(data: seq<byte>, start: nat, n: nat)
    requires start <= |data| && n <= |data|
    ensures Around(data, start, n) ==
            if n <= |data| - start then data[start..start + n] else data[start..] + data[..n - (|data| - start)]
  {
  }

  /** Taking k bytes off the front. */
  lemma AroundTail(data: seq<byte>, start: nat, n: nat, k: nat, at: nat)
    requires start < |data| && k <= n <= |data| && at == (start + k) % |data|
    ensures at < |data| && Around(data, at, n - k) == Around(data, start, n)[k..]
  {
    Wrapped(|data|, start + k);
    AroundInTwo(data, start, n);
    AroundInTwo(data, at, n - k);
    if start + k >= |data| {
      var wrapped := n - (|data| - start);
      assert (data[start..] + data[..wrapped])[k..] == data[..wrapped][at..];
    } else if n > |data| - start {
      assert (data[start..] + data[..n - (|data| - start)])[k..] == data[at..] + data[..n - (|data| - start)];
    }
  }

  /** Reading on past the end finds what lies at the write position. */
  lemma AroundMore(data: seq<byte>, start: nat, n: nat, w: nat, len: nat)
    requires start < |data| && n + len <= |data| && w == (start + n) % |data| && w + len <= |data|
    ensures Around(data, start, n + len) == Around(data, start, n) + data[w..w + len]
  {
    Wrapped(|data|, start + n);
    AroundInTwo(data, start, n);
    AroundInTwo(data, start, n + len);
  }

  /** Bytes stored at the write position disturb nothing that is held. */
  lemma FreeSpace(was: seq<byte>, now: seq<byte>, start: nat, n: nat, at: nat, len: nat)
    requires |now| == |was| && start < |was| && n + len <= |was| && at == (start + n) % |was| && at + len <= |was|
    requires forall i :: 0 <= i < |was| && !(at <= i < at + len) ==> now[i] == was[i]
    ensures Around(now, start, n) == Around(was, start, n)
  {
    Wrapped(|was|, start + n);
    AroundInTwo(was, start, n);
    AroundInTwo(now, start, n);
  }

  /** Moving one of the positions keeps them consistent. */
  lemma Advance(size: int, start: int, n: int, at: int, len: int)
    requires 0 <= start < size && 0 <= n && 0 <= len && n + len <= size && at == (start + n) % size
    ensures 0 <= (at + len) % size < size
    ensures (at + len) % size == (start + (n + len)) % size
  {
    Wrapped(size, start + n);
    Wrapped(size, start + n + len);
    Wrapped(size, at + len);
  }

  class CircBuffer {
    const size: u32
    var readpos: u32
    var writepos: u32
    var used: u32
    var data: array?<byte>

    /** The bytes held, in the order they will be read. */
    ghost var contents: seq<byte>

    /** The representation: positions in range and consistent, storage allocated on first use. */
    ghost predicate Valid()
      reads this, data
    {
      && 0 < size <= MAX_CBUF_SIZE
      && readpos < size && used <= size
      && writepos == (readpos + used) % size
      && |contents| == used
      && (data == null ==> used == 0)
      && (data != null ==> data.Length == size && contents == Around(data[..], readpos, used))
    }

    /** cbuf_new, for the sizes it accepts. */
    constructor (size: u32)
      requires 0 < size <= MAX_CBUF_SIZE
      ensures Valid() && this.size == size && contents == [] && data == null
    {
      this.size := size;
      readpos, writepos, used := 0, 0, 0;
      data := null;
      contents := [];
    }

    /** cbuf_getused. */
    function GetUsed(): (n: u32)
      reads this, data
      requires Valid()
      ensures n == |contents|
    {
      used
    }

    /** cbuf_getavail. */
    function GetAvail(): (n: u32)
      reads this, data
      requires Valid()
      ensures n == size - |contents|
    {
      size - used
    }

    /** cbuf_writelen, with its three assertions. */
    method WriteLen() returns (n: u32)
      requires Valid()
      ensures n <= size - |contents| && writepos + n <= size
      ensures n == 0 <==> |contents| == size
      ensures n < size - |contents| ==> writepos + n == size
    {
      assert used <= size;
      PositionsAgree(size, readpos, writepos, used);
      assert ((2 * size + writepos - readpos) % 0x1_0000_0000) % size == used % size;
      assert ((2 * size + readpos - writepos) % 0x1_0000_0000) % size == (size - used) % size;
      Wrapped(size, readpos + used);
      if used == size {
        return 0;
      }
      if writepos < readpos {
        return readpos - writepos;
      }
      return size - writepos;
    }

    /** cbuf_readptrs: the two pieces, as offsets into data; the second starts at 0. */
    method ReadPtrs() returns (at: u32, len1: u32, len2: u32)
      requires Valid()
      ensures at == readpos && len1 + len2 == |contents| && at + len1 <= size && len2 <= size
      ensures len1 == 0 ==> |contents| == 0
      ensures data == null ==> len1 == 0
      ensures data != null ==> contents == data[at..at + len1] + data[..len2]
    {
      at := readpos;
      len1 := Min(used, size - readpos);
      len2 := if len1 < used then used - len1 else 0;
      if data != null {
        AroundInTwo(data[..], readpos, used);
      }
    }

    /** cbuf_writeptr: allocate on first use and give the place to write. */
    method WritePtr(len: u32) returns (at: u32)
      requires Valid() && len <= size - |contents| && writepos + len <= size
      modifies this`data
      ensures Valid() && data != null && at == writepos
      ensures old(data) != null ==> data == old(data)
      ensures old(data) == null ==> fresh(data)
    {
      if data == null {
        data := new byte[size];
      }
      at := writepos;
    }

    /** The memcpy of a caller to the place cbuf_writeptr gave. */
    method CopyIn(bytes: seq<byte>)
      requires Valid() && data != null && |bytes| <= size - |contents| && writepos + |bytes| <= size
      modifies data
      ensures Valid() && data[writepos..writepos + |bytes|] == bytes
    {
      ghost var was := data[..];
      forall i | 0 <= i < |bytes| {
        data[writepos + i] := bytes[i];
      }
      FreeSpace(was, data[..], readpos, used, writepos, |bytes|);
    }

    /** cbuf_incrwrite: the bytes the caller has just stored at writepos join the queue. */
    method IncrWrite(len: u32)
      requires Valid() && data != null && len <= size - |contents| && writepos + len <= size
      modifies this`used, this`writepos, this`contents
      ensures Valid() && contents == old(contents) + data[old(writepos)..old(writepos) + len]
      ensures old(writepos) + len == size ==> writepos == 0
    {
      ghost var w := writepos;
      AroundMore(data[..], readpos, used, w, len);
      assert data[..][w..w + len] == data[w..w + len];
      contents := contents + data[w..w + len];
      used := used + len;
      assert used <= size;
      Advance(size, readpos, used - len, w, len);
      Wrapped(size, w + len);
      writepos := (writepos + len) % size;
    }

    /** cbuf_incrread: the first len bytes leave the queue. */
    method IncrRead(len: u32)
      requires Valid() && len <= |contents|
      modifies this`used, this`readpos, this`contents
      ensures Valid() && contents == old(contents)[len..]
    {
      assert used >= len;
      Wrapped(size, readpos + len);
      var at := (readpos + len) % size;
      if data != null {
        AroundTail(data[..], readpos, used, len, at);
      }
      Advance(size, readpos, len, at, used - len);
      contents := contents[len..];
      used := used - len;
      readpos := at;
    }
  }
}
