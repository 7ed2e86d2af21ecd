/**
 * encrypt_packet and read_packet as packet.c runs them on buffers in place. No buffer operation
 * of encrypt_packet can exit, and both are proved to do what their functions in Framing do.
 */
module PacketObjects {
  import opened Options
  import opened Radix
  import opened Buffers
  import opened BufferObjects
  import opened Framing
  import opened PacketLaws

  /** The header and payload, with the padding still to come: length, padding length, payload. */
  lemma HeaderLaidOut(size: nat, payload: seq<byte>, before: seq<byte>, len: nat, pad: byte)
    requires |before| == size && 5 + |payload| <= size && before[5..5 + |payload|] == payload
    ensures var b := Buf(before, 5 + |payload|, 0);
            var c := Buf(ToBytes(len, 4) + before[4..], 5 + |payload|, 4);
            var d := Buf(ToBytes(len, 4) + [pad] + before[5..], 5 + |payload|, 5);
            && (size <= BUF_MAX_SIZE ==> Buffers.PutBytes(b, ToBytes(len, 4)) == Some(c))
            && (size <= BUF_MAX_SIZE ==> Buffers.PutBytes(c, [pad]) == Some(d))
            && d.data[..5 + |payload|] == ToBytes(len, 4) + [pad] + payload
  {
    var b := Buf(before, 5 + |payload|, 0);
    var c := Buf(ToBytes(len, 4) + before[4..], 5 + |payload|, 4);
    assert before[..0] + ToBytes(len, 4) + before[4..] == c.data;
    assert c.data[..4] + [pad] + c.data[5..] == ToBytes(len, 4) + [pad] + before[5..];
    var d := ToBytes(len, 4) + [pad] + before[5..];
    assert d[5..5 + |payload|] == payload;
    assert d[..5] == ToBytes(len, 4) + [pad];
    assert d[..5 + |payload|] == d[..5] + d[5..5 + |payload|];
  }

  /** The payload goes in behind the room for the header. */
  method PutPayload(c: Cipher, payload: seq<byte>, zlib: bool) returns (writebuf: Buffer)
    requires Sized(c) && 0 < |payload| <= TRANS_MAX_PAYLOAD_LEN
    ensures fresh(writebuf) && fresh(writebuf.data) && writebuf.Valid()
    ensures writebuf.data.Length == EncryptBufSize(|payload|, c.blocksize, c.macsize, zlib)
    ensures writebuf.len == 5 + |payload| && writebuf.data[5..5 + |payload|] == payload
  {
    writebuf := new Buffer(EncryptBufSize(|payload|, c.blocksize, c.macsize, zlib));
    var ok := writebuf.SetLen(5);
    assert ok;
    ok := writebuf.SetPos(5);
    assert ok;
    ok := writebuf.PutBytes(payload);
    assert ok;
  }

  /** The length and the padding length go in front. */
  method PutHeader(writebuf: Buffer, payload: seq<byte>, pad: byte)
    requires writebuf.Valid() && writebuf.len == 5 + |payload| && writebuf.data[5..5 + |payload|] == payload
    requires |payload| <= TRANS_MAX_PAYLOAD_LEN
    modifies writebuf, writebuf.data
    ensures writebuf.Valid() && writebuf.data == old(writebuf.data) && writebuf.len == 5 + |payload|
    ensures writebuf.data[..5 + |payload|] == ToBytes(5 + |payload| + pad - 4, 4) + [pad] + payload
  {
    ghost var before := writebuf.data[..];
    var len: u32 := 5 + |payload| + pad - 4;
    HeaderLaidOut(writebuf.data.Length, payload, before, len, pad);
    var ok := writebuf.SetPos(0);
    assert writebuf.View() == Buf(before, 5 + |payload|, 0);
    ok := writebuf.PutInt(len);
    assert ok;
    ok := writebuf.PutByte(pad);
    assert ok;
  }

  /** genrandom fills the padding. */
  method PutPadding(writebuf: Buffer, noise: nat -> byte, pad: byte)
    requires writebuf.Valid() && writebuf.len + pad <= writebuf.data.Length
    modifies writebuf, writebuf.data
    ensures writebuf.Valid() && writebuf.data == old(writebuf.data) && writebuf.len == old(writebuf.len) + pad
    ensures writebuf.data[..writebuf.len] ==
            old(writebuf.data[..writebuf.len]) + seq(pad as nat, i requires 0 <= i => noise(i))
  {
    var at := writebuf.len;
    var ok := writebuf.SetPos(at);
    ok := writebuf.IncrLen(pad);
    assert ok;
    forall i | 0 <= i < pad as int {
      writebuf.data[at + i] := noise(i);
    }
  }

  /** Replace the bytes from the start, as an in-place cipher does. */
  method Overwrite(writebuf: Buffer, bytes: seq<byte>)
    requires writebuf.Valid() && |bytes| <= writebuf.data.Length
    modifies writebuf, writebuf.data
    ensures writebuf.Valid() && writebuf.data == old(writebuf.data)
    ensures writebuf.len == (if |bytes| <= old(writebuf.len) then old(writebuf.len) else |bytes|)
    ensures writebuf.data[..|bytes|] == bytes && writebuf.pos == |bytes|
  {
    var ok := writebuf.SetPos(0);
    ok := writebuf.PutBytes(bytes);
    assert ok;
  }

  /** The encryption of encrypt_packet, in place, and the MAC behind it. */
  method Seal(ctx: Context, seqno: u32, writebuf: Buffer) returns (state: State)
    requires writebuf.Valid() && Lawful(ctx.cipher) && writebuf.len + ctx.cipher.macsize <= writebuf.data.Length
    requires !ctx.cipher.aead ==> Blocks(ctx.cipher, writebuf.data[..writebuf.len])
    modifies writebuf, writebuf.data
    ensures writebuf.Valid() && writebuf.data == old(writebuf.data)
    ensures (writebuf.data[..writebuf.len], state) == SealedBytes(ctx, seqno, old(writebuf.data[..writebuf.len]))
  {
    var c, clear := ctx.cipher, writebuf.data[..writebuf.len];
    assert Law(c, ctx.state, seqno, clear, []);
    if c.aead {
      var sealed := c.seal(ctx.state, seqno, clear);
      Overwrite(writebuf, sealed.0);
      state := sealed.1;
    } else {
      var mac := c.mac(seqno, clear);
      var enc := c.encrypt(ctx.state, clear);
      Overwrite(writebuf, enc.0 + mac);
      state := enc.1;
    }
  }

  /** encrypt_packet, once the packet may be sent, in a build with or without zlib: the buffer for the write queue. */
  method EncryptPacket(ctx: Context, seqno: u32, p: Packet, zlib: bool) returns (writebuf: Buffer, state: State)
    requires Sending(ctx, p)
    ensures fresh(writebuf) && fresh(writebuf.data) && writebuf.Valid() && writebuf.pos == 0
    ensures (writebuf.data[..writebuf.len], state) == Encrypted(ctx, seqno, p)
  {
    var c, n := ctx.cipher, |p.payload|;
    PaddingIsRight(n, c.blocksize, c.macsize, c.aead);
    ClearShape(c, p);
    writebuf := PutPayload(c, p.payload, zlib);
    var pad: byte := PadLen(n, c.blocksize, c.aead);
    PutHeader(writebuf, p.payload, pad);
    PutPadding(writebuf, p.noise, pad);
    assert writebuf.data[..writebuf.len] == Clear(c, p);
    state := Seal(ctx, seqno, writebuf);
    var ok := writebuf.SetPos(0);
  }

  /** Reading on in a packet whose end is not passed. */
  lemma RestIs(r: Reader, chunk: seq<byte>)
    requires r.buf.Some? && |r.buf.value.bytes| + |chunk| <= r.buf.value.len
    ensures var bytes := r.buf.value.bytes + chunk;
            var t := r.(buf := Some(ReadBuf(bytes, Max(r.buf.value.len, |bytes|))));
            ReadRest(r, chunk) == if |bytes| == r.buf.value.len then DecryptPacket(t) else t
  {
  }

  /** read_packet in the first block: read_packet_init, and on if the block is complete. */
  lemma HeadIs(r: Reader, stream: seq<byte>, at: nat, m: nat, b: nat, s: Reader)
    requires at + m <= |stream| && |Held(r)| < r.ctx.cipher.blocksize && s == ReadInit(r, stream[at..at + m])
    ensures ReadHead(r, stream, at, m, b) ==
            if s.exit || |Held(r)| + m != r.ctx.cipher.blocksize then (s, at + m) else ReadBody(s, stream, at + m, b)
  {
    assert stream[at..at] == [] && Held(r) + [] == Held(r);
  }

  /** read_packet_init with the first block complete. */
  lemma InitIs(r: Reader, chunk: seq<byte>, block: seq<byte>)
    requires block == Held(r) + chunk && |block| == r.ctx.cipher.blocksize
    ensures var first := FirstBlock(r.ctx, r.seqno, block);
            ReadInit(r, chunk) == if first.None? || Refused(r.ctx.cipher, first.value.0, first.value.1) then r.(exit := true)
            else r.(buf := Some(ReadBuf(first.value.3, first.value.1)), ctx := r.ctx.(state := first.value.2))
  {
  }

  predicate Refused(c: Cipher, plen: nat, len: nat)
  {
    len > RECV_MAX_PACKET_LEN || plen < c.blocksize || c.blocksize == 0 || plen % c.blocksize != 0 || len < c.blocksize
  }

  const INIT_READBUF: u32 := 128

  /** The receiving side of the session: ses.readbuf, ses.recvseq and the receive keys. */
  class PacketReader {
    var ctx: Context
    var recvseq: u32
    var readbuf: Buffer?
    var delivered: seq<seq<byte>>
    var exit: bool

    ghost var model: Reader

    /** In the first block the buffer ends where reading stands; after it, at the packet's end. */
    ghost predicate Steady()
      reads this
    {
      model.buf.Some? ==>
        var r := model.buf.value;
        && |r.bytes| <= r.len <= RECV_MAX_PACKET_LEN
        && if r.len < model.ctx.cipher.blocksize then |r.bytes| == r.len else |r.bytes| >= model.ctx.cipher.blocksize
    }

    ghost predicate Matches()
      reads this
    {
      && Lawful(ctx.cipher)
      && model.ctx == ctx && model.seqno == recvseq && model.delivered == delivered && model.exit == exit
      && (readbuf == null <==> model.buf.None?)
    }

    /** The buffer holds what the model says, up to its position. */
    ghost predicate Holds(b: Buffer, r: ReadBuf)
      reads b, b.data
    {
      b.Valid() && b.data.Length >= INIT_READBUF && b.data[..b.pos] == r.bytes && b.len == r.len
    }

    /** The fields hold what the model says, until the process exits. */
    ghost predicate Valid()
      reads this, readbuf, if readbuf != null then {readbuf.data} else {}
    {
      model.exit == exit && (!exit ==> Matches() && (readbuf != null ==> Holds(readbuf, model.buf.value)))
    }

    constructor (ctx: Context)
      requires Lawful(ctx.cipher)
      ensures Valid() && model == Reader(ctx, 0, None, [], false)
    {
      this.ctx, recvseq, readbuf, delivered, exit := ctx, 0, null, [], false;
      model := Reader(ctx, 0, None, [], false);
    }

    /** A read into the buffer at its position. */
    method Take(chunk: seq<byte>)
      requires Valid() && !exit && readbuf != null && readbuf.pos + |chunk| <= readbuf.data.Length
      modifies this`model, readbuf, readbuf.data
      ensures Valid() && readbuf.data == old(readbuf.data)
      ensures var r := old(model).buf.value;
              model == old(model).(buf := Some(ReadBuf(r.bytes + chunk, Max(r.len, |r.bytes| + |chunk|))))
    {
      ghost var r := model.buf.value;
      var ok := readbuf.PutBytes(chunk);
      assert ok;
      assert readbuf.data[..readbuf.pos] == r.bytes + chunk;
      model := model.(buf := Some(ReadBuf(r.bytes + chunk, Max(r.len, |r.bytes| + |chunk|))));
    }

    /** The start of read_packet_init: allocate, and read towards a whole block. */
    method TakeFirst(chunk: seq<byte>)
      requires Valid() && !exit && InFirstBlock(model) && |Held(model)| + |chunk| <= ctx.cipher.blocksize
      requires readbuf != null ==> readbuf.pos == readbuf.len
      modifies this`readbuf, this`model, readbuf, if readbuf != null then {readbuf.data} else {}
      ensures Valid() && readbuf != null && readbuf.pos == readbuf.len
      ensures readbuf == old(readbuf) || fresh(readbuf)
      ensures fresh(readbuf.data) || (readbuf == old(readbuf) && readbuf.data == old(readbuf.data))
      ensures var bytes := Held(old(model)) + chunk;
              model == old(model).(buf := Some(ReadBuf(bytes, |bytes|)))
    {
      if readbuf == null {
        readbuf := new Buffer(INIT_READBUF);
        model := model.(buf := Some(ReadBuf([], 0)));
      }
      Take(chunk);
    }

    /** Without AEAD: decrypt the first block in place and read the length from it. */
    method DecryptBlock(block: seq<byte>) returns (plen: u32)
      requires Lawful(ctx.cipher) && !ctx.cipher.aead && Blocks(ctx.cipher, block) && |block| >= 4
      requires readbuf != null && readbuf.Valid() && readbuf.len == |block|
      modifies this`ctx, readbuf, readbuf.data
      ensures readbuf.Valid() && readbuf.data == old(readbuf.data) && readbuf.len == |block|
      ensures var d := ctx.cipher.decrypt(old(ctx).state, block);
              && |d.0| == |block| && readbuf.data[..|block|] == d.0 && ctx == old(ctx).(state := d.1)
              && plen == U32(FromBytes(d.0[..4]) + 4)
    {
      var d := ctx.cipher.decrypt(ctx.state, block);
      assert Law(ctx.cipher, ctx.state, 0, block, []);
      Overwrite(readbuf, d.0);
      ctx := ctx.(state := d.1);
      var ok := readbuf.SetPos(0);
      assert readbuf.data[..|block|] == d.0;
      assert readbuf.View().data[0..4] == readbuf.data[..|block|][..4];
      var n;
      ok, n := readbuf.GetInt();
      plen := (n as int + 4) % 0x1_0000_0000;
    }

    /** The first block is there: find the length; false where the code exits. */
    method DecryptFirst() returns (found: bool, plen: u32, len: u32)
      requires Valid() && !exit && readbuf != null && readbuf.pos == readbuf.len == ctx.cipher.blocksize
      modifies this`ctx, readbuf, readbuf.data
      ensures readbuf.Valid() && readbuf.data == old(readbuf.data) && readbuf.len == old(readbuf.len)
      ensures var first := FirstBlock(old(ctx), recvseq, old(Held(model)));
              && found == first.Some?
              && (found ==>
                    && (plen, len) == (first.value.0, first.value.1)
                    && readbuf.data[..readbuf.len] == first.value.3
                    && ctx == old(ctx).(state := first.value.2))
    {
      var c, block := ctx.cipher, readbuf.data[..readbuf.pos];
      if c.aead {
        var p := c.sealedLength(ctx.state, recvseq, block);
        if p.None? {
          return false, 0, 0;
        }
        return true, p.value % 0x1_0000_0000, (p.value + 4 + c.macsize) % 0x1_0000_0000;
      }
      plen := DecryptBlock(block);
      return true, plen, (plen as int + c.macsize) % 0x1_0000_0000;
    }

    /** The end of read_packet_init: room for the whole packet, positioned after the first block. */
    method MakeRoom(len: u32)
      requires readbuf != null && readbuf.Valid() && readbuf.data.Length >= INIT_READBUF
      requires readbuf.len == ctx.cipher.blocksize <= len <= RECV_MAX_PACKET_LEN
      modifies readbuf
      ensures readbuf.Valid() && readbuf.data.Length >= INIT_READBUF
      ensures readbuf.len == len && readbuf.pos == ctx.cipher.blocksize
      ensures readbuf.data == old(readbuf.data) || fresh(readbuf.data)
      ensures readbuf.data[..readbuf.pos] == old(readbuf.data[..readbuf.len])
    {
      var ok;
      if len > readbuf.data.Length {
        ok := readbuf.Resize(len);
      }
      ok := readbuf.SetLen(len);
      ok := readbuf.SetPos(ctx.cipher.blocksize);
    }

    /** The rest of read_packet_init, once the first block is there. */
    method CheckLength() returns (done: bool)
      requires Valid() && !exit && readbuf != null && readbuf.pos == readbuf.len == ctx.cipher.blocksize
      modifies this, readbuf, readbuf.data
      ensures Valid() && done == !exit && readbuf == old(readbuf)
      ensures readbuf.data == old(readbuf.data) || fresh(readbuf.data)
      ensures var m := old(model);
              var first := FirstBlock(m.ctx, m.seqno, Held(m));
              if first.None? || Refused(m.ctx.cipher, first.value.0, first.value.1) then model == m.(exit := true)
              else
                && |first.value.3| == m.ctx.cipher.blocksize
                && model == m.(buf := Some(ReadBuf(first.value.3, first.value.1)),
                               ctx := m.ctx.(state := first.value.2))
    {
      var found, plen, len := DecryptFirst();
      var blocksize := ctx.cipher.blocksize;
      if !found || len > RECV_MAX_PACKET_LEN || plen < blocksize || plen % blocksize != 0 || len < blocksize {
        exit := true;
        model := model.(exit := true);
        return false;
      }
      MakeRoom(len);
      model := model.(buf := Some(ReadBuf(readbuf.data[..readbuf.pos], len)), ctx := ctx);
      return true;
    }

    /** read_packet_init. */
    method ReadPacketInit(chunk: seq<byte>) returns (done: bool)
      requires Valid() && Steady() && !exit
      requires InFirstBlock(model) && |Held(model)| + |chunk| <= ctx.cipher.blocksize
      modifies this, readbuf, if readbuf != null then {readbuf.data} else {}
      ensures Valid() && model == ReadInit(old(model), chunk) && (!exit ==> Steady())
      ensures done <==> !exit && |Held(old(model))| + |chunk| == ctx.cipher.blocksize
      ensures readbuf != null
      ensures readbuf == old(readbuf) || fresh(readbuf)
      ensures fresh(readbuf.data) || (readbuf == old(readbuf) && readbuf.data == old(readbuf.data))
    {
      ghost var was := model;
      TakeFirst(chunk);
      if readbuf.pos != ctx.cipher.blocksize {
        return false;
      }
      InitIs(was, chunk, Held(model));
      done := CheckLength();
      if !done {
        model := was.(exit := true);
      }
    }

    /** The decryption of decrypt_packet, in place, with the MAC check. */
    method OpenPacket() returns (authentic: bool, size: nat, state: State)
      requires Valid() && !exit && readbuf != null && readbuf.pos == readbuf.len
      modifies readbuf, readbuf.data
      ensures readbuf.Valid() && readbuf.data == old(readbuf.data)
      ensures var (clear, after) := Opened(ctx, recvseq, old(Held(model)));
              && authentic == clear.Some?
              && (authentic ==>
                    && state == after && size == |clear.value| && size + ctx.cipher.macsize == |old(Held(model))|
                    && size <= readbuf.data.Length && readbuf.data[..size] == clear.value)
    {
      var c, bytes := ctx.cipher, readbuf.data[..readbuf.len];
      if |bytes| < c.macsize {
        return false, 0, ctx.state;
      }
      if c.aead {
        var r := c.unseal(ctx.state, recvseq, bytes);
        assert Law(c, ctx.state, recvseq, [], bytes);
        if r.0.None? {
          return false, 0, r.1;
        }
        Overwrite(readbuf, r.0.value);
        return true, |r.0.value|, r.1;
      }
      if |bytes| < c.blocksize + c.macsize {
        return false, 0, ctx.state;
      }
      var end := |bytes| - c.macsize;
      var d := c.decrypt(ctx.state, bytes[c.blocksize..end]);
      var clear := bytes[..c.blocksize] + d.0;
      assert Law(c, ctx.state, 0, bytes[c.blocksize..end], []);
      assert Law(c, ctx.state, recvseq, clear, []);
      Overwrite(readbuf, clear);
      return c.mac(recvseq, clear) == bytes[end..], end, d.1;
    }

    /** decrypt_packet. */
    method DecryptWhole()
      requires Valid() && !exit && readbuf != null && readbuf.pos == readbuf.len
      modifies this, readbuf, readbuf.data
      ensures Valid() && model == DecryptPacket(old(model)) && (!exit ==> readbuf == null)
    {
      ghost var was := model;
      var macsize, total := ctx.cipher.macsize, readbuf.len;
      ghost var clearing := Opened(was.ctx, was.seqno, Held(was));
      var authentic, size, state := OpenPacket();
      assert authentic == clearing.0.Some? && (authentic ==> size == |clearing.0.value| && state == clearing.1);
      if !authentic || size < 5 {
        exit := true;
        model := DecryptPacket(was);
        return;
      }
      var clear := readbuf.data[..size];
      var padlen := clear[4];
      var len := (total as int - padlen as int - 4 - 1 - macsize) % 0x1_0000_0000;
      if len > RECV_MAX_PAYLOAD_LEN + ZLIB_COMPRESS_EXPANSION || len < 1 || 5 + len > size {
        exit := true;
        model := DecryptPacket(was);
        return;
      }
      delivered := delivered + [clear[5..5 + len]];
      readbuf := null;
      recvseq := (recvseq as int + 1) % 0x1_0000_0000;
      ctx := ctx.(state := state);
      model := DecryptPacket(was);
    }

    /** The second half of read_packet: read on, and decrypt when the packet is complete. */
    method ReadOn(stream: seq<byte>, at: nat, b: nat) returns (next: nat)
      requires Valid() && Steady() && !exit && readbuf != null && !InFirstBlock(model) && at <= |stream|
      modifies this, readbuf, readbuf.data
      ensures Valid() && (model, next) == ReadBody(old(model), stream, at, b) && (!exit ==> Steady())
    {
      next := at;
      var maxlen := readbuf.len - readbuf.pos;
      if maxlen == 0 {
        DecryptWhole();
        return;
      }
      var len := Got(maxlen, |stream| - at, b);
      if len == 0 {
        return;
      }
      ghost var body, rest := ReadBody(model, stream, at, b), ReadRest(model, stream[at..at + len]);
      assert body == (rest, at + len);
      RestIs(model, stream[at..at + len]);
      Take(stream[at..at + len]);
      next := at + len;
      assert rest == if len == maxlen then DecryptPacket(model) else model;
      if len == maxlen {
        DecryptWhole();
      }
    }

    /** read_packet in the first block of a packet. */
    method ReadFromStart(stream: seq<byte>, at: nat, len: nat, b: nat) returns (next: nat)
      requires Valid() && Steady() && !exit && at + len <= |stream|
      requires InFirstBlock(model) && |Held(model)| + len <= ctx.cipher.blocksize
      modifies this, readbuf, if readbuf != null then {readbuf.data} else {}
      ensures Valid() && (model, next) == ReadHead(old(model), stream, at, len, b) && (!exit ==> Steady())
    {
      ghost var s, head := ReadInit(model, stream[at..at + len]), ReadHead(model, stream, at, len, b);
      HeadIs(model, stream, at, len, b, s);
      var done := ReadPacketInit(stream[at..at + len]);
      next := at + len;
      assert model == s && head == if done then ReadBody(s, stream, next, b) else (s, next);
      if done {
        next := ReadOn(stream, next, b);
      }
    }

    /** read_packet. */
    method ReadPacketOnce(stream: seq<byte>, at: nat, a: nat, b: nat) returns (next: nat)
      requires Valid() && Steady() && !exit && at <= |stream|
      modifies this, readbuf, if readbuf != null then {readbuf.data} else {}
      ensures Valid() && (model, next) == ReadPacket(old(model), stream, at, a, b) && (!exit ==> Steady())
    {
      if readbuf == null || readbuf.len < ctx.cipher.blocksize {
        var maxlen := ctx.cipher.blocksize - (if readbuf == null then 0 else readbuf.pos);
        assert InFirstBlock(model) && maxlen == Wanted(model);
        next := ReadFromStart(stream, at, Got(maxlen, |stream| - at, a), b);
      } else {
        next := ReadOn(stream, at, b);
      }
    }
  }
}
