/** One packet, from encrypt_packet to decrypt_packet: the reader finds what the sender put. */
module PacketLaws {
  import opened Options
  import opened Radix
  import opened Field
  import opened Buffers
  import opened Framing

  ghost predicate Sendable(p: Packet)
  {
    0 < |p.payload| <= TRANS_MAX_PAYLOAD_LEN && (p.rekey.Some? ==> Lawful(p.rekey.value.cipher))
  }

  ghost predicate Sending(ctx: Context, p: Packet) { Lawful(ctx.cipher) && Sendable(p) }

  /** The packet on the wire. */
  ghost function Frame(ctx: Context, seqno: nat, p: Packet): seq<byte>
    requires Sending(ctx, p)
  {
    Encrypted(ctx, seqno, p).0
  }

  /** The context after it, unless it brings a new one into use. */
  ghost function NextContext(ctx: Context, seqno: nat, p: Packet): (c: Context)
    requires Sending(ctx, p)
    ensures Lawful(c.cipher)
  {
    if p.rekey.Some? then p.rekey.value else ctx.(state := Encrypted(ctx, seqno, p).1)
  }

  lemma ClearShape(c: Cipher, p: Packet)
    requires Sized(c) && 0 < |p.payload| <= TRANS_MAX_PAYLOAD_LEN
    ensures var clear := Clear(c, p);
            var pad := PadLen(|p.payload|, c.blocksize, c.aead);
            && |clear| == 5 + |p.payload| + pad
            && FromBytes(clear[..4]) == |clear| - 4
            && clear[4] as int == pad
            && clear[5..5 + |p.payload|] == p.payload
            && 4 <= pad <= 255
            && (if c.aead then |clear| - 4 else |clear|) % c.blocksize == 0
            && (if c.aead then |clear| - 4 else |clear|) >= c.blocksize
  {
    var pad := PadLen(|p.payload|, c.blocksize, c.aead);
    PaddingIsRight(|p.payload|, c.blocksize, c.macsize, c.aead);
    Pow256();
    ToBytesValue(|p.payload| + 5 + pad - 4, 4);
    assert Clear(c, p)[..4] == ToBytes(|p.payload| + 5 + pad - 4, 4);
  }

  /** What read_packet_init leaves of the first block, and the cipher state after it. */
  ghost function Start(ctx: Context, seqno: nat, p: Packet): (r: (State, seq<byte>))
    requires Sending(ctx, p) && ctx.cipher.blocksize <= |Frame(ctx, seqno, p)|
  {
    var c, f := ctx.cipher, Frame(ctx, seqno, p);
    if c.aead then (ctx.state, f[..c.blocksize])
    else
      ClearShape(c, p);
      (c.decrypt(ctx.state, f[..c.blocksize]).1, Clear(c, p)[..c.blocksize])
  }

  /** Cutting the first block off leaves whole blocks. */
  lemma BlocksSplit(n: int, b: int)
    requires b > 0 && n >= b && n % b == 0
    ensures (n - b) % b == 0 && b % b == 0
  {
    ModShift(n, -1, b);
    ModShift(0, 1, b);
  }

  /** Without AEAD: decrypting the first block, then the rest, gives the packet in the clear. */
  lemma TwoPieces(ctx: Context, seqno: nat, p: Packet)
    requires Sending(ctx, p) && !ctx.cipher.aead
    ensures var c, clear := ctx.cipher, Clear(ctx.cipher, p);
            var e := c.encrypt(ctx.state, clear);
            && |e.0| == |clear| >= c.blocksize
            && c.decrypt(ctx.state, e.0[..c.blocksize]).0 == clear[..c.blocksize]
            && c.decrypt(c.decrypt(ctx.state, e.0[..c.blocksize]).1, e.0[c.blocksize..]) == (clear[c.blocksize..], e.1)
  {
    var c, clear := ctx.cipher, Clear(ctx.cipher, p);
    ClearShape(c, p);
    var e := c.encrypt(ctx.state, clear);
    assert Law(c, ctx.state, seqno, clear, []);
    BlocksSplit(|clear|, c.blocksize);
    var x, y := e.0[..c.blocksize], e.0[c.blocksize..];
    assert Blocks(c, x) && Blocks(c, y) && x + y == e.0;
    var d1, d2 := c.decrypt(ctx.state, x), c.decrypt(c.decrypt(ctx.state, x).1, y);
    assert Law(c, ctx.state, seqno, x, y) && Law(c, d1.1, seqno, y, []);
    assert d1.0 + d2.0 == clear;
    assert (d1.0 + d2.0)[..c.blocksize] == d1.0 && (d1.0 + d2.0)[c.blocksize..] == d2.0;
  }

  /** The frame is at least a block and within what the receiver allows. */
  lemma FrameShape(ctx: Context, seqno: nat, p: Packet)
    requires Sending(ctx, p)
    ensures |Frame(ctx, seqno, p)| == |Clear(ctx.cipher, p)| + ctx.cipher.macsize
    ensures ctx.cipher.blocksize <= |Frame(ctx, seqno, p)| <= RECV_MAX_PACKET_LEN
    ensures |Clear(ctx.cipher, p)| >= ctx.cipher.blocksize
  {
    ClearShape(ctx.cipher, p);
    assert Law(ctx.cipher, ctx.state, seqno, Clear(ctx.cipher, p), []);
  }

  /** Without AEAD the frame is the encrypted packet and the MAC. */
  lemma PlainFrame(ctx: Context, seqno: nat, p: Packet)
    requires Sending(ctx, p) && !ctx.cipher.aead
    ensures var c, f, clear := ctx.cipher, Frame(ctx, seqno, p), Clear(ctx.cipher, p);
            var e, b := c.encrypt(ctx.state, clear), c.blocksize;
            && |e.0| == |clear| >= b && |c.mac(seqno, clear)| == c.macsize
            && f[..b] == e.0[..b] && f[b..] == e.0[b..] + c.mac(seqno, clear)
            && Start(ctx, seqno, p) == (c.decrypt(ctx.state, e.0[..b]).1, clear[..b])
  {
    TwoPieces(ctx, seqno, p);
    FrameShape(ctx, seqno, p);
    assert Law(ctx.cipher, ctx.state, seqno, Clear(ctx.cipher, p), []);
  }

  /** The length in the first four bytes is found in the first block. */
  lemma LengthInBlock(c: Cipher, p: Packet)
    requires Sized(c) && 0 < |p.payload| <= TRANS_MAX_PAYLOAD_LEN
    ensures |Clear(c, p)| >= c.blocksize
    ensures FromBytes(Clear(c, p)[..c.blocksize][..4]) == |Clear(c, p)| - 4
  {
    ClearShape(c, p);
    assert Clear(c, p)[..c.blocksize][..4] == Clear(c, p)[..4];
  }

  /** Reading the length from a decrypted block. */
  lemma LengthRead(ctx: Context, seqno: nat, block: seq<byte>, clear: seq<byte>, state: State, n: nat)
    requires !ctx.cipher.aead && ctx.cipher.decrypt(ctx.state, block) == (clear, state)
    requires |clear| >= 4 && FromBytes(clear[..4]) == n - 4 && n + ctx.cipher.macsize < 0x1_0000_0000
    ensures FirstBlock(ctx, seqno, block) == Some((n, n + ctx.cipher.macsize, state, clear))
  {
  }

  lemma FirstPlain(ctx: Context, seqno: nat, p: Packet)
    requires Sending(ctx, p) && !ctx.cipher.aead
    ensures ctx.cipher.blocksize <= |Frame(ctx, seqno, p)|
    ensures var c, f := ctx.cipher, Frame(ctx, seqno, p);
            FirstBlock(ctx, seqno, f[..c.blocksize]) ==
            Some((|Clear(c, p)|, |f|, Start(ctx, seqno, p).0, Start(ctx, seqno, p).1))
  {
    var c, f, clear := ctx.cipher, Frame(ctx, seqno, p), Clear(ctx.cipher, p);
    FrameShape(ctx, seqno, p);
    LengthInBlock(c, p);
    var block := f[..c.blocksize];
    var d := c.decrypt(ctx.state, block);
    assert d.0 == clear[..c.blocksize] && d.1 == Start(ctx, seqno, p).0 by {
      PlainFrame(ctx, seqno, p);
      TwoPieces(ctx, seqno, p);
    }
    LengthRead(ctx, seqno, block, d.0, d.1, |clear|);
  }

  lemma FirstSealed(ctx: Context, seqno: nat, p: Packet)
    requires Sending(ctx, p) && ctx.cipher.aead
    ensures ctx.cipher.blocksize <= |Frame(ctx, seqno, p)|
    ensures var c, f := ctx.cipher, Frame(ctx, seqno, p);
            FirstBlock(ctx, seqno, f[..c.blocksize]) ==
            Some((|Clear(c, p)| - 4, |f|, Start(ctx, seqno, p).0, Start(ctx, seqno, p).1))
  {
    var c, f, clear := ctx.cipher, Frame(ctx, seqno, p), Clear(ctx.cipher, p);
    FrameShape(ctx, seqno, p);
    ClearShape(c, p);
    assert Law(c, ctx.state, seqno, clear, []);
    var plen := FromBytes(clear[..4]);
    assert plen == |clear| - 4 && U32(plen) == plen && U32(plen + 4 + c.macsize) == |f|;
  }

  /** read_packet_init finds the length of the whole frame and its checks pass. */
  lemma FirstBlockFound(ctx: Context, seqno: nat, p: Packet)
    requires Sending(ctx, p)
    ensures ctx.cipher.blocksize <= |Frame(ctx, seqno, p)|
    ensures var c, f := ctx.cipher, Frame(ctx, seqno, p);
            var plen := if c.aead then |Clear(c, p)| - 4 else |Clear(c, p)|;
            && FirstBlock(ctx, seqno, f[..c.blocksize]) ==
               Some((plen, |f|, Start(ctx, seqno, p).0, Start(ctx, seqno, p).1))
            && plen >= c.blocksize && plen % c.blocksize == 0
  {
    ClearShape(ctx.cipher, p);
    if ctx.cipher.aead {
      FirstSealed(ctx, seqno, p);
    } else {
      FirstPlain(ctx, seqno, p);
    }
  }

  /** The pieces of a full readbuf: the first block, the rest of the packet, the MAC. */
  lemma Pieces(block: seq<byte>, rest: seq<byte>, mac: seq<byte>)
    ensures var bytes, end := block + (rest + mac), |block| + |rest|;
            bytes[..|block|] == block && bytes[|block|..end] == rest && bytes[end..] == mac
  {
  }

  /** decrypt_packet recovers the packet in the clear and its MAC check passes. */
  lemma OpenedWhole(ctx: Context, seqno: nat, p: Packet)
    requires Sending(ctx, p) && ctx.cipher.blocksize <= |Frame(ctx, seqno, p)|
    ensures var c, f := ctx.cipher, Frame(ctx, seqno, p);
            Opened(ctx.(state := Start(ctx, seqno, p).0), seqno, Start(ctx, seqno, p).1 + f[c.blocksize..]) ==
            (Some(Clear(c, p)), Encrypted(ctx, seqno, p).1)
  {
    var c, f, clear := ctx.cipher, Frame(ctx, seqno, p), Clear(ctx.cipher, p);
    if c.aead {
      assert Law(c, ctx.state, seqno, clear, []);
      FrameShape(ctx, seqno, p);
      assert f[..c.blocksize] + f[c.blocksize..] == f;
    } else {
      PlainFrame(ctx, seqno, p);
      TwoPieces(ctx, seqno, p);
      Pieces(clear[..c.blocksize], c.encrypt(ctx.state, clear).0[c.blocksize..], c.mac(seqno, clear));
      assert clear[..c.blocksize] + clear[c.blocksize..] == clear;
    }
  }
}
