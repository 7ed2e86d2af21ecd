/**
 * The length sums of read_packet_init are unsigned and can wrap for a length no sender would
 * send. A packet whose sum has wrapped may pass the checks there, and is then refused by
 * decrypt_packet: it never delivers anything.
 */
module HostileLengths {
  import opened Options
  import opened Radix
  import opened Field
  import opened Buffers
  import opened Framing

  /** Past its first block, with too short a length to hold a payload. */
  predicate Doomed(r: Reader)
  {
    && !r.exit && r.buf.Some?
    && r.ctx.cipher.blocksize <= |r.buf.value.bytes| <= r.buf.value.len < r.ctx.cipher.macsize + 5
  }

  /** The sum that read_packet_init forms does not fit in 32 bits. */
  predicate Wraps(c: Cipher, plen: nat)
  {
    plen + c.macsize + (if c.aead then 4 else 0) >= 0x1_0000_0000
  }

  /**
   * Which lengths read_packet_init lets through, n being the length field of the block as
   * decrypted: packets of whole blocks, at least one and at most 35000 bytes with their MAC.
   */
  lemma LengthsAccepted(r: Reader, chunk: seq<byte>, clear: seq<byte>, n: nat)
    requires !r.ctx.cipher.aead && r.ctx.cipher.blocksize > 0 && |Held(r)| + |chunk| == r.ctx.cipher.blocksize && !r.exit
    requires clear == r.ctx.cipher.decrypt(r.ctx.state, Held(r) + chunk).0 && |clear| >= 4 && n == FromBytes(clear[..4])
    requires n + 4 + r.ctx.cipher.macsize < 0x1_0000_0000
    ensures var b, total := r.ctx.cipher.blocksize, n + 4 + r.ctx.cipher.macsize;
            ReadInit(r, chunk).exit <==> total > 35000 || n + 4 < b || (n + 4) % b != 0
  {
  }

  /** The same for an AEAD mode, where the length field itself is not counted in the blocks. */
  lemma SealedLengthsAccepted(r: Reader, chunk: seq<byte>, n: nat)
    requires r.ctx.cipher.aead && r.ctx.cipher.blocksize > 0 && |Held(r)| + |chunk| == r.ctx.cipher.blocksize && !r.exit
    requires r.ctx.cipher.sealedLength(r.ctx.state, r.seqno, Held(r) + chunk) == Some(n)
    requires n + 4 + r.ctx.cipher.macsize < 0x1_0000_0000
    ensures var b, total := r.ctx.cipher.blocksize, n + 4 + r.ctx.cipher.macsize;
            ReadInit(r, chunk).exit <==> total > 35000 || n < b || n % b != 0
  {
  }

  /** A wrapped sum is less than the MAC and a length field. */
  lemma WrappedIsShort(plen: int, more: int, mac: int)
    requires 0 <= plen < 0x1_0000_0000 && 0 <= more <= 4 && 0 <= mac <= 64 && plen + more + mac >= 0x1_0000_0000
    ensures U32(plen + more + mac) == plen + more + mac - 0x1_0000_0000 < mac + 4
  {
  }

  lemma SumMod(v: nat, k: nat)
    ensures U32(U32(v) + k) == U32(v + k)
  {
    ModShift(U32(v) + k, v / 0x1_0000_0000, 0x1_0000_0000);
  }

  /** What read_packet_init makes of a first block whose sum wraps: an exit, or a packet that is doomed. */
  lemma WrapIsDoomed(r: Reader, chunk: seq<byte>)
    requires Lawful(r.ctx.cipher) && !r.exit && InFirstBlock(r)
    requires |Held(r)| + |chunk| == r.ctx.cipher.blocksize
    requires var first := FirstBlock(r.ctx, r.seqno, Held(r) + chunk);
             first.Some? && Wraps(r.ctx.cipher, first.value.0)
    ensures var s := ReadInit(r, chunk); (s.exit || Doomed(s)) && s.delivered == r.delivered
  {
    var c, block := r.ctx.cipher, Held(r) + chunk;
    var (plen, len, state, clear) := FirstBlock(r.ctx, r.seqno, block).value;
    assert Law(c, r.ctx.state, 0, block, []);
    if c.aead {
      var v := c.sealedLength(r.ctx.state, r.seqno, block).value;
      SumMod(v, 4 + c.macsize);
      WrappedIsShort(plen, 4, c.macsize);
    } else {
      WrappedIsShort(plen, 0, c.macsize);
    }
  }

  /** decrypt_packet refuses a packet that is doomed. */
  lemma DoomedIsRefused(r: Reader)
    requires Lawful(r.ctx.cipher) && Doomed(r)
    ensures DecryptPacket(r).exit && DecryptPacket(r).delivered == r.delivered
  {
    var c := r.ctx.cipher;
    assert Law(c, r.ctx.state, r.seqno, [], Held(r));
  }

  lemma DoomedStays(r: Reader, stream: seq<byte>, at: nat, a: nat, b: nat)
    requires Lawful(r.ctx.cipher) && Doomed(r) && at <= |stream|
    ensures var (s, next) := ReadPacket(r, stream, at, a, b);
            at <= next <= |stream| && s.delivered == r.delivered && (s.exit || (Doomed(s) && s.ctx == r.ctx))
  {
    if Wanted(r) == 0 {
      DoomedIsRefused(r);
    } else {
      var m := Got(Wanted(r), |stream| - at, b);
      var t := r.(buf := Some(r.buf.value.(bytes := r.buf.value.bytes + stream[at..at + m])));
      if |t.buf.value.bytes| == t.buf.value.len { DoomedIsRefused(t); }
    }
  }

  /** Any number of calls of read_packet, each pair saying what its two reads return. */
  function Reads(r: Reader, stream: seq<byte>, at: nat, rs: seq<(nat, nat)>): Reader
    requires at <= |stream|
    decreases |rs|
  {
    if rs == [] || r.exit then r
    else
      var (s, next) := ReadPacket(r, stream, at, rs[0].0, rs[0].1);
      if next <= |stream| then Reads(s, stream, next, rs[1..]) else s
  }

  lemma {:induction false} DoomedNeverDelivers(r: Reader, stream: seq<byte>, at: nat, rs: seq<(nat, nat)>)
    requires Lawful(r.ctx.cipher) && Doomed(r) && at <= |stream|
    ensures Reads(r, stream, at, rs).delivered == r.delivered
    decreases |rs|
  {
    if rs != [] {
      var (s, next) := ReadPacket(r, stream, at, rs[0].0, rs[0].1);
      DoomedStays(r, stream, at, rs[0].0, rs[0].1);
      if !s.exit { DoomedNeverDelivers(s, stream, next, rs[1..]); }
    }
  }

  /** After a length sum that wraps nothing more is ever delivered, however the stream goes on. */
  lemma WrappedNeverDelivers(r: Reader, chunk: seq<byte>, stream: seq<byte>, at: nat, rs: seq<(nat, nat)>)
    requires Lawful(r.ctx.cipher) && !r.exit && InFirstBlock(r) && at <= |stream|
    requires |Held(r)| + |chunk| == r.ctx.cipher.blocksize
    requires var first := FirstBlock(r.ctx, r.seqno, Held(r) + chunk);
             first.Some? && Wraps(r.ctx.cipher, first.value.0)
    ensures Reads(ReadInit(r, chunk), stream, at, rs).delivered == r.delivered
  {
    WrapIsDoomed(r, chunk);
    var s := ReadInit(r, chunk);
    if !s.exit {
      DoomedNeverDelivers(s, stream, at, rs);
    }
  }

  /** A cipher that leaves bytes as they are, with a MAC of 32 zeros. */
  function Bare(): Cipher
  {
    NoCipher().(macsize := 32, mac := (n, x) => seq(32, i => 0))
  }

  /**
   * Such a packet can pass every check of read_packet_init: in blocks of eight bytes with a MAC
   * of 32, a length field of 2^32 - 12 gives a sum of 24.
   */
  lemma PassesTheFirstChecks(state: State, seqno: nat)
    ensures var r := Reader(Context(Bare(), state), seqno, None, [], false);
            var block: seq<byte> := [255, 255, 255, 244, 0, 0, 0, 0];
            && Lawful(Bare()) && FirstBlock(r.ctx, seqno, block) == Some((0xFFFF_FFF8, 24, state, block))
            && Wraps(Bare(), 0xFFFF_FFF8)
            && ReadInit(r, block) == r.(buf := Some(ReadBuf(block, 24))) && Doomed(ReadInit(r, block))
  {
    var block: seq<byte> := [255, 255, 255, 244, 0, 0, 0, 0];
    var four := block[..4];
    assert four[..3] == [255, 255, 255] && four[..3][..2] == [255, 255] && four[..3][..2][..1] == [255];
    assert FromBytes([255]) == 255 by { assert [255 as byte][..0] == []; }
    assert FromBytes(four[..3][..2]) == 65535 && FromBytes(four[..3]) == 16777215 && FromBytes(four) == 0xFFFF_FFF4;
    assert [] + block == block;
  }
}
