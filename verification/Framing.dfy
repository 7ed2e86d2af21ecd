/**
 * The binary packet protocol of packet.c on values: what encrypt_packet puts on the wire, and
 * the reader that takes it off again in whatever pieces read gives it.
 */
module Framing {
  import opened Options
  import opened Radix
  import opened Field
  import opened Buffers

  const MIN_PACKET_LEN: int := 16
  const RECV_MAX_PAYLOAD_LEN: int := 32768
  const TRANS_MAX_PAYLOAD_LEN: int := 16384
  const RECV_MAX_PACKET_LEN: int := 35000
  const ZLIB_COMPRESS_EXPANSION: int := (RECV_MAX_PAYLOAD_LEN / 16384 + 1) * 5 + 6

  /** The running state of a cipher, as bytes. */
  type State = seq<byte>

  /** A cipher and MAC with their keys. */
  datatype Cipher = Cipher(
    blocksize: nat,
    macsize: nat,
    aead: bool,
    encrypt: (State, seq<byte>) -> (seq<byte>, State),
    decrypt: (State, seq<byte>) -> (seq<byte>, State),
    mac: (nat, seq<byte>) -> seq<byte>,
    seal: (State, nat, seq<byte>) -> (seq<byte>, State),
    unseal: (State, nat, seq<byte>) -> (Option<seq<byte>>, State),
    sealedLength: (State, nat, seq<byte>) -> Option<nat>)

  /** One direction of the key context. */
  datatype Context = Context(cipher: Cipher, state: State)

  predicate Sized(c: Cipher) { (c.blocksize == 8 || 16 <= c.blocksize <= 64) && c.macsize <= 64 }

  ghost predicate Blocks(c: Cipher, x: seq<byte>) { c.blocksize > 0 && |x| % c.blocksize == 0 }

  /**
   * What is asked of a cipher at one point. Without AEAD: decryption undoes encryption, and
   * decrypting in two pieces is decrypting at once. With it: unsealing undoes sealing, and the
   * first block alone gives the length.
   */
  ghost predicate Law(c: Cipher, k: State, n: nat, x: seq<byte>, y: seq<byte>)
  {
    if c.aead then
      && |c.seal(k, n, x).0| == |x| + c.macsize
      && c.unseal(k, n, c.seal(k, n, x).0) == (Some(x), c.seal(k, n, x).1)
      && (|x| >= c.blocksize >= 4 ==> c.sealedLength(k, n, c.seal(k, n, x).0[..c.blocksize]) == Some(FromBytes(x[..4])))
      && (c.unseal(k, n, y).0.Some? ==> |c.unseal(k, n, y).0.value| + c.macsize == |y|)
    else
      && |c.encrypt(k, x).0| == |x| && |c.decrypt(k, x).0| == |x| && |c.mac(n, x)| == c.macsize
      && (Blocks(c, x) ==> c.decrypt(k, c.encrypt(k, x).0) == (x, c.encrypt(k, x).1))
      && (Blocks(c, x) && Blocks(c, y) ==>
            var d := c.decrypt(k, x);
            var e := c.decrypt(d.1, y);
            c.decrypt(k, x + y) == (d.0 + e.0, e.1))
  }

  ghost predicate Lawful(c: Cipher)
  {
    Sized(c) && forall k, n, x, y :: Law(c, k, n, x, y)
  }

  /** The cipher a connection starts with: void_cipher, block size 8, no MAC. */
  function NoCipher(): Cipher
  {
    Cipher(8, 0, false, (k, x) => (x, k), (k, x) => (x, k), (n, x) => [],
           (k, n, x) => (x, k), (k, n, x) => (Some(x), k), (k, n, x) => None)
  }

  lemma NoCipherIsLawful()
    ensures Lawful(NoCipher())
  {
  }

  /** An AEAD cipher that leaves bytes as they are and adds a tag of 16 zeros. */
  function NoSeal(): Cipher
  {
    Cipher(8, 16, true, (k, x) => (x, k), (k, x) => (x, k), (n, x) => [],
           (k, n, x) => (x + Tag(), k),
           (k, n, x) => (if |x| >= 16 && x[|x| - 16..] == Tag() then Some(x[..|x| - 16]) else None, k),
           (k, n, x) => if |x| >= 4 then Some(FromBytes(x[..4])) else None)
  }

  function Tag(): seq<byte> { seq(16, i => 0) }

  /** So neither half of the law is empty. */
  lemma NoSealIsLawful()
    ensures Lawful(NoSeal()) && NoSeal().aead
  {
    var c := NoSeal();
    forall k, n, x, y ensures Law(c, k, n, x, y) {
      SealedApart(x, Tag());
      assert |x| >= 8 ==> (x + Tag())[..8][..4] == x[..4];
    }
  }

  lemma SealedApart(x: seq<byte>, tag: seq<byte>)
    ensures (x + tag)[|x|..] == tag && (x + tag)[..|x|] == x
  {
  }

  // ---- encrypt_packet ----

  /** A packet to send; `rekey` is the context that comes into use after it, on NEWKEYS. */
  datatype Packet = Packet(payload: seq<byte>, noise: nat -> byte, rekey: Option<Context>)

  /** Padding, as encrypt_packet computes it from the payload's length. */
  function PadLen(n: nat, blocksize: nat, aead: bool): nat
    requires blocksize > 0
  {
    var len := 5 + n;
    var pad := blocksize - (if aead then len - 4 else len) % blocksize;
    var enough := if pad < 4 then pad + blocksize else pad;
    if len + enough < MIN_PACKET_LEN then enough + blocksize else enough
  }

  /** What encrypt_packet allocates, in a build with or without zlib. */
  function EncryptBufSize(n: nat, blocksize: nat, macsize: nat, zlib: bool): nat
  {
    n + 4 + 1 + Max(MIN_PACKET_LEN, blocksize) + 3 + macsize + (if zlib then ZLIB_COMPRESS_EXPANSION else 0) + 1
  }

  lemma Aligned(x: int, b: int)
    requires b > 0 && x >= 0
    ensures var p := b - x % b;
            && 1 <= p <= b && x + p >= b
            && (x + p) % b == 0 && (x + (p + b)) % b == 0 && (x + (p + b + b)) % b == 0
  {
    var q := x / b;
    Multiples(x, b, q);
    ModShift(0, q + 1, b);
    ModShift(0, q + 2, b);
    ModShift(0, q + 3, b);
  }

  lemma Multiples(x: int, b: int, q: int)
    requires b > 0 && q == x / b && q >= 0
    ensures x + (b - x % b) == (q + 1) * b && (q + 1) * b >= b
    ensures x + (b - x % b + b) == (q + 2) * b && x + (b - x % b + b + b) == (q + 3) * b
  {
  }

  /** Blocks of eight bytes: four bytes of padding make at least two blocks, or one and a length. */
  lemma SmallBlocks(n: nat, pad: nat, aead: bool)
    requires n > 0 && pad >= 4 && (if aead then 1 + n + pad else 5 + n + pad) % 8 == 0
    ensures 5 + n + pad >= if aead then 12 else 16
  {
  }

  /**
   * Section 6 of RFC 4253: at least four bytes of padding and at most 255, whole blocks (not
   * counting the length field in AEAD mode), at least MIN_PACKET_LEN bytes in all; and the
   * buffer encrypt_packet allocates is large enough even without room for compression.
   */
  lemma PaddingIsRight(n: nat, blocksize: nat, macsize: nat, aead: bool)
    requires n > 0 && (blocksize == 8 || 16 <= blocksize <= 64)
    ensures var pad := PadLen(n, blocksize, aead);
            var total := 5 + n + pad;
            && 4 <= pad <= 255
            && (if aead then total - 4 else total) % blocksize == 0
            && total >= MIN_PACKET_LEN && (if aead then total - 4 else total) >= blocksize
            && total + macsize <= EncryptBufSize(n, blocksize, macsize, false)
  {
    var x := if aead then 1 + n else 5 + n;
    Aligned(x, blocksize);
    var p := blocksize - x % blocksize;
    var pad := PadLen(n, blocksize, aead);
    assert pad == p || pad == p + blocksize || pad == p + blocksize + blocksize;
    if blocksize == 8 {
      SmallBlocks(n, if p < 4 then p + 8 else p, aead);
    }
  }

  /** The packet in the clear: length, padding length, payload, padding. */
  function Clear(c: Cipher, p: Packet): seq<byte>
    requires Sized(c) && 0 < |p.payload|
  {
    var pad := PadLen(|p.payload|, c.blocksize, c.aead);
    PaddingIsRight(|p.payload|, c.blocksize, c.macsize, c.aead);
    ToBytes(|p.payload| + 5 + pad - 4, 4) + [pad] + p.payload + seq(pad, i requires 0 <= i => p.noise(i))
  }

  /** encrypt_packet: the bytes for the wire and the cipher state after them. */
  function Encrypted(ctx: Context, seqno: nat, p: Packet): (seq<byte>, State)
    requires Sized(ctx.cipher) && 0 < |p.payload|
  {
    SealedBytes(ctx, seqno, Clear(ctx.cipher, p))
  }

  function SealedBytes(ctx: Context, seqno: nat, clear: seq<byte>): (seq<byte>, State)
  {
    var c := ctx.cipher;
    if c.aead then c.seal(ctx.state, seqno, clear)
    else
      var e := c.encrypt(ctx.state, clear);
      (e.0 + c.mac(seqno, clear), e.1)
  }

  // ---- read_packet ----

  /** ses.readbuf: the bytes up to its position, and its length. */
  datatype ReadBuf = ReadBuf(bytes: seq<byte>, len: nat)

  datatype Reader = Reader(
    ctx: Context,
    seqno: nat,
    buf: Option<ReadBuf>,
    delivered: seq<seq<byte>>,
    exit: bool)

  function U32(x: int): nat { x % 0x1_0000_0000 }

  /** The length read_packet_init finds: packet_length (with its own four bytes), cipher state, first block. */
  function FirstBlock(ctx: Context, seqno: nat, block: seq<byte>): Option<(nat, nat, State, seq<byte>)>
  {
    var c := ctx.cipher;
    if c.aead then
      var plen := c.sealedLength(ctx.state, seqno, block);
      if plen.None? then None else Some((U32(plen.value), U32(plen.value + 4 + c.macsize), ctx.state, block))
    else
      var d := c.decrypt(ctx.state, block);
      if |d.0| < 4 then None
      else
        var plen := U32(FromBytes(d.0[..4]) + 4);
        Some((plen, U32(plen + c.macsize), d.1, d.0))
  }

  /** Whether the reader is still in the first block of a packet. */
  predicate InFirstBlock(r: Reader) { r.buf.None? || r.buf.value.len < r.ctx.cipher.blocksize }

  function Held(r: Reader): seq<byte> { if r.buf.None? then [] else r.buf.value.bytes }

  /** read_packet_init, given what read returned; a chunk fits in what is missing of the block. */
  function ReadInit(r: Reader, chunk: seq<byte>): Reader
  {
    var c, bytes := r.ctx.cipher, Held(r) + chunk;
    if |bytes| != c.blocksize then r.(buf := Some(ReadBuf(bytes, |bytes|)))
    else
      var first := FirstBlock(r.ctx, r.seqno, bytes);
      if first.None? then r.(exit := true)
      else
        var (plen, len, state, block) := first.value;
        if len > RECV_MAX_PACKET_LEN || plen < c.blocksize || c.blocksize == 0 || plen % c.blocksize != 0 ||
           len < c.blocksize    // buf_setpos past a length that has wrapped
        then r.(exit := true)
        else r.(buf := Some(ReadBuf(block, len)), ctx := r.ctx.(state := state))
  }

  /** The packet in the clear from a readbuf that is full, once its MAC has been checked. */
  function Opened(ctx: Context, seqno: nat, bytes: seq<byte>): (Option<seq<byte>>, State)
  {
    var c := ctx.cipher;
    if |bytes| < c.macsize then (None, ctx.state)
    else if c.aead then c.unseal(ctx.state, seqno, bytes)
    else if |bytes| < c.blocksize + c.macsize then (None, ctx.state)
    else
      var end := |bytes| - c.macsize;
      var d := c.decrypt(ctx.state, bytes[c.blocksize..end]);
      var clear := bytes[..c.blocksize] + d.0;
      (if c.mac(seqno, clear) == bytes[end..] then Some(clear) else None, d.1)
  }

  /** decrypt_packet. */
  function DecryptPacket(r: Reader): Reader
  {
    var c, bytes := r.ctx.cipher, Held(r);
    var (clear, state) := Opened(r.ctx, r.seqno, bytes);
    if clear.None? || |clear.value| < 5 then r.(exit := true)
    else
      var len := U32(|bytes| - clear.value[4] as int - 4 - 1 - c.macsize);
      if len > RECV_MAX_PAYLOAD_LEN + ZLIB_COMPRESS_EXPANSION || len < 1 || 5 + len > |clear.value| then r.(exit := true)
      else
        r.(delivered := r.delivered + [clear.value[5..5 + len]], buf := None, seqno := U32(r.seqno + 1),
           ctx := r.ctx.(state := state))
  }

  /** The rest of read_packet: read on, and decrypt when the packet is complete. */
  function ReadRest(r: Reader, chunk: seq<byte>): Reader
    requires r.buf.Some?
  {
    var t := r.(buf := Some(r.buf.value.(bytes := r.buf.value.bytes + chunk)));
    if |t.buf.value.bytes| == t.buf.value.len then DecryptPacket(t) else t
  }

  /** How many bytes the next read asks for; nothing once a one-block packet is complete. */
  function Wanted(r: Reader): int
  {
    if InFirstBlock(r) then r.ctx.cipher.blocksize - |Held(r)| else r.buf.value.len - |Held(r)|
  }

  /** A read of some of the n bytes there are: nothing on EAGAIN. */
  function Got(want: int, there: nat, n: nat): nat
  {
    if n <= want && n <= there then n else 0
  }

  /**
   * read_packet on a stream of which `at` bytes have been read: at most two reads, asking for
   * at most what the packet still lacks; a and b say how much they return.
   */
  function ReadPacket(r: Reader, stream: seq<byte>, at: nat, a: nat, b: nat): (Reader, nat)
    requires at <= |stream|
  {
    if InFirstBlock(r) then ReadHead(r, stream, at, Got(Wanted(r), |stream| - at, a), b)
    else ReadBody(r, stream, at, b)
  }

  /** m bytes of the first block have come, or none. */
  function ReadHead(r: Reader, stream: seq<byte>, at: nat, m: nat, b: nat): (Reader, nat)
    requires at + m <= |stream|
  {
    if m == 0 then (r.(buf := Some(ReadBuf(Held(r), |Held(r)|))), at)
    else
      var s := ReadInit(r, stream[at..at + m]);
      if s.exit || |Held(r)| + m != r.ctx.cipher.blocksize then (s, at + m)
      else ReadBody(s, stream, at + m, b)
  }

  function ReadBody(r: Reader, stream: seq<byte>, at: nat, b: nat): (Reader, nat)
    requires at <= |stream|
  {
    if r.buf.None? then (r, at)
    else if Wanted(r) == 0 then (DecryptPacket(r), at)
    else
      var m := Got(Wanted(r), |stream| - at, b);
      if m == 0 then (r, at) else (ReadRest(r, stream[at..at + m]), at + m)
  }
}
