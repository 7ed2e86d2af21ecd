/** How far the reader is in one packet, and what each read adds. */
module ReaderLaws {
  import opened Options
  import opened Radix
  import opened Framing
  import opened PacketLaws

  /** q bytes of the packet p, sent under ctx with number seqno, have been read. */
  ghost predicate At(r: Reader, ctx: Context, seqno: nat, p: Packet, q: nat)
    requires Sending(ctx, p)
  {
    var b, f := ctx.cipher.blocksize, Frame(ctx, seqno, p);
    && !r.exit && r.seqno == seqno && b <= |f| && q <= |f|
    && if q < b then AtStart(r, ctx, f[..q])
       else
         && r.ctx == ctx.(state := Start(ctx, seqno, p).0)
         && r.buf == Some(ReadBuf(Start(ctx, seqno, p).1 + f[b..q], |f|))
  }

  /** In the first block, holding what has been read of it. */
  ghost predicate AtStart(r: Reader, ctx: Context, held: seq<byte>)
  {
    r.ctx == ctx && Held(r) == held && (r.buf.Some? ==> r.buf.value.len == |held|)
  }

  /** The packet has been delivered. */
  ghost predicate Delivered(r: Reader, s: Reader, ctx: Context, seqno: nat, p: Packet)
    requires Sending(ctx, p)
  {
    && !s.exit && s.buf.None? && s.seqno == U32(seqno + 1)
    && s.delivered == r.delivered + [p.payload]
    && s.ctx == ctx.(state := Encrypted(ctx, seqno, p).1)
  }

  lemma StartLength(ctx: Context, seqno: nat, p: Packet)
    requires Sending(ctx, p)
    ensures ctx.cipher.blocksize <= |Frame(ctx, seqno, p)| <= RECV_MAX_PACKET_LEN
    ensures |Start(ctx, seqno, p).1| == ctx.cipher.blocksize
  {
    FrameShape(ctx, seqno, p);
  }

  /** read_packet_init gets a further piece of the first block. */
  lemma InitAdvances(r: Reader, ctx: Context, seqno: nat, p: Packet, q: nat, chunk: seq<byte>)
    requires Sending(ctx, p) && At(r, ctx, seqno, p, q) && q < ctx.cipher.blocksize
    requires q + |chunk| <= ctx.cipher.blocksize && chunk == Frame(ctx, seqno, p)[q..q + |chunk|]
    ensures At(ReadInit(r, chunk), ctx, seqno, p, q + |chunk|)
    ensures ReadInit(r, chunk).delivered == r.delivered
  {
    var b, f := ctx.cipher.blocksize, Frame(ctx, seqno, p);
    assert f[..q] + chunk == f[..q + |chunk|];
    if q + |chunk| == b {
      FirstBlockFound(ctx, seqno, p);
      FrameShape(ctx, seqno, p);
      var block := Start(ctx, seqno, p).1;
      assert block + f[b..b] == block;
    }
  }

  /** The length that decrypt_packet computes is that of the payload. */
  lemma Unpacks(r: Reader, clear: seq<byte>, state: State, n: nat, pad: nat)
    requires Opened(r.ctx, r.seqno, Held(r)) == (Some(clear), state)
    requires |clear| == 5 + n + pad && clear[4] as int == pad && 1 <= n <= TRANS_MAX_PAYLOAD_LEN
    requires |Held(r)| == |clear| + r.ctx.cipher.macsize
    ensures DecryptPacket(r) ==
            r.(delivered := r.delivered + [clear[5..5 + n]], buf := None, seqno := U32(r.seqno + 1),
               ctx := r.ctx.(state := state))
  {
  }

  /** decrypt_packet on a complete packet. */
  lemma WholePacket(r: Reader, ctx: Context, seqno: nat, p: Packet)
    requires Sending(ctx, p) && At(r, ctx, seqno, p, |Frame(ctx, seqno, p)|)
    ensures Delivered(r, DecryptPacket(r), ctx, seqno, p)
  {
    var c, f, clear := ctx.cipher, Frame(ctx, seqno, p), Clear(ctx.cipher, p);
    StartLength(ctx, seqno, p);
    FrameShape(ctx, seqno, p);
    ClearShape(c, p);
    OpenedWhole(ctx, seqno, p);
    assert f[c.blocksize..|f|] == f[c.blocksize..];
    Unpacks(r, clear, Encrypted(ctx, seqno, p).1, |p.payload|, PadLen(|p.payload|, c.blocksize, c.aead));
  }

  /** After one call of read_packet the reader is further on in the packet, or has delivered it. */
  ghost predicate Progress(r: Reader, s: Reader, ctx: Context, seqno: nat, p: Packet, q: nat)
    requires Sending(ctx, p)
  {
    if q == |Frame(ctx, seqno, p)| then Delivered(r, s, ctx, seqno, p)
    else q < |Frame(ctx, seqno, p)| && At(s, ctx, seqno, p, q) && s.delivered == r.delivered
  }

  function Longer(r: Reader, chunk: seq<byte>): Reader
    requires r.buf.Some?
  {
    r.(buf := Some(r.buf.value.(bytes := r.buf.value.bytes + chunk)))
  }

  lemma LongerIsAt(r: Reader, ctx: Context, seqno: nat, p: Packet, q: nat, chunk: seq<byte>)
    requires Sending(ctx, p) && At(r, ctx, seqno, p, q) && q >= ctx.cipher.blocksize
    requires q + |chunk| <= |Frame(ctx, seqno, p)| && chunk == Frame(ctx, seqno, p)[q..q + |chunk|]
    ensures r.buf.Some? && At(Longer(r, chunk), ctx, seqno, p, q + |chunk|)
    ensures |Longer(r, chunk).buf.value.bytes| == q + |chunk|
    ensures Longer(r, chunk).buf.value.len == |Frame(ctx, seqno, p)|
  {
    var b, f := ctx.cipher.blocksize, Frame(ctx, seqno, p);
    StartLength(ctx, seqno, p);
    var block := Start(ctx, seqno, p).1;
    assert (block + f[b..q]) + chunk == block + f[b..q + |chunk|];
  }

  /** A further piece of the rest of the packet. */
  lemma RestAdvances(r: Reader, ctx: Context, seqno: nat, p: Packet, q: nat, chunk: seq<byte>)
    requires Sending(ctx, p) && At(r, ctx, seqno, p, q) && q >= ctx.cipher.blocksize
    requires q + |chunk| <= |Frame(ctx, seqno, p)| && chunk == Frame(ctx, seqno, p)[q..q + |chunk|]
    ensures r.buf.Some?
    ensures Progress(r, ReadRest(r, chunk), ctx, seqno, p, q + |chunk|)
  {
    LongerIsAt(r, ctx, seqno, p, q, chunk);
    if q + |chunk| == |Frame(ctx, seqno, p)| {
      WholePacket(Longer(r, chunk), ctx, seqno, p);
    }
  }

  /** What the stream holds from `at` on agrees with the frame from q on, as far as both go. */
  ghost predicate InStream(f: seq<byte>, q: nat, stream: seq<byte>, at: nat)
  {
    at <= |stream| && q <= |f| &&
    var n := Min(|f| - q, |stream| - at);
    stream[at..at + n] == f[q..q + n]
  }

  /** Reading m bytes of the stream reads m bytes of the frame and leaves the rest. */
  lemma Later(f: seq<byte>, q: nat, stream: seq<byte>, at: nat, m: nat)
    requires InStream(f, q, stream, at) && q + m <= |f| && at + m <= |stream|
    ensures stream[at..at + m] == f[q..q + m]
    ensures InStream(f, q + m, stream, at + m)
  {
    var n := Min(|f| - q, |stream| - at);
    assert stream[at..at + m] == stream[at..at + n][..m] && f[q..q + m] == f[q..q + n][..m];
    assert stream[at + m..at + n] == stream[at..at + n][m..] && f[q + m..q + n] == f[q..q + n][m..];
  }

  lemma BodyProgress(r: Reader, ctx: Context, seqno: nat, p: Packet, q: nat, stream: seq<byte>, at: nat, b: nat)
    requires Sending(ctx, p) && At(r, ctx, seqno, p, q) && q >= ctx.cipher.blocksize && at <= |stream|
    requires InStream(Frame(ctx, seqno, p), q, stream, at)
    ensures var (s, next) := ReadBody(r, stream, at, b);
            at <= next <= |stream| && Progress(r, s, ctx, seqno, p, q + (next - at))
  {
    var f := Frame(ctx, seqno, p);
    StartLength(ctx, seqno, p);
    if q == |f| {
      WholePacket(r, ctx, seqno, p);
    } else {
      var m := Got(Wanted(r), |stream| - at, b);
      Later(f, q, stream, at, m);
      RestAdvances(r, ctx, seqno, p, q, stream[at..at + m]);
    }
  }

  /** The first block is complete: read on in the same call. */
  lemma InitProgress(r: Reader, ctx: Context, seqno: nat, p: Packet, q: nat, stream: seq<byte>, at: nat, m: nat, b: nat)
    requires Sending(ctx, p) && At(r, ctx, seqno, p, q) && q < ctx.cipher.blocksize
    requires InStream(Frame(ctx, seqno, p), q, stream, at)
    requires q + m <= ctx.cipher.blocksize && at + m <= |stream|
    ensures var s := ReadInit(r, stream[at..at + m]);
            && !s.exit
            && if q + m < ctx.cipher.blocksize then Progress(r, s, ctx, seqno, p, q + m)
               else
                 var (t, next) := ReadBody(s, stream, at + m, b);
                 at + m <= next <= |stream| && Progress(r, t, ctx, seqno, p, q + (next - at))
  {
    StartLength(ctx, seqno, p);
    Later(Frame(ctx, seqno, p), q, stream, at, m);
    InitAdvances(r, ctx, seqno, p, q, stream[at..at + m]);
    if q + m == ctx.cipher.blocksize {
      BodyProgress(ReadInit(r, stream[at..at + m]), ctx, seqno, p, q + m, stream, at + m, b);
    }
  }

  /** EAGAIN in the first block leaves the reader where it is, with a buffer allocated. */
  lemma StillWaiting(r: Reader, ctx: Context, seqno: nat, p: Packet, q: nat)
    requires Sending(ctx, p) && At(r, ctx, seqno, p, q) && q < ctx.cipher.blocksize
    ensures At(r.(buf := Some(ReadBuf(Held(r), |Held(r)|))), ctx, seqno, p, q)
    ensures InFirstBlock(r) && Wanted(r) == ctx.cipher.blocksize - q && |Held(r)| == q
  {
  }

  lemma HeadProgress(r: Reader, ctx: Context, seqno: nat, p: Packet, q: nat, stream: seq<byte>, at: nat, m: nat, b: nat)
    requires Sending(ctx, p) && At(r, ctx, seqno, p, q) && q < ctx.cipher.blocksize
    requires InStream(Frame(ctx, seqno, p), q, stream, at)
    requires q + m <= ctx.cipher.blocksize && at + m <= |stream|
    ensures var (s, next) := ReadHead(r, stream, at, m, b);
            at <= next <= |stream| && Progress(r, s, ctx, seqno, p, q + (next - at))
  {
    StartLength(ctx, seqno, p);
    StillWaiting(r, ctx, seqno, p, q);
    if m > 0 {
      InitProgress(r, ctx, seqno, p, q, stream, at, m, b);
    }
  }

  lemma ReadPacketIs(r: Reader, stream: seq<byte>, at: nat, a: nat, b: nat)
    requires at <= |stream|
    ensures InFirstBlock(r) ==>
      var m := Got(Wanted(r), |stream| - at, a); ReadPacket(r, stream, at, a, b) == ReadHead(r, stream, at, m, b)
    ensures !InFirstBlock(r) ==> ReadPacket(r, stream, at, a, b) == ReadBody(r, stream, at, b)
  {
  }

  /** One call of read_packet, whatever the reads return. */
  lemma ReadProgress(r: Reader, ctx: Context, seqno: nat, p: Packet, q: nat, stream: seq<byte>, at: nat, a: nat, b: nat)
    requires Sending(ctx, p) && At(r, ctx, seqno, p, q) && q < |Frame(ctx, seqno, p)|
    requires InStream(Frame(ctx, seqno, p), q, stream, at)
    ensures var (s, next) := ReadPacket(r, stream, at, a, b);
            at <= next <= |stream| && Progress(r, s, ctx, seqno, p, q + (next - at))
  {
    StartLength(ctx, seqno, p);
    ReadPacketIs(r, stream, at, a, b);
    if q < ctx.cipher.blocksize {
      StillWaiting(r, ctx, seqno, p, q);
      HeadProgress(r, ctx, seqno, p, q, stream, at, Got(Wanted(r), |stream| - at, a), b);
    } else {
      BodyProgress(r, ctx, seqno, p, q, stream, at, b);
    }
  }
}
