/**
 * What decrypt_packet refuses: a packet whose MAC is not that of what it decrypts to, or that an
 * AEAD mode does not open. After such a packet nothing more is ever delivered.
 */
module Tampering {
  import opened Options
  import opened Radix
  import opened Sequences
  import opened Framing
  import opened PacketLaws
  import opened ReaderLaws
  import opened FramingRuns

  // ---- a full readbuf ----

  /** A packet without AEAD: the first block is in the clear already, then the rest, then the MAC. */
  lemma MacDecides(r: Reader, first: seq<byte>, rest: seq<byte>, tag: seq<byte>)
    requires !r.exit && !r.ctx.cipher.aead && r.buf.Some? && r.buf.value.bytes == first + rest + tag
    requires |first| == r.ctx.cipher.blocksize && |tag| == r.ctx.cipher.macsize
    ensures var c, s := r.ctx.cipher, DecryptPacket(r);
            var clear := first + c.decrypt(r.ctx.state, rest).0;
            && (!s.exit ==> tag == c.mac(r.seqno, clear) && |s.delivered| == |r.delivered| + 1)
            && (tag != c.mac(r.seqno, clear) ==> s == r.(exit := true))
  {
    Pieces(first, rest, tag);
    assert first + rest + tag == first + (rest + tag);
  }

  /** A packet too short for its first block and a MAC. */
  lemma ShortIsRefused(r: Reader)
    requires !r.exit && !r.ctx.cipher.aead && |Held(r)| < r.ctx.cipher.blocksize + r.ctx.cipher.macsize
    ensures DecryptPacket(r) == r.(exit := true)
  {
  }

  /** With AEAD everything is left to the mode. */
  lemma SealDecides(r: Reader)
    requires !r.exit && r.ctx.cipher.aead && |Held(r)| >= r.ctx.cipher.macsize
    requires r.ctx.cipher.unseal(r.ctx.state, r.seqno, Held(r)).0.None?
    ensures DecryptPacket(r) == r.(exit := true)
  {
  }

  /** What is delivered is what is between the padding length and the padding. */
  lemma DeliversPayload(r: Reader, clear: seq<byte>, state: State)
    requires !r.exit && Opened(r.ctx, r.seqno, Held(r)) == (Some(clear), state) && !DecryptPacket(r).exit
    requires |Held(r)| == |clear| + r.ctx.cipher.macsize && |clear| < 0x1_0000_0000
    ensures var s := DecryptPacket(r);
            && |clear| >= 5 && 1 <= |clear| - 5 - clear[4] as int
            && s.delivered == r.delivered + [clear[5..|clear| - clear[4] as int]]
            && s.seqno == U32(r.seqno + 1) && s.buf.None?
  {
    var n := |clear| - clear[4] as int - 5;
    assert n < 0 ==> U32(n) == n + 0x1_0000_0000;
  }

  // ---- in the stream ----

  /** g is the frame of p with some of the bytes behind its first block changed. */
  ghost predicate Altered(ctx: Context, seqno: nat, p: Packet, g: seq<byte>)
    requires Sending(ctx, p)
  {
    var f := Frame(ctx, seqno, p);
    |g| == |f| && ctx.cipher.blocksize <= |f| && g[..ctx.cipher.blocksize] == f[..ctx.cipher.blocksize]
  }

  /** q bytes of g have been read; g takes the place of the frame of p. */
  ghost predicate AtAltered(r: Reader, ctx: Context, seqno: nat, p: Packet, g: seq<byte>, q: nat)
    requires Sending(ctx, p) && Altered(ctx, seqno, p, g)
  {
    var b := ctx.cipher.blocksize;
    && !r.exit && r.seqno == seqno && q <= |g|
    && if q < b then AtStart(r, ctx, g[..q])
       else
         && r.ctx == ctx.(state := Start(ctx, seqno, p).0)
         && r.buf == Some(ReadBuf(Start(ctx, seqno, p).1 + g[b..q], |g|))
  }

  /** The reader with all of g, as decrypt_packet gets it. */
  ghost function Full(r: Reader, ctx: Context, seqno: nat, p: Packet, g: seq<byte>): Reader
    requires Sending(ctx, p) && Altered(ctx, seqno, p, g)
  {
    r.(ctx := ctx.(state := Start(ctx, seqno, p).0), seqno := seqno,
       buf := Some(ReadBuf(Start(ctx, seqno, p).1 + g[ctx.cipher.blocksize..], |g|)), exit := false)
  }

  ghost predicate Refused(ctx: Context, seqno: nat, p: Packet, g: seq<byte>)
    requires Sending(ctx, p) && Altered(ctx, seqno, p, g)
  {
    forall r: Reader :: DecryptPacket(Full(r, ctx, seqno, p, g)) == Full(r, ctx, seqno, p, g).(exit := true)
  }

  /** The MAC of a sent packet replaced by any other bytes. */
  lemma OtherMacIsRefused(ctx: Context, seqno: nat, p: Packet, g: seq<byte>)
    requires Sending(ctx, p) && !ctx.cipher.aead && |g| == |Frame(ctx, seqno, p)| >= ctx.cipher.macsize
    requires var f, n := Frame(ctx, seqno, p), |g| - ctx.cipher.macsize; g[..n] == f[..n] && g != f
    ensures Altered(ctx, seqno, p, g) && Refused(ctx, seqno, p, g)
  {
    var c, f, clear := ctx.cipher, Frame(ctx, seqno, p), Clear(ctx.cipher, p);
    var b, n := c.blocksize, |g| - c.macsize;
    FrameShape(ctx, seqno, p);
    PlainFrame(ctx, seqno, p);
    TwoPieces(ctx, seqno, p);
    assert g[..b] == g[..n][..b] && f[..b] == f[..n][..b];
    var first, rest, tag := clear[..b], c.encrypt(ctx.state, clear).0[b..], g[n..];
    OtherTag(f, g, b, n, rest, c.mac(seqno, clear));
    assert clear[..b] + clear[b..] == clear;
    forall r: Reader ensures DecryptPacket(Full(r, ctx, seqno, p, g)) == Full(r, ctx, seqno, p, g).(exit := true) {
      var s := Full(r, ctx, seqno, p, g);
      assert s.buf.value.bytes == first + rest + tag;
      MacDecides(s, first, rest, tag);
    }
  }

  lemma OtherTag(f: seq<byte>, g: seq<byte>, b: nat, n: nat, rest: seq<byte>, mac: seq<byte>)
    requires |f| == |g| && b <= n <= |f| && g[..n] == f[..n] && g != f && f[b..] == rest + mac && |rest| == n - b
    ensures g[b..] == rest + g[n..] && g[n..] != mac
  {
    assert f[b..n] == f[b..][..n - b] == rest && g[b..n] == g[..n][b..] == f[..n][b..] == f[b..n];
    assert g[b..] == g[b..n] + g[n..];
    assert f[n..] == f[b..][n - b..] == mac;
    assert g == g[..n] + g[n..] && f == f[..n] + f[n..];
  }

  /** Bytes behind the first block that the AEAD mode does not open. */
  lemma BrokenSealIsRefused(ctx: Context, seqno: nat, p: Packet, g: seq<byte>)
    requires Sending(ctx, p) && ctx.cipher.aead && Altered(ctx, seqno, p, g)
    requires ctx.cipher.unseal(ctx.state, seqno, g).0.None?
    ensures Refused(ctx, seqno, p, g)
  {
    var b := ctx.cipher.blocksize;
    FrameShape(ctx, seqno, p);
    assert Start(ctx, seqno, p).1 + g[b..] == g[..b] + g[b..] == g;
    forall r: Reader ensures DecryptPacket(Full(r, ctx, seqno, p, g)) == Full(r, ctx, seqno, p, g).(exit := true) {
      SealDecides(Full(r, ctx, seqno, p, g));
    }
  }

  // ---- reading it ----

  /** After a read nothing has been delivered: the reader is further on in the packet, or has exited. */
  ghost predicate Holds(r: Reader, s: Reader, ctx: Context, seqno: nat, p: Packet, g: seq<byte>, q: nat)
    requires Sending(ctx, p) && Altered(ctx, seqno, p, g)
  {
    s.delivered == r.delivered && (s.exit || AtAltered(s, ctx, seqno, p, g, q))
  }

  lemma FullIsRefused(r: Reader, ctx: Context, seqno: nat, p: Packet, g: seq<byte>)
    requires Sending(ctx, p) && Altered(ctx, seqno, p, g) && Refused(ctx, seqno, p, g)
    requires AtAltered(r, ctx, seqno, p, g, |g|)
    ensures DecryptPacket(r) == r.(exit := true)
  {
    assert g[ctx.cipher.blocksize..|g|] == g[ctx.cipher.blocksize..];
    assert r == Full(r, ctx, seqno, p, g);
  }

  lemma SlicesJoin(x: seq<byte>, i: nat, j: nat, k: nat)
    requires i <= j <= k <= |x|
    ensures x[i..j] + x[j..k] == x[i..k]
  {
  }

  lemma LongerIsAltered(r: Reader, ctx: Context, seqno: nat, p: Packet, g: seq<byte>, q: nat, chunk: seq<byte>)
    requires Sending(ctx, p) && Altered(ctx, seqno, p, g)
    requires AtAltered(r, ctx, seqno, p, g, q) && q >= ctx.cipher.blocksize
    requires q + |chunk| <= |g| && chunk == g[q..q + |chunk|]
    ensures AtAltered(Longer(r, chunk), ctx, seqno, p, g, q + |chunk|)
    ensures |r.buf.value.bytes| == q && r.buf.value.len == |g|
  {
    var b, block := ctx.cipher.blocksize, Start(ctx, seqno, p).1;
    StartLength(ctx, seqno, p);
    SlicesJoin(g, b, q, q + |chunk|);
    Regroup(block, g[b..q], chunk, g[b..q + |chunk|]);
  }

  lemma RestHolds(r: Reader, ctx: Context, seqno: nat, p: Packet, g: seq<byte>, q: nat, chunk: seq<byte>)
    requires Sending(ctx, p) && Altered(ctx, seqno, p, g) && Refused(ctx, seqno, p, g)
    requires AtAltered(r, ctx, seqno, p, g, q) && q >= ctx.cipher.blocksize
    requires q + |chunk| <= |g| && chunk == g[q..q + |chunk|]
    ensures r.buf.Some? && Holds(r, ReadRest(r, chunk), ctx, seqno, p, g, q + |chunk|)
  {
    LongerIsAltered(r, ctx, seqno, p, g, q, chunk);
    if q + |chunk| == |g| { FullIsRefused(Longer(r, chunk), ctx, seqno, p, g); }
  }

  lemma BodyHolds(r: Reader, ctx: Context, seqno: nat, p: Packet, g: seq<byte>, q: nat, stream: seq<byte>, at: nat, n: nat)
    requires Sending(ctx, p) && Altered(ctx, seqno, p, g) && Refused(ctx, seqno, p, g)
    requires AtAltered(r, ctx, seqno, p, g, q) && q >= ctx.cipher.blocksize && InStream(g, q, stream, at)
    ensures var (s, next) := ReadBody(r, stream, at, n);
            at <= next <= |stream| && Holds(r, s, ctx, seqno, p, g, q + (next - at))
  {
    Wants(r, ctx, seqno, p, g, q);
    if q == |g| {
      FullIsRefused(r, ctx, seqno, p, g);
    } else {
      var m := Got(|g| - q, |stream| - at, n);
      Later(g, q, stream, at, m);
      RestHolds(r, ctx, seqno, p, g, q, stream[at..at + m]);
    }
  }

  /** What the next read asks for. */
  lemma Wants(r: Reader, ctx: Context, seqno: nat, p: Packet, g: seq<byte>, q: nat)
    requires Sending(ctx, p) && Altered(ctx, seqno, p, g) && AtAltered(r, ctx, seqno, p, g, q)
    ensures InFirstBlock(r) <==> q < ctx.cipher.blocksize
    ensures Wanted(r) == if q < ctx.cipher.blocksize then ctx.cipher.blocksize - q else |g| - q
    ensures q >= ctx.cipher.blocksize ==> r.buf.Some?
  {
    StartLength(ctx, seqno, p);
  }

  /** In the first block nothing has been changed yet. */
  lemma HeadIsSame(r: Reader, ctx: Context, seqno: nat, p: Packet, g: seq<byte>, q: nat)
    requires Sending(ctx, p) && Altered(ctx, seqno, p, g) && q <= ctx.cipher.blocksize
    ensures At(r, ctx, seqno, p, q) <==> AtAltered(r, ctx, seqno, p, g, q)
  {
    var f, b := Frame(ctx, seqno, p), ctx.cipher.blocksize;
    assert f[..q] == f[..b][..q] && g[..q] == g[..b][..q];
    assert f[b..b] == g[b..b] == [];
  }

  lemma SliceOfFront(x: seq<byte>, b: nat, i: nat, j: nat)
    requires i <= j <= b <= |x|
    ensures x[..b][i..j] == x[i..j]
  {
  }

  lemma InitHolds(r: Reader, ctx: Context, seqno: nat, p: Packet, g: seq<byte>, q: nat, chunk: seq<byte>)
    requires Sending(ctx, p) && Altered(ctx, seqno, p, g) && AtAltered(r, ctx, seqno, p, g, q)
    requires q + |chunk| <= ctx.cipher.blocksize && q < ctx.cipher.blocksize && chunk == g[q..q + |chunk|]
    ensures AtAltered(ReadInit(r, chunk), ctx, seqno, p, g, q + |chunk|)
    ensures ReadInit(r, chunk).delivered == r.delivered
  {
    var f, b := Frame(ctx, seqno, p), ctx.cipher.blocksize;
    HeadIsSame(r, ctx, seqno, p, g, q);
    SliceOfFront(f, b, q, q + |chunk|);
    SliceOfFront(g, b, q, q + |chunk|);
    InitAdvances(r, ctx, seqno, p, q, chunk);
    HeadIsSame(ReadInit(r, chunk), ctx, seqno, p, g, q + |chunk|);
  }

  lemma HeadHolds(r: Reader, ctx: Context, seqno: nat, p: Packet, g: seq<byte>, q: nat, stream: seq<byte>, at: nat,
                  m: nat, n: nat)
    requires Sending(ctx, p) && Altered(ctx, seqno, p, g) && Refused(ctx, seqno, p, g)
    requires AtAltered(r, ctx, seqno, p, g, q) && q + m <= ctx.cipher.blocksize && q < ctx.cipher.blocksize
    requires InStream(g, q, stream, at) && at + m <= |stream|
    ensures var (s, next) := ReadHead(r, stream, at, m, n);
            at <= next <= |stream| && Holds(r, s, ctx, seqno, p, g, q + (next - at))
  {
    HeadIsSame(r, ctx, seqno, p, g, q);
    StillWaiting(r, ctx, seqno, p, q);
    if m == 0 {
      HeadIsSame(r.(buf := Some(ReadBuf(Held(r), |Held(r)|))), ctx, seqno, p, g, q);
    } else {
      Later(g, q, stream, at, m);
      InitHolds(r, ctx, seqno, p, g, q, stream[at..at + m]);
      if q + m == ctx.cipher.blocksize {
        BodyHolds(ReadInit(r, stream[at..at + m]), ctx, seqno, p, g, q + m, stream, at + m, n);
      }
    }
  }

  /** One call of read_packet, whatever the reads return. */
  lemma ReadHolds(r: Reader, ctx: Context, seqno: nat, p: Packet, g: seq<byte>, q: nat, stream: seq<byte>, at: nat,
                  m: nat, n: nat)
    requires Sending(ctx, p) && Altered(ctx, seqno, p, g) && Refused(ctx, seqno, p, g)
    requires AtAltered(r, ctx, seqno, p, g, q) && InStream(g, q, stream, at)
    ensures var (s, next) := ReadPacket(r, stream, at, m, n);
            at <= next <= |stream| && Holds(r, s, ctx, seqno, p, g, q + (next - at))
  {
    Wants(r, ctx, seqno, p, g, q);
    ReadPacketIs(r, stream, at, m, n);
    if q < ctx.cipher.blocksize {
      HeadHolds(r, ctx, seqno, p, g, q, stream, at, Got(Wanted(r), |stream| - at, m), n);
    } else {
      BodyHolds(r, ctx, seqno, p, g, q, stream, at, n);
    }
  }

  // ---- whole runs ----

  /** Any number of calls of read_packet on a stream whose honest packets are sent. */
  function ReadAll(r: Reader, at: nat, sent: seq<Packet>, stream: seq<byte>, rs: seq<(nat, nat)>): (Reader, nat)
    requires at <= |stream|
    decreases |rs|
  {
    if rs == [] then (r, at)
    else
      var (s, here) := ReadAll(r, at, sent, stream, rs[..|rs| - 1]);
      if s.exit || here > |stream| then (s, here)
      else
        var (t, next) := ReadPacket(s, stream, here, rs[|rs| - 1].0, rs[|rs| - 1].1);
        (Rekeyed(t, sent, |s.delivered|), next)
  }

  /** Still among the honest packets, or somewhere in g, or stopped by it. */
  ghost predicate Stopping(start: Context, sent: seq<Packet>, p: Packet, g: seq<byte>, r: Reader, at: nat)
    requires Fine(start, sent) && Sending(After(start, sent), p)
    requires Altered(After(start, sent), U32(|sent|), p, g)
  {
    var pre := |Stream(start, sent)|;
    || (ReaderInv(start, sent, r, at) && !r.exit)
    || (&& r.delivered == Payloads(sent)
        && (r.exit || (at >= pre && AtAltered(r, After(start, sent), U32(|sent|), p, g, at - pre))))
  }

  lemma HonestRead(start: Context, sent: seq<Packet>, r: Reader, stream: seq<byte>, at: nat, a: nat, b: nat)
    requires Fine(start, sent) && ReaderInv(start, sent, r, at) && |r.delivered| < |sent| && at <= |stream|
    requires Stream(start, sent) <= stream
    ensures var (s, next) := ReadPacket(r, stream, at, a, b);
            next <= |stream| && ReaderInv(start, sent, Rekeyed(s, sent, |r.delivered|), next)
  {
    var d := |r.delivered|;
    var pre, f, whole := Stream(start, sent[..d]), Current(start, sent, d), Stream(start, sent);
    var q := at - |pre|;
    FrameInStream(start, sent, d);
    Beginning(pre + f, whole, stream);
    InPlace(start, sent, r, at, d, q);
    StandsInFrame(pre, f, stream, stream, q, at);
    ReadsIn(start, sent, d, r, stream, q, at, a, b);
  }

  lemma Beginning(x: seq<byte>, y: seq<byte>, z: seq<byte>)
    requires x <= y <= z
    ensures x <= z
  {
  }

  lemma InPlace(start: Context, sent: seq<Packet>, r: Reader, at: nat, d: nat, q: int)
    requires Fine(start, sent) && ReaderInv(start, sent, r, at) && d == |r.delivered| < |sent|
    requires q == at - |Stream(start, sent[..d])|
    ensures q >= 0 && Midway(start, sent, d, r, q) && r.delivered == Payloads(sent[..d])
  {
  }

  /** With every honest packet delivered, or within g. */
  lemma AlteredRead(start: Context, sent: seq<Packet>, p: Packet, g: seq<byte>, r: Reader, stream: seq<byte>, at: nat,
                    q: nat, a: nat, b: nat)
    requires Fine(start, sent) && Sending(After(start, sent), p)
    requires Altered(After(start, sent), U32(|sent|), p, g) && Refused(After(start, sent), U32(|sent|), p, g)
    requires Stream(start, sent) + g <= stream && at == |Stream(start, sent)| + q && at <= |stream|
    requires r.delivered == Payloads(sent) && AtAltered(r, After(start, sent), U32(|sent|), p, g, q)
    ensures var (s, next) := ReadPacket(r, stream, at, a, b);
            && next <= |stream| && Rekeyed(s, sent, |r.delivered|) == s
            && Stopping(start, sent, p, g, s, next)
  {
    StandsInFrame(Stream(start, sent), g, stream, stream, q, at);
    ReadHolds(r, After(start, sent), U32(|sent|), p, g, q, stream, at, a, b);
  }

  lemma AllHonestRead(start: Context, sent: seq<Packet>, p: Packet, g: seq<byte>, r: Reader, at: nat)
    requires Fine(start, sent) && Sending(After(start, sent), p)
    requires Altered(After(start, sent), U32(|sent|), p, g)
    requires ReaderInv(start, sent, r, at) && |r.delivered| == |sent|
    ensures at == |Stream(start, sent)| && r.delivered == Payloads(sent)
    ensures AtAltered(r, After(start, sent), U32(|sent|), p, g, 0)
  {
    assert sent[..|sent|] == sent;
    FrameShape(After(start, sent), U32(|sent|), p);
    assert g[..0] == [];
  }

  lemma HonestStops(start: Context, sent: seq<Packet>, p: Packet, g: seq<byte>, r: Reader, at: nat)
    requires Fine(start, sent) && Sending(After(start, sent), p)
    requires Altered(After(start, sent), U32(|sent|), p, g) && ReaderInv(start, sent, r, at)
    ensures !r.exit && Stopping(start, sent, p, g, r, at)
  {
  }

  lemma StopsAfter(start: Context, sent: seq<Packet>, p: Packet, g: seq<byte>, r: Reader, stream: seq<byte>, at: nat,
                   a: nat, b: nat, s: Reader, next: nat)
    requires Fine(start, sent) && Sending(After(start, sent), p)
    requires Altered(After(start, sent), U32(|sent|), p, g) && Refused(After(start, sent), U32(|sent|), p, g)
    requires Stream(start, sent) + g <= stream && at <= |stream|
    requires Stopping(start, sent, p, g, r, at) && !r.exit
    requires (s, next) == ReadPacket(r, stream, at, a, b)
    ensures next <= |stream| && Stopping(start, sent, p, g, Rekeyed(s, sent, |r.delivered|), next)
  {
    var pre := |Stream(start, sent)|;
    if ReaderInv(start, sent, r, at) {
      if |r.delivered| < |sent| {
        HonestRead(start, sent, r, stream, at, a, b);
        HonestStops(start, sent, p, g, Rekeyed(s, sent, |r.delivered|), next);
      } else {
        NoMore(start, sent, r, at);
        AllHonestRead(start, sent, p, g, r, at);
        AlteredRead(start, sent, p, g, r, stream, at, 0, a, b);
      }
    } else {
      AlteredRead(start, sent, p, g, r, stream, at, at - pre, a, b);
    }
  }

  lemma NoMore(start: Context, sent: seq<Packet>, r: Reader, at: nat)
    requires Fine(start, sent) && ReaderInv(start, sent, r, at)
    ensures |r.delivered| <= |sent|
  {
  }

  lemma NothingRead(start: Context, sent: seq<Packet>)
    requires Fine(start, sent)
    ensures ReaderInv(start, sent, Begin(start).reader, 0)
  {
    assert sent[..0] == [];
    if sent != [] { AtFirst(Begin(start).reader, start, 0, sent[0]); }
  }

  lemma {:induction false} AllStop(start: Context, sent: seq<Packet>, p: Packet, g: seq<byte>, stream: seq<byte>,
                                   rs: seq<(nat, nat)>)
    requires Fine(start, sent) && Sending(After(start, sent), p)
    requires Altered(After(start, sent), U32(|sent|), p, g) && Refused(After(start, sent), U32(|sent|), p, g)
    requires Stream(start, sent) + g <= stream
    ensures var (r, at) := ReadAll(Begin(start).reader, 0, sent, stream, rs);
            at <= |stream| && Stopping(start, sent, p, g, r, at)
    decreases |rs|
  {
    if rs == [] {
      NothingRead(start, sent);
    } else {
      var (r, at) := ReadAll(Begin(start).reader, 0, sent, stream, rs[..|rs| - 1]);
      AllStop(start, sent, p, g, stream, rs[..|rs| - 1]);
      if !r.exit {
        var (a, b) := rs[|rs| - 1];
        var (s, next) := ReadPacket(r, stream, at, a, b);
        StopsAfter(start, sent, p, g, r, stream, at, a, b, s, next);
      }
    }
  }

  /**
   * Whatever follows a packet that is refused and however it is read, with any re-keys before it:
   * only packets sent before it are ever delivered.
   */
  lemma NothingAfterRefusal(start: Context, sent: seq<Packet>, p: Packet, g: seq<byte>, more: seq<byte>,
                            rs: seq<(nat, nat)>)
    requires Fine(start, sent) && Sending(After(start, sent), p)
    requires Altered(After(start, sent), U32(|sent|), p, g) && Refused(After(start, sent), U32(|sent|), p, g)
    ensures ReadAll(Begin(start).reader, 0, sent, Stream(start, sent) + g + more, rs).0.delivered <= Payloads(sent)
  {
    var stream := Stream(start, sent) + g + more;
    var (r, at) := ReadAll(Begin(start).reader, 0, sent, stream, rs);
    AllStop(start, sent, p, g, stream, rs);
    if r.delivered != Payloads(sent) { PayloadsPrefix(sent, |r.delivered|); }
  }

  /** So a packet whose MAC has been changed in any way ends the session without being delivered. */
  lemma OtherMacEndsAll(start: Context, sent: seq<Packet>, p: Packet, g: seq<byte>, more: seq<byte>, rs: seq<(nat, nat)>)
    requires Fine(start, sent) && Sending(After(start, sent), p) && !After(start, sent).cipher.aead
    requires var f := Frame(After(start, sent), U32(|sent|), p);
             var n := |f| - After(start, sent).cipher.macsize;
             0 <= n && |g| == |f| && g[..n] == f[..n] && g != f
    ensures ReadAll(Begin(start).reader, 0, sent, Stream(start, sent) + g + more, rs).0.delivered <= Payloads(sent)
  {
    OtherMacIsRefused(After(start, sent), U32(|sent|), p, g);
    NothingAfterRefusal(start, sent, p, g, more, rs);
  }

  /** And so does one that the AEAD mode does not open. */
  lemma BrokenSealEndsAll(start: Context, sent: seq<Packet>, p: Packet, g: seq<byte>, more: seq<byte>, rs: seq<(nat, nat)>)
    requires Fine(start, sent) && Sending(After(start, sent), p) && After(start, sent).cipher.aead
    requires Altered(After(start, sent), U32(|sent|), p, g)
    requires After(start, sent).cipher.unseal(After(start, sent).state, U32(|sent|), g).0.None?
    ensures ReadAll(Begin(start).reader, 0, sent, Stream(start, sent) + g + more, rs).0.delivered <= Payloads(sent)
  {
    BrokenSealIsRefused(After(start, sent), U32(|sent|), p, g);
    NothingAfterRefusal(start, sent, p, g, more, rs);
  }
}
