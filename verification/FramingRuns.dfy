/**
 * A sender and a receiver of packets joined by a byte stream: packets are encrypted into a write
 * queue, written in pieces, read in pieces, and decrypted. The contexts that a packet brings
 * into use after itself take effect on both sides; EndToEnd proves that the key exchange does that.
 */
module FramingRuns {
  import opened Options
  import opened Radix
  import opened Sequences
  import opened Framing
  import opened PacketLaws
  import opened ReaderLaws

  // ---- the write queue ----

  /** An encrypted packet waiting to be written, from pos on. */
  datatype Out = Out(bytes: seq<byte>, pos: nat)

  predicate Unwritten(o: Out) { o.pos < |o.bytes| }

  function Rest(o: Out): seq<byte> { if o.pos <= |o.bytes| then o.bytes[o.pos..] else [] }

  /** What is still to be written, in order. */
  function Remaining(q: seq<Out>): seq<byte>
  {
    if q == [] then [] else Rest(q[0]) + Remaining(q[1..])
  }

  const IOVECS: nat := 50

  /** The buffers that packet_queue_to_iovec offers to one writev. */
  function Offered(q: seq<Out>): seq<Out> { if |q| <= IOVECS then q else q[..IOVECS] }

  /** packet_queue_consume. */
  function Consume(q: seq<Out>, written: nat): seq<Out>
    decreases |q|
  {
    if written == 0 || q == [] then q
    else
      var len := |Rest(q[0])|;
      if len > written then [q[0].(pos := q[0].pos + written)] + q[1..]
      else Consume(q[1..], written - len)
  }

  /** Consuming takes exactly that many bytes off the front and leaves no empty buffer. */
  lemma {:induction false} ConsumeTakes(q: seq<Out>, n: nat)
    requires n <= |Remaining(q)| && forall o <- q :: Unwritten(o)
    ensures Remaining(Consume(q, n)) == Remaining(q)[n..]
    ensures forall o <- Consume(q, n) :: Unwritten(o)
    decreases |q|
  {
    if n > 0 && q != [] {
      var first, len := q[0], |Rest(q[0])|;
      assert Remaining(q) == Rest(first) + Remaining(q[1..]);
      Unhead(Rest(first), Remaining(q[1..]), n);
      if len <= n {
        ConsumeTakes(q[1..], n - len);
        assert Consume(q, n) == Consume(q[1..], n - len);
      } else {
        var shorter := first.(pos := first.pos + n);
        var r := [shorter] + q[1..];
        assert Consume(q, n) == r && r[1..] == q[1..];
        assert Rest(shorter) == Rest(first)[n..];
      }
    }
  }

  lemma Unhead(x: seq<byte>, y: seq<byte>, n: nat)
    requires n <= |x| + |y|
    ensures (x + y)[n..] == if n <= |x| then x[n..] + y else y[n - |x|..]
  {
  }

  lemma {:induction false} RemainingConcat(q: seq<Out>, r: seq<Out>)
    ensures Remaining(q + r) == Remaining(q) + Remaining(r)
    decreases |q|
  {
    if q == [] {
      assert q + r == r;
    } else {
      RemainingConcat(q[1..], r);
      assert (q + r)[1..] == q[1..] + r && (q + r)[0] == q[0];
      Regroup(Rest(q[0]), Remaining(q[1..]), Remaining(r), Remaining(q[1..]) + Remaining(r));
    }
  }

  lemma OfferedIsPrefix(q: seq<Out>)
    ensures Remaining(Offered(q)) <= Remaining(q)
  {
    if |q| > IOVECS {
      RemainingConcat(q[..IOVECS], q[IOVECS..]);
      assert q[..IOVECS] + q[IOVECS..] == q;
    }
  }

  // ---- the contexts and the stream ----

  ghost predicate Fine(start: Context, ps: seq<Packet>)
  {
    Lawful(start.cipher) && forall p <- ps :: Sendable(p)
  }

  /** The context for the packet that follows ps. */
  ghost function After(start: Context, ps: seq<Packet>): (c: Context)
    requires Fine(start, ps)
    ensures Lawful(c.cipher)
  {
    if ps == [] then start
    else
      NextContext(After(start, ps[..|ps| - 1]), U32(|ps| - 1), ps[|ps| - 1])
  }

  /** All the bytes that the packets make. */
  ghost function Stream(start: Context, ps: seq<Packet>): seq<byte>
    requires Fine(start, ps)
  {
    if ps == [] then []
    else Stream(start, ps[..|ps| - 1]) + Frame(After(start, ps[..|ps| - 1]), U32(|ps| - 1), ps[|ps| - 1])
  }

  function Payloads(ps: seq<Packet>): seq<seq<byte>>
  {
    if ps == [] then [] else Payloads(ps[..|ps| - 1]) + [ps[|ps| - 1].payload]
  }

  lemma {:induction false} StreamGrows(start: Context, ps: seq<Packet>, n: nat)
    requires Fine(start, ps) && n <= |ps|
    ensures Stream(start, ps[..n]) <= Stream(start, ps)
    decreases |ps|
  {
    if n < |ps| {
      StreamGrows(start, ps[..|ps| - 1], n);
      assert ps[..|ps| - 1][..n] == ps[..n];
    } else {
      assert ps[..n] == ps;
    }
  }

  /** Packet d on the wire. */
  ghost function Current(start: Context, ps: seq<Packet>, d: nat): seq<byte>
    requires Fine(start, ps) && d < |ps|
  {
    Frame(After(start, ps[..d]), U32(d), ps[d])
  }

  /** The stream up to packet d, then packet d, is a prefix of the whole. */
  lemma FrameInStream(start: Context, ps: seq<Packet>, d: nat)
    requires Fine(start, ps) && d < |ps|
    ensures Stream(start, ps[..d]) + Current(start, ps, d) == Stream(start, ps[..d + 1])
    ensures Stream(start, ps[..d]) + Current(start, ps, d) <= Stream(start, ps)
  {
    assert ps[..d + 1][..d] == ps[..d];
    StreamGrows(start, ps, d + 1);
  }

  lemma {:induction false} PayloadsPrefix(ps: seq<Packet>, n: nat)
    requires n <= |ps|
    ensures Payloads(ps[..n]) <= Payloads(ps)
    ensures |Payloads(ps[..n])| == n
    decreases |ps|
  {
    if n < |ps| {
      PayloadsPrefix(ps[..|ps| - 1], n);
      assert ps[..|ps| - 1][..n] == ps[..n];
    } else {
      assert ps[..n] == ps;
      if n > 0 { PayloadsPrefix(ps[..n - 1], n - 1); assert ps[..n - 1][..n - 1] == ps[..n - 1]; }
    }
  }

  // ---- the system ----

  /** written: every byte that write has taken; taken: how many of them the receiver has read. */
  datatype System = System(start: Context, sent: seq<Packet>, queue: seq<Out>, written: seq<byte>, taken: nat,
                           reader: Reader)

  datatype Step = Submit(p: Packet) | Write(n: nat) | Read(a: nat, b: nat)

  function Begin(start: Context): System
  {
    System(start, [], [], [], 0, Reader(start, 0, None, [], false))
  }

  /** encrypt_packet and writebuf_enqueue. */
  ghost function SubmitPacket(s: System, p: Packet): System
    requires Fine(s.start, s.sent) && Sendable(p)
  {
    var bytes := Frame(After(s.start, s.sent), U32(|s.sent|), p);
    s.(sent := s.sent + [p], queue := s.queue + [Out(bytes, 0)])
  }

  /** write_packet: writev takes n bytes of what it is offered, or answers EAGAIN. */
  function WritePacket(s: System, n: nat): System
  {
    if n > |Remaining(Offered(s.queue))| || n > |Remaining(s.queue)| then s
    else s.(queue := Consume(s.queue, n), written := s.written + Remaining(s.queue)[..n])
  }

  /** NEWKEYS received: the context that the packet just delivered brings into use. */
  function Rekeyed(r: Reader, sent: seq<Packet>, before: nat): Reader
  {
    if |r.delivered| == before + 1 && before < |sent| && sent[before].rekey.Some?
    then r.(ctx := sent[before].rekey.value) else r
  }

  function ReadSome(s: System, a: nat, b: nat): System
  {
    if s.taken > |s.written| || s.reader.exit then s
    else
      var (r, next) := ReadPacket(s.reader, s.written, s.taken, a, b);
      s.(reader := Rekeyed(r, s.sent, |s.reader.delivered|), taken := next)
  }

  ghost predicate Allowed(steps: seq<Step>) { forall s <- steps :: s.Submit? ==> Sendable(s.p) }

  ghost function Next(s: System, step: Step): System
    requires Fine(s.start, s.sent) && (step.Submit? ==> Sendable(step.p))
  {
    match step
    case Submit(p) => SubmitPacket(s, p)
    case Write(n) => WritePacket(s, n)
    case Read(a, b) => ReadSome(s, a, b)
  }

  ghost function Run(start: Context, steps: seq<Step>): (s: System)
    requires Lawful(start.cipher) && Allowed(steps)
    ensures s.start == start && Fine(start, s.sent)
  {
    if steps == [] then Begin(start) else Next(Run(start, steps[..|steps| - 1]), steps[|steps| - 1])
  }

  // ---- the invariant ----

  /** Written bytes and the queue make up the stream. */
  ghost predicate SenderInv(s: System)
  {
    && Fine(s.start, s.sent)
    && s.written + Remaining(s.queue) == Stream(s.start, s.sent)
    && (forall o <- s.queue :: Unwritten(o))
  }

  /** The reader has q bytes of packet d. */
  ghost predicate Midway(start: Context, sent: seq<Packet>, d: nat, r: Reader, q: nat)
    requires Fine(start, sent) && d < |sent|
  {
    q < |Current(start, sent, d)| && At(r, After(start, sent[..d]), U32(d), sent[d], q)
  }

  /** The reader has delivered the first d packets and is part way into the next. */
  ghost predicate ReaderInv(start: Context, sent: seq<Packet>, r: Reader, taken: nat)
    requires Fine(start, sent)
  {
    var d := |r.delivered|;
    && d <= |sent|
    && r.delivered == Payloads(sent[..d])
    && |Stream(start, sent[..d])| <= taken
    && var q := taken - |Stream(start, sent[..d])|;
       if d < |sent| then Midway(start, sent, d, r, q)
       else q == 0 && !r.exit && r.seqno == U32(d) && AtStart(r, After(start, sent[..d]), [])
  }

  ghost predicate Inv(s: System)
  {
    SenderInv(s) && s.taken <= |s.written| && ReaderInv(s.start, s.sent, s.reader, s.taken)
  }

  lemma SubmitSends(s: System, p: Packet)
    requires SenderInv(s) && Sendable(p)
    ensures SenderInv(SubmitPacket(s, p))
  {
    var bytes := Frame(After(s.start, s.sent), U32(|s.sent|), p);
    StreamExtends(s.start, s.sent, p);
    QueueExtends(s.queue, bytes);
    Regroup(s.written, Remaining(s.queue), bytes, Remaining(s.queue) + bytes);
  }

  lemma StreamExtends(start: Context, ps: seq<Packet>, p: Packet)
    requires Fine(start, ps) && Sendable(p)
    ensures Fine(start, ps + [p])
    ensures Stream(start, ps + [p]) == Stream(start, ps) + Frame(After(start, ps), U32(|ps|), p)
    ensures |Frame(After(start, ps), U32(|ps|), p)| > 0
  {
    FrameShape(After(start, ps), U32(|ps|), p);
    assert (ps + [p])[..|ps|] == ps;
  }

  lemma QueueExtends(q: seq<Out>, bytes: seq<byte>)
    requires |bytes| > 0
    ensures Remaining(q + [Out(bytes, 0)]) == Remaining(q) + bytes
    ensures (forall o <- q :: Unwritten(o)) ==> forall o <- q + [Out(bytes, 0)] :: Unwritten(o)
  {
    RemainingConcat(q, [Out(bytes, 0)]);
    assert Remaining([Out(bytes, 0)]) == bytes + Remaining([]);
  }

  /** The reader's place is told by the packets it has read, not by those still to come. */
  lemma SubmitReads(start: Context, sent: seq<Packet>, p: Packet, r: Reader, taken: nat)
    requires Fine(start, sent) && Sendable(p) && ReaderInv(start, sent, r, taken)
    ensures Fine(start, sent + [p]) && ReaderInv(start, sent + [p], r, taken)
  {
    var more, d := sent + [p], |r.delivered|;
    assert more[..d] == sent[..d];
    if d == |sent| {
      assert more[d] == p;
      AtFirst(r, After(start, sent[..d]), U32(d), p);
    } else {
      assert more[d] == sent[d];
    }
  }

  lemma AtFirst(r: Reader, ctx: Context, seqno: nat, p: Packet)
    requires Sending(ctx, p) && !r.exit && r.seqno == seqno && AtStart(r, ctx, [])
    ensures 0 < |Frame(ctx, seqno, p)| && At(r, ctx, seqno, p, 0)
  {
    FrameShape(ctx, seqno, p);
    assert Frame(ctx, seqno, p)[..0] == [];
  }

  lemma WriteSends(s: System, n: nat)
    requires SenderInv(s)
    ensures SenderInv(WritePacket(s, n)) && s.written <= WritePacket(s, n).written
  {
    if n <= |Remaining(Offered(s.queue))| && n <= |Remaining(s.queue)| {
      ConsumeTakes(s.queue, n);
      var rest := Remaining(s.queue);
      assert (s.written + rest[..n]) + rest[n..] == s.written + rest;
    }
  }

  lemma WriteKeeps(s: System, n: nat)
    requires Inv(s)
    ensures Inv(WritePacket(s, n))
  {
    WriteSends(s, n);
  }

  /** Where the reader stands in the stream is where it stands in the frame. */
  lemma StandsInFrame(pre: seq<byte>, f: seq<byte>, whole: seq<byte>, written: seq<byte>, q: nat, taken: nat)
    requires pre + f <= whole && written <= whole && taken == |pre| + q && q <= |f| && taken <= |written|
    ensures InStream(f, q, written, taken)
  {
    var n := Min(|f| - q, |written| - taken);
    assert whole[..|pre| + |f|] == pre + f && whole[..|written|] == written;
    assert written[taken..taken + n] == whole[taken..taken + n];
    assert f[q..q + n] == (pre + f)[taken..taken + n];
  }

  lemma SeqnoSteps(d: nat)
    ensures U32(U32(d) + 1) == U32(d + 1)
  {
  }

  /** The start of the next packet, or of waiting for one. */
  lemma AfterDelivery(start: Context, sent: seq<Packet>, d: nat, r: Reader, taken: nat)
    requires Fine(start, sent) && 0 < d <= |sent|
    requires r.delivered == Payloads(sent[..d]) && !r.exit && r.seqno == U32(d)
    requires taken == |Stream(start, sent[..d])|
    requires AtStart(r, After(start, sent[..d]), [])
    ensures ReaderInv(start, sent, r, taken)
  {
    PayloadsPrefix(sent, d);
    if d < |sent| {
      AtFirst(r, After(start, sent[..d]), U32(d), sent[d]);
    }
  }

  /** Delivering packet d, and taking its new context into use if it brings one. */
  lemma Delivers(start: Context, sent: seq<Packet>, d: nat, r: Reader, s: Reader, taken: nat)
    requires Fine(start, sent) && d < |sent| && r.delivered == Payloads(sent[..d]) && |r.delivered| == d
    requires Delivered(r, s, After(start, sent[..d]), U32(d), sent[d])
    requires taken == |Stream(start, sent[..d])| + |Current(start, sent, d)|
    ensures ReaderInv(start, sent, Rekeyed(s, sent, d), taken)
  {
    assert sent[..d + 1][..d] == sent[..d];
    FrameInStream(start, sent, d);
    SeqnoSteps(d);
    AfterDelivery(start, sent, d + 1, Rekeyed(s, sent, d), taken);
  }

  /** What Progress means for the reader's place. */
  lemma Progressed(start: Context, sent: seq<Packet>, d: nat, r: Reader, s: Reader, q: nat, next: nat)
    requires Fine(start, sent) && d < |sent| && r.delivered == Payloads(sent[..d]) && |r.delivered| == d
    requires next == |Stream(start, sent[..d])| + q
    requires Progress(r, s, After(start, sent[..d]), U32(d), sent[d], q)
    ensures ReaderInv(start, sent, Rekeyed(s, sent, d), next)
  {
    if q == |Current(start, sent, d)| {
      Delivers(start, sent, d, r, s, next);
    } else {
      assert Rekeyed(s, sent, d) == s;
      assert next - |Stream(start, sent[..d])| == q;
    }
  }

  /** One read_packet in packet d of the stream, of which q bytes have been read. */
  lemma ReadsIn(start: Context, sent: seq<Packet>, d: nat, r: Reader, stream: seq<byte>, q: nat, taken: nat, a: nat, b: nat)
    requires Fine(start, sent) && d < |sent| && r.delivered == Payloads(sent[..d]) && |r.delivered| == d
    requires taken == |Stream(start, sent[..d])| + q && taken <= |stream|
    requires Midway(start, sent, d, r, q) && InStream(Current(start, sent, d), q, stream, taken)
    ensures var (s, next) := ReadPacket(r, stream, taken, a, b);
            next <= |stream| && ReaderInv(start, sent, Rekeyed(s, sent, d), next)
  {
    var (s, next) := ReadPacket(r, stream, taken, a, b);
    ReadProgress(r, After(start, sent[..d]), U32(d), sent[d], q, stream, taken, a, b);
    Progressed(start, sent, d, r, s, q + (next - taken), next);
  }

  lemma ReadsOn(start: Context, sent: seq<Packet>, r: Reader, stream: seq<byte>, taken: nat, a: nat, b: nat)
    requires Fine(start, sent) && ReaderInv(start, sent, r, taken) && |r.delivered| < |sent| && taken <= |stream|
    requires stream <= Stream(start, sent)
    ensures var (s, next) := ReadPacket(r, stream, taken, a, b);
            next <= |stream| && ReaderInv(start, sent, Rekeyed(s, sent, |r.delivered|), next)
  {
    var d := |r.delivered|;
    var pre, f, whole := Stream(start, sent[..d]), Current(start, sent, d), Stream(start, sent);
    var q := taken - |pre|;
    assert Midway(start, sent, d, r, q);
    FrameInStream(start, sent, d);
    StandsInFrame(pre, f, whole, stream, q, taken);
    ReadsIn(start, sent, d, r, stream, q, taken, a, b);
  }

  lemma ReadInPacket(s: System, a: nat, b: nat)
    requires Inv(s) && |s.reader.delivered| < |s.sent|
    ensures Inv(ReadSome(s, a, b))
  {
    ReadsOn(s.start, s.sent, s.reader, s.written, s.taken, a, b);
  }

  /** With every packet delivered there is nothing to read. */
  lemma ReadWaiting(s: System, a: nat, b: nat)
    requires Inv(s) && |s.reader.delivered| == |s.sent|
    ensures Inv(ReadSome(s, a, b))
  {
    assert s.sent[..|s.sent|] == s.sent;
  }

  lemma ReadKeeps(s: System, a: nat, b: nat)
    requires Inv(s)
    ensures Inv(ReadSome(s, a, b))
  {
    if |s.reader.delivered| < |s.sent| { ReadInPacket(s, a, b); } else { ReadWaiting(s, a, b); }
  }

  lemma {:induction false} RunKeeps(start: Context, steps: seq<Step>)
    requires Lawful(start.cipher) && Allowed(steps)
    ensures Inv(Run(start, steps))
    decreases |steps|
  {
    if steps == [] {
      assert Begin(start).sent[..0] == [];
    } else {
      var before, step := Run(start, steps[..|steps| - 1]), steps[|steps| - 1];
      RunKeeps(start, steps[..|steps| - 1]);
      match step
      case Submit(p) => SubmitKeeps(before, p);
      case Write(n) => WriteKeeps(before, n);
      case Read(a, b) => ReadKeeps(before, a, b);
    }
  }

  lemma SubmitKeeps(s: System, p: Packet)
    requires Inv(s) && Sendable(p)
    ensures Inv(SubmitPacket(s, p))
  {
    SubmitSends(s, p);
    SubmitReads(s.start, s.sent, p, s.reader, s.taken);
  }

  /**
   * Under any fragmentation of writes and reads the payloads delivered are the first of those
   * encrypted, in order; no length or MAC check fails and the sequence numbers agree.
   */
  lemma FramingRoundTrip(start: Context, steps: seq<Step>)
    requires Lawful(start.cipher) && Allowed(steps)
    ensures var s := Run(start, steps);
            && !s.reader.exit
            && s.reader.delivered <= Payloads(s.sent)
            && s.reader.seqno == U32(|s.reader.delivered|)
  {
    var s := Run(start, steps);
    RunKeeps(start, steps);
    PayloadsPrefix(s.sent, |s.reader.delivered|);
  }

  lemma AllRead(s: System)
    requires Inv(s) && s.queue == [] && s.taken == |s.written|
    ensures |s.reader.delivered| == |s.sent|
  {
    var d := |s.reader.delivered|;
    assert s.written == Stream(s.start, s.sent);
    if d < |s.sent| {
      FrameInStream(s.start, s.sent, d);
    }
  }

  lemma AllDelivered(s: System)
    requires Inv(s) && |s.reader.delivered| == |s.sent|
    ensures s.reader.delivered == Payloads(s.sent)
  {
    assert s.sent[..|s.sent|] == s.sent;
  }

  /** Once everything has been written and read, everything has been delivered. */
  lemma NothingLeftBehind(start: Context, steps: seq<Step>)
    requires Lawful(start.cipher) && Allowed(steps)
    requires Run(start, steps).queue == [] && Run(start, steps).taken == |Run(start, steps).written|
    ensures Run(start, steps).reader.delivered == Payloads(Run(start, steps).sent)
  {
    RunKeeps(start, steps);
    AllRead(Run(start, steps));
    AllDelivered(Run(start, steps));
  }
}
