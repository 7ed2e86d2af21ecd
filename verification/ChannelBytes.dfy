/**
 * The bytes at both ends of a channel: what is read from a descriptor is what is sent, what a
 * write takes is what counts as written, and so the bytes written at one end are those read at
 * the other. And what check_close leaves undone: nothing.
 */
module ChannelBytes {
  import opened Options
  import opened Radix
  import opened Sequences
  import opened Channels
  import opened ChannelLaws
  import opened ChannelPeers
  import opened ChannelRuns

  // ---- reading ----

  /** A read of at most what window, packet size and buffer allow: all of it is sent, in one message. */
  lemma ReadIsSent(c: Channel, ext: bool, b: seq<byte>)
    requires !c.flags.sentClose && (if ext then c.fds.errfd else c.fds.readfd) >= 0
    requires 0 < |b| <= c.credit.transwindow && |b| <= c.setup.transmax
    requires |b| <= c.setup.room - if ext then 4 else 0
    ensures var d := SendData(c, ext, Got(b));
            && d == c.(out := c.out + [if ext then ExtendedData(b) else Data(b)],
                       credit := c.credit.(transwindow := c.credit.transwindow - |b|))
            && Stream(d.out, ext) == Stream(c.out, ext) + b && Stream(d.out, !ext) == Stream(c.out, !ext)
  {
    Append(c.out, if ext then ExtendedData(b) else Data(b), ext);
    Append(c.out, if ext then ExtendedData(b) else Data(b), !ext);
    assert Stream(c.out, !ext) + [] == Stream(c.out, !ext);
  }

  /** Without a window nothing is read, let alone sent; at the end of file reading stops for good. */
  lemma ReadNothing(c: Channel, ext: bool, r: ReadResult)
    requires !c.flags.sentClose && (if ext then c.fds.errfd else c.fds.readfd) >= 0
    ensures c.credit.transwindow <= 0 ==> SendData(c, ext, r) == c
    ensures r.Interrupted? || r == Got([]) ==> SendData(c, ext, r) == c
    ensures r.Ended? ==> SendData(c, ext, r) == c.(fds := SendData(c, ext, r).fds)
    ensures r.Ended? && 0 < c.credit.transwindow && 0 < c.setup.transmax && 4 < c.setup.room ==>
              (if ext then SendData(c, ext, r).fds.errfd == FD_CLOSED || c.setup.hasExtra
               else SendData(c, ext, r).fds.readfd == FD_CLOSED)
  {
  }

  /** What one read takes from its descriptor: at most what was asked for, nothing if nothing was. */
  function Taken(c: Channel, ext: bool, r: ReadResult): seq<byte>
  {
    var most := Min(Min(c.credit.transwindow, c.setup.transmax), c.setup.room - (if ext then 4 else 0));
    if r.Got? && most > 0 then r.bytes[..Min(|r.bytes|, most)] else []
  }

  lemma SendsTaken(c: Channel, ext: bool, r: ReadResult)
    requires !c.flags.sentClose && (if ext then c.fds.errfd else c.fds.readfd) >= 0
    ensures var d := SendData(c, ext, r);
            Stream(d.out, ext) == Stream(c.out, ext) + Taken(c, ext, r) && Stream(d.out, !ext) == Stream(c.out, !ext)
  {
    var b := Taken(c, ext, r);
    if b != [] {
      var d := SendData(c, ext, r);
      assert r.bytes[..|r.bytes|] == r.bytes;
      assert d.out == c.out + [if ext then ExtendedData(b) else Data(b)];
      Append(c.out, if ext then ExtendedData(b) else Data(b), ext);
      Append(c.out, if ext then ExtendedData(b) else Data(b), !ext);
      assert Stream(c.out, !ext) + [] == Stream(c.out, !ext);
    } else {
      assert SendData(c, ext, r).out == c.out;
      assert Stream(c.out, ext) + [] == Stream(c.out, ext);
    }
  }

  // ---- writing ----

  lemma DrainTakes(s: Sink, extra: seq<byte>, m: nat)
    requires m <= |s.ring| + |extra|
    ensures Drain(s, extra, m).written == s.written + (s.ring + extra)[..m]
    ensures Drain(s, extra, m).ring == s.ring[Min(m, |s.ring|)..]
  {
    var k := Min(m, |s.ring|);
    assert (s.ring + extra)[..m] == s.ring[..k] + extra[..m - k];
    Regroup(s.written, s.ring[..k], extra[..m - k], (s.ring + extra)[..m]);
  }

  /** n bytes that the descriptor took are the first n of what was held, then of the packet; no more has left. */
  lemma WriteTakes(c: Channel, ext: bool, more: Option<seq<byte>>, n: nat)
    requires more.Some? || SinkOf(c, ext).ring != []
    ensures var (d, consumed, ok) := WriteChannel(c, ext, more, Wrote(n));
            var s, t := SinkOf(c, ext), SinkOf(d, ext);
            var all := s.ring + if more.Some? && c.setup.vectored then more.value else [];
            var m := Min(n, |all|);
            && ok && t.written == s.written + all[..m]
            && t.ring == s.ring[Min(m, |s.ring|)..] && consumed == m - Min(m, |s.ring|)
  {
    var s := SinkOf(c, ext);
    var extra := if more.Some? && c.setup.vectored then more.value else [];
    DrainTakes(s, extra, Min(n, |s.ring| + |extra|));
    var (d, consumed, ok) := WriteOut(c, ext, more, Wrote(n));
    assert SinkOf(d, ext) == Drain(s, extra, Min(n, |s.ring| + |extra|));
    assert SinkOf(WriteChannel(c, ext, more, Wrote(n)).0, ext) == SinkOf(d, ext);
  }

  // ---- windows ----

  /** A grant raises the window by what it says, both limited to 500000000, and never wraps. */
  lemma GrantRaises(c: Channel, incr: int)
    requires 0 <= c.credit.transwindow <= 500000000 && 0 <= incr < 0x1_0000_0000
    ensures AdjustWindow(c, incr).credit.transwindow == Min(c.credit.transwindow + Min(incr, 500000000), 500000000)
  {
  }

  // ---- check_close ----

  /**
   * check_close leaves nothing undone. Once the peer has sent CLOSE and nothing is left to write
   * the channel is removed, CLOSE having been sent. If not, EOF has been sent when there is
   * nothing more to read, writing has ended when the peer has sent EOF and everything is written,
   * and CLOSE has been sent when all that is over.
   */
  lemma CheckCloseActs(c: Channel, p: Probe)
    requires !c.removed
    ensures var d, allowed := CheckClose(c, p), CloseAllowed(c, p);
            && (d.removed <==> c.flags.recvClose && !WritePending(Flushed(c, p)) && allowed)
            && (d.removed ==> d.flags.sentClose && (!c.flags.sentClose ==> d.out == c.out + [Close]))
            && (!d.removed ==>
                  && (ReadingOver(d) ==> d.flags.sentEof)
                  && (c.flags.recvEof && !WritePending(Flushed(c, p)) ==> d.fds.writefd == FD_CLOSED)
                  && (ReadingOver(d) && d.fds.writefd == FD_CLOSED && !WritePending(d) && allowed ==> d.flags.sentClose))
  {
    var e := Flushed(c, p);
    var s := StopWriting(e, CloseAllowed(c, p));
    MaybeCloseActs(s, CloseAllowed(c, p));
  }

  lemma MaybeCloseActs(s: Channel, allowed: bool)
    ensures var d := MaybeClose(MaybeEof(s), allowed);
            && d.removed == s.removed && (ReadingOver(d) ==> d.flags.sentEof)
            && (ReadingOver(d) && d.fds.writefd == FD_CLOSED && !WritePending(d) && allowed ==> d.flags.sentClose)
            && (s.fds.writefd == FD_CLOSED ==> d.fds.writefd == FD_CLOSED)
  {
  }

  // ---- what else an operation adds to the log ----

  /** Messages without data add nothing to either stream. */
  lemma {:induction false} NoDataNoStream(ms: seq<Msg>, ns: seq<Msg>, ext: bool)
    requires ms <= ns && Sent(ns) == Sent(ms)
    ensures Stream(ns, ext) == Stream(ms, ext)
    decreases |ns|
  {
    if |ns| > |ms| {
      var front, m := ns[..|ns| - 1], ns[|ns| - 1];
      SentGrows(ms, front);
      assert Size(m) == 0 && Part(m, ext) == [];
      NoDataNoStream(ms, front, ext);
      assert Stream(front, ext) + [] == Stream(front, ext);
    } else {
      assert ms == ns;
    }
  }

  lemma {:induction false} SentGrows(ms: seq<Msg>, ns: seq<Msg>)
    requires ms <= ns
    ensures Sent(ms) <= Sent(ns)
    decreases |ns|
  {
    if |ns| > |ms| { SentGrows(ms, ns[..|ns| - 1]); } else { assert ms == ns; }
  }

  lemma WriteSendsNone(c: Channel, ext: bool, more: Option<seq<byte>>, w: WriteResult)
    ensures Sent(WriteChannel(c, ext, more, w).0.out) == Sent(c.out)
  {
    var d := WriteOut(c, ext, more, w).0;
    assert d.out == c.out;
    Append(d.out, WindowAdjust(d.credit.recvdone), false);
  }

  lemma CheckCloseSendsNone(c: Channel, p: Probe)
    ensures Sent(CheckClose(c, p).out) == Sent(c.out)
  {
    SettleUntold(Flushed(c, p), CloseAllowed(c, p));
  }

  lemma ReceiveSendsNone(c: Channel, ext: bool, data: seq<byte>, w: WriteResult)
    ensures Sent(ReceiveData(c, ext, data, w).out) == Sent(c.out)
  {
    WriteSendsNone(Charge(c, |data|), ext, Some(data), w);
  }

  lemma DeliverSendsNone(c: Channel, m: Msg, w: WriteResult, p: Probe)
    ensures Sent(Deliver(c, m, w, p).out) == Sent(c.out)
  {
    match m
    case Data(data) => ReceiveSendsNone(c, false, data, w);
    case ExtendedData(data) => ReceiveSendsNone(c, true, data, w);
    case WindowAdjust(_) =>
    case Eof => CheckCloseSendsNone(c.(flags := c.flags.(recvEof := true)), p);
    case Close => CheckCloseSendsNone(c.(flags := c.flags.(recvEof := true, recvClose := true)), p);
  }

  // ---- whole runs ----

  /** What one pass of channelio reads from the descriptor of one kind. */
  function PassReads(c: Channel, io: Io, ext: bool): seq<byte>
  {
    if !ext then if c.fds.readfd >= 0 && io.read.Some? then Taken(c, false, io.read.value) else []
    else
      var d := IoRead(c, io);
      if !c.setup.hasExtra && d.fds.errfd >= 0 && io.readErr.Some? then Taken(d, true, io.readErr.value) else []
  }

  lemma PassSends(c: Channel, io: Io, got: seq<Msg>, peerWindow: nat, ext: bool)
    requires Sound(c, got, peerWindow) && !c.removed
    ensures Stream(ChannelIo(c, io).out, ext) == Stream(c.out, ext) + PassReads(c, io, ext)
  {
    var d, r := IoRead(c, io), IoReads(c, io);
    OpenSendsOn(c, got, peerWindow);
    if DueRead(c, io) { SendsTaken(c, false, io.read.value); }
    IoReadIsSound(c, io, got, peerWindow);
    OpenSendsOn(d, got, peerWindow);
    if DueReadErr(d, io) { SendsTaken(d, true, io.readErr.value); }
    assert Stream(c.out, ext) + [] == Stream(c.out, ext) && Stream(d.out, ext) + [] == Stream(d.out, ext);
    RestSends(c, io, got, peerWindow, ext);
  }

  /** An end that has sent CLOSE has no descriptor to read from. */
  lemma OpenSendsOn(c: Channel, got: seq<Msg>, peerWindow: nat)
    requires Sound(c, got, peerWindow) && !c.removed
    ensures c.fds.readfd >= 0 || c.fds.errfd >= 0 ==> !c.flags.sentClose
  {
  }

  lemma RestSends(c: Channel, io: Io, got: seq<Msg>, peerWindow: nat, ext: bool)
    requires Sound(c, got, peerWindow) && !c.removed
    ensures Stream(ChannelIo(c, io).out, ext) == Stream(IoReads(c, io).out, ext)
  {
    var r := IoReads(c, io);
    var w := IoWrites(r, io);
    ChannelIoPath(c, io, got, peerWindow);
    if DueWrite(r, io) { WriteSendsNone(r, false, None, io.write.value); }
    if DueWriteErr(IoWrite(r, io), io) { WriteSendsNone(IoWrite(r, io), true, None, io.writeErr.value); }
    CheckCloseSendsNone(w, io.probe);
    NoDataNoStream(r.out, ChannelIo(c, io).out, ext);
  }

  /** What a step makes end a read from its descriptors. */
  function StepReads(l: Link, e: Event, ext: bool): seq<byte>
  {
    if e.Descriptors? && !l.a.removed then PassReads(l.a, e.io, ext) else []
  }

  lemma StepSends(l: Link, e: Event, ext: bool)
    requires Inv(l)
    ensures Stream(StepA(l, e).a.out, ext) == Stream(l.a.out, ext) + StepReads(l, e, ext) && StepA(l, e).b == l.b
  {
    assert Stream(l.a.out, ext) + [] == Stream(l.a.out, ext);
    match e
    case Descriptors(io) => if !l.a.removed { PassSends(l.a, io, GotByA(l), l.b.setup.window, ext); }
    case Delivery(w, p) =>
      if l.fromB < |l.b.out| {
        DeliverSendsNone(l.a, l.b.out[l.fromB], w, p);
        NoDataNoStream(l.a.out, Deliver(l.a, l.b.out[l.fromB], w, p).out, ext);
      }
  }

  /** All that one end has read from its descriptors of one kind in a run. */
  function ReadAt(x: Ends, steps: seq<Step>, atA: bool, ext: bool): seq<byte>
    decreases |steps|
  {
    if steps == [] then []
    else
      var front, s := steps[..|steps| - 1], steps[|steps| - 1];
      var l := Run(Open(x), front);
      ReadAt(x, front, atA, ext) +
      if s.atA != atA || l.a.exit.Some? || l.b.exit.Some? then []
      else StepReads(if atA then l else Swap(l), s.event, ext)
  }

  lemma {:induction false} SentIsRead(x: Ends, steps: seq<Step>, atA: bool, ext: bool)
    requires Proper(x)
    ensures Stream(Seen(x, steps, atA).a.out, ext) == ReadAt(x, steps, atA, ext)
    decreases |steps|
  {
    if steps != [] {
      var front, s := steps[..|steps| - 1], steps[|steps| - 1];
      var l := Run(Open(x), front);
      RunIsSound(x, front);
      SentIsRead(x, front, atA, ext);
      var was := ReadAt(x, front, atA, ext);
      assert was + [] == was;
      if l.a.exit.None? && l.b.exit.None? {
        StepSends(if s.atA then l else Swap(l), s.event, ext);
      }
    }
  }

  /**
   * From descriptor to descriptor: what one end has written, holds and has skipped, and what is
   * on its way to it, is in this order what the other end has read.
   */
  lemma BytesReadArrive(x: Ends, steps: seq<Step>, atA: bool, ext: bool)
    requires Proper(x)
    ensures var l := Seen(x, steps, atA);
            var s := SinkOf(l.a, ext);
            && s.written + s.ring + s.skipped + Stream(ToA(l), ext) == ReadAt(x, steps, !atA, ext)
            && (Taking(l.a, ext) ==> s.skipped == [])
            && s.written + s.ring <= ReadAt(x, steps, !atA, ext)
  {
    StreamFidelity(x, steps, atA, ext);
    SentIsRead(x, steps, !atA, ext);
  }
}
