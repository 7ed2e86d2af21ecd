/**
 * Nothing is lost on the way to a clean close: when a channel without a process behind it is
 * removed and no write has failed, every byte the peer sent has been written.
 */
module ChannelDelivery {
  import opened Options
  import opened Radix
  import opened Channels
  import opened ChannelLaws
  import opened ChannelPeers
  import opened ChannelRuns

  /** Everything received has been written, and no more can come. */
  predicate Complete(c: Channel, got: seq<Msg>)
  {
    c.flags.recvEof && c.writebuf.written == Stream(got, false)
  }

  predicate Whole(c: Channel, got: seq<Msg>)
  {
    (c.fds.writefd >= 0 && !c.removed) || Complete(c, got)
  }

  /** The descriptor written to is not closed by closing another. */
  predicate Apart(setup: Setup, f: Fds)
  {
    setup.bidir || f.writefd < 0 || (f.readfd != f.writefd && f.errfd != f.writefd)
  }

  predicate Plain(c: Channel) { !c.setup.gated && Apart(c.setup, c.fds) }

  predicate Good(c: Channel, got: seq<Msg>, peerWindow: nat)
  {
    Sound(c, got, peerWindow) && Plain(c) && Whole(c, got)
  }

  lemma Untouched(c: Channel, d: Channel, got: seq<Msg>)
    requires Plain(c) && Whole(c, got) && d.setup == c.setup && d.flags.recvEof == c.flags.recvEof
    requires ClosedFrom(c.fds, d.fds) && d.fds.writefd == c.fds.writefd && d.removed == c.removed
    requires d.writebuf.written == c.writebuf.written || (c.fds.writefd >= 0 && !c.removed)
    ensures Plain(d) && Whole(d, got)
  {
  }

  lemma SendDataKeeps(c: Channel, ext: bool, r: ReadResult, got: seq<Msg>, peerWindow: nat)
    requires Good(c, got, peerWindow) && !c.removed
    requires if ext then c.fds.errfd >= 0 && !c.setup.hasExtra else c.fds.readfd >= 0
    ensures Good(SendData(c, ext, r), got, peerWindow) && !SendData(c, ext, r).removed
  {
    SendDataIsSound(c, ext, r, got, peerWindow);
    CloseFdCloses(c.setup, c.fds, if ext then c.fds.errfd else c.fds.readfd, ShutRd);
    Untouched(c, SendData(c, ext, r), got);
  }

  /** A write that does not fail closes nothing. */
  lemma UnfailingWrite(c: Channel, ext: bool, more: Option<seq<byte>>, w: WriteResult)
    requires !w.Failed?
    ensures var (d, consumed, ok) := WriteChannel(c, ext, more, w);
            ok && d.fds == c.fds && d.flags == c.flags && d.removed == c.removed && (ext ==> d.writebuf == c.writebuf)
  {
  }

  lemma WriteKeeps(c: Channel, ext: bool, w: WriteResult, got: seq<Msg>, peerWindow: nat)
    requires Good(c, got, peerWindow) && !c.removed && SinkFd(c, ext) >= 0 && (ext ==> c.setup.hasExtra) && !w.Failed?
    ensures var d := WriteChannel(c, ext, None, w).0; Good(d, got, peerWindow) && !d.removed
  {
    WriteIsSound(c, ext, w, got, peerWindow);
    UnfailingWrite(c, ext, None, w);
    Untouched(c, WriteChannel(c, ext, None, w).0, got);
  }

  /** With nothing pending, a sink that can be written has written all it got. */
  lemma NothingPending(c: Channel, got: seq<Msg>, peerWindow: nat)
    requires Good(c, got, peerWindow) && c.flags.recvEof && !WritePending(c)
    ensures Complete(c, got)
  {
    var s := c.writebuf;
    if c.fds.writefd >= 0 {
      assert s.written + s.ring + s.skipped == s.written;
    }
  }

  lemma StopWritingKeeps(c: Channel, allowed: bool, got: seq<Msg>, peerWindow: nat)
    requires Good(c, got, peerWindow) && !c.removed
    ensures var d := StopWriting(c, allowed); Good(d, got, peerWindow) && !d.removed
  {
    StopWritingIsSound(c, allowed, got, peerWindow);
    if StopWriting(c, allowed) != c {
      NothingPending(c, got, peerWindow);
      CloseFdCloses(c.setup, c.fds, c.fds.writefd, ShutWr);
    }
  }

  lemma MaybeCloseKeeps(c: Channel, allowed: bool, got: seq<Msg>, peerWindow: nat)
    requires Good(c, got, peerWindow) && !c.removed
    ensures Good(MaybeEof(c), got, peerWindow) && !MaybeEof(c).removed
    ensures Good(MaybeClose(c, allowed), got, peerWindow)
  {
    MaybeCloseIsSound(c, allowed, got, peerWindow);
  }

  lemma SettleKeeps(c: Channel, allowed: bool, got: seq<Msg>, peerWindow: nat)
    requires Good(c, got, peerWindow) && !c.removed
    ensures Good(Settle(c, allowed), got, peerWindow)
  {
    if Removing(c, allowed) {
      SettleIsSound(c, allowed, got, peerWindow);
      NothingPending(c, got, peerWindow);
    } else {
      StopWritingKeeps(c, allowed, got, peerWindow);
      MaybeCloseKeeps(StopWriting(c, allowed), allowed, got, peerWindow);
      MaybeCloseKeeps(MaybeEof(StopWriting(c, allowed)), allowed, got, peerWindow);
    }
  }

  lemma CheckCloseKeeps(c: Channel, p: Probe, got: seq<Msg>, peerWindow: nat)
    requires Good(c, got, peerWindow) && !c.removed
    ensures Good(CheckClose(c, p), got, peerWindow)
  {
    var d := c.(flags := c.flags.(flushing := c.flags.flushing));
    assert d == c;
    FlushFdsCloses(c, p);
    ClosingIsSound(c, FlushFds(c, p).fds, got, peerWindow);
    Untouched(c, FlushFds(c, p), got);
    SettleKeeps(Flushed(c, p), CloseAllowed(c, p), got, peerWindow);
  }

  /** No write of this pass fails. */
  predicate Unfailing(e: Event)
  {
    match e
    case Descriptors(io) => io.write != Some(Failed) && io.writeErr != Some(Failed)
    case Delivery(w, _) => !w.Failed?
  }

  lemma IoReadKeeps(c: Channel, io: Io, got: seq<Msg>, peerWindow: nat)
    requires Good(c, got, peerWindow) && !c.removed
    ensures Good(IoRead(c, io), got, peerWindow) && !IoRead(c, io).removed && IoRead(c, io).exit.None?
    ensures Good(IoReadErr(c, io), got, peerWindow) && !IoReadErr(c, io).removed && IoReadErr(c, io).exit.None?
  {
    if IoRead(c, io) != c { SendDataKeeps(c, false, io.read.value, got, peerWindow); }
    if IoReadErr(c, io) != c { SendDataKeeps(c, true, io.readErr.value, got, peerWindow); }
  }

  lemma IoWriteKeeps(c: Channel, ext: bool, io: Io, got: seq<Msg>, peerWindow: nat)
    requires Good(c, got, peerWindow) && !c.removed && Unfailing(Descriptors(io))
    ensures var d := if ext then IoWriteErr(c, io) else IoWrite(c, io);
            Good(d, got, peerWindow) && !d.removed && d.exit.None?
  {
    var w := if ext then io.writeErr else io.write;
    if w.Some? && SinkFd(c, ext) >= 0 && (ext ==> c.setup.hasExtra) {
      WriteKeeps(c, ext, w.value, got, peerWindow);
    }
  }

  lemma ChannelIoKeeps(c: Channel, io: Io, got: seq<Msg>, peerWindow: nat)
    requires Good(c, got, peerWindow) && !c.removed && Unfailing(Descriptors(io))
    ensures Good(ChannelIo(c, io), got, peerWindow)
  {
    IoReadKeeps(c, io, got, peerWindow);
    IoReadKeeps(IoRead(c, io), io, got, peerWindow);
    var r := IoReadErr(IoRead(c, io), io);
    IoWriteKeeps(r, false, io, got, peerWindow);
    IoWriteKeeps(IoWrite(r, io), true, io, got, peerWindow);
    CheckCloseKeeps(IoWriteErr(IoWrite(r, io), io), io.probe, got, peerWindow);
  }

  lemma AdmitFrame(c: Channel, ext: bool, data: seq<byte>, w: WriteResult)
    requires !w.Failed?
    ensures var d := Admit(c, ext, data, w); d.fds == c.fds && d.flags == c.flags && d.removed == c.removed
  {
    UnfailingWrite(Charge(c, |data|), ext, Some(data), w);
  }

  lemma ReceiveFrame(c: Channel, ext: bool, data: seq<byte>, w: WriteResult)
    requires !w.Failed?
    ensures var d := ReceiveData(c, ext, data, w); d.fds == c.fds && d.flags == c.flags && d.removed == c.removed
  {
    AdmitFrame(c, ext, data, w);
  }

  lemma DataKeeps(c: Channel, ext: bool, data: seq<byte>, w: WriteResult, p: Probe, got: seq<Msg>, peerWindow: nat)
    requires Good(c, got, peerWindow) && !c.removed && Acceptable(c, DataMsg(ext, data), got, peerWindow) && !w.Failed?
    ensures Good(Deliver(c, DataMsg(ext, data), w, p), got + [DataMsg(ext, data)], peerWindow)
  {
    DataIsSound(c, ext, data, w, p, got, peerWindow);
    ReceiveFrame(c, ext, data, w);
    assert c.fds.writefd >= 0;
  }

  lemma EndKeeps(c: Channel, close: bool, p: Probe, got: seq<Msg>, peerWindow: nat)
    requires Good(c, got, peerWindow) && !c.removed && Close !in got
    ensures var m := if close then Close else Eof;
            Good(CheckClose(c.(flags := c.flags.(recvEof := true, recvClose := close)), p), got + [m], peerWindow)
  {
    var m := if close then Close else Eof;
    EndIsSound(c, close, p, got, peerWindow);
    Append(got, m, false);
    CheckCloseKeeps(c.(flags := c.flags.(recvEof := true, recvClose := close)), p, got + [m], peerWindow);
  }

  lemma DeliverKeeps(c: Channel, m: Msg, w: WriteResult, p: Probe, got: seq<Msg>, peerWindow: nat)
    requires Good(c, got, peerWindow) && !c.removed && Acceptable(c, m, got, peerWindow) && !w.Failed?
    ensures Good(Deliver(c, m, w, p), got + [m], peerWindow)
  {
    match m
    case Data(data) => DataKeeps(c, false, data, w, p, got, peerWindow);
    case ExtendedData(data) => DataKeeps(c, true, data, w, p, got, peerWindow);
    case WindowAdjust(incr) =>
      DeliverIsSound(c, m, w, p, got, peerWindow);
      Append(got, m, false);
    case Eof =>
      assert !c.flags.recvClose;
      EndKeeps(c, false, p, got, peerWindow);
    case Close => EndKeeps(c, true, p, got, peerWindow);
  }

  predicate Clean(l: Link)
  {
    Inv(l) && Good(l.a, GotByA(l), l.b.setup.window)
  }

  lemma GoodAfter(l: Link, d: Channel)
    requires l.fromB < |l.b.out| && Good(d, GotByA(l) + [l.b.out[l.fromB]], l.b.setup.window)
    ensures var n := l.(a := d, fromB := l.fromB + 1); Good(n.a, GotByA(n), n.b.setup.window)
  {
    assert l.b.out[..l.fromB + 1] == GotByA(l) + [l.b.out[l.fromB]];
  }

  lemma DeliveryKeeps(l: Link, w: WriteResult, p: Probe)
    requires Clean(l) && !w.Failed? && l.fromB < |l.b.out|
    ensures var n := l.(a := Deliver(l.a, l.b.out[l.fromB], w, p), fromB := l.fromB + 1);
            Good(n.a, GotByA(n), n.b.setup.window)
  {
    NextIsAcceptable(l);
    DeliverKeeps(l.a, l.b.out[l.fromB], w, p, GotByA(l), l.b.setup.window);
    GoodAfter(l, Deliver(l.a, l.b.out[l.fromB], w, p));
  }

  lemma StepKeeps(l: Link, e: Event)
    requires Clean(l) && Unfailing(e)
    ensures Clean(StepA(l, e))
  {
    StepIsSound(l, e);
    match e
    case Descriptors(io) => if !l.a.removed { ChannelIoKeeps(l.a, io, GotByA(l), l.b.setup.window); }
    case Delivery(w, p) => if l.fromB < |l.b.out| { DeliveryKeeps(l, w, p); }
  }

  lemma PeerKeeps(l: Link, e: Event)
    requires Clean(Swap(l))
    ensures Clean(Swap(StepA(l, e)))
  {
    StepIsSound(l, e);
    assert GotByB(StepA(l, e)) == GotByB(l);
  }

  lemma {:induction false} RunKeeps(x: Ends, steps: seq<Step>)
    requires Proper(x) && !x.sa.gated && Apart(x.sa, x.fa) && x.fa.writefd >= 0
    requires forall s <- steps :: s.atA ==> Unfailing(s.event)
    ensures Clean(Run(Open(x), steps))
    decreases |steps|, x
  {
    RunIsSound(x, steps);
    if steps != [] {
      RunKeeps(x, steps[..|steps| - 1]);
      var l, s := Run(Open(x), steps[..|steps| - 1]), steps[|steps| - 1];
      if s.atA { StepKeeps(l, s.event); } else { PeerKeeps(Swap(l), s.event); }
    }
  }

  /**
   * A channel with no process behind it and no failed write is removed only after every byte
   * the peer sent on it has been written to its descriptor.
   */
  lemma RemovalDeliversAll(x: Ends, steps: seq<Step>)
    requires Proper(x) && !x.sa.gated && Apart(x.sa, x.fa) && x.fa.writefd >= 0
    requires forall s <- steps :: s.atA ==> Unfailing(s.event)
    requires Run(Open(x), steps).a.removed
    ensures var l := Run(Open(x), steps);
            l.a.writebuf.written == Stream(l.b.out, false)
  {
    var l := Run(Open(x), steps);
    RunKeeps(x, steps);
    CloseIsLast(l.b.out, l.fromB);
    assert GotByA(l) == l.b.out;
  }
}
