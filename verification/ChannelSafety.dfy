/**
 * What a channel keeps against any peer at all: whatever messages arrive, the channel stays
 * consistent or the session ends, and never by one of the assertions of writechannel.
 */
module ChannelSafety {
  import opened Options
  import opened Radix
  import opened Channels
  import opened ChannelLaws

  /** The part of the invariant that does not depend on the peer. */
  predicate Consistent(c: Channel)
  {
    && WellFormed(c.setup) && c.exit.None? && Balanced(c, 0) && Prompt(c) && c.credit.transwindow >= 0
    && Lawful(c.out)
    && (c.flags.sentClose <==> Close in c.out)
    && (c.flags.sentEof <==> Eof in c.out || Close in c.out)
    && (c.flags.sentEof && !c.removed ==> ReadingOver(c))
    && (c.flags.sentClose && !c.removed ==> AllClosed(c.fds))
    && (c.removed ==> c.flags.sentClose && c.flags.recvClose && !WritePending(c))
  }

  /** A channel in use: not removed, and in order. */
  predicate InUse(c: Channel) { Consistent(c) && !c.removed }

  /** Data goes out while there is something to read from, so before EOF. */
  lemma TransmitKeeps(c: Channel, m: Msg, n: nat)
    requires InUse(c) && !c.flags.sentEof && (m.Data? || m.ExtendedData?) && n <= c.credit.transwindow
    ensures InUse(Send(c, m).(credit := c.credit.(transwindow := c.credit.transwindow - n)))
  {
    Append(c.out, m, false);
  }

  lemma SendDataKeeps(c: Channel, ext: bool, r: ReadResult)
    requires InUse(c) && (if ext then c.fds.errfd >= 0 && !c.setup.hasExtra else c.fds.readfd >= 0)
    ensures InUse(SendData(c, ext, r))
  {
    var d := SendData(c, ext, r);
    if d == c {
    } else if r.Ended? {
      var fd := if ext then c.fds.errfd else c.fds.readfd;
      CloseFdCloses(c.setup, c.fds, fd, ShutRd);
      ClosingKeeps(c, CloseFd(c.setup, c.fds, fd, ShutRd), c.flags);
    } else {
      var data := if |r.bytes| <= MaxLen(c, ext) then r.bytes else r.bytes[..MaxLen(c, ext)];
      assert !c.flags.sentEof;
      TransmitKeeps(c, if ext then ExtendedData(data) else Data(data), |data|);
    }
  }

  /** An operation that only moves windows, rings and descriptors, and sends at most an adjustment. */
  lemma MovedKeeps(c: Channel, d: Channel)
    requires InUse(c) && !c.flags.sentClose && SameLog(c, d) && SameRest(c, d) && Balanced(d, 0) && Prompt(d)
    ensures InUse(d)
  {
  }

  /** The write of channelio: its three closing assertions hold. */
  lemma WriteKeeps(c: Channel, ext: bool, w: WriteResult)
    requires InUse(c) && SinkFd(c, ext) >= 0 && (ext ==> c.setup.hasExtra)
    ensures InUse(WriteChannel(c, ext, None, w).0)
  {
    WriteChannelKeeps(c, ext, None, w, 0);
    MovedKeeps(c, WriteChannel(c, ext, None, w).0);
  }

  /** The window covers the packet: it is taken, and the assertions of writechannel hold. */
  lemma AdmitKeeps(c: Channel, ext: bool, data: seq<byte>, w: WriteResult)
    requires InUse(c) && SinkFd(c, ext) >= 0 && (ext ==> c.setup.hasExtra) && |data| <= c.credit.recvwindow
    ensures InUse(Admit(c, ext, data, w))
  {
    var b := Charge(c, |data|);
    var (d, consumed, ok) := WriteChannel(b, ext, Some(data), w);
    WriteChannelKeeps(b, ext, Some(data), w, |data|);
    AdmittedKeeps(c, |data|, b, d, ext, data[consumed..], ok);
  }

  lemma AdmittedKeeps(c: Channel, n: nat, b: Channel, d: Channel, ext: bool, rest: seq<byte>, ok: bool)
    requires InUse(c) && !c.flags.sentClose && b == Charge(c, n)
    requires SameLog(b, d) && SameRest(b, d) && Balanced(d, |rest|) && Prompt(d) && (ext ==> d.setup.hasExtra)
    ensures InUse(Keep(d, ext, rest, ok))
  {
  }

  /**
   * What the receiver says to a data packet of any size from any peer: it takes exactly what its
   * window covers. A packet that overruns the window but still fits the ring is caught by the
   * assertion on recvwindow, not by the test for an oversized packet.
   */
  lemma PacketVerdict(c: Channel, ext: bool, data: seq<byte>, w: WriteResult)
    requires InUse(c) && SinkFd(c, ext) >= 0 && (ext ==> c.setup.hasExtra) && !c.flags.recvEof
    ensures var d := ReceiveData(c, ext, data, w);
            && (d.exit == None <==> |data| <= c.credit.recvwindow)
            && (d.exit == Some(OversizedPacket) <==> |data| > c.setup.window - |SinkOf(c, ext).ring|)
            && (d.exit == Some(FailedAssertion) <==>
                c.credit.recvwindow < |data| <= c.setup.window - |SinkOf(c, ext).ring|)
  {
    if |data| <= c.credit.recvwindow {
      AdmitKeeps(c, ext, data, w);
    }
  }

  lemma ReceiveKeeps(c: Channel, ext: bool, data: seq<byte>, w: WriteResult)
    requires InUse(c)
    ensures var d := ReceiveData(c, ext, data, w); d.exit.None? ==> InUse(d)
  {
    if SinkFd(c, ext) >= 0 && (ext ==> c.setup.hasExtra) && |data| <= c.credit.recvwindow {
      AdmitKeeps(c, ext, data, w);
    }
  }

  lemma ClosingKeeps(c: Channel, f: Fds, flags: Flags)
    requires InUse(c) && ClosedFrom(c.fds, f)
    requires flags.sentEof == c.flags.sentEof && flags.sentClose == c.flags.sentClose
    ensures InUse(c.(fds := f, flags := flags))
  {
  }

  lemma SendEofKeeps(c: Channel)
    requires InUse(c) && !c.flags.sentEof && ReadingOver(c)
    ensures InUse(SendEof(c))
  {
    Append(c.out, Eof, false);
  }

  lemma SendCloseKeeps(c: Channel, removed: bool)
    requires InUse(c) && !c.flags.sentClose
    requires if removed then c.flags.recvClose && !WritePending(c) else ReadingOver(c) && c.fds.writefd == FD_CLOSED
    ensures Consistent(SendClose(c).(removed := removed))
  {
    Append(c.out, Close, false);
    CloseAllCloses(c.setup, c.fds);
    CloseAllEndsWriting(c.setup, c.fds);
    assert !WritePending(SendClose(c));
  }

  lemma StopWritingKeeps(c: Channel, allowed: bool)
    requires InUse(c)
    ensures InUse(StopWriting(c, allowed))
  {
    CloseFdCloses(c.setup, c.fds, c.fds.writefd, ShutWr);
    ClosingKeeps(c, CloseFd(c.setup, c.fds, c.fds.writefd, ShutWr), c.flags);
  }

  lemma MaybeCloseKeeps(c: Channel, allowed: bool)
    requires InUse(c)
    ensures InUse(MaybeEof(c)) && InUse(MaybeClose(c, allowed))
  {
    if !c.flags.sentEof && ReadingOver(c) { SendEofKeeps(c); }
    if MaybeClose(c, allowed) != c { SendCloseKeeps(c, false); }
  }

  lemma SettleKeeps(c: Channel, allowed: bool)
    requires InUse(c)
    ensures Consistent(Settle(c, allowed))
  {
    if Removing(c, allowed) {
      if !c.flags.sentClose { SendCloseKeeps(c, true); }
    } else {
      StopWritingKeeps(c, allowed);
      MaybeCloseKeeps(StopWriting(c, allowed), allowed);
      MaybeCloseKeeps(MaybeEof(StopWriting(c, allowed)), allowed);
    }
  }

  lemma CheckCloseKeeps(c: Channel, p: Probe)
    requires InUse(c)
    ensures Consistent(CheckClose(c, p))
  {
    var flags := c.flags.(flushing := Flushing(c, p));
    var d := c.(flags := flags);
    ClosingKeeps(c, c.fds, flags);
    FlushFdsCloses(d, p);
    ClosingKeeps(d, FlushFds(d, p).fds, flags);
    SettleKeeps(Flushed(c, p), CloseAllowed(c, p));
  }

  lemma IoReadsKeeps(c: Channel, io: Io)
    requires InUse(c)
    ensures InUse(IoRead(c, io)) && InUse(IoReadErr(c, io))
  {
    if IoRead(c, io) != c { SendDataKeeps(c, false, io.read.value); }
    if IoReadErr(c, io) != c { SendDataKeeps(c, true, io.readErr.value); }
  }

  lemma IoWritesKeeps(c: Channel, io: Io)
    requires InUse(c)
    ensures InUse(IoWrite(c, io)) && InUse(IoWriteErr(c, io))
  {
    if IoWrite(c, io) != c { WriteKeeps(c, false, io.write.value); }
    if IoWriteErr(c, io) != c { WriteKeeps(c, true, io.writeErr.value); }
  }

  /** One pass of channelio never exits, whatever the peer has sent. */
  lemma ChannelIoKeeps(c: Channel, io: Io)
    requires InUse(c)
    ensures var d := IoWrites(IoReads(c, io), io);
            ChannelIo(c, io) == if Busy(c, io) then CheckClose(d, io.probe) else d
    ensures InUse(IoReads(c, io)) && InUse(IoWrites(IoReads(c, io), io)) && Consistent(ChannelIo(c, io))
  {
    IoReadsKeeps(c, io);
    IoReadsKeeps(IoRead(c, io), io);
    IoWritesKeeps(IoReads(c, io), io);
    IoWritesKeeps(IoWrite(IoReads(c, io), io), io);
    CheckCloseKeeps(IoWrites(IoReads(c, io), io), io.probe);
  }

  lemma EndKeeps(c: Channel, close: bool, p: Probe)
    requires InUse(c)
    ensures Consistent(CheckClose(c.(flags := c.flags.(recvEof := true, recvClose := close || c.flags.recvClose)), p))
  {
    var flags := c.flags.(recvEof := true, recvClose := close || c.flags.recvClose);
    ClosingKeeps(c, c.fds, flags);
    CheckCloseKeeps(c.(flags := flags), p);
  }

  /** Any message at all, with a window adjustment as the wire can carry it. */
  lemma DeliverKeeps(c: Channel, m: Msg, w: WriteResult, p: Probe)
    requires Consistent(c) && (m.WindowAdjust? ==> 0 <= m.incr < 0x1_0000_0000)
    ensures var d := Deliver(c, m, w, p); d.exit.None? ==> Consistent(d)
  {
    if !c.removed {
      match m
      case Data(data) => ReceiveKeeps(c, false, data, w);
      case ExtendedData(data) => ReceiveKeeps(c, true, data, w);
      case WindowAdjust(_) =>
      case Eof => EndKeeps(c, false, p);
      case Close => EndKeeps(c, true, p);
    }
  }

  // ---- whole runs against any peer ----

  datatype Occurrence = Pass(io: Io) | Message(m: Msg, w: WriteResult, p: Probe)

  function React(c: Channel, o: Occurrence): Channel
  {
    match o
    case Pass(io) => if c.removed || c.exit.Some? then c else ChannelIo(c, io)
    case Message(m, w, p) => if c.exit.Some? then c else Deliver(c, m, w, p)
  }

  function Reacts(c: Channel, os: seq<Occurrence>): Channel
  {
    if os == [] then c else React(Reacts(c, os[..|os| - 1]), os[|os| - 1])
  }

  /** Messages as the wire can carry them; nothing else is asked of the peer. */
  predicate OnTheWire(os: seq<Occurrence>)
  {
    forall o <- os :: o.Message? && o.m.WindowAdjust? ==> 0 <= o.m.incr < 0x1_0000_0000
  }

  /**
   * Whatever the peer sends and whatever the descriptors do: the channel stays consistent until
   * a message ends the session, and passes of channelio never end it.
   */
  lemma {:induction false} AnyPeer(setup: Setup, fds: Fds, transwindow: nat, os: seq<Occurrence>)
    requires WellFormed(setup) && OnTheWire(os)
    ensures var c := Reacts(NewChannel(setup, fds, transwindow), os); c.exit.None? ==> Consistent(c)
    decreases |os|, setup
  {
    if os != [] {
      var before, o := Reacts(NewChannel(setup, fds, transwindow), os[..|os| - 1]), os[|os| - 1];
      AnyPeer(setup, fds, transwindow, os[..|os| - 1]);
      if before.exit.None? {
        match o
        case Pass(io) => if !before.removed { ChannelIoKeeps(before, io); }
        case Message(m, w, p) => DeliverKeeps(before, m, w, p);
      }
    }
  }

  /** Exactly which messages end the session, and how. */
  lemma ExitExactly(c: Channel, m: Msg, w: WriteResult, p: Probe)
    requires Consistent(c) && (m.WindowAdjust? ==> 0 <= m.incr < 0x1_0000_0000)
    ensures var d := Deliver(c, m, w, p);
            var heard := m.Data? || (m.ExtendedData? && c.setup.session);
            var taking := heard && SinkFd(c, m.ExtendedData?) >= 0 && (m.ExtendedData? ==> c.setup.hasExtra);
            && (d.exit == Some(UnknownChannel) <==> c.removed)
            && (d.exit == Some(DataAfterEof) <==> !c.removed && heard && c.flags.recvEof)
            && (d.exit.Some? <==>
                c.removed || (heard && (c.flags.recvEof || (taking && |m.bytes| > c.credit.recvwindow))))
  {
    if !c.removed {
      match m
      case Data(data) => if c.fds.writefd >= 0 && !c.flags.recvEof { PacketVerdict(c, false, data, w); }
      case ExtendedData(data) =>
        if c.fds.errfd >= 0 && c.setup.hasExtra && !c.flags.recvEof { PacketVerdict(c, true, data, w); }
      case WindowAdjust(_) =>
      case Eof => EndKeeps(c, false, p);
      case Close => EndKeeps(c, true, p);
    }
  }

  /**
   * A packet that the oversize test lets through and the assertion catches: of a window of ten
   * bytes one has come and been written but not yet granted back, so that nine are left while
   * the ring is empty; then ten bytes come.
   */
  lemma OverrunWitness(setup: Setup, fds: Fds, w: WriteResult)
    requires setup == Setup(10, 0, 4, true, false, false, false, false) && fds.writefd >= 0
    ensures var c := ReceiveData(NewChannel(setup, fds, 0), false, [7], Wrote(1));
            var ten := seq(10, i => 7);
            && InUse(c) && c.credit.recvwindow == 9 && c.writebuf.ring == []
            && |ten| <= c.setup.window - |c.writebuf.ring|
            && ReceiveData(c, false, ten, w).exit == Some(FailedAssertion)
  {
    var n := NewChannel(setup, fds, 0);
    AdmitKeeps(n, false, [7], Wrote(1));
    var c := ReceiveData(n, false, [7], Wrote(1));
    assert Taken(Charge(n, 1), false, [7], 1).writebuf.ring == [];
  }
}
