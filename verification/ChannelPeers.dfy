/**
 * What a channel keeps towards a peer that follows the code, given the messages received so far:
 * it stays consistent, as against any peer, and agrees with the peer's log.
 */
module ChannelPeers {
  import opened Options
  import opened Radix
  import opened Sequences
  import opened Channels
  import opened ChannelLaws
  import opened ChannelSafety

  /** Both windows as the message logs determine them. */
  predicate Accounted(c: Channel, got: seq<Msg>, peerWindow: nat)
  {
    && c.credit.recvwindow + Sent(got) == c.setup.window + Granted(c.out) + c.credit.dropped
    && c.credit.transwindow + Sent(c.out) == peerWindow + Granted(got)
  }

  /** The sink can still take bytes. */
  predicate Taking(c: Channel, ext: bool)
  {
    SinkFd(c, ext) >= 0 && (ext ==> c.setup.hasExtra && c.setup.session)
  }

  /** Everything received is written, held or skipped, in that order, and skipping is for good. */
  predicate Faithful(c: Channel, got: seq<Msg>, ext: bool)
  {
    var s := SinkOf(c, ext);
    s.written + s.ring + s.skipped == Stream(got, ext) && (s.skipped != [] ==> !Taking(c, ext))
  }

  /** The flags say what was received. */
  predicate Told(c: Channel, got: seq<Msg>)
  {
    (c.flags.recvClose <==> Close in got) && (c.flags.recvEof <==> Eof in got || Close in got)
  }

  predicate Agrees(c: Channel, got: seq<Msg>, peerWindow: nat)
  {
    Accounted(c, got, peerWindow) && Faithful(c, got, false) && Faithful(c, got, true) && Told(c, got)
  }

  predicate Sound(c: Channel, got: seq<Msg>, peerWindow: nat) { Consistent(c) && Agrees(c, got, peerWindow) }

  lemma NewChannelIsSound(setup: Setup, fds: Fds, peerWindow: nat)
    requires WellFormed(setup)
    ensures Sound(NewChannel(setup, fds, peerWindow), [], peerWindow)
  {
  }

  // ---- the invariant, operation by operation ----

  /** Moving bytes from the ring to the descriptor changes nothing of what was received. */
  lemma MovedIsFaithful(c: Channel, d: Channel, got: seq<Msg>, ext: bool)
    requires Faithful(c, got, ext) && ClosedFrom(c.fds, d.fds) && d.setup == c.setup
    requires SinkOf(d, ext).skipped == SinkOf(c, ext).skipped
    requires SinkOf(d, ext).written + SinkOf(d, ext).ring == SinkOf(c, ext).written + SinkOf(c, ext).ring
    ensures Faithful(d, got, ext)
  {
  }

  lemma WriteIsSound(c: Channel, ext: bool, w: WriteResult, got: seq<Msg>, peerWindow: nat)
    requires Sound(c, got, peerWindow) && SinkFd(c, ext) >= 0 && (ext ==> c.setup.hasExtra) && !c.removed
    ensures Sound(WriteChannel(c, ext, None, w).0, got, peerWindow)
  {
    var d := WriteChannel(c, ext, None, w).0;
    WriteChannelKeeps(c, ext, None, w, 0);
    WriteKeeps(c, ext, w);
    var held := SinkOf(c, ext).written + SinkOf(c, ext).ring;
    assert held + [] == held;
    MovedIsFaithful(c, d, got, ext);
    MovedIsFaithful(c, d, got, !ext);
  }

  lemma DropIsSound(c: Channel, ext: bool, data: seq<byte>, got: seq<Msg>, peerWindow: nat)
    requires Sound(c, got, peerWindow) && !Taking(c, ext)
    requires Close !in got && Eof !in got
    ensures Sound(Drop(c, ext, data), got + [if ext then ExtendedData(data) else Data(data)], peerWindow)
  {
    var m := if ext then ExtendedData(data) else Data(data);
    Append(got, m, ext);
    Append(got, m, !ext);
    var s := SinkOf(c, ext);
    Regroup(s.written + s.ring, s.skipped, data, s.skipped + data);
  }

  /** The bytes that writev took and the bytes that go into the ring are the whole packet. */
  lemma KeepIsFaithful(s: Sink, t: Sink, data: seq<byte>, consumed: nat)
    requires consumed <= |data| && t.written + t.ring == s.written + s.ring + data[..consumed]
    ensures t.written + (t.ring + data[consumed..]) == s.written + s.ring + data
  {
    Regroup(t.written, t.ring, data[consumed..], t.ring + data[consumed..]);
    Regroup(s.written + s.ring, data[..consumed], data[consumed..], data);
  }

  /** A data message that an honest peer may send now. */
  predicate Admissible(c: Channel, ext: bool, data: seq<byte>, got: seq<Msg>, peerWindow: nat)
  {
    && Sound(c, got, peerWindow) && !c.removed && Taking(c, ext)
    && Close !in got && Eof !in got
    && Sent(got) + |data| <= c.setup.window + Granted(c.out)
  }

  function DataMsg(ext: bool, data: seq<byte>): Msg { if ext then ExtendedData(data) else Data(data) }

  lemma ChargedAccounts(c: Channel, data: seq<byte>, m: Msg, got: seq<Msg>, peerWindow: nat)
    requires Accounted(c, got, peerWindow) && Size(m) == |data| && !m.WindowAdjust?
    ensures Accounted(Charge(c, |data|), got + [m], peerWindow)
  {
    Append(got, m, false);
  }

  /** An admissible packet is charged, offered to writechannel, and what is left is kept. */
  lemma ReceivePath(c: Channel, ext: bool, data: seq<byte>, w: WriteResult, got: seq<Msg>, peerWindow: nat)
    requires Admissible(c, ext, data, got, peerWindow)
    ensures var (d, consumed, ok) := WriteChannel(Charge(c, |data|), ext, Some(data), w);
            && consumed <= |data| && d.exit.None?
            && ReceiveData(c, ext, data, w) == Keep(d, ext, data[consumed..], ok)
  {
    WriteChannelKeeps(Charge(c, |data|), ext, Some(data), w, |data|);
  }

  lemma ReceiveAccounts(c: Channel, ext: bool, data: seq<byte>, w: WriteResult, got: seq<Msg>, peerWindow: nat)
    requires Admissible(c, ext, data, got, peerWindow)
    ensures var d := ReceiveData(c, ext, data, w);
            Accounted(d, got + [DataMsg(ext, data)], peerWindow) && Told(d, got + [DataMsg(ext, data)])
  {
    ReceivePath(c, ext, data, w, got, peerWindow);
    ChargedAccounts(c, data, DataMsg(ext, data), got, peerWindow);
    WriteChannelKeeps(Charge(c, |data|), ext, Some(data), w, |data|);
  }

  /** The stream of this kind grows by the whole packet, whichever way it goes. */
  lemma KeepExtends(c: Channel, d: Channel, ext: bool, data: seq<byte>, consumed: nat, ok: bool, stream: seq<byte>)
    requires SinkOf(c, ext).skipped == [] == SinkOf(d, ext).skipped
    requires consumed <= |data| && (!ok ==> consumed == 0 && SinkFd(d, ext) == FD_CLOSED)
    requires SinkOf(c, ext).written + SinkOf(c, ext).ring == stream
    requires SinkOf(d, ext).written + SinkOf(d, ext).ring == SinkOf(c, ext).written + SinkOf(c, ext).ring + data[..consumed]
    ensures var e := Keep(d, ext, data[consumed..], ok);
            var t := SinkOf(e, ext);
            && t.written + t.ring + t.skipped == stream + data
            && (t.skipped != [] ==> !Taking(e, ext))
            && SinkOf(e, !ext) == SinkOf(d, !ext) && e.fds == d.fds && e.setup == d.setup
  {
    KeepIsFaithful(SinkOf(c, ext), SinkOf(d, ext), data, consumed);
  }

  lemma ReceiveIsFaithful(c: Channel, ext: bool, data: seq<byte>, w: WriteResult, got: seq<Msg>, peerWindow: nat)
    requires Admissible(c, ext, data, got, peerWindow)
    ensures var d := ReceiveData(c, ext, data, w);
            Faithful(d, got + [DataMsg(ext, data)], ext) && Faithful(d, got + [DataMsg(ext, data)], !ext)
  {
    ReceivePath(c, ext, data, w, got, peerWindow);
    var b := Charge(c, |data|);
    var (d, consumed, ok) := WriteChannel(b, ext, Some(data), w);
    WriteChannelKeeps(b, ext, Some(data), w, |data|);
    assert SinkOf(b, ext) == SinkOf(c, ext);
    KeepExtends(c, d, ext, data, consumed, ok, Stream(got, ext));
    var e := Keep(d, ext, data[consumed..], ok);
    Append(got, DataMsg(ext, data), ext);
    Append(got, DataMsg(ext, data), !ext);
    OtherFaithful(c, e, got, got + [DataMsg(ext, data)], !ext);
  }

  lemma OtherFaithful(c: Channel, e: Channel, got: seq<Msg>, more: seq<Msg>, ext: bool)
    requires Faithful(c, got, ext) && SinkOf(e, ext) == SinkOf(c, ext)
    requires Stream(more, ext) == Stream(got, ext)
    requires ClosedFrom(c.fds, e.fds) && e.setup == c.setup
    ensures Faithful(e, more, ext)
  {
  }

  lemma ReceiveIsSound(c: Channel, ext: bool, data: seq<byte>, w: WriteResult, got: seq<Msg>, peerWindow: nat)
    requires Admissible(c, ext, data, got, peerWindow)
    ensures Sound(ReceiveData(c, ext, data, w), got + [DataMsg(ext, data)], peerWindow)
  {
    ReceivePath(c, ext, data, w, got, peerWindow);
    ReceiveKeeps(c, ext, data, w);
    ReceiveAccounts(c, ext, data, w, got, peerWindow);
    ReceiveIsFaithful(c, ext, data, w, got, peerWindow);
  }

  lemma SendDataIsSound(c: Channel, ext: bool, r: ReadResult, got: seq<Msg>, peerWindow: nat)
    requires Sound(c, got, peerWindow) && !c.removed
    requires if ext then c.fds.errfd >= 0 && !c.setup.hasExtra else c.fds.readfd >= 0
    ensures Sound(SendData(c, ext, r), got, peerWindow)
  {
    SendDataKeeps(c, ext, r);
    if r.Got? && MaxLen(c, ext) > 0 {
      var data := if |r.bytes| <= MaxLen(c, ext) then r.bytes else r.bytes[..MaxLen(c, ext)];
      Append(c.out, if ext then ExtendedData(data) else Data(data), ext);
    }
  }

  lemma AdjustIsSound(c: Channel, incr: int, got: seq<Msg>, peerWindow: nat)
    requires Sound(c, got, peerWindow) && incr >= 0
    requires Granted(got) + incr + peerWindow - Sent(c.out) <= TRANS_MAX_WINDOW
    ensures Sound(AdjustWindow(c, incr), got + [WindowAdjust(incr)], peerWindow)
    ensures AdjustWindow(c, incr).credit.transwindow == c.credit.transwindow + incr
  {
    Append(got, WindowAdjust(incr), false);
    Append(got, WindowAdjust(incr), true);
  }

  /** Nothing that the peer's messages determine has changed: descriptors may close, EOF and CLOSE may go out. */
  predicate Untold(c: Channel, d: Channel)
  {
    && d.setup == c.setup && d.credit == c.credit && d.writebuf == c.writebuf && d.extrabuf == c.extrabuf
    && ClosedFrom(c.fds, d.fds) && d.flags.recvEof == c.flags.recvEof && d.flags.recvClose == c.flags.recvClose
    && Sent(d.out) == Sent(c.out) && Granted(d.out) == Granted(c.out)
  }

  lemma UntoldAgrees(c: Channel, d: Channel, got: seq<Msg>, peerWindow: nat)
    requires Agrees(c, got, peerWindow) && Untold(c, d)
    ensures Agrees(d, got, peerWindow)
  {
  }

  lemma StopWritingUntold(c: Channel, allowed: bool)
    ensures Untold(c, StopWriting(c, allowed)) && StopWriting(c, allowed).removed == c.removed
  {
    CloseFdCloses(c.setup, c.fds, c.fds.writefd, ShutWr);
  }

  lemma MaybeCloseUntold(c: Channel, allowed: bool)
    ensures Untold(c, MaybeEof(c)) && MaybeEof(c).removed == c.removed && Untold(c, MaybeClose(c, allowed))
  {
    Append(c.out, Eof, false);
    SendCloseUntold(c);
  }

  lemma SendCloseUntold(c: Channel)
    ensures Untold(c, SendClose(c))
  {
    Append(c.out, Close, false);
  }

  lemma SettleUntold(c: Channel, allowed: bool)
    ensures Untold(c, Settle(c, allowed))
  {
    var s := StopWriting(c, allowed);
    SendCloseUntold(c);
    StopWritingUntold(c, allowed);
    MaybeCloseUntold(s, allowed);
    MaybeCloseUntold(MaybeEof(s), allowed);
  }

  lemma StopWritingIsSound(c: Channel, allowed: bool, got: seq<Msg>, peerWindow: nat)
    requires Sound(c, got, peerWindow) && !c.removed
    ensures Sound(StopWriting(c, allowed), got, peerWindow) && !StopWriting(c, allowed).removed
  {
    StopWritingKeeps(c, allowed);
    StopWritingUntold(c, allowed);
    UntoldAgrees(c, StopWriting(c, allowed), got, peerWindow);
  }

  lemma MaybeCloseIsSound(c: Channel, allowed: bool, got: seq<Msg>, peerWindow: nat)
    requires Sound(c, got, peerWindow) && !c.removed
    ensures Sound(MaybeClose(c, allowed), got, peerWindow) && Sound(MaybeEof(c), got, peerWindow)
    ensures !MaybeEof(c).removed
  {
    MaybeCloseKeeps(c, allowed);
    MaybeCloseUntold(c, allowed);
    UntoldAgrees(c, MaybeEof(c), got, peerWindow);
    UntoldAgrees(c, MaybeClose(c, allowed), got, peerWindow);
  }

  lemma SettleIsSound(c: Channel, allowed: bool, got: seq<Msg>, peerWindow: nat)
    requires Sound(c, got, peerWindow) && !c.removed
    ensures Sound(Settle(c, allowed), got, peerWindow)
  {
    SettleKeeps(c, allowed);
    SettleUntold(c, allowed);
    UntoldAgrees(c, Settle(c, allowed), got, peerWindow);
  }

  lemma ClosingIsSound(c: Channel, f: Fds, got: seq<Msg>, peerWindow: nat)
    requires Sound(c, got, peerWindow) && !c.removed && ClosedFrom(c.fds, f)
    ensures Sound(c.(fds := f), got, peerWindow)
  {
    ClosingKeeps(c, f, c.flags);
    UntoldAgrees(c, c.(fds := f), got, peerWindow);
  }

  lemma CheckCloseIsSound(c: Channel, p: Probe, got: seq<Msg>, peerWindow: nat)
    requires Sound(c, got, peerWindow) && !c.removed
    ensures Sound(CheckClose(c, p), got, peerWindow)
  {
    var d := Flushed(c, p);
    CheckCloseKeeps(c, p);
    FlushFdsCloses(c.(flags := c.flags.(flushing := Flushing(c, p))), p);
    SettleUntold(d, CloseAllowed(c, p));
    UntoldAgrees(c, d, got, peerWindow);
    UntoldAgrees(d, Settle(d, CloseAllowed(c, p)), got, peerWindow);
  }

  lemma IoReadIsSound(c: Channel, io: Io, got: seq<Msg>, peerWindow: nat)
    requires Sound(c, got, peerWindow) && !c.removed
    ensures Sound(IoRead(c, io), got, peerWindow) && !IoRead(c, io).removed && IoRead(c, io).exit.None?
    ensures Sound(IoReadErr(c, io), got, peerWindow) && !IoReadErr(c, io).removed && IoReadErr(c, io).exit.None?
  {
    if IoRead(c, io) != c { SendDataIsSound(c, false, io.read.value, got, peerWindow); }
    if IoReadErr(c, io) != c { SendDataIsSound(c, true, io.readErr.value, got, peerWindow); }
  }

  lemma IoWriteIsSound(c: Channel, ext: bool, io: Io, got: seq<Msg>, peerWindow: nat)
    requires Sound(c, got, peerWindow) && !c.removed
    ensures var d := if ext then IoWriteErr(c, io) else IoWrite(c, io);
            Sound(d, got, peerWindow) && !d.removed && d.exit.None?
  {
    var w := if ext then io.writeErr else io.write;
    if w.Some? && SinkFd(c, ext) >= 0 && (ext ==> c.setup.hasExtra) {
      WriteIsSound(c, ext, w.value, got, peerWindow);
      WriteChannelKeeps(c, ext, None, w.value, 0);
    }
  }

  /** No step of channelio exits, so all of them are taken. */
  lemma ChannelIoPath(c: Channel, io: Io, got: seq<Msg>, peerWindow: nat)
    requires Sound(c, got, peerWindow) && !c.removed
    ensures var d := IoWrites(IoReads(c, io), io);
            ChannelIo(c, io) == if Busy(c, io) then CheckClose(d, io.probe) else d
    ensures Sound(IoWrites(IoReads(c, io), io), got, peerWindow) && !IoWrites(IoReads(c, io), io).removed
  {
    IoReadIsSound(c, io, got, peerWindow);
    IoReadIsSound(IoRead(c, io), io, got, peerWindow);
    var r := IoReads(c, io);
    IoWriteIsSound(r, false, io, got, peerWindow);
    IoWriteIsSound(IoWrite(r, io), true, io, got, peerWindow);
  }

  /** One pass of channelio keeps everything. */
  lemma ChannelIoIsSound(c: Channel, io: Io, got: seq<Msg>, peerWindow: nat)
    requires Sound(c, got, peerWindow) && !c.removed
    ensures Sound(ChannelIo(c, io), got, peerWindow)
  {
    ChannelIoPath(c, io, got, peerWindow);
    CheckCloseIsSound(IoWrites(IoReads(c, io), io), io.probe, got, peerWindow);
  }

  /** What may arrive next: lawful, within the window, and a grant that clamping does not cut. */
  predicate Acceptable(c: Channel, m: Msg, got: seq<Msg>, peerWindow: nat)
  {
    && Follows(got, m)
    && Sent(got + [m]) <= c.setup.window + Granted(c.out)
    && (m.WindowAdjust? ==> m.incr >= 0 && peerWindow + Granted(got + [m]) - Sent(c.out) <= TRANS_MAX_WINDOW)
  }

  lemma DataIsSound(c: Channel, ext: bool, data: seq<byte>, w: WriteResult, p: Probe, got: seq<Msg>, peerWindow: nat)
    requires Sound(c, got, peerWindow) && !c.removed && Acceptable(c, DataMsg(ext, data), got, peerWindow)
    ensures Sound(Deliver(c, DataMsg(ext, data), w, p), got + [DataMsg(ext, data)], peerWindow)
  {
    Append(got, DataMsg(ext, data), ext);
    if Taking(c, ext) {
      ReceiveIsSound(c, ext, data, w, got, peerWindow);
    } else {
      DropIsSound(c, ext, data, got, peerWindow);
    }
  }

  lemma EndIsSound(c: Channel, close: bool, p: Probe, got: seq<Msg>, peerWindow: nat)
    requires Sound(c, got, peerWindow) && !c.removed && Close !in got
    ensures var m := if close then Close else Eof;
            var d := c.(flags := c.flags.(recvEof := true, recvClose := close));
            Sound(d, got + [m], peerWindow)
  {
    Append(got, if close then Close else Eof, false);
    Append(got, if close then Close else Eof, true);
  }

  lemma DeliverIsSound(c: Channel, m: Msg, w: WriteResult, p: Probe, got: seq<Msg>, peerWindow: nat)
    requires Sound(c, got, peerWindow) && !c.removed && Acceptable(c, m, got, peerWindow)
    ensures Sound(Deliver(c, m, w, p), got + [m], peerWindow)
  {
    match m
    case Data(data) => DataIsSound(c, false, data, w, p, got, peerWindow);
    case ExtendedData(data) => DataIsSound(c, true, data, w, p, got, peerWindow);
    case WindowAdjust(incr) =>
      Append(got, m, false);
      AdjustIsSound(c, incr, got, peerWindow);
    case Eof =>
      EndIsSound(c, false, p, got, peerWindow);
      assert c.flags.recvClose == false;
      CheckCloseIsSound(c.(flags := c.flags.(recvEof := true)), p, got + [m], peerWindow);
    case Close =>
      EndIsSound(c, true, p, got, peerWindow);
      CheckCloseIsSound(c.(flags := c.flags.(recvEof := true, recvClose := true)), p, got + [m], peerWindow);
  }
}
