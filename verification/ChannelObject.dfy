/**
 * The channel record that common-channel.c updates in place, over ring buffers, one method per
 * C function. The ghost field `model` is the channel as Channels describes it; Valid() ties it
 * to the real fields, and each method is proved to move it as its function in Channels says.
 */
module ChannelObjects {
  import opened Options
  import opened Radix
  import opened Sequences
  import opened CircBuffers
  import opened Channels
  import opened ChannelLaws
  import opened ChannelSafety

  /** What the descriptor has taken is a prefix of the one sequence that writev was given. */
  lemma TakenWrites(c: Channel, ext: bool, extra: seq<byte>, n: nat)
    requires n <= |SinkOf(c, ext).ring| + |extra|
    ensures var s, t := SinkOf(c, ext), SinkOf(Taken(c, ext, extra, n), ext);
            t.written == s.written + (s.ring + extra)[..n] && t.ring == s.ring[Min(|s.ring|, n)..]
  {
    var s := SinkOf(c, ext);
    var fromRing := Min(|s.ring|, n);
    assert (s.ring + extra)[..n] == s.ring[..fromRing] + extra[..n - fromRing];
    Regroup(s.written, s.ring[..fromRing], extra[..n - fromRing], (s.ring + extra)[..n]);
  }

  /** A channel that writechannel may be called on, with `more` already charged to the window. */
  predicate Writable(c: Channel, ext: bool, more: Option<seq<byte>>)
  {
    && WellFormed(c.setup) && Balanced(c, if more.Some? then |more.value| else 0)
    && Lawful(c.out) && Close !in c.out && c.exit.None? && SinkFd(c, ext) >= 0 && (ext ==> c.setup.hasExtra)
  }

  /** Nothing that can be offered overflows the count of bytes written. */
  lemma OfferBounded(c: Channel, ext: bool, more: Option<seq<byte>>)
    requires Writable(c, ext, more)
    ensures c.credit.recvdone + |SinkOf(c, ext).ring| + (if more.Some? then |more.value| else 0) <= c.setup.window
  {
  }

  /** After the write the windows fit in their fields and the assertions of writechannel hold. */
  lemma WriteIsSafe(c: Channel, ext: bool, more: Option<seq<byte>>, w: WriteResult)
    requires Writable(c, ext, more)
    ensures var (d, consumed, ok) := WriteOut(c, ext, more, w);
            && d.credit.recvwindow + d.credit.recvdone <= d.setup.window
            && WindowsFit(ExtendWindow(d))
            && WriteChannel(c, ext, more, w) == (ExtendWindow(d), consumed, ok)
  {
    var hand := if more.Some? then |more.value| else 0;
    var (d, consumed, ok) := WriteOut(c, ext, more, w);
    WriteOutFrame(c, ext, more, w);
    WriteOutBalance(c, ext, more, w, hand);
    ExtendWindowKeeps(d, hand - consumed);
  }

  /** What is left of a packet after writev fits in the ring. */
  lemma RestFits(c: Channel, ext: bool, data: seq<byte>, w: WriteResult)
    requires Writable(c, ext, Some(data))
    ensures var (d, consumed, ok) := WriteChannel(c, ext, Some(data), w);
            consumed <= |data| && |SinkOf(d, ext).ring| + |data| - consumed <= d.setup.window
  {
    WriteChannelKeeps(c, ext, Some(data), w, |data|);
  }

  /** ReceiveData when every check passes. */
  lemma Accepted(c: Channel, ext: bool, data: seq<byte>, w: WriteResult)
    requires WellFormed(c.setup) && Writable(Charge(c, |data|), ext, Some(data)) && !c.flags.recvEof
    requires |data| <= c.setup.window - |SinkOf(c, ext).ring| && |data| <= c.credit.recvwindow
    ensures var (d, consumed, ok) := WriteChannel(Charge(c, |data|), ext, Some(data), w);
            consumed <= |data| && ReceiveData(c, ext, data, w) == Keep(d, ext, data[consumed..], ok)
  {
    RestFits(Charge(c, |data|), ext, data, w);
    WriteChannelKeeps(Charge(c, |data|), ext, Some(data), w, |data|);
  }

  /** How the writes go has no bearing on the reads. */
  lemma SameReads(c: Channel, io: Io, did: Io)
    requires did == io.(write := did.write, writeErr := did.writeErr)
    ensures IoReads(c, did) == IoReads(c, io) && BusyReading(c, did) == BusyReading(c, io)
  {
  }

  lemma FlushKeepsRings(c: Channel, p: Probe)
    ensures var d := Flushed(c, p);
            d.writebuf == c.writebuf && d.extrabuf == c.extrabuf && d.setup == c.setup
  {
  }

  /** One memcpy into the place cbuf_writeptr gives. */
  method CopyOnce(cbuf: CircBuffer, bytes: seq<byte>)
    requires cbuf.Valid() && |bytes| <= cbuf.size - |cbuf.contents| && cbuf.writepos + |bytes| <= cbuf.size
    modifies cbuf, cbuf.data
    ensures cbuf.Valid() && cbuf.contents == old(cbuf.contents) + bytes
    ensures cbuf.data == old(cbuf.data) || fresh(cbuf.data)
    ensures old(cbuf.writepos) + |bytes| == cbuf.size ==> cbuf.writepos == 0
  {
    var at := cbuf.WritePtr(|bytes|);
    cbuf.CopyIn(bytes);
    cbuf.IncrWrite(|bytes|);
  }

  /** One round of the copy loop: stopped short only by the end of the storage. */
  method CopyRound(cbuf: CircBuffer, rest: seq<byte>) returns (n: nat)
    requires cbuf.Valid() && 0 < |rest| <= cbuf.size - |cbuf.contents|
    modifies cbuf, cbuf.data
    ensures cbuf.Valid() && 0 < n <= |rest| && cbuf.contents == old(cbuf.contents) + rest[..n]
    ensures cbuf.data == old(cbuf.data) || fresh(cbuf.data)
    ensures n < |rest| ==> cbuf.writepos == 0 && old(cbuf.writepos) != 0
  {
    var buflen := cbuf.WriteLen();
    n := Min(buflen, |rest|);
    CopyOnce(cbuf, rest[..n]);
  }

  /** The copy loop of common_recv_msg_channel_data: it ends after at most two rounds. */
  method CopyRest(cbuf: CircBuffer, rest: seq<byte>) returns (rounds: nat)
    requires cbuf.Valid() && |cbuf.contents| + |rest| <= cbuf.size
    modifies cbuf, cbuf.data
    ensures cbuf.Valid() && cbuf.contents == old(cbuf.contents) + rest && rounds <= 2
    ensures cbuf.data == old(cbuf.data) || fresh(cbuf.data)
  {
    var left := rest;
    rounds := 0;
    while |left| > 0
      invariant cbuf.Valid() && cbuf.contents + left == old(cbuf.contents) + rest
      invariant cbuf.data == old(cbuf.data) || fresh(cbuf.data)
      invariant left == [] || rounds == 0 || (rounds == 1 && cbuf.writepos == 0)
      invariant |cbuf.contents| + |left| <= cbuf.size && rounds <= 2
    {
      var n := CopyRound(cbuf, left);
      assert left[..n] + left[n..] == left;
      left := left[n..];
      rounds := rounds + 1;
    }
  }

  class ChannelRecord {
    const setup: Setup
    const writebuf: CircBuffer
    const extrabuf: CircBuffer?

    var fds: Fds
    var recvwindow: u32
    var recvdonelen: u32
    var transwindow: u32
    var flags: Flags
    var out: seq<Msg>
    var removed: bool
    var exit: Option<Exit>

    ghost var model: Channel

    /** The real fields hold what the model says. */
    ghost predicate Matches()
      reads this
    {
      && model.setup == setup && model.fds == fds && model.flags == flags
      && model.credit.recvwindow == recvwindow && model.credit.recvdone == recvdonelen
      && model.credit.transwindow == transwindow
      && model.out == out && model.removed == removed && model.exit == exit
    }

    ghost predicate Valid()
      reads this, writebuf, writebuf.data, extrabuf, if extrabuf != null then {extrabuf.data} else {}
    {
      && Matches() && WellFormed(setup) && setup.room < 0x8000_0000
      && writebuf.Valid() && writebuf.size == setup.window && writebuf.contents == model.writebuf.ring
      && (extrabuf != null <==> setup.hasExtra)
      && (extrabuf != null ==>
            && extrabuf != writebuf && extrabuf.Valid() && extrabuf.size == setup.window
            && extrabuf.contents == model.extrabuf.ring
            && (extrabuf.data != null ==> extrabuf.data != writebuf.data))
    }

    constructor (setup: Setup, fds: Fds, transwindow: u32)
      requires WellFormed(setup) && setup.room < 0x8000_0000
      ensures Valid() && this.setup == setup && model == NewChannel(setup, fds, transwindow)
      ensures fresh(writebuf) && (extrabuf != null ==> fresh(extrabuf))
    {
      this.setup, this.fds := setup, fds;
      writebuf := new CircBuffer(setup.window);
      if setup.hasExtra {
        extrabuf := new CircBuffer(setup.window);
      } else {
        extrabuf := null;
      }
      recvwindow, recvdonelen, this.transwindow := setup.window, 0, transwindow;
      flags := Flags(false, false, false, false, false);
      out, removed, exit := [], false, None;
      model := NewChannel(setup, fds, transwindow);
    }

    /** close_chan_fd. */
    method CloseChanFd(fd: int, how: How)
      requires Matches()
      modifies this`fds, this`model
      ensures Matches() && model == old(model).(fds := CloseFd(setup, old(fds), fd, how))
    {
      var closeout, closein := false, false;
      if setup.bidir {
        if how.ShutRd? {
          closeout := true;
        } else {
          closein := true;
        }
      } else {
        closeout, closein := true, true;
      }
      var was := fds;
      if closeout && fd == was.readfd {
        fds := fds.(readfd := FD_CLOSED);
      }
      if closeout && !setup.hasExtra && fd == was.errfd {
        fds := fds.(errfd := FD_CLOSED);
      }
      if closein && fd == was.writefd {
        fds := fds.(writefd := FD_CLOSED);
      }
      if closein && setup.hasExtra && fd == was.errfd {
        fds := fds.(errfd := FD_CLOSED);
      }
      model := model.(fds := fds);
    }

    function Buf(ext: bool): CircBuffer
      reads this
      requires ext ==> extrabuf != null
    {
      if ext then extrabuf else writebuf
    }

    /** The two pieces of a ring, as an iovec array gives them to writev. */
    method Pieces(cbuf: CircBuffer) returns (first: seq<byte>, second: seq<byte>)
      requires cbuf.Valid()
      ensures first + second == cbuf.contents && (first == [] ==> second == [])
    {
      var at, len1, len2 := cbuf.ReadPtrs();
      if cbuf.data == null {
        return [], [];
      }
      first, second := cbuf.data[at..at + len1], cbuf.data[..len2];
    }

    /** The descriptor has taken the first n bytes of iov: the ring, then extra. */
    method Consume(ext: bool, cbuf: CircBuffer, iov: seq<byte>, n: u32, ghost extra: seq<byte>)
      requires Valid() && (ext ==> extrabuf != null) && cbuf == Buf(ext)
      requires iov == cbuf.contents + extra && n <= |iov| && recvdonelen + n < 0x1_0000_0000
      modifies this`recvdonelen, this`model, cbuf`used, cbuf`readpos, cbuf`contents
      ensures Valid() && model == Taken(old(model), ext, extra, n)
    {
      cbuf.IncrRead(Min(cbuf.GetUsed(), n));
      recvdonelen := recvdonelen + n;
      model := Taken(model, ext, extra, n);
    }

    /** write or writev has answered w, having been offered iov. */
    method Answered(ext: bool, fd: int, cbuf: CircBuffer, iov: seq<byte>, w: WriteResult, ghost extra: seq<byte>)
      returns (consumed: nat, ok: bool)
      requires Valid() && (ext ==> extrabuf != null) && cbuf == Buf(ext) && fd == SinkFd(model, ext)
      requires iov == cbuf.contents + extra && recvdonelen + |iov| < 0x1_0000_0000
      modifies this`recvdonelen, this`fds, this`model, cbuf`used, cbuf`readpos, cbuf`contents
      ensures Valid() && (model, consumed, ok) == Answer(old(model), ext, extra, w)
    {
      match w
      case Failed =>
        CloseChanFd(fd, ShutWr);
        return 0, false;
      case Again =>
        return 0, true;
      case Wrote(n) =>
        var used, written := cbuf.GetUsed(), Min(n, |iov|);
        Consume(ext, cbuf, iov, written, extra);
        return written - Min(used, written), true;
    }

    /** writechannel_writev. */
    method WriteVectored(ext: bool, fd: int, cbuf: CircBuffer, more: Option<seq<byte>>, w: WriteResult)
      returns (consumed: nat, ok: bool)
      requires Valid() && setup.vectored && (ext ==> extrabuf != null) && cbuf == Buf(ext) && fd == SinkFd(model, ext)
      requires recvdonelen + |cbuf.contents| + (if more.Some? then |more.value| else 0) < 0x1_0000_0000
      modifies this`recvdonelen, this`fds, this`model, cbuf`used, cbuf`readpos, cbuf`contents
      ensures Valid() && (model, consumed, ok) == WriteOut(old(model), ext, more, w)
    {
      var first, second := Pieces(cbuf);
      var extra := if more.Some? then more.value else [];
      if |first| == 0 && |second| == 0 && more.None? {
        return 0, true;
      }
      consumed, ok := Answered(ext, fd, cbuf, first + second + extra, w, extra);
    }

    /** writechannel_fallback: only the first piece is offered, so w counts at most that. */
    method WriteFallback(ext: bool, fd: int, cbuf: CircBuffer, more: Option<seq<byte>>, w: WriteResult)
      returns (consumed: nat, ok: bool, ghost did: WriteResult)
      requires Valid() && !setup.vectored && (ext ==> extrabuf != null) && cbuf == Buf(ext) && fd == SinkFd(model, ext)
      requires recvdonelen + |cbuf.contents| < 0x1_0000_0000
      modifies this`recvdonelen, this`fds, this`model, cbuf`used, cbuf`readpos, cbuf`contents
      ensures Valid() && (model, consumed, ok) == WriteOut(old(model), ext, more, did)
      ensures did == w || (w.Wrote? && did.Wrote? && did.n <= w.n)
    {
      var first, second := Pieces(cbuf);
      var answer := if w.Wrote? then Wrote(Min(w.n, |first|)) else w;
      did := answer;
      consumed, ok := Answered(ext, fd, cbuf, first + second, answer, []);
    }

    /** send_msg_channel_window_adjust and what follows it in writechannel. */
    method AdjustIfDue()
      requires Valid() && recvwindow + recvdonelen < 0x1_0000_0000
      modifies this`out, this`recvwindow, this`recvdonelen, this`model
      ensures Valid() && model == ExtendWindow(old(model))
    {
      model := ExtendWindow(model);
      if recvdonelen >= setup.window / 3 {
        out := out + [WindowAdjust(recvdonelen)];
        recvwindow := recvwindow + recvdonelen;
        recvdonelen := 0;
      }
    }

    /** The write of writechannel, in whichever way the system provides. */
    method WriteOnce(ext: bool, fd: int, cbuf: CircBuffer, more: Option<seq<byte>>, w: WriteResult)
      returns (consumed: nat, ok: bool, ghost did: WriteResult)
      requires Valid() && (ext ==> extrabuf != null) && cbuf == Buf(ext) && fd == SinkFd(model, ext)
      requires recvdonelen + |cbuf.contents| + (if more.Some? then |more.value| else 0) < 0x1_0000_0000
      modifies this`recvdonelen, this`fds, this`model, cbuf`used, cbuf`readpos, cbuf`contents
      ensures Valid() && (model, consumed, ok) == WriteOut(old(model), ext, more, did)
      ensures did == w || (w.Wrote? && did.Wrote? && did.n <= w.n)
    {
      if setup.vectored {
        did := w;
        consumed, ok := WriteVectored(ext, fd, cbuf, more, w);
      } else {
        consumed, ok, did := WriteFallback(ext, fd, cbuf, more, w);
      }
    }

    /** writechannel, with its three assertions. */
    method WriteToChannel(ext: bool, fd: int, cbuf: CircBuffer, more: Option<seq<byte>>, w: WriteResult)
      returns (consumed: nat, ok: bool, ghost did: WriteResult)
      requires Valid() && (ext ==> extrabuf != null) && cbuf == Buf(ext) && fd == SinkFd(model, ext)
      requires Writable(model, ext, more)
      modifies this`recvdonelen, this`fds, this`model, this`out, this`recvwindow
      modifies cbuf`used, cbuf`readpos, cbuf`contents
      ensures Valid() && (model, consumed, ok) == WriteChannel(old(model), ext, more, did)
      ensures did == w || (w.Wrote? && did.Wrote? && did.n <= w.n)
    {
      ghost var was := model;
      OfferBounded(was, ext, more);
      consumed, ok, did := WriteOnce(ext, fd, cbuf, more, w);
      WriteIsSafe(was, ext, more, did);
      AdjustIfDue();
      assert recvwindow <= setup.window;
      assert recvwindow <= writebuf.GetAvail();
      assert extrabuf == null || recvwindow <= extrabuf.GetAvail();
    }

    /** The end of common_recv_msg_channel_data: the bytes writev left are copied or discarded. */
    method KeepRest(ext: bool, cbuf: CircBuffer, rest: seq<byte>, ok: bool)
      requires Valid() && (ext ==> extrabuf != null) && cbuf == Buf(ext)
      requires ok ==> |cbuf.contents| + |rest| <= cbuf.size
      modifies this`model, cbuf, cbuf.data
      ensures Valid() && model == Keep(old(model), ext, rest, ok)
    {
      if ok {
        var rounds := CopyRest(cbuf, rest);
      }
      model := Keep(model, ext, rest, ok);
    }

    /** common_recv_msg_channel_data past its checks: charge the window, try writev, keep the rest. */
    method AcceptData(ext: bool, fd: int, cbuf: CircBuffer, data: seq<byte>, w: WriteResult) returns (ghost did: WriteResult)
      requires Valid() && (ext ==> extrabuf != null) && cbuf == Buf(ext) && fd == SinkFd(model, ext)
      requires |data| <= recvwindow && Writable(Charge(model, |data|), ext, Some(data))
      modifies this, cbuf, cbuf.data
      ensures did == w || (w.Wrote? && did.Wrote? && did.n <= w.n)
      ensures Valid()
      ensures var (d, consumed, ok) := WriteChannel(Charge(old(model), |data|), ext, Some(data), did);
              consumed <= |data| && model == Keep(d, ext, data[consumed..], ok)
    {
      recvwindow := recvwindow - |data|;
      model := Charge(model, |data|);
      assert recvwindow <= setup.window;
      ghost var charged := model;
      var consumed, ok;
      consumed, ok, did := WriteToChannel(ext, fd, cbuf, Some(data), w);
      RestFits(charged, ext, data, did);
      KeepRest(ext, cbuf, data[consumed..], ok);
    }

    /** An exit, with the reason. */
    method Die(why: Exit)
      requires Valid()
      modifies this`exit, this`model
      ensures Valid() && model == old(model).(exit := Some(why))
    {
      exit := Some(why);
      model := model.(exit := exit);
    }

    /** common_recv_msg_channel_data. */
    method CommonRecvData(ext: bool, fd: int, cbuf: CircBuffer?, data: seq<byte>, w: WriteResult)
      returns (ghost did: WriteResult)
      requires Valid() && fd == SinkFd(model, ext) && cbuf == if ext then extrabuf else writebuf
      requires InUse(model)
      modifies this, cbuf, if cbuf != null then {cbuf.data} else {}
      ensures Valid() && model == ReceiveData(old(model), ext, data, did)
    {
      did := w;
      if flags.recvEof {
        Die(DataAfterEof);
        return;
      }
      if fd < 0 || cbuf == null {
        model := Drop(model, ext, data);
        return;
      }
      if |data| > cbuf.GetAvail() {
        Die(OversizedPacket);
        return;
      }
      if recvwindow < |data| {
        Die(FailedAssertion);
        return;
      }
      ghost var was := model;
      did := AcceptData(ext, fd, cbuf, data, w);
      Accepted(was, ext, data, did);
    }

    /** The end of send_msg_channel_data: the packet goes out and the window shrinks. */
    method Transmit(ext: bool, data: seq<byte>)
      requires Valid() && |data| <= transwindow
      modifies this`transwindow, this`out, this`model
      ensures Valid()
      ensures model == Send(old(model), if ext then ExtendedData(data) else Data(data))
                       .(credit := old(model).credit.(transwindow := old(model).credit.transwindow - |data|))
    {
      model := Send(model, if ext then ExtendedData(data) else Data(data))
               .(credit := model.credit.(transwindow := model.credit.transwindow - |data|));
      transwindow := transwindow - |data|;
      out := out + [if ext then ExtendedData(data) else Data(data)];
    }

    /** send_msg_channel_data: one read of at most what window, packet and buffer allow. */
    method SendMsgChannelData(ext: bool, r: ReadResult)
      requires Valid()
      modifies this`transwindow, this`fds, this`out, this`exit, this`model
      ensures Valid() && model == SendData(old(model), ext, r)
    {
      var fd := if ext then fds.errfd else fds.readfd;
      if flags.sentClose || fd < 0 {
        Die(FailedAssertion);
        return;
      }
      var maxlen := Min(transwindow, setup.transmax);
      maxlen := Min(maxlen, setup.room - (if ext then 4 else 0));
      if maxlen <= 0 {
        return;
      }
      match r
      case Ended =>
        CloseChanFd(fd, ShutRd);
      case Interrupted =>
      case Got(bytes) =>
        var data := if |bytes| <= maxlen then bytes else bytes[..maxlen];
        if |data| == 0 {
          return;
        }
        Transmit(ext, data);
    }

    /** recv_msg_channel_window_adjust. */
    method RecvMsgWindowAdjust(incr: u32)
      requires Valid()
      modifies this`transwindow, this`model
      ensures Valid() && model == AdjustWindow(old(model), incr)
    {
      var step: u32 := Min(incr, TRANS_MAX_WIN_INCR);
      transwindow := (transwindow + step) % 0x1_0000_0000;
      transwindow := Min(transwindow, TRANS_MAX_WINDOW);
      model := AdjustWindow(model, incr);
    }

    /** send_msg_channel_eof. */
    method SendMsgChannelEof()
      requires Matches()
      modifies this`out, this`flags, this`model
      ensures Matches() && model == SendEof(old(model))
    {
      out := out + [Eof];
      flags := flags.(sentEof := true);
      model := SendEof(model);
    }

    /** send_msg_channel_close. */
    method SendMsgChannelClose()
      requires Matches()
      modifies this`out, this`flags, this`fds, this`model
      ensures Matches() && model == SendClose(old(model))
    {
      out := out + [Close];
      flags := flags.(sentEof := true, sentClose := true);
      model := model.(out := out, flags := flags);
      CloseChanFd(fds.readfd, ShutRd);
      CloseChanFd(fds.errfd, ShutRdWr);
      CloseChanFd(fds.writefd, ShutWr);
    }

    /** write_pending. */
    method WriteIsPending() returns (pending: bool)
      requires Valid()
      ensures pending == WritePending(model)
    {
      if fds.writefd >= 0 && writebuf.GetUsed() > 0 {
        return true;
      } else if fds.errfd >= 0 && extrabuf != null && extrabuf.GetUsed() > 0 {
        return true;
      }
      return false;
    }

    /** In flushing mode descriptors close as soon as they are empty. */
    method FlushDescriptors(p: Probe)
      requires Matches()
      modifies this`fds, this`model
      ensures Matches() && model == FlushFds(old(model), p)
    {
      if fds.readfd >= 0 && !p.readMore {
        CloseChanFd(fds.readfd, ShutRd);
      }
      if !setup.hasExtra && fds.errfd >= 0 && !p.errMore {
        CloseChanFd(fds.errfd, ShutRd);
      }
    }

    /** Both CLOSEs are through: answer if need be, and forget the channel. */
    method RemoveChannel()
      requires Matches()
      modifies this`out, this`flags, this`fds, this`removed, this`model
      ensures Matches()
      ensures model == (if old(flags).sentClose then old(model) else SendClose(old(model))).(removed := true)
    {
      if !flags.sentClose {
        SendMsgChannelClose();
      }
      removed := true;
      model := model.(removed := true);
    }

    /** The middle of check_close: nothing more to write. */
    method CloseWriting(pending: bool, allowed: bool)
      requires Matches() && pending == WritePending(model)
      modifies this`fds, this`model
      ensures Matches() && model == StopWriting(old(model), allowed)
    {
      if (flags.recvEof && !pending) || (setup.gated && allowed) {
        CloseChanFd(fds.writefd, ShutWr);
      }
    }

    /** Nothing more to read: EOF. */
    method EofIfOver()
      requires Matches()
      modifies this`out, this`flags, this`model
      ensures Matches() && model == MaybeEof(old(model))
    {
      if !flags.sentEof && fds.readfd == FD_CLOSED && (setup.hasExtra || fds.errfd == FD_CLOSED) {
        SendMsgChannelEof();
      }
    }

    /** The end of check_close: nothing more either way, so CLOSE. */
    method CloseIfOver(allowed: bool)
      requires Valid()
      modifies this`out, this`flags, this`fds, this`model
      ensures Valid() && model == MaybeClose(old(model), allowed)
    {
      var pending := WriteIsPending();
      if fds.readfd == FD_CLOSED && fds.writefd == FD_CLOSED && (setup.hasExtra || fds.errfd == FD_CLOSED) &&
         !flags.sentClose && allowed && !pending {
        SendMsgChannelClose();
      }
    }

    /** check_close, after the type's check and the flushing. */
    method SettleChannel(allowed: bool)
      requires Valid()
      modifies this`out, this`flags, this`fds, this`removed, this`model
      ensures Valid() && model == Settle(old(model), allowed)
    {
      var pending := WriteIsPending();
      if flags.recvClose && !pending && allowed {
        RemoveChannel();
      } else {
        CloseWriting(pending, allowed);
        EofIfOver();
        CloseIfOver(allowed);
      }
    }

    /** What the type's check_close does to the channel: flush once the process has exited. */
    method StartFlushing(p: Probe)
      requires Matches()
      modifies this`flags, this`model
      ensures Matches() && model == old(model).(flags := old(model).flags.(flushing := Flushing(old(model), p)))
    {
      if setup.gated && !flags.sentClose && p.exited {
        flags := flags.(flushing := true);
      }
      model := model.(flags := flags);
    }

    method FlushIfExited(p: Probe)
      requires Matches()
      modifies this`flags, this`fds, this`model
      ensures Matches() && model == Flushed(old(model), p)
    {
      StartFlushing(p);
      if flags.flushing {
        FlushDescriptors(p);
      }
    }

    /** check_close. */
    method CheckChannelClose(p: Probe)
      requires Valid()
      modifies this`out, this`flags, this`fds, this`removed, this`model
      ensures Valid() && model == CheckClose(old(model), p)
    {
      var allowed := !setup.gated || flags.sentClose || p.idle || p.exited;
      ghost var was := model;
      FlushIfExited(p);
      FlushKeepsRings(was, p);
      SettleChannel(allowed);
    }

    /** The reading half of channelio; it never exits. */
    method ReadReady(io: Io) returns (busy: bool)
      requires Valid() && InUse(model)
      modifies this`transwindow, this`fds, this`out, this`exit, this`model
      ensures Valid() && model == IoReads(old(model), io) && InUse(model) && busy == BusyReading(old(model), io)
    {
      IoReadsKeeps(model, io);
      IoReadsKeeps(IoRead(model, io), io);
      busy := false;
      if fds.readfd >= 0 && io.read.Some? {
        SendMsgChannelData(false, io.read.value);
        busy := true;
      }
      if !setup.hasExtra && fds.errfd >= 0 && io.readErr.Some? {
        SendMsgChannelData(true, io.readErr.value);
        busy := true;
      }
    }

    /** One of the two writes of channelio. */
    method WriteReady(ext: bool, w: Option<WriteResult>) returns (busy: bool, ghost did: Option<WriteResult>)
      requires Valid() && InUse(model)
      modifies this, writebuf`used, writebuf`readpos, writebuf`contents, extrabuf
      ensures Valid() && InUse(model) && did.Some? == w.Some?
      ensures busy == (did.Some? && SinkFd(old(model), ext) >= 0 && (ext ==> setup.hasExtra))
      ensures model == if busy then WriteChannel(old(model), ext, None, did.value).0 else old(model)
    {
      did, busy := w, false;
      var fd := if ext then fds.errfd else fds.writefd;
      if w.None? || fd < 0 || (ext && extrabuf == null) {
        return;
      }
      ghost var was := model;
      var consumed, ok;
      ghost var answer;
      consumed, ok, answer := WriteToChannel(ext, fd, Buf(ext), None, w.value);
      did, busy := Some(answer), true;
      WriteKeeps(was, ext, answer);
    }

    /** The writing half. */
    method WritesReady(io: Io) returns (busy: bool, ghost did: Io)
      requires Valid() && InUse(model)
      modifies this, writebuf, extrabuf
      ensures Valid() && did == io.(write := did.write, writeErr := did.writeErr)
      ensures model == IoWrites(old(model), did) && busy == BusyWriting(old(model), did)
    {
      ghost var w, we;
      var out, err;
      out, w := WriteReady(false, io.write);
      err, we := WriteReady(true, io.writeErr);
      busy := out || err;
      did := io.(write := w, writeErr := we);
    }

    /** channelio for this channel. */
    method ChannelIoPass(io: Io) returns (ghost did: Io)
      requires Valid() && InUse(model)
      modifies this, writebuf, extrabuf
      ensures Valid() && model == ChannelIo(old(model), did) && Consistent(model)
    {
      ghost var was := model;
      var reading := ReadReady(io);
      var writing;
      writing, did := WritesReady(io);
      SameReads(was, io, did);
      ChannelIoKeeps(was, did);
      if reading || writing || io.childExited {
        CheckChannelClose(io.probe);
      }
    }

    /** recv_msg_channel_eof. */
    method RecvMsgChannelEof(p: Probe)
      requires Valid()
      modifies this`out, this`flags, this`fds, this`removed, this`model
      ensures Valid() && model == CheckClose(old(model).(flags := old(model).flags.(recvEof := true)), p)
    {
      flags := flags.(recvEof := true);
      model := model.(flags := flags);
      CheckChannelClose(p);
    }

    /** recv_msg_channel_close. */
    method RecvMsgChannelClose(p: Probe)
      requires Valid()
      modifies this`out, this`flags, this`fds, this`removed, this`model
      ensures Valid()
      ensures model == CheckClose(old(model).(flags := old(model).flags.(recvEof := true, recvClose := true)), p)
    {
      flags := flags.(recvEof := true, recvClose := true);
      model := model.(flags := flags);
      CheckChannelClose(p);
    }

    /** The handlers of the channel messages. */
    method Handle(m: Msg, w: WriteResult, p: Probe)
      returns (ghost did: WriteResult)
      requires Valid() && Consistent(model) && (m.WindowAdjust? ==> 0 <= m.incr < 0x1_0000_0000)
      modifies this, writebuf, extrabuf, writebuf.data, if extrabuf != null then {extrabuf.data} else {}
      ensures Valid() && model == Deliver(old(model), m, did, p)
    {
      did := w;
      if removed {
        Die(UnknownChannel);
        return;
      }
      match m
      case Data(data) =>
        did := CommonRecvData(false, fds.writefd, writebuf, data, w);
      case ExtendedData(data) =>
        if setup.session {
          did := CommonRecvData(true, fds.errfd, extrabuf, data, w);
        } else {
          model := Drop(model, true, data);
        }
      case WindowAdjust(incr) =>
        RecvMsgWindowAdjust(incr);
      case Eof =>
        RecvMsgChannelEof(p);
      case Close =>
        RecvMsgChannelClose(p);
    }
  }
}
