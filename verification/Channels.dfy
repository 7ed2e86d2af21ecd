/**
 * One SSH channel as common-channel.c keeps it, on values: one function per C function.
 * ChannelObject.dfy runs the same steps on a mutable record over ring buffers, ChannelRuns.dfy
 * proves what two connected channels do together.
 */
module Channels {
  import opened Options
  import opened Radix

  const FD_CLOSED: int := -1

  /** opts.recv_window never exceeds this (common-runopts.c). */
  const MAX_RECV_WINDOW: int := 10 * 1024 * 1024

  const TRANS_MAX_WINDOW: int := 500000000
  const TRANS_MAX_WIN_INCR: int := 500000000

  /** What is sent on a channel once it is open; channel requests and their replies are left out. */
  datatype Msg =
    | Data(bytes: seq<byte>)
    | ExtendedData(bytes: seq<byte>)
    | WindowAdjust(incr: int)
    | Eof
    | Close

  /** What write or writev answers: a count, EINTR or EAGAIN, any other error. */
  datatype WriteResult = Wrote(n: nat) | Again | Failed

  /** What read, then the read mangler, answers: bytes, end of file or an error, EINTR. */
  datatype ReadResult = Got(bytes: seq<byte>) | Ended | Interrupted

  datatype How = ShutRd | ShutWr | ShutRdWr

  datatype Exit = DataAfterEof | OversizedPacket | FailedAssertion | UnknownChannel

  /** Fixed for the life of a channel. */
  datatype Setup = Setup(
    window: nat,        // opts.recv_window
    transmax: nat,      // transmaxpacket
    room: nat,          // what ses.writepayload holds beyond the channel data header
    vectored: bool,     // HAVE_WRITEV
    bidir: bool,        // bidir_fd
    hasExtra: bool,     // extrabuf is set: errfd is written to, not read from
    session: bool,      // a client session, which takes extended data
    gated: bool)        // the type has a check_close of its own

  /** One stream from the wire to a descriptor: held in the ring, written out, thrown away. */
  datatype Sink = Sink(ring: seq<byte>, written: seq<byte>, skipped: seq<byte>)

  datatype Flags = Flags(sentEof: bool, sentClose: bool, recvEof: bool, recvClose: bool, flushing: bool)

  datatype Fds = Fds(readfd: int, writefd: int, errfd: int)

  /** Flow control; discarded and dropped count bytes lost after and before the window paid for them. */
  datatype Credit = Credit(recvwindow: int, recvdone: int, transwindow: int, discarded: nat, dropped: nat)

  datatype Channel = Channel(
    setup: Setup,
    fds: Fds,
    writebuf: Sink,
    extrabuf: Sink,
    credit: Credit,
    flags: Flags,
    out: seq<Msg>,
    removed: bool,
    exit: Option<Exit>)


  /** newchannel, with the descriptors its type sets up and the window the peer announced. */
  function NewChannel(setup: Setup, fds: Fds, transwindow: nat): Channel
  {
    Channel(setup, fds, Sink([], [], []), Sink([], [], []), Credit(setup.window, 0, transwindow, 0, 0),
            Flags(false, false, false, false, false), [], false, None)
  }

  /** The setup never changes and what was sent stays sent. */
  predicate Grows(c: Channel, d: Channel) { d.setup == c.setup && c.out <= d.out }

  function SinkOf(c: Channel, ext: bool): Sink { if ext then c.extrabuf else c.writebuf }

  function WithSink(c: Channel, ext: bool, s: Sink): Channel
  {
    if ext then c.(extrabuf := s) else c.(writebuf := s)
  }

  function SinkFd(c: Channel, ext: bool): int { if ext then c.fds.errfd else c.fds.writefd }

  function Send(c: Channel, m: Msg): Channel { c.(out := c.out + [m]) }

  /** close_chan_fd. */
  function CloseFd(setup: Setup, f: Fds, fd: int, how: How): Fds
  {
    var closeout, closein := !setup.bidir || how.ShutRd?, !setup.bidir || !how.ShutRd?;
    Fds(if closeout && fd == f.readfd then FD_CLOSED else f.readfd,
        if closein && fd == f.writefd then FD_CLOSED else f.writefd,
        if (if setup.hasExtra then closein else closeout) && fd == f.errfd then FD_CLOSED else f.errfd)
  }

  /** n bytes have been written, from the ring first and then from what was offered beside it. */
  function Drain(s: Sink, extra: seq<byte>, n: nat): Sink
    requires n <= |s.ring| + |extra|
  {
    var fromRing := Min(|s.ring|, n);
    s.(ring := s.ring[fromRing..], written := s.written + s.ring[..fromRing] + extra[..n - fromRing])
  }

  /** n bytes have gone to the descriptor. */
  function Taken(c: Channel, ext: bool, extra: seq<byte>, n: nat): (d: Channel)
    requires n <= |SinkOf(c, ext).ring| + |extra|
    ensures Grows(c, d)
  {
    WithSink(c, ext, Drain(SinkOf(c, ext), extra, n)).(credit := c.credit.(recvdone := c.credit.recvdone + n))
  }

  /** The answer of write or writev, offered the ring and then extra. */
  function Answer(c: Channel, ext: bool, extra: seq<byte>, w: WriteResult): (r: (Channel, nat, bool))
    ensures Grows(c, r.0)
  {
    var ring := |SinkOf(c, ext).ring|;
    match w
    case Failed => (c.(fds := CloseFd(c.setup, c.fds, SinkFd(c, ext), ShutWr)), 0, false)
    case Again => (c, 0, true)
    case Wrote(n) =>
      var all := Min(n, ring + |extra|);
      (Taken(c, ext, extra, all), all - Min(ring, all), true)
  }

  /** writechannel_writev and writechannel_fallback: what was taken of `more`, and whether it failed. */
  function WriteOut(c: Channel, ext: bool, more: Option<seq<byte>>, w: WriteResult): (r: (Channel, nat, bool))
    ensures Grows(c, r.0)
  {
    if c.setup.vectored && SinkOf(c, ext).ring == [] && more.None? then (c, 0, true)
    else Answer(c, ext, if c.setup.vectored && more.Some? then more.value else [], w)
  }

  /** send_msg_channel_window_adjust, once enough has been written. */
  function ExtendWindow(c: Channel): (d: Channel)
    ensures Grows(c, d)
  {
    if c.credit.recvdone < c.setup.window / 3 then c
    else
      Send(c, WindowAdjust(c.credit.recvdone))
      .(credit := c.credit.(recvwindow := c.credit.recvwindow + c.credit.recvdone, recvdone := 0))
  }

  /** The three assertions that end writechannel. */
  predicate WindowsFit(c: Channel)
  {
    && c.credit.recvwindow <= c.setup.window
    && c.credit.recvwindow <= c.setup.window - |c.writebuf.ring|
    && (c.setup.hasExtra ==> c.credit.recvwindow <= c.setup.window - |c.extrabuf.ring|)
  }

  /** writechannel. */
  function WriteChannel(c: Channel, ext: bool, more: Option<seq<byte>>, w: WriteResult): (r: (Channel, nat, bool))
    ensures Grows(c, r.0)
  {
    var (d, consumed, ok) := WriteOut(c, ext, more, w);
    var e := ExtendWindow(d);
    (if WindowsFit(e) then e else e.(exit := Some(FailedAssertion)), consumed, ok)
  }

  /** Bytes that the window is not charged for. */
  function Drop(c: Channel, ext: bool, data: seq<byte>): (d: Channel)
    ensures Grows(c, d)
  {
    var s := SinkOf(c, ext);
    WithSink(c, ext, s.(skipped := s.skipped + data)).(credit := c.credit.(dropped := c.credit.dropped + |data|))
  }

  /** The end of common_recv_msg_channel_data: what writev left goes into the ring, or nowhere. */
  function Keep(c: Channel, ext: bool, rest: seq<byte>, ok: bool): (d: Channel)
    ensures Grows(c, d)
  {
    var s := SinkOf(c, ext);
    if ok then WithSink(c, ext, s.(ring := s.ring + rest))
    else WithSink(c, ext, s.(skipped := s.skipped + rest)).(credit := c.credit.(discarded := c.credit.discarded + |rest|))
  }

  function Charge(c: Channel, n: nat): Channel
  {
    c.(credit := c.credit.(recvwindow := c.credit.recvwindow - n))
  }

  /** A packet that passes the checks: charge the window, try to write at once, keep the rest. */
  function Admit(c: Channel, ext: bool, data: seq<byte>, w: WriteResult): (d: Channel)
    ensures Grows(c, d)
  {
    var (d, consumed, ok) := WriteChannel(Charge(c, |data|), ext, Some(data), w);
    if d.exit.Some? then d else Keep(d, ext, if consumed <= |data| then data[consumed..] else [], ok)
  }

  /** common_recv_msg_channel_data. */
  function ReceiveData(c: Channel, ext: bool, data: seq<byte>, w: WriteResult): (d: Channel)
    ensures Grows(c, d)
  {
    if c.flags.recvEof then c.(exit := Some(DataAfterEof))
    else if SinkFd(c, ext) < 0 || (ext && !c.setup.hasExtra) then Drop(c, ext, data)
    else if |data| > c.setup.window - |SinkOf(c, ext).ring| then c.(exit := Some(OversizedPacket))
    else if |data| > c.credit.recvwindow then c.(exit := Some(FailedAssertion))
    else Admit(c, ext, data, w)
  }

  /** The longest read send_msg_channel_data asks for. */
  function MaxLen(c: Channel, ext: bool): int
  {
    Min(Min(c.credit.transwindow, c.setup.transmax), c.setup.room - (if ext then 4 else 0))
  }

  /** send_msg_channel_data. */
  function SendData(c: Channel, ext: bool, r: ReadResult): (d: Channel)
    ensures Grows(c, d)
  {
    var fd := if ext then c.fds.errfd else c.fds.readfd;
    if c.flags.sentClose || fd < 0 then c.(exit := Some(FailedAssertion))
    else if MaxLen(c, ext) <= 0 then c
    else if r.Ended? then c.(fds := CloseFd(c.setup, c.fds, fd, ShutRd))
    else if r.Interrupted? then c
    else
      var data := if |r.bytes| <= MaxLen(c, ext) then r.bytes else r.bytes[..MaxLen(c, ext)];
      if data == [] then c
      else
        Send(c, if ext then ExtendedData(data) else Data(data))
        .(credit := c.credit.(transwindow := c.credit.transwindow - |data|))
  }

  /** recv_msg_channel_window_adjust, in unsigned arithmetic. */
  function AdjustWindow(c: Channel, incr: int): (d: Channel)
    ensures Grows(c, d)
  {
    var raised := (c.credit.transwindow + Min(incr, TRANS_MAX_WIN_INCR)) % 0x1_0000_0000;
    c.(credit := c.credit.(transwindow := Min(raised, TRANS_MAX_WINDOW)))
  }

  /** write_pending. */
  predicate WritePending(c: Channel)
  {
    || (c.fds.writefd >= 0 && c.writebuf.ring != [])
    || (c.fds.errfd >= 0 && c.setup.hasExtra && c.extrabuf.ring != [])
  }

  /** send_msg_channel_eof. */
  function SendEof(c: Channel): Channel
  {
    Send(c, Eof).(flags := c.flags.(sentEof := true))
  }

  /** The three close_chan_fd calls of send_msg_channel_close. */
  function CloseAll(setup: Setup, f: Fds): Fds
  {
    var g := CloseFd(setup, f, f.readfd, ShutRd);
    var h := CloseFd(setup, g, g.errfd, ShutRdWr);
    CloseFd(setup, h, h.writefd, ShutWr)
  }

  /** send_msg_channel_close. */
  function SendClose(c: Channel): Channel
  {
    Send(c, Close).(flags := c.flags.(sentEof := true, sentClose := true), fds := CloseAll(c.setup, c.fds))
  }

  /** What check_close asks of its surroundings: the type's own check_close and fd_read_pending. */
  datatype Probe = Probe(idle: bool, exited: bool, readMore: bool, errMore: bool)

  predicate CloseAllowed(c: Channel, p: Probe)
  {
    !c.setup.gated || c.flags.sentClose || p.idle || p.exited
  }

  /** In flushing mode descriptors close as soon as they are empty. */
  function FlushFds(c: Channel, p: Probe): (d: Channel)
    ensures Grows(c, d)
  {
    var f := if c.fds.readfd >= 0 && !p.readMore then CloseFd(c.setup, c.fds, c.fds.readfd, ShutRd) else c.fds;
    c.(fds := if !c.setup.hasExtra && f.errfd >= 0 && !p.errMore then CloseFd(c.setup, f, f.errfd, ShutRd) else f)
  }

  /** Nothing more will be read from the local side. */
  predicate ReadingOver(c: Channel)
  {
    c.fds.readfd == FD_CLOSED && (c.setup.hasExtra || c.fds.errfd == FD_CLOSED)
  }

  /** Stop writing once the peer has finished and everything is written, or the process is gone. */
  function StopWriting(c: Channel, allowed: bool): (d: Channel)
    ensures Grows(c, d)
  {
    if (c.flags.recvEof && !WritePending(c)) || (c.setup.gated && allowed)
    then c.(fds := CloseFd(c.setup, c.fds, c.fds.writefd, ShutWr)) else c
  }

  function MaybeEof(c: Channel): (d: Channel)
    ensures Grows(c, d)
  {
    if !c.flags.sentEof && ReadingOver(c) then SendEof(c) else c
  }

  function MaybeClose(c: Channel, allowed: bool): (d: Channel)
    ensures Grows(c, d)
  {
    if ReadingOver(c) && c.fds.writefd == FD_CLOSED && !c.flags.sentClose && allowed && !WritePending(c)
    then SendClose(c) else c
  }

  /** The peer has sent CLOSE and nothing is left to write. */
  predicate Removing(c: Channel, allowed: bool) { c.flags.recvClose && !WritePending(c) && allowed }

  /** check_close, after the type's check and the flushing. */
  function Settle(c: Channel, allowed: bool): (d: Channel)
    ensures Grows(c, d)
  {
    if Removing(c, allowed) then (if c.flags.sentClose then c else SendClose(c)).(removed := true)
    else MaybeClose(MaybeEof(StopWriting(c, allowed)), allowed)
  }

  /** Whether check_close flushes: from the time it learns that the process has exited. */
  predicate Flushing(c: Channel, p: Probe)
  {
    c.flags.flushing || (c.setup.gated && !c.flags.sentClose && p.exited)
  }

  function Flushed(c: Channel, p: Probe): (d: Channel)
    ensures Grows(c, d)
  {
    var d := c.(flags := c.flags.(flushing := Flushing(c, p)));
    if Flushing(c, p) then FlushFds(d, p) else d
  }

  /** check_close. */
  function CheckClose(c: Channel, p: Probe): (d: Channel)
    ensures Grows(c, d)
  {
    Settle(Flushed(c, p), CloseAllowed(c, p))
  }

  /** What select and the descriptors give one channel in one pass of channelio. */
  datatype Io = Io(
    read: Option<ReadResult>,
    readErr: Option<ReadResult>,
    write: Option<WriteResult>,
    writeErr: Option<WriteResult>,
    childExited: bool,
    probe: Probe)

  // The four tests of channelio, each on the channel as the step before left it.
  predicate DueRead(c: Channel, io: Io) { c.fds.readfd >= 0 && io.read.Some? }

  predicate DueReadErr(c: Channel, io: Io) { !c.setup.hasExtra && c.fds.errfd >= 0 && io.readErr.Some? }

  predicate DueWrite(c: Channel, io: Io) { c.fds.writefd >= 0 && io.write.Some? }

  predicate DueWriteErr(c: Channel, io: Io) { c.setup.hasExtra && c.fds.errfd >= 0 && io.writeErr.Some? }

  function IoRead(c: Channel, io: Io): (d: Channel)
    ensures Grows(c, d)
  {
    if DueRead(c, io) then SendData(c, false, io.read.value) else c
  }

  function IoReadErr(c: Channel, io: Io): (d: Channel)
    ensures Grows(c, d)
  {
    if DueReadErr(c, io) then SendData(c, true, io.readErr.value) else c
  }

  function IoWrite(c: Channel, io: Io): (d: Channel)
    ensures Grows(c, d)
  {
    if DueWrite(c, io) then WriteChannel(c, false, None, io.write.value).0 else c
  }

  function IoWriteErr(c: Channel, io: Io): (d: Channel)
    ensures Grows(c, d)
  {
    if DueWriteErr(c, io) then WriteChannel(c, true, None, io.writeErr.value).0 else c
  }

  function IoReads(c: Channel, io: Io): Channel { IoReadErr(IoRead(c, io), io) }

  function IoWrites(c: Channel, io: Io): Channel { IoWriteErr(IoWrite(c, io), io) }

  predicate BusyReading(c: Channel, io: Io) { DueRead(c, io) || DueReadErr(IoRead(c, io), io) }

  predicate BusyWriting(c: Channel, io: Io) { DueWrite(c, io) || DueWriteErr(IoWrite(c, io), io) }

  /** Whether check_close is called in this pass: after any input or output, or when a child has exited. */
  predicate Busy(c: Channel, io: Io)
  {
    BusyReading(c, io) || BusyWriting(IoReads(c, io), io) || io.childExited
  }

  /** channelio, for one channel. */
  function ChannelIo(c: Channel, io: Io): (d: Channel)
    ensures Grows(c, d)
  {
    var r := IoRead(c, io);
    if r.exit.Some? then r else
    var re := IoReadErr(r, io);
    if re.exit.Some? then re else
    var w := IoWrite(re, io);
    if w.exit.Some? then w else
    var we := IoWriteErr(w, io);
    if we.exit.Some? || !Busy(c, io) then we else CheckClose(we, io.probe)
  }

  /** The handlers of the channel messages. */
  function Deliver(c: Channel, m: Msg, w: WriteResult, p: Probe): (d: Channel)
    ensures Grows(c, d)
  {
    if c.removed then c.(exit := Some(UnknownChannel))
    else match m
      case Data(data) => ReceiveData(c, false, data, w)
      case ExtendedData(data) => if c.setup.session then ReceiveData(c, true, data, w) else Drop(c, true, data)
      case WindowAdjust(incr) => AdjustWindow(c, incr)
      case Eof => CheckClose(c.(flags := c.flags.(recvEof := true)), p)
      case Close => CheckClose(c.(flags := c.flags.(recvEof := true, recvClose := true)), p)
  }
}
