/** Logs of channel messages, and what each channel operation does to windows, rings and descriptors. */
module ChannelLaws {
  import opened Options
  import opened Radix
  import opened Sequences
  import opened Channels

  // ---- message logs ----

  function Size(m: Msg): nat { if m.Data? || m.ExtendedData? then |m.bytes| else 0 }

  /** Bytes of data in a log, of either kind. */
  function Sent(ms: seq<Msg>): (n: nat)
  {
    if ms == [] then 0 else Sent(ms[..|ms| - 1]) + Size(ms[|ms| - 1])
  }

  /** Window granted by a log. */
  function Granted(ms: seq<Msg>): int
  {
    if ms == [] then 0
    else Granted(ms[..|ms| - 1]) + (if ms[|ms| - 1].WindowAdjust? then ms[|ms| - 1].incr else 0)
  }

  function Part(m: Msg, ext: bool): seq<byte>
  {
    if ext && m.ExtendedData? then m.bytes else if !ext && m.Data? then m.bytes else []
  }

  /** The bytes of one kind in a log, put together. */
  function Stream(ms: seq<Msg>, ext: bool): seq<byte>
  {
    if ms == [] then [] else Stream(ms[..|ms| - 1], ext) + Part(ms[|ms| - 1], ext)
  }

  /** m may come after ms: nothing after CLOSE, after EOF no data and no second EOF. */
  predicate Follows(ms: seq<Msg>, m: Msg)
  {
    Close !in ms && (Eof in ms ==> m.WindowAdjust? || m.Close?)
  }

  /** The order of messages that section 5.3 of RFC 4254 asks for, with positive grants only. */
  predicate Lawful(ms: seq<Msg>)
  {
    ms == [] ||
    (&& Lawful(ms[..|ms| - 1])
     && Follows(ms[..|ms| - 1], ms[|ms| - 1])
     && (ms[|ms| - 1].WindowAdjust? ==> ms[|ms| - 1].incr >= 0))
  }

  lemma Append(ms: seq<Msg>, m: Msg, ext: bool)
    ensures Sent(ms + [m]) == Sent(ms) + Size(m)
    ensures Granted(ms + [m]) == Granted(ms) + if m.WindowAdjust? then m.incr else 0
    ensures Stream(ms + [m], ext) == Stream(ms, ext) + Part(m, ext)
    ensures Lawful(ms + [m]) <==> Lawful(ms) && Follows(ms, m) && (m.WindowAdjust? ==> m.incr >= 0)
  {
    assert (ms + [m])[..|ms|] == ms;
  }

  lemma {:induction false} ConcatTotals(ms: seq<Msg>, ns: seq<Msg>)
    ensures Sent(ms + ns) == Sent(ms) + Sent(ns)
    ensures Granted(ms + ns) == Granted(ms) + Granted(ns)
    decreases |ns|
  {
    if ns == [] {
      assert ms + ns == ms;
    } else {
      var pre, m := ns[..|ns| - 1], ns[|ns| - 1];
      ConcatTotals(ms, pre);
      Regroup(ms, pre, [m], ns);
      Append(ms + pre, m, false);
    }
  }

  lemma {:induction false} ConcatStreams(ms: seq<Msg>, ns: seq<Msg>, ext: bool)
    ensures Stream(ms + ns, ext) == Stream(ms, ext) + Stream(ns, ext)
    decreases |ns|
  {
    if ns == [] {
      assert ms + ns == ms;
    } else {
      var pre, m := ns[..|ns| - 1], ns[|ns| - 1];
      ConcatStreams(ms, pre, ext);
      Regroup(ms, pre, [m], ns);
      Append(ms + pre, m, ext);
      Regroup(Stream(ms, ext), Stream(pre, ext), Part(m, ext), Stream(ns, ext));
    }
  }

  /** A log cut anywhere: the front is lawful and the next message follows it. */
  lemma {:induction false} LawfulPrefix(ms: seq<Msg>, n: nat)
    requires Lawful(ms) && n <= |ms|
    ensures Lawful(ms[..n])
    ensures n < |ms| ==> Follows(ms[..n], ms[n]) && (ms[n].WindowAdjust? ==> ms[n].incr >= 0)
    decreases |ms|
  {
    if n < |ms| {
      var pre := ms[..|ms| - 1];
      LawfulPrefix(pre, n);
      assert pre[..n] == ms[..n];
    } else {
      assert ms[..n] == ms;
    }
  }

  /** Once CLOSE is in a lawful log it is the last message. */
  lemma {:induction false} CloseIsLast(ms: seq<Msg>, n: nat)
    requires Lawful(ms) && n <= |ms| && Close in ms[..n]
    ensures n == |ms|
  {
    LawfulPrefix(ms, n);
  }

  // ---- invariants of one channel ----

  predicate WellFormed(setup: Setup)
  {
    0 < setup.window <= MAX_RECV_WINDOW && setup.room >= 4
  }

  /**
   * Receiver credit: window, bytes written but not yet granted back, bytes in the rings and
   * bytes discarded add up to opts.recv_window, counting `hand` bytes being handled.
   */
  predicate Balanced(c: Channel, hand: nat)
  {
    && c.credit.recvwindow >= 0 && c.credit.recvdone >= 0
    && (!c.setup.hasExtra ==> c.extrabuf.ring == [])
    && c.credit.recvwindow + c.credit.recvdone + |c.writebuf.ring| + |c.extrabuf.ring| + c.credit.discarded + hand ==
       c.setup.window
  }

  /** writechannel never leaves a third of the window ungranted. */
  predicate Prompt(c: Channel) { c.credit.recvdone < c.setup.window / 3 || c.credit.recvdone == 0 }

  predicate AllClosed(f: Fds) { f.readfd == FD_CLOSED && f.writefd == FD_CLOSED && f.errfd == FD_CLOSED }

  // ---- descriptors ----

  /** Descriptors only ever close. */
  predicate ClosedFrom(f: Fds, g: Fds)
  {
    && (g.readfd == f.readfd || g.readfd == FD_CLOSED)
    && (g.writefd == f.writefd || g.writefd == FD_CLOSED)
    && (g.errfd == f.errfd || g.errfd == FD_CLOSED)
  }

  /**
   * After send_msg_channel_close every descriptor is closed, except the error descriptor of a
   * bidirectional channel that reads from it: SHUT_RDWR does not count as closing it for reading.
   */
  lemma CloseAllCloses(setup: Setup, f: Fds)
    ensures AllClosed(CloseAll(setup, f)) <==>
            setup.bidir && !setup.hasExtra ==> f.errfd == FD_CLOSED || f.errfd == f.readfd
  {
  }

  /** In any case nothing is left that could still be written. */
  lemma CloseAllEndsWriting(setup: Setup, f: Fds)
    ensures CloseAll(setup, f).writefd == FD_CLOSED && (setup.hasExtra ==> CloseAll(setup, f).errfd == FD_CLOSED)
  {
  }

  lemma CloseFdCloses(setup: Setup, f: Fds, fd: int, how: How)
    ensures ClosedFrom(f, CloseFd(setup, f, fd, how))
  {
  }

  lemma FlushFdsCloses(c: Channel, p: Probe)
    ensures ClosedFrom(c.fds, FlushFds(c, p).fds)
  {
  }

  // ---- one operation at a time ----

  lemma DrainKeeps(s: Sink, extra: seq<byte>, n: nat)
    requires n <= |s.ring| + |extra|
    ensures var t, beyond := Drain(s, extra, n), n - Min(|s.ring|, n);
            && t.skipped == s.skipped && 0 <= beyond <= |extra|
            && |t.ring| + n == |s.ring| + beyond
            && (beyond > 0 ==> t.ring == [])
            && t.written + t.ring == s.written + s.ring + extra[..beyond]
  {
    var fromRing := Min(|s.ring|, n);
    assert s.ring == s.ring[..fromRing] + s.ring[fromRing..];
  }

  lemma WriteOutFrame(c: Channel, ext: bool, more: Option<seq<byte>>, w: WriteResult)
    requires SinkFd(c, ext) >= 0 && (ext ==> c.setup.hasExtra)
    ensures var (d, consumed, ok) := WriteOut(c, ext, more, w);
            && (!ok ==> consumed == 0 && SinkFd(d, ext) == FD_CLOSED)
            && ClosedFrom(c.fds, d.fds)
            && d == c.(fds := d.fds, writebuf := d.writebuf, extrabuf := d.extrabuf,
                       credit := c.credit.(recvdone := d.credit.recvdone))
            && SinkOf(d, !ext) == SinkOf(c, !ext)
            && SinkOf(d, ext).skipped == SinkOf(c, ext).skipped
  {
  }

  lemma WriteOutBalance(c: Channel, ext: bool, more: Option<seq<byte>>, w: WriteResult, hand: nat)
    requires Balanced(c, hand) && (ext ==> c.setup.hasExtra)
    requires more.Some? ==> hand == |more.value|
    ensures var (d, consumed, ok) := WriteOut(c, ext, more, w);
            && consumed <= (if more.Some? then |more.value| else 0)
            && Balanced(d, hand - consumed)
  {
    AnswerBalance(c, ext, if c.setup.vectored && more.Some? then more.value else [], w, hand);
  }

  lemma AnswerBalance(c: Channel, ext: bool, extra: seq<byte>, w: WriteResult, hand: nat)
    requires Balanced(c, hand) && (ext ==> c.setup.hasExtra) && |extra| <= hand
    ensures var (d, consumed, ok) := Answer(c, ext, extra, w);
            consumed <= |extra| && Balanced(d, hand - consumed)
  {
    if w.Wrote? {
      DrainKeeps(SinkOf(c, ext), extra, Min(w.n, |SinkOf(c, ext).ring| + |extra|));
    }
  }

  lemma WriteOutStreams(c: Channel, ext: bool, more: Option<seq<byte>>, w: WriteResult)
    ensures var (d, consumed, ok) := WriteOut(c, ext, more, w);
            && consumed <= (if more.Some? then |more.value| else 0)
            && SinkOf(d, ext).written + SinkOf(d, ext).ring ==
               SinkOf(c, ext).written + SinkOf(c, ext).ring + (if more.Some? then more.value[..consumed] else [])
  {
    AnswerStreams(c, ext, if c.setup.vectored && more.Some? then more.value else [], w);
  }

  lemma AnswerStreams(c: Channel, ext: bool, extra: seq<byte>, w: WriteResult)
    ensures var (d, consumed, ok) := Answer(c, ext, extra, w);
            && consumed <= |extra|
            && SinkOf(d, ext).written + SinkOf(d, ext).ring ==
               SinkOf(c, ext).written + SinkOf(c, ext).ring + extra[..consumed]
  {
    if w.Wrote? {
      DrainKeeps(SinkOf(c, ext), extra, Min(w.n, |SinkOf(c, ext).ring| + |extra|));
    }
  }

  /** Sending a window adjustment leaves the rest of the log's meaning alone. */
  lemma AdjustAppended(ms: seq<Msg>, incr: int)
    requires Lawful(ms) && Close !in ms && incr >= 0
    ensures var ns := ms + [WindowAdjust(incr)];
            && Lawful(ns) && (Eof in ns <==> Eof in ms) && Close !in ns
            && Sent(ns) == Sent(ms) && Granted(ns) == Granted(ms) + incr
  {
    Append(ms, WindowAdjust(incr), false);
  }

  /** The log after an operation that can only have sent a window adjustment. */
  predicate SameLog(c: Channel, d: Channel)
  {
    && (Lawful(c.out) && Close !in c.out ==>
          Lawful(d.out) && Close !in d.out && (Eof in d.out <==> Eof in c.out))
    && Sent(d.out) == Sent(c.out)
    && d.credit.recvwindow - Granted(d.out) == c.credit.recvwindow - Granted(c.out)
  }

  /** Nothing but windows, rings, descriptors and the log has changed. */
  predicate SameRest(c: Channel, d: Channel)
  {
    && ClosedFrom(c.fds, d.fds)
    && d.setup == c.setup && d.flags == c.flags && d.removed == c.removed && d.exit == c.exit
    && d.credit.transwindow == c.credit.transwindow
    && d.credit.discarded == c.credit.discarded && d.credit.dropped == c.credit.dropped
    && d.writebuf.skipped == c.writebuf.skipped && d.extrabuf.skipped == c.extrabuf.skipped
  }

  lemma ExtendWindowKeeps(c: Channel, hand: nat)
    requires WellFormed(c.setup) && Balanced(c, hand) && Lawful(c.out) && Close !in c.out
    ensures var d := ExtendWindow(c);
            && Balanced(d, hand) && Prompt(d) && WindowsFit(d) && SameLog(c, d)
            && d == c.(out := d.out, credit := d.credit) && SameRest(c, d)
  {
    AdjustAppended(c.out, c.credit.recvdone);
  }

  /** writechannel: the three closing assertions hold, nothing is lost, the balance is kept. */
  lemma WriteChannelKeeps(c: Channel, ext: bool, more: Option<seq<byte>>, w: WriteResult, hand: nat)
    requires WellFormed(c.setup) && Balanced(c, hand) && Lawful(c.out) && Close !in c.out
    requires SinkFd(c, ext) >= 0 && (ext ==> c.setup.hasExtra) && c.exit.None?
    requires more.Some? ==> hand == |more.value|
    ensures var (d, consumed, ok) := WriteChannel(c, ext, more, w);
            && consumed <= (if more.Some? then |more.value| else 0)
            && Balanced(d, hand - consumed) && Prompt(d) && SameLog(c, d) && SameRest(c, d)
            && (!ok ==> consumed == 0 && SinkFd(d, ext) == FD_CLOSED)
            && SinkOf(d, !ext) == SinkOf(c, !ext)
            && SinkOf(d, ext).written + SinkOf(d, ext).ring ==
               SinkOf(c, ext).written + SinkOf(c, ext).ring + (if more.Some? then more.value[..consumed] else [])
  {
    var (d, consumed, ok) := WriteOut(c, ext, more, w);
    WriteOutFrame(c, ext, more, w);
    WriteOutBalance(c, ext, more, w, hand);
    WriteOutStreams(c, ext, more, w);
    ExtendWindowKeeps(d, hand - consumed);
  }
}
