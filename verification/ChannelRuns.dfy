/**
 * Two ends of one channel, each running the code of Channels, joined by two FIFO streams of
 * messages. A run is any interleaving of descriptor events and deliveries with any results of
 * read and write; the theorems at the end hold after every run.
 */
module ChannelRuns {
  import opened Radix
  import opened Channels
  import opened ChannelLaws
  import opened ChannelPeers

  /** fromA of a's messages have reached b, fromB of b's have reached a. */
  datatype Link = Link(a: Channel, b: Channel, fromA: nat, fromB: nat)

  function Swap(l: Link): Link { Link(l.b, l.a, l.fromB, l.fromA) }

  /** The messages each end has received. */
  function GotByA(l: Link): seq<Msg> { if l.fromB <= |l.b.out| then l.b.out[..l.fromB] else [] }

  function GotByB(l: Link): seq<Msg> { GotByA(Swap(l)) }

  /** The messages on their way to each end. */
  function ToA(l: Link): seq<Msg> { if l.fromB <= |l.b.out| then l.b.out[l.fromB..] else [] }

  function ToB(l: Link): seq<Msg> { ToA(Swap(l)) }

  datatype Event =
    | Descriptors(io: Io)
    | Delivery(w: WriteResult, p: Probe)

  datatype Step = Step(atA: bool, event: Event)

  function StepA(l: Link, e: Event): Link
  {
    match e
    case Descriptors(io) => if l.a.removed then l else l.(a := ChannelIo(l.a, io))
    case Delivery(w, p) =>
      if l.fromB < |l.b.out| then l.(a := Deliver(l.a, l.b.out[l.fromB], w, p), fromB := l.fromB + 1) else l
  }

  /** One step at one end; nothing happens any more once either has exited. */
  function Next(l: Link, s: Step): Link
  {
    if l.a.exit.Some? || l.b.exit.Some? then l
    else if s.atA then StepA(l, s.event)
    else Swap(StepA(Swap(l), s.event))
  }

  function Run(l: Link, steps: seq<Step>): Link
    decreases |steps|
  {
    if steps == [] then l else Next(Run(l, steps[..|steps| - 1]), steps[|steps| - 1])
  }

  datatype Ends = Ends(sa: Setup, fa: Fds, sb: Setup, fb: Fds)

  /** A channel just opened: each end has been told the other's receive window. */
  function Open(x: Ends): Link
  {
    Link(NewChannel(x.sa, x.fa, x.sb.window), NewChannel(x.sb, x.fb, x.sa.window), 0, 0)
  }

  predicate Proper(x: Ends) { WellFormed(x.sa) && WellFormed(x.sb) }

  predicate HalfInv(l: Link)
  {
    && l.fromA <= |l.a.out| && l.fromB <= |l.b.out|
    && Sound(l.a, GotByA(l), l.b.setup.window)
  }

  predicate Inv(l: Link) { HalfInv(l) && HalfInv(Swap(l)) }

  // ---- the invariant over steps ----

  lemma Totals(l: Link)
    requires l.fromB <= |l.b.out|
    ensures Sent(l.b.out) == Sent(GotByA(l)) + Sent(ToA(l))
    ensures Granted(l.b.out) == Granted(GotByA(l)) + Granted(ToA(l))
  {
    ConcatTotals(GotByA(l), ToA(l));
    assert GotByA(l) + ToA(l) == l.b.out;
  }

  /** Lawful logs stay lawful when cut in front, and grants add up to something non-negative. */
  lemma {:induction false} GrantsAhead(ms: seq<Msg>, n: nat)
    requires Lawful(ms) && n <= |ms|
    ensures Granted(ms[..n]) <= Granted(ms) && Sent(ms[..n]) <= Sent(ms)
    decreases |ms|
  {
    if n < |ms| {
      GrantsAhead(ms[..|ms| - 1], n);
      assert ms[..|ms| - 1][..n] == ms[..n];
    } else {
      assert ms[..n] == ms;
    }
  }

  /** The next message from an honest peer is always acceptable. */
  lemma NextIsAcceptable(l: Link)
    requires Inv(l) && l.fromB < |l.b.out|
    ensures !l.a.removed
    ensures Acceptable(l.a, l.b.out[l.fromB], GotByA(l), l.b.setup.window)
  {
    var m, got := l.b.out[l.fromB], GotByA(l);
    LawfulPrefix(l.b.out, l.fromB);
    assert got + [m] == l.b.out[..l.fromB + 1];
    GrantsAhead(l.b.out, l.fromB + 1);
    GrantsAhead(l.a.out, l.fromA);
  }

  lemma DeliveryIsSound(l: Link, w: WriteResult, p: Probe)
    requires Inv(l) && l.fromB < |l.b.out|
    ensures HalfInv(StepA(l, Delivery(w, p)))
  {
    NextIsAcceptable(l);
    DeliverIsSound(l.a, l.b.out[l.fromB], w, p, GotByA(l), l.b.setup.window);
    HalfAfter(l, Deliver(l.a, l.b.out[l.fromB], w, p));
  }

  lemma HalfAfter(l: Link, d: Channel)
    requires l.fromA <= |l.a.out| && l.fromB < |l.b.out| && Grows(l.a, d)
    requires Sound(d, GotByA(l) + [l.b.out[l.fromB]], l.b.setup.window)
    ensures HalfInv(l.(a := d, fromB := l.fromB + 1))
  {
    assert l.b.out[..l.fromB + 1] == GotByA(l) + [l.b.out[l.fromB]];
  }

  /** What one end does changes nothing that the other's invariant mentions. */
  lemma PeerUnmoved(l: Link, n: Link)
    requires HalfInv(Swap(l)) && Grows(l.a, n.a) && n.b == l.b && n.fromA == l.fromA
    requires n.fromB <= |n.b.out|
    ensures HalfInv(Swap(n))
  {
    assert GotByB(n) == GotByB(l);
  }

  lemma StepIsSound(l: Link, e: Event)
    requires Inv(l)
    ensures Inv(StepA(l, e))
  {
    match e
    case Descriptors(io) =>
      if !l.a.removed {
        ChannelIoIsSound(l.a, io, GotByA(l), l.b.setup.window);
        PeerUnmoved(l, StepA(l, e));
      }
    case Delivery(w, p) =>
      if l.fromB < |l.b.out| {
        DeliveryIsSound(l, w, p);
        PeerUnmoved(l, StepA(l, e));
      }
  }

  lemma NextIsSound(l: Link, s: Step)
    requires Inv(l)
    ensures Inv(Next(l, s))
  {
    if s.atA { StepIsSound(l, s.event); } else { StepIsSound(Swap(l), s.event); }
  }

  lemma {:induction false} RunIsSound(x: Ends, steps: seq<Step>)
    requires Proper(x)
    ensures Inv(Run(Open(x), steps))
    decreases |steps|, x
  {
    if steps == [] {
      NewChannelIsSound(x.sa, x.fa, x.sb.window);
      NewChannelIsSound(x.sb, x.fb, x.sa.window);
    } else {
      RunIsSound(x, steps[..|steps| - 1]);
      NextIsSound(Run(Open(x), steps[..|steps| - 1]), steps[|steps| - 1]);
    }
  }

  // ---- the theorems ----

  /** A run seen from one of its ends, called a. */
  function Seen(x: Ends, steps: seq<Step>, fromA: bool): Link
  {
    if fromA then Run(Open(x), steps) else Swap(Run(Open(x), steps))
  }

  lemma SeenIsSound(x: Ends, steps: seq<Step>, fromA: bool)
    requires Proper(x)
    ensures Inv(Seen(x, steps, fromA))
  {
    RunIsSound(x, steps);
  }

  /**
   * No run between two ends that follow the code reaches "Oversized packet", "Received data
   * after eof", an unknown channel, or one of the assertions on windows and on sent_close.
   */
  lemma NoChannelExit(x: Ends, steps: seq<Step>, fromA: bool)
    requires Proper(x)
    ensures Seen(x, steps, fromA).a.exit.None?
  {
    SeenIsSound(x, steps, fromA);
  }

  /**
   * Window safety, exactly: what a may still send, its data on the way, b's grants on the way
   * and the bytes b dropped uncharged make up b's receive window. So clamping in
   * recv_msg_channel_window_adjust never loses credit.
   */
  lemma WindowSafety(x: Ends, steps: seq<Step>, fromA: bool)
    requires Proper(x)
    ensures var l := Seen(x, steps, fromA);
            && l.a.credit.transwindow + Sent(ToB(l)) + Granted(ToA(l)) + l.b.credit.dropped == l.b.credit.recvwindow
            && 0 <= l.a.credit.transwindow <= l.b.credit.recvwindow <= l.b.setup.window
  {
    var l := Seen(x, steps, fromA);
    SeenIsSound(x, steps, fromA);
    Totals(l);
    Totals(Swap(l));
    GrantsAhead(l.b.out, l.fromB);
  }

  /** Receiver credit conservation, which gives the assertions of writechannel. */
  lemma CreditConserved(x: Ends, steps: seq<Step>, fromA: bool)
    requires Proper(x)
    ensures var c := Seen(x, steps, fromA).a;
            && c.credit.recvwindow + c.credit.recvdone + |c.writebuf.ring| + |c.extrabuf.ring| + c.credit.discarded ==
               c.setup.window
            && c.credit.recvwindow >= 0 && c.credit.recvdone >= 0 && WindowsFit(c)
  {
    SeenIsSound(x, steps, fromA);
  }

  /** With everything delivered and written and nothing lost, the sender can always send more. */
  lemma NeverStarved(x: Ends, steps: seq<Step>, fromA: bool)
    requires Proper(x)
    requires var l := Seen(x, steps, fromA);
             && ToA(l) == [] && ToB(l) == [] && l.b.writebuf.ring == [] == l.b.extrabuf.ring
             && l.b.credit.discarded == 0 == l.b.credit.dropped
    ensures Seen(x, steps, fromA).a.credit.transwindow > 0
  {
    SeenIsSound(x, steps, fromA);
    WindowSafety(x, steps, fromA);
  }

  lemma StreamsMeet(l: Link, ext: bool)
    requires l.fromB <= |l.b.out| && Faithful(l.a, GotByA(l), ext)
    ensures var s := SinkOf(l.a, ext);
            && s.written + s.ring + s.skipped + Stream(ToA(l), ext) == Stream(l.b.out, ext)
            && s.written + s.ring <= Stream(l.b.out, ext)
  {
    ConcatStreams(GotByA(l), ToA(l), ext);
    assert GotByA(l) + ToA(l) == l.b.out;
    var s := SinkOf(l.a, ext);
    PrefixOfFour(s.written + s.ring, s.skipped, Stream(ToA(l), ext), Stream(l.b.out, ext));
  }

  lemma PrefixOfFour(front: seq<byte>, mid: seq<byte>, back: seq<byte>, whole: seq<byte>)
    requires whole == (front + mid) + back
    ensures front <= whole
  {
  }

  /**
   * Stream fidelity: the bytes written to the descriptor, then the ring, then what was skipped,
   * then what is on the way, are the bytes the peer put in its data messages; nothing is skipped
   * while the descriptor can still be written.
   */
  lemma StreamFidelity(x: Ends, steps: seq<Step>, fromA: bool, ext: bool)
    requires Proper(x)
    ensures var l := Seen(x, steps, fromA);
            var s := SinkOf(l.a, ext);
            && s.written + s.ring + s.skipped + Stream(ToA(l), ext) == Stream(l.b.out, ext)
            && (Taking(l.a, ext) ==> s.skipped == [])
            && s.written + s.ring <= Stream(l.b.out, ext)
  {
    var l := Seen(x, steps, fromA);
    SeenIsSound(x, steps, fromA);
    StreamsMeet(l, ext);
  }

  lemma {:induction false} LawfulOrder(ms: seq<Msg>, i: nat, j: nat)
    requires Lawful(ms) && i < j < |ms|
    ensures ms[i] != Close
    ensures ms[i] == Eof ==> ms[j].WindowAdjust? || ms[j].Close?
  {
    LawfulPrefix(ms, j);
    assert ms[i] == ms[..j][i];
  }

  /**
   * The life cycle: CLOSE is the last message and the only CLOSE, after EOF come no data and no
   * second EOF; an end that has sent CLOSE has no open descriptor, one that has sent EOF reads
   * nothing, and it forgets the channel only when CLOSE has gone both ways and no open
   * descriptor has buffered bytes left to be written.
   */
  lemma LifeCycle(x: Ends, steps: seq<Step>, fromA: bool)
    requires Proper(x)
    ensures var l := Seen(x, steps, fromA);
            && (forall i, j :: 0 <= i < j < |l.a.out| ==>
                  && l.a.out[i] != Close
                  && (l.a.out[i] == Eof ==> l.a.out[j].WindowAdjust? || l.a.out[j].Close?))
            && (Close in l.a.out && !l.a.removed ==> AllClosed(l.a.fds))
            && (Eof in l.a.out && !l.a.removed ==> ReadingOver(l.a))
            && (l.a.removed ==> Close in l.a.out && Close in l.b.out && ToA(l) == [] && !WritePending(l.a))
  {
    var l := Seen(x, steps, fromA);
    SeenIsSound(x, steps, fromA);
    forall i, j | 0 <= i < j < |l.a.out|
      ensures l.a.out[i] != Close && (l.a.out[i] == Eof ==> l.a.out[j].WindowAdjust? || l.a.out[j].Close?)
    {
      LawfulOrder(l.a.out, i, j);
    }
    if l.a.removed {
      CloseIsLast(l.b.out, l.fromB);
    }
  }

  /** The channel as check_close finds it in this step, after any flushing and before any CLOSE. */
  function Judged(l: Link, e: Event): Channel
  {
    match e
    case Descriptors(io) => Flushed(IoWrites(IoReads(l.a, io), io), io.probe)
    case Delivery(w, p) =>
      if l.fromB < |l.b.out| && l.b.out[l.fromB] == Close
      then Flushed(l.a.(flags := l.a.flags.(recvEof := true, recvClose := true)), p)
      else if l.fromB < |l.b.out| && l.b.out[l.fromB] == Eof
      then Flushed(l.a.(flags := l.a.flags.(recvEof := true)), p)
      else l.a
  }

  lemma SettleRemoves(c: Channel, allowed: bool)
    requires !c.removed && Settle(c, allowed).removed
    ensures c.flags.recvClose && !WritePending(c)
    ensures Settle(c, allowed) == (if c.flags.sentClose then c else SendClose(c)).(removed := true)
  {
  }

  lemma DataStays(c: Channel, ext: bool, data: seq<byte>, w: WriteResult)
    ensures ReceiveData(c, ext, data, w).removed == c.removed
  {
  }

  /**
   * The step that removes a channel: the peer's CLOSE has come and, before our own CLOSE shuts
   * them, no open descriptor holds bytes that are still to be written, whatever the type of
   * channel and whatever its writes have answered.
   */
  lemma RemovalDrains(x: Ends, steps: seq<Step>, fromA: bool, e: Event)
    requires Proper(x)
    ensures var l := Seen(x, steps, fromA);
            var d := Judged(l, e);
            !l.a.removed && StepA(l, e).a.removed ==>
              && d.flags.recvClose && !WritePending(d)
              && StepA(l, e).a == (if d.flags.sentClose then d else SendClose(d)).(removed := true)
  {
    var l := Seen(x, steps, fromA);
    SeenIsSound(x, steps, fromA);
    if !l.a.removed && StepA(l, e).a.removed {
      StepRemoves(l, e);
    }
  }

  lemma StepRemoves(l: Link, e: Event)
    requires Inv(l) && !l.a.removed && StepA(l, e).a.removed
    ensures var d := Judged(l, e);
            && d.flags.recvClose && !WritePending(d)
            && StepA(l, e).a == (if d.flags.sentClose then d else SendClose(d)).(removed := true)
  {
    match e
    case Descriptors(io) =>
      ChannelIoPath(l.a, io, GotByA(l), l.b.setup.window);
      var c := IoWrites(IoReads(l.a, io), io);
      SettleRemoves(Flushed(c, io.probe), CloseAllowed(c, io.probe));
    case Delivery(w, p) =>
      match l.b.out[l.fromB] {
        case Data(data) => DataStays(l.a, false, data, w);
        case ExtendedData(data) => DataStays(l.a, true, data, w);
        case WindowAdjust(_) =>
        case Eof =>
          var c := l.a.(flags := l.a.flags.(recvEof := true));
          SettleRemoves(Flushed(c, p), CloseAllowed(c, p));
        case Close =>
          var c := l.a.(flags := l.a.flags.(recvEof := true, recvClose := true));
          SettleRemoves(Flushed(c, p), CloseAllowed(c, p));
      }
  }
}
