/** What an endpoint's log of sent packets looks like to the peer that reads it in order. */
module WireLog {
  import opened KeyExchange
  import opened Sequences

  /** The message number fits the content. */
  predicate WellTyped(typ: int, body: Body)
  {
    && 1 <= typ <= 255
    && (typ == KEXINIT <==> body.Init?)
    && (typ == NEWKEYS <==> body.NewKeys?)
    && (typ == KEXDH_INIT <==> body.DhInit?)
    && (typ == KEXDH_REPLY <==> body.DhReply?)
  }

  /** What anything but the key exchange may send. */
  predicate Application(p: Payload)
  {
    p.body.Plain? && WellTyped(p.typ, p.body)
  }

  predicate Deferrable(typ: int, body: Body)
  {
    body.Plain? && !OkayDuringKex(typ)
  }

  /** The key exchange packets from position n on. */
  function Pending(out: seq<Wire>, n: nat): seq<Body>
    requires n <= |out|
    decreases |out| - n
  {
    if n == |out| then []
    else (if out[n].body.Plain? then [] else [out[n].body]) + Pending(out, n + 1)
  }

  /** Whether position i lies after a KEXINIT whose NEWKEYS has not come yet. */
  function InKex(out: seq<Wire>, i: nat): bool
    requires i <= |out|
  {
    i > 0 && (out[i - 1].body.Init? || (!out[i - 1].body.NewKeys? && InKex(out, i - 1)))
  }

  /** From position n on, packets are under k up to and including a NEWKEYS and under next after it. */
  ghost predicate KeyedFrom(out: seq<Wire>, n: nat, k: Key, next: Key)
    requires n <= |out|
    decreases |out| - n
  {
    n == |out| ||
    (out[n].key == k && KeyedFrom(out, n + 1, if out[n].body.NewKeys? then next else k, next))
  }

  /** The deferrable packets of a log, in order. */
  function Deferred(out: seq<Wire>): seq<Payload>
  {
    if out == [] then []
    else
      var w := out[|out| - 1];
      Deferred(out[..|out| - 1]) + if Deferrable(w.typ, w.body) then [Payload(w.typ, w.body)] else []
  }

  /** Every packet between a KEXINIT and its NEWKEYS is one that RFC 4253 section 7.1 permits. */
  ghost predicate Lawful(out: seq<Wire>)
  {
    && (forall i :: 0 <= i < |out| ==> WellTyped(out[i].typ, out[i].body))
    && (forall i :: 0 <= i < |out| && InKex(out, i) ==> OkayDuringKex(out[i].typ))
  }

  /** A KEXINIT that announces a guess is followed by it at once. */
  ghost predicate GuessesAdjacent(out: seq<Wire>)
  {
    forall i :: 0 <= i < |out| && out[i].body.Init? && out[i].body.follows ==>
      i + 1 < |out| && out[i + 1].body.DhInit?
  }

  // ---- appending one packet ----

  lemma {:induction false} PendingAppend(out: seq<Wire>, w: Wire, n: nat)
    requires n <= |out|
    ensures Pending(out + [w], n) == Pending(out, n) + if w.body.Plain? then [] else [w.body]
    decreases |out| - n
  {
    if n == |out| {
      assert Pending(out + [w], n + 1) == [];
    } else {
      PendingAppend(out, w, n + 1);
    }
  }

  lemma {:induction false} InKexAppend(out: seq<Wire>, w: Wire, i: nat)
    requires i <= |out|
    ensures InKex(out + [w], i) == InKex(out, i)
  {
    if i > 0 {
      InKexAppend(out, w, i - 1);
    }
  }

  lemma {:induction false} KeyedAppend(out: seq<Wire>, w: Wire, n: nat, k: Key, next: Key)
    requires n <= |out| && KeyedFrom(out, n, k, next)
    requires w.key == if NewKeys in Pending(out, n) then next else k
    ensures KeyedFrom(out + [w], n, k, next)
    decreases |out| - n
  {
    if n == |out| {
      assert KeyedFrom(out + [w], n + 1, if w.body.NewKeys? then next else k, next);
    } else {
      var k' := if out[n].body.NewKeys? then next else k;
      KeyedAppend(out, w, n + 1, k', next);
    }
  }

  /** While no NEWKEYS is on its way, what follows it is open. */
  lemma {:induction false} KeyedAnyNext(out: seq<Wire>, n: nat, k: Key, next: Key, next': Key)
    requires n <= |out| && KeyedFrom(out, n, k, next) && NewKeys !in Pending(out, n)
    ensures KeyedFrom(out, n, k, next')
    decreases |out| - n
  {
    if n < |out| {
      KeyedAnyNext(out, n + 1, k, next, next');
    }
  }

  lemma LawfulAppend(out: seq<Wire>, w: Wire)
    requires Lawful(out) && WellTyped(w.typ, w.body) && (InKex(out, |out|) ==> OkayDuringKex(w.typ))
    ensures Lawful(out + [w])
  {
    forall i | 0 <= i < |out| + 1 && InKex(out + [w], i) ensures OkayDuringKex((out + [w])[i].typ) {
      InKexAppend(out, w, i);
    }
  }

  // ---- one direction of the connection ----

  /**
   * out is the log of a sender whose flag is `allowed` and whose key is `trans`; its peer has
   * read n packets, holds key `recv`, and is (inKex) or is not between KEXINIT and NEWKEYS.
   */
  ghost predicate Flow(out: seq<Wire>, allowed: bool, trans: Key, n: nat, recv: Key, inKex: bool)
  {
    && n <= |out|
    && Lawful(out)
    && InKex(out, |out|) == !allowed
    && InKex(out, n) == inKex
    && KeyedFrom(out, n, recv, trans)
    && (NewKeys !in Pending(out, n) ==> trans == recv)
  }

  /** Sending anything but KEXINIT and NEWKEYS. */
  lemma FlowAppend(out: seq<Wire>, w: Wire, allowed: bool, trans: Key, n: nat, recv: Key, inKex: bool)
    requires Flow(out, allowed, trans, n, recv, inKex)
    requires WellTyped(w.typ, w.body) && !w.body.Init? && !w.body.NewKeys?
    requires w.key == trans && (allowed || OkayDuringKex(w.typ))
    ensures Flow(out + [w], allowed, trans, n, recv, inKex)
    ensures Pending(out + [w], n) == Pending(out, n) + if w.body.Plain? then [] else [w.body]
  {
    LawfulAppend(out, w);
    InKexAppend(out, w, n);
    InKexAppend(out, w, |out|);
    PendingAppend(out, w, n);
    KeyedAppend(out, w, n, recv, trans);
  }

  /** Sending KEXINIT closes the window for ordinary packets. */
  lemma FlowInit(out: seq<Wire>, w: Wire, trans: Key, n: nat, recv: Key, inKex: bool)
    requires Flow(out, true, trans, n, recv, inKex)
    requires w.typ == KEXINIT && w.body.Init? && w.key == trans
    ensures Flow(out + [w], false, trans, n, recv, inKex)
    ensures Pending(out + [w], n) == Pending(out, n) + [w.body]
  {
    LawfulAppend(out, w);
    InKexAppend(out, w, n);
    PendingAppend(out, w, n);
    KeyedAppend(out, w, n, recv, trans);
  }

  /** Sending NEWKEYS, under the old key, opens it again and changes the key. */
  lemma FlowNewKeys(out: seq<Wire>, w: Wire, trans: Key, next: Key, n: nat, recv: Key, inKex: bool)
    requires Flow(out, false, trans, n, recv, inKex) && NewKeys !in Pending(out, n)
    requires w.typ == NEWKEYS && w.body.NewKeys? && w.key == trans
    ensures Flow(out + [w], true, next, n, recv, inKex)
    ensures Pending(out + [w], n) == Pending(out, n) + [NewKeys]
  {
    LawfulAppend(out, w);
    InKexAppend(out, w, n);
    PendingAppend(out, w, n);
    KeyedAnyNext(out, n, recv, trans, next);
    KeyedAppend(out, w, n, recv, next);
  }

  /** Reading one packet. */
  lemma FlowRead(out: seq<Wire>, allowed: bool, trans: Key, n: nat, recv: Key, inKex: bool)
    requires Flow(out, allowed, trans, n, recv, inKex) && n < |out|
    ensures out[n].key == recv && WellTyped(out[n].typ, out[n].body)
    ensures inKex ==> OkayDuringKex(out[n].typ)
    ensures !out[n].body.NewKeys? ==>
      Flow(out, allowed, trans, n + 1, recv, out[n].body.Init? || inKex)
    ensures out[n].body.NewKeys? && NewKeys !in Pending(out, n + 1) ==>
      Flow(out, allowed, trans, n + 1, trans, false)
    ensures out[n].body.Plain? ==> Pending(out, n) == Pending(out, n + 1)
    ensures !out[n].body.Plain? ==>
      Pending(out, n) != [] && Pending(out, n)[0] == out[n].body && Pending(out, n)[1..] == Pending(out, n + 1)
  {
    assert out[n].body.Plain? ==> Pending(out, n) == [] + Pending(out, n + 1);
    if !out[n].body.NewKeys? {
      assert NewKeys in Pending(out, n + 1) ==> NewKeys in Pending(out, n);
      assert NewKeys in Pending(out, n) ==> NewKeys in Pending(out, n + 1);
    }
  }

  // ---- the reply queue ----

  /** Held-back packets are exactly the deferrable ones asked for and not yet sent. */
  ghost predicate Ledger(b: Outbox)
  {
    && Deferred(b.out) + b.queue == b.asked
    && forall i :: 0 <= i < |b.queue| ==> Application(b.queue[i]) && !OkayDuringKex(b.queue[i].typ)
  }

  lemma DeferredAppend(out: seq<Wire>, w: Wire)
    ensures Deferred(out + [w])
         == Deferred(out) + if Deferrable(w.typ, w.body) then [Payload(w.typ, w.body)] else []
  {
    assert (out + [w])[..|out|] == out;
  }

  /** Asking for a packet keeps the ledger, and the order, provided nothing is overtaken. */
  lemma AskLedger(b: Outbox, allowed: bool, key: Key, p: Payload)
    requires Ledger(b) && Application(p) && (allowed ==> b.queue == [])
    ensures Ledger(Ask(b, allowed, key, p)) && (allowed ==> Ask(b, allowed, key, p).queue == [])
  {
    DeferredAppend(b.out, Wire(p.typ, p.body, key));
  }

  /** Packets that are never held back do not touch the ledger. */
  lemma OkayLedger(b: Outbox, allowed: bool, key: Key, p: Payload)
    requires Ledger(b) && OkayDuringKex(p.typ)
    ensures Ledger(Ask(b, allowed, key, p))
  {
    DeferredAppend(b.out, Wire(p.typ, p.body, key));
  }

  lemma KexLedger(b: Outbox, w: Wire)
    requires Ledger(b) && !w.body.Plain?
    ensures Ledger(b.(out := b.out + [w]))
  {
    DeferredAppend(b.out, w);
  }

  /** What flushing or asking may append: packets that carry no key exchange. */
  ghost predicate PlainGrowth(out: seq<Wire>, out': seq<Wire>)
  {
    |out| <= |out'| && out'[..|out|] == out && forall i :: |out| <= i < |out'| ==> out'[i].body.Plain?
  }

  lemma AskFlow(b: Outbox, p: Payload, allowed: bool, trans: Key, n: nat, recv: Key, inKex: bool)
    requires Flow(b.out, allowed, trans, n, recv, inKex) && Application(p)
    ensures Flow(Ask(b, allowed, trans, p).out, allowed, trans, n, recv, inKex)
    ensures Pending(Ask(b, allowed, trans, p).out, n) == Pending(b.out, n)
    ensures PlainGrowth(b.out, Ask(b, allowed, trans, p).out)
  {
    if allowed || OkayDuringKex(p.typ) {
      FlowAppend(b.out, Wire(p.typ, p.body, trans), allowed, trans, n, recv, inKex);
    }
  }

  lemma {:induction false} AskAllFlow(b: Outbox, ps: seq<Payload>, allowed: bool, trans: Key,
                                      n: nat, recv: Key, inKex: bool)
    requires Flow(b.out, allowed, trans, n, recv, inKex)
    requires forall i :: 0 <= i < |ps| ==> Application(ps[i])
    ensures var c := AskAll(b, allowed, trans, ps);
            && Flow(c.out, allowed, trans, n, recv, inKex)
            && Pending(c.out, n) == Pending(b.out, n)
            && PlainGrowth(b.out, c.out)
    decreases |ps|
  {
    if ps != [] {
      var rest := ps[..|ps| - 1];
      AskAllFlow(b, rest, allowed, trans, n, recv, inKex);
      AskFlow(AskAll(b, allowed, trans, rest), ps[|ps| - 1], allowed, trans, n, recv, inKex);
    }
  }

  lemma {:induction false} AskAllLedger(b: Outbox, ps: seq<Payload>, allowed: bool, key: Key)
    requires Ledger(b) && (allowed ==> b.queue == [])
    requires forall i :: 0 <= i < |ps| ==> Application(ps[i])
    ensures Ledger(AskAll(b, allowed, key, ps)) && (allowed ==> AskAll(b, allowed, key, ps).queue == [])
    decreases |ps|
  {
    if ps != [] {
      AskAllLedger(b, ps[..|ps| - 1], allowed, key);
      AskLedger(AskAll(b, allowed, key, ps[..|ps| - 1]), allowed, key, ps[|ps| - 1]);
    }
  }

  /** Flushing sends the queue under the current key and leaves the exchange alone. */
  lemma {:induction false} SealedFlow(out: seq<Wire>, ps: seq<Payload>, trans: Key, n: nat, recv: Key, inKex: bool)
    requires Flow(out, true, trans, n, recv, inKex)
    requires forall i :: 0 <= i < |ps| ==> Application(ps[i])
    ensures Flow(out + Sealed(ps, trans), true, trans, n, recv, inKex)
    ensures Pending(out + Sealed(ps, trans), n) == Pending(out, n)
    ensures PlainGrowth(out, out + Sealed(ps, trans))
    decreases |ps|
  {
    if ps == [] {
      assert out + [] == out;
    } else {
      var rest, p := ps[..|ps| - 1], ps[|ps| - 1];
      SealedFlow(out, rest, trans, n, recv, inKex);
      var w := Wire(p.typ, p.body, trans);
      FlowAppend(out + Sealed(rest, trans), w, true, trans, n, recv, inKex);
      assert out + Sealed(ps, trans) == out + Sealed(rest, trans) + [w];
    }
  }

  lemma {:induction false} SealedDeferred(out: seq<Wire>, ps: seq<Payload>, key: Key)
    requires forall i :: 0 <= i < |ps| ==> Application(ps[i]) && !OkayDuringKex(ps[i].typ)
    ensures Deferred(out + Sealed(ps, key)) == Deferred(out) + ps
    decreases |ps|
  {
    if ps == [] {
      assert out + [] == out;
    } else {
      var rest, p := ps[..|ps| - 1], ps[|ps| - 1];
      SealedDeferred(out, rest, key);
      var w := Wire(p.typ, p.body, key);
      assert ps[|ps| - 1].body.Plain? && Payload(w.typ, w.body) == p && ps == rest + [p];
      DeferredAppend(out + Sealed(rest, key), w);
      Regroup(out, Sealed(rest, key), [w], Sealed(ps, key));
      Regroup(Deferred(out), rest, [p], ps);
    }
  }

  lemma FlushLedger(b: Outbox, key: Key)
    requires Ledger(b)
    ensures Ledger(b.(out := b.out + Sealed(b.queue, key), queue := []))
  {
    SealedDeferred(b.out, b.queue, key);
  }

  lemma AdjacentGrowth(out: seq<Wire>, out': seq<Wire>)
    requires GuessesAdjacent(out) && PlainGrowth(out, out')
    ensures GuessesAdjacent(out')
  {
    forall i | 0 <= i < |out'| && out'[i].body.Init? && out'[i].body.follows
      ensures i + 1 < |out'| && out'[i + 1].body.DhInit?
    {
      assert i < |out| && out[i] == out'[i];
      assert out[i + 1] == out'[i + 1];
    }
  }
}
