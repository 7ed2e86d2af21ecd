/** How one pass of an endpoint adds to its log: under its present key until it sends NEWKEYS, under the new one after it. */
module LogGrowth {
  import opened Options
  import opened KeyExchange
  import opened WireLog
  import opened Rekeying

  /** NEWKEYS is never held back. */
  predicate Held(x: Endpoint) { forall p <- x.box.queue :: !p.body.NewKeys? }

  /** More packets, all under the same key and none of them NEWKEYS. */
  predicate Adds(x: Endpoint, y: Endpoint)
  {
    && x.box.out <= y.box.out && y.trans == x.trans && (Held(x) ==> Held(y))
    && forall i :: |x.box.out| <= i < |y.box.out| ==> y.box.out[i].key == x.trans && !y.box.out[i].body.NewKeys?
  }

  /** More packets, under the old key up to a NEWKEYS and under the new one from there. */
  ghost predicate Extends(x: Endpoint, y: Endpoint)
  {
    && x.box.out <= y.box.out && (Held(x) ==> Held(y))
    && KeyedFrom(y.box.out, |x.box.out|, x.trans, y.trans)
    && (NewKeys !in Pending(y.box.out, |x.box.out|) ==> y.trans == x.trans)
  }

  // ---- one after the other ----

  lemma {:induction false} KeyedBack(out: seq<Wire>, m: nat, n: nat, k: Key, next: Key)
    requires m <= n <= |out| && KeyedFrom(out, n, k, next)
    requires forall i :: m <= i < n ==> out[i].key == k && !out[i].body.NewKeys?
    ensures KeyedFrom(out, m, k, next) && (NewKeys in Pending(out, m) <==> NewKeys in Pending(out, n))
    decreases n - m
  {
    if m < n { KeyedBack(out, m + 1, n, k, next); }
  }

  lemma AddsThenExtends(x: Endpoint, y: Endpoint, z: Endpoint)
    requires Adds(x, y) && Extends(y, z)
    ensures Extends(x, z)
  {
    forall i | |x.box.out| <= i < |y.box.out| ensures z.box.out[i] == y.box.out[i] {
    }
    KeyedBack(z.box.out, |x.box.out|, |y.box.out|, x.trans, z.trans);
  }

  lemma AddsIsExtends(x: Endpoint, y: Endpoint)
    requires Adds(x, y)
    ensures Extends(x, y)
  {
    KeyedBack(y.box.out, |x.box.out|, |y.box.out|, x.trans, y.trans);
  }

  lemma AddsOn(x: Endpoint, y: Endpoint, z: Endpoint)
    requires Adds(x, y) && Adds(y, z)
    ensures Adds(x, z)
  {
    forall i | |x.box.out| <= i < |z.box.out| ensures z.box.out[i].key == x.trans && !z.box.out[i].body.NewKeys? {
      assert i < |y.box.out| ==> z.box.out[i] == y.box.out[i];
    }
  }

  lemma {:induction false} KeyedOn(out: seq<Wire>, more: seq<Wire>, n: nat, k: Key, next: Key)
    requires n <= |out| && KeyedFrom(out, n, k, next) && (NewKeys !in Pending(out, n) ==> next == k)
    requires forall w <- more :: w.key == next && !w.body.NewKeys?
    ensures KeyedFrom(out + more, n, k, next) && (NewKeys in Pending(out + more, n) <==> NewKeys in Pending(out, n))
    decreases |more|
  {
    if more == [] {
      assert out + more == out;
    } else {
      var front, w := more[..|more| - 1], more[|more| - 1];
      KeyedOn(out, front, n, k, next);
      KeyedAppend(out + front, w, n, k, next);
      PendingAppend(out + front, w, n);
      assert out + more == (out + front) + [w];
    }
  }

  lemma ExtendsThenAdds(x: Endpoint, y: Endpoint, z: Endpoint)
    requires Extends(x, y) && Adds(y, z)
    ensures Extends(x, z)
  {
    var more := z.box.out[|y.box.out|..];
    forall w | w in more ensures w.key == y.trans && !w.body.NewKeys? {
      var i :| 0 <= i < |more| && more[i] == w;
      assert w == z.box.out[|y.box.out| + i];
    }
    KeyedOn(y.box.out, more, |x.box.out|, x.trans, y.trans);
    assert z.box.out == y.box.out + more;
  }

  // ---- what each step adds ----

  lemma EncryptAdds(x: Endpoint, p: Payload)
    requires !p.body.NewKeys?
    ensures Adds(x, Encrypt(x, p))
  {
  }

  lemma SubmitAdds(x: Endpoint, p: Payload)
    requires !p.body.NewKeys?
    ensures Adds(x, Submit(x, p))
  {
  }

  lemma {:induction false} SubmitAllAdds(x: Endpoint, ps: seq<Payload>)
    requires Applications(ps)
    ensures Adds(x, SubmitAll(x, ps))
    decreases |ps|
  {
    if ps != [] {
      var y, p := SubmitAll(x, ps[..|ps| - 1]), ps[|ps| - 1];
      SubmitAllAdds(x, ps[..|ps| - 1]);
      SubmitAdds(y, p);
      assert SubmitAll(x, ps).box == Submit(y, p).box;
      AddsOn(x, y, Submit(y, p));
    }
  }

  lemma {:induction false} SealedKey(ps: seq<Payload>, key: Key)
    requires forall p <- ps :: !p.body.NewKeys?
    ensures forall w <- Sealed(ps, key) :: w.key == key && !w.body.NewKeys?
    decreases |ps|
  {
    if ps != [] {
      SealedKey(ps[..|ps| - 1], key);
      assert ps[|ps| - 1] in ps;
    }
  }

  lemma FlushAdds(x: Endpoint)
    requires Held(x)
    ensures Adds(x, Flush(x))
  {
    var more := Sealed(x.box.queue, x.trans);
    SealedKey(x.box.queue, x.trans);
    forall i | |x.box.out| <= i < |x.box.out + more|
      ensures (x.box.out + more)[i].key == x.trans && !(x.box.out + more)[i].body.NewKeys?
    {
      assert (x.box.out + more)[i] in more;
    }
  }

  lemma SendKexinitAdds(x: Endpoint, env: Negotiation, id: nat, e: nat)
    ensures Adds(x, SendKexinit(x, env, id, e))
  {
    var p := Payload(KEXINIT, Init(id, Guesses(x, env)));
    var k := x.kex.(myInit := Some(id), sentKexinit := true,
                    pending := Some(Context(env.firstAlgo, NoKey, false, false)));
    var t := Encrypt(x, p).(kex := k, dataAllowed := false);
    EncryptAdds(x, p);
    if Guesses(x, env) {
      var q := Ephemeral(t.kex, t.kex.pending.value.algo, e);
      EncryptAdds(t.(kex := t.kex.(param := Some(q))), Payload(KEXDH_INIT, DhInit(q.e)));
    }
  }

  /** NEWKEYS goes out under the old key before the new one is taken into use. */
  lemma SendNewkeysExtends(x: Endpoint, key: Key)
    requires x.kex.pending.Some?
    ensures Extends(x, SendNewkeys(x, key))
  {
    var w := Wire(NEWKEYS, NewKeys, x.trans);
    var y := SendNewkeys(x, key);
    assert y.box.out == x.box.out + [w] && y.box.queue == x.box.queue;
    assert Pending(y.box.out, |x.box.out| + 1) == [];
    assert Pending(y.box.out, |x.box.out|) == [NewKeys] + Pending(y.box.out, |x.box.out| + 1);
  }

  /** A new transmit key is taken into use as soon as NEWKEYS is out, so none is left over. */
  predicate TransTaken(k: Kex)
  {
    k.sentNewkeys && k.pending.Some? ==> !k.pending.value.transValid
  }

  lemma LocalTaken(x: Endpoint, env: Negotiation)
    requires Local(x, env)
    ensures TransTaken(x.kex)
  {
  }

  /** Taking the peer's NEWKEYS leaves the key to send under alone. */
  lemma RecvNewkeysAdds(x: Endpoint)
    requires TransTaken(x.kex)
    ensures Adds(x, RecvNewkeys(x))
  {
  }

  /** What goes out and under what key is all that matters. */
  lemma SameSending(x: Endpoint, b: Endpoint, t: Endpoint, y: Endpoint)
    requires Extends(b, t) && b.box == x.box && b.trans == x.trans && y.box == t.box && y.trans == t.trans
    ensures Extends(x, y)
  {
  }

  predicate Answerable(x: Endpoint) { x.kex.recvKexinit && x.kex.hash.Some? && x.kex.pending.Some? }

  lemma InitRefused(x: Endpoint, e: nat, f: nat, extInfo: bool, msg: nat)
    requires !Answerable(x)
    ensures Adds(x, RecvKexdhInit(x, e, f, extInfo, msg))
  {
  }

  lemma InitAnswered(x: Endpoint, e: nat, f: nat, extInfo: bool, msg: nat, key: Key, y: Endpoint, z: Endpoint)
    requires Answerable(x) && key == Transcript(x.kex.hash.value.0, x.kex.hash.value.1, e, f)
    requires y == Encrypt(x, Payload(KEXDH_REPLY, DhReply(f, key))) && z == SendNewkeys(y, key)
    ensures var r, s := RecvKexdhInit(x, e, f, extInfo, msg), Submit(z, Payload(EXT_INFO, Plain(msg)));
            (r.box == z.box && r.trans == z.trans) || (r.box == s.box && r.trans == s.trans)
  {
  }

  lemma RecvKexdhInitExtends(x: Endpoint, e: nat, f: nat, extInfo: bool, msg: nat)
    ensures Extends(x, RecvKexdhInit(x, e, f, extInfo, msg))
  {
    var r := RecvKexdhInit(x, e, f, extInfo, msg);
    if Answerable(x) {
      var key := Transcript(x.kex.hash.value.0, x.kex.hash.value.1, e, f);
      var y := Encrypt(x, Payload(KEXDH_REPLY, DhReply(f, key)));
      var z := SendNewkeys(y, key);
      var s := Submit(z, Payload(EXT_INFO, Plain(msg)));
      EncryptAdds(x, Payload(KEXDH_REPLY, DhReply(f, key)));
      SendNewkeysExtends(y, key);
      AddsThenExtends(x, y, z);
      SubmitAdds(z, Payload(EXT_INFO, Plain(msg)));
      ExtendsThenAdds(x, z, s);
      InitAnswered(x, e, f, extInfo, msg, key, y, z);
      SameSending(x, x, if r.box == z.box && r.trans == z.trans then z else s, r);
    } else {
      InitRefused(x, e, f, extInfo, msg);
      AddsIsExtends(x, r);
    }
  }

  predicate Confirmable(x: Endpoint, body: Body)
  {
    && body.DhReply? && x.kex.initSent && x.kex.param.Some? && x.kex.hash.Some? && x.kex.pending.Some?
    && body.signed == Transcript(x.kex.hash.value.0, x.kex.hash.value.1, x.kex.param.value.e, body.f)
  }

  lemma ReplyRefused(x: Endpoint, body: Body)
    requires body.DhReply? && !Confirmable(x, body)
    ensures Adds(x, RecvKexdhReply(x, body))
  {
  }

  lemma ReplyConfirmed(x: Endpoint, body: Body, t: Endpoint)
    requires Confirmable(x, body) && t == SendNewkeys(x.(kex := x.kex.(param := None)), body.signed)
    ensures RecvKexdhReply(x, body).box == t.box && RecvKexdhReply(x, body).trans == t.trans
  {
  }

  lemma RecvKexdhReplyExtends(x: Endpoint, body: Body)
    requires body.DhReply?
    ensures Extends(x, RecvKexdhReply(x, body))
  {
    if Confirmable(x, body) {
      var b := x.(kex := x.kex.(param := None));
      var t := SendNewkeys(b, body.signed);
      SendNewkeysExtends(b, body.signed);
      ReplyConfirmed(x, body, t);
      SameSending(x, b, t, RecvKexdhReply(x, body));
    } else {
      ReplyRefused(x, body);
      AddsIsExtends(x, RecvKexdhReply(x, body));
    }
  }

  lemma RecvKexinitAdds(x: Endpoint, env: Negotiation, theirs: Body, id: nat, e: nat)
    requires theirs.Init?
    ensures Adds(x, RecvKexinit(x, env, theirs, id, e))
  {
    var t := if x.kex.sentKexinit then x else SendKexinit(x, env, id, e);
    SendKexinitAdds(x, env, id, e);
    NegotiateSendsNothing(t, env, theirs);
  }

  lemma NegotiateSendsNothing(x: Endpoint, env: Negotiation, theirs: Body)
    requires theirs.Init?
    ensures Negotiate(x, env, theirs).box == x.box && Negotiate(x, env, theirs).trans == x.trans
  {
  }

  predicate Exchanging(x: Endpoint, w: Wire)
  {
    || (w.typ == KEXDH_INIT && x.server && w.body.DhInit?)
    || (w.typ == KEXDH_REPLY && !x.server && w.body.DhReply?)
  }

  /** The handlers that send no NEWKEYS. */
  lemma DispatchAdds(x: Endpoint, env: Negotiation, w: Wire, inp: Input)
    requires TransTaken(x.kex) && Applications(inp.replies) && !Exchanging(x, w)
    ensures Adds(x, Dispatch(x, env, w, inp))
  {
    if w.typ == KEXINIT && w.body.Init? {
      RecvKexinitAdds(x, env, w.body, inp.id, inp.e);
    } else if w.typ == NEWKEYS {
      RecvNewkeysAdds(x);
    } else if Handled(x.server, w.typ) {
      SubmitAllAdds(x.(authDone := x.authDone || inp.authNow), inp.replies);
    } else {
      SubmitAdds(x, Payload(UNIMPLEMENTED, Plain(inp.msg)));
    }
  }

  lemma DispatchExtends(x: Endpoint, env: Negotiation, w: Wire, inp: Input)
    requires TransTaken(x.kex) && Applications(inp.replies)
    ensures Extends(x, Dispatch(x, env, w, inp))
  {
    var y := Dispatch(x, env, w, inp);
    if !Exchanging(x, w) {
      DispatchAdds(x, env, w, inp);
      AddsIsExtends(x, y);
    } else if w.typ == KEXDH_INIT {
      RecvKexdhInitExtends(x, w.body.e, inp.f, inp.extInfo, inp.msg);
      assert y == RecvKexdhInit(x, w.body.e, inp.f, inp.extInfo, inp.msg);
    } else {
      RecvKexdhReplyExtends(x, w.body);
      assert y == RecvKexdhReply(x, w.body);
    }
  }

  lemma FilterExtends(x: Endpoint, env: Negotiation, w: Wire, inp: Input)
    requires TransTaken(x.kex) && Applications(inp.replies)
    ensures Extends(x, Filter(x, env, w, inp))
  {
    if Passes(x, w) {
      var t := x.(requireNext := 0);
      var d := Dispatch(t, env, w, inp);
      DispatchExtends(t, env, w, inp);
      SameSending(x, t, d, d);
      assert Filter(x, env, w, inp) == d;
    } else {
      SubmitAdds(x, Payload(UNIMPLEMENTED, Plain(inp.msg)));
      FilterStops(x, env, w, inp);
      AddsIsExtends(x, Filter(x, env, w, inp));
    }
  }

  lemma FilterStops(x: Endpoint, env: Negotiation, w: Wire, inp: Input)
    requires !Passes(x, w)
    ensures var y := Filter(x, env, w, inp);
            y.trans == x.trans && y.box in {x.box, Submit(x, Payload(UNIMPLEMENTED, Plain(inp.msg))).box}
  {
  }

  /** The packet gets past every test of process_packet. */
  predicate Passes(x: Endpoint, w: Wire)
  {
    && w.typ !in {IGNORE, DEBUG, UNIMPLEMENTED, DISCONNECT}
    && (x.requireNext == 0 || x.requireNext == w.typ) && !x.ignoreNext
    && (x.authDone || w.typ <= MAX_UNAUTH_PACKET_TYPE)
  }

  lemma ReceiveExtends(x: Endpoint, env: Negotiation, w: Wire, inp: Input)
    requires Local(x, env) && Applications(inp.replies)
    ensures Extends(x, Receive(x, env, w, inp))
  {
    LocalTaken(x, env);
    FilterExtends(x, env, w, inp);
    if w.key == x.recv {
      SameSending(x, x, Filter(x, env, w, inp), Receive(x, env, w, inp));
    } else {
      AddsIsExtends(x, Receive(x, env, w, inp));
    }
  }

  lemma LoopHandlerAdds(x: Endpoint, e: nat)
    ensures Adds(x, LoopHandler(x, e))
  {
    if x.kex.pending.Some? {
      var q := Ephemeral(x.kex, x.kex.pending.value.algo, e);
      EncryptAdds(x.(kex := x.kex.(param := Some(q))), Payload(KEXDH_INIT, DhInit(q.e)));
    }
  }

  lemma BeginAdds(x: Endpoint, env: Negotiation, inp: Input)
    requires Applications(inp.early)
    ensures Adds(x, Begin(x, env, inp))
  {
    var y := if inp.rekey then Rekey(x, env, inp.id, inp.e) else x;
    SendKexinitAdds(x, env, inp.id, inp.e);
    SubmitAllAdds(y, inp.early);
    AddsOn(x, y, SubmitAll(y, inp.early));
  }

  lemma FinishAdds(x: Endpoint, inp: Input)
    requires Held(x) && Applications(inp.late)
    ensures Adds(x, Finish(x, inp))
  {
    var y, z := Flush(x), LoopHandler(Flush(x), inp.e);
    FlushAdds(x);
    LoopHandlerAdds(y, inp.e);
    SubmitAllAdds(z, inp.late);
    AddsOn(x, y, z);
    AddsOn(x, z, SubmitAll(z, inp.late));
  }

  /**
   * A whole pass, with or without a packet, from a state in which the exchange stands well: every
   * packet it sends is under the present key, or under the new one if NEWKEYS has gone before it.
   */
  lemma IterateExtends(x: Endpoint, env: Negotiation, arrival: Option<Wire>, inp: Input)
    requires Local(Begin(x, env, inp), env) && Held(x) && LegalInput(inp)
    ensures Extends(x, Iterate(x, env, arrival, inp))
  {
    var a := Begin(x, env, inp);
    var r := if arrival.Some? then Receive(a, env, arrival.value, inp) else a;
    BeginAdds(x, env, inp);
    if arrival.Some? { ReceiveExtends(a, env, arrival.value, inp); } else { AddsIsExtends(a, a); }
    AddsThenExtends(x, a, r);
    if r.exit.None? {
      FinishAdds(r, inp);
      ExtendsThenAdds(x, r, Finish(r, inp));
    }
  }

  // ---- keys along the log ----

  /** Behind a NEWKEYS that is still to be read every packet is under the sender's present key. */
  lemma {:induction false} KeyAfterNewKeys(out: seq<Wire>, n: nat, k: Key, next: Key, i: nat)
    requires n <= i && i + 1 < |out| && KeyedFrom(out, n, k, next) && out[i].body.NewKeys?
    ensures out[i + 1].key == next
    decreases i - n
  {
    if n < i {
      KeyAfterNewKeys(out, n + 1, if out[n].body.NewKeys? then next else k, next, i);
    }
  }

  /** So while one is still to be read the sender's key does not change. */
  lemma UnreadNewKeysPins(x: Endpoint, y: Endpoint, n: nat, k: Key, i: nat)
    requires Extends(x, y) && n <= i < |x.box.out| && x.box.out[i].body.NewKeys?
    requires KeyedFrom(x.box.out, n, k, x.trans) && KeyedFrom(y.box.out, n, k, y.trans)
    ensures y.trans == x.trans
  {
    if i + 1 < |y.box.out| {
      assert y.box.out[i] == x.box.out[i];
      KeyAfterNewKeys(y.box.out, n, k, y.trans, i);
      if i + 1 < |x.box.out| {
        KeyAfterNewKeys(x.box.out, n, k, x.trans, i);
        assert y.box.out[i + 1] == x.box.out[i + 1];
      }
    }
  }
}
