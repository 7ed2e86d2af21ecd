/**
 * Every exchange finishes: from any reachable state, reading what is on its way, in whatever
 * order, soon brings both ends to rest, if the client trusts no guess that is thrown away.
 */
module Completion {
  import opened Options
  import opened KeyExchange
  import opened WireLog
  import opened Rekeying
  import opened Stall

  // ---- how much is still to come ----

  /** An answer as unimplemented is not answered again; anything else may be. */
  function Weight(w: Wire): nat { if w.typ == UNIMPLEMENTED then 1 else 2 }

  function Load(out: seq<Wire>, n: nat): nat
    requires n <= |out|
    decreases |out| - n
  {
    if n == |out| then 0 else Weight(out[n]) + Load(out, n + 1)
  }

  /** What an endpoint has put on the wire that is yet to be read, and what it holds back. */
  function Due(x: Endpoint, n: nat): nat
    requires n <= |x.box.out|
  {
    Load(x.box.out, n) + 2 * |x.box.queue|
  }

  /** How many more packets the exchange in progress can call for, at most. */
  function Ahead(c: Phase, s: Phase, answered: bool): nat
  {
    match (c, s)
    case (Both, Done) => 1
    case (Sent, Done) => if answered then 2 else 5
    case (Both, Both) => 3
    case (Sent, Both) => 4
    case (Both, Sent) => 3
    case (Sent, Sent) => 4
    case (Sent, Idle) => 5
    case (Idle, Sent) => 6
    case (Done, Sent) => 6
    case _ => 0
  }

  function AheadOf(n: Net): nat
    requires n.nc <= |n.s.box.out|
  {
    Ahead(PhaseOf(n.c.kex), PhaseOf(n.s.kex), Pending(n.s.box.out, n.nc) != [])
  }

  predicate Bounded(n: Net) { n.ns <= |n.c.box.out| && n.nc <= |n.s.box.out| }

  function Rank(n: Net): nat
    requires Bounded(n)
  {
    Due(n.c, n.ns) + Due(n.s, n.nc) + 2 * AheadOf(n)
  }

  // ---- what sending adds ----

  lemma {:induction false} LoadAppend(out: seq<Wire>, w: Wire, n: nat)
    requires n <= |out|
    ensures Load(out + [w], n) == Load(out, n) + Weight(w)
    decreases |out| - n
  {
    if n == |out| {
      assert Load(out + [w], n + 1) == 0;
    } else {
      LoadAppend(out, w, n + 1);
    }
  }

  lemma {:induction false} LoadSealed(out: seq<Wire>, ps: seq<Payload>, key: Key, n: nat)
    requires n <= |out|
    ensures Load(out + Sealed(ps, key), n) <= Load(out, n) + 2 * |ps|
    decreases |ps|
  {
    if ps == [] {
      assert out + [] == out;
    } else {
      var rest, w := Sealed(ps[..|ps| - 1], key), Wire(ps[|ps| - 1].typ, ps[|ps| - 1].body, key);
      LoadSealed(out, ps[..|ps| - 1], key, n);
      LoadAppend(out + rest, w, n);
      assert out + Sealed(ps, key) == (out + rest) + [w];
    }
  }

  lemma FlushDue(x: Endpoint, n: nat)
    requires n <= |x.box.out|
    ensures n <= |Flush(x).box.out| && Due(Flush(x), n) <= Due(x, n)
  {
    LoadSealed(x.box.out, x.box.queue, x.trans, n);
  }

  lemma UnimplementedDue(b: Outbox, allowed: bool, key: Key, msg: nat, n: nat)
    requires n <= |b.out|
    ensures var d := Ask(b, allowed, key, Payload(UNIMPLEMENTED, Plain(msg)));
            && n <= |d.out| && d.queue == b.queue
            && Load(d.out, n) == Load(b.out, n) + 1
  {
    LoadAppend(b.out, Wire(UNIMPLEMENTED, Plain(msg), key), n);
  }

  lemma OpensDue(x: Endpoint, env: Negotiation, id: nat, e: nat, n: nat)
    requires n <= |x.box.out|
    ensures n <= |Opens(x, env, id, e).box.out|
    ensures Due(Opens(x, env, id, e), n) == Due(x, n) + if Guesses(x, env) then 4 else 2
  {
    var w := Wire(KEXINIT, Init(id, Guesses(x, env)), x.trans);
    LoadAppend(x.box.out, w, n);
    var g := Wire(KEXDH_INIT, DhInit(Ephemeral(x.kex, env.firstAlgo, e).e), x.trans);
    LoadAppend(x.box.out + [w], g, n);
  }

  lemma TriesDue(c: Endpoint, e: nat, n: nat)
    requires c.kex.pending.Some? && n <= |c.box.out|
    ensures n <= |Tries(c, e).box.out| && Due(Tries(c, e), n) == Due(c, n) + 2
  {
    LoadAppend(c.box.out, Wire(KEXDH_INIT, DhInit(Ephemeral(c.kex, c.kex.pending.value.algo, e).e), c.trans), n);
  }

  lemma ConfirmsDue(c: Endpoint, key: Key, n: nat)
    requires c.kex.pending.Some? && n <= |c.box.out|
    ensures n <= |Confirms(c, key).box.out| && Due(Confirms(c, key), n) == Due(c, n) + 2
  {
    LoadAppend(c.box.out, Wire(NEWKEYS, NewKeys, c.trans), n);
  }

  lemma AnswersDue(s: Endpoint, e: nat, f: nat, msg: nat, n: nat)
    requires s.kex.hash.Some? && s.kex.pending.Some? && n <= |s.box.out|
    ensures n <= |Answers(s, e, f, false, msg).box.out|
    ensures Due(Answers(s, e, f, false, msg), n) == Due(s, n) + 4
  {
    var key := AgreedKey(s.kex, e, f);
    LoadAppend(s.box.out, Wire(KEXDH_REPLY, DhReply(f, key), s.trans), n);
    LoadAppend(s.box.out + [Wire(KEXDH_REPLY, DhReply(f, key), s.trans)], Wire(NEWKEYS, NewKeys, s.trans), n);
  }

  // ---- a pass that only reads ----

  lemma QuietPass(x: Endpoint, env: Negotiation, w: Wire)
    ensures Iterate(x, env, Some(w), Quiet)
         == var r := Receive(x, env, w, Quiet); if r.exit.Some? then r else LoopHandler(Flush(r), 0)
  {
  }

  /** An ordinary packet is answered as unimplemented at most, and such an answer by nothing. */
  lemma PlainQuiet(x: Endpoint, env: Negotiation, w: Wire)
    requires Local(x, env) && WellTyped(w.typ, w.body) && w.body.Plain? && w.key == x.recv
    requires x.kex.recvKexinit ==> OkayDuringKex(w.typ)
    requires x.requireNext != KEXINIT && !x.ignoreNext
    ensures var r := Receive(x, env, w, Quiet);
            r.exit.None? ==>
              && r.box in {x.box, Ask(x.box, x.dataAllowed, x.trans, Payload(UNIMPLEMENTED, Plain(0)))}
              && (w.typ == UNIMPLEMENTED ==> r.box == x.box)
  {
  }

  lemma PlainDue(x: Endpoint, env: Negotiation, w: Wire, n: nat)
    requires Local(x, env) && WellTyped(w.typ, w.body) && w.body.Plain? && w.key == x.recv
    requires x.kex.recvKexinit ==> OkayDuringKex(w.typ)
    requires x.requireNext != KEXINIT && !x.ignoreNext && n <= |x.box.out|
    ensures var r := Receive(x, env, w, Quiet);
            r.exit.None? ==>
              n <= |r.box.out| && Due(r, n) < Due(x, n) + Weight(w) && SameExchange(x, r) && r.lastPacket == w.typ
  {
    PlainQuiet(x, env, w);
    UnimplementedDue(x.box, x.dataAllowed, x.trans, 0, n);
    var ps, auth := ReceivePlain(x, env, w, Quiet);
  }

  lemma NotUnimplemented(n: Net, env: Negotiation)
    requires Inv(n, env)
    ensures n.nc < |n.s.box.out| && !n.s.box.out[n.nc].body.Plain? ==> Weight(n.s.box.out[n.nc]) == 2
    ensures n.ns < |n.c.box.out| && !n.c.box.out[n.ns].body.Plain? ==> Weight(n.c.box.out[n.ns]) == 2
  {
    if n.nc < |n.s.box.out| { NextForClient(n, env); }
    if n.ns < |n.c.box.out| { NextForServer(n, env); }
  }

  // ---- the client reads ----

  /** After the packet: the queue is flushed and the loop handler may send its KEXDH_INIT. */
  lemma ClientAfter(r: Endpoint, f: Endpoint, env: Negotiation, n: nat)
    requires f == Flush(r) && Local(f, env) && !f.server && n <= |r.box.out|
    requires PhaseOf(f.kex) == Done && f.kex.initSent ==> f.lastPacket != 0 && f.lastPacket != KEXINIT
    ensures var y := LoopHandler(f, 0);
            && n <= |y.box.out| && PhaseOf(y.kex) == PhaseOf(r.kex)
            && Due(y, n) <= Due(r, n) + if PhaseOf(r.kex) == Both && !r.kex.initSent then 2 else 0
  {
    FlushDue(r, n);
    LoopHandlerCases(f, env, 0);
    if PhaseOf(f.kex) == Both && !f.kex.initSent && !f.kex.firstMatches { TriesDue(f, 0, n); }
  }

  /** What a packet read by the client costs: r is the client that has taken it. */
  lemma ClientCost(n: Net, env: Negotiation, r: Endpoint)
    requires Inv(n, env) && Settled(n.c) && n.nc < |n.s.box.out|
    requires r == Receive(n.c, env, n.s.box.out[n.nc], Quiet) && r.exit.None?
    ensures var y := LoopHandler(Flush(r), 0);
            && n.ns <= |r.box.out| && n.ns <= |y.box.out| && PhaseOf(y.kex) == PhaseOf(r.kex)
            && Due(y, n.ns) <= Due(r, n.ns) + if PhaseOf(r.kex) == Both && !r.kex.initSent then 2 else 0
  {
    ClientReads(n, env, Quiet);
    var m := n.(c := r, nc := n.nc + 1);
    ClientFlushes(m, env);
    BothLocal(m.(c := Flush(r)), env);
    ClientAfter(r, Flush(r), env, n.ns);
  }

  /** Enough of the exchange is done by reading KEXINIT to pay for what it makes the client send. */
  lemma InitAhead(n: Net, env: Negotiation, answered: bool)
    requires Inv(n, env) && n.nc < |n.s.box.out| && n.s.box.out[n.nc].body.Init?
    ensures 2 * Ahead(Both, PhaseOf(n.s.kex), answered) + 2
            + (if PhaseOf(n.c.kex) == Idle then 4 else 0) < 2 + 2 * AheadOf(n)
  {
    InvIs(n, env);
    var ls := Pending(n.s.box.out, n.nc);
    assert ls[0].Init?;
  }

  /** Reading KEXINIT sends one first if that has not been done. */
  lemma TakesDue(x: Endpoint, y: Endpoint, env: Negotiation, body: Body, n: nat)
    requires body.Init? && n <= |x.box.out|
    requires y == if PhaseOf(x.kex) == Idle then Opens(x, env, 0, 0) else x
    ensures var r := TakesKexinit(y, env, body);
            && n <= |r.box.out|
            && Due(r, n) <= Due(x, n) + if PhaseOf(x.kex) != Idle then 0 else if x.server then 2 else 4
  {
    OpensDue(x, env, 0, 0, n);
    assert TakesKexinit(y, env, body).box == y.box;
  }

  lemma ClientInitFalls(n: Net, env: Negotiation, r: Endpoint)
    requires Inv(n, env) && Settled(n.c) && n.nc < |n.s.box.out| && n.s.box.out[n.nc].body.Init?
    requires r == Receive(n.c, env, n.s.box.out[n.nc], Quiet) && r.exit.None?
    ensures PhaseOf(r.kex) == Both && n.ns <= |r.box.out|
    ensures Due(r, n.ns) <= Due(n.c, n.ns) + if PhaseOf(n.c.kex) == Idle then 4 else 0
  {
    InvIs(n, env);
    var y := if PhaseOf(n.c.kex) == Idle then Opens(n.c, env, 0, 0) else n.c;
    var t := TakesKexinit(y, env, n.s.box.out[n.nc].body);
    NextForClient(n, env);
    ReceiveInit(n.c, env, n.s.box.out[n.nc], Quiet);
    ClientAcceptsKexinit(n, env, 0, 0);
    assert r == t;
    TakesDue(n.c, y, env, n.s.box.out[n.nc].body, n.ns);
  }

  lemma ClientReplyFalls(n: Net, env: Negotiation, r: Endpoint)
    requires Inv(n, env) && Settled(n.c) && n.nc < |n.s.box.out| && n.s.box.out[n.nc].body.DhReply?
    requires r == Receive(n.c, env, n.s.box.out[n.nc], Quiet) && r.exit.None?
    ensures PhaseOf(n.c.kex) == Both && PhaseOf(n.s.kex) == Done && PhaseOf(r.kex) == Done && n.ns <= |r.box.out|
    ensures Due(r, n.ns) == Due(n.c, n.ns) + 2
  {
    InvIs(n, env);
    var w := n.s.box.out[n.nc];
    NextForClient(n, env);
    assert Pending(n.s.box.out, n.nc)[0] == w.body;
    ClientReadsReply(n, env);
    ReceiveReply(n.c, env, w, Quiet);
    ConfirmsDue(n.c, w.body.signed, n.ns);
  }

  lemma ClientNewkeysFalls(n: Net, env: Negotiation, r: Endpoint)
    requires Inv(n, env) && Settled(n.c) && n.nc < |n.s.box.out| && n.s.box.out[n.nc].body.NewKeys?
    requires r == Receive(n.c, env, n.s.box.out[n.nc], Quiet) && r.exit.None?
    ensures PhaseOf(n.c.kex) == Done && PhaseOf(r.kex) == Idle && r.box == n.c.box
    ensures Ahead(Idle, PhaseOf(n.s.kex), Pending(n.s.box.out, n.nc + 1) != []) <= AheadOf(n)
  {
    InvIs(n, env);
    var w := n.s.box.out[n.nc];
    NextForClient(n, env);
    assert Pending(n.s.box.out, n.nc)[0] == w.body;
    ClientReadsNewkeys(n, env);
    ReceiveNewkeys(n.c, env, w, Quiet);
  }

  lemma ClientPlainFalls(n: Net, env: Negotiation, r: Endpoint)
    requires Inv(n, env) && Settled(n.c) && n.nc < |n.s.box.out| && n.s.box.out[n.nc].body.Plain?
    requires r == Receive(n.c, env, n.s.box.out[n.nc], Quiet) && r.exit.None?
    ensures r.kex == n.c.kex && n.ns <= |r.box.out| && Pending(n.s.box.out, n.nc + 1) == Pending(n.s.box.out, n.nc)
    ensures Due(r, n.ns) < Due(n.c, n.ns) + Weight(n.s.box.out[n.nc])
  {
    InvIs(n, env);
    NextForClient(n, env);
    PlainDue(n.c, env, n.s.box.out[n.nc], n.ns);
    FlowRead(n.s.box.out, n.s.dataAllowed, n.s.trans, n.nc, n.c.recv, n.c.kex.recvKexinit);
  }

  lemma ClientFalls(n: Net, env: Negotiation, r: Endpoint)
    requires Inv(n, env) && Settled(n.c) && n.nc < |n.s.box.out|
    requires r == Receive(n.c, env, n.s.box.out[n.nc], Quiet) && r.exit.None?
    ensures var y := LoopHandler(Flush(r), 0);
            && n.ns <= |y.box.out|
            && Rank(Net(y, n.s, n.nc + 1, n.ns)) < Rank(n)
  {
    var w := n.s.box.out[n.nc];
    ClientCost(n, env, r);
    if w.body.Plain? {
      ClientPlainFalls(n, env, r);
    } else if w.body.Init? {
      ClientInitFalls(n, env, r);
      InitAhead(n, env, Pending(n.s.box.out, n.nc + 1) != []);
      NotUnimplemented(n, env);
    } else if w.body.DhReply? {
      ClientReplyFalls(n, env, r);
      NotUnimplemented(n, env);
    } else {
      NextForClient(n, env);
      ClientNewkeysFalls(n, env, r);
      NotUnimplemented(n, env);
    }
  }

  // ---- the server reads ----

  lemma ServerCost(n: Net, r: Endpoint)
    requires r.server && n.nc <= |r.box.out|
    ensures var y := LoopHandler(Flush(r), 0);
            n.nc <= |y.box.out| && PhaseOf(y.kex) == PhaseOf(r.kex) && Due(y, n.nc) <= Due(r, n.nc)
  {
    FlushDue(r, n.nc);
  }

  /** Whether the server has answered as far as its stream shows: flushing adds nothing to that. */
  lemma FlushAnswers(n: Net, env: Negotiation)
    requires Inv(n, env)
    ensures n.nc <= |Flush(n.s).box.out|
    ensures Pending(LoopHandler(Flush(n.s), 0).box.out, n.nc) == Pending(n.s.box.out, n.nc)
  {
    InvIs(n, env);
    if n.s.dataAllowed {
      SealedFlow(n.s.box.out, n.s.box.queue, n.s.trans, n.nc, n.c.recv, n.c.kex.recvKexinit);
    }
  }

  lemma ServerInitFalls(n: Net, env: Negotiation, r: Endpoint)
    requires Inv(n, env) && n.ns < |n.c.box.out| && n.c.box.out[n.ns].body.Init?
    requires r == Receive(n.s, env, n.c.box.out[n.ns], Quiet) && r.exit.None?
    ensures PhaseOf(r.kex) == Both && n.nc <= |r.box.out|
    ensures Due(r, n.nc) + 2 * Ahead(PhaseOf(n.c.kex), Both, true) < Due(n.s, n.nc) + 2 + 2 * AheadOf(n)
  {
    InvIs(n, env);
    var w := n.c.box.out[n.ns];
    var y := if PhaseOf(n.s.kex) == Idle then Opens(n.s, env, 0, 0) else n.s;
    NextForServer(n, env);
    assert Pending(n.c.box.out, n.ns)[0] == w.body;
    ServerTakesInit(n, env);
    ReceiveInit(n.s, env, w, Quiet);
    TakesDue(n.s, y, env, w.body, n.nc);
  }

  lemma ServerTakesInit(n: Net, env: Negotiation)
    requires Inv(n, env) && n.ns < |n.c.box.out| && n.c.box.out[n.ns].body.Init?
    requires PhaseOf(n.s.kex) in {Idle, Sent}
    ensures var y := if PhaseOf(n.s.kex) == Idle then Opens(n.s, env, 0, 0) else n.s;
            var t := TakesKexinit(y, env, n.c.box.out[n.ns].body);
            t.exit.None? && PhaseOf(t.kex) == Both
  {
    InvIs(n, env);
    if PhaseOf(n.s.kex) == Idle {
      ServerSendsKexinit(n, env, 0, 0);
      ServerReadsInit(n.(s := Opens(n.s, env, 0, 0)), env);
    } else {
      ServerReadsInit(n, env);
    }
  }

  lemma ServerDhInitFalls(n: Net, env: Negotiation, r: Endpoint)
    requires Inv(n, env) && n.ns < |n.c.box.out| && n.c.box.out[n.ns].body.DhInit? && PhaseOf(n.s.kex) == Both
    requires r == Receive(n.s, env, n.c.box.out[n.ns], Quiet) && r.exit.None?
    ensures n.nc <= |r.box.out|
    ensures if n.s.ignoreNext then r.box == n.s.box && r.kex == n.s.kex
            else
              && PhaseOf(r.kex) == Done && Due(r, n.nc) == Due(n.s, n.nc) + 4
              && Ahead(PhaseOf(n.c.kex), Done, true) + 2 <= AheadOf(n)
              && Pending(r.box.out, n.nc) != []
  {
    InvIs(n, env);
    var w := n.c.box.out[n.ns];
    NextForServer(n, env);
    ReceiveDhInit(n.s, env, w, Quiet);
    if !n.s.ignoreNext {
      ServerAnswers(n, env);
      AnswersDue(n.s, w.body.e, 0, 0, n.nc);
    }
  }

  lemma ServerAnswers(n: Net, env: Negotiation)
    requires Inv(n, env) && n.ns < |n.c.box.out| && n.c.box.out[n.ns].body.DhInit?
    requires PhaseOf(n.s.kex) == Both && !n.s.ignoreNext
    ensures n.nc <= |n.s.box.out| && n.s.kex.hash.Some? && n.s.kex.pending.Some? && PhaseOf(n.c.kex) in {Sent, Both}
    ensures var s := Answers(n.s, n.c.box.out[n.ns].body.e, 0, false, 0);
            n.nc <= |s.box.out| && Pending(s.box.out, n.nc) != []
  {
    InvIs(n, env);
    var e := n.c.box.out[n.ns].body.e;
    var lc, ls := Pending(n.c.box.out, n.ns), Pending(n.s.box.out, n.nc);
    assert lc[0] == n.c.box.out[n.ns].body;
    ServerControlDhInit(n.c, n.s, env, lc, ls, 0, false, 0);
    AnswerFlow(n.s.box, n.s.trans, AgreedKey(n.s.kex, e, 0), 0, false, 0, n.nc, n.c.recv, n.c.kex.recvKexinit);
  }

  lemma ServerStrayFalls(n: Net, env: Negotiation, r: Endpoint)
    requires Inv(n, env) && n.ns < |n.c.box.out| && n.c.box.out[n.ns].body.DhInit? && PhaseOf(n.s.kex) == Done
    requires r == Receive(n.s, env, n.c.box.out[n.ns], Quiet) && r.exit.None?
    ensures r.kex == n.s.kex && n.nc <= |r.box.out| && Due(r, n.nc) == Due(n.s, n.nc) + 1
    ensures Pending(r.box.out, n.nc) == Pending(n.s.box.out, n.nc)
  {
    InvIs(n, env);
    NextForServer(n, env);
    ReceiveStray(n.s, env, n.c.box.out[n.ns], Quiet);
    UnimplementedDue(n.s.box, n.s.dataAllowed, n.s.trans, 0, n.nc);
    AskFlow(n.s.box, Payload(UNIMPLEMENTED, Plain(0)), n.s.dataAllowed, n.s.trans, n.nc, n.c.recv, n.c.kex.recvKexinit);
  }

  lemma ServerNewkeysFalls(n: Net, env: Negotiation, r: Endpoint)
    requires Inv(n, env) && n.ns < |n.c.box.out| && n.c.box.out[n.ns].body.NewKeys?
    requires r == Receive(n.s, env, n.c.box.out[n.ns], Quiet) && r.exit.None?
    ensures PhaseOf(r.kex) == Idle && r.box == n.s.box
    ensures Ahead(PhaseOf(n.c.kex), Idle, true) <= AheadOf(n)
  {
    InvIs(n, env);
    NextForServer(n, env);
    assert Pending(n.c.box.out, n.ns)[0] == n.c.box.out[n.ns].body;
    ServerReadsNewkeys(n, env);
    ReceiveNewkeys(n.s, env, n.c.box.out[n.ns], Quiet);
  }

  lemma ServerPlainFalls(n: Net, env: Negotiation, r: Endpoint)
    requires Inv(n, env) && n.ns < |n.c.box.out| && n.c.box.out[n.ns].body.Plain?
    requires r == Receive(n.s, env, n.c.box.out[n.ns], Quiet) && r.exit.None?
    ensures r.kex == n.s.kex && n.nc <= |r.box.out| && Pending(r.box.out, n.nc) == Pending(n.s.box.out, n.nc)
    ensures Due(r, n.nc) < Due(n.s, n.nc) + Weight(n.c.box.out[n.ns])
  {
    InvIs(n, env);
    var u := Payload(UNIMPLEMENTED, Plain(0));
    NextForServer(n, env);
    PlainDue(n.s, env, n.c.box.out[n.ns], n.nc);
    PlainQuiet(n.s, env, n.c.box.out[n.ns]);
    AskFlow(n.s.box, u, n.s.dataAllowed, n.s.trans, n.nc, n.c.recv, n.c.kex.recvKexinit);
  }

  /** The packet that the server has taken is worth more than what it now has to send. */
  predicate Cheaper(n: Net, r: Endpoint)
    requires Bounded(n) && n.ns < |n.c.box.out|
  {
    && n.nc <= |r.box.out|
    && Due(r, n.nc) + 2 * Ahead(PhaseOf(n.c.kex), PhaseOf(r.kex), Pending(r.box.out, n.nc) != [])
       < Due(n.s, n.nc) + Weight(n.c.box.out[n.ns]) + 2 * AheadOf(n)
  }

  lemma ServerTakesCheaper(n: Net, env: Negotiation, r: Endpoint)
    requires Inv(n, env) && Settled(n.s) && n.ns < |n.c.box.out|
    requires r == Receive(n.s, env, n.c.box.out[n.ns], Quiet) && r.exit.None?
    ensures Bounded(n) && Cheaper(n, r)
  {
    var w := n.c.box.out[n.ns];
    NextForServer(n, env);
    NotUnimplemented(n, env);
    if w.body.Plain? {
      ServerPlainFalls(n, env, r);
    } else if w.body.Init? {
      ServerInitFalls(n, env, r);
    } else if w.body.DhInit? && PhaseOf(n.s.kex) == Both {
      ServerDhInitFalls(n, env, r);
    } else if w.body.DhInit? {
      ServerStrayFalls(n, env, r);
    } else {
      ServerNewkeysFalls(n, env, r);
    }
  }

  lemma CheaperFalls(n: Net, r: Endpoint, y: Endpoint)
    requires Bounded(n) && n.ns < |n.c.box.out| && Cheaper(n, r) && n.nc <= |y.box.out|
    requires PhaseOf(y.kex) == PhaseOf(r.kex) && Due(y, n.nc) <= Due(r, n.nc)
    requires Pending(y.box.out, n.nc) == Pending(r.box.out, n.nc)
    ensures Rank(Net(n.c, y, n.nc, n.ns + 1)) < Rank(n)
  {
  }

  lemma ServerFalls(n: Net, env: Negotiation, r: Endpoint)
    requires Inv(n, env) && Settled(n.s) && n.ns < |n.c.box.out|
    requires r == Receive(n.s, env, n.c.box.out[n.ns], Quiet) && r.exit.None?
    ensures var y := LoopHandler(Flush(r), 0);
            && n.nc <= |y.box.out|
            && Rank(Net(n.c, y, n.nc, n.ns + 1)) < Rank(n)
  {
    ServerTakesCheaper(n, env, r);
    ServerReads(n, env, Quiet);
    FlushAnswers(n.(s := r, ns := n.ns + 1), env);
    ServerCost(n, r);
    CheaperFalls(n, r, LoopHandler(Flush(r), 0));
  }

  // ---- whole runs ----

  predicate Unread(n: Net, client: bool) { if client then n.nc < |n.s.box.out| else n.ns < |n.c.box.out| }

  lemma SoundIsBounded(n: Net, env: Negotiation)
    requires Sound(n, env) && Running(n)
    ensures Bounded(n)
  {
  }

  lemma ClientReadingFalls(n: Net, env: Negotiation)
    requires Inv(n, env) && Settled(n.c) && n.nc < |n.s.box.out|
    ensures var y := Iterate(n.c, env, Some(n.s.box.out[n.nc]), Quiet);
            y.exit.None? ==> n.ns <= |y.box.out| && Rank(Net(y, n.s, n.nc + 1, n.ns)) < Rank(n)
  {
    var r := Receive(n.c, env, n.s.box.out[n.nc], Quiet);
    QuietPass(n.c, env, n.s.box.out[n.nc]);
    if r.exit.None? { ClientFalls(n, env, r); }
  }

  lemma ServerReadingFalls(n: Net, env: Negotiation)
    requires Inv(n, env) && Settled(n.s) && n.ns < |n.c.box.out|
    ensures var y := Iterate(n.s, env, Some(n.c.box.out[n.ns]), Quiet);
            y.exit.None? ==> n.nc <= |y.box.out| && Rank(Net(n.c, y, n.nc, n.ns + 1)) < Rank(n)
  {
    var r := Receive(n.s, env, n.c.box.out[n.ns], Quiet);
    QuietPass(n.s, env, n.c.box.out[n.ns]);
    if r.exit.None? { ServerFalls(n, env, r); }
  }

  /** A pass that only reads, and finds something to read, brings the end nearer. */
  lemma ReadingFalls(n: Net, env: Negotiation, client: bool)
    requires Sound(n, env) && Running(n) && Unread(n, client)
    ensures Bounded(n)
    ensures var m := Step(n, env, Reads(client)); Running(m) ==> Bounded(m) && Rank(m) < Rank(n)
  {
    if client {
      var y := Iterate(n.c, env, Some(n.s.box.out[n.nc]), Quiet);
      StepReads(n, env, client, y);
      ClientReadingFalls(n, env);
    } else {
      var y := Iterate(n.s, env, Some(n.c.box.out[n.ns]), Quiet);
      StepReads(n, env, client, y);
      ServerReadingFalls(n, env);
    }
  }

  function Readings(cs: seq<bool>): seq<Turn>
  {
    if cs == [] then [] else Readings(cs[..|cs| - 1]) + [Reads(cs[|cs| - 1])]
  }

  /** Reading in the order cs, until nothing is there to be read or an end has exited. */
  function Drained(n: Net, env: Negotiation, cs: seq<bool>): Net
    decreases |cs|
  {
    if cs == [] then n else Step(Drained(n, env, cs[..|cs| - 1]), env, Reads(cs[|cs| - 1]))
  }

  lemma {:induction false} DrainedIsRun(n: Net, env: Negotiation, cs: seq<bool>)
    ensures Drained(n, env, cs) == Run(n, env, Readings(cs))
    decreases |cs|
  {
    if cs != [] {
      DrainedIsRun(n, env, cs[..|cs| - 1]);
      RunNext(n, env, Readings(cs[..|cs| - 1]), Reads(cs[|cs| - 1]));
    }
  }

  /** Every one of the readings finds a packet. */
  ghost predicate Finding(n: Net, env: Negotiation, cs: seq<bool>)
  {
    forall i :: 0 <= i < |cs| ==> Running(Drained(n, env, cs[..i])) && Unread(Drained(n, env, cs[..i]), cs[i])
  }

  /** Nothing is on its way or held back, and no exchange is in progress. */
  predicate AtRest(n: Net)
  {
    && n.nc == |n.s.box.out| && n.ns == |n.c.box.out| && n.c.box.queue == [] && n.s.box.queue == []
    && n.c.kex == NoKex && n.s.kex == NoKex && n.c.trans == n.s.recv && n.s.trans == n.c.recv
  }

  lemma {:induction false} DrainedIsSound(n: Net, env: Negotiation, cs: seq<bool>)
    requires Sound(n, env)
    ensures Sound(Drained(n, env, cs), env)
    decreases |cs|
  {
    if cs != [] {
      DrainedIsSound(n, env, cs[..|cs| - 1]);
      StepIsSound(Drained(n, env, cs[..|cs| - 1]), env, Reads(cs[|cs| - 1]));
    }
  }

  lemma FallsOnce(n: Net, env: Negotiation, client: bool, read: nat, bound: nat)
    requires Sound(n, env) && Running(n) && Unread(n, client) && Bounded(n) && Rank(n) + read <= bound
    ensures var m := Step(n, env, Reads(client));
            read + 1 <= bound && (Running(m) ==> Bounded(m) && Rank(m) + read + 1 <= bound)
  {
    ReadingFalls(n, env, client);
    RankIsPositive(n, client);
  }

  lemma RankIsPositive(n: Net, client: bool)
    requires Bounded(n) && Unread(n, client)
    ensures Rank(n) > 0
  {
  }

  /** In any order, no more packets can be read than the rank of the state says. */
  lemma {:induction false} ReadingEnds(n: Net, env: Negotiation, cs: seq<bool>)
    requires Sound(n, env) && Running(n) && Finding(n, env, cs)
    ensures Bounded(n) && |cs| <= Rank(n)
    ensures var m := Drained(n, env, cs); Running(m) ==> Bounded(m) && Rank(m) + |cs| <= Rank(n)
    decreases |cs|
  {
    SoundIsBounded(n, env);
    if cs != [] {
      var front, last := cs[..|cs| - 1], cs[|cs| - 1];
      FindingFront(n, env, cs);
      ReadingEnds(n, env, front);
      DrainedIsSound(n, env, front);
      FallsOnce(Drained(n, env, front), env, last, |front|, Rank(n));
    }
  }

  lemma FindingFront(n: Net, env: Negotiation, cs: seq<bool>)
    requires Finding(n, env, cs) && cs != []
    ensures var front := cs[..|cs| - 1];
            && Finding(n, env, front)
            && Running(Drained(n, env, front)) && Unread(Drained(n, env, front), cs[|cs| - 1])
  {
    var front := cs[..|cs| - 1];
    forall i | 0 <= i < |front|
      ensures Running(Drained(n, env, front[..i])) && Unread(Drained(n, env, front[..i]), front[i])
    {
      assert front[..i] == cs[..i] && front[i] == cs[i];
    }
  }

  lemma DrainedRests(n: Net, env: Negotiation)
    requires Sound(n, env) && Running(n) && Trustworthy(env) && !Unread(n, true) && !Unread(n, false)
    ensures AtRest(n)
  {
    DrainedIsIdle(n, env);
    InvIs(n, env);
    assert Pending(n.c.box.out, n.ns) == [] && Pending(n.s.box.out, n.nc) == [];
  }

  /** Reading goes on until both ends are at rest, if neither exits. */
  lemma {:induction false} ComesToRest(n: Net, env: Negotiation, cs: seq<bool>) returns (ds: seq<bool>)
    requires Sound(n, env) && Running(n) && Trustworthy(env) && Finding(n, env, cs)
    ensures cs <= ds && Finding(n, env, ds)
    ensures var m := Drained(n, env, ds); Running(m) ==> AtRest(m)
    decreases if Bounded(n) then Rank(n) - |cs| else 0
  {
    var m := Drained(n, env, cs);
    ReadingEnds(n, env, cs);
    DrainedIsSound(n, env, cs);
    ds := cs;
    if Running(m) && !Unread(m, true) && !Unread(m, false) {
      DrainedRests(m, env);
    } else if Running(m) {
      var client := Unread(m, true);
      FindingMore(n, env, cs, client);
      ReadingEnds(n, env, cs + [client]);
      ds := ComesToRest(n, env, cs + [client]);
    }
  }

  lemma FindingMore(n: Net, env: Negotiation, cs: seq<bool>, client: bool)
    requires Finding(n, env, cs) && Running(Drained(n, env, cs)) && Unread(Drained(n, env, cs), client)
    ensures Finding(n, env, cs + [client])
  {
    var ds := cs + [client];
    forall i | 0 <= i < |ds| ensures Running(Drained(n, env, ds[..i])) && Unread(Drained(n, env, ds[..i]), ds[i]) {
      assert ds[..i] == if i < |cs| then cs[..i] else cs;
    }
  }

  /**
   * After any run reading can always go on to a state of rest: no exchange in progress, no packet
   * held back or on its way, and the keys of both directions matched, unless an end exits.
   */
  lemma EveryExchangeFinishes(env: Negotiation, ci: nat, si: nat, e: nat, ts: seq<Turn>) returns (cs: seq<bool>)
    requires Coherent(env) && Trustworthy(env) && Legal(ts)
    ensures var n := Run(Start(env, ci, si, e), env, ts);
            Running(n) ==>
              && Finding(n, env, cs) && Bounded(n) && |cs| <= Rank(n)
              && var m := Run(n, env, Readings(cs)); Running(m) ==> AtRest(m)
  {
    var n := Run(Start(env, ci, si, e), env, ts);
    RunsAreSound(env, ci, si, e, ts);
    cs := [];
    if Running(n) {
      cs := ComesToRest(n, env, []);
      ReadingEnds(n, env, cs);
      DrainedIsRun(n, env, cs);
    }
  }

  /** And whatever the order, it gets there as soon as there is nothing left to read. */
  lemma AnyReadingFinishes(env: Negotiation, ci: nat, si: nat, e: nat, ts: seq<Turn>, cs: seq<bool>)
    requires Coherent(env) && Trustworthy(env) && Legal(ts)
    ensures var n := Run(Start(env, ci, si, e), env, ts);
            Running(n) && Finding(n, env, cs) ==>
              && Bounded(n) && |cs| <= Rank(n)
              && var m := Run(n, env, Readings(cs));
                 Running(m) && !Unread(m, true) && !Unread(m, false) ==> AtRest(m)
  {
    var n := Run(Start(env, ci, si, e), env, ts);
    RunsAreSound(env, ci, si, e, ts);
    if Running(n) && Finding(n, env, cs) {
      ReadingEnds(n, env, cs);
      DrainedIsRun(n, env, cs);
      var m := Drained(n, env, cs);
      DrainedIsSound(n, env, cs);
      if Running(m) && !Unread(m, true) && !Unread(m, false) { DrainedRests(m, env); }
    }
  }

  // ---- exactly when ----

  /** Reading alone can bring both ends to rest, or makes one of them exit. */
  ghost predicate CanFinish(n: Net, env: Negotiation)
  {
    exists cs :: Finding(n, env, cs) && Settles(Run(n, env, Readings(cs)))
  }

  predicate Settles(n: Net) { n.c.exit.None? && n.s.exit.None? ==> AtRest(n) }

  ghost predicate Finishing(env: Negotiation)
  {
    forall ci: nat, si: nat, e: nat, ts ::
      Legal(ts) && Running(Run(Start(env, ci, si, e), env, ts)) ==> CanFinish(Run(Start(env, ci, si, e), env, ts), env)
  }

  lemma FindsFirst(n: Net, env: Negotiation, cs: seq<bool>)
    requires Finding(n, env, cs)
    ensures cs == [] || Unread(n, cs[0])
  {
    if cs != [] {
      assert cs[..0] == [];
      assert Drained(n, env, cs[..0]) == n;
      assert Unread(Drained(n, env, cs[..0]), cs[0]);
    }
  }

  lemma StalledCannotFinish(n: Net, env: Negotiation)
    requires Stalled(n)
    ensures !CanFinish(n, env)
  {
    forall cs | Finding(n, env, cs) ensures !Settles(Run(n, env, Readings(cs))) {
      FindsFirst(n, env, cs);
      assert Readings([]) == [];
    }
  }

  /** From every reachable state the exchange can be finished exactly if the client trusts no guess that is thrown away. */
  lemma FinishesExactly(env: Negotiation)
    requires Coherent(env)
    ensures Finishing(env) <==> Trustworthy(env)
  {
    if Trustworthy(env) {
      forall ci: nat, si: nat, e: nat, ts | Legal(ts) && Running(Run(Start(env, ci, si, e), env, ts))
        ensures CanFinish(Run(Start(env, ci, si, e), env, ts), env)
      {
        var cs := EveryExchangeFinishes(env, ci, si, e, ts);
        assert Settles(Run(Run(Start(env, ci, si, e), env, ts), env, Readings(cs)));
      }
    } else {
      var ci: nat, si: nat :| env.clientGood(ci, si) && !env.serverGood(ci, si);
      var ts := [Reads(true), Reads(false), Reads(false)];
      DoubtedGuessStalls(env, ci, si, 0);
      ThreeReadsAreLegal();
      StalledCannotFinish(Run(Start(env, ci, si, 0), env, ts), env);
    }
  }
}
