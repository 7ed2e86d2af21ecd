/**
 * What the callers of encrypt_packet submit is what goes out: every pass of the main loop sends
 * or holds back, in order, what checktimeouts, the handler of the packet read and the channels
 * hand it, and adds nothing but key exchange packets and one answer of its own.
 */
module Submissions {
  import opened Options
  import opened KeyExchange
  import opened WireLog
  import opened Rekeying
  import L = LogGrowth

  // ---- the two kinds of packets ----

  /** What may be sent during a key exchange is exactly what section 7.1 of RFC 4253 allows: all below 50 but 5, 6 and 20. */
  lemma DeferralIsRfc(typ: int)
    requires 1 <= typ <= 255
    ensures OkayDuringKex(typ) <==> PermittedDuringKex(typ)
    ensures OkayDuringKex(typ) <==> typ < 50 && typ !in {5, 6, 20}
  {
  }

  /** Those that must wait for a key exchange to end, in order. */
  function Waiting(ps: seq<Payload>): seq<Payload>
  {
    if ps == [] then []
    else Waiting(ps[..|ps| - 1]) + if OkayDuringKex(ps[|ps| - 1].typ) then [] else [ps[|ps| - 1]]
  }

  /** And those that need not. */
  function Prompt(ps: seq<Payload>): seq<Payload>
  {
    if ps == [] then []
    else Prompt(ps[..|ps| - 1]) + if OkayDuringKex(ps[|ps| - 1].typ) then [ps[|ps| - 1]] else []
  }

  /** The packets of a log that belong to no key exchange and need not wait for one. */
  function PromptSent(out: seq<Wire>): seq<Payload>
  {
    if out == [] then []
    else
      var w := out[|out| - 1];
      PromptSent(out[..|out| - 1]) + if w.body.Plain? && OkayDuringKex(w.typ) then [Payload(w.typ, w.body)] else []
  }

  lemma PromptSentAppend(out: seq<Wire>, w: Wire)
    ensures PromptSent(out + [w])
         == PromptSent(out) + if w.body.Plain? && OkayDuringKex(w.typ) then [Payload(w.typ, w.body)] else []
  {
    assert (out + [w])[..|out|] == out;
  }

  lemma {:induction false} WaitingConcat(ps: seq<Payload>, qs: seq<Payload>)
    ensures Waiting(ps + qs) == Waiting(ps) + Waiting(qs) && Prompt(ps + qs) == Prompt(ps) + Prompt(qs)
    decreases |qs|
  {
    if qs == [] {
      assert ps + qs == ps;
    } else {
      var front, q := qs[..|qs| - 1], qs[|qs| - 1];
      WaitingConcat(ps, front);
      assert ps + qs == (ps + front) + [q];
      assert ((ps + front) + [q])[..|ps + front|] == ps + front;
    }
  }

  // ---- what a step adds ----

  /** Only packets that must wait are held back. */
  predicate Held(x: Endpoint) { forall p <- x.box.queue :: !OkayDuringKex(p.typ) }

  /** From x to y the packets of `later` have been put in line and those of `now` are on the wire. */
  predicate Adds(x: Endpoint, y: Endpoint, later: seq<Payload>, now: seq<Payload>)
  {
    && y.box.asked == x.box.asked + later && PromptSent(y.box.out) == PromptSent(x.box.out) + now
    && (Held(x) ==> Held(y))
  }

  lemma AddsOn(x: Endpoint, y: Endpoint, z: Endpoint, a: seq<Payload>, b: seq<Payload>, c: seq<Payload>, d: seq<Payload>)
    requires Adds(x, y, a, b) && Adds(y, z, c, d)
    ensures Adds(x, z, a + c, b + d)
  {
    assert (x.box.asked + a) + c == x.box.asked + (a + c);
    assert (PromptSent(x.box.out) + b) + d == PromptSent(x.box.out) + (b + d);
  }

  lemma NothingAdded(x: Endpoint, y: Endpoint)
    requires y.box == x.box
    ensures Adds(x, y, [], [])
  {
  }

  lemma SubmitAdds(x: Endpoint, p: Payload)
    requires p.body.Plain?
    ensures Adds(x, Submit(x, p), Waiting([p]), Prompt([p]))
  {
    PromptSentAppend(x.box.out, Wire(p.typ, p.body, x.trans));
    assert [p][..0] == [];
  }

  lemma {:induction false} SubmitAllAdds(x: Endpoint, ps: seq<Payload>)
    requires Applications(ps)
    ensures Adds(x, SubmitAll(x, ps), Waiting(ps), Prompt(ps))
    decreases |ps|
  {
    if ps == [] {
      NothingAdded(x, SubmitAll(x, ps));
    } else {
      var front, p := ps[..|ps| - 1], ps[|ps| - 1];
      var y := SubmitAll(x, front);
      SubmitAllAdds(x, front);
      SubmitAdds(y, p);
      AddsOn(x, y, Submit(y, p), Waiting(front), Prompt(front), Waiting([p]), Prompt([p]));
      WaitingConcat(front, [p]);
      assert front + [p] == ps && SubmitAll(x, ps).box == Submit(y, p).box;
    }
  }

  lemma {:induction false} SealedAdds(out: seq<Wire>, ps: seq<Payload>, key: Key)
    requires forall p <- ps :: !OkayDuringKex(p.typ)
    ensures PromptSent(out + Sealed(ps, key)) == PromptSent(out)
    decreases |ps|
  {
    if ps == [] {
      assert out + Sealed(ps, key) == out;
    } else {
      var front, p := ps[..|ps| - 1], ps[|ps| - 1];
      SealedAdds(out, front, key);
      PromptSentAppend(out + Sealed(front, key), Wire(p.typ, p.body, key));
      assert out + Sealed(ps, key) == (out + Sealed(front, key)) + [Wire(p.typ, p.body, key)];
    }
  }

  lemma FlushAdds(x: Endpoint)
    requires Held(x)
    ensures Adds(x, Flush(x), [], [])
  {
    SealedAdds(x.box.out, x.box.queue, x.trans);
  }

  // ---- process_packet, number by number ----

  /** The types with a handler that is not part of the key exchange (ssh.h). */
  predicate Application(server: bool, typ: int)
  {
    if server then typ in {5, 50, 80, 81, 82, 90, 91, 92, 93, 94, 96, 97, 98, 99, 100}
    else typ in {6, 7, 51, 52, 53, 60, 80, 81, 82, 90, 91, 92, 93, 94, 95, 96, 97, 98, 99, 100}
  }

  /** The packet gets past every check: before authentication that takes a type of at most 60. */
  predicate Reaches(x: Endpoint, w: Wire)
  {
    && w.key == x.recv && Application(x.server, w.typ)
    && (x.requireNext == 0 || x.requireNext == w.typ) && !x.ignoreNext && (x.authDone || w.typ <= 60)
  }

  /** Then its handler runs, and sends what it likes. */
  lemma HandlerRuns(x: Endpoint, env: Negotiation, w: Wire, inp: Input)
    requires x.exit.None? && Reaches(x, w)
    ensures Receive(x, env, w, inp)
         == SubmitAll(x.(requireNext := 0, authDone := x.authDone || inp.authNow), inp.replies).(lastPacket := w.typ)
  {
    assert Handled(x.server, w.typ);
  }

  /** Before authentication any type above 60 ends the session. */
  lemma TooEarlyExits(x: Endpoint, env: Negotiation, w: Wire, inp: Input)
    requires x.exit.None? && w.key == x.recv && w.typ > 60 && !x.authDone && !x.ignoreNext && x.requireNext == 0
    ensures var y := Receive(x, env, w, inp); y.exit == Some(BeforeUserauth) && y.box == x.box
  {
  }

  /** A type that no handler takes gets one answer, of type 3; types 2, 3 and 4 get none and 1 ends the session. */
  lemma OthersAnswered(x: Endpoint, env: Negotiation, w: Wire, inp: Input)
    requires x.exit.None? && w.key == x.recv && w.body.Plain? && !x.ignoreNext && x.requireNext == 0
    requires WellTyped(w.typ, w.body) && !Application(x.server, w.typ) && (x.authDone || w.typ <= 60)
    ensures var y := Receive(x, env, w, inp);
            if w.typ == 1 then y == x.(exit := Some(Disconnected))
            else if w.typ in {2, 3, 4} then y == x.(lastPacket := w.typ)
            else y == Submit(x, Payload(3, Plain(inp.msg))).(lastPacket := w.typ)
  {
    assert !Handled(x.server, w.typ);
  }

  /** While a type is required, 5, 6, 20 and those from 50 up end the session and the rest get that answer. */
  lemma OutOfTurn(x: Endpoint, env: Negotiation, w: Wire, inp: Input)
    requires x.exit.None? && w.key == x.recv && w.typ !in {1, 2, 3, 4} && x.requireNext != 0 && x.requireNext != w.typ
    ensures var y := Receive(x, env, w, inp);
            if 7 <= w.typ <= 49 && w.typ != 20 then y == Submit(x, Payload(3, Plain(inp.msg))).(lastPacket := w.typ)
            else y == x.(exit := Some(UnexpectedPacketType))
  {
  }

  // ---- one packet ----

  /** The packets that the handler of an arrival submits. */
  function Replies(x: Endpoint, w: Wire, inp: Input): seq<Payload> { if Reaches(x, w) then inp.replies else [] }

  function Unimplemented(msg: nat): Payload { Payload(3, Plain(msg)) }

  lemma HandlerAdds(x: Endpoint, env: Negotiation, w: Wire, inp: Input)
    requires x.exit.None? && Reaches(x, w) && Applications(inp.replies)
    ensures Adds(x, Receive(x, env, w, inp), Waiting(inp.replies), Prompt(inp.replies))
  {
    HandlerRuns(x, env, w, inp);
    SubmitAllAdds(x.(requireNext := 0, authDone := x.authDone || inp.authNow), inp.replies);
  }

  /** One answer at most, whatever stops the packet. */
  lemma AnsweredOnce(x: Endpoint, env: Negotiation, w: Wire, inp: Input)
    requires x.exit.None? && WellTyped(w.typ, w.body) && w.body.Plain? && !Reaches(x, w)
    ensures var r := Receive(x, env, w, inp);
            r.box == x.box || r.box == Submit(x, Unimplemented(inp.msg)).box
  {
    if w.key == x.recv && w.typ !in {1, 2, 3, 4} {
      if x.requireNext != 0 && x.requireNext != w.typ {
        OutOfTurn(x, env, w, inp);
      } else if x.ignoreNext {
      } else if !x.authDone && w.typ > 60 {
        EarlyKeepsBox(x, env, w, inp);
      } else {
        UnknownAnswered(x, env, w, inp);
      }
    }
  }

  lemma EarlyKeepsBox(x: Endpoint, env: Negotiation, w: Wire, inp: Input)
    requires x.exit.None? && w.key == x.recv && w.typ > 60 && !x.authDone && !x.ignoreNext
    requires x.requireNext == 0 || x.requireNext == w.typ
    ensures Receive(x, env, w, inp).box == x.box
  {
  }

  lemma UnknownAnswered(x: Endpoint, env: Negotiation, w: Wire, inp: Input)
    requires x.exit.None? && w.key == x.recv && WellTyped(w.typ, w.body) && w.body.Plain? && !x.ignoreNext
    requires (x.requireNext == 0 || x.requireNext == w.typ) && (x.authDone || w.typ <= 60)
    requires w.typ !in {1, 2, 3, 4} && !Application(x.server, w.typ)
    ensures Receive(x, env, w, inp).box == Submit(x, Unimplemented(inp.msg)).box
  {
    assert !Handled(x.server, w.typ);
  }

  lemma AnswerAdds(x: Endpoint, r: Endpoint, msg: nat)
    requires r.box == Submit(x, Unimplemented(msg)).box
    ensures Adds(x, r, [], [Unimplemented(msg)])
  {
    var u := Unimplemented(msg);
    SubmitAdds(x, u);
    assert [u][..0] == [];
    assert Prompt([u]) == [u] && Waiting([u]) == [];
  }

  /** An ordinary packet: what its handler submits, or at most one answer. */
  lemma PlainAdds(x: Endpoint, env: Negotiation, w: Wire, inp: Input) returns (ans: seq<Payload>)
    requires x.exit.None? && WellTyped(w.typ, w.body) && w.body.Plain? && Applications(inp.replies)
    ensures ans == [] || (ans == [Unimplemented(inp.msg)] && !Reaches(x, w))
    ensures Adds(x, Receive(x, env, w, inp), Waiting(Replies(x, w, inp)), ans + Prompt(Replies(x, w, inp)))
  {
    var r := Receive(x, env, w, inp);
    ans := [];
    if Reaches(x, w) {
      HandlerAdds(x, env, w, inp);
      assert [] + Prompt(inp.replies) == Prompt(inp.replies);
    } else {
      AnsweredOnce(x, env, w, inp);
      if r.box == x.box {
        NothingAdded(x, r);
      } else {
        ans := [Unimplemented(inp.msg)];
        AnswerAdds(x, r, inp.msg);
        assert ans + [] == ans;
      }
    }
  }

  // ---- key exchange packets ----

  lemma OpensAdds(x: Endpoint, env: Negotiation, id: nat, e: nat)
    ensures Adds(x, Opens(x, env, id, e), [], [])
  {
    var w := Wire(KEXINIT, Init(id, Guesses(x, env)), x.trans);
    PromptSentAppend(x.box.out, w);
    PromptSentAppend(x.box.out + [w], Wire(KEXDH_INIT, DhInit(Ephemeral(x.kex, env.firstAlgo, e).e), x.trans));
  }

  lemma ConfirmsAdds(c: Endpoint, key: Key)
    requires c.kex.pending.Some?
    ensures Adds(c, Confirms(c, key), [], [])
  {
    PromptSentAppend(c.box.out, Wire(NEWKEYS, NewKeys, c.trans));
  }

  lemma TriesAdds(c: Endpoint, e: nat)
    requires c.kex.pending.Some?
    ensures Adds(c, Tries(c, e), [], [])
  {
    PromptSentAppend(c.box.out, Wire(KEXDH_INIT, DhInit(Ephemeral(c.kex, c.kex.pending.value.algo, e).e), c.trans));
  }

  /** The reply and NEWKEYS, and perhaps EXT_INFO, which is of type 7. */
  lemma AnswersAdds(s: Endpoint, e: nat, f: nat, ext: bool, msg: nat) returns (ans: seq<Payload>)
    requires s.kex.hash.Some? && s.kex.pending.Some?
    ensures ans == if ext && !s.doneFirst && !s.doneSecond then [Payload(7, Plain(msg))] else []
    ensures Answers(s, e, f, ext, msg).doneFirst
    ensures Adds(s, Answers(s, e, f, ext, msg), [], ans)
  {
    var key := AgreedKey(s.kex, e, f);
    var w, v := Wire(KEXDH_REPLY, DhReply(f, key), s.trans), Wire(NEWKEYS, NewKeys, s.trans);
    PromptSentAppend(s.box.out, w);
    PromptSentAppend(s.box.out + [w], v);
    PromptSentAppend(s.box.out + [w] + [v], Wire(7, Plain(msg), key));
    ans := if !(s.doneSecond || s.doneFirst) && ext then [Payload(7, Plain(msg))] else [];
  }

  lemma LoopAdds(c: Endpoint, env: Negotiation, e: nat)
    requires Local(c, env) && !c.server
    requires PhaseOf(c.kex) == Done && c.kex.initSent ==> c.lastPacket != 0 && c.lastPacket != KEXINIT
    ensures Adds(c, LoopHandler(c, e), [], [])
  {
    LoopHandlerCases(c, env, e);
    if PhaseOf(c.kex) == Both && !c.kex.initSent && !c.kex.firstMatches { TriesAdds(c, e); }
  }

  /** When it is time to rekey and no exchange is in progress, KEXINIT is the next packet out, under the present key. */
  lemma RekeyStarts(x: Endpoint, env: Negotiation, inp: Input)
    requires x.dataAllowed && !x.kex.sentKexinit && inp.rekey && LegalInput(inp)
    ensures var b, n := Begin(x, env, inp), |x.box.out|;
            && x.box.out <= b.box.out && n < |b.box.out|
            && b.box.out[n] == Wire(20, Init(inp.id, !x.server && env.guesses), x.trans)
            && b.kex.sentKexinit && !b.dataAllowed
  {
    SendKexinitOpens(x, env, inp.id, inp.e);
    L.SubmitAllAdds(Opens(x, env, inp.id, inp.e), inp.early);
  }

  /** KEXINIT read, ours having gone out first if need be. */
  lemma InitAdds(x: Endpoint, env: Negotiation, body: Body, id: nat, e: nat)
    requires body.Init?
    ensures var y := if PhaseOf(x.kex) == Idle then Opens(x, env, id, e) else x; Adds(x, TakesKexinit(y, env, body), [], [])
  {
    var y := if PhaseOf(x.kex) == Idle then Opens(x, env, id, e) else x;
    assert TakesKexinit(y, env, body).box == y.box;
    OpensAdds(x, env, id, e);
  }

  lemma KexHasNoReplies(x: Endpoint, w: Wire, inp: Input)
    requires WellTyped(w.typ, w.body) && !w.body.Plain?
    ensures Replies(x, w, inp) == []
  {
  }

  lemma ClientInitAdds(n: Net, env: Negotiation, inp: Input)
    requires Inv(n, env) && n.nc < |n.s.box.out| && n.s.box.out[n.nc].body.Init?
    ensures Adds(n.c, Receive(n.c, env, n.s.box.out[n.nc], inp), [], [])
  {
    InvIs(n, env);
    NextForClient(n, env);
    ClientAcceptsKexinit(n, env, inp.id, inp.e);
    ReceiveInit(n.c, env, n.s.box.out[n.nc], inp);
    InitAdds(n.c, env, n.s.box.out[n.nc].body, inp.id, inp.e);
  }

  lemma ClientReplyAdds(n: Net, env: Negotiation, inp: Input)
    requires Inv(n, env) && Settled(n.c) && n.nc < |n.s.box.out| && n.s.box.out[n.nc].body.DhReply?
    ensures Adds(n.c, Receive(n.c, env, n.s.box.out[n.nc], inp), [], [])
  {
    InvIs(n, env);
    NextForClient(n, env);
    ClientReadsReply(n, env);
    ReceiveReply(n.c, env, n.s.box.out[n.nc], inp);
    ConfirmsAdds(n.c, n.s.box.out[n.nc].body.signed);
  }

  lemma ClientNewkeysAdds(n: Net, env: Negotiation, inp: Input)
    requires Inv(n, env) && Settled(n.c) && n.nc < |n.s.box.out| && n.s.box.out[n.nc].body.NewKeys?
    ensures Adds(n.c, Receive(n.c, env, n.s.box.out[n.nc], inp), [], [])
  {
    InvIs(n, env);
    NextForClient(n, env);
    ClientReadsNewkeys(n, env);
    ReceiveNewkeys(n.c, env, n.s.box.out[n.nc], inp);
  }

  lemma ServerInitAdds(n: Net, env: Negotiation, inp: Input)
    requires Inv(n, env) && n.ns < |n.c.box.out| && n.c.box.out[n.ns].body.Init?
    ensures Adds(n.s, Receive(n.s, env, n.c.box.out[n.ns], inp), [], [])
  {
    InvIs(n, env);
    NextForServer(n, env);
    ServerAcceptsKexinit(n, env, inp.id, inp.e);
    ReceiveInit(n.s, env, n.c.box.out[n.ns], inp);
    InitAdds(n.s, env, n.c.box.out[n.ns].body, inp.id, inp.e);
  }

  lemma ServerDhInitAdds(n: Net, env: Negotiation, inp: Input) returns (ans: seq<Payload>)
    requires Inv(n, env) && n.ns < |n.c.box.out| && n.c.box.out[n.ns].body.DhInit?
    ensures ans in {[], [Unimplemented(inp.msg)], [Payload(7, Plain(inp.msg))]}
    ensures Adds(n.s, Receive(n.s, env, n.c.box.out[n.ns], inp), [], ans)
  {
    InvIs(n, env);
    var w := n.c.box.out[n.ns];
    NextForServer(n, env);
    ans := [];
    if PhaseOf(n.s.kex) == Done {
      ReceiveStray(n.s, env, w, inp);
      ans := [Unimplemented(inp.msg)];
      AnswerAdds(n.s, TurnsDown(n.s, inp.msg), inp.msg);
    } else {
      ReceiveDhInit(n.s, env, w, inp);
      if !n.s.ignoreNext { ans := AnswersAdds(n.s, w.body.e, inp.f, inp.extInfo, inp.msg); }
    }
  }

  lemma ServerNewkeysAdds(n: Net, env: Negotiation, inp: Input)
    requires Inv(n, env) && n.ns < |n.c.box.out| && n.c.box.out[n.ns].body.NewKeys?
    ensures Adds(n.s, Receive(n.s, env, n.c.box.out[n.ns], inp), [], [])
  {
    InvIs(n, env);
    NextForServer(n, env);
    ServerReadsNewkeys(n, env);
    ReceiveNewkeys(n.s, env, n.c.box.out[n.ns], inp);
  }

  /** What one packet makes the client add. */
  lemma ClientReadAdds(n: Net, env: Negotiation, inp: Input) returns (ans: seq<Payload>)
    requires Inv(n, env) && Settled(n.c) && n.nc < |n.s.box.out| && Applications(inp.replies)
    ensures |ans| <= 1 && (ans != [] ==> !Reaches(n.c, n.s.box.out[n.nc]))
    ensures var w := n.s.box.out[n.nc];
            Adds(n.c, Receive(n.c, env, w, inp), Waiting(Replies(n.c, w, inp)), ans + Prompt(Replies(n.c, w, inp)))
  {
    var w := n.s.box.out[n.nc];
    NextForClient(n, env);
    if w.body.Plain? {
      ans := PlainAdds(n.c, env, w, inp);
    } else {
      ans := [];
      KexHasNoReplies(n.c, w, inp);
      if w.body.Init? {
        ClientInitAdds(n, env, inp);
      } else if w.body.DhReply? {
        ClientReplyAdds(n, env, inp);
      } else {
        ClientNewkeysAdds(n, env, inp);
      }
    }
  }

  lemma ServerReadAdds(n: Net, env: Negotiation, inp: Input) returns (ans: seq<Payload>)
    requires Inv(n, env) && n.ns < |n.c.box.out| && Applications(inp.replies)
    ensures |ans| <= 1 && (ans != [] ==> !Reaches(n.s, n.c.box.out[n.ns]))
    ensures var w := n.c.box.out[n.ns];
            Adds(n.s, Receive(n.s, env, w, inp), Waiting(Replies(n.s, w, inp)), ans + Prompt(Replies(n.s, w, inp)))
  {
    var w := n.c.box.out[n.ns];
    NextForServer(n, env);
    if w.body.Plain? {
      ans := PlainAdds(n.s, env, w, inp);
    } else {
      ans := [];
      KexHasNoReplies(n.s, w, inp);
      if w.body.Init? {
        ServerInitAdds(n, env, inp);
      } else if w.body.DhInit? {
        ans := ServerDhInitAdds(n, env, inp);
      } else {
        ServerNewkeysAdds(n, env, inp);
      }
    }
    assert ans + [] == ans;
  }

  lemma ServerAcceptsKexinit(n: Net, env: Negotiation, id: nat, e: nat)
    requires Inv(n, env) && n.ns < |n.c.box.out| && n.c.box.out[n.ns].body.Init? && PhaseOf(n.s.kex) in {Idle, Sent}
    ensures var y := if PhaseOf(n.s.kex) == Idle then Opens(n.s, env, id, e) else n.s;
            TakesKexinit(y, env, n.c.box.out[n.ns].body).exit.None?
  {
    InvIs(n, env);
    if PhaseOf(n.s.kex) == Idle {
      ServerSendsKexinit(n, env, id, e);
      ServerReadsInit(n.(s := Opens(n.s, env, id, e)), env);
    } else {
      ServerReadsInit(n, env);
    }
  }

  // ---- a whole pass ----

  /** Everything submitted in one pass: by checktimeouts, by the handler that ran, and by the channels unless the pass has ended. */
  function Submitted(x: Endpoint, env: Negotiation, arrival: Option<Wire>, inp: Input): seq<Payload>
  {
    inp.early + After(x, env, arrival, inp)
  }

  function After(x: Endpoint, env: Negotiation, arrival: Option<Wire>, inp: Input): seq<Payload>
  {
    var b := Begin(x, env, inp);
    match arrival
    case None => inp.late
    case Some(w) => Replies(b, w, inp) + if Receive(b, env, w, inp).exit.Some? then [] else inp.late
  }

  lemma InvHolds(n: Net, env: Negotiation)
    requires Inv(n, env)
    ensures Held(n.c) && Held(n.s)
  {
    InvIs(n, env);
  }

  /** A pass adds what was submitted, and at most one answer behind what checktimeouts sent. */
  predicate PassAdds(x: Endpoint, y: Endpoint, env: Negotiation, arrival: Option<Wire>, inp: Input, ans: seq<Payload>)
  {
    && |ans| <= 1
    && Adds(x, y, Waiting(Submitted(x, env, arrival, inp)), Prompt(inp.early) + ans + Prompt(After(x, env, arrival, inp)))
  }

  lemma ClientBeginAdds(n: Net, env: Negotiation, inp: Input)
    requires Inv(n, env) && Settled(n.c) && LegalInput(inp)
    ensures Adds(n.c, Begin(n.c, env, inp), Waiting(inp.early), Prompt(inp.early))
  {
    InvIs(n, env);
    var y := if inp.rekey then Rekey(n.c, env, inp.id, inp.e) else n.c;
    if y != n.c {
      SendKexinitOpens(n.c, env, inp.id, inp.e);
      OpensAdds(n.c, env, inp.id, inp.e);
    }
    BeginAdds(n.c, y, inp);
  }

  lemma ServerBeginAdds(n: Net, env: Negotiation, inp: Input)
    requires Inv(n, env) && Settled(n.s) && LegalInput(inp)
    ensures Adds(n.s, Begin(n.s, env, inp), Waiting(inp.early), Prompt(inp.early))
  {
    InvIs(n, env);
    var y := if inp.rekey then Rekey(n.s, env, inp.id, inp.e) else n.s;
    if y != n.s {
      SendKexinitOpens(n.s, env, inp.id, inp.e);
      OpensAdds(n.s, env, inp.id, inp.e);
    }
    BeginAdds(n.s, y, inp);
  }

  lemma BeginAdds(x: Endpoint, y: Endpoint, inp: Input)
    requires (y == x || Adds(x, y, [], [])) && LegalInput(inp)
    ensures Adds(x, SubmitAll(y, inp.early), Waiting(inp.early), Prompt(inp.early))
  {
    if y == x { NothingAdded(x, y); }
    SubmitAllAdds(y, inp.early);
    AddsOn(x, y, SubmitAll(y, inp.early), [], [], Waiting(inp.early), Prompt(inp.early));
    assert [] + Waiting(inp.early) == Waiting(inp.early) && [] + Prompt(inp.early) == Prompt(inp.early);
  }

  /** The end of a pass: h is the state behind the loop handler. */
  lemma FinishAdds(r: Endpoint, h: Endpoint, inp: Input)
    requires Held(r) && Adds(Flush(r), h, [], []) && LegalInput(inp)
    ensures Adds(r, SubmitAll(h, inp.late), Waiting(inp.late), Prompt(inp.late))
  {
    FlushAdds(r);
    AddsOn(r, Flush(r), h, [], [], [], []);
    BeginAdds(r, h, inp.(early := inp.late));
  }

  lemma ClientFinishAdds(n: Net, env: Negotiation, inp: Input)
    requires Inv(n, env) && LegalInput(inp)
    requires PhaseOf(n.c.kex) == Done && n.c.kex.initSent ==> n.c.lastPacket != 0 && n.c.lastPacket != KEXINIT
    ensures Adds(n.c, Finish(n.c, inp), Waiting(inp.late), Prompt(inp.late))
  {
    InvIs(n, env);
    InvHolds(n, env);
    ClientFlushes(n, env);
    LoopAdds(Flush(n.c), env, inp.e);
    FinishAdds(n.c, LoopHandler(Flush(n.c), inp.e), inp);
  }

  lemma ServerFinishAdds(n: Net, env: Negotiation, inp: Input)
    requires Inv(n, env) && LegalInput(inp)
    ensures Adds(n.s, Finish(n.s, inp), Waiting(inp.late), Prompt(inp.late))
  {
    InvHolds(n, env);
    NothingAdded(Flush(n.s), LoopHandler(Flush(n.s), inp.e));
    FinishAdds(n.s, LoopHandler(Flush(n.s), inp.e), inp);
  }

  /** Putting the parts of a pass together: up to x's checktimeouts, the packet read, and the rest. */
  lemma PartsAdd(x: Endpoint, b: Endpoint, r: Endpoint, y: Endpoint, early: seq<Payload>, replies: seq<Payload>,
                 late: seq<Payload>, ans: seq<Payload>)
    requires Adds(x, b, Waiting(early), Prompt(early)) && Adds(b, r, Waiting(replies), ans + Prompt(replies))
    requires Adds(r, y, Waiting(late), Prompt(late))
    ensures Adds(x, y, Waiting(early + (replies + late)), Prompt(early) + ans + Prompt(replies + late))
  {
    var we, wr, wl, pe, pr, pl := Waiting(early), Waiting(replies), Waiting(late), Prompt(early), Prompt(replies), Prompt(late);
    AddsOn(b, r, y, wr, ans + pr, wl, pl);
    AddsOn(x, b, y, we, pe, wr + wl, (ans + pr) + pl);
    WaitingConcat(replies, late);
    WaitingConcat(early, replies + late);
    FourParts(pe, ans, pr, pl);
  }

  lemma FourParts(a: seq<Payload>, b: seq<Payload>, c: seq<Payload>, d: seq<Payload>)
    ensures a + ((b + c) + d) == (a + b) + (c + d)
  {
  }

  lemma ClientPassReads(n: Net, env: Negotiation, inp: Input) returns (ans: seq<Payload>)
    requires Inv(n, env) && Settled(n.c) && LegalInput(inp) && n.nc < |n.s.box.out|
    ensures var arrival := Some(n.s.box.out[n.nc]); PassAdds(n.c, Iterate(n.c, env, arrival, inp), env, arrival, inp, ans)
  {
    var w, b := n.s.box.out[n.nc], Begin(n.c, env, inp);
    var m := n.(c := b);
    ClientBegins(n, env, inp);
    ClientBeginAdds(n, env, inp);
    ans := ClientReadAdds(m, env, inp);
    var r, y := Receive(b, env, w, inp), Iterate(n.c, env, Some(w), inp);
    var late := if r.exit.Some? then [] else inp.late;
    IterateReads(n.c, b, env, w, inp);
    if r.exit.Some? {
      NothingAdded(r, y);
    } else {
      ClientReads(m, env, inp);
      ClientFinishAdds(m.(c := r, nc := m.nc + 1), env, inp);
    }
    PartsAdd(n.c, b, r, y, inp.early, Replies(b, w, inp), late, ans);
  }

  lemma ServerPassReads(n: Net, env: Negotiation, inp: Input) returns (ans: seq<Payload>)
    requires Inv(n, env) && Settled(n.s) && LegalInput(inp) && n.ns < |n.c.box.out|
    ensures var arrival := Some(n.c.box.out[n.ns]); PassAdds(n.s, Iterate(n.s, env, arrival, inp), env, arrival, inp, ans)
  {
    var w, b := n.c.box.out[n.ns], Begin(n.s, env, inp);
    var m := n.(s := b);
    ServerBegins(n, env, inp);
    ServerBeginAdds(n, env, inp);
    ans := ServerReadAdds(m, env, inp);
    var r, y := Receive(b, env, w, inp), Iterate(n.s, env, Some(w), inp);
    var late := if r.exit.Some? then [] else inp.late;
    IterateReads(n.s, b, env, w, inp);
    if r.exit.Some? {
      NothingAdded(r, y);
    } else {
      ServerReads(m, env, inp);
      ServerFinishAdds(m.(s := r, ns := m.ns + 1), env, inp);
    }
    PartsAdd(n.s, b, r, y, inp.early, Replies(b, w, inp), late, ans);
  }

  lemma ClientPassIdles(n: Net, env: Negotiation, inp: Input)
    requires Inv(n, env) && Settled(n.c) && LegalInput(inp)
    ensures PassAdds(n.c, Iterate(n.c, env, None, inp), env, None, inp, [])
  {
    var b := Begin(n.c, env, inp);
    ClientBegins(n, env, inp);
    ClientBeginAdds(n, env, inp);
    NothingAdded(b, b);
    ClientFinishAdds(n.(c := b), env, inp);
    assert b.exit.None? && [] + inp.late == inp.late && [] + Prompt([]) == [];
    PartsAdd(n.c, b, b, Finish(b, inp), inp.early, [], inp.late, []);
  }

  lemma ServerPassIdles(n: Net, env: Negotiation, inp: Input)
    requires Inv(n, env) && Settled(n.s) && LegalInput(inp)
    ensures PassAdds(n.s, Iterate(n.s, env, None, inp), env, None, inp, [])
  {
    var b := Begin(n.s, env, inp);
    ServerBegins(n, env, inp);
    ServerBeginAdds(n, env, inp);
    NothingAdded(b, b);
    ServerFinishAdds(n.(s := b), env, inp);
    assert b.exit.None? && [] + inp.late == inp.late && [] + Prompt([]) == [];
    PartsAdd(n.s, b, b, Finish(b, inp), inp.early, [], inp.late, []);
  }

  // ---- whole runs ----

  /** The packet that a turn reads. */
  function ReadBy(n: Net, t: Turn): Option<Wire>
  {
    if !t.read then None
    else if t.client then if n.nc < |n.s.box.out| then Some(n.s.box.out[n.nc]) else None
    else if n.ns < |n.c.box.out| then Some(n.c.box.out[n.ns]) else None
  }

  /** Everything that one end's callers have submitted in a run, turn after turn. */
  function SubmittedBy(n: Net, env: Negotiation, ts: seq<Turn>, client: bool): seq<Payload>
    decreases |ts|
  {
    if ts == [] then []
    else
      var before, t := Run(n, env, ts[..|ts| - 1]), ts[|ts| - 1];
      SubmittedBy(n, env, ts[..|ts| - 1], client) +
      if before.c.exit.Some? || before.s.exit.Some? || t.client != client then []
      else Submitted(if client then before.c else before.s, env, ReadBy(before, t), t.inp)
  }

  /** In its turn an end puts what it was given in line or on the wire; the other end sends nothing. */
  lemma TurnAdds(n: Net, env: Negotiation, t: Turn) returns (ans: seq<Payload>)
    requires Sound(n, env) && Running(n) && LegalInput(t.inp)
    ensures var m := Step(n, env, t);
            if t.client then m.s == n.s && PassAdds(n.c, m.c, env, ReadBy(n, t), t.inp, ans)
            else m.c == n.c && PassAdds(n.s, m.s, env, ReadBy(n, t), t.inp, ans)
  {
    ans := [];
    if t.client && ReadBy(n, t).Some? {
      ans := ClientPassReads(n, env, t.inp);
    } else if t.client {
      ClientPassIdles(n, env, t.inp);
    } else if ReadBy(n, t).Some? {
      ans := ServerPassReads(n, env, t.inp);
    } else {
      ServerPassIdles(n, env, t.inp);
    }
  }

  lemma AskedBy(x: Endpoint, y: Endpoint, env: Negotiation, arrival: Option<Wire>, inp: Input, ans: seq<Payload>,
                before: seq<Payload>)
    requires PassAdds(x, y, env, arrival, inp, ans) && x.box.asked == Waiting(before)
    ensures y.box.asked == Waiting(before + Submitted(x, env, arrival, inp))
  {
    WaitingConcat(before, Submitted(x, env, arrival, inp));
  }

  lemma {:induction false} AskedIsSubmitted(env: Negotiation, ci: nat, si: nat, e: nat, ts: seq<Turn>)
    requires Coherent(env) && Legal(ts)
    ensures var n0 := Start(env, ci, si, e);
            var n := Run(n0, env, ts);
            && n.c.box.asked == Waiting(SubmittedBy(n0, env, ts, true))
            && n.s.box.asked == Waiting(SubmittedBy(n0, env, ts, false))
    decreases |ts|
  {
    var n0 := Start(env, ci, si, e);
    if ts == [] {
      SendKexinitOpens(Create(false), env, ci, e);
      SendKexinitOpens(Create(true), env, si, e);
    } else {
      var front, t := ts[..|ts| - 1], ts[|ts| - 1];
      var n := Run(n0, env, front);
      var c, s := SubmittedBy(n0, env, front, true), SubmittedBy(n0, env, front, false);
      AskedIsSubmitted(env, ci, si, e, front);
      RunsAreSound(env, ci, si, e, front);
      assert c + [] == c && s + [] == s;
      if Running(n) {
        var ans := TurnAdds(n, env, t);
        if t.client {
          AskedBy(n.c, Step(n, env, t).c, env, ReadBy(n, t), t.inp, ans, c);
        } else {
          AskedBy(n.s, Step(n, env, t).s, env, ReadBy(n, t), t.inp, ans, s);
        }
      }
    }
  }

  /**
   * In every run, also one that has ended, the deferrable packets on the wire and those held back
   * are, in this order, all the deferrable packets that the end's callers have submitted.
   */
  lemma SubmittedInOrder(env: Negotiation, ci: nat, si: nat, e: nat, ts: seq<Turn>)
    requires Coherent(env) && Legal(ts)
    ensures var n0 := Start(env, ci, si, e);
            var n := Run(n0, env, ts);
            && Deferred(n.c.box.out) + n.c.box.queue == Waiting(SubmittedBy(n0, env, ts, true))
            && Deferred(n.s.box.out) + n.s.box.queue == Waiting(SubmittedBy(n0, env, ts, false))
  {
    AskedIsSubmitted(env, ci, si, e, ts);
    DeferredInOrder(env, ci, si, e, ts);
  }

  /**
   * The packets that need not wait go out in the turn in which they are submitted, in order:
   * what checktimeouts sends, at most one answer of the endpoint's own, and then the rest.
   */
  lemma PromptInTurn(env: Negotiation, ci: nat, si: nat, e: nat, ts: seq<Turn>, t: Turn) returns (ans: seq<Payload>)
    requires Coherent(env) && Legal(ts) && LegalInput(t.inp)
    ensures var n := Run(Start(env, ci, si, e), env, ts);
            var x, y := if t.client then n.c else n.s, if t.client then Step(n, env, t).c else Step(n, env, t).s;
            Running(n) ==>
              && |ans| <= 1
              && PromptSent(y.box.out)
                 == PromptSent(x.box.out) + (Prompt(t.inp.early) + ans + Prompt(After(x, env, ReadBy(n, t), t.inp)))
  {
    var n := Run(Start(env, ci, si, e), env, ts);
    RunsAreSound(env, ci, si, e, ts);
    ans := [];
    if Running(n) { ans := TurnAdds(n, env, t); }
  }
}
