/**
 * Which keys a run uses: every key taken into use is the one the server has signed last, and what
 * it has signed is the transcript of that exchange: the last KEXINIT of each side and both public
 * values, as they went over the wire.
 */
module Transcripts {
  import opened Options
  import opened KeyExchange
  import opened WireLog
  import opened Rekeying
  import opened Submissions

  // ---- what a log says ----

  /** The last KEXINIT among the first n packets. */
  function LastInit(out: seq<Wire>, n: nat): Option<nat>
    requires n <= |out|
  {
    if n == 0 then None
    else if out[n - 1].body.Init? then Some(out[n - 1].body.id)
    else LastInit(out, n - 1)
  }

  /** What the last reply among the first n packets signs; without one there is no key. */
  function SignedKey(out: seq<Wire>, n: nat): Key
    requires n <= |out|
  {
    if n == 0 then NoKey
    else if out[n - 1].body.DhReply? then out[n - 1].body.signed
    else SignedKey(out, n - 1)
  }

  lemma {:induction false} SamePrefix(out: seq<Wire>, more: seq<Wire>, n: nat)
    requires n <= |out| && out <= more
    ensures LastInit(more, n) == LastInit(out, n) && SignedKey(more, n) == SignedKey(out, n)
  {
    if n > 0 {
      assert more[n - 1] == out[n - 1];
      SamePrefix(out, more, n - 1);
    }
  }

  predicate Unremarkable(b: Body) { !b.Init? && !b.DhReply? }

  /** Packets of other kinds change neither. */
  lemma {:induction false} SameBehind(out: seq<Wire>, more: seq<Wire>)
    requires out <= more && forall i :: |out| <= i < |more| ==> Unremarkable(more[i].body)
    ensures LastInit(more, |more|) == LastInit(out, |out|) && SignedKey(more, |more|) == SignedKey(out, |out|)
    decreases |more|
  {
    if |more| > |out| {
      var front := more[..|more| - 1];
      SameBehind(out, front);
      SamePrefix(front, more, |front|);
    } else {
      assert more == out;
    }
  }

  /** The reply at place i of the server's log signs its own exchange. */
  ghost predicate Genuine(sout: seq<Wire>, i: nat, cout: seq<Wire>, read: nat)
    requires i < |sout| && sout[i].body.DhReply? && read <= |cout|
  {
    var key := sout[i].body.signed;
    && key.Transcript? && key.f == sout[i].body.f
    && LastInit(sout, i) == Some(key.serverInit)
    && exists k: nat :: HeardAt(cout, read, k, key.clientInit, key.e)
  }

  /** The k-th packet of the client is the public value, and its last KEXINIT before that is this one. */
  predicate HeardAt(cout: seq<Wire>, read: nat, k: nat, clientInit: nat, e: nat)
    requires read <= |cout|
  {
    0 < k <= read && LastInit(cout, k) == Some(clientInit) && cout[k - 1].body == DhInit(e)
  }

  // ---- the server ----

  ghost predicate ServerKnows(s: Endpoint, cout: seq<Wire>, ns: nat)
  {
    var out := s.box.out;
    && ns <= |cout| && s.trans == SignedKey(out, |out|)
    && (forall i :: 0 <= i < |out| && out[i].body.DhReply? ==> Genuine(out, i, cout, ns))
    && (PhaseOf(s.kex) == Sent ==> s.kex.myInit.Some? && LastInit(out, |out|) == s.kex.myInit)
    && (PhaseOf(s.kex) == Both ==>
          && s.kex.hash.Some? && LastInit(out, |out|) == Some(s.kex.hash.value.1)
          && LastInit(cout, ns) == Some(s.kex.hash.value.0))
  }

  /** Only packets of no interest go out and the exchange stands where it stood. */
  predicate Stands(x: Endpoint, y: Endpoint)
  {
    && x.box.out <= y.box.out && y.trans == x.trans && y.kex == x.kex
    && forall i :: |x.box.out| <= i < |y.box.out| ==> Unremarkable(y.box.out[i].body)
  }

  lemma StandsOn(x: Endpoint, y: Endpoint, z: Endpoint)
    requires Stands(x, y) && Stands(y, z)
    ensures Stands(x, z)
  {
    forall i | |x.box.out| <= i < |z.box.out| ensures Unremarkable(z.box.out[i].body) {
      if i < |y.box.out| { assert z.box.out[i] == y.box.out[i]; }
    }
  }

  lemma StillGenuine(sout: seq<Wire>, i: nat, cout: seq<Wire>, read: nat, sout': seq<Wire>, cout': seq<Wire>, read': nat)
    requires i < |sout| && sout[i].body.DhReply? && read <= |cout| && Genuine(sout, i, cout, read)
    requires sout <= sout' && cout <= cout' && read <= read' <= |cout'|
    ensures sout'[i] == sout[i] && Genuine(sout', i, cout', read')
  {
    var key := sout[i].body.signed;
    SamePrefix(sout, sout', i);
    var k: nat :| HeardAt(cout, read, k, key.clientInit, key.e);
    SamePrefix(cout, cout', k);
    assert HeardAt(cout', read', k, key.clientInit, key.e);
  }

  lemma ServerStands(s: Endpoint, t: Endpoint, cout: seq<Wire>, ns: nat)
    requires ServerKnows(s, cout, ns) && Stands(s, t)
    ensures ServerKnows(t, cout, ns)
  {
    SameBehind(s.box.out, t.box.out);
    forall i | 0 <= i < |t.box.out| && t.box.out[i].body.DhReply? ensures Genuine(t.box.out, i, cout, ns) {
      assert i < |s.box.out| && t.box.out[i] == s.box.out[i];
      StillGenuine(s.box.out, i, cout, ns, t.box.out, cout, ns);
    }
  }

  /** More packets from the client, none of them read yet. */
  lemma ClientGoesOn(s: Endpoint, cout: seq<Wire>, ns: nat, cout': seq<Wire>)
    requires ServerKnows(s, cout, ns) && cout <= cout'
    ensures ServerKnows(s, cout', ns)
  {
    SamePrefix(cout, cout', ns);
    forall i | 0 <= i < |s.box.out| && s.box.out[i].body.DhReply? ensures Genuine(s.box.out, i, cout', ns) {
      StillGenuine(s.box.out, i, cout, ns, s.box.out, cout', ns);
    }
  }

  // ---- steps that are of no interest ----

  lemma {:induction false} SubmitAllStands(x: Endpoint, ps: seq<Payload>)
    requires Applications(ps)
    ensures Stands(x, SubmitAll(x, ps))
    decreases |ps|
  {
    if ps != [] {
      var y, p := SubmitAll(x, ps[..|ps| - 1]), ps[|ps| - 1];
      SubmitAllStands(x, ps[..|ps| - 1]);
      assert Stands(y, Submit(y, p));
      assert SubmitAll(x, ps).box == Submit(y, p).box;
      StandsOn(x, y, Submit(y, p));
    }
  }

  lemma {:induction false} SealedBodies(ps: seq<Payload>, key: Key)
    requires forall p <- ps :: p.body.Plain?
    ensures forall w <- Sealed(ps, key) :: w.body.Plain?
    decreases |ps|
  {
    if ps != [] {
      SealedBodies(ps[..|ps| - 1], key);
      assert ps[|ps| - 1] in ps;
    }
  }

  lemma FlushStands(x: Endpoint)
    requires Ledger(x.box)
    ensures Stands(x, Flush(x))
  {
    var more := Sealed(x.box.queue, x.trans);
    SealedBodies(x.box.queue, x.trans);
    forall i | |x.box.out| <= i < |x.box.out + more| ensures Unremarkable((x.box.out + more)[i].body) {
      assert (x.box.out + more)[i] in more;
    }
  }

  // ---- the server sends and reads ----

  lemma OpensKnow(s: Endpoint, env: Negotiation, id: nat, e: nat, cout: seq<Wire>, ns: nat)
    requires ServerKnows(s, cout, ns) && s.server && s.kex == NoKex
    ensures ServerKnows(Opens(s, env, id, e), cout, ns)
  {
    var t := Opens(s, env, id, e);
    SamePrefix(s.box.out, t.box.out, |s.box.out|);
    forall i | 0 <= i < |t.box.out| && t.box.out[i].body.DhReply? ensures Genuine(t.box.out, i, cout, ns) {
      assert i < |s.box.out| && t.box.out[i] == s.box.out[i];
      StillGenuine(s.box.out, i, cout, ns, t.box.out, cout, ns);
    }
  }

  /** The next packet has been read and is no KEXINIT. */
  lemma ReadsPast(s: Endpoint, cout: seq<Wire>, ns: nat)
    requires ServerKnows(s, cout, ns) && ns < |cout| && !cout[ns].body.Init?
    ensures ServerKnows(s, cout, ns + 1)
  {
    forall i | 0 <= i < |s.box.out| && s.box.out[i].body.DhReply? ensures Genuine(s.box.out, i, cout, ns + 1) {
      StillGenuine(s.box.out, i, cout, ns, s.box.out, cout, ns + 1);
    }
  }

  lemma TakesKnow(s: Endpoint, env: Negotiation, cout: seq<Wire>, ns: nat)
    requires ServerKnows(s, cout, ns) && s.server && PhaseOf(s.kex) == Sent && ns < |cout| && cout[ns].body.Init?
    requires TakesKexinit(s, env, cout[ns].body).exit.None?
    ensures ServerKnows(TakesKexinit(s, env, cout[ns].body), cout, ns + 1)
  {
    var t := TakesKexinit(s, env, cout[ns].body);
    assert t.box == s.box && t.trans == s.trans;
    forall i | 0 <= i < |s.box.out| && s.box.out[i].body.DhReply? ensures Genuine(s.box.out, i, cout, ns + 1) {
      StillGenuine(s.box.out, i, cout, ns, s.box.out, cout, ns + 1);
    }
  }

  /** The log of an answer: the reply, then NEWKEYS and perhaps an ordinary packet. */
  lemma AnswerLog(out: seq<Wire>, w: Wire, tail: seq<Wire>, more: seq<Wire>)
    requires w.body.DhReply? && more == out + [w] + tail && forall t <- tail :: Unremarkable(t.body)
    ensures SignedKey(more, |more|) == w.body.signed && LastInit(more, |out|) == LastInit(out, |out|)
  {
    var head := out + [w];
    forall i | |head| <= i < |more| ensures Unremarkable(more[i].body) {
      assert more[i] == tail[i - |head|];
    }
    SameBehind(head, more);
    SamePrefix(out, more, |out|);
  }

  lemma AnswersKnow(s: Endpoint, f: nat, ext: bool, msg: nat, cout: seq<Wire>, ns: nat)
    requires ServerKnows(s, cout, ns) && PhaseOf(s.kex) == Both && s.kex.pending.Some? && s.kex.hash.Some?
    requires ns < |cout| && cout[ns].body.DhInit?
    ensures ServerKnows(Answers(s, cout[ns].body.e, f, ext, msg), cout, ns + 1)
  {
    var e := cout[ns].body.e;
    var key, t := AgreedKey(s.kex, e, f), Answers(s, e, f, ext, msg);
    var out, more := s.box.out, t.box.out;
    var w, v := Wire(KEXDH_REPLY, DhReply(f, key), s.trans), Wire(NEWKEYS, NewKeys, s.trans);
    var tail := if !(s.doneSecond || s.doneFirst) && ext then [v, Wire(EXT_INFO, Plain(msg), key)] else [v];
    assert more == out + [w] + tail;
    AnswerLog(out, w, tail, more);
    assert forall i :: |out| < i < |more| ==> more[i] == tail[i - |out| - 1];
    assert HeardAt(cout, ns + 1, ns + 1, key.clientInit, e);
    forall i | 0 <= i < |more| && more[i].body.DhReply? ensures Genuine(more, i, cout, ns + 1) {
      if i < |out| {
        assert more[i] == out[i];
        StillGenuine(out, i, cout, ns, more, cout, ns + 1);
      }
    }
  }

  lemma PlainKnows(s: Endpoint, ps: seq<Payload>, auth: bool, typ: int, cout: seq<Wire>, ns: nat)
    requires ServerKnows(s, cout, ns) && Applications(ps) && ns < |cout| && cout[ns].body.Plain?
    ensures ServerKnows(SubmitAll(s, ps).(authDone := auth, lastPacket := typ), cout, ns + 1)
  {
    ReadsPast(s, cout, ns);
    SubmitAllStands(s, ps);
    ServerStands(s, SubmitAll(s, ps).(authDone := auth, lastPacket := typ), cout, ns + 1);
  }

  lemma ServerPlainKnows(n: Net, env: Negotiation, inp: Input)
    requires Inv(n, env) && n.ns < |n.c.box.out| && Applications(inp.replies) && ServerKnows(n.s, n.c.box.out, n.ns)
    requires n.c.box.out[n.ns].body.Plain?
    ensures var r := Receive(n.s, env, n.c.box.out[n.ns], inp); r.exit.None? ==> ServerKnows(r, n.c.box.out, n.ns + 1)
  {
    InvIs(n, env);
    var w := n.c.box.out[n.ns];
    NextForServer(n, env);
    var ps, auth := ReceivePlain(n.s, env, w, inp);
    if Receive(n.s, env, w, inp).exit.None? { PlainKnows(n.s, ps, auth, w.typ, n.c.box.out, n.ns); }
  }

  /** Nothing but the exchange itself has changed. */
  lemma IdleKnows(s: Endpoint, t: Endpoint, cout: seq<Wire>, ns: nat)
    requires ServerKnows(s, cout, ns) && t.box == s.box && t.trans == s.trans && PhaseOf(t.kex) == Idle
    ensures ServerKnows(t, cout, ns)
  {
  }

  lemma ServerNewkeysKnows(n: Net, env: Negotiation, inp: Input)
    requires Inv(n, env) && n.ns < |n.c.box.out| && ServerKnows(n.s, n.c.box.out, n.ns)
    requires n.c.box.out[n.ns].body.NewKeys?
    ensures ServerKnows(Receive(n.s, env, n.c.box.out[n.ns], inp), n.c.box.out, n.ns + 1)
  {
    InvIs(n, env);
    NextForServer(n, env);
    ReadsPast(n.s, n.c.box.out, n.ns);
    ServerReadsNewkeys(n, env);
    ReceiveNewkeys(n.s, env, n.c.box.out[n.ns], inp);
    assert TakesNewkeys(n.s).box == n.s.box && TakesNewkeys(n.s).trans == n.s.trans by { TakenAlone(n.s, env); }
    IdleKnows(n.s, TakesNewkeys(n.s), n.c.box.out, n.ns + 1);
  }

  lemma TakenAlone(s: Endpoint, env: Negotiation)
    requires Local(s, env) && PhaseOf(s.kex) == Done
    ensures TakesNewkeys(s).box == s.box && TakesNewkeys(s).trans == s.trans
  {
  }

  lemma ServerReadKnows(n: Net, env: Negotiation, inp: Input)
    requires Inv(n, env) && n.ns < |n.c.box.out| && Applications(inp.replies) && ServerKnows(n.s, n.c.box.out, n.ns)
    ensures var r := Receive(n.s, env, n.c.box.out[n.ns], inp); r.exit.None? ==> ServerKnows(r, n.c.box.out, n.ns + 1)
  {
    var body := n.c.box.out[n.ns].body;
    NextForServer(n, env);
    if body.Init? {
      ServerInitKnows(n, env, inp);
    } else if body.Plain? {
      ServerPlainKnows(n, env, inp);
    } else if body.DhInit? {
      ServerDhInitKnows(n, env, inp);
    } else {
      ServerNewkeysKnows(n, env, inp);
    }
  }

  lemma ServerInitKnows(n: Net, env: Negotiation, inp: Input)
    requires Inv(n, env) && n.ns < |n.c.box.out| && n.c.box.out[n.ns].body.Init? && ServerKnows(n.s, n.c.box.out, n.ns)
    ensures var r := Receive(n.s, env, n.c.box.out[n.ns], inp); r.exit.None? ==> ServerKnows(r, n.c.box.out, n.ns + 1)
  {
    InvIs(n, env);
    var cout := n.c.box.out;
    NextForServer(n, env);
    ServerAcceptsKexinit(n, env, inp.id, inp.e);
    ReceiveInit(n.s, env, cout[n.ns], inp);
    if PhaseOf(n.s.kex) == Idle { OpensKnow(n.s, env, inp.id, inp.e, cout, n.ns); }
    var y := if PhaseOf(n.s.kex) == Idle then Opens(n.s, env, inp.id, inp.e) else n.s;
    TakesKnow(y, env, cout, n.ns);
  }

  lemma StrayKnows(s: Endpoint, msg: nat, cout: seq<Wire>, ns: nat)
    requires ServerKnows(s, cout, ns) && ns < |cout| && cout[ns].body.DhInit?
    ensures ServerKnows(TurnsDown(s, msg), cout, ns + 1)
  {
    ReadsPast(s, cout, ns);
    ServerStands(s, TurnsDown(s, msg), cout, ns + 1);
  }

  lemma IgnoresKnow(s: Endpoint, cout: seq<Wire>, ns: nat)
    requires ServerKnows(s, cout, ns) && ns < |cout| && cout[ns].body.DhInit?
    ensures ServerKnows(Ignores(s), cout, ns + 1)
  {
    ReadsPast(s, cout, ns);
    ServerStands(s, Ignores(s), cout, ns + 1);
  }

  lemma ServerDhInitKnows(n: Net, env: Negotiation, inp: Input)
    requires Inv(n, env) && n.ns < |n.c.box.out| && n.c.box.out[n.ns].body.DhInit? && ServerKnows(n.s, n.c.box.out, n.ns)
    ensures ServerKnows(Receive(n.s, env, n.c.box.out[n.ns], inp), n.c.box.out, n.ns + 1)
  {
    var w := n.c.box.out[n.ns];
    NextForServer(n, env);
    BothLocal(n, env);
    if PhaseOf(n.s.kex) == Done {
      ReceiveStray(n.s, env, w, inp);
      StrayKnows(n.s, inp.msg, n.c.box.out, n.ns);
    } else {
      ReceiveDhInit(n.s, env, w, inp);
      if n.s.ignoreNext {
        IgnoresKnow(n.s, n.c.box.out, n.ns);
      } else {
        AnswersKnow(n.s, inp.f, inp.extInfo, inp.msg, n.c.box.out, n.ns);
      }
    }
  }

  // ---- whole passes ----

  lemma ServerBeginKnows(n: Net, env: Negotiation, inp: Input)
    requires Inv(n, env) && Settled(n.s) && LegalInput(inp) && ServerKnows(n.s, n.c.box.out, n.ns)
    ensures ServerKnows(Begin(n.s, env, inp), n.c.box.out, n.ns)
  {
    InvIs(n, env);
    var y := if inp.rekey then Rekey(n.s, env, inp.id, inp.e) else n.s;
    if y != n.s {
      SendKexinitOpens(n.s, env, inp.id, inp.e);
      OpensKnow(n.s, env, inp.id, inp.e, n.c.box.out, n.ns);
    }
    SubmitAllStands(y, inp.early);
    ServerStands(y, SubmitAll(y, inp.early), n.c.box.out, n.ns);
  }

  lemma ServerFinishKnows(n: Net, env: Negotiation, inp: Input)
    requires Inv(n, env) && LegalInput(inp) && ServerKnows(n.s, n.c.box.out, n.ns)
    ensures ServerKnows(Finish(n.s, inp), n.c.box.out, n.ns)
  {
    InvIs(n, env);
    var f := Flush(n.s);
    FlushStands(n.s);
    SubmitAllStands(f, inp.late);
    StandsOn(n.s, f, SubmitAll(f, inp.late));
    ServerStands(n.s, SubmitAll(f, inp.late), n.c.box.out, n.ns);
    assert LoopHandler(f, inp.e) == f;
  }

  lemma ServerPassKnows(n: Net, env: Negotiation, read: bool, inp: Input)
    requires Inv(n, env) && Settled(n.s) && LegalInput(inp) && ServerKnows(n.s, n.c.box.out, n.ns)
    ensures var m := ServerTurn(n, env, read, inp); m.s.exit.None? ==> ServerKnows(m.s, n.c.box.out, m.ns)
  {
    var b := Begin(n.s, env, inp);
    var m := n.(s := b);
    ServerBegins(n, env, inp);
    ServerBeginKnows(n, env, inp);
    if read && n.ns < |n.c.box.out| {
      var w := n.c.box.out[n.ns];
      var r := Receive(b, env, w, inp);
      IterateReads(n.s, b, env, w, inp);
      ServerReads(m, env, inp);
      ServerReadKnows(m, env, inp);
      if r.exit.None? { ServerFinishKnows(m.(s := r, ns := m.ns + 1), env, inp); }
    } else {
      ServerFinishKnows(m, env, inp);
    }
  }

  // ---- the client ----

  /** The client sends under what the last reply it has read signs. */
  predicate ClientKnows(c: Endpoint, sout: seq<Wire>, nc: nat)
  {
    nc <= |sout| && c.trans == SignedKey(sout, nc)
  }

  lemma BeginKeepsTrans(x: Endpoint, env: Negotiation, inp: Input)
    ensures Begin(x, env, inp).trans == x.trans
  {
  }

  lemma FinishKeepsTrans(x: Endpoint, inp: Input)
    ensures Finish(x, inp).trans == x.trans
  {
  }

  lemma ClientReadKnows(n: Net, env: Negotiation, inp: Input)
    requires Inv(n, env) && Settled(n.c) && n.nc < |n.s.box.out| && Applications(inp.replies)
    requires ClientKnows(n.c, n.s.box.out, n.nc)
    ensures var r := Receive(n.c, env, n.s.box.out[n.nc], inp); r.exit.None? ==> ClientKnows(r, n.s.box.out, n.nc + 1)
  {
    InvIs(n, env);
    var w := n.s.box.out[n.nc];
    NextForClient(n, env);
    if w.body.Plain? {
      var ps, auth := ReceivePlain(n.c, env, w, inp);
    } else if w.body.Init? {
      ClientAcceptsKexinit(n, env, inp.id, inp.e);
      ReceiveInit(n.c, env, w, inp);
      var y := if PhaseOf(n.c.kex) == Idle then Opens(n.c, env, inp.id, inp.e) else n.c;
      TakesKeepsTrans(y, env, w.body);
      assert y.trans == n.c.trans;
    } else if w.body.DhReply? {
      ClientReadsReply(n, env);
      ReceiveReply(n.c, env, w, inp);
    } else {
      ClientReadsNewkeys(n, env);
      ReceiveNewkeys(n.c, env, w, inp);
      TakenAlone(n.c, env);
    }
  }

  lemma TakesKeepsTrans(x: Endpoint, env: Negotiation, body: Body)
    requires body.Init?
    ensures TakesKexinit(x, env, body).trans == x.trans
  {
  }

  lemma ClientPassKnows(n: Net, env: Negotiation, read: bool, inp: Input)
    requires Inv(n, env) && Settled(n.c) && LegalInput(inp) && ClientKnows(n.c, n.s.box.out, n.nc)
    ensures var m := ClientTurn(n, env, read, inp); m.c.exit.None? ==> ClientKnows(m.c, n.s.box.out, m.nc)
  {
    var b := Begin(n.c, env, inp);
    BeginKeepsTrans(n.c, env, inp);
    if read && n.nc < |n.s.box.out| {
      ClientBegins(n, env, inp);
      ClientReadKnows(n.(c := b), env, inp);
      CompletesKnow(n, b, env, inp);
    } else {
      FinishKeepsTrans(b, inp);
      IdlesOn(n.c, b, env, inp);
    }
  }

  lemma IdlesOn(x: Endpoint, b: Endpoint, env: Negotiation, inp: Input)
    requires b == Begin(x, env, inp) && b.trans == x.trans && Finish(b, inp).trans == b.trans
    ensures Iterate(x, env, None, inp).trans == x.trans
  {
  }

  lemma CompletesKnow(n: Net, b: Endpoint, env: Negotiation, inp: Input)
    requires n.nc < |n.s.box.out| && b == Begin(n.c, env, inp)
    requires var r := Receive(b, env, n.s.box.out[n.nc], inp); r.exit.None? ==> ClientKnows(r, n.s.box.out, n.nc + 1)
    ensures var y := Iterate(n.c, env, Some(n.s.box.out[n.nc]), inp); y.exit.None? ==> ClientKnows(y, n.s.box.out, n.nc + 1)
  {
    var w := n.s.box.out[n.nc];
    IterateReads(n.c, b, env, w, inp);
    FinishKeepsTrans(Receive(b, env, w, inp), inp);
  }

  // ---- whole runs ----

  ghost predicate Knows(n: Net) { ServerKnows(n.s, n.c.box.out, n.ns) && ClientKnows(n.c, n.s.box.out, n.nc) }

  lemma ClientTurnGrows(n: Net, env: Negotiation, read: bool, inp: Input)
    requires Inv(n, env) && Settled(n.c) && LegalInput(inp)
    ensures n.c.box.out <= ClientTurn(n, env, read, inp).c.box.out
  {
    ClientBegins(n, env, inp);
    BothLocal(n, env);
    BothLocal(n.(c := Begin(n.c, env, inp)), env);
    L.IterateExtends(n.c, env, if read && n.nc < |n.s.box.out| then Some(n.s.box.out[n.nc]) else None, inp);
  }

  lemma ServerTurnGrows(n: Net, env: Negotiation, read: bool, inp: Input)
    requires Inv(n, env) && Settled(n.s) && LegalInput(inp)
    ensures n.s.box.out <= ServerTurn(n, env, read, inp).s.box.out
  {
    InvIs(n, env);
    ServerBegins(n, env, inp);
    BothLocal(n, env);
    BothLocal(n.(s := Begin(n.s, env, inp)), env);
    L.IterateExtends(n.s, env, if read && n.ns < |n.c.box.out| then Some(n.c.box.out[n.ns]) else None, inp);
  }

  lemma StepKnows(n: Net, env: Negotiation, t: Turn)
    requires Sound(n, env) && Running(n) && LegalInput(t.inp) && Knows(n)
    ensures var m := Step(n, env, t); Running(m) ==> Knows(m)
  {
    var m := Step(n, env, t);
    if t.client {
      ClientPassKnows(n, env, t.read, t.inp);
      ClientTurnGrows(n, env, t.read, t.inp);
      ClientGoesOn(n.s, n.c.box.out, n.ns, m.c.box.out);
    } else {
      ServerPassKnows(n, env, t.read, t.inp);
      ServerTurnGrows(n, env, t.read, t.inp);
      SamePrefix(n.s.box.out, m.s.box.out, n.nc);
    }
  }

  lemma StartKnows(env: Negotiation, ci: nat, si: nat, e: nat)
    ensures Knows(Start(env, ci, si, e))
  {
    var n := Start(env, ci, si, e);
    SendKexinitOpens(Create(true), env, si, e);
    SendKexinitOpens(Create(false), env, ci, e);
    assert n.s.box.out == [] + [Wire(KEXINIT, Init(si, false), NoKey)];
    assert SignedKey(n.s.box.out, 0) == NoKey;
  }

  lemma {:induction false} RunsKnow(env: Negotiation, ci: nat, si: nat, e: nat, ts: seq<Turn>)
    requires Coherent(env) && Legal(ts)
    ensures var n := Run(Start(env, ci, si, e), env, ts); Running(n) ==> Knows(n)
    decreases |ts|
  {
    if ts == [] {
      StartKnows(env, ci, si, e);
    } else {
      var front := ts[..|ts| - 1];
      RunsKnow(env, ci, si, e, front);
      RunsAreSound(env, ci, si, e, front);
      var n := Run(Start(env, ci, si, e), env, front);
      if Running(n) { StepKnows(n, env, ts[|ts| - 1]); }
    }
  }

  /**
   * In every reachable state each end sends under the key of the last reply: the server under
   * that of the last it has sent, the client under that of the last it has read. Every reply
   * signs the last KEXINIT of both sides and the public values of its own exchange.
   */
  lemma KeysAreSigned(env: Negotiation, ci: nat, si: nat, e: nat, ts: seq<Turn>)
    requires Coherent(env) && Legal(ts)
    ensures var n := Run(Start(env, ci, si, e), env, ts);
            Running(n) ==>
              && n.nc <= |n.s.box.out| && n.ns <= |n.c.box.out|
              && n.s.trans == SignedKey(n.s.box.out, |n.s.box.out|) && n.c.trans == SignedKey(n.s.box.out, n.nc)
              && forall i :: 0 <= i < |n.s.box.out| && n.s.box.out[i].body.DhReply? ==>
                   var body := n.s.box.out[i].body;
                   && body.signed.Transcript? && body.signed.f == body.f
                   && LastInit(n.s.box.out, i) == Some(body.signed.serverInit)
                   && exists k: nat ::
                        && HeardAt(n.c.box.out, n.ns, k, body.signed.clientInit, body.signed.e)
                        && n.c.box.out[k - 1].body == DhInit(body.signed.e)
                        && LastInit(n.c.box.out, k) == Some(body.signed.clientInit)
  {
    RunsKnow(env, ci, si, e, ts);
    var n := Run(Start(env, ci, si, e), env, ts);
    if Running(n) {
      forall i | 0 <= i < |n.s.box.out| && n.s.box.out[i].body.DhReply?
        ensures Genuine(n.s.box.out, i, n.c.box.out, n.ns)
      {
      }
    }
  }
}
