/**
 * A client and a server joined by two FIFO streams: any number of key exchanges, started by
 * either or both, with ordinary traffic in between. No run reaches a protocol exit, and every
 * packet is read under the key it was sealed with (RFC 4253 sections 7.1 to 7.3 and 9).
 */
module Rekeying {
  import opened Options
  import opened KeyExchange
  import opened WireLog

  datatype Phase = Idle | Sent | Both | Done

  function PhaseOf(k: Kex): Phase
  {
    if !k.sentKexinit then Idle
    else if !k.recvKexinit then Sent
    else if !k.sentNewkeys then Both
    else Done
  }

  /** The guess was made and the server, or the client, thinks it good. */
  predicate Taken(env: Negotiation, pair: (nat, nat)) { env.guesses && env.serverGood(pair.0, pair.1) }

  predicate Good(env: Negotiation, pair: (nat, nat)) { env.guesses && env.clientGood(pair.0, pair.1) }

  /**
   * What negotiation guarantees (Negotiation.GuessIsChosen): a guess that the server thinks good
   * was made for the algorithm chosen. What the client thinks of it is another matter.
   */
  ghost predicate Coherent(env: Negotiation)
  {
    env.guesses ==> forall a, b :: env.serverGood(a, b) ==> env.algo(a, b) == env.firstAlgo
  }

  /** The client never trusts a guess that the server throws away. */
  ghost predicate Trustworthy(env: Negotiation)
  {
    env.guesses ==> forall a, b :: env.clientGood(a, b) ==> env.serverGood(a, b)
  }

  /** What one endpoint's flags say about each other, whatever the peer does. */
  ghost predicate Local(s: Endpoint, env: Negotiation)
  {
    var k := s.kex;
    && s.exit.None? && !k.recvNewkeys
    && (s.server ==> k.param.None? && !k.initSent && !k.firstMatches)
    && (!s.server ==> !s.ignoreNext && (s.lastPacket == KEXINIT && !k.initSent ==> k.recvKexinit && !k.sentNewkeys))
    && match PhaseOf(k) {
         case Idle => k == NoKex && s.dataAllowed && s.requireNext == 0 && !s.ignoreNext
         case Sent =>
           && !s.dataAllowed && !s.ignoreNext && s.requireNext in {0, KEXINIT}
           && !k.sentNewkeys && !k.firstMatches && !k.initSent
           && k.pending.Some? && k.myInit.Some? && k.hash.None?
           && (k.param.Some? <==> Guesses(s, env)) && (k.param.Some? ==> k.param.value.algo == env.firstAlgo)
         case Both =>
           && !s.dataAllowed && s.requireNext == (if s.server then KEXDH_INIT else KEXDH_REPLY)
           && k.pending.Some? && k.myInit.None? && k.hash.Some?
           && (!s.server ==>
                && k.firstMatches == Good(env, k.hash.value)
                && (k.initSent ==> s.lastPacket != 0)
                && (k.initSent || env.guesses ==> k.param.Some?)
                && (!k.initSent && env.guesses ==> k.param.value.algo == env.firstAlgo)
                && k.pending.value.algo == env.algo(k.hash.value.0, k.hash.value.1)
                && (!k.initSent ==> s.lastPacket == KEXINIT))
         case Done =>
           && s.dataAllowed && s.requireNext == NEWKEYS && !s.ignoreNext
           && k.pending.Some? && !k.pending.value.transValid && k.pending.value.recvValid
           && k.myInit.None? && k.hash.None? && k.param.None?
       }
  }

  /** At the top of the loop the held-back packets are gone and the client has had its say. */
  ghost predicate Settled(s: Endpoint)
  {
    && (s.dataAllowed ==> s.box.queue == [])
    && (!s.server && PhaseOf(s.kex) == Both ==> s.kex.initSent)
    && (!s.server && PhaseOf(s.kex) == Done ==> !s.kex.initSent)
  }

  /** What a client that has sent KEXINIT and read none has put on the wire for this exchange. */
  function Opening(k: Kex, env: Negotiation): seq<Body>
    requires k.myInit.Some? && (env.guesses ==> k.param.Some?)
  {
    [Init(k.myInit.value, env.guesses)] + if env.guesses then [DhInit(k.param.value.e)] else []
  }

  /** What it sent after KEXINIT once it has read the server's: the guess, and another try if it thinks that wrong. */
  ghost predicate Tail(k: Kex, env: Negotiation, t: seq<Body>)
    requires k.hash.Some?
  {
    var good := Good(env, k.hash.value);
    && |t| == (if env.guesses then 1 else 0) + (if k.initSent && !good then 1 else 0)
    && (forall i :: 0 <= i < |t| ==> t[i].DhInit?)
    && (Taken(env, k.hash.value) ==> k.param.Some? && t[0] == DhInit(k.param.value.e))
    && (good || k.initSent ==> k.param.Some? && t[|t| - 1] == DhInit(k.param.value.e))
  }

  /** A second try that the server has no use for, having taken the guess. */
  predicate Stray(k: Kex, env: Negotiation, lc: seq<Body>)
    requires k.hash.Some? && k.param.Some?
  {
    k.initSent && Taken(env, k.hash.value) && !Good(env, k.hash.value) && lc == [DhInit(k.param.value.e)]
  }

  /** NEWKEYS, perhaps behind such a second try, and then t. */
  predicate FinishedThen(lc: seq<Body>, t: seq<Body>)
  {
    lc == [NewKeys] + t || (lc != [] && lc[0].DhInit? && lc[1..] == [NewKeys] + t)
  }

  /** The same without a guess that the server has thrown away; a client that trusts its guess sends no more. */
  ghost predicate Retry(k: Kex, t: seq<Body>)
  {
    if k.initSent && !k.firstMatches then k.param.Some? && t == [DhInit(k.param.value.e)] else t == []
  }

  /** Which key exchange packets can be in flight for every pair of phases. */
  ghost predicate InFlight(c: Kex, s: Kex, ignoring: bool, env: Negotiation, lc: seq<Body>, ls: seq<Body>)
    requires PhaseOf(c) == Sent ==> c.myInit.Some? && (env.guesses ==> c.param.Some?)
    requires PhaseOf(s) == Sent ==> s.myInit.Some?
    requires PhaseOf(c) == Both ==> c.hash.Some?
    requires PhaseOf(s) == Both ==> s.hash.Some?
    requires PhaseOf(s) == Done ==> s.pending.Some?
    requires PhaseOf(c) == Done ==> c.pending.Some?
  {
    match (PhaseOf(c), PhaseOf(s)) {
      case (Idle, Idle) => lc == [] && ls == []
      case (Sent, Idle) => lc == Opening(c, env) && ls == []
      case (Idle, Sent) => lc == [] && ls == [Init(s.myInit.value, false)]
      case (Sent, Sent) => lc == Opening(c, env) && ls == [Init(s.myInit.value, false)]
      case (Both, Sent) =>
        && ls == [] && s.myInit == Some(c.hash.value.1)
        && lc != [] && lc[0] == Init(c.hash.value.0, env.guesses) && Tail(c, env, lc[1..])
      case (Sent, Both) =>
        && ls == [Init(s.hash.value.1, false)] && c.myInit == Some(s.hash.value.0)
        && (ignoring ==> env.guesses && !Taken(env, s.hash.value))
        && lc == if ignoring || Taken(env, s.hash.value) then [DhInit(c.param.value.e)] else []
      case (Both, Both) =>
        && ls == [] && c.hash == s.hash
        && (ignoring ==> env.guesses && !Taken(env, s.hash.value))
        && if env.guesses && !ignoring && !Taken(env, s.hash.value) then Retry(c, lc) else Tail(c, env, lc)
      case (Sent, Done) =>
        var key := s.pending.value.key;
        || (FinishedThen(lc, Opening(c, env)) && ls == [])
        || (&& lc == [] && key.Transcript? && c.myInit == Some(key.clientInit)
            && Taken(env, (key.clientInit, key.serverInit)) && c.param.value.e == key.e
            && ls == [Init(key.serverInit, false), DhReply(key.f, key), NewKeys])
      case (Both, Done) =>
        var key := s.pending.value.key;
        && key.Transcript? && c.hash == Some((key.clientInit, key.serverInit))
        && c.param.Some? && c.param.value.e == key.e && (c.initSent || Taken(env, c.hash.value))
        && (lc == [] || Stray(c, env, lc))
        && ls == [DhReply(key.f, key), NewKeys]
      case (Done, Done) => FinishedThen(lc, []) && ls == [NewKeys]
      case (Done, Idle) => lc == [] && ls == [NewKeys]
      case (Done, Sent) => lc == [] && ls == [NewKeys, Init(s.myInit.value, false)]
      case (Idle, Done) => FinishedThen(lc, []) && ls == []
      case _ => false
    }
  }

  datatype Net = Net(c: Endpoint, s: Endpoint, nc: nat, ns: nat)

  /** A sender, and the reader that has read n of its packets. */
  ghost predicate Direction(x: Endpoint, y: Endpoint, n: nat)
  {
    && Flow(x.box.out, x.dataAllowed, x.trans, n, y.recv, y.kex.recvKexinit)
    && (y.requireNext == KEXINIT ==> n < |x.box.out| && x.box.out[n].body.Init?)
  }

  /** The key after a NEWKEYS still in flight is the one its reader has ready. */
  ghost predicate NextKey(x: Endpoint, y: Endpoint, pending: seq<Body>)
  {
    NewKeys in pending && PhaseOf(y.kex) == Done && y.kex.pending.Some? ==> x.trans == y.kex.pending.value.key
  }

  ghost predicate Control(c: Endpoint, s: Endpoint, env: Negotiation, lc: seq<Body>, ls: seq<Body>)
  {
    && !c.server && s.server && Coherent(env) && Local(c, env) && Local(s, env)
    && InFlight(c.kex, s.kex, s.ignoreNext, env, lc, ls)
    && NextKey(c, s, lc) && NextKey(s, c, ls)
    && (PhaseOf(s.kex) == Done && NewKeys in ls ==> s.trans == s.kex.pending.value.key)
  }

  /** Everything that holds between any two events. */
  ghost predicate Everything(n: Net, env: Negotiation)
  {
    && Direction(n.c, n.s, n.ns) && Direction(n.s, n.c, n.nc)
    && Control(n.c, n.s, env, Pending(n.c.box.out, n.ns), Pending(n.s.box.out, n.nc))
    && GuessesAdjacent(n.c.box.out) && GuessesAdjacent(n.s.box.out)
    && (n.s.ignoreNext ==> n.ns < |n.c.box.out| && n.c.box.out[n.ns].body.DhInit?)
    && Ledger(n.c.box) && Ledger(n.s.box)
  }

  predicate Unfolded(n: Net, k: int) { true }

  /** The same, unfolded by the verifier for those states only for which InvIs has been called. */
  ghost predicate Inv(n: Net, env: Negotiation)
  {
    && n.ns <= |n.c.box.out| && n.nc <= |n.s.box.out| && !n.c.server && n.s.server
    && n.c.exit.None? && n.s.exit.None?
    && forall k :: Unfolded(n, k) ==> Everything(n, env)
  }

  lemma InvIs(n: Net, env: Negotiation)
    requires Inv(n, env)
    ensures Everything(n, env)
  {
    assert Unfolded(n, 0);
  }

  lemma IsInv(n: Net, env: Negotiation)
    requires Everything(n, env)
    ensures Inv(n, env)
  {
  }

  /** What each end may rely on of itself. */
  lemma BothLocal(n: Net, env: Negotiation)
    requires Inv(n, env)
    ensures Local(n.c, env) && Local(n.s, env) && Ledger(n.c.box) && Ledger(n.s.box)
    ensures Lawful(n.c.box.out) && Lawful(n.s.box.out)
  {
    InvIs(n, env);
  }

  // ---- ordinary traffic ----

  /** What ordinary traffic leaves alone. */
  ghost predicate SameControl(x: Endpoint, y: Endpoint)
  {
    && x.server == y.server && x.kex == y.kex && x.dataAllowed == y.dataAllowed
    && x.requireNext == y.requireNext && x.ignoreNext == y.ignoreNext
    && x.trans == y.trans && x.recv == y.recv
  }

  lemma ClientGrowsHolds(n: Net, c: Endpoint, env: Negotiation)
    requires Everything(n, env) && SameControl(n.c, c) && Local(c, env) && Ledger(c.box)
    requires Flow(c.box.out, c.dataAllowed, c.trans, n.ns, n.s.recv, n.s.kex.recvKexinit)
    requires Pending(c.box.out, n.ns) == Pending(n.c.box.out, n.ns) && PlainGrowth(n.c.box.out, c.box.out)
    ensures Everything(n.(c := c), env)
  {
    AdjacentGrowth(n.c.box.out, c.box.out);
    assert forall i :: 0 <= i < |n.c.box.out| ==> c.box.out[i] == c.box.out[..|n.c.box.out|][i];
  }

  lemma ClientGrows(n: Net, c: Endpoint, env: Negotiation)
    requires Inv(n, env) && SameControl(n.c, c) && Local(c, env) && Ledger(c.box)
    requires Flow(c.box.out, c.dataAllowed, c.trans, n.ns, n.s.recv, n.s.kex.recvKexinit)
    requires Pending(c.box.out, n.ns) == Pending(n.c.box.out, n.ns) && PlainGrowth(n.c.box.out, c.box.out)
    ensures Inv(n.(c := c), env)
  {
    InvIs(n, env);
    ClientGrowsHolds(n, c, env);
    IsInv(n.(c := c), env);
  }

  lemma ServerGrowsHolds(n: Net, s: Endpoint, env: Negotiation)
    requires Everything(n, env) && SameControl(n.s, s) && Local(s, env) && Ledger(s.box)
    requires Flow(s.box.out, s.dataAllowed, s.trans, n.nc, n.c.recv, n.c.kex.recvKexinit)
    requires Pending(s.box.out, n.nc) == Pending(n.s.box.out, n.nc) && PlainGrowth(n.s.box.out, s.box.out)
    ensures Everything(n.(s := s), env)
  {
    AdjacentGrowth(n.s.box.out, s.box.out);
    assert forall i :: 0 <= i < |n.s.box.out| ==> s.box.out[i] == s.box.out[..|n.s.box.out|][i];
  }

  lemma ServerGrows(n: Net, s: Endpoint, env: Negotiation)
    requires Inv(n, env) && SameControl(n.s, s) && Local(s, env) && Ledger(s.box)
    requires Flow(s.box.out, s.dataAllowed, s.trans, n.nc, n.c.recv, n.c.kex.recvKexinit)
    requires Pending(s.box.out, n.nc) == Pending(n.s.box.out, n.nc) && PlainGrowth(n.s.box.out, s.box.out)
    ensures Inv(n.(s := s), env)
  {
    InvIs(n, env);
    ServerGrowsHolds(n, s, env);
    IsInv(n.(s := s), env);
  }

  ghost predicate Applications(ps: seq<Payload>)
  {
    forall i :: 0 <= i < |ps| ==> Application(ps[i])
  }

  ghost predicate Unblocked(s: Endpoint)
  {
    s.dataAllowed ==> s.box.queue == []
  }

  lemma ClientSubmits(n: Net, ps: seq<Payload>, env: Negotiation)
    requires Inv(n, env) && Applications(ps) && Unblocked(n.c)
    ensures Inv(n.(c := SubmitAll(n.c, ps)), env) && Unblocked(SubmitAll(n.c, ps))
  {
    InvIs(n, env);
    AskAllFlow(n.c.box, ps, n.c.dataAllowed, n.c.trans, n.ns, n.s.recv, n.s.kex.recvKexinit);
    AskAllLedger(n.c.box, ps, n.c.dataAllowed, n.c.trans);
    ClientGrows(n, SubmitAll(n.c, ps), env);
  }

  lemma ServerSubmits(n: Net, ps: seq<Payload>, env: Negotiation)
    requires Inv(n, env) && Applications(ps) && Unblocked(n.s)
    ensures Inv(n.(s := SubmitAll(n.s, ps)), env) && Unblocked(SubmitAll(n.s, ps))
  {
    InvIs(n, env);
    AskAllFlow(n.s.box, ps, n.s.dataAllowed, n.s.trans, n.nc, n.c.recv, n.c.kex.recvKexinit);
    AskAllLedger(n.s.box, ps, n.s.dataAllowed, n.s.trans);
    ServerGrows(n, SubmitAll(n.s, ps), env);
  }

  lemma ClientFlushes(n: Net, env: Negotiation)
    requires Inv(n, env)
    ensures Inv(n.(c := Flush(n.c)), env) && Unblocked(Flush(n.c))
  {
    InvIs(n, env);
    if n.c.dataAllowed {
      SealedFlow(n.c.box.out, n.c.box.queue, n.c.trans, n.ns, n.s.recv, n.s.kex.recvKexinit);
      FlushLedger(n.c.box, n.c.trans);
      ClientGrows(n, Flush(n.c), env);
    }
  }

  lemma ServerFlushes(n: Net, env: Negotiation)
    requires Inv(n, env)
    ensures Inv(n.(s := Flush(n.s)), env) && Unblocked(Flush(n.s))
  {
    InvIs(n, env);
    if n.s.dataAllowed {
      SealedFlow(n.s.box.out, n.s.box.queue, n.s.trans, n.nc, n.c.recv, n.c.kex.recvKexinit);
      FlushLedger(n.s.box, n.s.trans);
      ServerGrows(n, Flush(n.s), env);
    }
  }

  // ---- KEXINIT goes out ----

  /** A KEXINIT, and its guess if there is one, end the log in the right order. */
  lemma AdjacentInit(out: seq<Wire>, w: Wire, g: Wire)
    requires GuessesAdjacent(out) && w.body.Init?
    ensures !w.body.follows ==> GuessesAdjacent(out + [w])
    ensures g.body.DhInit? ==> GuessesAdjacent(out + [w] + [g])
  {
    assert GuessesAdjacent(out);
    forall i | 0 <= i < |out| && out[i].body.Init? && out[i].body.follows
      ensures i + 1 < |out| && out[i + 1].body.DhInit?
    {
    }
  }

  /** send_msg_kexinit in full, guess included. */
  function Opens(s: Endpoint, env: Negotiation, id: nat, e: nat): Endpoint
  {
    var guess := Guesses(s, env);
    var p := Ephemeral(s.kex, env.firstAlgo, e);
    s.(box := s.box.(out := Opened(s.box.out, s.trans, id, guess, p.e)),
       dataAllowed := false,
       kex := s.kex.(myInit := Some(id), sentKexinit := true,
                     param := if guess then Some(p) else s.kex.param,
                     pending := Some(Context(env.firstAlgo, NoKey, false, false))))
  }

  lemma SendKexinitOpens(s: Endpoint, env: Negotiation, id: nat, e: nat)
    requires s.dataAllowed
    ensures SendKexinit(s, env, id, e) == Opens(s, env, id, e)
  {
  }

  /** The wire side of KEXINIT and its guess. */
  function Opened(out: seq<Wire>, trans: Key, id: nat, guess: bool, e: nat): seq<Wire>
  {
    if guess then out + [Wire(KEXINIT, Init(id, true), trans)] + [Wire(KEXDH_INIT, DhInit(e), trans)]
    else out + [Wire(KEXINIT, Init(id, false), trans)]
  }

  lemma OpenedFlow(out: seq<Wire>, trans: Key, id: nat, guess: bool, e: nat, n: nat, recv: Key, inKex: bool)
    requires Flow(out, true, trans, n, recv, inKex)
    ensures var out' := Opened(out, trans, id, guess, e);
            && Flow(out', false, trans, n, recv, inKex)
            && Pending(out', n) == Pending(out, n) + ([Init(id, guess)] + if guess then [DhInit(e)] else [])
  {
    var w, g := Wire(KEXINIT, Init(id, guess), trans), Wire(KEXDH_INIT, DhInit(e), trans);
    FlowInit(out, w, trans, n, recv, inKex);
    if guess {
      FlowAppend(out + [w], g, false, trans, n, recv, inKex);
    }
  }

  lemma OpenedLedger(b: Outbox, trans: Key, id: nat, guess: bool, e: nat)
    requires Ledger(b) && GuessesAdjacent(b.out)
    ensures var out' := Opened(b.out, trans, id, guess, e);
            Ledger(b.(out := out')) && GuessesAdjacent(out') && |b.out| <= |out'| && out'[..|b.out|] == b.out
  {
    var w, g := Wire(KEXINIT, Init(id, guess), trans), Wire(KEXDH_INIT, DhInit(e), trans);
    KexLedger(b, w);
    AdjacentInit(b.out, w, g);
    if guess {
      KexLedger(b.(out := b.out + [w]), g);
    }
  }

  lemma ClientControlOpens(c: Endpoint, s: Endpoint, env: Negotiation, lc: seq<Body>, ls: seq<Body>, id: nat, e: nat)
    requires Control(c, s, env, lc, ls) && PhaseOf(c.kex) == Idle
    ensures Control(Opens(c, env, id, e), s, env,
                    lc + ([Init(id, env.guesses)] + if env.guesses then [DhInit(e)] else []), ls)
  {
  }

  lemma ClientSendsKexinitHolds(n: Net, env: Negotiation, id: nat, e: nat)
    requires Everything(n, env) && PhaseOf(n.c.kex) == Idle
    ensures Everything(n.(c := Opens(n.c, env, id, e)), env)
  {
    OpenedFlow(n.c.box.out, n.c.trans, id, env.guesses, e, n.ns, n.s.recv, n.s.kex.recvKexinit);
    OpenedLedger(n.c.box, n.c.trans, id, env.guesses, e);
    ClientControlOpens(n.c, n.s, env, Pending(n.c.box.out, n.ns), Pending(n.s.box.out, n.nc), id, e);
    var out := Opens(n.c, env, id, e).box.out;
    assert forall i :: 0 <= i < |n.c.box.out| ==> out[i] == out[..|n.c.box.out|][i];
  }

  lemma ClientSendsKexinit(n: Net, env: Negotiation, id: nat, e: nat)
    requires Inv(n, env) && PhaseOf(n.c.kex) == Idle
    ensures Inv(n.(c := Opens(n.c, env, id, e)), env)
  {
    InvIs(n, env);
    ClientSendsKexinitHolds(n, env, id, e);
    IsInv(n.(c := Opens(n.c, env, id, e)), env);
  }

  lemma ServerControlOpens(c: Endpoint, s: Endpoint, env: Negotiation, lc: seq<Body>, ls: seq<Body>, id: nat, e: nat)
    requires Control(c, s, env, lc, ls) && PhaseOf(s.kex) == Idle
    ensures Control(c, Opens(s, env, id, e), env, lc, ls + [Init(id, false)])
  {
  }

  lemma ServerSendsKexinitHolds(n: Net, env: Negotiation, id: nat, e: nat)
    requires Everything(n, env) && PhaseOf(n.s.kex) == Idle
    ensures Everything(n.(s := Opens(n.s, env, id, e)), env)
  {
    OpenedFlow(n.s.box.out, n.s.trans, id, false, e, n.nc, n.c.recv, n.c.kex.recvKexinit);
    OpenedLedger(n.s.box, n.s.trans, id, false, e);
    ServerControlOpens(n.c, n.s, env, Pending(n.c.box.out, n.ns), Pending(n.s.box.out, n.nc), id, e);
  }

  lemma ServerSendsKexinit(n: Net, env: Negotiation, id: nat, e: nat)
    requires Inv(n, env) && PhaseOf(n.s.kex) == Idle
    ensures Inv(n.(s := Opens(n.s, env, id, e)), env)
  {
    InvIs(n, env);
    ServerSendsKexinitHolds(n, env, id, e);
    IsInv(n.(s := Opens(n.s, env, id, e)), env);
  }

  // ---- packets come in: the client ----

  /** What process_packet makes of the peer's KEXINIT once ours is out. */
  function TakesKexinit(x: Endpoint, env: Negotiation, body: Body): Endpoint
    requires body.Init?
  {
    Negotiate(x.(requireNext := 0), env, body).(lastPacket := KEXINIT)
  }

  lemma ClientControlInit(c: Endpoint, s: Endpoint, env: Negotiation, lc: seq<Body>, ls: seq<Body>)
    requires Control(c, s, env, lc, ls) && PhaseOf(c.kex) == Sent && ls != [] && ls[0].Init?
    ensures var d := TakesKexinit(c, env, ls[0]);
            Control(d, s, env, lc, ls[1..]) && PhaseOf(d.kex) == Both
  {
    var d := TakesKexinit(c, env, ls[0]);
    assert d.kex.hash.value == (c.kex.myInit.value, ls[0].id);
    if PhaseOf(s.kex) == Sent {
      assert Opening(c.kex, env)[1..] == if env.guesses then [DhInit(c.kex.param.value.e)] else [];
    }
  }

  lemma ClientReadsInitHolds(n: Net, env: Negotiation)
    requires Everything(n, env) && PhaseOf(n.c.kex) == Sent
    requires n.nc < |n.s.box.out| && n.s.box.out[n.nc].body.Init?
    ensures var c := TakesKexinit(n.c, env, n.s.box.out[n.nc].body);
            Everything(n.(c := c, nc := n.nc + 1), env) && PhaseOf(c.kex) == Both
  {
    var w := n.s.box.out[n.nc];
    FlowRead(n.s.box.out, n.s.dataAllowed, n.s.trans, n.nc, n.c.recv, n.c.kex.recvKexinit);
    assert Pending(n.s.box.out, n.nc) == [w.body] + Pending(n.s.box.out, n.nc + 1);
    assert Pending(n.s.box.out, n.nc)[1..] == Pending(n.s.box.out, n.nc + 1);
    ClientControlInit(n.c, n.s, env, Pending(n.c.box.out, n.ns), Pending(n.s.box.out, n.nc));
  }

  lemma ClientReadsInit(n: Net, env: Negotiation)
    requires Inv(n, env) && PhaseOf(n.c.kex) == Sent
    requires n.nc < |n.s.box.out| && n.s.box.out[n.nc].body.Init?
    ensures var c := TakesKexinit(n.c, env, n.s.box.out[n.nc].body);
            Inv(n.(c := c, nc := n.nc + 1), env) && PhaseOf(c.kex) == Both
  {
    InvIs(n, env);
    ClientReadsInitHolds(n, env);
    var c := TakesKexinit(n.c, env, n.s.box.out[n.nc].body);
    IsInv(n.(c := c, nc := n.nc + 1), env);
  }

  /** recv_msg_kexdh_reply in full: the reply is accepted and NEWKEYS goes out under the old key. */
  function Confirms(c: Endpoint, key: Key): Endpoint
    requires c.kex.pending.Some?
  {
    c.(box := c.box.(out := c.box.out + [Wire(NEWKEYS, NewKeys, c.trans)]),
       trans := key, dataAllowed := true, requireNext := NEWKEYS, lastPacket := KEXDH_REPLY,
       doneFirst := true, doneSecond := c.doneSecond || c.doneFirst,
       kex := c.kex.(sentNewkeys := true, hash := None, param := None,
                     pending := Some(Context(c.kex.pending.value.algo, key, false, true))))
  }

  lemma RecvKexdhReplyConfirms(c: Endpoint, f: nat)
    requires c.exit.None? && c.kex.sentKexinit && c.kex.recvKexinit && !c.kex.recvNewkeys && c.kex.initSent
    requires c.kex.hash.Some? && c.kex.pending.Some? && c.kex.param.Some?
    ensures var key := AgreedKey(c.kex, c.kex.param.value.e, f);
            RecvKexdhReply(c.(requireNext := 0), DhReply(f, key)).(lastPacket := KEXDH_REPLY) == Confirms(c, key)
  {
    var t := c.(requireNext := 0);
    SendNewkeysResult(t.(kex := t.kex.(param := None)), AgreedKey(c.kex, c.kex.param.value.e, f));
  }

  lemma ClientControlReply(c: Endpoint, s: Endpoint, env: Negotiation, lc: seq<Body>, ls: seq<Body>)
    requires Control(c, s, env, lc, ls) && ls != [] && ls[0].DhReply?
    ensures PhaseOf(c.kex) == Both && c.kex.hash.Some? && c.kex.pending.Some? && c.kex.param.Some?
    ensures ls[0] == DhReply(ls[0].f, AgreedKey(c.kex, c.kex.param.value.e, ls[0].f))
    ensures Control(c, s, env, lc, ls) && Control(Confirms(c, ls[0].signed), s, env, lc + [NewKeys], ls[1..])
  {
    assert PhaseOf(c.kex) == Both && PhaseOf(s.kex) == Done;
    assert lc == [] || (lc + [NewKeys])[1..] == [NewKeys];
  }

  lemma ClientReadsReplyHolds(n: Net, env: Negotiation)
    requires Everything(n, env)
    requires n.nc < |n.s.box.out| && n.s.box.out[n.nc].body.DhReply?
    ensures PhaseOf(n.c.kex) == Both && n.c.kex.hash.Some? && n.c.kex.pending.Some? && n.c.kex.param.Some?
    ensures var body := n.s.box.out[n.nc].body;
            && body == DhReply(body.f, AgreedKey(n.c.kex, n.c.kex.param.value.e, body.f))
            && Everything(n.(c := Confirms(n.c, body.signed), nc := n.nc + 1), env)
  {
    var body := n.s.box.out[n.nc].body;
    var lc, ls := Pending(n.c.box.out, n.ns), Pending(n.s.box.out, n.nc);
    FlowRead(n.s.box.out, n.s.dataAllowed, n.s.trans, n.nc, n.c.recv, n.c.kex.recvKexinit);
    assert ls[1..] == Pending(n.s.box.out, n.nc + 1);
    ClientControlReply(n.c, n.s, env, lc, ls);
    var v := Wire(NEWKEYS, NewKeys, n.c.trans);
    FlowNewKeys(n.c.box.out, v, n.c.trans, body.signed, n.ns, n.s.recv, n.s.kex.recvKexinit);
    KexLedger(n.c.box, v);
    AdjacentOther(n.c.box.out, v);
  }

  lemma ClientReadsReply(n: Net, env: Negotiation)
    requires Inv(n, env)
    requires n.nc < |n.s.box.out| && n.s.box.out[n.nc].body.DhReply?
    ensures PhaseOf(n.c.kex) == Both && n.c.kex.hash.Some? && n.c.kex.pending.Some? && n.c.kex.param.Some?
    ensures var body := n.s.box.out[n.nc].body;
            && body == DhReply(body.f, AgreedKey(n.c.kex, n.c.kex.param.value.e, body.f))
            && Inv(n.(c := Confirms(n.c, body.signed), nc := n.nc + 1), env)
  {
    InvIs(n, env);
    ClientReadsReplyHolds(n, env);
    var body := n.s.box.out[n.nc].body;
    IsInv(n.(c := Confirms(n.c, body.signed), nc := n.nc + 1), env);
  }

  lemma AdjacentOther(out: seq<Wire>, w: Wire)
    requires GuessesAdjacent(out) && !w.body.Init?
    ensures GuessesAdjacent(out + [w])
  {
    forall i | 0 <= i < |out| && out[i].body.Init? && out[i].body.follows
      ensures i + 1 < |out| && out[i + 1].body.DhInit?
    {
    }
  }

  function TakesNewkeys(x: Endpoint): Endpoint
  {
    RecvNewkeys(x.(requireNext := 0)).(lastPacket := NEWKEYS)
  }

  lemma ClientControlNewkeys(c: Endpoint, s: Endpoint, env: Negotiation, lc: seq<Body>, ls: seq<Body>)
    requires Control(c, s, env, lc, ls) && Settled(c) && ls != [] && ls[0].NewKeys?
    ensures var d := TakesNewkeys(c);
            && Control(d, s, env, lc, ls[1..]) && PhaseOf(d.kex) == Idle
            && d.trans == c.trans && d.box == c.box && d.dataAllowed == c.dataAllowed
            && d.recv == s.trans && NewKeys !in ls[1..]
  {
    assert PhaseOf(c.kex) == Done;
    assert NewKeys in ls;
  }

  lemma ClientReadsNewkeysHolds(n: Net, env: Negotiation)
    requires Everything(n, env) && Settled(n.c)
    requires n.nc < |n.s.box.out| && n.s.box.out[n.nc].body.NewKeys?
    ensures var c := TakesNewkeys(n.c);
            Everything(n.(c := c, nc := n.nc + 1), env) && PhaseOf(c.kex) == Idle
  {
    var lc, ls := Pending(n.c.box.out, n.ns), Pending(n.s.box.out, n.nc);
    FlowRead(n.s.box.out, n.s.dataAllowed, n.s.trans, n.nc, n.c.recv, n.c.kex.recvKexinit);
    assert ls[1..] == Pending(n.s.box.out, n.nc + 1);
    ClientControlNewkeys(n.c, n.s, env, lc, ls);
  }

  lemma ClientReadsNewkeys(n: Net, env: Negotiation)
    requires Inv(n, env) && Settled(n.c)
    requires n.nc < |n.s.box.out| && n.s.box.out[n.nc].body.NewKeys?
    ensures var c := TakesNewkeys(n.c);
            Inv(n.(c := c, nc := n.nc + 1), env) && PhaseOf(c.kex) == Idle
  {
    InvIs(n, env);
    ClientReadsNewkeysHolds(n, env);
    IsInv(n.(c := TakesNewkeys(n.c), nc := n.nc + 1), env);
  }

  // ---- packets come in: the server ----

  lemma ServerControlInit(c: Endpoint, s: Endpoint, env: Negotiation, lc: seq<Body>, ls: seq<Body>)
    requires Control(c, s, env, lc, ls) && PhaseOf(s.kex) == Sent && lc != [] && lc[0].Init?
    ensures var t := TakesKexinit(s, env, lc[0]);
            && Control(c, t, env, lc[1..], ls) && PhaseOf(t.kex) == Both
            && (t.ignoreNext ==> lc[0].follows)
  {
    var t := TakesKexinit(s, env, lc[0]);
    assert t.kex.hash.value == (lc[0].id, s.kex.myInit.value);
    if PhaseOf(c.kex) == Sent {
      assert Opening(c.kex, env)[1..] == if env.guesses then [DhInit(c.kex.param.value.e)] else [];
    }
  }

  lemma ServerReadsInitHolds(n: Net, env: Negotiation)
    requires Everything(n, env) && PhaseOf(n.s.kex) == Sent
    requires n.ns < |n.c.box.out| && n.c.box.out[n.ns].body.Init?
    ensures var s := TakesKexinit(n.s, env, n.c.box.out[n.ns].body);
            Everything(n.(s := s, ns := n.ns + 1), env) && PhaseOf(s.kex) == Both
  {
    var w := n.c.box.out[n.ns];
    var lc, ls := Pending(n.c.box.out, n.ns), Pending(n.s.box.out, n.nc);
    FlowRead(n.c.box.out, n.c.dataAllowed, n.c.trans, n.ns, n.s.recv, n.s.kex.recvKexinit);
    assert lc[1..] == Pending(n.c.box.out, n.ns + 1);
    ServerControlInit(n.c, n.s, env, lc, ls);
  }

  lemma ServerReadsInit(n: Net, env: Negotiation)
    requires Inv(n, env) && PhaseOf(n.s.kex) == Sent
    requires n.ns < |n.c.box.out| && n.c.box.out[n.ns].body.Init?
    ensures var s := TakesKexinit(n.s, env, n.c.box.out[n.ns].body);
            Inv(n.(s := s, ns := n.ns + 1), env) && PhaseOf(s.kex) == Both
  {
    InvIs(n, env);
    ServerReadsInitHolds(n, env);
    var s := TakesKexinit(n.s, env, n.c.box.out[n.ns].body);
    IsInv(n.(s := s, ns := n.ns + 1), env);
  }

  /** A wrong guess is thrown away. */
  function Ignores(x: Endpoint): Endpoint
  {
    x.(ignoreNext := false, lastPacket := KEXDH_INIT)
  }

  lemma ServerIgnoresGuess(n: Net, env: Negotiation)
    requires Inv(n, env) && n.s.ignoreNext
    ensures n.ns < |n.c.box.out| && n.c.box.out[n.ns].body.DhInit?
    ensures Inv(n.(s := Ignores(n.s), ns := n.ns + 1), env)
  {
    InvIs(n, env);
    var lc, ls := Pending(n.c.box.out, n.ns), Pending(n.s.box.out, n.nc);
    FlowRead(n.c.box.out, n.c.dataAllowed, n.c.trans, n.ns, n.s.recv, n.s.kex.recvKexinit);
    var rest := Pending(n.c.box.out, n.ns + 1);
    assert lc[1..] == rest;
    assert PhaseOf(n.s.kex) == Both;
    ServerControlIgnore(n.c, n.s, env, lc, ls);
  }

  lemma ServerControlIgnore(c: Endpoint, s: Endpoint, env: Negotiation, lc: seq<Body>, ls: seq<Body>)
    requires Control(c, s, env, lc, ls) && s.ignoreNext && lc != []
    ensures Control(c, Ignores(s), env, lc[1..], ls)
  {
    if PhaseOf(c.kex) == Both && c.kex.initSent && !c.kex.firstMatches {
      assert lc[1..] == [lc[1]];
    }
  }

  /** send_msg_newkeys in the middle of an exchange: only the transmit key changes hands. */
  lemma SendNewkeysResult(s: Endpoint, key: Key)
    requires s.exit.None? && s.kex.sentKexinit && s.kex.recvKexinit && !s.kex.recvNewkeys && s.kex.pending.Some?
    ensures SendNewkeys(s, key)
         == s.(box := Put(s.box, s.dataAllowed, s.trans, Payload(NEWKEYS, NewKeys)),
               trans := key, dataAllowed := true, doneFirst := true, doneSecond := s.doneSecond || s.doneFirst,
               kex := s.kex.(sentNewkeys := true, hash := None,
                             pending := Some(Context(s.kex.pending.value.algo, key, false, true))))
  {
  }

  /** What the handler puts on the wire: the reply and NEWKEYS under the old key, EXT_INFO under the new. */
  function Answer(b: Outbox, trans: Key, key: Key, f: nat, ext: bool, msg: nat): Outbox
  {
    var c := b.(out := b.out + [Wire(KEXDH_REPLY, DhReply(f, key), trans)] + [Wire(NEWKEYS, NewKeys, trans)]);
    if ext then Ask(c, true, key, Payload(EXT_INFO, Plain(msg))) else c
  }

  /** The key that the server derives from the client's public value. */
  function AgreedKey(k: Kex, e: nat, f: nat): Key
    requires k.hash.Some?
  {
    Transcript(k.hash.value.0, k.hash.value.1, e, f)
  }

  /** recv_msg_kexdh_init in full: reply, NEWKEYS and perhaps EXT_INFO. */
  function Answers(s: Endpoint, e: nat, f: nat, ext: bool, msg: nat): Endpoint
    requires s.kex.hash.Some? && s.kex.pending.Some?
  {
    var key := AgreedKey(s.kex, e, f);
    s.(box := Answer(s.box, s.trans, key, f, !(s.doneSecond || s.doneFirst) && ext, msg),
       trans := key, dataAllowed := true, requireNext := NEWKEYS, lastPacket := KEXDH_INIT,
       doneFirst := true, doneSecond := s.doneSecond || s.doneFirst,
       kex := s.kex.(sentNewkeys := true, hash := None,
                     pending := Some(Context(s.kex.pending.value.algo, key, false, true))))
  }

  lemma RecvKexdhInitAnswers(s: Endpoint, e: nat, f: nat, ext: bool, msg: nat)
    requires s.exit.None? && s.kex.sentKexinit && s.kex.recvKexinit && !s.kex.recvNewkeys
    requires s.kex.hash.Some? && s.kex.pending.Some?
    ensures RecvKexdhInit(s.(requireNext := 0), e, f, ext, msg).(lastPacket := KEXDH_INIT) == Answers(s, e, f, ext, msg)
  {
    var t, key := s.(requireNext := 0), AgreedKey(s.kex, e, f);
    var w := Payload(KEXDH_REPLY, DhReply(f, key));
    SendNewkeysResult(Encrypt(t, w), key);
  }

  lemma ServerControlDhInit(c: Endpoint, s: Endpoint, env: Negotiation, lc: seq<Body>, ls: seq<Body>,
                            f: nat, ext: bool, msg: nat)
    requires Control(c, s, env, lc, ls) && PhaseOf(s.kex) == Both && !s.ignoreNext && lc != [] && lc[0].DhInit?
    ensures !s.dataAllowed && NewKeys !in lc && NewKeys !in ls
    ensures Control(c, Answers(s, lc[0].e, f, ext, msg), env, lc[1..],
                    ls + [DhReply(f, AgreedKey(s.kex, lc[0].e, f)), NewKeys])
  {
    assert PhaseOf(s.kex) == Both;
    var key := AgreedKey(s.kex, lc[0].e, f);
    assert [Init(key.serverInit, false)] + [DhReply(f, key), NewKeys]
        == [Init(key.serverInit, false), DhReply(f, key), NewKeys];
    assert [] + [DhReply(f, key), NewKeys] == [DhReply(f, key), NewKeys];
  }

  lemma AnswerFlow(b: Outbox, trans: Key, key: Key, f: nat, ext: bool, msg: nat, n: nat, recv: Key, inKex: bool)
    requires Flow(b.out, false, trans, n, recv, inKex) && NewKeys !in Pending(b.out, n)
    requires Ledger(b) && GuessesAdjacent(b.out)
    ensures var c := Answer(b, trans, key, f, ext, msg);
            && Flow(c.out, true, key, n, recv, inKex)
            && Pending(c.out, n) == Pending(b.out, n) + [DhReply(f, key), NewKeys]
            && Ledger(c) && GuessesAdjacent(c.out)
            && |b.out| <= |c.out| && c.out[..|b.out|] == b.out
  {
    var w, v := Wire(KEXDH_REPLY, DhReply(f, key), trans), Wire(NEWKEYS, NewKeys, trans);
    FlowAppend(b.out, w, false, trans, n, recv, inKex);
    FlowNewKeys(b.out + [w], v, trans, key, n, recv, inKex);
    KexLedger(b, w);
    KexLedger(b.(out := b.out + [w]), v);
    AdjacentOther(b.out, w);
    AdjacentOther(b.out + [w], v);
    assert Pending(b.out, n) + [w.body] + [v.body] == Pending(b.out, n) + [DhReply(f, key), NewKeys];
    if ext {
      var c, x := b.(out := b.out + [w] + [v]), Payload(EXT_INFO, Plain(msg));
      AskFlow(c, x, true, key, n, recv, inKex);
      OkayLedger(c, true, key, x);
      AdjacentGrowth(c.out, Ask(c, true, key, x).out);
    }
  }

  lemma ServerReadsDhInitHolds(n: Net, env: Negotiation, f: nat, ext: bool, msg: nat)
    requires Everything(n, env) && PhaseOf(n.s.kex) == Both && !n.s.ignoreNext
    requires n.ns < |n.c.box.out| && n.c.box.out[n.ns].body.DhInit? && n.s.kex.hash.Some? && n.s.kex.pending.Some?
    ensures Everything(n.(s := Answers(n.s, n.c.box.out[n.ns].body.e, f, ext, msg), ns := n.ns + 1), env)
  {
    var body := n.c.box.out[n.ns].body;
    var lc, ls := Pending(n.c.box.out, n.ns), Pending(n.s.box.out, n.nc);
    FlowRead(n.c.box.out, n.c.dataAllowed, n.c.trans, n.ns, n.s.recv, n.s.kex.recvKexinit);
    assert lc[1..] == Pending(n.c.box.out, n.ns + 1);
    ServerControlDhInit(n.c, n.s, env, lc, ls, f, ext, msg);
    AnswerFlow(n.s.box, n.s.trans, AgreedKey(n.s.kex, body.e, f), f, !(n.s.doneSecond || n.s.doneFirst) && ext, msg,
               n.nc, n.c.recv, n.c.kex.recvKexinit);
  }

  lemma ServerReadsDhInit(n: Net, env: Negotiation, f: nat, ext: bool, msg: nat)
    requires Inv(n, env) && PhaseOf(n.s.kex) == Both && !n.s.ignoreNext
    requires n.ns < |n.c.box.out| && n.c.box.out[n.ns].body.DhInit? && n.s.kex.hash.Some? && n.s.kex.pending.Some?
    ensures Inv(n.(s := Answers(n.s, n.c.box.out[n.ns].body.e, f, ext, msg), ns := n.ns + 1), env)
  {
    InvIs(n, env);
    ServerReadsDhInitHolds(n, env, f, ext, msg);
    IsInv(n.(s := Answers(n.s, n.c.box.out[n.ns].body.e, f, ext, msg), ns := n.ns + 1), env);
  }

  lemma ServerControlNewkeys(c: Endpoint, s: Endpoint, env: Negotiation, lc: seq<Body>, ls: seq<Body>)
    requires Control(c, s, env, lc, ls) && lc != [] && lc[0].NewKeys?
    ensures var t := TakesNewkeys(s);
            && Control(c, t, env, lc[1..], ls) && PhaseOf(t.kex) == Idle
            && t.trans == s.trans && t.box == s.box && t.dataAllowed == s.dataAllowed && !t.ignoreNext
            && t.recv == c.trans && NewKeys !in lc[1..]
  {
    assert PhaseOf(s.kex) == Done;
    assert NewKeys in lc;
    if PhaseOf(c.kex) == Sent {
      assert ([NewKeys] + Opening(c.kex, env))[1..] == Opening(c.kex, env);
    }
  }

  /** A second try for an exchange that the server has already answered is turned down. */
  function TurnsDown(s: Endpoint, msg: nat): Endpoint
  {
    RecvUnimplemented(s, msg).(lastPacket := KEXDH_INIT)
  }

  lemma ServerControlStray(c: Endpoint, s: Endpoint, env: Negotiation, lc: seq<Body>, ls: seq<Body>)
    requires Control(c, s, env, lc, ls) && PhaseOf(s.kex) == Done && lc != [] && lc[0].DhInit?
    ensures Control(c, s.(lastPacket := KEXDH_INIT), env, lc[1..], ls)
  {
    assert NewKeys in lc ==> NewKeys in lc[1..];
  }

  lemma ServerReadsStray(n: Net, env: Negotiation, msg: nat)
    requires Inv(n, env) && Unblocked(n.s) && PhaseOf(n.s.kex) == Done
    requires n.ns < |n.c.box.out| && n.c.box.out[n.ns].body.DhInit?
    ensures Inv(n.(s := TurnsDown(n.s, msg), ns := n.ns + 1), env)
  {
    InvIs(n, env);
    var u := Payload(UNIMPLEMENTED, Plain(msg));
    AskAllOne(n.s.box, n.s.dataAllowed, n.s.trans, u);
    ServerSubmits(n, [u], env);
    var m := n.(s := SubmitAll(n.s, [u]));
    InvIs(m, env);
    var lc, ls := Pending(m.c.box.out, m.ns), Pending(m.s.box.out, m.nc);
    FlowRead(m.c.box.out, m.c.dataAllowed, m.c.trans, m.ns, m.s.recv, m.s.kex.recvKexinit);
    assert lc[1..] == Pending(m.c.box.out, m.ns + 1);
    ServerControlStray(m.c, m.s, env, lc, ls);
  }

  lemma ServerReadsNewkeysHolds(n: Net, env: Negotiation)
    requires Everything(n, env)
    requires n.ns < |n.c.box.out| && n.c.box.out[n.ns].body.NewKeys?
    ensures var s := TakesNewkeys(n.s);
            Everything(n.(s := s, ns := n.ns + 1), env) && PhaseOf(s.kex) == Idle
  {
    var lc, ls := Pending(n.c.box.out, n.ns), Pending(n.s.box.out, n.nc);
    FlowRead(n.c.box.out, n.c.dataAllowed, n.c.trans, n.ns, n.s.recv, n.s.kex.recvKexinit);
    assert lc[1..] == Pending(n.c.box.out, n.ns + 1);
    ServerControlNewkeys(n.c, n.s, env, lc, ls);
  }

  lemma ServerReadsNewkeys(n: Net, env: Negotiation)
    requires Inv(n, env)
    requires n.ns < |n.c.box.out| && n.c.box.out[n.ns].body.NewKeys?
    ensures var s := TakesNewkeys(n.s);
            Inv(n.(s := s, ns := n.ns + 1), env) && PhaseOf(s.kex) == Idle
  {
    InvIs(n, env);
    ServerReadsNewkeysHolds(n, env);
    IsInv(n.(s := TakesNewkeys(n.s), ns := n.ns + 1), env);
  }

  // ---- the client's loop handler ----

  /** The loop handler's try after a guess that was wrong or never made. */
  function Tries(c: Endpoint, e: nat): Endpoint
    requires c.kex.pending.Some?
  {
    var p := Ephemeral(c.kex, c.kex.pending.value.algo, e);
    c.(box := c.box.(out := c.box.out + [Wire(KEXDH_INIT, DhInit(p.e), c.trans)]),
       kex := c.kex.(param := Some(p), initSent := true))
  }

  lemma LoopHandlerCases(c: Endpoint, env: Negotiation, e: nat)
    requires Local(c, env) && !c.server
    requires PhaseOf(c.kex) == Done && c.kex.initSent ==> c.lastPacket != 0 && c.lastPacket != KEXINIT
    ensures LoopHandler(c, e)
         == if PhaseOf(c.kex) == Both && !c.kex.initSent
            then if c.kex.firstMatches then c.(kex := c.kex.(initSent := true)) else Tries(c, e)
            else if PhaseOf(c.kex) == Done && c.kex.initSent then c.(kex := c.kex.(initSent := false))
            else c
  {
  }

  lemma ClientSendsDhInit(n: Net, env: Negotiation, e: nat)
    requires Inv(n, env) && PhaseOf(n.c.kex) == Both && !n.c.kex.initSent && !n.c.kex.firstMatches
    requires n.c.kex.pending.Some?
    ensures Inv(n.(c := Tries(n.c, e)), env)
  {
    InvIs(n, env);
    var c := Tries(n.c, e);
    var out, lc := n.c.box.out, Pending(n.c.box.out, n.ns);
    var w := Wire(KEXDH_INIT, DhInit(c.kex.param.value.e), n.c.trans);
    FlowAppend(out, w, false, n.c.trans, n.ns, n.s.recv, n.s.kex.recvKexinit);
    KexLedger(n.c.box, w);
    AdjacentOther(out, w);
    RetryControl(n.c, c, n.s, env, lc, Pending(n.s.box.out, n.nc));
  }

  lemma RetryControl(c: Endpoint, d: Endpoint, s: Endpoint, env: Negotiation, lc: seq<Body>, ls: seq<Body>)
    requires Control(c, s, env, lc, ls) && PhaseOf(c.kex) == Both && !c.kex.initSent && !c.kex.firstMatches
    requires c.kex.pending.Some? && d.kex.param.Some? && d.kex == c.kex.(param := d.kex.param, initSent := true)
    requires c.kex.param.Some? && c.kex.param.value.algo == c.kex.pending.value.algo ==> d.kex.param == c.kex.param
    requires d == c.(box := d.box, kex := d.kex)
    ensures Control(d, s, env, lc + [DhInit(d.kex.param.value.e)], ls)
  {
    var w := DhInit(d.kex.param.value.e);
    if PhaseOf(s.kex) == Sent {
      assert (lc + [w])[1..] == lc[1..] + [w];
    }
  }

  /** Remembering that the first try is out, or that the exchange is over, changes nothing on the wire. */
  lemma ClientMarks(n: Net, env: Negotiation, initSent: bool)
    requires Inv(n, env)
    requires if initSent then PhaseOf(n.c.kex) == Both && !n.c.kex.initSent && n.c.kex.firstMatches
             else PhaseOf(n.c.kex) == Done && n.c.lastPacket != KEXINIT
    ensures Inv(n.(c := n.c.(kex := n.c.kex.(initSent := initSent))), env)
  {
    InvIs(n, env);
  }

  lemma ClientLoops(n: Net, env: Negotiation, e: nat)
    requires Inv(n, env)
    requires PhaseOf(n.c.kex) == Done && n.c.kex.initSent ==> n.c.lastPacket != 0 && n.c.lastPacket != KEXINIT
    ensures var c := LoopHandler(n.c, e);
            && Inv(n.(c := c), env)
            && (PhaseOf(c.kex) == Both ==> c.kex.initSent) && (PhaseOf(c.kex) == Done ==> !c.kex.initSent)
            && c.dataAllowed == n.c.dataAllowed && c.box.queue == n.c.box.queue
  {
    InvIs(n, env);
    LoopHandlerCases(n.c, env, e);
    if PhaseOf(n.c.kex) == Both && !n.c.kex.initSent {
      if n.c.kex.firstMatches {
        ClientMarks(n, env, true);
      } else {
        ClientSendsDhInit(n, env, e);
      }
    } else if PhaseOf(n.c.kex) == Done && n.c.kex.initSent {
      ClientMarks(n, env, false);
    }
  }

  // ---- one packet, any packet ----

  predicate Benign(x: Exit) { x == Disconnected || x == BeforeUserauth }

  lemma AskAllOne(b: Outbox, allowed: bool, key: Key, p: Payload)
    ensures AskAll(b, allowed, key, [p]) == Ask(b, allowed, key, p)
  {
    assert [p][..0] == [];
  }

  /** An ordinary packet changes no control state; replies to it may go out or be held back. */
  lemma ReceivePlain(x: Endpoint, env: Negotiation, w: Wire, inp: Input) returns (ps: seq<Payload>, auth: bool)
    requires Local(x, env) && WellTyped(w.typ, w.body) && w.body.Plain? && w.key == x.recv
    requires x.kex.recvKexinit ==> OkayDuringKex(w.typ)
    requires x.requireNext != KEXINIT && !x.ignoreNext && Applications(inp.replies)
    ensures var y := Receive(x, env, w, inp);
            if y.exit.Some? then Benign(y.exit.value)
            else Applications(ps) && y == SubmitAll(x, ps).(authDone := auth, lastPacket := w.typ)
  {
    var u := Payload(UNIMPLEMENTED, Plain(inp.msg));
    AskAllOne(x.box, x.dataAllowed, x.trans, u);
    ps, auth := [], x.authDone;
    if w.typ in {IGNORE, DEBUG, UNIMPLEMENTED, DISCONNECT} {
    } else if x.requireNext != 0 || !Handled(x.server, w.typ) {
      ps := [u];
    } else {
      ps, auth := inp.replies, x.authDone || inp.authNow;
    }
  }

  lemma ReceiveInit(x: Endpoint, env: Negotiation, w: Wire, inp: Input)
    requires Local(x, env) && PhaseOf(x.kex) in {Idle, Sent} && w.key == x.recv
    requires w.typ == KEXINIT && w.body.Init?
    ensures var y := if PhaseOf(x.kex) == Idle then Opens(x, env, inp.id, inp.e) else x;
            TakesKexinit(y, env, w.body).exit.None? ==> Receive(x, env, w, inp) == TakesKexinit(y, env, w.body)
  {
    if PhaseOf(x.kex) == Idle {
      SendKexinitOpens(x, env, inp.id, inp.e);
    }
  }

  lemma ReceiveNewkeys(x: Endpoint, env: Negotiation, w: Wire, inp: Input)
    requires Local(x, env) && PhaseOf(x.kex) == Done && w.key == x.recv && w.typ == NEWKEYS
    ensures TakesNewkeys(x).exit.None? ==> Receive(x, env, w, inp) == TakesNewkeys(x)
  {
  }

  lemma ReceiveReply(x: Endpoint, env: Negotiation, w: Wire, inp: Input)
    requires Local(x, env) && !x.server && PhaseOf(x.kex) == Both && x.kex.initSent && w.key == x.recv
    requires w.typ == KEXDH_REPLY && w.body.DhReply? && x.kex.param.Some?
    requires w.body.signed == AgreedKey(x.kex, x.kex.param.value.e, w.body.f)
    ensures Receive(x, env, w, inp) == Confirms(x, w.body.signed)
  {
    RecvKexdhReplyConfirms(x, w.body.f);
  }

  lemma ReceiveDhInit(x: Endpoint, env: Negotiation, w: Wire, inp: Input)
    requires Local(x, env) && x.server && PhaseOf(x.kex) == Both && w.key == x.recv
    requires w.typ == KEXDH_INIT && w.body.DhInit?
    ensures Receive(x, env, w, inp)
         == if x.ignoreNext then Ignores(x) else Answers(x, w.body.e, inp.f, inp.extInfo, inp.msg)
  {
    if !x.ignoreNext {
      RecvKexdhInitAnswers(x, w.body.e, inp.f, inp.extInfo, inp.msg);
    }
  }

  lemma ReceiveStray(x: Endpoint, env: Negotiation, w: Wire, inp: Input)
    requires Local(x, env) && x.server && PhaseOf(x.kex) == Done && w.key == x.recv
    requires w.typ == KEXDH_INIT && w.body.DhInit?
    ensures Receive(x, env, w, inp) == TurnsDown(x, inp.msg)
  {
  }

  // ---- one pass of the main loop ----

  /** What the reader of the next packet may rely on. */
  lemma NextForClient(n: Net, env: Negotiation)
    requires Inv(n, env) && n.nc < |n.s.box.out|
    ensures var w := n.s.box.out[n.nc];
            && w.key == n.c.recv && WellTyped(w.typ, w.body) && !w.body.DhInit?
            && (n.c.kex.recvKexinit ==> OkayDuringKex(w.typ))
            && (n.c.requireNext == KEXINIT ==> w.body.Init?)
            && (w.body.Init? ==> PhaseOf(n.c.kex) in {Idle, Sent})
            && (w.body.NewKeys? ==> PhaseOf(n.c.kex) == Done)
  {
    InvIs(n, env);
    FlowRead(n.s.box.out, n.s.dataAllowed, n.s.trans, n.nc, n.c.recv, n.c.kex.recvKexinit);
    var ls := Pending(n.s.box.out, n.nc);
    var w := n.s.box.out[n.nc];
    assert !w.body.Plain? ==> ls[0] == w.body;
  }

  /** What an endpoint has sent and holds back is in order, whether or not it goes on. */
  ghost predicate InOrder(x: Endpoint) { Lawful(x.box.out) && Ledger(x.box) && Unblocked(x) }

  /** After a packet: a benign end that has sent nothing, or everything still holds. */
  ghost predicate Continues(x: Endpoint, n: Net, env: Negotiation)
  {
    if x.exit.Some? then Benign(x.exit.value) && InOrder(x) else Inv(n, env)
  }

  /** The peer's KEXINIT, ours going out first if need be. */
  lemma ClientAcceptsKexinit(n: Net, env: Negotiation, id: nat, e: nat)
    requires Inv(n, env) && n.nc < |n.s.box.out| && n.s.box.out[n.nc].body.Init?
    requires PhaseOf(n.c.kex) in {Idle, Sent}
    ensures var y := if PhaseOf(n.c.kex) == Idle then Opens(n.c, env, id, e) else n.c;
            var c := TakesKexinit(y, env, n.s.box.out[n.nc].body);
            c.exit.None? && Inv(n.(c := c, nc := n.nc + 1), env) && PhaseOf(c.kex) == Both
  {
    InvIs(n, env);
    if PhaseOf(n.c.kex) == Idle {
      ClientSendsKexinit(n, env, id, e);
      ClientReadsInit(n.(c := Opens(n.c, env, id, e)), env);
    } else {
      ClientReadsInit(n, env);
    }
  }

  lemma ClientReadsKexinit(n: Net, env: Negotiation, inp: Input)
    requires Inv(n, env) && n.nc < |n.s.box.out| && n.s.box.out[n.nc].body.Init?
    ensures var c := Receive(n.c, env, n.s.box.out[n.nc], inp);
            c.exit.None? && Inv(n.(c := c, nc := n.nc + 1), env) && PhaseOf(c.kex) == Both
  {
    InvIs(n, env);
    NextForClient(n, env);
    ClientAcceptsKexinit(n, env, inp.id, inp.e);
    ReceiveInit(n.c, env, n.s.box.out[n.nc], inp);
  }

  lemma ClientReads(n: Net, env: Negotiation, inp: Input)
    requires Inv(n, env) && Settled(n.c) && n.nc < |n.s.box.out| && Applications(inp.replies)
    ensures var c := Receive(n.c, env, n.s.box.out[n.nc], inp);
            && Continues(c, n.(c := c, nc := n.nc + 1), env)
            && (PhaseOf(c.kex) == Done && c.kex.initSent ==> c.lastPacket != 0 && c.lastPacket != KEXINIT)
  {
    InvIs(n, env);
    var w := n.s.box.out[n.nc];
    NextForClient(n, env);
    if w.body.Plain? {
      ClientReadsPlain(n, env, inp);
    } else if w.body.Init? {
      ClientReadsKexinit(n, env, inp);
    } else if w.body.DhReply? {
      ClientReadsReply(n, env);
      ReceiveReply(n.c, env, w, inp);
    } else {
      ClientReadsNewkeys(n, env);
      ReceiveNewkeys(n.c, env, w, inp);
    }
  }

  lemma ClientReadsPlain(n: Net, env: Negotiation, inp: Input)
    requires Inv(n, env) && Settled(n.c) && n.nc < |n.s.box.out| && Applications(inp.replies)
    requires n.s.box.out[n.nc].body.Plain?
    ensures var c := Receive(n.c, env, n.s.box.out[n.nc], inp);
            Continues(c, n.(c := c, nc := n.nc + 1), env) && !(PhaseOf(c.kex) == Done && c.kex.initSent)
  {
    var w := n.s.box.out[n.nc];
    NextForClient(n, env);
    BothLocal(n, env);
    var ps, auth := ReceivePlain(n.c, env, w, inp);
    var y := Receive(n.c, env, w, inp);
    if y.exit.None? {
      var m := n.(c := SubmitAll(n.c, ps));
      ClientSubmits(n, ps, env);
      ClientPasses(m, auth, w.typ, env);
      assert m.(c := m.c.(authDone := auth, lastPacket := w.typ), nc := m.nc + 1) == n.(c := y, nc := n.nc + 1);
    } else {
      ExitKeepsKex(n.c, env, w, inp);
      ExitKeepsBox(n.c, env, w, inp);
    }
  }

  /** A benign end leaves the exchange as it was. */
  lemma ExitKeepsKex(x: Endpoint, env: Negotiation, w: Wire, inp: Input)
    requires w.typ == DISCONNECT || (w.body.Plain? && WellTyped(w.typ, w.body) && w.key == x.recv)
    requires x.exit.None? && Receive(x, env, w, inp).exit.Some?
    ensures Receive(x, env, w, inp).kex == x.kex
  {
    if w.key == x.recv && w.typ != DISCONNECT {
      PlainKeepsKex(x, env, w, inp);
    }
  }

  /** It comes from the checks before the handlers. */
  lemma PlainExits(x: Endpoint, env: Negotiation, w: Wire, inp: Input)
    requires w.body.Plain? && WellTyped(w.typ, w.body) && x.exit.None? && Filter(x, env, w, inp).exit.Some?
    ensures Filter(x, env, w, inp) in {x.(exit := Some(Disconnected)), x.(exit := Some(UnexpectedPacketType)),
                                       x.(requireNext := 0, exit := Some(BeforeUserauth))}
  {
    PlainGoesOn(x.(requireNext := 0), env, w, inp);
    var d := Dispatch(x.(requireNext := 0), env, w, inp);
    assert d.exit.None?;
    if w.typ !in {IGNORE, DEBUG, UNIMPLEMENTED} && w.typ != DISCONNECT && (x.requireNext == 0 || x.requireNext == w.typ) {
      assert x.ignoreNext || (!x.authDone && w.typ > MAX_UNAUTH_PACKET_TYPE) || Filter(x, env, w, inp) == d;
    }
  }

  /** So it has sent nothing. */
  lemma ExitKeepsBox(x: Endpoint, env: Negotiation, w: Wire, inp: Input)
    requires w.body.Plain? && WellTyped(w.typ, w.body)
    requires x.exit.None? && Receive(x, env, w, inp).exit.Some?
    ensures var y := Receive(x, env, w, inp); y.box == x.box && y.dataAllowed == x.dataAllowed
  {
    if w.key == x.recv {
      PlainExits(x, env, w, inp);
      assert Receive(x, env, w, inp) == Filter(x, env, w, inp);
    }
  }

  lemma PlainGoesOn(x: Endpoint, env: Negotiation, w: Wire, inp: Input)
    requires w.body.Plain? && WellTyped(w.typ, w.body)
    ensures Dispatch(x, env, w, inp).exit == x.exit
  {
  }

  lemma PlainKeepsKex(x: Endpoint, env: Negotiation, w: Wire, inp: Input)
    requires w.body.Plain? && WellTyped(w.typ, w.body)
    ensures Filter(x, env, w, inp).kex == x.kex
  {
    assert Dispatch(x.(requireNext := 0), env, w, inp).kex == x.kex;
  }

  /** Passing over an ordinary packet. */
  lemma ClientPassesHolds(n: Net, auth: bool, typ: int, env: Negotiation)
    requires Everything(n, env) && (PhaseOf(n.c.kex) == Both ==> n.c.kex.initSent)
    requires n.nc < |n.s.box.out| && n.s.box.out[n.nc].body.Plain? && typ != KEXINIT && typ != 0
    requires n.c.requireNext != KEXINIT
    ensures Everything(n.(c := n.c.(authDone := auth, lastPacket := typ), nc := n.nc + 1), env)
  {
    FlowRead(n.s.box.out, n.s.dataAllowed, n.s.trans, n.nc, n.c.recv, n.c.kex.recvKexinit);
  }

  lemma ClientPasses(n: Net, auth: bool, typ: int, env: Negotiation)
    requires Inv(n, env) && (PhaseOf(n.c.kex) == Both ==> n.c.kex.initSent)
    requires n.nc < |n.s.box.out| && n.s.box.out[n.nc].body.Plain? && typ != KEXINIT && typ != 0
    requires n.c.requireNext != KEXINIT
    ensures Inv(n.(c := n.c.(authDone := auth, lastPacket := typ), nc := n.nc + 1), env)
  {
    InvIs(n, env);
    ClientPassesHolds(n, auth, typ, env);
    IsInv(n.(c := n.c.(authDone := auth, lastPacket := typ), nc := n.nc + 1), env);
  }

  lemma NextForServer(n: Net, env: Negotiation)
    requires Inv(n, env) && n.ns < |n.c.box.out|
    ensures var w := n.c.box.out[n.ns];
            && w.key == n.s.recv && WellTyped(w.typ, w.body) && !w.body.DhReply?
            && (n.s.kex.recvKexinit ==> OkayDuringKex(w.typ))
            && (n.s.requireNext == KEXINIT ==> w.body.Init?)
            && (n.s.ignoreNext ==> w.body.DhInit?)
            && (w.body.Init? ==> PhaseOf(n.s.kex) in {Idle, Sent})
            && (w.body.DhInit? ==> PhaseOf(n.s.kex) in {Both, Done})
            && (w.body.NewKeys? ==> PhaseOf(n.s.kex) == Done)
  {
    InvIs(n, env);
    FlowRead(n.c.box.out, n.c.dataAllowed, n.c.trans, n.ns, n.s.recv, n.s.kex.recvKexinit);
    var lc := Pending(n.c.box.out, n.ns);
    var w := n.c.box.out[n.ns];
    assert !w.body.Plain? ==> lc[0] == w.body;
  }

  lemma ServerPassesHolds(n: Net, auth: bool, typ: int, env: Negotiation)
    requires Everything(n, env) && n.ns < |n.c.box.out| && n.c.box.out[n.ns].body.Plain?
    requires n.s.requireNext != KEXINIT && !n.s.ignoreNext
    ensures Everything(n.(s := n.s.(authDone := auth, lastPacket := typ), ns := n.ns + 1), env)
  {
    FlowRead(n.c.box.out, n.c.dataAllowed, n.c.trans, n.ns, n.s.recv, n.s.kex.recvKexinit);
  }

  lemma ServerPasses(n: Net, auth: bool, typ: int, env: Negotiation)
    requires Inv(n, env) && n.ns < |n.c.box.out| && n.c.box.out[n.ns].body.Plain?
    requires n.s.requireNext != KEXINIT && !n.s.ignoreNext
    ensures Inv(n.(s := n.s.(authDone := auth, lastPacket := typ), ns := n.ns + 1), env)
  {
    InvIs(n, env);
    ServerPassesHolds(n, auth, typ, env);
    IsInv(n.(s := n.s.(authDone := auth, lastPacket := typ), ns := n.ns + 1), env);
  }

  lemma ServerReadsPlain(n: Net, env: Negotiation, inp: Input)
    requires Inv(n, env) && Unblocked(n.s) && n.ns < |n.c.box.out| && Applications(inp.replies)
    requires n.c.box.out[n.ns].body.Plain?
    ensures var s := Receive(n.s, env, n.c.box.out[n.ns], inp);
            Continues(s, n.(s := s, ns := n.ns + 1), env)
  {
    var w := n.c.box.out[n.ns];
    NextForServer(n, env);
    BothLocal(n, env);
    var ps, auth := ReceivePlain(n.s, env, w, inp);
    var y := Receive(n.s, env, w, inp);
    if y.exit.None? {
      var m := n.(s := SubmitAll(n.s, ps));
      ServerSubmits(n, ps, env);
      ServerPasses(m, auth, w.typ, env);
      assert m.(s := m.s.(authDone := auth, lastPacket := w.typ), ns := m.ns + 1) == n.(s := y, ns := n.ns + 1);
    } else {
      ExitKeepsBox(n.s, env, w, inp);
    }
  }

  lemma ServerReadsKexinit(n: Net, env: Negotiation, inp: Input)
    requires Inv(n, env) && n.ns < |n.c.box.out| && n.c.box.out[n.ns].body.Init?
    ensures var s := Receive(n.s, env, n.c.box.out[n.ns], inp);
            s.exit.None? && Inv(n.(s := s, ns := n.ns + 1), env)
  {
    InvIs(n, env);
    NextForServer(n, env);
    ReceiveInit(n.s, env, n.c.box.out[n.ns], inp);
    if PhaseOf(n.s.kex) == Idle {
      ServerSendsKexinit(n, env, inp.id, inp.e);
      ServerReadsInit(n.(s := Opens(n.s, env, inp.id, inp.e)), env);
    } else {
      ServerReadsInit(n, env);
    }
  }

  lemma ServerReads(n: Net, env: Negotiation, inp: Input)
    requires Inv(n, env) && Unblocked(n.s) && n.ns < |n.c.box.out| && Applications(inp.replies)
    ensures var s := Receive(n.s, env, n.c.box.out[n.ns], inp);
            Continues(s, n.(s := s, ns := n.ns + 1), env)
  {
    InvIs(n, env);
    var w := n.c.box.out[n.ns];
    NextForServer(n, env);
    if w.body.Plain? {
      ServerReadsPlain(n, env, inp);
    } else if w.body.Init? {
      ServerReadsKexinit(n, env, inp);
    } else if w.body.DhInit? && PhaseOf(n.s.kex) == Done {
      ServerReadsStray(n, env, inp.msg);
      ReceiveStray(n.s, env, w, inp);
    } else if w.body.DhInit? {
      ReceiveDhInit(n.s, env, w, inp);
      if n.s.ignoreNext {
        ServerIgnoresGuess(n, env);
      } else {
        ServerReadsDhInit(n, env, inp.f, inp.extInfo, inp.msg);
      }
    } else {
      ServerReadsNewkeys(n, env);
      ReceiveNewkeys(n.s, env, w, inp);
    }
  }

  lemma ClientRekeys(n: Net, env: Negotiation, rekey: bool, id: nat, e: nat)
    requires Inv(n, env) && Settled(n.c)
    ensures var c := if rekey then Rekey(n.c, env, id, e) else n.c;
            Inv(n.(c := c), env) && Settled(c)
  {
    InvIs(n, env);
    if rekey && !n.c.kex.sentKexinit {
      SendKexinitOpens(n.c, env, id, e);
      ClientSendsKexinit(n, env, id, e);
    }
  }

  lemma ServerRekeys(n: Net, env: Negotiation, rekey: bool, id: nat, e: nat)
    requires Inv(n, env) && Settled(n.s)
    ensures var s := if rekey then Rekey(n.s, env, id, e) else n.s;
            Inv(n.(s := s), env) && Settled(s)
  {
    InvIs(n, env);
    if rekey && !n.s.kex.sentKexinit {
      SendKexinitOpens(n.s, env, id, e);
      ServerSendsKexinit(n, env, id, e);
    }
  }

  ghost predicate LegalInput(inp: Input)
  {
    Applications(inp.early) && Applications(inp.replies) && Applications(inp.late)
  }

  lemma ClientBegins(n: Net, env: Negotiation, inp: Input)
    requires Inv(n, env) && Settled(n.c) && LegalInput(inp)
    ensures Inv(n.(c := Begin(n.c, env, inp)), env) && Settled(Begin(n.c, env, inp))
  {
    ClientRekeys(n, env, inp.rekey, inp.id, inp.e);
    ClientSubmits(n.(c := if inp.rekey then Rekey(n.c, env, inp.id, inp.e) else n.c), inp.early, env);
  }

  lemma ClientFinishes(n: Net, env: Negotiation, inp: Input)
    requires Inv(n, env) && LegalInput(inp)
    requires PhaseOf(n.c.kex) == Done && n.c.kex.initSent ==> n.c.lastPacket != 0 && n.c.lastPacket != KEXINIT
    ensures Inv(n.(c := Finish(n.c, inp)), env) && Settled(Finish(n.c, inp))
  {
    ClientFlushes(n, env);
    var m := n.(c := Flush(n.c));
    ClientLoops(m, env, inp.e);
    ClientSubmits(m.(c := LoopHandler(m.c, inp.e)), inp.late, env);
  }

  lemma ClientCompletes(n: Net, x: Endpoint, k: nat, env: Negotiation, inp: Input)
    requires Continues(x, Net(x, n.s, k, n.ns), env) && LegalInput(inp)
    requires PhaseOf(x.kex) == Done && x.kex.initSent ==> x.lastPacket != 0 && x.lastPacket != KEXINIT
    ensures Continues(Complete(x, inp), Net(Complete(x, inp), n.s, k, n.ns), env)
    ensures Complete(x, inp).exit.None? ==> Settled(Complete(x, inp))
  {
    if x.exit.None? {
      ClientFinishes(Net(x, n.s, k, n.ns), env, inp);
    }
  }

  /** One turn of the client, with or without a packet to read. */
  function ClientTurn(n: Net, env: Negotiation, read: bool, inp: Input): Net
  {
    if read && n.nc < |n.s.box.out|
    then Net(Iterate(n.c, env, Some(n.s.box.out[n.nc]), inp), n.s, n.nc + 1, n.ns)
    else Net(Iterate(n.c, env, None, inp), n.s, n.nc, n.ns)
  }

  lemma IterateReads(x: Endpoint, b: Endpoint, env: Negotiation, w: Wire, inp: Input)
    requires b == Begin(x, env, inp)
    ensures Iterate(x, env, Some(w), inp) == Complete(Receive(b, env, w, inp), inp)
  {
  }

  /** The part of a pass that reads a packet, and what follows it. */
  lemma ClientTakes(n: Net, env: Negotiation, inp: Input)
    requires Inv(n, env) && Settled(n.c) && LegalInput(inp) && n.nc < |n.s.box.out|
    ensures var x := Complete(Receive(n.c, env, n.s.box.out[n.nc], inp), inp);
            Continues(x, Net(x, n.s, n.nc + 1, n.ns), env) && (x.exit.None? ==> Settled(x))
  {
    var y := Receive(n.c, env, n.s.box.out[n.nc], inp);
    ClientReads(n, env, inp);
    assert n.(c := y, nc := n.nc + 1) == Net(y, n.s, n.nc + 1, n.ns);
    ClientCompletes(n, y, n.nc + 1, env, inp);
  }

  lemma ClientTurnReads(n: Net, env: Negotiation, inp: Input)
    requires Inv(n, env) && Settled(n.c) && LegalInput(inp) && n.nc < |n.s.box.out|
    ensures var x := Iterate(n.c, env, Some(n.s.box.out[n.nc]), inp);
            Continues(x, Net(x, n.s, n.nc + 1, n.ns), env) && (x.exit.None? ==> Settled(x))
  {
    var w, b := n.s.box.out[n.nc], Begin(n.c, env, inp);
    var x, m := Complete(Receive(b, env, w, inp), inp), n.(c := b);
    ClientBegins(n, env, inp);
    ClientTakes(m, env, inp);
    assert Net(x, m.s, m.nc + 1, m.ns) == Net(x, n.s, n.nc + 1, n.ns);
    IterateReads(n.c, b, env, w, inp);
  }

  lemma ClientTurnIdles(n: Net, env: Negotiation, inp: Input)
    requires Inv(n, env) && Settled(n.c) && LegalInput(inp)
    ensures var x := Iterate(n.c, env, None, inp);
            Continues(x, Net(x, n.s, n.nc, n.ns), env) && (x.exit.None? ==> Settled(x))
  {
    ClientBegins(n, env, inp);
    ClientCompletes(n, Begin(n.c, env, inp), n.nc, env, inp);
  }

  lemma ServerBegins(n: Net, env: Negotiation, inp: Input)
    requires Inv(n, env) && Settled(n.s) && LegalInput(inp)
    ensures Inv(n.(s := Begin(n.s, env, inp)), env) && Settled(Begin(n.s, env, inp))
  {
    ServerRekeys(n, env, inp.rekey, inp.id, inp.e);
    ServerSubmits(n.(s := if inp.rekey then Rekey(n.s, env, inp.id, inp.e) else n.s), inp.early, env);
  }

  lemma ServerFinishes(n: Net, env: Negotiation, inp: Input)
    requires Inv(n, env) && LegalInput(inp)
    ensures Inv(n.(s := Finish(n.s, inp)), env) && Settled(Finish(n.s, inp))
  {
    ServerFlushes(n, env);
    ServerSubmits(n.(s := Flush(n.s)), inp.late, env);
  }

  lemma ServerCompletes(n: Net, x: Endpoint, k: nat, env: Negotiation, inp: Input)
    requires Continues(x, Net(n.c, x, n.nc, k), env) && LegalInput(inp)
    ensures Continues(Complete(x, inp), Net(n.c, Complete(x, inp), n.nc, k), env)
    ensures Complete(x, inp).exit.None? ==> Settled(Complete(x, inp))
  {
    if x.exit.None? {
      ServerFinishes(Net(n.c, x, n.nc, k), env, inp);
    }
  }

  /** One turn of the server, with or without a packet to read. */
  function ServerTurn(n: Net, env: Negotiation, read: bool, inp: Input): Net
  {
    if read && n.ns < |n.c.box.out|
    then Net(n.c, Iterate(n.s, env, Some(n.c.box.out[n.ns]), inp), n.nc, n.ns + 1)
    else Net(n.c, Iterate(n.s, env, None, inp), n.nc, n.ns)
  }

  lemma ServerTakes(n: Net, env: Negotiation, inp: Input)
    requires Inv(n, env) && Settled(n.s) && LegalInput(inp) && n.ns < |n.c.box.out|
    ensures var x := Complete(Receive(n.s, env, n.c.box.out[n.ns], inp), inp);
            Continues(x, Net(n.c, x, n.nc, n.ns + 1), env) && (x.exit.None? ==> Settled(x))
  {
    var y := Receive(n.s, env, n.c.box.out[n.ns], inp);
    ServerReads(n, env, inp);
    assert n.(s := y, ns := n.ns + 1) == Net(n.c, y, n.nc, n.ns + 1);
    ServerCompletes(n, y, n.ns + 1, env, inp);
  }

  lemma ServerTurnReads(n: Net, env: Negotiation, inp: Input)
    requires Inv(n, env) && Settled(n.s) && LegalInput(inp) && n.ns < |n.c.box.out|
    ensures var x := Iterate(n.s, env, Some(n.c.box.out[n.ns]), inp);
            Continues(x, Net(n.c, x, n.nc, n.ns + 1), env) && (x.exit.None? ==> Settled(x))
  {
    var w, b := n.c.box.out[n.ns], Begin(n.s, env, inp);
    var x, m := Complete(Receive(b, env, w, inp), inp), n.(s := b);
    ServerBegins(n, env, inp);
    ServerTakes(m, env, inp);
    assert Net(m.c, x, m.nc, m.ns + 1) == Net(n.c, x, n.nc, n.ns + 1);
    IterateReads(n.s, b, env, w, inp);
  }

  lemma ServerTurnIdles(n: Net, env: Negotiation, inp: Input)
    requires Inv(n, env) && Settled(n.s) && LegalInput(inp)
    ensures var x := Iterate(n.s, env, None, inp);
            Continues(x, Net(n.c, x, n.nc, n.ns), env) && (x.exit.None? ==> Settled(x))
  {
    ServerBegins(n, env, inp);
    ServerCompletes(n, Begin(n.s, env, inp), n.ns, env, inp);
  }

  // ---- whole runs ----

  /** A turn of the client or of the server. */
  datatype Turn = Turn(client: bool, read: bool, inp: Input)

  ghost predicate Legal(ts: seq<Turn>)
  {
    forall i :: 0 <= i < |ts| ==> LegalInput(ts[i].inp)
  }

  function Step(n: Net, env: Negotiation, t: Turn): Net
  {
    if n.c.exit.Some? || n.s.exit.Some? then n
    else if t.client then ClientTurn(n, env, t.read, t.inp)
    else ServerTurn(n, env, t.read, t.inp)
  }

  /** Both ends begin by sending KEXINIT. */
  function Start(env: Negotiation, clientInit: nat, serverInit: nat, e: nat): Net
  {
    Net(SendKexinit(Create(false), env, clientInit, e), SendKexinit(Create(true), env, serverInit, e), 0, 0)
  }

  function Run(n: Net, env: Negotiation, ts: seq<Turn>): Net
    decreases |ts|
  {
    if ts == [] then n else Step(Run(n, env, ts[..|ts| - 1]), env, ts[|ts| - 1])
  }

  ghost predicate Running(n: Net) { n.c.exit.None? && n.s.exit.None? }

  ghost predicate Ended(x: Endpoint) { (x.exit.Some? ==> Benign(x.exit.value)) && InOrder(x) }

  ghost predicate Sound(n: Net, env: Negotiation)
  {
    if Running(n) then Inv(n, env) && Settled(n.c) && Settled(n.s)
    else Ended(n.c) && Ended(n.s)
  }

  lemma EmptyLog(e: Endpoint, recv: Key)
    requires e.box.out == [] && e.dataAllowed && e.trans == recv
    ensures Flow(e.box.out, true, e.trans, 0, recv, false) && Pending(e.box.out, 0) == []
  {
  }

  lemma StartIsSound(env: Negotiation, clientInit: nat, serverInit: nat, e: nat)
    requires Coherent(env)
    ensures Sound(Start(env, clientInit, serverInit, e), env)
  {
    var c, s := Create(false), Create(true);
    SendKexinitOpens(c, env, clientInit, e);
    SendKexinitOpens(s, env, serverInit, e);
    EmptyLog(c, s.recv);
    EmptyLog(s, c.recv);
    OpenedFlow([], NoKey, clientInit, env.guesses, e, 0, NoKey, false);
    OpenedFlow([], NoKey, serverInit, false, e, 0, NoKey, false);
    OpenedLedger(c.box, NoKey, clientInit, env.guesses, e);
    OpenedLedger(s.box, NoKey, serverInit, false, e);
    IsInv(Start(env, clientInit, serverInit, e), env);
  }

  lemma ClientStands(n: Net, x: Endpoint, k: nat, env: Negotiation)
    requires Inv(n, env) && Unblocked(n.s) && Settled(n.s)
    requires Continues(x, Net(x, n.s, k, n.ns), env) && (x.exit.None? ==> Settled(x))
    ensures Sound(Net(x, n.s, k, n.ns), env)
  {
    InvIs(n, env);
  }

  lemma ServerStands(n: Net, x: Endpoint, k: nat, env: Negotiation)
    requires Inv(n, env) && Unblocked(n.c) && Settled(n.c)
    requires Continues(x, Net(n.c, x, n.nc, k), env) && (x.exit.None? ==> Settled(x))
    ensures Sound(Net(n.c, x, n.nc, k), env)
  {
    InvIs(n, env);
  }

  lemma ClientReadingStands(n: Net, env: Negotiation, inp: Input)
    requires Inv(n, env) && Settled(n.c) && Settled(n.s) && LegalInput(inp) && n.nc < |n.s.box.out|
    ensures Sound(Net(Iterate(n.c, env, Some(n.s.box.out[n.nc]), inp), n.s, n.nc + 1, n.ns), env)
  {
    ClientTurnReads(n, env, inp);
    ClientStands(n, Iterate(n.c, env, Some(n.s.box.out[n.nc]), inp), n.nc + 1, env);
  }

  lemma ClientIdlingStands(n: Net, env: Negotiation, inp: Input)
    requires Inv(n, env) && Settled(n.c) && Settled(n.s) && LegalInput(inp)
    ensures Sound(Net(Iterate(n.c, env, None, inp), n.s, n.nc, n.ns), env)
  {
    ClientTurnIdles(n, env, inp);
    ClientStands(n, Iterate(n.c, env, None, inp), n.nc, env);
  }

  lemma ServerReadingStands(n: Net, env: Negotiation, inp: Input)
    requires Inv(n, env) && Settled(n.c) && Settled(n.s) && LegalInput(inp) && n.ns < |n.c.box.out|
    ensures Sound(Net(n.c, Iterate(n.s, env, Some(n.c.box.out[n.ns]), inp), n.nc, n.ns + 1), env)
  {
    ServerTurnReads(n, env, inp);
    ServerStands(n, Iterate(n.s, env, Some(n.c.box.out[n.ns]), inp), n.ns + 1, env);
  }

  lemma ServerIdlingStands(n: Net, env: Negotiation, inp: Input)
    requires Inv(n, env) && Settled(n.c) && Settled(n.s) && LegalInput(inp)
    ensures Sound(Net(n.c, Iterate(n.s, env, None, inp), n.nc, n.ns), env)
  {
    ServerTurnIdles(n, env, inp);
    ServerStands(n, Iterate(n.s, env, None, inp), n.ns, env);
  }

  lemma ClientStepIsSound(n: Net, env: Negotiation, read: bool, inp: Input)
    requires Sound(n, env) && Running(n) && LegalInput(inp)
    ensures Sound(ClientTurn(n, env, read, inp), env)
  {
    if read && n.nc < |n.s.box.out| {
      ClientReadingStands(n, env, inp);
    } else {
      ClientIdlingStands(n, env, inp);
    }
  }

  lemma ServerStepIsSound(n: Net, env: Negotiation, read: bool, inp: Input)
    requires Sound(n, env) && Running(n) && LegalInput(inp)
    ensures Sound(ServerTurn(n, env, read, inp), env)
  {
    if read && n.ns < |n.c.box.out| {
      ServerReadingStands(n, env, inp);
    } else {
      ServerIdlingStands(n, env, inp);
    }
  }

  lemma StepIsSound(n: Net, env: Negotiation, t: Turn)
    requires Sound(n, env) && LegalInput(t.inp)
    ensures Sound(Step(n, env, t), env)
  {
    if Running(n) {
      if t.client {
        ClientStepIsSound(n, env, t.read, t.inp);
      } else {
        ServerStepIsSound(n, env, t.read, t.inp);
      }
    }
  }

  /** The invariant holds in every reachable state. */
  lemma {:induction false} RunsAreSound(env: Negotiation, clientInit: nat, serverInit: nat, e: nat, ts: seq<Turn>)
    requires Coherent(env) && Legal(ts)
    ensures Sound(Run(Start(env, clientInit, serverInit, e), env, ts), env)
    decreases |ts|
  {
    if ts == [] {
      StartIsSound(env, clientInit, serverInit, e);
    } else {
      RunsAreSound(env, clientInit, serverInit, e, ts[..|ts| - 1]);
      StepIsSound(Run(Start(env, clientInit, serverInit, e), env, ts[..|ts| - 1]), env, ts[|ts| - 1]);
    }
  }

  // ---- what that means ----

  /**
   * For every run of turns, whatever is read, sent or rekeyed when, an endpoint exits only by a
   * disconnect or for want of authentication. The exits for an unexpected packet, KEXINIT,
   * NEWKEYS or reply, for an early KEXDH_INIT, for a signature over another transcript and for a
   * packet under another key are never taken.
   */
  lemma NoProtocolExit(env: Negotiation, clientInit: nat, serverInit: nat, e: nat, ts: seq<Turn>)
    requires Coherent(env) && Legal(ts)
    ensures var n := Run(Start(env, clientInit, serverInit, e), env, ts);
            && n.c.exit in {None, Some(Disconnected), Some(BeforeUserauth)}
            && n.s.exit in {None, Some(Disconnected), Some(BeforeUserauth)}
  {
    RunsAreSound(env, clientInit, serverInit, e, ts);
  }

  /** In every reachable state both streams decrypt, and once all is read the directions match. */
  lemma KeysMatch(env: Negotiation, clientInit: nat, serverInit: nat, e: nat, ts: seq<Turn>)
    requires Coherent(env) && Legal(ts)
    ensures var n := Run(Start(env, clientInit, serverInit, e), env, ts);
            Running(n) ==>
              && (n.nc < |n.s.box.out| ==> n.s.box.out[n.nc].key == n.c.recv)
              && (n.ns < |n.c.box.out| ==> n.c.box.out[n.ns].key == n.s.recv)
              && (n.nc == |n.s.box.out| ==> n.s.trans == n.c.recv)
              && (n.ns == |n.c.box.out| ==> n.c.trans == n.s.recv)
  {
    RunsAreSound(env, clientInit, serverInit, e, ts);
    var n := Run(Start(env, clientInit, serverInit, e), env, ts);
    if Running(n) {
      InvIs(n, env);
      FlowEnds(n.s.box.out, n.s.dataAllowed, n.s.trans, n.nc, n.c.recv, n.c.kex.recvKexinit);
      FlowEnds(n.c.box.out, n.c.dataAllowed, n.c.trans, n.ns, n.s.recv, n.s.kex.recvKexinit);
    }
  }

  lemma FlowEnds(out: seq<Wire>, allowed: bool, trans: Key, n: nat, recv: Key, inKex: bool)
    requires Flow(out, allowed, trans, n, recv, inKex)
    ensures n < |out| ==> out[n].key == recv
    ensures n == |out| ==> trans == recv
  {
  }

  /** RFC 4253 section 7.1, in its own terms. */
  predicate PermittedDuringKex(typ: int)
  {
    || (1 <= typ <= 19 && typ != SERVICE_REQUEST && typ != SERVICE_ACCEPT)
    || (20 <= typ <= 29 && typ != KEXINIT)
    || 30 <= typ <= 49
  }

  lemma SoundInOrder(n: Net, env: Negotiation)
    requires Sound(n, env)
    ensures InOrder(n.c) && InOrder(n.s)
  {
    if Running(n) { InvIs(n, env); }
  }

  /** Between KEXINIT and NEWKEYS only what section 7.1 allows is ever on the wire, however the run has ended. */
  lemma OnlyPermittedDuringKex(env: Negotiation, clientInit: nat, serverInit: nat, e: nat, ts: seq<Turn>)
    requires Coherent(env) && Legal(ts)
    ensures var n := Run(Start(env, clientInit, serverInit, e), env, ts);
            && (forall i :: 0 <= i < |n.c.box.out| && InKex(n.c.box.out, i) ==> PermittedDuringKex(n.c.box.out[i].typ))
            && (forall i :: 0 <= i < |n.s.box.out| && InKex(n.s.box.out, i) ==> PermittedDuringKex(n.s.box.out[i].typ))
  {
    RunsAreSound(env, clientInit, serverInit, e, ts);
    SoundInOrder(Run(Start(env, clientInit, serverInit, e), env, ts), env);
  }

  /**
   * Every deferrable packet asked for is on the wire or still held back, once, in the order of
   * asking; between passes nothing is held back while data is allowed.
   */
  lemma DeferredInOrder(env: Negotiation, clientInit: nat, serverInit: nat, e: nat, ts: seq<Turn>)
    requires Coherent(env) && Legal(ts)
    ensures var n := Run(Start(env, clientInit, serverInit, e), env, ts);
            && Deferred(n.c.box.out) + n.c.box.queue == n.c.box.asked && (n.c.dataAllowed ==> n.c.box.queue == [])
            && Deferred(n.s.box.out) + n.s.box.queue == n.s.box.asked && (n.s.dataAllowed ==> n.s.box.queue == [])
  {
    RunsAreSound(env, clientInit, serverInit, e, ts);
    SoundInOrder(Run(Start(env, clientInit, serverInit, e), env, ts), env);
  }

  /** Both ends are in the middle of an exchange and nothing is on its way: they wait for each other. */
  predicate Stalled(n: Net)
  {
    && n.c.exit.None? && n.s.exit.None?
    && (n.c.kex.sentKexinit || n.s.kex.sentKexinit)
    && n.nc == |n.s.box.out| && n.ns == |n.c.box.out|
  }

  lemma DrainedIsIdle(n: Net, env: Negotiation)
    requires Inv(n, env) && Trustworthy(env) && Settled(n.c) && Settled(n.s)
    requires n.nc == |n.s.box.out| && n.ns == |n.c.box.out|
    ensures !n.c.kex.sentKexinit && !n.s.kex.sentKexinit
  {
    InvIs(n, env);
    assert Pending(n.c.box.out, n.ns) == [] && Pending(n.s.box.out, n.nc) == [];
  }

  /** The two ends never wait for each other, if the client trusts no guess that is thrown away. */
  lemma NoDeadlock(env: Negotiation, clientInit: nat, serverInit: nat, e: nat, ts: seq<Turn>)
    requires Coherent(env) && Trustworthy(env) && Legal(ts)
    ensures !Stalled(Run(Start(env, clientInit, serverInit, e), env, ts))
  {
    RunsAreSound(env, clientInit, serverInit, e, ts);
    var n := Run(Start(env, clientInit, serverInit, e), env, ts);
    if n.c.exit.None? && n.s.exit.None? && n.nc == |n.s.box.out| && n.ns == |n.c.box.out| {
      DrainedIsIdle(n, env);
    }
  }
}
