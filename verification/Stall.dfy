/** Exactly when no run comes to a halt: if and only if the client trusts no guess that is thrown away. */
module Stall {
  import opened Options
  import opened KeyExchange
  import opened WireLog
  import opened Rekeying

  /** A pass with nothing to do but read. */
  const Quiet: Input := Input(false, 0, 0, 0, false, [], [], false, 0, [])

  function Reads(client: bool): Turn { Turn(client, true, Quiet) }

  lemma RunNext(n: Net, env: Negotiation, ts: seq<Turn>, t: Turn)
    ensures Run(n, env, ts + [t]) == Step(Run(n, env, ts), env, t)
  {
    assert (ts + [t])[..|ts|] == ts;
  }

  /** After both KEXINITs and the guess. */
  lemma Starts(env: Negotiation, ci: nat, si: nat, e: nat)
    requires env.guesses
    ensures var n := Start(env, ci, si, e);
            && n == Net(Opens(Create(false), env, ci, e), Opens(Create(true), env, si, e), 0, 0)
            && n.c.box.out == [Wire(KEXINIT, Init(ci, true), NoKey), Wire(KEXDH_INIT, DhInit(e), NoKey)]
            && n.s.box.out == [Wire(KEXINIT, Init(si, false), NoKey)]
  {
    SendKexinitOpens(Create(false), env, ci, e);
    SendKexinitOpens(Create(true), env, si, e);
  }

  /** The client reads the server's KEXINIT, thinks its guess good and sends nothing. */
  lemma ClientTrusts(c: Endpoint, env: Negotiation, ci: nat, si: nat, e: nat)
    requires env.guesses && env.clientGood(ci, si) && c == Opens(Create(false), env, ci, e)
    ensures var d := Iterate(c, env, Some(Wire(KEXINIT, Init(si, false), NoKey)), Quiet);
            d.exit.None? && d.box == c.box && PhaseOf(d.kex) == Both && !d.dataAllowed
  {
  }

  /** The server reads the client's KEXINIT and makes up its mind to ignore the guess. */
  lemma ServerDoubts(s: Endpoint, env: Negotiation, ci: nat, si: nat, e: nat)
    requires !env.serverGood(ci, si) && s == Opens(Create(true), env, si, e)
    ensures var t := Iterate(s, env, Some(Wire(KEXINIT, Init(ci, true), NoKey)), Quiet);
            && t.exit.None? && t.box == s.box && PhaseOf(t.kex) == Both
            && t.ignoreNext && t.requireNext == KEXDH_INIT && t.recv == NoKey && t.server && !t.dataAllowed
  {
  }

  lemma ServerIgnores(s: Endpoint, env: Negotiation, e: nat)
    requires s.exit.None? && s.ignoreNext && s.requireNext == KEXDH_INIT && s.recv == NoKey && s.server && !s.dataAllowed
    ensures var t := Iterate(s, env, Some(Wire(KEXDH_INIT, DhInit(e), NoKey)), Quiet);
            t.exit.None? && t.box == s.box && t.kex == s.kex && !t.dataAllowed
  {
  }

  // ---- a stall is never left ----

  /**
   * Both ends are in the middle of an exchange for which the client has made its guess and trusts
   * it, while the server has thrown it away.
   */
  ghost predicate Stuck(n: Net, env: Negotiation)
  {
    && Running(n) && Sound(n, env)
    && PhaseOf(n.c.kex) == Both && PhaseOf(n.s.kex) == Both && n.c.kex.initSent
    && env.guesses && n.c.kex.firstMatches && !n.s.ignoreNext
    && n.s.kex.hash.Some? && !Taken(env, n.s.kex.hash.value)
  }

  lemma StalledIsStuck(n: Net, env: Negotiation)
    requires Sound(n, env) && Stalled(n)
    ensures Stuck(n, env)
  {
    InvIs(n, env);
    assert Pending(n.c.box.out, n.ns) == [] && Pending(n.s.box.out, n.nc) == [];
  }

  /** Then only ordinary packets are on their way. */
  lemma StuckReadsPlain(n: Net, env: Negotiation)
    requires Stuck(n, env)
    ensures Pending(n.c.box.out, n.ns) == [] && Pending(n.s.box.out, n.nc) == []
    ensures n.nc < |n.s.box.out| ==> n.s.box.out[n.nc].body.Plain?
    ensures n.ns < |n.c.box.out| ==> n.c.box.out[n.ns].body.Plain?
  {
    InvIs(n, env);
    assert Retry(n.c.kex, Pending(n.c.box.out, n.ns));
  }

  /** The exchange stands where it stood. */
  predicate SameExchange(x: Endpoint, y: Endpoint)
  {
    && y.kex == x.kex && y.ignoreNext == x.ignoreNext && y.dataAllowed == x.dataAllowed
    && y.requireNext == x.requireNext && y.server == x.server
  }

  lemma BeginStands(x: Endpoint, env: Negotiation, inp: Input)
    requires x.kex.sentKexinit
    ensures SameExchange(x, Begin(x, env, inp))
  {
  }

  lemma FinishStands(x: Endpoint, inp: Input)
    requires PhaseOf(x.kex) == Both && (!x.server ==> x.kex.initSent)
    ensures SameExchange(x, Finish(x, inp))
  {
  }

  /** A pass with an ordinary packet, or none. */
  lemma PassStands(x: Endpoint, b: Endpoint, env: Negotiation, arrival: Option<Wire>, inp: Input)
    requires PhaseOf(x.kex) == Both && (!x.server ==> x.kex.initSent) && b == Begin(x, env, inp) && Local(b, env)
    requires !b.ignoreNext && b.requireNext != KEXINIT && Applications(inp.replies)
    requires arrival.Some? ==>
               var w := arrival.value;
               w.body.Plain? && WellTyped(w.typ, w.body) && w.key == b.recv && (b.kex.recvKexinit ==> OkayDuringKex(w.typ))
    ensures var y := Iterate(x, env, arrival, inp); y.exit.None? ==> SameExchange(x, y)
  {
    BeginStands(x, env, inp);
    if arrival.Some? {
      var ps, auth := ReceivePlain(b, env, arrival.value, inp);
      var r := Receive(b, env, arrival.value, inp);
      if r.exit.None? { FinishStands(r, inp); }
    } else {
      FinishStands(b, inp);
    }
  }
  lemma StuckClient(n: Net, env: Negotiation, read: bool, inp: Input)
    requires Stuck(n, env) && LegalInput(inp)
    ensures var c := ClientTurn(n, env, read, inp).c; c.exit.None? ==> SameExchange(n.c, c)
  {
    StuckReadsPlain(n, env);
    ClientBegins(n, env, inp);
    var b := Begin(n.c, env, inp);
    BeginStands(n.c, env, inp);
    BothLocal(n, env);
    BothLocal(n.(c := b), env);
    if read && n.nc < |n.s.box.out| {
      NextForClient(n.(c := b), env);
      PassStands(n.c, b, env, Some(n.s.box.out[n.nc]), inp);
    } else {
      PassStands(n.c, b, env, None, inp);
    }
  }

  lemma StuckServer(n: Net, env: Negotiation, read: bool, inp: Input)
    requires Stuck(n, env) && LegalInput(inp)
    ensures var s := ServerTurn(n, env, read, inp).s; s.exit.None? ==> SameExchange(n.s, s)
  {
    StuckReadsPlain(n, env);
    ServerBegins(n, env, inp);
    var b := Begin(n.s, env, inp);
    BeginStands(n.s, env, inp);
    BothLocal(n, env);
    BothLocal(n.(s := b), env);
    if read && n.ns < |n.c.box.out| {
      NextForServer(n.(s := b), env);
      PassStands(n.s, b, env, Some(n.c.box.out[n.ns]), inp);
    } else {
      PassStands(n.s, b, env, None, inp);
    }
  }

  lemma StuckStays(n: Net, env: Negotiation, t: Turn)
    requires Stuck(n, env) && LegalInput(t.inp)
    ensures var m := Step(n, env, t); Running(m) ==> Stuck(m, env)
  {
    StepIsSound(n, env, t);
    if t.client { StuckClient(n, env, t.read, t.inp); } else { StuckServer(n, env, t.read, t.inp); }
  }

  /** Whatever comes, unless an end exits: neither sends NEWKEYS or anything that must wait for it. */
  ghost predicate Hung(n: Net, env: Negotiation)
  {
    forall us :: Legal(us) && Running(Run(n, env, us)) ==> Waiting(Run(n, env, us))
  }

  predicate Waiting(n: Net)
  {
    PhaseOf(n.c.kex) == Both && PhaseOf(n.s.kex) == Both && !n.c.dataAllowed && !n.s.dataAllowed
  }

  lemma {:induction false} StuckRuns(n: Net, env: Negotiation, us: seq<Turn>)
    requires Stuck(n, env) && Legal(us)
    ensures var m := Run(n, env, us); Running(m) ==> Stuck(m, env)
    decreases |us|
  {
    if us != [] {
      var before := Run(n, env, us[..|us| - 1]);
      StuckRuns(n, env, us[..|us| - 1]);
      if Running(before) { StuckStays(before, env, us[|us| - 1]); }
    }
  }

  lemma StuckWaits(n: Net, env: Negotiation)
    requires Stuck(n, env)
    ensures Waiting(n)
  {
    BothLocal(n, env);
  }

  /** In any run, two ends that have stalled stay so whatever they do: no input brings the exchange on. */
  lemma StallsForEver(env: Negotiation, ci: nat, si: nat, e: nat, ts: seq<Turn>)
    requires Coherent(env) && Legal(ts) && Stalled(Run(Start(env, ci, si, e), env, ts))
    ensures Hung(Run(Start(env, ci, si, e), env, ts), env)
  {
    var n := Run(Start(env, ci, si, e), env, ts);
    RunsAreSound(env, ci, si, e, ts);
    StalledIsStuck(n, env);
    forall us | Legal(us) && Running(Run(n, env, us)) ensures Waiting(Run(n, env, us)) {
      StuckRuns(n, env, us);
      StuckWaits(Run(n, env, us), env);
    }
  }

  /** The client reads the server's KEXINIT, and the server the client's and the guess. */
  lemma DoubtedGuessWaits(env: Negotiation, ci: nat, si: nat, e: nat)
    requires env.guesses && env.clientGood(ci, si) && !env.serverGood(ci, si)
    ensures var n := Run(Start(env, ci, si, e), env, [Reads(true), Reads(false), Reads(false)]);
            Stalled(n) && Waiting(n)
  {
    var n0 := Start(env, ci, si, e);
    Starts(env, ci, si, e);
    ClientTrusts(n0.c, env, ci, si, e);
    ServerDoubts(n0.s, env, ci, si, e);
    var c := Iterate(n0.c, env, Some(n0.s.box.out[0]), Quiet);
    var s1 := Iterate(n0.s, env, Some(n0.c.box.out[0]), Quiet);
    ServerIgnores(s1, env, e);
    var s2 := Iterate(s1, env, Some(n0.c.box.out[1]), Quiet);
    StepReads(n0, env, true, c);
    StepReads(Net(c, n0.s, 1, 0), env, false, s1);
    StepReads(Net(c, s1, 1, 1), env, false, s2);
    ThreeReads(n0, env);
  }

  lemma StepReads(n: Net, env: Negotiation, client: bool, x: Endpoint)
    requires Running(n) && (if client then n.nc < |n.s.box.out| else n.ns < |n.c.box.out|)
    requires x == if client then Iterate(n.c, env, Some(n.s.box.out[n.nc]), Quiet)
                  else Iterate(n.s, env, Some(n.c.box.out[n.ns]), Quiet)
    ensures Step(n, env, Reads(client))
         == if client then Net(x, n.s, n.nc + 1, n.ns) else Net(n.c, x, n.nc, n.ns + 1)
  {
  }

  lemma ThreeReads(n: Net, env: Negotiation)
    ensures Run(n, env, [Reads(true), Reads(false), Reads(false)])
         == Step(Step(Step(n, env, Reads(true)), env, Reads(false)), env, Reads(false))
  {
    RunNext(n, env, [], Reads(true));
    RunNext(n, env, [Reads(true)], Reads(false));
    RunNext(n, env, [Reads(true), Reads(false)], Reads(false));
    assert [] + [Reads(true)] == [Reads(true)];
    assert [Reads(true)] + [Reads(false)] == [Reads(true), Reads(false)];
    assert [Reads(true), Reads(false)] + [Reads(false)] == [Reads(true), Reads(false), Reads(false)];
  }

  /**
   * If the client thinks its guess good and the server does not, the two ends soon wait for each
   * other, and for ever: both have sent KEXINIT, neither NEWKEYS, and nothing is on its way.
   */
  lemma DoubtedGuessStalls(env: Negotiation, ci: nat, si: nat, e: nat)
    requires env.guesses && env.clientGood(ci, si) && !env.serverGood(ci, si)
    ensures var n := Run(Start(env, ci, si, e), env, [Reads(true), Reads(false), Reads(false)]);
            Stalled(n) && Waiting(n) && (Coherent(env) ==> Hung(n, env))
  {
    DoubtedGuessWaits(env, ci, si, e);
    ThreeReadsAreLegal();
    if Coherent(env) {
      StallsForEver(env, ci, si, e, [Reads(true), Reads(false), Reads(false)]);
    }
  }

  lemma ThreeReadsAreLegal()
    ensures Legal([Reads(true), Reads(false), Reads(false)])
  {
  }

  /** No run with these KEXINITs, whatever is read, sent or rekeyed, ever stalls. */
  ghost predicate Live(env: Negotiation)
  {
    forall ci: nat, si: nat, e: nat, ts :: Legal(ts) ==> !Stalled(Run(Start(env, ci, si, e), env, ts))
  }

  /** Liveness holds exactly when the client trusts no guess that the server throws away. */
  lemma LiveExactly(env: Negotiation)
    requires Coherent(env)
    ensures Live(env) <==> Trustworthy(env)
  {
    if Trustworthy(env) {
      forall ci: nat, si: nat, e: nat, ts | Legal(ts) ensures !Stalled(Run(Start(env, ci, si, e), env, ts)) {
        NoDeadlock(env, ci, si, e, ts);
      }
    } else {
      var ci: nat, si: nat :| env.clientGood(ci, si) && !env.serverGood(ci, si);
      var ts := [Reads(true), Reads(false), Reads(false)];
      DoubtedGuessStalls(env, ci, si, 0);
      assert Legal(ts) && Stalled(Run(Start(env, ci, si, 0), env, ts));
    }
  }
}
