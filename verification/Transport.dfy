/**
 * The key exchange of Rekeying over the negotiation of Negotiation: for whatever tables a client
 * and a server are configured with, their exchanges never fail, and exactly which tables can
 * bring them to a halt.
 */
module Transport {
  import opened Options
  import opened KeyExchange
  import opened Rekeying
  import opened Stall
  import N = Negotiation

  function ClientAlgos(c: N.Tables, s: N.Tables, f: N.Facts): Option<N.Algos>
  {
    N.ReadKexAlgos(false, c, f, N.SentLists(s))
  }

  function ServerAlgos(c: N.Tables, s: N.Tables, f: N.Facts): Option<N.Algos>
  {
    N.ReadKexAlgos(true, s, f, N.SentLists(c))
  }

  /** first_usable_algo, which the client guesses. */
  function FirstUsable(t: seq<N.Algo>): N.Name { if N.Usable(t) == [] then [] else N.Usable(t)[0] }

  function Number(a: Option<N.Algos>, number: N.Name -> nat): nat { if a.Some? then number(a.value.kex) else 0 }

  predicate Content(a: Option<N.Algos>) { a.Some? && a.value.good }

  /** What the tables make of every exchange. */
  function Outcome(c: N.Tables, s: N.Tables, f: N.Facts, guesses: bool, number: N.Name -> nat): Negotiation
  {
    var x, y := ClientAlgos(c, s, f), ServerAlgos(c, s, f);
    Negotiation((a, b) => Number(y, number), (a, b) => Content(x), (a, b) => Content(y), number(FirstUsable(c.kex)), guesses)
  }

  lemma OutcomeIsCoherent(c: N.Tables, s: N.Tables, f: N.Facts, guesses: bool, number: N.Name -> nat)
    requires N.ProperTables(c) && N.ProperTables(s)
    ensures Coherent(Outcome(c, s, f, guesses, number))
  {
    N.GuessIsChosen(c, s, f);
  }

  /** For any two configurations, in any guess mode, no run of key exchanges takes a protocol exit. */
  lemma TablesNeverFail(c: N.Tables, s: N.Tables, f: N.Facts, guesses: bool, number: N.Name -> nat,
                        clientInit: nat, serverInit: nat, e: nat, ts: seq<Turn>)
    requires N.ProperTables(c) && N.ProperTables(s) && Legal(ts)
    ensures var env := Outcome(c, s, f, guesses, number);
            var n := Run(Start(env, clientInit, serverInit, e), env, ts);
            && n.c.exit in {None, Some(Disconnected), Some(BeforeUserauth)}
            && n.s.exit in {None, Some(Disconnected), Some(BeforeUserauth)}
  {
    OutcomeIsCoherent(c, s, f, guesses, number);
    NoProtocolExit(Outcome(c, s, f, guesses, number), clientInit, serverInit, e, ts);
  }

  /**
   * By the tables alone: a guessing client whose negotiation succeeds likes its guess, key
   * exchange and host key, only if the server does, each going by what the other offers.
   */
  predicate TrustShared(c: N.Tables, s: N.Tables, f: N.Facts, guesses: bool)
  {
    guesses && ClientAlgos(c, s, f).Some? && N.ClientContent(c, s, N.OffersGuess2(s, f)) ==>
      N.ServerContent(c, s, N.OffersGuess2(c, f))
  }

  /** For any two configurations: no run stalls if and only if the tables pass that test. */
  lemma TablesLiveExactly(c: N.Tables, s: N.Tables, f: N.Facts, guesses: bool, number: N.Name -> nat)
    requires N.ProperTables(c) && N.ProperTables(s)
    ensures Live(Outcome(c, s, f, guesses, number)) <==> TrustShared(c, s, f, guesses)
  {
    var env := Outcome(c, s, f, guesses, number);
    OutcomeIsCoherent(c, s, f, guesses, number);
    LiveExactly(env);
    N.TableVerdicts(c, s, f);
    N.MirroredAlgos(c, s, f);
    assert env.clientGood(0, 0) == Content(ClientAlgos(c, s, f)) && env.serverGood(0, 0) == Content(ServerAlgos(c, s, f));
  }

  /** A client that offers kexguess2 is never in that danger, and neither is one that does not guess. */
  lemma Guess2IsLive(c: N.Tables, s: N.Tables, f: N.Facts, guesses: bool, number: N.Name -> nat)
    requires N.ProperTables(c) && N.ProperTables(s)
    requires N.OffersGuess2(c, f) || !guesses
    ensures Live(Outcome(c, s, f, guesses, number))
  {
    N.TableVerdicts(c, s, f);
    if guesses { N.VerdictsCohere(c, s, f); }
    N.MirroredAlgos(c, s, f);
    TablesLiveExactly(c, s, f, guesses, number);
  }

  // ---- tables that stall ----

  /** One entry in every other table. */
  function Plain(kex: seq<N.Algo>, k: N.Name): N.Tables
  {
    var t := [N.Algo(k, true)];
    N.Tables(kex, t, t, t, t)
  }

  lemma SameSingle(k: N.Name)
    requires N.PlainName(k)
    ensures var t := [N.Algo(k, true)];
            N.Table(t) && N.Usable(t) == [k] && N.ClientLikes(t, t, false) && N.Chosen([k], [k]) == Some(k)
  {
    var t := [N.Algo(k, true)];
    assert t[..0] == [] && [k][..0] == [];
    N.FirstMasked(t);
    N.ChosenFirst([k], [k]);
  }

  function Favours(x: N.Name, k: N.Name): N.Tables { Plain([N.Algo(x, true)], k) }

  function Hides(x: N.Name, y: N.Name, k: N.Name): N.Tables { Plain([N.Algo(y, false), N.Algo(x, true)], k) }

  lemma HiddenUsable(x: N.Name, y: N.Name)
    requires N.PlainName(x) && N.PlainName(y)
    ensures var t := [N.Algo(y, false), N.Algo(x, true)]; N.Table(t) && N.Usable(t) == [x]
  {
    var t := [N.Algo(y, false), N.Algo(x, true)];
    assert t[..1] == [N.Algo(y, false)] && t[..1][..0] == [];
    assert N.Usable(t[..1]) == [];
  }

  /** Neither offers kexguess2; the client likes its guess and the server does not. */
  lemma PlainVerdicts(x: N.Name, y: N.Name, k: N.Name, f: N.Facts)
    requires N.PlainName(x) && N.PlainName(y) && N.PlainName(k) && f.kexguess2 != x
    ensures var c, s := Favours(x, k), Hides(x, y, k);
            && N.ProperTables(c) && N.ProperTables(s) && !N.OffersGuess2(c, f) && !N.OffersGuess2(s, f)
            && N.ClientContent(c, s, false) && !N.ServerContent(c, s, false)
  {
    SameSingle(k);
    SameSingle(x);
    HiddenUsable(x, y);
  }

  lemma SingleDirection(c: N.Tables, k: N.Name, f: N.Facts)
    requires N.PlainName(k) && c.cipher == c.mac == c.comp == [N.Algo(k, true)]
    ensures N.PickDirection(false, c, f, N.Received(c.cipher), N.Received(c.mac), N.Received(c.comp)).Some?
  {
    SameSingle(k);
    N.PickAgrees(c.cipher, c.cipher);
  }

  /** Negotiation succeeds when there is something to choose for every purpose. */
  lemma Negotiates(c: N.Tables, s: N.Tables, f: N.Facts, kex: N.Name)
    requires N.ProperTables(c) && N.ProperTables(s) && !f.pseudo(kex)
    requires N.Chosen(N.Usable(c.kex), N.Usable(s.kex)) == Some(kex)
    requires N.Chosen(N.Usable(c.sig), N.Usable(s.sig)).Some?
    requires N.PickDirection(false, c, f, N.Received(s.cipher), N.Received(s.mac), N.Received(s.comp)).Some?
    ensures ClientAlgos(c, s, f).Some?
  {
    N.ListsArrive(s);
    N.Agreement(c.kex, s.kex, N.OffersGuess2(s, f), false);
    N.Agreement(c.sig, s.sig, N.OffersGuess2(s, f), false);
  }

  /** On such tables negotiation succeeds. */
  lemma PlainNegotiates(x: N.Name, y: N.Name, k: N.Name, f: N.Facts)
    requires N.PlainName(x) && N.PlainName(y) && N.PlainName(k) && f.kexguess2 != x && !f.pseudo(x)
    ensures ClientAlgos(Favours(x, k), Hides(x, y, k), f).Some?
  {
    var c, s := Favours(x, k), Hides(x, y, k);
    SameSingle(k);
    SameSingle(x);
    HiddenUsable(x, y);
    SingleDirection(c, k, f);
    Negotiates(c, s, f, x);
  }

  /**
   * The tables of Negotiation.PlainDisagreement, the client having disabled nothing and the
   * server its first entry, neither offering kexguess2: a guessing client and the server stall for
   * good.
   */
  lemma PlainTablesStall(x: N.Name, y: N.Name, k: N.Name, f: N.Facts, number: N.Name -> nat, ci: nat, si: nat, e: nat)
    requires N.PlainName(x) && N.PlainName(y) && N.PlainName(k) && f.kexguess2 != x && !f.pseudo(x)
    ensures var env := Outcome(Favours(x, k), Hides(x, y, k), f, true, number);
            var n := Run(Start(env, ci, si, e), env, [Reads(true), Reads(false), Reads(false)]);
            !Live(env) && Stalled(n) && Hung(n, env)
  {
    var c, s := Favours(x, k), Hides(x, y, k);
    var env := Outcome(c, s, f, true, number);
    PlainVerdicts(x, y, k, f);
    PlainNegotiates(x, y, k, f);
    N.TableVerdicts(c, s, f);
    N.MirroredAlgos(c, s, f);
    TablesLiveExactly(c, s, f, true, number);
    OutcomeIsCoherent(c, s, f, true, number);
    DoubtedGuessStalls(env, ci, si, e);
  }
}
