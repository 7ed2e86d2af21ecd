/**
 * Algorithm negotiation (common-algo.c, read_kex_algos in common-kex.c): comma-separated lists,
 * the match that each side makes on its own table and the peer's list, and what both install.
 */
module Negotiation {
  import opened Options
  import opened Radix
  import opened Sequences

  type Name = seq<byte>

  const COMMA: byte := 44
  const MAX_NAME_LEN: nat := 64
  const MAX_PROPOSED_ALGO: nat := 50

  /** algo_type, as far as matching goes. */
  datatype Algo = Algo(name: Name, usable: bool)

  predicate PlainName(n: Name) { 0 < |n| <= MAX_NAME_LEN && 0 !in n && COMMA !in n }

  /** A table that fits the arrays of buf_match_algo; every table of common-algo.c does. */
  predicate Table(t: seq<Algo>) { |t| <= MAX_PROPOSED_ALGO && forall a <- t :: PlainName(a.name) }

  function Usable(t: seq<Algo>): seq<Name>
  {
    if t == [] then []
    else Usable(t[..|t| - 1]) + if t[|t| - 1].usable then [t[|t| - 1].name] else []
  }

  // ---- the printed list ----

  /** What buf_put_algolist prints. */
  function Join(ns: seq<Name>): seq<byte>
  {
    if ns == [] then []
    else if |ns| == 1 then ns[0]
    else Join(ns[..|ns| - 1]) + [COMMA] + ns[|ns| - 1]
  }

  /** Names apart by commas, byte 44. */
  lemma JoinedByCommas(ns: seq<Name>, n: Name)
    ensures Join([n]) == n && (ns != [] ==> Join(ns + [n]) == Join(ns) + [44] + n)
  {
    assert (ns + [n])[..|ns|] == ns;
  }

  /** The list cut at its commas; the empty list is one empty name. */
  function Split(s: seq<byte>): (ns: seq<Name>)
    ensures |ns| > 0
  {
    if s == [] then [[]]
    else
      var ns, b := Split(s[..|s| - 1]), s[|s| - 1];
      if b == COMMA then ns + [[]] else Extend(ns, [b])
  }

  /** Add to the last name. */
  function Extend(ns: seq<Name>, t: seq<byte>): seq<Name>
    requires |ns| > 0
  {
    ns[..|ns| - 1] + [ns[|ns| - 1] + t]
  }

  lemma {:induction false} SplitPlain(s: seq<byte>, t: seq<byte>)
    requires COMMA !in t
    ensures Split(s + t) == Extend(Split(s), t)
    decreases |t|
  {
    if t == [] {
      ExtendNothing(Split(s));
      assert s + t == s;
    } else {
      var front, b := t[..|t| - 1], t[|t| - 1];
      SplitPlain(s, front);
      SplitLast(s + front, b);
      Regroup(s, front, [b], t);
      ExtendTwice(Split(s), front, [b]);
    }
  }

  lemma SplitLast(s: seq<byte>, b: byte)
    ensures Split(s + [b]) == if b == COMMA then Split(s) + [[]] else Extend(Split(s), [b])
  {
    assert (s + [b])[..|s|] == s;
  }

  lemma ExtendNothing(ns: seq<Name>)
    requires |ns| > 0
    ensures Extend(ns, []) == ns
  {
    assert ns[|ns| - 1] + [] == ns[|ns| - 1];
  }

  lemma ExtendTwice(ns: seq<Name>, t: seq<byte>, u: seq<byte>)
    requires |ns| > 0
    ensures Extend(Extend(ns, t), u) == Extend(ns, t + u)
  {
    assert (ns[|ns| - 1] + t) + u == ns[|ns| - 1] + (t + u);
  }

  /** The splitter undoes the printer. */
  lemma {:induction false} SplitJoin(ns: seq<Name>)
    requires ns != [] && forall n <- ns :: COMMA !in n
    ensures Split(Join(ns)) == ns
    decreases |ns|
  {
    var front, last := ns[..|ns| - 1], ns[|ns| - 1];
    assert front + [last] == ns;
    if |ns| == 1 {
      SplitPlain([], last);
      assert [] + last == last && Extend([[]], last) == [last];
    } else {
      SplitJoin(front);
      SplitLast(Join(front), COMMA);
      SplitPlain(Join(front) + [COMMA], last);
      assert Extend(front + [[]], last) == front + [last];
    }
  }

  /** And the printer undoes the splitter, for any list. */
  lemma {:induction false} JoinSplit(s: seq<byte>)
    ensures Join(Split(s)) == s
    decreases |s|
  {
    if s != [] {
      var front, b, ns := s[..|s| - 1], s[|s| - 1], Split(s[..|s| - 1]);
      JoinSplit(front);
      assert front + [b] == s;
      if b == COMMA {
        assert (ns + [[]])[..|ns|] == ns;
      } else {
        JoinExtend(ns, [b]);
      }
    }
  }

  lemma JoinExtend(ns: seq<Name>, t: seq<byte>)
    requires |ns| > 0
    ensures Join(Extend(ns, t)) == Join(ns) + t
  {
    var e := Extend(ns, t);
    if |ns| > 1 {
      assert e[..|e| - 1] == ns[..|ns| - 1];
      assert (Join(ns[..|ns| - 1]) + [COMMA]) + (ns[|ns| - 1] + t) == Join(ns) + t;
    }
  }

  // ---- what the peer's splitter makes of it ----

  /** get_algolist after some of the list: the names so far, or how it stopped. */
  datatype Scan = Running(names: seq<Name>) | NulFound | TooMany

  function ScanList(s: seq<byte>, max: nat): (r: Scan)
    ensures r.Running? ==> |r.names| > 0
  {
    if s == [] then Running([[]])
    else
      var r, b := ScanList(s[..|s| - 1], max), s[|s| - 1];
      if !r.Running? then r
      else if b == 0 then NulFound
      else if b == COMMA then (if |r.names| >= max then TooMany else Running(r.names + [[]]))
      else Running(Extend(r.names, [b]))
  }

  /**
   * get_algolist gives the split list exactly when it has no zero byte and no more names than
   * there is room for. Its length plays no part: the test against MAX_PROPOSED_ALGO names of
   * MAX_NAME_LEN bytes is made and forgotten.
   */
  lemma {:induction false} ScanExactly(s: seq<byte>, max: nat)
    requires max > 0
    ensures ScanList(s, max).Running? <==> 0 !in s && |Split(s)| <= max
    ensures ScanList(s, max).Running? ==> ScanList(s, max).names == Split(s)
    decreases |s|
  {
    if s != [] {
      var front, b := s[..|s| - 1], s[|s| - 1];
      ScanExactly(front, max);
      assert s == front + [b];
    }
  }

  /** A list longer than that test allows, and short enough for buf_getstring, goes through. */
  lemma LongListPasses()
    ensures var s: seq<byte> := seq(MAX_PROPOSED_ALGO * (MAX_NAME_LEN + 1) + 1, i => 97);
            |s| <= 9000 && ScanList(s, MAX_PROPOSED_ALGO) == Running([s])
  {
    var s: seq<byte> := seq(MAX_PROPOSED_ALGO * (MAX_NAME_LEN + 1) + 1, i => 97);
    SplitPlain([], s);
    assert [] + s == s && Extend([[]], s) == [s];
    ScanExactly(s, MAX_PROPOSED_ALGO);
  }

  lemma {:induction false} UsablePlain(t: seq<Algo>)
    requires forall a <- t :: PlainName(a.name)
    ensures forall n <- Usable(t) :: PlainName(n)
    ensures |Usable(t)| <= |t|
    decreases |t|
  {
    if t != [] {
      UsablePlain(t[..|t| - 1]);
      assert t[|t| - 1] in t;
    }
  }

  lemma {:induction false} JoinHasNoNul(ns: seq<Name>)
    requires forall n <- ns :: PlainName(n)
    ensures 0 !in Join(ns) && |Join(ns)| <= |ns| * (MAX_NAME_LEN + 1)
    decreases |ns|
  {
    if ns != [] {
      JoinHasNoNul(ns[..|ns| - 1]);
      assert ns[|ns| - 1] in ns;
    }
  }

  /** The names that buf_match_algo goes by; it gets none from a list that get_algolist refuses. */
  function Names(s: seq<byte>): seq<Name>
  {
    match ScanList(s, MAX_PROPOSED_ALGO)
    case Running(names) => names
    case _ => []
  }

  /** The names the peer gets from our list: the usable ones, or a single empty name. */
  function Received(t: seq<Algo>): seq<Name> { if Usable(t) == [] then [[]] else Usable(t) }

  lemma ListArrives(t: seq<Algo>)
    requires Table(t)
    ensures ScanList(Join(Usable(t)), MAX_PROPOSED_ALGO) == Running(Received(t))
    ensures Names(Join(Usable(t))) == Received(t)
    ensures |Join(Usable(t))| <= MAX_PROPOSED_ALGO * (MAX_NAME_LEN + 1)
  {
    UsablePlain(t);
    JoinHasNoNul(Usable(t));
    if Usable(t) != [] {
      SplitJoin(Usable(t));
      ScanExactly(Join(Usable(t)), MAX_PROPOSED_ALGO);
    }
  }

  // ---- buf_match_algo ----

  /** Our own names, NULL where unusable. */
  function Masked(t: seq<Algo>): (ms: seq<Option<Name>>)
    ensures |ms| == |t|
  {
    if t == [] then []
    else Masked(t[..|t| - 1]) + [if t[|t| - 1].usable then Some(t[|t| - 1].name) else None]
  }

  function Shown(ns: seq<Name>): (ms: seq<Option<Name>>)
    ensures |ms| == |ns|
  {
    if ns == [] then [] else Shown(ns[..|ns| - 1]) + [Some(ns[|ns| - 1])]
  }

  /** The first place where a name stands. */
  function Find(serv: seq<Option<Name>>, n: Name): (r: Option<nat>)
    ensures r.Some? ==> r.value < |serv|
  {
    if serv == [] then None
    else
      var r := Find(serv[..|serv| - 1], n);
      if r.Some? then r else if serv[|serv| - 1] == Some(n) then Some(|serv| - 1) else None
  }

  /** The first client name that the server has too, and where. */
  function FirstMatch(cli: seq<Option<Name>>, serv: seq<Option<Name>>): (r: Option<(nat, nat)>)
    ensures r.Some? ==> r.value.0 < |cli| && r.value.1 < |serv| && cli[r.value.0].Some?
  {
    if cli == [] then None
    else
      var r, last := FirstMatch(cli[..|cli| - 1], serv), cli[|cli| - 1];
      if r.Some? then r
      else if last.Some? && Find(serv, last.value).Some? then Some((|cli| - 1, Find(serv, last.value).value))
      else None
  }

  datatype Match = NoMatch | Matched(name: Name, good: bool)

  /** buf_match_algo on one side, with the guess judged on the indices that side sees. */
  function MatchAlgo(server: bool, t: seq<Algo>, remote: seq<Name>, kexguess2: bool): Match
  {
    var cli := if server then Shown(remote) else Masked(t);
    var serv := if server then Masked(t) else Shown(remote);
    match FirstMatch(cli, serv)
    case None => NoMatch
    case Some((i, j)) => Matched(cli[i].value, if kexguess2 then i == 0 else i == 0 && j == 0)
  }

  // ---- agreement ----

  /** Section 7.1 of RFC 4253: the first of the client's algorithms that the server also has. */
  function Chosen(cli: seq<Name>, serv: seq<Name>): Option<Name>
  {
    if cli == [] then None
    else
      var r, last := Chosen(cli[..|cli| - 1], serv), cli[|cli| - 1];
      if r.Some? then r else if last in serv then Some(last) else None
  }

  /** In other words. */
  lemma {:induction false} ChosenIs(cli: seq<Name>, serv: seq<Name>)
    ensures match Chosen(cli, serv)
            case None => forall i :: 0 <= i < |cli| ==> cli[i] !in serv
            case Some(n) => exists i :: 0 <= i < |cli| && cli[i] == n && n in serv && forall j :: 0 <= j < i ==> cli[j] !in serv
    decreases |cli|
  {
    if cli != [] {
      var front := cli[..|cli| - 1];
      ChosenIs(front, serv);
      assert forall i :: 0 <= i < |front| ==> front[i] == cli[i];
      if Chosen(front, serv).Some? {
        var n := Chosen(front, serv).value;
        var i :| 0 <= i < |front| && front[i] == n && n in serv && forall j :: 0 <= j < i ==> front[j] !in serv;
        assert cli[i] == n;
      } else if cli[|cli| - 1] in serv {
        assert cli[|cli| - 1] == Chosen(cli, serv).value;
      }
    }
  }

  lemma {:induction false} FindMasked(t: seq<Algo>, n: Name)
    ensures Find(Masked(t), n).Some? <==> n in Usable(t)
    decreases |t|
  {
    if t != [] { FindMasked(t[..|t| - 1], n); }
  }

  lemma {:induction false} FindShown(ns: seq<Name>, n: Name)
    ensures Find(Shown(ns), n).Some? <==> n in ns
    decreases |ns|
  {
    if ns != [] {
      FindShown(ns[..|ns| - 1], n);
      assert ns == ns[..|ns| - 1] + [ns[|ns| - 1]];
    }
  }

  /** The name that a match stands for. */
  function NameOf(cli: seq<Option<Name>>, serv: seq<Option<Name>>): Option<Name>
  {
    var m := FirstMatch(cli, serv);
    if m.Some? then cli[m.value.0] else None
  }

  /** One more client name. */
  lemma NameOfNext(front: seq<Option<Name>>, last: Option<Name>, serv: seq<Option<Name>>)
    ensures NameOf(front + [last], serv) ==
            if NameOf(front, serv).Some? then NameOf(front, serv)
            else if last.Some? && Find(serv, last.value).Some? then last else None
  {
    assert (front + [last])[..|front|] == front;
  }

  lemma ChosenNext(front: seq<Name>, last: Name, serv: seq<Name>)
    ensures Chosen(front + [last], serv) ==
            if Chosen(front, serv).Some? then Chosen(front, serv) else if last in serv then Some(last) else None
  {
    assert (front + [last])[..|front|] == front;
  }

  /** On the client: its own table masked, the server's names received. */
  lemma {:induction false} ClientMatch(t: seq<Algo>, remote: seq<Name>)
    ensures NameOf(Masked(t), Shown(remote)) == Chosen(Usable(t), remote)
    decreases |t|
  {
    if t != [] {
      var front, last := t[..|t| - 1], t[|t| - 1];
      ClientMatch(front, remote);
      NameOfNext(Masked(front), if last.usable then Some(last.name) else None, Shown(remote));
      FindShown(remote, last.name);
      if last.usable {
        ChosenNext(Usable(front), last.name, remote);
      } else {
        assert Usable(t) == Usable(front);
      }
    }
  }

  /** On the server: the client's names received, its own table masked. */
  lemma {:induction false} ServerMatch(remote: seq<Name>, t: seq<Algo>)
    ensures NameOf(Shown(remote), Masked(t)) == Chosen(remote, Usable(t))
    decreases |remote|
  {
    if remote != [] {
      var front, last := remote[..|remote| - 1], remote[|remote| - 1];
      ServerMatch(front, t);
      FindMasked(t, last);
      NameOfNext(Shown(front), Some(last), Masked(t));
    }
  }

  /** An extra empty name, which no table has, changes nothing. */
  lemma {:induction false} ChosenAmong(cli: seq<Name>, serv: seq<Name>, more: seq<Name>)
    requires forall n <- cli :: n in serv <==> n in more
    ensures Chosen(cli, serv) == Chosen(cli, more)
    decreases |cli|
  {
    if cli != [] { ChosenAmong(cli[..|cli| - 1], serv, more); }
  }

  /** The algorithm one side selects. */
  function Selected(m: Match): Option<Name> { if m.Matched? then Some(m.name) else None }

  function ClientSide(c: seq<Algo>, s: seq<Algo>, guess2: bool): Match { MatchAlgo(false, c, Received(s), guess2) }

  function ServerSide(c: seq<Algo>, s: seq<Algo>, guess2: bool): Match { MatchAlgo(true, s, Received(c), guess2) }

  /**
   * Client and server, each on its own table and the other's list, select the same algorithm or
   * both none: the first usable one of the client that the server can use.
   */
  lemma Agreement(c: seq<Algo>, s: seq<Algo>, clientGuess2: bool, serverGuess2: bool)
    requires Table(c) && Table(s)
    ensures Selected(ClientSide(c, s, clientGuess2)) == Chosen(Usable(c), Usable(s))
    ensures Selected(ServerSide(c, s, serverGuess2)) == Chosen(Usable(c), Usable(s))
  {
    UsablePlain(c);
    UsablePlain(s);
    ClientMatch(c, Received(s));
    ServerMatch(Received(c), s);
    ChosenAmong(Usable(c), Usable(s), Received(s));
    if Usable(c) == [] {
      assert Chosen([[]], Usable(s)) == if [] in Usable(s) then Some([]) else Chosen([], Usable(s));
    }
  }

  // ---- the guess ----

  lemma {:induction false} MatchAtZero(cli: seq<Option<Name>>, serv: seq<Option<Name>>)
    ensures FirstMatch(cli, serv).Some? && FirstMatch(cli, serv).value.0 == 0 <==>
            cli != [] && cli[0].Some? && Find(serv, cli[0].value).Some?
    ensures FirstMatch(cli, serv).Some? ==>
              Find(serv, cli[FirstMatch(cli, serv).value.0].value) == Some(FirstMatch(cli, serv).value.1)
    decreases |cli|
  {
    if |cli| > 1 {
      MatchAtZero(cli[..|cli| - 1], serv);
    }
  }

  lemma {:induction false} FindAtZero(serv: seq<Option<Name>>, n: Name)
    ensures Find(serv, n) == Some(0) <==> serv != [] && serv[0] == Some(n)
    decreases |serv|
  {
    if |serv| > 1 {
      FindAtZero(serv[..|serv| - 1], n);
    }
  }

  lemma {:induction false} FirstShown(ns: seq<Name>)
    requires ns != []
    ensures Shown(ns)[0] == Some(ns[0])
    decreases |ns|
  {
    if |ns| > 1 { FirstShown(ns[..|ns| - 1]); }
  }

  lemma {:induction false} FirstMasked(t: seq<Algo>)
    requires t != []
    ensures Masked(t)[0] == if t[0].usable then Some(t[0].name) else None
    ensures t[0].usable ==> Usable(t) != [] && Usable(t)[0] == t[0].name
    decreases |t|
  {
    if |t| > 1 { FirstMasked(t[..|t| - 1]); }
  }

  predicate Good(m: Match) { m.Matched? && m.good }

  /** When the client is content with its guess, by the two tables alone. */
  predicate ClientLikes(c: seq<Algo>, s: seq<Algo>, guess2: bool)
  {
    c != [] && c[0].usable &&
    if guess2 then c[0].name in Usable(s) else Usable(s) != [] && Usable(s)[0] == c[0].name
  }

  /** When the server is. */
  predicate ServerLikes(c: seq<Algo>, s: seq<Algo>, guess2: bool)
  {
    Usable(c) != [] &&
    if guess2 then Usable(c)[0] in Usable(s) else s != [] && s[0].usable && s[0].name == Usable(c)[0]
  }

  lemma ClientVerdict(c: seq<Algo>, s: seq<Algo>, guess2: bool)
    requires Table(c) && Table(s)
    ensures Good(ClientSide(c, s, guess2)) <==> ClientLikes(c, s, guess2)
  {
    MatchAtZero(Masked(c), Shown(Received(s)));
    FirstShown(Received(s));
    if c != [] {
      FirstMasked(c);
      FindShown(Received(s), c[0].name);
      FindAtZero(Shown(Received(s)), c[0].name);
      assert c[0] in c;
    }
  }

  lemma ServerVerdict(c: seq<Algo>, s: seq<Algo>, guess2: bool)
    requires Table(c) && Table(s)
    ensures Good(ServerSide(c, s, guess2)) <==> ServerLikes(c, s, guess2)
  {
    MatchAtZero(Shown(Received(c)), Masked(s));
    FirstShown(Received(c));
    FindMasked(s, Received(c)[0]);
    FindAtZero(Masked(s), Received(c)[0]);
    UsablePlain(s);
    if s != [] {
      FirstMasked(s);
      assert s[0] in s;
    }
  }

  /**
   * With kexguess2 each end is content when the name it takes for the client's favourite is the
   * one chosen: for the client its first entry, for the server the first name it has been sent.
   */
  lemma Guess2Verdicts(c: seq<Algo>, s: seq<Algo>)
    requires Table(c) && Table(s)
    ensures Good(ClientSide(c, s, true)) <==> c != [] && c[0].usable && c[0].name in Usable(s)
    ensures Good(ServerSide(c, s, true)) <==> Usable(c) != [] && Usable(c)[0] in Usable(s)
  {
    ClientVerdict(c, s, true);
    ServerVerdict(c, s, true);
  }

  /**
   * With kexguess2 the two ends agree whether the guessed packet was good, unless the client's
   * first entry is disabled while its first usable one is the one chosen: the client counts the
   * disabled entries and the server never sees them.
   */
  lemma GuessAgreement(c: seq<Algo>, s: seq<Algo>)
    requires Table(c) && Table(s)
    ensures (Good(ClientSide(c, s, true)) <==> Good(ServerSide(c, s, true))) <==>
            (c == [] || c[0].usable || Usable(c) == [] || Usable(c)[0] !in Usable(s))
  {
    ClientVerdict(c, s, true);
    ServerVerdict(c, s, true);
    if c != [] { FirstMasked(c); }
  }

  lemma UsableOne(x: Name, usable: bool)
    ensures Usable([Algo(x, usable)]) == if usable then [x] else []
  {
    assert [Algo(x, usable)][..0] == [];
  }

  /** A client that has disabled its favourite: the server takes the guess as good, the client does not. */
  lemma GuessDisagreement(x: Name, y: Name)
    requires PlainName(x) && PlainName(y)
    ensures var c, s := [Algo(x, false), Algo(y, true)], [Algo(y, true)];
            Good(ServerSide(c, s, true)) && !Good(ClientSide(c, s, true))
  {
    var c, s := [Algo(x, false), Algo(y, true)], [Algo(y, true)];
    UsableOne(x, false);
    UsableOne(y, true);
    assert c[..1] == [Algo(x, false)];
    assert Usable(c) == Usable(c[..1]) + [y];
    ClientVerdict(c, s, true);
    ServerVerdict(c, s, true);
  }

  /**
   * Without it each end is content when its own first entry is usable and is the other's first
   * usable one. So they agree exactly unless their first usable names are the same and just one
   * of the two tables has its first entry disabled.
   */
  lemma PlainGuess(c: seq<Algo>, s: seq<Algo>)
    requires Table(c) && Table(s)
    ensures Good(ClientSide(c, s, false)) <==>
            c != [] && c[0].usable && Usable(s) != [] && Usable(s)[0] == c[0].name
    ensures Good(ServerSide(c, s, false)) <==>
            s != [] && s[0].usable && Usable(c) != [] && Usable(c)[0] == s[0].name
    ensures (Good(ClientSide(c, s, false)) <==> Good(ServerSide(c, s, false))) <==>
            (Usable(c) == [] || Usable(s) == [] || Usable(c)[0] != Usable(s)[0] || (c[0].usable <==> s[0].usable))
  {
    ClientVerdict(c, s, false);
    ServerVerdict(c, s, false);
    if c != [] { FirstMasked(c); }
    if s != [] { FirstMasked(s); }
  }

  /**
   * Without it the client can think a guess good that the server throws away: the client sees
   * only the server's usable entries, the server counts all of its own.
   */
  lemma PlainDisagreement(x: Name, y: Name)
    requires PlainName(x) && PlainName(y)
    ensures var c, s := [Algo(x, true)], [Algo(y, false), Algo(x, true)];
            Good(ClientSide(c, s, false)) && !Good(ServerSide(c, s, false))
  {
    var c, s := [Algo(x, true)], [Algo(y, false), Algo(x, true)];
    UsableOne(x, true);
    UsableOne(y, false);
    assert s[..1] == [Algo(y, false)];
    assert Usable(s) == Usable(s[..1]) + [x];
    ClientVerdict(c, s, false);
    ServerVerdict(c, s, false);
  }

  /** The client's first usable name, if the server has it, is the one chosen. */
  lemma {:induction false} ChosenFirst(cli: seq<Name>, serv: seq<Name>)
    requires cli != [] && cli[0] in serv
    ensures Chosen(cli, serv) == Some(cli[0])
    decreases |cli|
  {
    if |cli| > 1 { ChosenFirst(cli[..|cli| - 1], serv); }
  }

  // ---- read_kex_algos ----

  datatype Tables = Tables(kex: seq<Algo>, sig: seq<Algo>, cipher: seq<Algo>, mac: seq<Algo>, comp: seq<Algo>)

  predicate ProperTables(t: Tables) { Table(t.kex) && Table(t.sig) && Table(t.cipher) && Table(t.mac) && Table(t.comp) }

  /** The name lists of a KEXINIT, as received. */
  datatype Lists = Lists(kex: seq<Name>, sig: seq<Name>, encC2S: seq<Name>, encS2C: seq<Name>,
                         macC2S: seq<Name>, macS2C: seq<Name>, compC2S: seq<Name>, compS2C: seq<Name>)

  /** What get_algolist makes of the lists that these tables print. */
  function SentLists(t: Tables): Lists
  {
    var kex, sig := Names(Join(Usable(t.kex))), Names(Join(Usable(t.sig)));
    var cipher, mac, comp := Names(Join(Usable(t.cipher))), Names(Join(Usable(t.mac))), Names(Join(Usable(t.comp)));
    Lists(kex, sig, cipher, cipher, mac, mac, comp, comp)
  }

  lemma ListsArrive(t: Tables)
    requires ProperTables(t)
    ensures SentLists(t) == Lists(Received(t.kex), Received(t.sig), Received(t.cipher), Received(t.cipher),
                                  Received(t.mac), Received(t.mac), Received(t.comp), Received(t.comp))
  {
    ListArrives(t.kex);
    ListArrives(t.sig);
    ListArrives(t.cipher);
    ListArrives(t.mac);
    ListArrives(t.comp);
  }

  /** One direction's algorithms; no MAC of its own with an AEAD cipher. */
  datatype Direction = Direction(cipher: Name, mac: Option<Name>, comp: Name)

  datatype Algos = Algos(kex: Name, sig: Name, recv: Direction, trans: Direction, good: bool)

  /** Facts about names that both ends share: AEAD modes, and the pseudo-algorithms of the kex list. */
  datatype Facts = Facts(aead: Name -> bool, pseudo: Name -> bool, kexguess2: Name)

  function Pick(server: bool, t: seq<Algo>, remote: seq<Name>): Option<Name>
  {
    Selected(MatchAlgo(server, t, remote, false))
  }

  /** The algorithms of one direction, None where the code exits. */
  function PickDirection(server: bool, t: Tables, f: Facts, enc: seq<Name>, mac: seq<Name>, comp: seq<Name>):
    Option<Direction>
  {
    match (Pick(server, t.cipher, enc), Pick(server, t.comp, comp))
    case (Some(c), Some(z)) =>
      if f.aead(c) then Some(Direction(c, None, z))
      else
        var m := Pick(server, t.mac, mac);
        if m.None? then None else Some(Direction(c, m, z))
    case _ => None
  }

  /** read_kex_algos, with "Handle the asymmetry". */
  function ReadKexAlgos(server: bool, t: Tables, f: Facts, l: Lists): Option<Algos>
  {
    var guess2 := f.kexguess2 in l.kex;
    var kex, sig := MatchAlgo(server, t.kex, l.kex, guess2), MatchAlgo(server, t.sig, l.sig, guess2);
    Conclude(server, f, kex, sig, PickDirection(server, t, f, l.encC2S, l.macC2S, l.compC2S),
             PickDirection(server, t, f, l.encS2C, l.macS2C, l.compS2C))
  }

  function Conclude(server: bool, f: Facts, kex: Match, sig: Match, c2s: Option<Direction>, s2c: Option<Direction>):
    Option<Algos>
  {
    if kex.NoMatch? || f.pseudo(kex.name) || sig.NoMatch? || c2s.None? || s2c.None? then None
    else
      var good := kex.good && sig.good;
      if server then Some(Algos(kex.name, sig.name, c2s.value, s2c.value, good))
      else Some(Algos(kex.name, sig.name, s2c.value, c2s.value, good))
  }

  /** The choice of RFC 4253 section 7.1 between our own table and a list of the peer's. */
  function RfcChoice(server: bool, t: seq<Algo>, remote: seq<Name>): Option<Name>
  {
    if server then Chosen(remote, Usable(t)) else Chosen(Usable(t), remote)
  }

  lemma MatchIsChoice(server: bool, t: seq<Algo>, remote: seq<Name>, guess2: bool)
    ensures Selected(MatchAlgo(server, t, remote, guess2)) == RfcChoice(server, t, remote)
  {
    if server { ServerMatch(remote, t); } else { ClientMatch(t, remote); }
  }

  /** One direction: a cipher, a compression and, unless the cipher has its own, a MAC. */
  ghost predicate Negotiated(server: bool, t: Tables, f: Facts, enc: seq<Name>, mac: seq<Name>, comp: seq<Name>,
                             d: Option<Direction>)
  {
    var c, z, m := RfcChoice(server, t.cipher, enc), RfcChoice(server, t.comp, comp), RfcChoice(server, t.mac, mac);
    && (d.None? <==> c.None? || z.None? || (!f.aead(c.value) && m.None?))
    && (d.Some? ==> d.value == Direction(c.value, if f.aead(c.value) then None else m, z.value))
  }

  lemma PickIsNegotiated(server: bool, t: Tables, f: Facts, enc: seq<Name>, mac: seq<Name>, comp: seq<Name>)
    ensures Negotiated(server, t, f, enc, mac, comp, PickDirection(server, t, f, enc, mac, comp))
  {
    MatchIsChoice(server, t.cipher, enc, false);
    MatchIsChoice(server, t.comp, comp, false);
    MatchIsChoice(server, t.mac, mac, false);
  }

  /**
   * read_kex_algos on any lists: it exits exactly if one of the choices fails or the key exchange
   * is no real one, and each direction is used for what its lists are for.
   */
  lemma ChoicesByRfc(server: bool, t: Tables, f: Facts, l: Lists) returns (c2s: Option<Direction>, s2c: Option<Direction>)
    ensures Negotiated(server, t, f, l.encC2S, l.macC2S, l.compC2S, c2s)
    ensures Negotiated(server, t, f, l.encS2C, l.macS2C, l.compS2C, s2c)
    ensures var kex, sig := RfcChoice(server, t.kex, l.kex), RfcChoice(server, t.sig, l.sig);
            var a := ReadKexAlgos(server, t, f, l);
            if kex.None? || f.pseudo(kex.value) || sig.None? || c2s.None? || s2c.None? then a.None?
            else
              && a.Some? && a.value.kex == kex.value && a.value.sig == sig.value
              && a.value.trans == (if server then s2c.value else c2s.value)
              && a.value.recv == (if server then c2s.value else s2c.value)
  {
    var guess2 := f.kexguess2 in l.kex;
    MatchIsChoice(server, t.kex, l.kex, guess2);
    MatchIsChoice(server, t.sig, l.sig, guess2);
    PickIsNegotiated(server, t, f, l.encC2S, l.macC2S, l.compC2S);
    PickIsNegotiated(server, t, f, l.encS2C, l.macS2C, l.compS2C);
    c2s := PickDirection(server, t, f, l.encC2S, l.macC2S, l.compC2S);
    s2c := PickDirection(server, t, f, l.encS2C, l.macS2C, l.compS2C);
  }

  lemma PickAgrees(c: seq<Algo>, s: seq<Algo>)
    requires Table(c) && Table(s)
    ensures Pick(false, c, Received(s)) == Pick(true, s, Received(c)) == Chosen(Usable(c), Usable(s))
  {
    Agreement(c, s, false, false);
  }

  lemma DirectionsAgree(c: Tables, s: Tables, f: Facts)
    requires ProperTables(c) && ProperTables(s)
    ensures PickDirection(false, c, f, Received(s.cipher), Received(s.mac), Received(s.comp)) ==
            PickDirection(true, s, f, Received(c.cipher), Received(c.mac), Received(c.comp))
  {
    PickAgrees(c.cipher, s.cipher);
    PickAgrees(c.mac, s.mac);
    PickAgrees(c.comp, s.comp);
  }

  lemma ConclusionsAgree(f: Facts, kx: Match, ky: Match, sx: Match, sy: Match, d: Option<Direction>)
    requires Selected(kx) == Selected(ky) && Selected(sx) == Selected(sy)
    ensures var x, y := Conclude(false, f, kx, sx, d, d), Conclude(true, f, ky, sy, d, d);
            && (x.None? <==> y.None?)
            && (x.Some? ==>
                  && x.value.kex == y.value.kex && x.value.sig == y.value.sig
                  && x.value.trans == y.value.recv && x.value.recv == y.value.trans)
  {
  }

  /**
   * Both ends reach the same conclusion: both exit, or both take the same key exchange and host
   * key algorithms, and what one transmits with the other receives with.
   */
  lemma MirroredAlgos(c: Tables, s: Tables, f: Facts)
    requires ProperTables(c) && ProperTables(s)
    ensures var x, y := ReadKexAlgos(false, c, f, SentLists(s)), ReadKexAlgos(true, s, f, SentLists(c));
            && (x.None? <==> y.None?)
            && (x.Some? ==>
                  && x.value.kex == y.value.kex && x.value.sig == y.value.sig
                  && x.value.trans == y.value.recv && x.value.recv == y.value.trans)
  {
    var g, h := f.kexguess2 in Received(s.kex), f.kexguess2 in Received(c.kex);
    ListsArrive(c);
    ListsArrive(s);
    Agreement(c.kex, s.kex, g, h);
    Agreement(c.sig, s.sig, g, h);
    DirectionsAgree(c, s, f);
    ConclusionsAgree(f, MatchAlgo(false, c.kex, Received(s.kex), g), MatchAlgo(true, s.kex, Received(c.kex), h),
                     MatchAlgo(false, c.sig, Received(s.sig), g), MatchAlgo(true, s.sig, Received(c.sig), h),
                     PickDirection(false, c, f, Received(s.cipher), Received(s.mac), Received(s.comp)));
  }

  /** Whether a side that goes by these verdicts thinks the whole guess good: key exchange and host key. */
  predicate ClientContent(c: Tables, s: Tables, guess2: bool)
  {
    ClientLikes(c.kex, s.kex, guess2) && ClientLikes(c.sig, s.sig, guess2)
  }

  predicate ServerContent(c: Tables, s: Tables, guess2: bool)
  {
    ServerLikes(c.kex, s.kex, guess2) && ServerLikes(c.sig, s.sig, guess2)
  }

  /** Whether a peer with this table makes us go by kexguess2. */
  predicate OffersGuess2(t: Tables, f: Facts) { f.kexguess2 in Received(t.kex) }

  /** The verdicts of read_kex_algos, by the tables alone: each side goes by what the other offers. */
  lemma TableVerdicts(c: Tables, s: Tables, f: Facts)
    requires ProperTables(c) && ProperTables(s)
    ensures var x, y := ReadKexAlgos(false, c, f, SentLists(s)), ReadKexAlgos(true, s, f, SentLists(c));
            && (x.Some? ==> (x.value.good <==> ClientContent(c, s, OffersGuess2(s, f))))
            && (y.Some? ==> (y.value.good <==> ServerContent(c, s, OffersGuess2(c, f))))
  {
    var g, h := OffersGuess2(s, f), OffersGuess2(c, f);
    ListsArrive(c);
    ListsArrive(s);
    ClientVerdict(c.kex, s.kex, g);
    ClientVerdict(c.sig, s.sig, g);
    ServerVerdict(c.kex, s.kex, h);
    ServerVerdict(c.sig, s.sig, h);
  }

  /** With kexguess2 and a usable favourite the two like the same guesses. */
  lemma LikedAlike(c: seq<Algo>, s: seq<Algo>)
    requires c != [] && c[0].usable
    ensures ClientLikes(c, s, true) <==> ServerLikes(c, s, true)
  {
    FirstMasked(c);
  }

  /** Both offer kexguess2 and the client's favourites are usable: they agree on the guess. */
  lemma MirroredGuess(c: Tables, s: Tables, f: Facts)
    requires ProperTables(c) && ProperTables(s) && PlainName(f.kexguess2)
    requires f.kexguess2 in Usable(c.kex) && f.kexguess2 in Usable(s.kex)
    requires c.kex != [] && c.kex[0].usable && c.sig != [] && c.sig[0].usable
    ensures var x, y := ReadKexAlgos(false, c, f, SentLists(s)), ReadKexAlgos(true, s, f, SentLists(c));
            x.Some? ==> y.Some? && x.value.good == y.value.good
  {
    MirroredAlgos(c, s, f);
    TableVerdicts(c, s, f);
    LikedAlike(c.kex, s.kex);
    LikedAlike(c.sig, s.sig);
  }

  /** A guess the server likes is its choice. */
  lemma LikedIsChosen(c: seq<Algo>, s: seq<Algo>, guess2: bool)
    requires ServerLikes(c, s, guess2)
    ensures Usable(c) != [] && Chosen(Usable(c), Usable(s)) == Some(Usable(c)[0])
  {
    if s != [] { FirstMasked(s); }
    ChosenFirst(Usable(c), Usable(s));
  }

  /** What the client likes by either rule a server with kexguess2 likes too. */
  lemma LikedByBoth(c: seq<Algo>, s: seq<Algo>, guess2: bool)
    requires ClientLikes(c, s, guess2)
    ensures ServerLikes(c, s, true)
  {
    FirstMasked(c);
  }

  lemma KexIsChosen(c: Tables, s: Tables, f: Facts)
    requires ProperTables(c) && ProperTables(s)
    ensures var y := ReadKexAlgos(true, s, f, SentLists(c));
            y.Some? ==> Chosen(Usable(c.kex), Usable(s.kex)) == Some(y.value.kex)
  {
    ListsArrive(c);
    Agreement(c.kex, s.kex, false, OffersGuess2(c, f));
  }

  /** For all tables in any mode: a guess the server thinks good was made for the algorithm chosen. */
  lemma GuessIsChosen(c: Tables, s: Tables, f: Facts)
    requires ProperTables(c) && ProperTables(s)
    ensures var y := ReadKexAlgos(true, s, f, SentLists(c));
            y.Some? && y.value.good ==> Usable(c.kex) != [] && y.value.kex == Usable(c.kex)[0]
  {
    TableVerdicts(c, s, f);
    KexIsChosen(c, s, f);
    var h := OffersGuess2(c, f);
    if ServerLikes(c.kex, s.kex, h) { LikedIsChosen(c.kex, s.kex, h); }
  }

  /** A client that offers kexguess2 trusts no guess that the server throws away, whatever the server offers. */
  lemma VerdictsCohere(c: Tables, s: Tables, f: Facts)
    requires ProperTables(c) && ProperTables(s) && OffersGuess2(c, f)
    ensures var x, y := ReadKexAlgos(false, c, f, SentLists(s)), ReadKexAlgos(true, s, f, SentLists(c));
            x.Some? && x.value.good ==> y.Some? && y.value.good
  {
    var g := OffersGuess2(s, f);
    MirroredAlgos(c, s, f);
    TableVerdicts(c, s, f);
    if ClientContent(c, s, g) {
      LikedByBoth(c.kex, s.kex, g);
      LikedByBoth(c.sig, s.sig, g);
    }
  }
}
