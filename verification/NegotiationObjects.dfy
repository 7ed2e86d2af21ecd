/**
 * The loops of common-algo.c: the list printer on a buffer, the splitter on a character array,
 * and the nested search of buf_match_algo, proved against the functions of Negotiation.
 */
module NegotiationObjects {
  import opened Options
  import opened Radix
  import opened Buffers
  import opened BufferObjects
  import opened Negotiation

  /** The names to print: the usable ones, or all. */
  function Printed(t: seq<Algo>, useall: bool): seq<Name>
  {
    if t == [] then []
    else Printed(t[..|t| - 1], useall) + if useall || t[|t| - 1].usable then [t[|t| - 1].name] else []
  }

  lemma {:induction false} PrintedUsable(t: seq<Algo>)
    ensures Printed(t, false) == Usable(t)
    decreases |t|
  {
    if t != [] { PrintedUsable(t[..|t| - 1]); }
  }

  /** What printing one more name appends. */
  function Item(ns: seq<Name>, n: Name): seq<byte> { if ns == [] then n else [COMMA] + n }

  lemma JoinMore(ns: seq<Name>, n: Name)
    ensures Join(ns + [n]) == Join(ns) + Item(ns, n)
  {
    assert (ns + [n])[..|ns|] == ns;
    assert Join(ns) + [COMMA] + n == Join(ns) + ([COMMA] + n);
  }

  /** A longer table prints no less. */
  lemma {:induction false} JoinGrows(t: seq<Algo>, useall: bool, i: nat)
    requires i <= |t|
    ensures |Join(Printed(t[..i], useall))| <= |Join(Printed(t, useall))|
    decreases |t|
  {
    if i < |t| {
      var front, last := t[..|t| - 1], t[|t| - 1];
      JoinGrows(front, useall, i);
      assert front[..i] == t[..i];
      JoinMore(Printed(front, useall), last.name);
      assert Printed(front, useall) + [] == Printed(front, useall);
    } else {
      assert t[..i] == t;
    }
  }

  /** Filling in the length afterwards gives what buf_putstring would have written. */
  lemma BackPatched(b: Buf, s: seq<byte>)
    requires Proper(b) && b.pos + 4 + |s| <= |b.data|
    ensures PutBytes(PutInt(b, 0).value, s).Some?
    ensures var c := PutBytes(PutInt(b, 0).value, s).value;
            var d := PutInt(Rewind(c, b), |s|);
            && d.Some? && d.value.pos + |s| == c.pos && d.value.len == c.len
            && PutString(b, s) == Some(d.value.(pos := c.pos))
  {
    PutBytesTwice(b, ToBytes(0, 4), s);
    PutBytesTwice(b, ToBytes(|s|, 4), s);
    Patched(b.data[..b.pos], ToBytes(0, 4), ToBytes(|s|, 4), s, b.data[b.pos + 4 + |s|..]);
  }

  /** Overwriting the placeholder z with y. */
  lemma Patched(a: seq<byte>, z: seq<byte>, y: seq<byte>, s: seq<byte>, r: seq<byte>)
    requires |z| == |y| == 4
    ensures var t := a + (z + s) + r;
            t[..|a|] + y + t[|a| + 4..] == a + (y + s) + r
  {
    var t := a + (z + s) + r;
    assert t[..|a|] == a && t[|a| + 4..] == s + r;
  }

  /** One name, with a comma unless it is the first. */
  method PutName(buf: Buffer, donefirst: bool, name: Name) returns (ok: bool)
    requires buf.Valid()
    modifies buf`len, buf`pos, buf.data
    ensures buf.Valid() && buf.data == old(buf.data)
    ensures ok == Buffers.PutBytes(old(buf.View()), if donefirst then [COMMA] + name else name).Some?
    ensures ok ==> buf.View() == Buffers.PutBytes(old(buf.View()), if donefirst then [COMMA] + name else name).value
  {
    ghost var b := buf.View();
    if donefirst {
      ok := buf.PutByte(COMMA);
      if !ok {
        return false;
      }
      if b.pos + 1 + |name| <= |b.data| {
        PutBytesTwice(b, [COMMA], name);
      }
    }
    ok := buf.PutBytes(name);
  }

  /** buf_put_algolist_all: false where the buffer is too small and the code exits. */
  method PutAlgolistAll(buf: Buffer, localalgos: seq<Algo>, useall: bool) returns (ok: bool)
    requires buf.Valid()
    modifies buf`len, buf`pos, buf.data
    ensures buf.Valid() && buf.data == old(buf.data)
    ensures ok == PutString(old(buf.View()), Join(Printed(localalgos, useall))).Some?
    ensures ok ==> buf.View() == PutString(old(buf.View()), Join(Printed(localalgos, useall))).value
  {
    ghost var b := buf.View();
    var startpos := buf.pos;
    ok := buf.PutInt(0);
    if !ok {
      return false;
    }
    ghost var c := buf.View();
    ok := PutNames(buf, localalgos, useall);
    if !ok {
      return false;
    }
    ghost var list := Join(Printed(localalgos, useall));
    ghost var d := buf.View();
    BackPatched(b, list);
    var len := buf.pos - startpos - 4;
    ok := buf.SetPos(startpos);
    assert buf.View() == Rewind(d, b);
    ok := buf.PutInt(len);
    ok := buf.IncrWritePos(len);
  }

  /** A table printed by one end is read by the other as its usable names. */
  lemma ListTravels(b: Buf, t: seq<Algo>)
    requires Proper(b) && Table(t) && b.pos + 4 + |Join(Usable(t))| <= |b.data|
    ensures var c := PutString(b, Join(Printed(t, false)));
            && c.Some? && GetString(Rewind(c.value, b)).Some?
            && var (list, d) := GetString(Rewind(c.value, b)).value;
               Names(list) == Received(t) && d == c.value
  {
    PrintedUsable(t);
    ListArrives(t);
    StringRoundTrip(b, Join(Usable(t)));
  }

  /** What the next entry of the table adds to the list. */
  lemma PrintedNext(t: seq<Algo>, useall: bool, i: nat)
    requires i < |t|
    ensures var ns := Printed(t[..i], useall);
            && Printed(t[..i + 1], useall) == (if t[i].usable || useall then ns + [t[i].name] else ns)
            && (t[i].usable || useall ==> Join(Printed(t[..i + 1], useall)) == Join(ns) + Item(ns, t[i].name))
  {
    assert t[..i + 1][..i] == t[..i];
    JoinMore(Printed(t[..i], useall), t[i].name);
  }

  /** Appending to what has been put is putting more, if and only if it fits. */
  lemma PutMore(c: Buf, now: Buf, done: seq<byte>, more: seq<byte>)
    requires Proper(c) && PutBytes(c, done) == Some(now)
    ensures Proper(now) && PutBytes(now, more) == PutBytes(c, done + more)
  {
    if c.pos + |done| + |more| <= |c.data| { PutBytesTwice(c, done, more); }
  }

  lemma PutLess(c: Buf, s: seq<byte>, t: seq<byte>)
    requires Proper(c) && |s| <= |t| && PutBytes(c, s).None?
    ensures PutBytes(c, t).None?
  {
  }

  /** The loop of buf_put_algolist_all. */
  method PutNames(buf: Buffer, localalgos: seq<Algo>, useall: bool) returns (ok: bool)
    requires buf.Valid()
    modifies buf`len, buf`pos, buf.data
    ensures buf.Valid() && buf.data == old(buf.data)
    ensures ok == Buffers.PutBytes(old(buf.View()), Join(Printed(localalgos, useall))).Some?
    ensures ok ==> buf.View() == Buffers.PutBytes(old(buf.View()), Join(Printed(localalgos, useall))).value
  {
    ghost var c := buf.View();
    var donefirst := false;
    assert localalgos[..0] == [];
    PutNothing(c);
    for i := 0 to |localalgos|
      invariant buf.Valid() && buf.data == old(buf.data)
      invariant donefirst <==> Printed(localalgos[..i], useall) != []
      invariant Buffers.PutBytes(c, Join(Printed(localalgos[..i], useall))) == Some(buf.View())
    {
      PrintedNext(localalgos, useall, i);
      if localalgos[i].usable || useall {
        ghost var ns := Printed(localalgos[..i], useall);
        PutMore(c, buf.View(), Join(ns), Item(ns, localalgos[i].name));
        ok := PutName(buf, donefirst, localalgos[i].name);
        if !ok {
          JoinGrows(localalgos, useall, i + 1);
          PutLess(c, Join(Printed(localalgos[..i + 1], useall)), Join(Printed(localalgos, useall)));
          return false;
        }
        donefirst := true;
      }
    }
    assert localalgos[..|localalgos|] == localalgos;
    ok := true;
  }

  // ---- get_algolist ----

  /** The string at p: what stands there up to the next zero byte. */
  function CString(s: seq<byte>, p: nat): seq<byte>
    requires p <= |s|
    decreases |s| - p
  {
    if p == |s| || s[p] == 0 then [] else [s[p]] + CString(s, p + 1)
  }

  lemma {:induction false} CStringIs(s: seq<byte>, p: nat, end: nat)
    requires p <= end < |s| && s[end] == 0 && forall i :: p <= i < end ==> s[i] != 0
    ensures CString(s, p) == s[p..end]
    decreases end - p
  {
    if p < end {
      CStringIs(s, p + 1, end);
      assert s[p..end] == [s[p]] + s[p + 1..end];
    }
  }

  /** Name k has been cut out of the array at starts[k]; it ends in a zero byte before `limit`. */
  ghost predicate CutOut(s: seq<byte>, start: nat, name: Name, limit: nat)
  {
    && start + |name| < limit <= |s| && s[start..start + |name|] == name
    && s[start + |name|] == 0 && 0 !in name
  }

  lemma CutOutString(s: seq<byte>, start: nat, name: Name, limit: nat)
    requires CutOut(s, start, name, limit)
    ensures CString(s, start) == name
  {
    forall i | start <= i < start + |name| ensures s[i] != 0 {
      assert s[i] == name[i - start];
    }
    CStringIs(s, start, start + |name|);
  }

  /** The names so far, the last one still open at i. */
  ghost predicate CutSoFar(s: seq<byte>, starts: seq<nat>, names: seq<Name>, i: nat)
  {
    && |starts| == |names| > 0 && i <= |s|
    && (forall k :: 0 <= k < |names| - 1 ==> CutOut(s, starts[k], names[k], i))
    && starts[|starts| - 1] + |names[|names| - 1]| == i
    && s[starts[|starts| - 1]..i] == names[|names| - 1] && 0 !in names[|names| - 1]
  }

  lemma CutMore(s: seq<byte>, starts: seq<nat>, names: seq<Name>, i: nat)
    requires CutSoFar(s, starts, names, i) && i < |s| && s[i] != 0
    ensures CutSoFar(s, starts, Extend(names, [s[i]]), i + 1)
  {
    var last := starts[|starts| - 1];
    assert s[last..i + 1] == s[last..i] + [s[i]];
  }

  lemma CutHere(s: seq<byte>, t: seq<byte>, starts: seq<nat>, names: seq<Name>, i: nat)
    requires CutSoFar(s, starts, names, i) && i < |s| && t == s[i := 0]
    ensures CutSoFar(t, starts + [i + 1], names + [[]], i + 1)
  {
    forall k | 0 <= k < |names| ensures CutOut(t, starts[k], names[k], i + 1) {
      var n := |names[k]|;
      assert t[starts[k]..starts[k] + n] == s[starts[k]..starts[k] + n];
    }
    assert t[i + 1..i + 1] == [];
  }

  /** At the end of the list the last name is cut out too. */
  lemma AllCutOut(s: seq<byte>, starts: seq<nat>, names: seq<Name>, len: nat)
    requires CutSoFar(s, starts, names, len) && len < |s| && s[len] == 0
    ensures forall k :: 0 <= k < |names| ==> starts[k] <= |s| && CString(s, starts[k]) == names[k]
  {
    forall k | 0 <= k < |names| ensures starts[k] <= |s| && CString(s, starts[k]) == names[k] {
      CutOutString(s, starts[k], names[k], len + 1);
    }
  }

  /**
   * get_algolist: commas become terminators and each name is where its pointer says, until a
   * zero byte in the list or one name too many.
   */
  method GetAlgolist(algolist: array<byte>, len: nat, max: nat) returns (starts: seq<nat>, exits: bool)
    requires len < algolist.Length && algolist[len] == 0 && max > 0
    modifies algolist
    ensures match ScanList(old(algolist[..len]), max)
            case Running(names) =>
              && !exits && |starts| == |names|
              && (forall k :: 0 <= k < |names| ==>
                    starts[k] <= algolist.Length && CString(algolist[..], starts[k]) == names[k])
            case NulFound => !exits && starts == []
            case TooMany => exits
  {
    ghost var list := algolist[..len];
    starts := [0];
    ghost var names: seq<Name> := [[]];
    assert list[..0] == [];
    var i := 0;
    while i < len
      invariant 0 <= i <= len && ScanList(list[..i], max) == Running(names)
      invariant algolist[len] == 0 && forall k :: i <= k < len ==> algolist[k] == list[k]
      invariant CutSoFar(algolist[..], starts, names, i)
    {
      ScanNext(list, i, max);
      assert algolist[i] == list[i];
      if algolist[i] == 0 {
        ScanStops(list, i + 1, max);
        return [], false;
      }
      ghost var s := algolist[..];
      if algolist[i] == COMMA {
        if |starts| >= max {
          ScanStops(list, i + 1, max);
          return [], true;
        }
        algolist[i] := 0;
        CutHere(s, algolist[..], starts, names, i);
        starts := starts + [i + 1];
        names := names + [[]];
      } else {
        CutMore(s, starts, names, i);
        names := Extend(names, [algolist[i]]);
      }
      i := i + 1;
    }
    assert list[..len] == list;
    exits := false;
    AllCutOut(algolist[..], starts, names, len);
  }

  lemma ScanNext(s: seq<byte>, i: nat, max: nat)
    requires i < |s| && ScanList(s[..i], max).Running?
    ensures var names := ScanList(s[..i], max).names;
            ScanList(s[..i + 1], max) ==
            if s[i] == 0 then NulFound
            else if s[i] == COMMA then (if |names| >= max then TooMany else Running(names + [[]]))
            else Running(Extend(names, [s[i]]))
  {
    assert s[..i + 1][..i] == s[..i];
  }

  /** Once the scan has stopped it stays stopped. */
  lemma {:induction false} ScanStops(s: seq<byte>, n: nat, max: nat)
    requires n <= |s| && !ScanList(s[..n], max).Running?
    ensures ScanList(s, max) == ScanList(s[..n], max)
    decreases |s|
  {
    if n < |s| {
      assert s[..|s| - 1][..n] == s[..n];
      ScanStops(s[..|s| - 1], n, max);
    } else {
      assert s[..n] == s;
    }
  }

  // ---- buf_match_algo, first_usable_algo, buf_has_algo ----

  /** The inner loop of buf_match_algo: the first server name equal to this client name. */
  method FindName(servnames: seq<Option<Name>>, n: Option<Name>) returns (r: Option<nat>)
    ensures r == if n.Some? then Find(servnames, n.value) else None
  {
    assert servnames[..0] == [];
    var j := 0;
    while j < |servnames|
      invariant 0 <= j <= |servnames|
      invariant n.Some? ==> Find(servnames[..j], n.value) == None
    {
      assert servnames[..j + 1][..j] == servnames[..j];
      if servnames[j].Some? && n.Some? {
        if servnames[j].value == n.value {
          FoundStays(servnames, j + 1, n.value);
          return Some(j);
        }
      }
      j := j + 1;
    }
    assert servnames[..|servnames|] == servnames;
    return None;
  }

  lemma {:induction false} FoundStays(serv: seq<Option<Name>>, j: nat, n: Name)
    requires j <= |serv| && Find(serv[..j], n).Some?
    ensures Find(serv, n) == Find(serv[..j], n)
    decreases |serv|
  {
    if j < |serv| {
      assert serv[..|serv| - 1][..j] == serv[..j];
      FoundStays(serv[..|serv| - 1], j, n);
    } else {
      assert serv[..j] == serv;
    }
  }

  lemma {:induction false} MatchStays(cli: seq<Option<Name>>, serv: seq<Option<Name>>, i: nat)
    requires i <= |cli| && FirstMatch(cli[..i], serv).Some?
    ensures FirstMatch(cli, serv) == FirstMatch(cli[..i], serv)
    decreases |cli|
  {
    if i < |cli| {
      assert cli[..|cli| - 1][..i] == cli[..i];
      MatchStays(cli[..|cli| - 1], serv, i);
    } else {
      assert cli[..i] == cli;
    }
  }

  /** The outer loop of buf_match_algo. */
  method SearchNames(clinames: seq<Option<Name>>, servnames: seq<Option<Name>>) returns (r: Option<(nat, nat)>)
    ensures r == FirstMatch(clinames, servnames)
  {
    assert clinames[..0] == [];
    var i := 0;
    while i < |clinames|
      invariant 0 <= i <= |clinames|
      invariant FirstMatch(clinames[..i], servnames) == None
    {
      assert clinames[..i + 1][..i] == clinames[..i];
      var j := FindName(servnames, clinames[i]);
      if j.Some? {
        MatchStays(clinames, servnames, i + 1);
        return Some((i, j.value));
      }
      i := i + 1;
    }
    assert clinames[..|clinames|] == clinames;
    return None;
  }

  /** buf_match_algo, once the peer's list has been split. */
  method BufMatchAlgo(server: bool, localalgos: seq<Algo>, remotenames: seq<Name>, kexguess2: bool)
    returns (ret: Option<nat>, goodguess: bool)
    ensures match MatchAlgo(server, localalgos, remotenames, kexguess2)
            case NoMatch => ret == None && !goodguess
            case Matched(name, good) =>
              ret.Some? && ret.value < |localalgos| && localalgos[ret.value].usable &&
              localalgos[ret.value].name == name && goodguess == good
  {
    var localnames, remote := Masked(localalgos), Shown(remotenames);
    var m;
    if server {
      m := SearchNames(remote, localnames);
    } else {
      m := SearchNames(localnames, remote);
    }
    if m.None? {
      return None, false;
    }
    var (i, j) := m.value;
    goodguess := if kexguess2 then i == 0 else i == 0 && j == 0;
    ret := Some(if server then j else i);
    MatchAtZero(if server then remote else localnames, if server then localnames else remote);
    MaskedEntry(localalgos, ret.value);
    if server {
      FindEntry(localnames, remote[i].value);
    }
  }

  lemma {:induction false} MaskedEntry(t: seq<Algo>, i: nat)
    requires i < |t|
    ensures Masked(t)[i] == if t[i].usable then Some(t[i].name) else None
    decreases |t|
  {
    if i < |t| - 1 { MaskedEntry(t[..|t| - 1], i); }
  }

  lemma {:induction false} FindEntry(serv: seq<Option<Name>>, n: Name)
    ensures Find(serv, n).Some? ==> serv[Find(serv, n).value] == Some(n)
    decreases |serv|
  {
    if serv != [] { FindEntry(serv[..|serv| - 1], n); }
  }

  /** first_usable_algo. */
  method FirstUsableAlgo(algos: seq<Algo>) returns (r: Option<nat>)
    ensures r.None? <==> Usable(algos) == []
    ensures r.Some? ==> r.value < |algos| && algos[r.value].usable && algos[r.value].name == Usable(algos)[0]
  {
    assert algos[..0] == [];
    var i := 0;
    while i < |algos|
      invariant 0 <= i <= |algos| && Usable(algos[..i]) == []
    {
      assert algos[..i + 1][..i] == algos[..i];
      if algos[i].usable {
        UsableStays(algos, i + 1);
        return Some(i);
      }
      i := i + 1;
    }
    assert algos[..|algos|] == algos;
    return None;
  }

  lemma {:induction false} UsableStays(t: seq<Algo>, i: nat)
    requires i <= |t| && Usable(t[..i]) != []
    ensures Usable(t) != [] && Usable(t)[0] == Usable(t[..i])[0]
    decreases |t|
  {
    if i < |t| {
      assert t[..|t| - 1][..i] == t[..i];
      UsableStays(t[..|t| - 1], i);
    } else {
      assert t[..i] == t;
    }
  }

  /** buf_has_algo, once the list has been split. */
  method BufHasAlgo(remotenames: seq<Name>, algo: Name) returns (has: bool)
    ensures has <==> algo in remotenames
  {
    var i := 0;
    while i < |remotenames|
      invariant 0 <= i <= |remotenames| && algo !in remotenames[..i]
    {
      if remotenames[i] == algo {
        return true;
      }
      i := i + 1;
    }
    return false;
  }
}
