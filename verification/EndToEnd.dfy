/**
 * The key exchange of Rekeying over the byte streams of FramingRuns: two endpoints whose packets
 * are encrypted, written and read in pieces, each taking its keys from its own exchange and
 * nothing else. Every such run is a run of packets, so everything proved of those holds here.
 */
module EndToEnd {
  import opened Options
  import opened KeyExchange
  import opened WireLog
  import opened Rekeying
  import opened LogGrowth
  import opened WireCoding

  // ---- one pass of an endpoint ----

  /** read_packet; a read from a stream that has failed is not made. */
  function ReadOnce(y: R.System, a: nat, b: nat): (F.Reader, nat)
  {
    if y.taken > |y.written| || y.reader.exit then (y.reader, y.taken)
    else F.ReadPacket(y.reader, y.written, y.taken, a, b)
  }

  /** The packet that has become complete, if any. That it decrypted says it was under the receive key. */
  function Arrival(k: Coding, x: Endpoint, y: R.System, a: nat, b: nat): Option<Wire>
  {
    var r := ReadOnce(y, a, b).0;
    if |r.delivered| <= |y.reader.delivered| then None
    else
      var p := k.decode(r.delivered[|r.delivered| - 1]);
      Some(Wire(p.typ, p.body, x.recv))
  }

  /** The endpoint after a pass that reads from y; a failed length or MAC check ends it. */
  function PassEnd(k: Coding, env: Negotiation, x: Endpoint, y: R.System, a: nat, b: nat, inp: Input): Endpoint
  {
    if ReadOnce(y, a, b).0.exit then x.(exit := Some(IntegrityError))
    else Iterate(x, env, Arrival(k, x, y, a, b), inp)
  }

  /** Its reader: after NEWKEYS it goes on under the endpoint's new receive key. */
  function PassReader(k: Coding, fromClient: bool, y: R.System, arrival: Option<Wire>, recv: Key, a: nat, b: nat): R.System
  {
    var (r, next) := ReadOnce(y, a, b);
    y.(reader := if arrival.Some? && arrival.value.typ == NEWKEYS then r.(ctx := k.context(fromClient, recv)) else r,
       taken := next)
  }

  lemma ReadsOne(y: R.System, a: nat, b: nat)
    ensures |y.reader.delivered| <= |ReadOnce(y, a, b).0.delivered| <= |y.reader.delivered| + 1
  {
  }

  lemma RekeyedKeeps(r: F.Reader, sent: seq<F.Packet>, n: nat)
    ensures R.Rekeyed(r, sent, n).delivered == r.delivered && R.Rekeyed(r, sent, n).exit == r.exit
  {
  }

  lemma InvReader(y: R.System)
    requires R.Inv(y)
    ensures !y.reader.exit && y.taken <= |y.written| && |y.reader.delivered| <= |y.sent|
    ensures y.reader.delivered == R.Payloads(y.sent[..|y.reader.delivered|])
  {
  }

  predicate BringsNext(y: R.System, r: F.Reader)
  {
    var n := |y.reader.delivered|;
    |r.delivered| > n ==>
      && n < |y.sent| && |r.delivered| == n + 1
      && r.delivered[n] == y.sent[n].payload
  }

  /** A read delivers nothing or the payload of the next packet, and no check fails. */
  lemma ReadDelivers(y: R.System, a: nat, b: nat)
    requires R.Inv(y)
    ensures var (r, next) := ReadOnce(y, a, b);
            && R.ReadSome(y, a, b) == y.(reader := R.Rekeyed(r, y.sent, |y.reader.delivered|), taken := next)
            && !r.exit && |r.delivered| <= |y.sent| && BringsNext(y, r)
  {
    var (r, next) := ReadOnce(y, a, b);
    var n, z := |y.reader.delivered|, R.ReadSome(y, a, b);
    InvReader(y);
    R.ReadKeeps(y, a, b);
    InvReader(z);
    ReadsOne(y, a, b);
    RekeyedKeeps(r, y.sent, n);
    if |r.delivered| == n + 1 {
      assert y.sent[..n + 1][..n] == y.sent[..n];
    }
  }

  /** The packet next to be read is under the reader's key, as KeysMatch says. */
  predicate Readable(out: seq<Wire>, n: nat, recv: Key)
  {
    n < |out| ==> out[n].key == recv && WellTyped(out[n].typ, out[n].body)
  }

  lemma PacketDecodes(k: Coding, fromClient: bool, y: R.System, x: Endpoint, i: nat)
    requires Matches(k, fromClient, y, x) && CodedLog(k, x.box.out) && i < |x.box.out|
    ensures i < |y.sent| && k.decode(y.sent[i].payload) == PayloadOf(x.box.out[i])
  {
    assert MatchesAt(k, fromClient, y.sent[i], x, i, |y.reader.delivered| <= i);
    assert x.box.out[i] in x.box.out;
    assert Coded(k, PayloadOf(x.box.out[i]));
  }

  lemma ArrivalIs(k: Coding, x: Endpoint, y: R.System, a: nat, b: nat, r: F.Reader, w: Wire)
    requires r == ReadOnce(y, a, b).0 && |r.delivered| > |y.reader.delivered|
    requires k.decode(r.delivered[|r.delivered| - 1]) == PayloadOf(w) && w.key == x.recv
    ensures Arrival(k, x, y, a, b) == Some(w)
  {
  }

  /** What arrives is the next packet of the peer's log. */
  lemma ArrivalIsNext(k: Coding, fromClient: bool, x: Endpoint, peer: Endpoint, y: R.System, a: nat, b: nat)
    requires BringsNext(y, ReadOnce(y, a, b).0) && Matches(k, fromClient, y, peer) && CodedLog(k, peer.box.out)
    requires Readable(peer.box.out, |y.reader.delivered|, x.recv)
    ensures var n := |y.reader.delivered|;
            && (|ReadOnce(y, a, b).0.delivered| == n ==> Arrival(k, x, y, a, b) == None)
            && (|ReadOnce(y, a, b).0.delivered| > n ==>
                  n < |peer.box.out| && Arrival(k, x, y, a, b) == Some(peer.box.out[n]))
  {
    var n, r := |y.reader.delivered|, ReadOnce(y, a, b).0;
    if |r.delivered| > n {
      PacketDecodes(k, fromClient, y, peer, n);
      ArrivalIs(k, x, y, a, b, r, peer.box.out[n]);
    }
  }

  /** The context its own receive key gives the reader is the one that the packet brings. */
  lemma RekeyedAlike(k: Coding, fromClient: bool, p: F.Packet, peer: Endpoint, n: nat, recv: Key)
    requires n < |peer.box.out| && MatchesAt(k, fromClient, p, peer, n, true)
    requires peer.box.out[n].body.NewKeys? ==> recv == peer.trans
    ensures p.rekey == if peer.box.out[n].body.NewKeys? then Some(k.context(fromClient, recv)) else None
  {
  }

  lemma PassReaderReads(k: Coding, fromClient: bool, x: Endpoint, peer: Endpoint, y: R.System, recv: Key, a: nat, b: nat)
    requires R.Inv(y) && Matches(k, fromClient, y, peer) && CodedLog(k, peer.box.out)
    requires var n := |y.reader.delivered|;
             && Readable(peer.box.out, n, x.recv)
             && (|ReadOnce(y, a, b).0.delivered| > n && n < |peer.box.out| && peer.box.out[n].body.NewKeys? ==>
                   recv == peer.trans)
    ensures PassReader(k, fromClient, y, Arrival(k, x, y, a, b), recv, a, b) == R.ReadSome(y, a, b)
  {
    var n := |y.reader.delivered|;
    ReadDelivers(y, a, b);
    ReadsOne(y, a, b);
    ArrivalIsNext(k, fromClient, x, peer, y, a, b);
    if |ReadOnce(y, a, b).0.delivered| > n {
      assert MatchesAt(k, fromClient, y.sent[n], peer, n, true);
      RekeyedAlike(k, fromClient, y.sent[n], peer, n, recv);
    }
  }

  lemma ReadStillMatches(k: Coding, fromClient: bool, peer: Endpoint, y: R.System, a: nat, b: nat)
    requires R.Inv(y) && Matches(k, fromClient, y, peer)
    ensures Matches(k, fromClient, R.ReadSome(y, a, b), peer)
  {
    ReadDelivers(y, a, b);
    ReadsOne(y, a, b);
    var z := R.ReadSome(y, a, b);
    RekeyedKeeps(ReadOnce(y, a, b).0, y.sent, |y.reader.delivered|);
    forall i | 0 <= i < |z.sent| ensures MatchesAt(k, fromClient, z.sent[i], peer, i, |z.reader.delivered| <= i) {
      assert MatchesAt(k, fromClient, y.sent[i], peer, i, |y.reader.delivered| <= i);
    }
  }

  // ---- the two endpoints and their byte streams ----

  /** up carries the client's packets, down the server's; each holds the reader at its far end. */
  datatype Joined = Joined(c: Endpoint, s: Endpoint, up: R.System, down: R.System)

  /** What has been read, packet by packet. */
  function NetOf(j: Joined): Net
  {
    Net(j.c, j.s, |j.down.reader.delivered|, |j.up.reader.delivered|)
  }

  ghost predicate Fit(j: Joined) { R.Fine(j.up.start, j.up.sent) && R.Fine(j.down.start, j.down.sent) }

  /** A pass of session_loop, whose reads return a and b bytes, or a write that takes n bytes. */
  datatype Move = Pass(client: bool, a: nat, b: nat, inp: Input) | Write(client: bool, n: nat)

  function ClientEnd(j: Joined, k: Coding, env: Negotiation, a: nat, b: nat, inp: Input): Endpoint
  {
    PassEnd(k, env, j.c, j.down, a, b, inp)
  }

  function ServerEnd(j: Joined, k: Coding, env: Negotiation, a: nat, b: nat, inp: Input): Endpoint
  {
    PassEnd(k, env, j.s, j.up, a, b, inp)
  }

  ghost function ClientPass(j: Joined, k: Coding, env: Negotiation, a: nat, b: nat, inp: Input): Joined
    requires Fit(j) && Contexts(k) && CodedLog(k, ClientEnd(j, k, env, a, b, inp).box.out)
  {
    var c := ClientEnd(j, k, env, a, b, inp);
    Joined(c, j.s, SendAll(j.up, k, true, c), PassReader(k, false, j.down, Arrival(k, j.c, j.down, a, b), c.recv, a, b))
  }

  ghost function ServerPass(j: Joined, k: Coding, env: Negotiation, a: nat, b: nat, inp: Input): Joined
    requires Fit(j) && Contexts(k) && CodedLog(k, ServerEnd(j, k, env, a, b, inp).box.out)
  {
    var s := ServerEnd(j, k, env, a, b, inp);
    Joined(j.c, s, PassReader(k, true, j.up, Arrival(k, j.s, j.up, a, b), s.recv, a, b), SendAll(j.down, k, false, s))
  }

  // ---- the invariant ----

  /** The stream y carries the log of x. */
  ghost predicate Carries(k: Coding, fromClient: bool, y: R.System, x: Endpoint)
  {
    R.Inv(y) && Matches(k, fromClient, y, x) && CodedLog(k, x.box.out)
  }

  ghost predicate Joint(j: Joined, k: Coding, env: Negotiation)
  {
    && Sound(NetOf(j), env)
    && (Running(NetOf(j)) ==> Carries(k, true, j.up, j.c) && Carries(k, false, j.down, j.s))
  }

  /** There is never a second NEWKEYS behind one that is being read. */
  lemma OneNewKeys(n: Net, env: Negotiation)
    requires Inv(n, env)
    ensures n.nc < |n.s.box.out| && n.s.box.out[n.nc].body.NewKeys? ==> NewKeys !in Pending(n.s.box.out, n.nc + 1)
    ensures n.ns < |n.c.box.out| && n.c.box.out[n.ns].body.NewKeys? ==> NewKeys !in Pending(n.c.box.out, n.ns + 1)
  {
    InvIs(n, env);
    var lc, ls := Pending(n.c.box.out, n.ns), Pending(n.s.box.out, n.nc);
    LastNewKeys(n.c.kex, n.s.kex, n.s.ignoreNext, env, lc, ls);
    if n.nc < |n.s.box.out| && n.s.box.out[n.nc].body.NewKeys? {
      assert ls == [NewKeys] + Pending(n.s.box.out, n.nc + 1);
    }
    if n.ns < |n.c.box.out| && n.c.box.out[n.ns].body.NewKeys? {
      assert lc == [NewKeys] + Pending(n.c.box.out, n.ns + 1);
    }
  }

  lemma LastNewKeys(c: Kex, s: Kex, ignoring: bool, env: Negotiation, lc: seq<Body>, ls: seq<Body>)
    requires PhaseOf(c) == Sent ==> c.myInit.Some? && (env.guesses ==> c.param.Some?)
    requires PhaseOf(s) == Sent ==> s.myInit.Some?
    requires PhaseOf(c) == Both ==> c.hash.Some?
    requires PhaseOf(s) == Both ==> s.hash.Some?
    requires PhaseOf(s) == Done ==> s.pending.Some?
    requires PhaseOf(c) == Done ==> c.pending.Some?
    requires InFlight(c, s, ignoring, env, lc, ls)
    ensures lc != [] && lc[0] == NewKeys ==> NewKeys !in lc[1..]
    ensures ls != [] && ls[0] == NewKeys ==> NewKeys !in ls[1..]
  {
  }

  /** With no NEWKEYS still to be read, sender and reader hold the same key. */
  lemma DrainedAlike(n: Net, env: Negotiation)
    requires Inv(n, env)
    ensures n.nc <= |n.s.box.out| && n.ns <= |n.c.box.out|
    ensures NewKeys !in Pending(n.s.box.out, n.nc) ==> n.c.recv == n.s.trans
    ensures NewKeys !in Pending(n.c.box.out, n.ns) ==> n.s.recv == n.c.trans
  {
    InvIs(n, env);
  }

  /** So after reading it the receive key is the one the peer now sends under. */
  lemma SwitchedAlike(n: Net, m: Net, env: Negotiation)
    requires Inv(n, env) && Inv(m, env)
    ensures m.s == n.s && m.nc == n.nc + 1 && n.nc < |n.s.box.out| && n.s.box.out[n.nc].body.NewKeys? ==>
              m.c.recv == n.s.trans
    ensures m.c == n.c && m.ns == n.ns + 1 && n.ns < |n.c.box.out| && n.c.box.out[n.ns].body.NewKeys? ==>
              m.s.recv == n.c.trans
  {
    OneNewKeys(n, env);
    DrainedAlike(m, env);
  }

  lemma BothReadable(n: Net, env: Negotiation)
    requires Inv(n, env)
    ensures Readable(n.s.box.out, n.nc, n.c.recv) && Readable(n.c.box.out, n.ns, n.s.recv)
  {
    InvIs(n, env);
  }

  // ---- a pass of bytes is a turn of packets ----

  lemma ClientPassIsTurn(j: Joined, k: Coding, env: Negotiation, a: nat, b: nat, inp: Input)
    requires Joint(j, k, env) && Running(NetOf(j)) && Fit(j) && Contexts(k)
    requires CodedLog(k, ClientEnd(j, k, env, a, b, inp).box.out)
    ensures NetOf(ClientPass(j, k, env, a, b, inp))
         == ClientTurn(NetOf(j), env, Arrival(k, j.c, j.down, a, b).Some?, inp)
  {
    var n := NetOf(j);
    BothReadable(n, env);
    ReadDelivers(j.down, a, b);
    ReadsOne(j.down, a, b);
    ArrivalIsNext(k, false, j.c, j.s, j.down, a, b);
    SendAllShape(j.up, k, true, ClientEnd(j, k, env, a, b, inp));
  }

  lemma ServerPassIsTurn(j: Joined, k: Coding, env: Negotiation, a: nat, b: nat, inp: Input)
    requires Joint(j, k, env) && Running(NetOf(j)) && Fit(j) && Contexts(k)
    requires CodedLog(k, ServerEnd(j, k, env, a, b, inp).box.out)
    ensures NetOf(ServerPass(j, k, env, a, b, inp))
         == ServerTurn(NetOf(j), env, Arrival(k, j.s, j.up, a, b).Some?, inp)
  {
    var n := NetOf(j);
    BothReadable(n, env);
    ReadDelivers(j.up, a, b);
    ReadsOne(j.up, a, b);
    ArrivalIsNext(k, true, j.s, j.c, j.up, a, b);
    SendAllShape(j.down, k, false, ServerEnd(j, k, env, a, b, inp));
  }

  /** What the pass sends is carried on. */
  lemma StillCarries(k: Coding, fromClient: bool, y: R.System, x: Endpoint, z: Endpoint, recv: Key)
    requires Carries(k, fromClient, y, x) && Contexts(k) && CodedLog(k, z.box.out) && Extends(x, z)
    requires var n := |y.reader.delivered|;
             && n <= |x.box.out| && n <= |z.box.out|
             && KeyedFrom(x.box.out, n, recv, x.trans) && KeyedFrom(z.box.out, n, recv, z.trans)
    ensures Carries(k, fromClient, SendAll(y, k, fromClient, z), z)
  {
    SendAllKeeps(y, k, fromClient, z);
    SendAllMatches(k, fromClient, y, x, z, recv);
  }

  /** What the pass reads leaves the peer's stream as it should be, under the new key if one has come. */
  lemma ReadStillCarries(k: Coding, fromClient: bool, x: Endpoint, peer: Endpoint, y: R.System, recv: Key, a: nat, b: nat)
    requires Carries(k, fromClient, y, peer) && Readable(peer.box.out, |y.reader.delivered|, x.recv)
    requires var n := |y.reader.delivered|;
             |ReadOnce(y, a, b).0.delivered| > n && n < |peer.box.out| && peer.box.out[n].body.NewKeys? ==>
               recv == peer.trans
    ensures Carries(k, fromClient, PassReader(k, fromClient, y, Arrival(k, x, y, a, b), recv, a, b), peer)
  {
    PassReaderReads(k, fromClient, x, peer, y, recv, a, b);
    R.ReadKeeps(y, a, b);
    ReadStillMatches(k, fromClient, peer, y, a, b);
  }

  /** Both streams are keyed from where they have been read to. */
  lemma BothKeyed(n: Net, env: Negotiation)
    requires Inv(n, env)
    ensures n.ns <= |n.c.box.out| && KeyedFrom(n.c.box.out, n.ns, n.s.recv, n.c.trans)
    ensures n.nc <= |n.s.box.out| && KeyedFrom(n.s.box.out, n.nc, n.c.recv, n.s.trans)
  {
    InvIs(n, env);
  }

  lemma ClientSends(n: Net, m: Net, k: Coding, env: Negotiation, up: R.System)
    requires Inv(n, env) && Inv(m, env) && Carries(k, true, up, n.c) && |up.reader.delivered| == n.ns == m.ns
    requires m.s == n.s && Extends(n.c, m.c) && Contexts(k) && CodedLog(k, m.c.box.out)
    ensures Carries(k, true, SendAll(up, k, true, m.c), m.c)
  {
    BothKeyed(n, env);
    BothKeyed(m, env);
    StillCarries(k, true, up, n.c, m.c, n.s.recv);
  }

  lemma ServerSends(n: Net, m: Net, k: Coding, env: Negotiation, down: R.System)
    requires Inv(n, env) && Inv(m, env) && Carries(k, false, down, n.s) && |down.reader.delivered| == n.nc == m.nc
    requires m.c == n.c && Extends(n.s, m.s) && Contexts(k) && CodedLog(k, m.s.box.out)
    ensures Carries(k, false, SendAll(down, k, false, m.s), m.s)
  {
    BothKeyed(n, env);
    BothKeyed(m, env);
    StillCarries(k, false, down, n.s, m.s, n.c.recv);
  }

  lemma ClientHears(n: Net, m: Net, k: Coding, env: Negotiation, down: R.System, a: nat, b: nat)
    requires Inv(n, env) && Inv(m, env) && Carries(k, false, down, n.s) && |down.reader.delivered| == n.nc
    requires m.s == n.s && m.nc == |ReadOnce(down, a, b).0.delivered|
    ensures Carries(k, false, PassReader(k, false, down, Arrival(k, n.c, down, a, b), m.c.recv, a, b), m.s)
  {
    BothReadable(n, env);
    ReadsOne(down, a, b);
    SwitchedAlike(n, m, env);
    ReadStillCarries(k, false, n.c, n.s, down, m.c.recv, a, b);
  }

  lemma ServerHears(n: Net, m: Net, k: Coding, env: Negotiation, up: R.System, a: nat, b: nat)
    requires Inv(n, env) && Inv(m, env) && Carries(k, true, up, n.c) && |up.reader.delivered| == n.ns
    requires m.c == n.c && m.ns == |ReadOnce(up, a, b).0.delivered|
    ensures Carries(k, true, PassReader(k, true, up, Arrival(k, n.s, up, a, b), m.s.recv, a, b), m.c)
  {
    BothReadable(n, env);
    ReadsOne(up, a, b);
    SwitchedAlike(n, m, env);
    ReadStillCarries(k, true, n.s, n.c, up, m.s.recv, a, b);
  }

  /** What a turn adds to the log is under the present key until it sends NEWKEYS. */
  lemma ClientTurnExtends(n: Net, env: Negotiation, read: bool, inp: Input)
    requires Inv(n, env) && Settled(n.c) && LegalInput(inp)
    ensures Extends(n.c, ClientTurn(n, env, read, inp).c) && ClientTurn(n, env, read, inp).s == n.s
    ensures ClientTurn(n, env, read, inp).ns == n.ns
  {
    InvIs(n, env);
    ClientBegins(n, env, inp);
    if read && n.nc < |n.s.box.out| {
      IterateExtends(n.c, env, Some(n.s.box.out[n.nc]), inp);
    } else {
      IterateExtends(n.c, env, None, inp);
    }
  }

  lemma ServerTurnExtends(n: Net, env: Negotiation, read: bool, inp: Input)
    requires Inv(n, env) && Settled(n.s) && LegalInput(inp)
    ensures Extends(n.s, ServerTurn(n, env, read, inp).s) && ServerTurn(n, env, read, inp).c == n.c
    ensures ServerTurn(n, env, read, inp).nc == n.nc
  {
    InvIs(n, env);
    ServerBegins(n, env, inp);
    if read && n.ns < |n.c.box.out| {
      IterateExtends(n.s, env, Some(n.c.box.out[n.ns]), inp);
    } else {
      IterateExtends(n.s, env, None, inp);
    }
  }

  lemma ClientPassKeeps(j: Joined, k: Coding, env: Negotiation, a: nat, b: nat, inp: Input)
    requires Joint(j, k, env) && Running(NetOf(j)) && Fit(j) && Contexts(k) && LegalInput(inp)
    requires CodedLog(k, ClientEnd(j, k, env, a, b, inp).box.out)
    ensures Joint(ClientPass(j, k, env, a, b, inp), k, env)
  {
    var n, m, read := NetOf(j), NetOf(ClientPass(j, k, env, a, b, inp)), Arrival(k, j.c, j.down, a, b).Some?;
    ClientPassIsTurn(j, k, env, a, b, inp);
    ClientStepIsSound(n, env, read, inp);
    if Running(m) {
      ClientTurnExtends(n, env, read, inp);
      ClientSends(n, m, k, env, j.up);
      ClientHears(n, m, k, env, j.down, a, b);
    }
  }

  lemma ServerPassKeeps(j: Joined, k: Coding, env: Negotiation, a: nat, b: nat, inp: Input)
    requires Joint(j, k, env) && Running(NetOf(j)) && Fit(j) && Contexts(k) && LegalInput(inp)
    requires CodedLog(k, ServerEnd(j, k, env, a, b, inp).box.out)
    ensures Joint(ServerPass(j, k, env, a, b, inp), k, env)
  {
    var n, m, read := NetOf(j), NetOf(ServerPass(j, k, env, a, b, inp)), Arrival(k, j.s, j.up, a, b).Some?;
    ServerPassIsTurn(j, k, env, a, b, inp);
    ServerStepIsSound(n, env, read, inp);
    if Running(m) {
      ServerTurnExtends(n, env, read, inp);
      ServerSends(n, m, k, env, j.down);
      ServerHears(n, m, k, env, j.up, a, b);
    }
  }

  lemma WriteMoves(y: R.System, n: nat)
    ensures R.WritePacket(y, n).reader == y.reader && R.WritePacket(y, n).sent == y.sent
    ensures R.WritePacket(y, n).start == y.start
  {
  }

  lemma WriteStillCarries(k: Coding, fromClient: bool, y: R.System, x: Endpoint, n: nat)
    requires Carries(k, fromClient, y, x)
    ensures Carries(k, fromClient, R.WritePacket(y, n), x)
  {
    R.WriteKeeps(y, n);
    WriteMoves(y, n);
  }

  // ---- whole runs ----

  /** A pass that would send a message too long for a packet is not taken: such messages are not made. */
  ghost function Play(j: Joined, k: Coding, env: Negotiation, m: Move): (r: Joined)
    requires Fit(j) && Contexts(k)
    ensures Fit(r)
  {
    if j.c.exit.Some? || j.s.exit.Some? then j
    else
      match m
      case Pass(client, a, b, inp) =>
        if client then
          if CodedLog(k, ClientEnd(j, k, env, a, b, inp).box.out) then ClientPass(j, k, env, a, b, inp) else j
        else
          if CodedLog(k, ServerEnd(j, k, env, a, b, inp).box.out) then ServerPass(j, k, env, a, b, inp) else j
      case Write(client, n) =>
        if client then j.(up := R.WritePacket(j.up, n)) else j.(down := R.WritePacket(j.down, n))
  }

  /** The turns of packets that a move amounts to: none for a write. */
  function TurnOf(j: Joined, k: Coding, env: Negotiation, m: Move): seq<Turn>
  {
    if j.c.exit.Some? || j.s.exit.Some? || m.Write? then []
    else if m.client then
      if CodedLog(k, ClientEnd(j, k, env, m.a, m.b, m.inp).box.out)
      then [Turn(true, Arrival(k, j.c, j.down, m.a, m.b).Some?, m.inp)] else []
    else
      if CodedLog(k, ServerEnd(j, k, env, m.a, m.b, m.inp).box.out)
      then [Turn(false, Arrival(k, j.s, j.up, m.a, m.b).Some?, m.inp)] else []
  }

  lemma OneTurn(n: Net, env: Negotiation, t: Turn)
    ensures Run(n, env, [t]) == Step(n, env, t) && Run(n, env, []) == n
  {
    assert [t][..0] == [];
    assert Run(n, env, [t]) == Step(Run(n, env, []), env, t);
  }

  lemma PlayIsTurn(j: Joined, k: Coding, env: Negotiation, m: Move)
    requires Joint(j, k, env) && Fit(j) && Contexts(k)
    ensures NetOf(Play(j, k, env, m)) == Run(NetOf(j), env, TurnOf(j, k, env, m))
  {
    if TurnOf(j, k, env, m) != [] { OneTurn(NetOf(j), env, TurnOf(j, k, env, m)[0]); }
    if Running(NetOf(j)) {
      match m
      case Pass(client, a, b, inp) =>
        if client && CodedLog(k, ClientEnd(j, k, env, a, b, inp).box.out) {
          ClientPassIsTurn(j, k, env, a, b, inp);
        } else if !client && CodedLog(k, ServerEnd(j, k, env, a, b, inp).box.out) {
          ServerPassIsTurn(j, k, env, a, b, inp);
        }
      case Write(client, n) => WriteMoves(if client then j.up else j.down, n);
    }
  }

  lemma WriteKeepsJoint(j: Joined, k: Coding, env: Negotiation, client: bool, n: nat)
    requires Joint(j, k, env) && Running(NetOf(j))
    ensures client ==> Joint(j.(up := R.WritePacket(j.up, n)), k, env)
    ensures !client ==> Joint(j.(down := R.WritePacket(j.down, n)), k, env)
  {
    if client {
      WriteMoves(j.up, n);
      WriteStillCarries(k, true, j.up, j.c, n);
    } else {
      WriteMoves(j.down, n);
      WriteStillCarries(k, false, j.down, j.s, n);
    }
  }

  lemma PlayKeeps(j: Joined, k: Coding, env: Negotiation, m: Move)
    requires Joint(j, k, env) && Fit(j) && Contexts(k) && (m.Pass? ==> LegalInput(m.inp))
    ensures Joint(Play(j, k, env, m), k, env)
  {
    if Running(NetOf(j)) {
      match m
      case Pass(client, a, b, inp) =>
        if client && CodedLog(k, ClientEnd(j, k, env, a, b, inp).box.out) {
          ClientPassKeeps(j, k, env, a, b, inp);
        } else if !client && CodedLog(k, ServerEnd(j, k, env, a, b, inp).box.out) {
          ServerPassKeeps(j, k, env, a, b, inp);
        }
      case Write(client, n) => WriteKeepsJoint(j, k, env, client, n);
    }
  }

  /** Both ends have sent their first KEXINIT; nothing is encrypted yet. */
  ghost function Connect(k: Coding, env: Negotiation, clientInit: nat, serverInit: nat, e: nat): (j: Joined)
    requires Contexts(k) && CanConnect(k, env, clientInit, serverInit, e)
    ensures Fit(j)
  {
    var n := Start(env, clientInit, serverInit, e);
    Joined(n.c, n.s, SendAll(R.Begin(k.context(true, NoKey)), k, true, n.c),
           SendAll(R.Begin(k.context(false, NoKey)), k, false, n.s))
  }

  predicate CanConnect(k: Coding, env: Negotiation, clientInit: nat, serverInit: nat, e: nat)
  {
    var n := Start(env, clientInit, serverInit, e);
    CodedLog(k, n.c.box.out) && CodedLog(k, n.s.box.out)
  }

  lemma OpeningCarries(k: Coding, fromClient: bool, x: Endpoint, z: Endpoint)
    requires Contexts(k) && CodedLog(k, z.box.out) && x.box.out == [] && Extends(x, z)
    requires x.trans == NoKey && KeyedFrom(z.box.out, 0, NoKey, z.trans)
    ensures Carries(k, fromClient, SendAll(R.Begin(k.context(fromClient, NoKey)), k, fromClient, z), z)
    ensures SendAll(R.Begin(k.context(fromClient, NoKey)), k, fromClient, z).reader.delivered == []
  {
    var y := R.Begin(k.context(fromClient, NoKey));
    R.RunKeeps(k.context(fromClient, NoKey), []);
    StillCarries(k, fromClient, y, x, z, NoKey);
    SendAllShape(y, k, fromClient, z);
  }

  /** The first KEXINITs go out under no key. */
  lemma StartIsKeyed(env: Negotiation, clientInit: nat, serverInit: nat, e: nat)
    requires Coherent(env)
    ensures var n := Start(env, clientInit, serverInit, e);
            && Running(n) && n.ns == n.nc == 0
            && Extends(Create(false), n.c) && KeyedFrom(n.c.box.out, 0, NoKey, n.c.trans)
            && Extends(Create(true), n.s) && KeyedFrom(n.s.box.out, 0, NoKey, n.s.trans)
  {
    var n := Start(env, clientInit, serverInit, e);
    StartIsSound(env, clientInit, serverInit, e);
    SendKexinitAdds(Create(false), env, clientInit, e);
    SendKexinitAdds(Create(true), env, serverInit, e);
    AddsIsExtends(Create(false), n.c);
    AddsIsExtends(Create(true), n.s);
    SendKexinitOpens(Create(false), env, clientInit, e);
    SendKexinitOpens(Create(true), env, serverInit, e);
    BothKeyed(n, env);
  }

  lemma ConnectIsJoint(k: Coding, env: Negotiation, clientInit: nat, serverInit: nat, e: nat)
    requires Contexts(k) && CanConnect(k, env, clientInit, serverInit, e) && Coherent(env)
    ensures Joint(Connect(k, env, clientInit, serverInit, e), k, env)
    ensures NetOf(Connect(k, env, clientInit, serverInit, e)) == Start(env, clientInit, serverInit, e)
  {
    var n := Start(env, clientInit, serverInit, e);
    StartIsKeyed(env, clientInit, serverInit, e);
    OpeningCarries(k, true, Create(false), n.c);
    OpeningCarries(k, false, Create(true), n.s);
    StartIsSound(env, clientInit, serverInit, e);
  }

  ghost predicate LegalMoves(ms: seq<Move>)
  {
    forall i :: 0 <= i < |ms| && ms[i].Pass? ==> LegalInput(ms[i].inp)
  }

  ghost function PlayAll(j: Joined, k: Coding, env: Negotiation, ms: seq<Move>): (r: Joined)
    requires Fit(j) && Contexts(k)
    ensures Fit(r)
    decreases |ms|
  {
    if ms == [] then j else Play(PlayAll(j, k, env, ms[..|ms| - 1]), k, env, ms[|ms| - 1])
  }

  /** The turns of packets that a run of bytes amounts to. */
  ghost function TurnsOf(j: Joined, k: Coding, env: Negotiation, ms: seq<Move>): seq<Turn>
    requires Fit(j) && Contexts(k)
    decreases |ms|
  {
    if ms == [] then []
    else
      var before := ms[..|ms| - 1];
      TurnsOf(j, k, env, before) + TurnOf(PlayAll(j, k, env, before), k, env, ms[|ms| - 1])
  }

  lemma RunOn(n: Net, env: Negotiation, ts: seq<Turn>, us: seq<Turn>)
    requires |us| <= 1
    ensures Run(n, env, ts + us) == Run(Run(n, env, ts), env, us)
  {
    if us == [] {
      assert ts + us == ts;
    } else {
      assert (ts + us)[..|ts|] == ts;
      OneTurn(Run(n, env, ts), env, us[0]);
    }
  }

  lemma {:induction false} PlayAllKeeps(j: Joined, k: Coding, env: Negotiation, ms: seq<Move>)
    requires Joint(j, k, env) && Fit(j) && Contexts(k) && LegalMoves(ms)
    ensures Joint(PlayAll(j, k, env, ms), k, env)
    decreases |ms|
  {
    if ms != [] {
      PlayAllKeeps(j, k, env, ms[..|ms| - 1]);
      PlayKeeps(PlayAll(j, k, env, ms[..|ms| - 1]), k, env, ms[|ms| - 1]);
    }
  }

  lemma {:induction false} TurnsAreLegal(j: Joined, k: Coding, env: Negotiation, ms: seq<Move>)
    requires Fit(j) && Contexts(k) && LegalMoves(ms)
    ensures Legal(TurnsOf(j, k, env, ms))
    decreases |ms|
  {
    if ms != [] { TurnsAreLegal(j, k, env, ms[..|ms| - 1]); }
  }

  lemma {:induction false} PlayAllIsRun(j: Joined, k: Coding, env: Negotiation, ms: seq<Move>)
    requires Joint(j, k, env) && Fit(j) && Contexts(k) && LegalMoves(ms)
    ensures NetOf(PlayAll(j, k, env, ms)) == Run(NetOf(j), env, TurnsOf(j, k, env, ms))
    decreases |ms|
  {
    if ms != [] {
      var before := ms[..|ms| - 1];
      var i := PlayAll(j, k, env, before);
      PlayAllIsRun(j, k, env, before);
      PlayAllKeeps(j, k, env, before);
      PlayIsTurn(i, k, env, ms[|ms| - 1]);
      RunOn(NetOf(j), env, TurnsOf(j, k, env, before), TurnOf(i, k, env, ms[|ms| - 1]));
    }
  }

  /**
   * Whatever the ciphers and the encoding, however reads and writes are cut up and whenever keys
   * are changed: the run of bytes is a run of packets, its streams never fail a check, and each
   * end's reader has the keys of its peer's writer, though neither is told.
   */
  lemma BytesRefinePackets(k: Coding, env: Negotiation, clientInit: nat, serverInit: nat, e: nat, ms: seq<Move>)
    requires Contexts(k) && CanConnect(k, env, clientInit, serverInit, e) && Coherent(env) && LegalMoves(ms)
    ensures var j0 := Connect(k, env, clientInit, serverInit, e);
            var j, ts := PlayAll(j0, k, env, ms), TurnsOf(j0, k, env, ms);
            Legal(ts) && Joint(j, k, env) && NetOf(j) == Run(Start(env, clientInit, serverInit, e), env, ts)
  {
    var j0 := Connect(k, env, clientInit, serverInit, e);
    ConnectIsJoint(k, env, clientInit, serverInit, e);
    PlayAllKeeps(j0, k, env, ms);
    TurnsAreLegal(j0, k, env, ms);
    PlayAllIsRun(j0, k, env, ms);
  }

  /**
   * So no run of bytes ends in a failed length, MAC or protocol check, and what an end has read
   * decodes to the first of the messages that the other has sent.
   */
  lemma BytesArriveSafely(k: Coding, env: Negotiation, clientInit: nat, serverInit: nat, e: nat, ms: seq<Move>)
    requires Contexts(k) && CanConnect(k, env, clientInit, serverInit, e) && Coherent(env) && LegalMoves(ms)
    ensures var j := PlayAll(Connect(k, env, clientInit, serverInit, e), k, env, ms);
            && j.c.exit in {None, Some(Disconnected), Some(BeforeUserauth)}
            && j.s.exit in {None, Some(Disconnected), Some(BeforeUserauth)}
            && (Running(NetOf(j)) ==> Arrived(k, j.up, j.c) && Arrived(k, j.down, j.s))
  {
    BytesRefinePackets(k, env, clientInit, serverInit, e, ms);
    var j := PlayAll(Connect(k, env, clientInit, serverInit, e), k, env, ms);
    if Running(NetOf(j)) {
      CarriesArrived(k, true, j.up, j.c);
      CarriesArrived(k, false, j.down, j.s);
    }
  }

  /** No check has failed, and what has been delivered decodes to the first of the messages sent. */
  ghost predicate Arrived(k: Coding, y: R.System, x: Endpoint)
  {
    && !y.reader.exit && |y.reader.delivered| <= |x.box.out|
    && forall i :: 0 <= i < |y.reader.delivered| ==> k.decode(y.reader.delivered[i]) == PayloadOf(x.box.out[i])
  }

  lemma {:induction false} PayloadAt(ps: seq<F.Packet>, i: nat)
    requires i < |ps|
    ensures |R.Payloads(ps)| == |ps| && R.Payloads(ps)[i] == ps[i].payload
    decreases |ps|
  {
    R.PayloadsPrefix(ps, |ps|);
    assert ps[..|ps|] == ps;
    R.PayloadsPrefix(ps, |ps| - 1);
    if i < |ps| - 1 { PayloadAt(ps[..|ps| - 1], i); }
  }

  lemma CarriesArrived(k: Coding, fromClient: bool, y: R.System, x: Endpoint)
    requires Carries(k, fromClient, y, x)
    ensures Arrived(k, y, x)
  {
    InvReader(y);
    var n := |y.reader.delivered|;
    forall i | 0 <= i < n ensures k.decode(y.reader.delivered[i]) == PayloadOf(x.box.out[i]) {
      PayloadAt(y.sent[..n], i);
      PacketDecodes(k, fromClient, y, x, i);
    }
  }
}