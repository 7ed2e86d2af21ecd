/**
 * One endpoint of the SSH transport as the code keeps it between packets: the key exchange
 * flags, the packet filters and the held-back reply queue (common-kex.c, process-packet.c,
 * packet.c, cli-kex.c, svr-kex.c, cli-session.c), one function per C function. Session.dfy
 * runs the same steps on mutable state, Rekeying.dfy proves what two such endpoints do together.
 */
module KeyExchange {
  import opened Options

  // Message numbers (ssh.h).
  const DISCONNECT: int := 1
  const IGNORE: int := 2
  const UNIMPLEMENTED: int := 3
  const DEBUG: int := 4
  const SERVICE_REQUEST: int := 5
  const SERVICE_ACCEPT: int := 6
  const EXT_INFO: int := 7
  const KEXINIT: int := 20
  const NEWKEYS: int := 21
  const KEXDH_INIT: int := 30
  const KEXDH_REPLY: int := 31
  const USERAUTH_REQUEST: int := 50
  const MAX_UNAUTH_PACKET_TYPE: int := 60

  /**
   * The inputs of the exchange hash that an endpoint used: the two KEXINIT payloads and the
   * two public values. Equal transcripts give equal keys; NoKey is the cipher "none".
   */
  datatype Key = NoKey | Transcript(clientInit: nat, serverInit: nat, e: nat, f: nat)

  /** What a packet says. KEXINIT payloads and public values are identified by number. */
  datatype Body =
    | Init(id: nat, follows: bool)
    | DhInit(e: nat)
    | DhReply(f: nat, signed: Key)
    | NewKeys
    | Plain(msg: nat)

  datatype Payload = Payload(typ: int, body: Body)

  /** A packet on the wire carries the key it was encrypted under. */
  datatype Wire = Wire(typ: int, body: Body, key: Key)

  /** ses.newkeys: the context being negotiated. */
  datatype Context = Context(algo: nat, key: Key, transValid: bool, recvValid: bool)

  /** The client's ephemeral value and the algorithm it was made for. */
  datatype Param = Param(algo: nat, e: nat)

  datatype Exit =
    | UnexpectedPacketType
    | UnexpectedKexinit
    | UnexpectedNewkeys
    | OutOfOrderReply
    | PrematureKexdhInit
    | BadSignature
    | IntegrityError
    | BeforeUserauth
    | Disconnected

  /** What negotiation makes of a pair of KEXINIT payloads, and of the guess at each end. */
  datatype Negotiation = Negotiation(
    algo: (nat, nat) -> nat,
    clientGood: (nat, nat) -> bool,
    serverGood: (nat, nat) -> bool,
    firstAlgo: nat,
    guesses: bool)

  /** The exchange in progress: ses.kexstate, ses.newkeys and the client's kex_state. */
  datatype Kex = Kex(
    sentKexinit: bool,
    recvKexinit: bool,
    sentNewkeys: bool,
    recvNewkeys: bool,
    firstMatches: bool,
    pending: Option<Context>,
    myInit: Option<nat>,
    hash: Option<(nat, nat)>,
    param: Option<Param>,
    initSent: bool)

  const NoKex: Kex := Kex(false, false, false, false, false, None, None, None, None, false)

  /** The reply queue, everything put on the wire, and the deferrable packets asked for, in order. */
  datatype Outbox = Outbox(queue: seq<Payload>, out: seq<Wire>, asked: seq<Payload>)

  datatype Endpoint = Endpoint(
    server: bool,
    dataAllowed: bool,
    requireNext: int,
    ignoreNext: bool,
    lastPacket: int,
    doneFirst: bool,
    doneSecond: bool,
    authDone: bool,
    trans: Key,
    recv: Key,
    kex: Kex,
    box: Outbox,
    exit: Option<Exit>)

  function Create(server: bool): Endpoint
  {
    Endpoint(server, true, KEXINIT, false, 0, false, false, false, NoKey, NoKey, NoKex, Outbox([], [], []), None)
  }

  // ---- packet.c ----

  /** packet_is_okay_kex: what section 7.1 of RFC 4253 allows between KEXINIT and NEWKEYS. */
  predicate OkayDuringKex(typ: int)
  {
    typ < USERAUTH_REQUEST && typ != SERVICE_REQUEST && typ != SERVICE_ACCEPT && typ != KEXINIT
  }

  /** encrypt_packet: onto the wire, or held back. */
  function Put(b: Outbox, allowed: bool, key: Key, p: Payload): Outbox
  {
    if !allowed && !OkayDuringKex(p.typ) then b.(queue := b.queue + [p])
    else b.(out := b.out + [Wire(p.typ, p.body, key)])
  }

  /** An encrypt_packet call from outside the key exchange, with a record of what was asked for. */
  function Ask(b: Outbox, allowed: bool, key: Key, p: Payload): Outbox
  {
    Put(if OkayDuringKex(p.typ) then b else b.(asked := b.asked + [p]), allowed, key, p)
  }

  function AskAll(b: Outbox, allowed: bool, key: Key, ps: seq<Payload>): Outbox
    decreases |ps|
  {
    if ps == [] then b else Ask(AskAll(b, allowed, key, ps[..|ps| - 1]), allowed, key, ps[|ps| - 1])
  }

  /** The held-back packets as they go out under the current key. */
  function Sealed(ps: seq<Payload>, key: Key): (ws: seq<Wire>)
    ensures |ws| == |ps|
  {
    if ps == [] then [] else Sealed(ps[..|ps| - 1], key) + [Wire(ps[|ps| - 1].typ, ps[|ps| - 1].body, key)]
  }

  function Encrypt(s: Endpoint, p: Payload): Endpoint
  {
    s.(box := Put(s.box, s.dataAllowed, s.trans, p))
  }

  function Submit(s: Endpoint, p: Payload): Endpoint
  {
    s.(box := Ask(s.box, s.dataAllowed, s.trans, p))
  }

  function SubmitAll(s: Endpoint, ps: seq<Payload>): Endpoint
  {
    s.(box := AskAll(s.box, s.dataAllowed, s.trans, ps))
  }

  /** maybe_flush_reply_queue. */
  function Flush(s: Endpoint): Endpoint
  {
    if !s.dataAllowed then s
    else s.(box := s.box.(out := s.box.out + Sealed(s.box.queue, s.trans), queue := []))
  }

  // ---- common-kex.c ----

  /** Whether send_kex_first_guess is set: only the client guesses. */
  predicate Guesses(s: Endpoint, env: Negotiation) { !s.server && env.guesses }

  /** The client's ephemeral value: one made for the same algorithm is used again. */
  function Ephemeral(k: Kex, algo: nat, e: nat): Param
  {
    if k.param.Some? && k.param.value.algo == algo then k.param.value else Param(algo, e)
  }

  /** send_msg_kexdh_init. */
  function SendKexdhInit(s: Endpoint, e: nat): Endpoint
    requires s.kex.pending.Some?
  {
    var p := Ephemeral(s.kex, s.kex.pending.value.algo, e);
    Encrypt(s.(kex := s.kex.(param := Some(p))), Payload(KEXDH_INIT, DhInit(p.e)))
  }

  function SendKexinit(s: Endpoint, env: Negotiation, id: nat, e: nat): Endpoint
  {
    var k := s.kex.(myInit := Some(id), sentKexinit := true,
                    pending := Some(Context(env.firstAlgo, NoKey, false, false)));
    var t := Encrypt(s, Payload(KEXINIT, Init(id, Guesses(s, env)))).(kex := k, dataAllowed := false);
    if Guesses(s, env) then SendKexdhInit(t, e) else t
  }

  /** switch_keys: take each new direction into use once its NEWKEYS has passed. */
  function SwitchKeys(s: Endpoint): Endpoint
  {
    var k := s.kex;
    if !(k.sentKexinit && k.recvKexinit) || k.pending.None? then s.(exit := Some(UnexpectedNewkeys))
    else
      var c := k.pending.value;
      var takeRecv, takeTrans := k.recvNewkeys && c.recvValid, k.sentNewkeys && c.transValid;
      var d := Context(c.algo, c.key, c.transValid && !takeTrans, c.recvValid && !takeRecv);
      s.(recv := if takeRecv then c.key else s.recv,
         trans := if takeTrans then c.key else s.trans,
         kex := if k.sentNewkeys && k.recvNewkeys
                then k.(pending := None, sentKexinit := false, recvKexinit := false,
                        recvNewkeys := false, sentNewkeys := false, firstMatches := false)
                else k.(pending := Some(d)))
  }

  /** send_msg_newkeys; key is what gen_new_keys derives. */
  function SendNewkeys(s: Endpoint, key: Key): Endpoint
    requires s.kex.pending.Some?
  {
    var c := Context(s.kex.pending.value.algo, key, true, true);
    SwitchKeys(Encrypt(s, Payload(NEWKEYS, NewKeys))
      .(kex := s.kex.(sentNewkeys := true, hash := None, pending := Some(c)),
        doneSecond := s.doneSecond || s.doneFirst,
        doneFirst := true,
        dataAllowed := true))
  }

  function RecvNewkeys(s: Endpoint): Endpoint
  {
    SwitchKeys(s.(kex := s.kex.(recvNewkeys := true)))
  }

  /** Put this side's KEXINIT and the peer's in protocol order. */
  function InitPair(server: bool, mine: nat, theirs: nat): (nat, nat)
  {
    if server then (theirs, mine) else (mine, theirs)
  }

  /** Whether this side thinks the guessed packet was good. */
  predicate GoodGuess(server: bool, env: Negotiation, pair: (nat, nat))
  {
    if server then env.serverGood(pair.0, pair.1) else env.clientGood(pair.0, pair.1)
  }

  /** recv_msg_kexinit with the algorithm choice of read_kex_algos, once our own KEXINIT is out. */
  function Negotiate(s: Endpoint, env: Negotiation, theirs: Body): Endpoint
    requires theirs.Init?
  {
    if s.kex.recvKexinit || s.kex.myInit.None? then s.(exit := Some(UnexpectedKexinit))
    else
      var pair := InitPair(s.server, s.kex.myInit.value, theirs.id);
      var good := GoodGuess(s.server, env, pair);
      s.(ignoreNext := s.ignoreNext || (theirs.follows && !good),
         requireNext := if s.server then KEXDH_INIT else KEXDH_REPLY,
         kex := s.kex.(pending := Some(Context(env.algo(pair.0, pair.1), NoKey, false, false)),
                       firstMatches := s.kex.firstMatches || (Guesses(s, env) && good),
                       hash := Some(pair),
                       myInit := None,
                       recvKexinit := true))
  }

  function RecvKexinit(s: Endpoint, env: Negotiation, theirs: Body, id: nat, e: nat): Endpoint
    requires theirs.Init?
  {
    Negotiate(if s.kex.sentKexinit then s else SendKexinit(s, env, id, e), env, theirs)
  }

  // ---- svr-kex.c and cli-kex.c ----

  /** recv_msg_kexdh_init: reply, signed over the transcript, then NEWKEYS at once. */
  function RecvKexdhInit(s: Endpoint, e: nat, f: nat, extInfo: bool, msg: nat): Endpoint
  {
    if !s.kex.recvKexinit || s.kex.hash.None? || s.kex.pending.None? then s.(exit := Some(PrematureKexdhInit))
    else
      var key := Transcript(s.kex.hash.value.0, s.kex.hash.value.1, e, f);
      var t := SendNewkeys(Encrypt(s, Payload(KEXDH_REPLY, DhReply(f, key))), key);
      if t.exit.Some? then t
      else (if !t.doneSecond && extInfo then Submit(t, Payload(EXT_INFO, Plain(msg))) else t)
           .(requireNext := NEWKEYS)
  }

  /** recv_msg_kexdh_reply: the signature must cover the client's own transcript. */
  function RecvKexdhReply(s: Endpoint, body: Body): Endpoint
    requires body.DhReply?
  {
    if !s.kex.initSent || s.kex.param.None? || s.kex.hash.None? || s.kex.pending.None?
    then s.(exit := Some(OutOfOrderReply))
    else
      var key := Transcript(s.kex.hash.value.0, s.kex.hash.value.1, s.kex.param.value.e, body.f);
      if body.signed != key then s.(exit := Some(BadSignature))
      else
        var t := SendNewkeys(s.(kex := s.kex.(param := None)), key);
        if t.exit.Some? then t else t.(requireNext := NEWKEYS)
  }

  // ---- process-packet.c ----

  /** Everything an iteration of the main loop takes from outside. */
  datatype Input = Input(
    rekey: bool,
    id: nat,
    e: nat,
    f: nat,
    extInfo: bool,
    early: seq<Payload>,
    replies: seq<Payload>,
    authNow: bool,
    msg: nat,
    late: seq<Payload>)

  /** The application message types with a handler (cli-session.c, svr-session.c). */
  predicate Handled(server: bool, typ: int)
  {
    || typ in {80, 81, 82, 90, 91, 92, 93, 94, 96, 97, 98, 99, 100}
    || (if server then typ in {SERVICE_REQUEST, 50} else typ in {SERVICE_ACCEPT, EXT_INFO, 51, 52, 53, 60, 95})
  }

  function RecvUnimplemented(s: Endpoint, msg: nat): Endpoint
  {
    Submit(s, Payload(UNIMPLEMENTED, Plain(msg)))
  }

  /** The handler table. */
  function Dispatch(s: Endpoint, env: Negotiation, p: Wire, inp: Input): Endpoint
  {
    if p.typ == KEXINIT && p.body.Init? then RecvKexinit(s, env, p.body, inp.id, inp.e)
    else if p.typ == KEXDH_INIT && s.server && p.body.DhInit? then
      RecvKexdhInit(s, p.body.e, inp.f, inp.extInfo, inp.msg)
    else if p.typ == KEXDH_REPLY && !s.server && p.body.DhReply? then RecvKexdhReply(s, p.body)
    else if p.typ == NEWKEYS then RecvNewkeys(s)
    else if Handled(s.server, p.typ) then SubmitAll(s.(authDone := s.authDone || inp.authNow), inp.replies)
    else RecvUnimplemented(s, inp.msg)
  }

  /** The checks process_packet makes before it dispatches. */
  function Filter(s: Endpoint, env: Negotiation, p: Wire, inp: Input): Endpoint
  {
    if p.typ in {IGNORE, DEBUG, UNIMPLEMENTED} then s
    else if p.typ == DISCONNECT then s.(exit := Some(Disconnected))
    else if s.requireNext != 0 && s.requireNext != p.typ then
      if 1 <= p.typ <= 49 && p.typ != SERVICE_REQUEST && p.typ != SERVICE_ACCEPT && p.typ != KEXINIT
      then RecvUnimplemented(s, inp.msg)
      else s.(exit := Some(UnexpectedPacketType))
    else if s.ignoreNext then s.(ignoreNext := false)
    else
      var t := s.(requireNext := 0);
      if !t.authDone && p.typ > MAX_UNAUTH_PACKET_TYPE then t.(exit := Some(BeforeUserauth))
      else Dispatch(t, env, p, inp)
  }

  /** Decryption under the receive key, then process_packet. */
  function Receive(s: Endpoint, env: Negotiation, p: Wire, inp: Input): Endpoint
  {
    if p.key != s.recv then s.(exit := Some(IntegrityError))
    else
      var t := Filter(s, env, p, inp);
      if t.exit.Some? then t else t.(lastPacket := p.typ)
  }

  // ---- cli-session.c and common-session.c ----

  /** The part of cli_sessionloop that drives key exchange; the server has none. */
  function LoopHandler(s: Endpoint, e: nat): Endpoint
  {
    if s.server || s.lastPacket == 0 then s
    else if s.lastPacket == KEXINIT && !s.kex.initSent then
      var t := if s.kex.firstMatches || s.kex.pending.None? then s else SendKexdhInit(s, e);
      t.(kex := t.kex.(initSent := true))
    else if s.kex.initSent && s.kex.sentNewkeys then s.(kex := s.kex.(initSent := false))
    else s
  }

  /** The rekey trigger of checktimeouts. */
  function Rekey(s: Endpoint, env: Negotiation, id: nat, e: nat): Endpoint
  {
    if s.kex.sentKexinit then s else SendKexinit(s, env, id, e)
  }

  /** Before a packet is read: checktimeouts, with whatever keepalives it sends. */
  function Begin(s: Endpoint, env: Negotiation, inp: Input): Endpoint
  {
    SubmitAll(if inp.rekey then Rekey(s, env, inp.id, inp.e) else s, inp.early)
  }

  /** After it: flush the reply queue, run the loop handler, serve the channels. */
  function Finish(s: Endpoint, inp: Input): Endpoint
  {
    SubmitAll(LoopHandler(Flush(s), inp.e), inp.late)
  }

  /** An exit ends the process; otherwise the pass goes on. */
  function Complete(s: Endpoint, inp: Input): Endpoint
  {
    if s.exit.Some? then s else Finish(s, inp)
  }

  /** One pass of session_loop, with at most one packet. */
  function Iterate(s: Endpoint, env: Negotiation, arrival: Option<Wire>, inp: Input): Endpoint
  {
    var a := Begin(s, env, inp);
    Complete(if arrival.Some? then Receive(a, env, arrival.value, inp) else a, inp)
  }
}
