/**
 * The session structure that the transport code updates in place, one method per C function.
 * Each method is proved to take the session to the state that its function in KeyExchange
 * gives, so everything proved there about runs holds of these statements. A C exit becomes the
 * field `exit`; nothing runs after it is set.
 */
module Sessions {
  import opened Options
  import opened KeyExchange

  class Session {
    const server: bool
    const env: Negotiation

    // packet filters
    var dataAllowed: bool
    var requireNext: int
    var ignoreNext: bool
    var lastPacket: int
    var authDone: bool

    // ses.kexstate, ses.newkeys and what the exchange keeps until it ends, as one struct
    var kex: Kex
    var doneFirst: bool
    var doneSecond: bool
    var trans: Key
    var recv: Key

    // reply queue and wire
    var queue: seq<Payload>
    var out: seq<Wire>
    ghost var asked: seq<Payload>

    var exit: Option<Exit>

    ghost function State(): Endpoint
      reads this
    {
      Endpoint(server, dataAllowed, requireNext, ignoreNext, lastPacket, doneFirst, doneSecond, authDone, trans, recv,
               kex, Outbox(queue, out, asked), exit)
    }

    constructor (server: bool, env: Negotiation)
      ensures State() == Create(server) && this.server == server && this.env == env
    {
      this.server, this.env := server, env;
      dataAllowed, requireNext, ignoreNext, lastPacket, authDone := true, KEXINIT, false, 0, false;
      kex, doneFirst, doneSecond, trans, recv := NoKex, false, false, NoKey, NoKey;
      queue, out, asked, exit := [], [], [], None;
    }

    method EnqueueReply(p: Payload)
      modifies this`queue
      ensures queue == old(queue) + [p]
    {
      queue := queue + [p];
    }

    /** encrypt_packet. */
    method EncryptPacket(p: Payload)
      modifies this`queue, this`out
      ensures State() == Encrypt(old(State()), p)
    {
      if !dataAllowed && !OkayDuringKex(p.typ) {
        EnqueueReply(p);
        return;
      }
      out := out + [Wire(p.typ, p.body, trans)];
    }

    /** encrypt_packet on behalf of anything but the key exchange. */
    method SendPacket(p: Payload)
      modifies this`queue, this`out, this`asked
      ensures State() == Submit(old(State()), p)
    {
      if !OkayDuringKex(p.typ) {
        asked := asked + [p];
      }
      EncryptPacket(p);
    }

    method SendPackets(ps: seq<Payload>)
      modifies this`queue, this`out, this`asked
      ensures State() == SubmitAll(old(State()), ps)
    {
      for i := 0 to |ps|
        invariant State() == SubmitAll(old(State()), ps[..i])
      {
        SendPacket(ps[i]);
        assert ps[..i + 1][..i] == ps[..i];
      }
      assert ps[..|ps|] == ps;
    }

    /** maybe_flush_reply_queue: the list is walked first and cleared at the end. */
    method MaybeFlushReplyQueue()
      modifies this`queue, this`out
      ensures State() == Flush(old(State()))
    {
      if !dataAllowed {
        return;
      }
      var i := 0;
      assert queue[..0] == [];
      while i < |queue|
        invariant 0 <= i <= |queue| && queue == old(queue) && dataAllowed
        invariant out == old(out) + Sealed(queue[..i], trans)
      {
        EncryptPacket(queue[i]);
        assert queue[..i + 1][..i] == queue[..i];
        i := i + 1;
      }
      assert queue[..|queue|] == queue;
      queue := [];
    }

    /** send_msg_kexdh_init. */
    method SendMsgKexdhInit(e: nat)
      requires kex.pending.Some?
      modifies this`kex, this`queue, this`out
      ensures State() == SendKexdhInit(old(State()), e)
    {
      var p := Param(kex.pending.value.algo, e);
      if kex.param.Some? && kex.param.value.algo == p.algo {
        p := kex.param.value;
      }
      kex := kex.(param := Some(p));
      EncryptPacket(Payload(KEXDH_INIT, DhInit(p.e)));
    }

    /** send_msg_kexinit. */
    method SendMsgKexinit(id: nat, e: nat)
      modifies this
      ensures State() == SendKexinit(old(State()), env, id, e)
    {
      var guess := !server && env.guesses;
      kex := kex.(myInit := Some(id));
      EncryptPacket(Payload(KEXINIT, Init(id, guess)));
      dataAllowed := false;
      kex := kex.(sentKexinit := true);
      kex := kex.(pending := Some(Context(env.firstAlgo, NoKey, false, false)));
      if guess {
        SendMsgKexdhInit(e);
      }
    }

    /** kexinitialise. */
    method KexInitialise()
      modifies this`kex
      ensures kex == old(kex).(sentKexinit := false, recvKexinit := false, recvNewkeys := false,
                               sentNewkeys := false, firstMatches := false)
    {
      kex := kex.(sentKexinit := false);
      kex := kex.(recvKexinit := false);
      kex := kex.(recvNewkeys := false);
      kex := kex.(sentNewkeys := false);
      kex := kex.(firstMatches := false);
    }

    /** switch_keys. */
    method SwitchKeysNow()
      modifies this
      ensures State() == SwitchKeys(old(State()))
    {
      if !(kex.sentKexinit && kex.recvKexinit) || kex.pending.None? {
        exit := Some(UnexpectedNewkeys);
        return;
      }
      if kex.recvNewkeys && kex.pending.value.recvValid {
        recv := kex.pending.value.key;
        kex := kex.(pending := Some(kex.pending.value.(recvValid := false)));
      }
      if kex.sentNewkeys && kex.pending.value.transValid {
        trans := kex.pending.value.key;
        kex := kex.(pending := Some(kex.pending.value.(transValid := false)));
      }
      if kex.sentNewkeys && kex.recvNewkeys {
        kex := kex.(pending := None);
        KexInitialise();
      }
    }

    /** send_msg_newkeys after the packet, up to switch_keys; key is what gen_new_keys derives. */
    method MarkNewkeysSent(key: Key)
      requires kex.pending.Some?
      modifies this`kex, this`doneFirst, this`doneSecond, this`dataAllowed
      ensures kex == old(kex).(sentNewkeys := true, hash := None,
                               pending := Some(Context(old(kex).pending.value.algo, key, true, true)))
      ensures doneFirst && dataAllowed && doneSecond == (old(doneSecond) || old(doneFirst))
    {
      kex := kex.(sentNewkeys := true);
      if doneFirst {
        doneSecond := true;
      }
      doneFirst := true;
      dataAllowed := true;
      kex := kex.(hash := None);
      kex := kex.(pending := Some(Context(kex.pending.value.algo, key, true, true)));
    }

    /** send_msg_newkeys. */
    method SendMsgNewkeys(key: Key)
      requires kex.pending.Some?
      modifies this
      ensures State() == SendNewkeys(old(State()), key)
    {
      EncryptPacket(Payload(NEWKEYS, NewKeys));
      MarkNewkeysSent(key);
      SwitchKeysNow();
    }

    /** recv_msg_newkeys. */
    method RecvMsgNewkeys()
      modifies this
      ensures State() == RecvNewkeys(old(State()))
    {
      kex := kex.(recvNewkeys := true);
      SwitchKeysNow();
    }

    /** recv_msg_kexinit, once our own KEXINIT is out. */
    method ReadKexinit(theirs: Body)
      requires theirs.Init?
      modifies this
      ensures State() == Negotiate(old(State()), env, theirs)
    {
      if kex.recvKexinit || kex.myInit.None? {
        exit := Some(UnexpectedKexinit);
        return;
      }
      var pair := InitPair(server, kex.myInit.value, theirs.id);
      var good := GoodGuess(server, env, pair);
      if theirs.follows && !good {
        ignoreNext := true;
      }
      requireNext := if server then KEXDH_INIT else KEXDH_REPLY;
      var matches := kex.firstMatches || (!server && env.guesses && good);
      kex := kex.(pending := Some(Context(env.algo(pair.0, pair.1), NoKey, false, false)), firstMatches := matches,
                  hash := Some(pair), myInit := None, recvKexinit := true);
    }

    /** recv_msg_kexinit. */
    method RecvMsgKexinit(theirs: Body, id: nat, e: nat)
      requires theirs.Init?
      modifies this
      ensures State() == RecvKexinit(old(State()), env, theirs, id, e)
    {
      if !kex.sentKexinit {
        SendMsgKexinit(id, e);
      }
      ReadKexinit(theirs);
    }

    /** recv_msg_kexdh_init. */
    method RecvMsgKexdhInit(e: nat, f: nat, extInfo: bool, msg: nat)
      requires exit.None?
      modifies this
      ensures State() == RecvKexdhInit(old(State()), e, f, extInfo, msg)
    {
      if !kex.recvKexinit || kex.hash.None? || kex.pending.None? {
        exit := Some(PrematureKexdhInit);
        return;
      }
      var key := Transcript(kex.hash.value.0, kex.hash.value.1, e, f);
      EncryptPacket(Payload(KEXDH_REPLY, DhReply(f, key)));
      SendMsgNewkeys(key);
      if exit.Some? {
        return;
      }
      if !doneSecond && extInfo {
        SendPacket(Payload(EXT_INFO, Plain(msg)));
      }
      requireNext := NEWKEYS;
    }

    /** recv_msg_kexdh_reply. */
    method RecvMsgKexdhReply(body: Body)
      requires body.DhReply? && exit.None?
      modifies this
      ensures State() == RecvKexdhReply(old(State()), body)
    {
      if !kex.initSent || kex.param.None? || kex.hash.None? || kex.pending.None? {
        exit := Some(OutOfOrderReply);
        return;
      }
      var key := Transcript(kex.hash.value.0, kex.hash.value.1, kex.param.value.e, body.f);
      if body.signed != key {
        exit := Some(BadSignature);
        return;
      }
      kex := kex.(param := None);
      SendMsgNewkeys(key);
      if exit.Some? {
        return;
      }
      requireNext := NEWKEYS;
    }

    method CallHandler(p: Wire, inp: Input)
      requires exit.None?
      modifies this
      ensures State() == Dispatch(old(State()), env, p, inp)
    {
      if p.typ == KEXINIT && p.body.Init? {
        RecvMsgKexinit(p.body, inp.id, inp.e);
      } else if p.typ == KEXDH_INIT && server && p.body.DhInit? {
        RecvMsgKexdhInit(p.body.e, inp.f, inp.extInfo, inp.msg);
      } else if p.typ == KEXDH_REPLY && !server && p.body.DhReply? {
        RecvMsgKexdhReply(p.body);
      } else if p.typ == NEWKEYS {
        RecvMsgNewkeys();
      } else if Handled(server, p.typ) {
        authDone := authDone || inp.authNow;
        SendPackets(inp.replies);
      } else {
        SendPacket(Payload(UNIMPLEMENTED, Plain(inp.msg)));
      }
    }

    /** process_packet, up to the assignment of lastpacket. */
    method CheckAndDispatch(p: Wire, inp: Input)
      requires exit.None?
      modifies this
      ensures State() == Filter(old(State()), env, p, inp)
    {
      if p.typ == IGNORE || p.typ == DEBUG || p.typ == UNIMPLEMENTED {
        return;
      }
      if p.typ == DISCONNECT {
        exit := Some(Disconnected);
        return;
      }
      if requireNext != 0 && requireNext != p.typ {
        if 1 <= p.typ <= 49 && p.typ != SERVICE_REQUEST && p.typ != SERVICE_ACCEPT && p.typ != KEXINIT {
          SendPacket(Payload(UNIMPLEMENTED, Plain(inp.msg)));
        } else {
          exit := Some(UnexpectedPacketType);
        }
        return;
      }
      if ignoreNext {
        ignoreNext := false;
        return;
      }
      if requireNext != 0 && requireNext == p.typ {
        requireNext := 0;
      }
      if !authDone && p.typ > MAX_UNAUTH_PACKET_TYPE {
        exit := Some(BeforeUserauth);
        return;
      }
      CallHandler(p, inp);
    }

    /** read_packet and process_packet for one packet. */
    method ReceivePacket(p: Wire, inp: Input)
      requires exit.None?
      modifies this
      ensures State() == Receive(old(State()), env, p, inp)
    {
      if p.key != recv {
        exit := Some(IntegrityError);
        return;
      }
      CheckAndDispatch(p, inp);
      if exit.None? {
        lastPacket := p.typ;
      }
    }

    /** The key exchange part of cli_sessionloop. */
    method CliSessionLoop(e: nat)
      modifies this
      ensures State() == LoopHandler(old(State()), e)
    {
      if server || lastPacket == 0 {
        return;
      }
      if lastPacket == KEXINIT && !kex.initSent {
        if !kex.firstMatches && kex.pending.Some? {
          SendMsgKexdhInit(e);
        }
        kex := kex.(initSent := true);
        return;
      }
      if kex.initSent && kex.sentNewkeys {
        kex := kex.(initSent := false);
      }
    }

    /** One pass of session_loop. */
    method LoopOnce(arrival: Option<Wire>, inp: Input)
      requires exit.None?
      modifies this
      ensures State() == Iterate(old(State()), env, arrival, inp)
    {
      if inp.rekey && !kex.sentKexinit {
        SendMsgKexinit(inp.id, inp.e);
      }
      SendPackets(inp.early);
      if arrival.Some? {
        ReceivePacket(arrival.value, inp);
        if exit.Some? {
          return;
        }
      }
      MaybeFlushReplyQueue();
      CliSessionLoop(inp.e);
      SendPackets(inp.late);
    }
  }
}
