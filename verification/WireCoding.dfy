/**
 * The packets of an endpoint's log as bytes: how its messages are encoded, under which cipher
 * context each packet is encrypted, and how the packets a pass has added reach the byte stream.
 */
module WireCoding {
  import opened Options
  import opened Radix
  import opened KeyExchange
  import opened WireLog
  import opened LogGrowth
  import F = Framing
  import P = PacketLaws
  import R = FramingRuns

  /**
   * How messages are written as bytes, the cipher context that each key stands for in each
   * direction, and the padding of packet j.
   */
  datatype Coding = Coding(
    encode: Payload -> seq<byte>,
    decode: seq<byte> -> Payload,
    context: (bool, Key) -> F.Context,
    noise: (bool, nat, nat) -> byte)

  ghost predicate Contexts(k: Coding)
  {
    forall fromClient, key :: F.Lawful(k.context(fromClient, key).cipher)
  }

  function PayloadOf(w: Wire): Payload { Payload(w.typ, w.body) }

  /** The message fits in a packet and can be read back. */
  predicate Coded(k: Coding, p: Payload)
  {
    0 < |k.encode(p)| <= F.TRANS_MAX_PAYLOAD_LEN && k.decode(k.encode(p)) == p
  }

  predicate CodedLog(k: Coding, out: seq<Wire>) { forall w <- out :: Coded(k, PayloadOf(w)) }

  /** Packet j of an endpoint's log; after NEWKEYS the endpoint encrypts under its own new key. */
  function Pack(k: Coding, fromClient: bool, x: Endpoint, j: nat): F.Packet
    requires j < |x.box.out|
  {
    F.Packet(k.encode(PayloadOf(x.box.out[j])), i => k.noise(fromClient, j, i),
             if x.box.out[j].body.NewKeys? then Some(k.context(fromClient, x.trans)) else None)
  }

  lemma PackIsSendable(k: Coding, fromClient: bool, x: Endpoint, j: nat)
    requires Contexts(k) && CodedLog(k, x.box.out) && j < |x.box.out|
    ensures P.Sendable(Pack(k, fromClient, x, j))
  {
    assert x.box.out[j] in x.box.out;
  }

  /** encrypt_packet on every packet of the log that has not been encrypted yet. */
  ghost function SendAll(y: R.System, k: Coding, fromClient: bool, x: Endpoint): (z: R.System)
    requires R.Fine(y.start, y.sent) && Contexts(k) && CodedLog(k, x.box.out)
    ensures R.Fine(z.start, z.sent)
    decreases |x.box.out| - |y.sent|
  {
    if |x.box.out| <= |y.sent| then y
    else
      PackIsSendable(k, fromClient, x, |y.sent|);
      SendAll(R.SubmitPacket(y, Pack(k, fromClient, x, |y.sent|)), k, fromClient, x)
  }

  /** The part of Matches that speaks of one packet. */
  ghost predicate MatchesAt(k: Coding, fromClient: bool, p: F.Packet, x: Endpoint, i: nat, unread: bool)
    requires i < |x.box.out|
  {
    && p.payload == k.encode(PayloadOf(x.box.out[i]))
    && (p.rekey.Some? <==> x.box.out[i].body.NewKeys?)
    && (unread && x.box.out[i].body.NewKeys? ==> p.rekey == Some(k.context(fromClient, x.trans)))
  }

  /** The encrypted packets are those of the log, and those not yet read bring the sender's present key. */
  ghost predicate Matches(k: Coding, fromClient: bool, y: R.System, x: Endpoint)
  {
    && |y.sent| == |x.box.out|
    && forall i :: 0 <= i < |y.sent| ==> MatchesAt(k, fromClient, y.sent[i], x, i, |y.reader.delivered| <= i)
  }

  lemma SubmitShape(y: R.System, p: F.Packet)
    requires R.Fine(y.start, y.sent) && P.Sendable(p)
    ensures var z := R.SubmitPacket(y, p); z.sent == y.sent + [p] && z.reader == y.reader && z.taken == y.taken
  {
  }

  lemma {:induction false} SendAllKeeps(y: R.System, k: Coding, fromClient: bool, x: Endpoint)
    requires R.Inv(y) && Contexts(k) && CodedLog(k, x.box.out)
    ensures R.Inv(SendAll(y, k, fromClient, x))
    decreases |x.box.out| - |y.sent|
  {
    if |x.box.out| > |y.sent| {
      var p := Pack(k, fromClient, x, |y.sent|);
      PackIsSendable(k, fromClient, x, |y.sent|);
      R.SubmitKeeps(y, p);
      SendAllKeeps(R.SubmitPacket(y, p), k, fromClient, x);
    }
  }

  lemma {:induction false} SendAllShape(y: R.System, k: Coding, fromClient: bool, x: Endpoint)
    requires R.Fine(y.start, y.sent) && Contexts(k) && CodedLog(k, x.box.out)
    ensures var z := SendAll(y, k, fromClient, x);
            && z.reader == y.reader && z.start == y.start && y.sent <= z.sent
            && (|y.sent| <= |x.box.out| ==> |z.sent| == |x.box.out|)
    decreases |x.box.out| - |y.sent|
  {
    if |x.box.out| > |y.sent| {
      var p := Pack(k, fromClient, x, |y.sent|);
      PackIsSendable(k, fromClient, x, |y.sent|);
      SubmitShape(y, p);
      SendAllShape(R.SubmitPacket(y, p), k, fromClient, x);
    }
  }

  lemma {:induction false} SendAllPacks(y: R.System, k: Coding, fromClient: bool, x: Endpoint, j: nat)
    requires R.Fine(y.start, y.sent) && Contexts(k) && CodedLog(k, x.box.out)
    requires |y.sent| <= j < |x.box.out|
    ensures var z := SendAll(y, k, fromClient, x);
            j < |z.sent| && z.sent[j] == Pack(k, fromClient, x, j)
    decreases j - |y.sent|
  {
    var p := Pack(k, fromClient, x, |y.sent|);
    PackIsSendable(k, fromClient, x, |y.sent|);
    var w := R.SubmitPacket(y, p);
    SubmitShape(y, p);
    SendAllShape(w, k, fromClient, x);
    if |y.sent| < j {
      SendAllPacks(w, k, fromClient, x, j);
    }
  }

  lemma OldStillMatches(k: Coding, fromClient: bool, p: F.Packet, x: Endpoint, z: Endpoint, n: nat, recv: Key, i: nat)
    requires i < |x.box.out| && n <= |x.box.out| && Extends(x, z) && MatchesAt(k, fromClient, p, x, i, n <= i)
    requires KeyedFrom(x.box.out, n, recv, x.trans)
    requires n <= |z.box.out| && KeyedFrom(z.box.out, n, recv, z.trans)
    ensures i < |z.box.out| && MatchesAt(k, fromClient, p, z, i, n <= i)
  {
    assert z.box.out[i] == x.box.out[i];
    if n <= i && x.box.out[i].body.NewKeys? {
      UnreadNewKeysPins(x, z, n, recv, i);
    }
  }

  /** After a pass of the sender its new packets are on their way and the old ones still fit. */
  lemma SendAllMatches(k: Coding, fromClient: bool, y: R.System, x: Endpoint, z: Endpoint, recv: Key)
    requires R.Fine(y.start, y.sent) && Contexts(k) && CodedLog(k, z.box.out)
    requires Matches(k, fromClient, y, x) && Extends(x, z) && |y.reader.delivered| <= |x.box.out|
    requires KeyedFrom(x.box.out, |y.reader.delivered|, recv, x.trans)
    requires KeyedFrom(z.box.out, |y.reader.delivered|, recv, z.trans)
    ensures SendAll(y, k, fromClient, z).reader == y.reader
    ensures Matches(k, fromClient, SendAll(y, k, fromClient, z), z)
  {
    SendAllShape(y, k, fromClient, z);
    var w, n := SendAll(y, k, fromClient, z), |y.reader.delivered|;
    forall i | 0 <= i < |w.sent| ensures MatchesAt(k, fromClient, w.sent[i], z, i, n <= i) {
      if i < |y.sent| {
        assert MatchesAt(k, fromClient, y.sent[i], x, i, n <= i);
        OldStillMatches(k, fromClient, y.sent[i], x, z, n, recv, i);
      } else {
        SendAllPacks(y, k, fromClient, z, i);
      }
    }
  }
}
