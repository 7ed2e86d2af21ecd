/**
 * Key derivation (hashkeys and gen_new_keys in common-kex.c) against section 7.2 of RFC 4253.
 * A hash state is the bytes processed so far; the digest is any function of them.
 */
module Derivation {
  import opened Radix
  import opened Buffers
  import opened Mpint

  const MAX_HASH_SIZE: nat := 64
  const MAX_IV_LEN: nat := 20
  const MAX_KEY_LEN: nat := 64

  datatype Hash = Hash(size: nat, digest: seq<byte> -> seq<byte>)

  ghost predicate Proper(h: Hash)
  {
    0 < h.size <= MAX_HASH_SIZE && forall x :: |h.digest(x)| == h.size
  }

  /** The first n blocks K1 || K2 || ... of section 7.2; common is K || H, letter "A" to "F". */
  ghost function Expansion(h: Hash, common: seq<byte>, letter: byte, session: seq<byte>, n: nat): (s: seq<byte>)
    requires Proper(h)
    ensures |s| == n * h.size
  {
    if n == 0 then []
    else
      var before := Expansion(h, common, letter, session, n - 1);
      before + h.digest(common + if n == 1 then [letter] + session else before)
  }

  /** Enough blocks for len bytes, cut to len bytes. */
  ghost function Derived(h: Hash, common: seq<byte>, letter: byte, session: seq<byte>, len: nat): (s: seq<byte>)
    requires Proper(h)
    ensures |s| == len
  {
    Enough(len, h.size);
    Expansion(h, common, letter, session, len / h.size + 1)[..len]
  }

  lemma Enough(len: nat, size: nat)
    requires size > 0
    ensures (len / size + 1) * size > len
  {
  }

  lemma Step(n: int, size: int)
    ensures (n + 1) * size == n * size + size
  {
  }

  /** More blocks extend fewer. */
  lemma {:induction false} ExpansionGrows(h: Hash, common: seq<byte>, letter: byte, session: seq<byte>, m: nat, n: nat)
    requires Proper(h) && m <= n
    ensures Expansion(h, common, letter, session, m) <= Expansion(h, common, letter, session, n)
    decreases n, h
  {
    if m < n { ExpansionGrows(h, common, letter, session, m, n - 1); }
  }

  lemma PrefixCut(a: seq<byte>, b: seq<byte>, len: nat)
    requires a <= b && len <= |a|
    ensures a[..len] == b[..len]
  {
    assert a == b[..|a|];
  }

  /** Any number of blocks that covers len bytes gives the same len bytes. */
  lemma DerivedFrom(h: Hash, common: seq<byte>, letter: byte, session: seq<byte>, len: nat, n: nat)
    requires Proper(h) && len <= n * h.size
    ensures Expansion(h, common, letter, session, n)[..len] == Derived(h, common, letter, session, len)
  {
    Enough(len, h.size);
    var k := len / h.size + 1;
    var x, y := Expansion(h, common, letter, session, n), Expansion(h, common, letter, session, k);
    if n <= k {
      ExpansionGrows(h, common, letter, session, n, k);
      PrefixCut(x, y, len);
    } else {
      ExpansionGrows(h, common, letter, session, k, n);
      PrefixCut(y, x, len);
    }
  }

  /** A shorter key is a prefix of a longer one. */
  lemma DerivedPrefix(h: Hash, common: seq<byte>, letter: byte, session: seq<byte>, len: nat, more: nat)
    requires Proper(h) && len <= more
    ensures Derived(h, common, letter, session, len) == Derived(h, common, letter, session, more)[..len]
  {
    Enough(more, h.size);
    DerivedFrom(h, common, letter, session, len, more / h.size + 1);
  }

  /**
   * Section 7.2 of RFC 4253 block by block: K1 is HASH(K || H || X || session_id), and each
   * further block is HASH(K || H || all the blocks before it).
   */
  lemma DerivedBlock(h: Hash, common: seq<byte>, letter: byte, session: seq<byte>, len: nat, k: nat, at: nat)
    requires Proper(h) && at == k * h.size < len
    ensures var key, end := Derived(h, common, letter, session, len), Min(at + h.size, len);
            var block := if k == 0 then h.digest(common + [letter] + session) else h.digest(common + key[..at]);
            key[at..end] == block[..end - at]
  {
    var n := EnoughBlocks(len, k, h.size);
    DerivedFrom(h, common, letter, session, len, n);
    ExpansionGrows(h, common, letter, session, k + 1, n);
    var all, before := Expansion(h, common, letter, session, n), Expansion(h, common, letter, session, k);
    var block := h.digest(common + if k == 0 then [letter] + session else before);
    assert Expansion(h, common, letter, session, k + 1) == before + block;
    BlockInside(all, before, block, len);
    assert common + ([letter] + session) == common + [letter] + session;
  }

  lemma EnoughBlocks(len: nat, k: nat, size: nat) returns (n: nat)
    requires size > 0
    ensures k < n && len <= n * size
  {
    Enough(len, size);
    n := Max(len / size + 1, k + 1);
    Covers(len / size + 1, n, size);
  }

  lemma BlockInside(all: seq<byte>, before: seq<byte>, block: seq<byte>, len: nat)
    requires before + block <= all && |before| < len <= |all|
    ensures all[..len][..|before|] == before
    ensures var end := Min(|before| + |block|, len); all[..len][|before|..end] == block[..end - |before|]
  {
    assert all[..|before| + |block|] == before + block;
  }

  lemma Covers(m: nat, n: nat, size: nat)
    requires m <= n
    ensures m * size <= n * size
  {
  }

  /** memcpy of the front of a digest. */
  method CopyFront(out: array<byte>, offset: nat, tmpout: seq<byte>, n: nat)
    requires n <= |tmpout| && offset + n <= out.Length
    modifies out
    ensures out[..offset] == old(out[..offset]) && out[offset..offset + n] == tmpout[..n]
    ensures out[offset + n..] == old(out[offset + n..])
  {
    forall i | 0 <= i < n {
      out[offset + i] := tmpout[i];
    }
  }

  /** Block k + 1, or as much of it as there is room for, behind the first k. */
  method NextBlock(out: array<byte>, offset: nat, outlen: nat, h: Hash, ghost common: seq<byte>, ghost letter: byte,
                   ghost session: seq<byte>, ghost k: nat, input: seq<byte>)
    requires Proper(h) && offset == k * h.size && offset <= outlen <= out.Length
    requires out[..offset] == Expansion(h, common, letter, session, k)
    requires input == common + if k == 0 then [letter] + session else out[..offset]
    modifies out
    ensures offset + h.size == (k + 1) * h.size
    ensures var end := Min(offset + h.size, outlen);
            && out[..end] == Expansion(h, common, letter, session, k + 1)[..end]
            && out[end..] == old(out[end..])
  {
    Step(k, h.size);
    var n := Min(outlen - offset, h.size);
    var tmpout := h.digest(input);
    CopyFront(out, offset, tmpout, n);
    assert out[..offset + n] == out[..offset] + out[offset..offset + n];
  }

  /** hashkeys, in place; hs has processed common. */
  method HashKeys(out: array<byte>, outlen: nat, h: Hash, common: seq<byte>, letter: byte, session: seq<byte>)
    requires Proper(h) && outlen <= out.Length
    modifies out
    ensures out[..outlen] == Derived(h, common, letter, session, outlen)
    ensures out[outlen..] == old(out[outlen..])
  {
    assert out[..0] == [];
    NextBlock(out, 0, outlen, h, common, letter, session, 0, common + ([letter] + session));
    ghost var k: nat := 1;
    var offset: nat := h.size;
    while offset < outlen
      invariant k > 0 && offset == k * h.size
      invariant var end := Min(offset, outlen);
                out[..end] == Expansion(h, common, letter, session, k)[..end] && out[end..] == old(out[end..])
    {
      ghost var was := out[..];
      assert out[..offset] == Expansion(h, common, letter, session, k);
      NextBlock(out, offset, outlen, h, common, letter, session, k, common + out[..offset]);
      TailKept(was, out[..], offset, Min(offset + h.size, outlen));
      k := k + 1;
      offset := offset + h.size;
    }
    DerivedFrom(h, common, letter, session, outlen, k);
  }

  /** What stays unchanged from `end` on is unchanged from any later point on. */
  lemma TailKept(was: seq<byte>, now: seq<byte>, at: nat, end: nat)
    requires |was| == |now| && at <= end <= |was| && was[end..] == now[end..]
    ensures was[at..][end - at..] == now[end..]
  {
  }

  // ---- gen_new_keys ----

  /** What a direction is keyed with: an IV, a cipher key and a MAC key. */
  datatype Material = Material(iv: seq<byte>, key: seq<byte>, mac: seq<byte>)

  /** K as an mpint, then H: what every derived hash starts with. */
  function CommonPart(k: nat, hash: seq<byte>): seq<byte> { ToBytes(StoredLen(k), 4) + Stored(k) + hash }

  /** K is hashed as the one mpint that section 5 of RFC 4251 gives it, and H comes after it. */
  lemma CommonIs(c: seq<byte>, k: nat, hash: seq<byte>)
    requires IsMpint(c, k)
    ensures CommonPart(k, hash) == ToBytes(|c|, 4) + c + hash
  {
    StoredIsMpint(k);
    MpintUnique(c, Stored(k), k);
  }

  const LETTER_A: byte := 65

  /** The material of one direction by section 7.2 of RFC 4253: letters A, C, E from client to server, else B, D, F. */
  ghost function DirectionKeys(h: Hash, common: seq<byte>, session: seq<byte>, fromClient: bool, macLen: nat): Material
    requires Proper(h)
  {
    var step: int := if fromClient then 0 else 1;
    Material(Derived(h, common, LETTER_A as int + step, session, MAX_IV_LEN),
             Derived(h, common, LETTER_A as int + 2 + step, session, MAX_KEY_LEN),
             Derived(h, common, LETTER_A as int + 4 + step, session, macLen))
  }

  method DeriveKey(len: nat, h: Hash, common: seq<byte>, letter: byte, session: seq<byte>) returns (key: seq<byte>)
    requires Proper(h)
    ensures key == Derived(h, common, letter, session, len)
  {
    var out := new byte[len];
    HashKeys(out, len, h, common, letter, session);
    key := out[..len];
  }

  /** gen_new_keys: each side chooses buffers and letters by whether it is the client. */
  method GenNewKeys(server: bool, h: Hash, k: nat, hash: seq<byte>, session: seq<byte>, transMacLen: nat, recvMacLen: nat)
    returns (trans: Material, recv: Material)
    requires Proper(h)
    ensures trans == DirectionKeys(h, CommonPart(k, hash), session, !server, transMacLen)
    ensures recv == DirectionKeys(h, CommonPart(k, hash), session, server, recvMacLen)
    ensures forall c :: IsMpint(c, k) ==>
              var x := ToBytes(|c|, 4) + c + hash;
              && trans.iv == Derived(h, x, if server then 66 else 65, session, 20)
              && recv.iv == Derived(h, x, if server then 65 else 66, session, 20)
              && trans.key == Derived(h, x, if server then 68 else 67, session, 64)
              && recv.key == Derived(h, x, if server then 67 else 68, session, 64)
              && trans.mac == Derived(h, x, if server then 70 else 69, session, transMacLen)
              && recv.mac == Derived(h, x, if server then 69 else 70, session, recvMacLen)
  {
    var common := CommonPart(k, hash);
    forall c | IsMpint(c, k) ensures ToBytes(|c|, 4) + c + hash == common {
      CommonIs(c, k, hash);
    }
    var mactransletter: byte, macrecvletter: byte := 69, 70;
    if server {
      mactransletter, macrecvletter := 70, 69;
    }
    var c2sIv := DeriveKey(MAX_IV_LEN, h, common, 65, session);
    var s2cIv := DeriveKey(MAX_IV_LEN, h, common, 66, session);
    var c2sKey := DeriveKey(MAX_KEY_LEN, h, common, 67, session);
    var s2cKey := DeriveKey(MAX_KEY_LEN, h, common, 68, session);
    var transMac := DeriveKey(transMacLen, h, common, mactransletter, session);
    var recvMac := DeriveKey(recvMacLen, h, common, macrecvletter, session);
    if server {
      trans, recv := Material(s2cIv, s2cKey, transMac), Material(c2sIv, c2sKey, recvMac);
    } else {
      trans, recv := Material(c2sIv, c2sKey, transMac), Material(s2cIv, s2cKey, recvMac);
    }
  }

  /** Both ends of one exchange, with the MAC lengths that MirroredAlgos makes equal. */
  method MirroredKeys(h: Hash, k: nat, hash: seq<byte>, session: seq<byte>, macC2S: nat, macS2C: nat)
    returns (clientTrans: Material, clientRecv: Material, serverTrans: Material, serverRecv: Material)
    requires Proper(h)
    ensures clientTrans == serverRecv && serverTrans == clientRecv
    ensures |clientTrans.mac| == macC2S && |serverTrans.mac| == macS2C
    ensures forall c :: IsMpint(c, k) ==>
              var x := ToBytes(|c|, 4) + c + hash;
              && clientTrans == Material(Derived(h, x, 65, session, 20), Derived(h, x, 67, session, 64),
                                         Derived(h, x, 69, session, macC2S))
              && serverTrans == Material(Derived(h, x, 66, session, 20), Derived(h, x, 68, session, 64),
                                         Derived(h, x, 70, session, macS2C))
  {
    clientTrans, clientRecv := GenNewKeys(false, h, k, hash, session, macC2S, macS2C);
    serverTrans, serverRecv := GenNewKeys(true, h, k, hash, session, macS2C, macC2S);
  }
}
