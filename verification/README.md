# Dropbear 2022.83: field arithmetic, transport, channels and negotiation

A Dafny model of the parts of Dropbear whose correctness is decided by its own code rather than by
a library, with proofs about all inputs and all runs.

- **Field and scalar arithmetic** (`curve25519.c`): sixteen 64-bit limbs with delayed carries. The
  limb code is proved to compute X25519 of RFC 7748 byte for byte, point addition and the scalar
  ladder of RFC 8032, and reduction modulo the group order, with no signed overflow anywhere.
  (`Radix`, `Field`, `Groups`, `Limbs`, `Inversion`, `Encoding`, `X25519`, `Montgomery`,
  `GroupOrder`, `Edwards`)
- **Key exchange as a two-party protocol** (`common-kex.c`, `process-packet.c`, `cli-kex.c`,
  `svr-kex.c`, `cli-session.c`, `common-session.c`): a client and a server over two FIFO streams,
  re-keying whenever either likes. For all configurations no run fails, keys always match and are
  those of the transcript signed last, and all that is submitted goes out in order; every exchange finishes, except in the configurations, proved
  exactly, that can make both ends wait for ever. (`KeyExchange`, `Session`, `WireLog`, `Rekeying`,
  `Submissions`, `Transcripts`, `Stall`, `Completion`, `Transport`)
- **Binary packets** (`packet.c`, `netio.c`, `queue.c`): encryption into a write queue, partial
  writes, short reads, incremental decryption, lengths that wrap, packets that are refused. (`Framing`, `PacketLaws`,
  `ReaderLaws`, `FramingRuns`, `HostileLengths`, `Tampering`, `PacketQueue`, `PacketObjects`)
- **Both together**: the key exchange over encrypted byte streams that are cut up anyhow, each end
  taking its cipher contexts from its own exchange. Every run of bytes is proved to be a run of
  packets. (`LogGrowth`, `WireCoding`, `EndToEnd`)
- **Channels** (`common-channel.c`, `circbuffer.c`): the ring buffer, credit windows, direct
  writes, half-close and close, for one channel between two ends, and against any peer at all.
  (`CircBuffer`, `Channels`, `ChannelObject`, `ChannelLaws`, `ChannelSafety`, `ChannelPeers`,
  `ChannelRuns`, `ChannelBytes`, `ChannelDelivery`)
- **Buffers, mpints, negotiation and key derivation** (`buffer.c`, `common-algo.c`,
  `common-kex.c`). (`Buffers`, `BufferObjects`, `Mpint`, `Negotiation`, `NegotiationObjects`,
  `Derivation`)

`Options` and `Sequences` hold what all of them share.

Where the C code changes a record or an array in place, so does the model: each such method is
proved to take its state to the value that a function of the same step gives, and the theorems
about whole runs are about those functions. A C exit becomes a result (`exit`, `None` or a false
`ok`); a run-time assertion becomes an `assert` in the method, or an exit that is proved never to
be taken.

## How the model stands for the code

- Every value the C code keeps in an `i64` is kept in a variable of type `i64`, so that a method
  verifies only if nothing overflows; the products that `modL` forms with the unsigned table of L
  are equal modulo 2^64 to the signed ones and fit. Masks and shifts are written as `%` and `/`
  where a lemma on bit-vectors shows them equal.
- Ciphers, MACs and hashes are functions. A cipher must satisfy `Framing.Law`: decryption undoes
  encryption and may be done in two pieces, or unsealing undoes sealing; `void_cipher` does the
  first, and `Framing.NoSealIsLawful` shows that the second can be met. The elliptic-curve group
  laws are hypotheses (`Groups.AbelianGroup`, `Edwards.Represents`, `Montgomery.MontgomeryLaw`),
  and p and L are not assumed prime.
- In the key exchange model a key is identified by the transcript it is derived from. The
  algorithm choice is one function for both ends, which `Negotiation.MirroredAlgos` proves of the
  real lists; each end has its own verdict on a guess. The runs assume of the verdicts only
  `Rekeying.Coherent`, that a guess the server thinks good was made for the algorithm chosen,
  which `Transport.OutcomeIsCoherent` proves of all tables with or without kexguess2.
- In `EndToEnd` the encoding of messages is a parameter; it must be undone by the decoding only on
  the messages that a run sends. No context is handed from one end to the other.
- Random padding and ephemeral values, timers, what `select` reports and what `read` and `write`
  return are inputs. Applications send well-typed packets that are not key exchange messages.
- Windows are between 1 and MAX_RECV_WINDOW (10 MiB), as `parse_recv_window` enforces.

## Where the code differs from its intent

- A client whose first key exchange entry is disabled and whose next one is chosen disagrees with
  the server about the guessed packet even with kexguess2, because the client counts its disabled
  entries and the server never sees them (`Negotiation.GuessDisagreement`); `GuessAgreement` gives
  the exact condition. It does no harm: the client sends the same value again and the server
  answers that copy as unimplemented (`Rekeying.ServerReadsStray`).
- Without kexguess2 the client can think a guess good that the server throws away
  (`Negotiation.PlainDisagreement`; `PlainGuess` says exactly when), and then both wait for each
  other, for ever (`Stall.StallsForEver`) unless a timeout ends the session:
  `Transport.PlainTablesStall` runs two such tables into it, and `Transport.TablesLiveExactly` gives the condition on the tables under which, and only
  under which, no run ever stalls. Where it holds every exchange can be finished
  (`Completion.EveryExchangeFinishes`). Safety is not touched: the other theorems on runs hold for
  all tables.
- A data packet larger than the window but not larger than the free ring ends the session by the
  assertion at common-channel.c:821 and not by the check for an oversized packet
  (`ChannelSafety.PacketVerdict`; `OverrunWitness` is such a packet).
- `get_algolist` notes that a list is too long but goes on with it: what it accepts does not depend
  on the length (`Negotiation.ScanExactly`), and a list over the limit goes through
  (`Negotiation.LongListPasses`).
- `send_msg_channel_close` leaves a separate error descriptor of a bidirectional channel open
  (`ChannelLaws.CloseAllCloses`); on a live channel it is never called in that state
  (`ChannelRuns.LifeCycle`).
- The length sums in `read_packet_init` can wrap for a hostile length, and the packet can then pass
  every check made there (`HostileLengths.PassesTheFirstChecks`); a position check in
  `decrypt_packet` refuses it, so that its payload is never delivered
  (`HostileLengths.WrappedNeverDelivers`).

## Model

| member | source | states |
|---|---|---|
| Limbs.CarryPass | GPL/dropbear-2022.83/curve25519.c:83-93 | one pass of `car25519` in place: every intermediate fits a signed 64-bit integer, and the limbs are those of the carry chain with the top carry folded in at 38 |
| Limbs.CarriedKeepsElem | GPL/dropbear-2022.83/curve25519.c:83-93 | the pass leaves the field element unchanged |
| Limbs.CarriedTwice | GPL/dropbear-2022.83/curve25519.c:175-176 | two carry passes over limbs within 2^62 leave limbs 1 to 15 in [0, 2^16) and limb 0 within 38 of that range |
| Limbs.MulLimbs | GPL/dropbear-2022.83/curve25519.c:168-177 | `M`, outputs allowed to alias inputs: for limbs below 2^18 in magnitude no product, column sum, 38-fold or carry overflows, the result is the product mod p, and it is reduced |
| Limbs.SquareLimbs | GPL/dropbear-2022.83/curve25519.c:179-182 | `S` is the square mod p, under the same bounds |
| Limbs.AddLimbs | GPL/dropbear-2022.83/curve25519.c:156-160 | `A` on aliased limbs: the sum mod p, with the limb bound that the next `M` needs |
| Limbs.SubLimbs | GPL/dropbear-2022.83/curve25519.c:162-166 | `Z` on aliased limbs: the difference mod p, with its limb bound |
| Field.PrimeIs | GPL/dropbear-2022.83/curve25519.c:113-123 | the prime is 2^255 - 19 |
| Limbs.FoldKeepsElem | GPL/dropbear-2022.83/curve25519.c:173 | folding the 31 columns at 38 keeps the value mod 2^255-19 |
| Inversion.InvertExponent | GPL/dropbear-2022.83/curve25519.c:189-192 | the square-and-multiply schedule of `inv25519` adds up to the exponent p - 2 |
| Inversion.Pow2523Exponent | GPL/dropbear-2022.83/curve25519.c:202-205 | the schedule of `pow2523` adds up to the exponent 2^252 - 3 |
| Inversion.Invert | GPL/dropbear-2022.83/curve25519.c:184-194 | `inv25519` stores x^(p-2) mod p, reduced, for every x and with output and input the same array |
| Inversion.Pow2523 | GPL/dropbear-2022.83/curve25519.c:197-207 | `pow2523` stores x^(2^252-3) mod p, aliasing allowed |
| Encoding.Unpack | GPL/dropbear-2022.83/curve25519.c:149-154 | `unpack25519`: the limbs stand for the 255-bit little-endian number of the bytes, top bit dropped |
| Encoding.ConditionalSwap | GPL/dropbear-2022.83/curve25519.c:95-103 | `sel25519` swaps the two limb arrays exactly when the bit is 1 |
| Encoding.MaskedSwap | GPL/dropbear-2022.83/curve25519.c:97-101 | the mask-and-xor form of the swap, on 64-bit words |
| Encoding.SubtractedSum | GPL/dropbear-2022.83/curve25519.c:114-121 | the borrow chain computes the value minus p |
| Encoding.SubtractedSign | GPL/dropbear-2022.83/curve25519.c:118-121 | the borrow out of the top limb is the sign of the value minus p |
| Encoding.TwoSubtractionsSuffice | GPL/dropbear-2022.83/curve25519.c:113-123 | after the carries, two conditional subtractions of p leave the residue in [0, p) |
| Encoding.Freeze | GPL/dropbear-2022.83/curve25519.c:109-123 | the carries and both conditional subtractions leave the canonical limbs of the residue |
| Encoding.Pack | GPL/dropbear-2022.83/curve25519.c:105-128 | `pack25519`: for any limbs within 2^62, the 32 bytes are the little-endian encoding of the value mod p |
| Encoding.PackInjective | GPL/dropbear-2022.83/curve25519.c:105-128 | packed bytes are equal exactly when the field elements are |
| Encoding.RoundTrip | GPL/dropbear-2022.83/curve25519.c:149-154 | unpacking and packing gives back every 32-byte encoding of a value below p |
| X25519.ClampMasks | GPL/dropbear-2022.83/curve25519.c:216-218 | the masks 248, 127 and 64 are the clamping of section 5 of RFC 7748 |
| X25519.BitOfByte | GPL/dropbear-2022.83/curve25519.c:226 | the shift and mask read the bit of the scalar that section 5 of RFC 7748 calls k_t |
| X25519.StepAgrees | GPL/dropbear-2022.83/curve25519.c:227-248 | swapping before and after every step equals the single running swap of RFC 7748 |
| X25519.DifferentialAgrees | GPL/dropbear-2022.83/curve25519.c:229-246 | the add, subtract, multiply and square sequence of one step is the differential step of RFC 7748 with a24 = 121665 |
| X25519.Round | GPL/dropbear-2022.83/curve25519.c:225-249 | one round on the limb arrays, with reused and aliased outputs, is one ladder step on field elements and keeps all limbs reduced |
| X25519.MontgomeryLadder | GPL/dropbear-2022.83/curve25519.c:225-249 | the 255 rounds are the whole RFC 7748 ladder |
| X25519.ScalarMult | GPL/dropbear-2022.83/curve25519.c:211-259 | `dropbear_curve25519_scalarmult`: for all 32-byte scalars and points the output bytes are X25519(n, p) of section 5 of RFC 7748 |
| Montgomery.Doubling | GPL/dropbear-2022.83/curve25519.c:227-246 | the doubled point of a step is ((x^2 - z^2)^2 : 4xz(x^2 + 486662xz + z^2)), as on v^2 = u^3 + 486662u^2 + u |
| Montgomery.DifferentialAddition | GPL/dropbear-2022.83/curve25519.c:227-246 | the other point is (4(x2x3 - z2z3)^2 : 4u(x2z3 - z2x3)^2), the sum of two points whose difference has coordinate u |
| Montgomery.LadderComputesMultiple | GPL/dropbear-2022.83/curve25519.c:225-249 | where these formulas are those of an abelian group, the ladder ends at the scalar multiple, for every scalar below 2^255 |
| Montgomery.PowerDivides | GPL/dropbear-2022.83/curve25519.c:256-258 | the last multiplication by z^(p-2) divides by z where Fermat's little theorem holds, and gives 0 for z = 0 |
| Montgomery.ClampedBit | GPL/dropbear-2022.83/curve25519.c:216-218 | bit by bit: clamping clears bits 0, 1, 2 and 255, sets bit 254 and keeps the rest |
| Montgomery.TopBitIgnored | GPL/dropbear-2022.83/curve25519.c:149-154 | the top bit of the 32-byte coordinate plays no part |
| Montgomery.X25519Multiplies | GPL/dropbear-2022.83/curve25519.c:211-259 | for all 32-byte n and p the result is x / z of [k]B, k being n clamped and B having the coordinate of p |
| GroupOrder.OrderSums | GPL/dropbear-2022.83/curve25519.c:356 | the 32 bytes of L stand for the group order |
| GroupOrder.OrderIs | GPL/dropbear-2022.83/curve25519.c:356 | the order is 2^252 + 27742317777372353535851937790883648493 (section 5.1 of RFC 8032) |
| GroupOrder.StepBounds | GPL/dropbear-2022.83/curve25519.c:363-367 | one inner step keeps the balanced digit and carry bounds |
| GroupOrder.EliminateDigit | GPL/dropbear-2022.83/curve25519.c:361-370 | one round of the outer loop clears the top digit and keeps the value mod L, without overflow |
| GroupOrder.OneMultipleSuffices | GPL/dropbear-2022.83/curve25519.c:372-377 | after the outer loop the estimated multiple of L is at most one off, so one correction suffices |
| GroupOrder.EmitResidue | GPL/dropbear-2022.83/curve25519.c:378-381 | the emitted bytes are the residue in [0, L) |
| GroupOrder.ModL | GPL/dropbear-2022.83/curve25519.c:358-382 | `modL`: for every accumulator within its digit bounds, the 32 bytes encode the value mod L |
| GroupOrder.Reduce | GPL/dropbear-2022.83/curve25519.c:384-390 | `reduce`: any 64 bytes are replaced by their number mod L, upper half zero |
| GroupOrder.MultiplyAccumulate | GPL/dropbear-2022.83/curve25519.c:422-424 | the accumulator stands for r + h * d and stays within the digit bounds of `modL` |
| GroupOrder.SignScalar | GPL/dropbear-2022.83/curve25519.c:422-425 | the second half of a signature is (r + h * d) mod L in little-endian bytes, as section 5.1.6 of RFC 8032 requires |
| Edwards.CurveConstant | GPL/dropbear-2022.83/curve25519.c:51-56 | the constant d of the curve is -121665/121666 mod p |
| Edwards.D2Elem | GPL/dropbear-2022.83/curve25519.c:51 | the limbs of the table D2 stand for 2d |
| Edwards.AddInto | GPL/dropbear-2022.83/curve25519.c:272-295 | `add`: the point addition of section 5.1.4 of RFC 8032 in extended coordinates, also when both arguments are the same array |
| Edwards.AffineSum | GPL/dropbear-2022.83/curve25519.c:272-295 | the sum satisfies the affine law x(1 + d x1x2y1y2) = x1y2 + x2y1, y(1 - d x1x2y1y2) = y1y2 + x1x2, multiplied out, and keeps XY = ZT |
| Edwards.AddNeutral | GPL/dropbear-2022.83/curve25519.c:314-319 | the point that the ladder starts from is neutral |
| Edwards.SwapPoints | GPL/dropbear-2022.83/curve25519.c:297-302 | `cswap` exchanges all four coordinates on 1 |
| Edwards.LadderRound | GPL/dropbear-2022.83/curve25519.c:322-326 | one round on limb arrays is one ladder step on points, the doubling aliased |
| Edwards.ScalarMult | GPL/dropbear-2022.83/curve25519.c:314-328 | `scalarmult` computes the 256-round swap ladder on field elements |
| Edwards.LadderInvariant | GPL/dropbear-2022.83/curve25519.c:321-327 | in any abelian group that point addition represents, p and q are multiples of the input with q - p equal to it after every round |
| Edwards.LadderComputesMultiple | GPL/dropbear-2022.83/curve25519.c:314-328 | the ladder returns [s]Q for every 256-bit s |
| Sessions.Session.EncryptPacket | GPL/dropbear-2022.83/packet.c:539-545 | a packet that may not be sent during key exchange joins the reply queue, any other goes out under the current transmit key |
| Sessions.Session.MaybeFlushReplyQueue | GPL/dropbear-2022.83/packet.c:495-515 | once data is allowed the held packets go out in order under the current key and the queue is empty |
| Sessions.Session.SendMsgKexinit | GPL/dropbear-2022.83/common-kex.c:55-122 | `send_msg_kexinit` changes the session as the transition function does, with the guessed packet behind it on a guessing client |
| Sessions.Session.SwitchKeysNow | GPL/dropbear-2022.83/common-kex.c:124-163 | `switch_keys`: each direction separately, once, and the exchange state reset when both have switched |
| Sessions.Session.SendMsgNewkeys | GPL/dropbear-2022.83/common-kex.c:166-187 | `send_msg_newkeys`: NEWKEYS goes out under the old key, then the new transmit key is in use |
| Sessions.Session.RecvMsgNewkeys | GPL/dropbear-2022.83/common-kex.c:190-198 | `recv_msg_newkeys` takes the new receive key into use |
| Sessions.Session.KexInitialise | GPL/dropbear-2022.83/common-kex.c:225-247 | `kexinitialise` clears the exchange flags and nothing else |
| Sessions.Session.RecvMsgKexinit | GPL/dropbear-2022.83/common-kex.c:474-552 | `recv_msg_kexinit`: own KEXINIT first if not yet sent, then negotiation, with the next packet required |
| Sessions.Session.ReadKexinit | GPL/dropbear-2022.83/common-kex.c:948-956 | a wrong guess of the peer is ignored, a right guess of ours is remembered |
| Sessions.Session.SendMsgKexdhInit | GPL/dropbear-2022.83/cli-kex.c:45-98 | `send_msg_kexdh_init` reuses an ephemeral value made for the same algorithm |
| Sessions.Session.RecvMsgKexdhReply | GPL/dropbear-2022.83/cli-kex.c:101-202 | `recv_msg_kexdh_reply`: out of order or badly signed replies exit, else NEWKEYS is sent and required |
| Sessions.Session.RecvMsgKexdhInit | GPL/dropbear-2022.83/svr-kex.c:49-101 | `recv_msg_kexdh_init`: reply, NEWKEYS and, on the first exchange, EXT_INFO; NEWKEYS is required next |
| Sessions.Session.CheckAndDispatch | GPL/dropbear-2022.83/process-packet.c:58-154 | the filters of `process_packet` in their order: always-allowed types, required type, ignored packet, authentication, handler table |
| Sessions.Session.CliSessionLoop | GPL/dropbear-2022.83/cli-session.c:208-237 | the key exchange part of `cli_sessionloop` |
| Sessions.Session.LoopOnce | GPL/dropbear-2022.83/common-session.c:237-270 | one pass of `session_loop` in its order: timeouts, packet, reply flush, loop handler, channels |
| Rekeying.RunsAreSound | GPL/dropbear-2022.83/common-session.c:164-279 | every state reachable by two endpoints in any guess mode, with any re-keys started by either or both, satisfies the joint invariant of flags, logs in flight and keys |
| Rekeying.NoProtocolExit | GPL/dropbear-2022.83/process-packet.c:87-128 | no run takes the exits for an unexpected packet, KEXINIT, NEWKEYS or reply, a bad signature or a packet under another key |
| Rekeying.ServerReadsStray | GPL/dropbear-2022.83/process-packet.c:95-105 | a second KEXDH_INIT from a client that thought worse of its guess than the server is answered as unimplemented and harms nothing |
| Transport.TablesNeverFail | GPL/dropbear-2022.83/common-kex.c:842-1016 | for every two configurations, with or without kexguess2, with the verdicts their own tables give, no run takes a protocol exit |
| Transport.OutcomeIsCoherent | GPL/dropbear-2022.83/common-kex.c:862-875 | whatever the tables, a guess that the server thinks good was made for the algorithm chosen |
| Transport.TablesLiveExactly | GPL/dropbear-2022.83/common-kex.c:842-1016 | for every two configurations no run stalls if and only if a guessing client that likes its guess, by what the server offers, has a server that likes it by what the client offers |
| Transport.Guess2IsLive | GPL/dropbear-2022.83/common-kex.c:862-875 | a client that offers kexguess2, or does not guess, never gets into a stall, whatever the server offers |
| Transport.PlainTablesStall | GPL/dropbear-2022.83/common-kex.c:948-1016 | two concrete tables without kexguess2, the server having disabled its first entry, on which three reads bring both ends to a halt that no input ever ends |
| Stall.LiveExactly | GPL/dropbear-2022.83/cli-session.c:217-237 | no run stalls if and only if the client trusts no guess that the server throws away |
| Stall.DoubtedGuessStalls | GPL/dropbear-2022.83/common-kex.c:948-1016 | if the client thinks its guess good and the server does not, there is a run after which both wait with nothing on its way, and go on waiting whatever happens |
| Stall.StallsForEver | GPL/dropbear-2022.83/cli-session.c:217-237 | whenever two ends have stalled, no continuation but an exit changes it: neither sends NEWKEYS or any packet that has to wait for it |
| Rekeying.KeysMatch | GPL/dropbear-2022.83/common-kex.c:133-150 | every packet is read under the key it was sent under, and drained directions hold equal keys |
| Rekeying.OnlyPermittedDuringKex | GPL/dropbear-2022.83/packet.c:464-476 | between KEXINIT and NEWKEYS only the types of section 7.1 of RFC 4253 are on the wire, also in runs that have ended |
| Rekeying.DeferredInOrder | GPL/dropbear-2022.83/packet.c:478-515 | every deferrable packet is on the wire or held, once, in submission order, also in runs that have ended; between passes nothing is held while data is allowed |
| Submissions.SubmittedInOrder | GPL/dropbear-2022.83/common-session.c:164-279 | in every run the deferrable packets on the wire, then those held back, are in order all that the callers have submitted: checktimeouts, the handler that ran, and the channels, turn after turn |
| Submissions.PromptInTurn | GPL/dropbear-2022.83/common-session.c:164-279 | every packet that need not wait is on the wire in the turn in which it was submitted, in order, with at most one answer of the endpoint's own among them |
| Submissions.DeferralIsRfc | GPL/dropbear-2022.83/packet.c:464-476 | what may be sent during key exchange is all of section 7.1 of RFC 4253 and no more: types below 50 but 5, 6 and 20 |
| Submissions.RekeyStarts | GPL/dropbear-2022.83/common-session.c:540-552 | when a rekey is due and no exchange is in progress, KEXINIT is the next packet out |
| Submissions.HandlerRuns | GPL/dropbear-2022.83/process-packet.c:126-142 | types 50 to 60 reach their handlers before authentication, those from 80 to 100 after it, and a handler sends what it submits |
| Submissions.TooEarlyExits | GPL/dropbear-2022.83/process-packet.c:126-128 | before authentication every type above 60 ends the session |
| Submissions.OthersAnswered | GPL/dropbear-2022.83/process-packet.c:60-77 | types 2, 3 and 4 are passed over, 1 ends the session, and a type without handler gets one answer of type 3 |
| Submissions.OutOfTurn | GPL/dropbear-2022.83/process-packet.c:87-112 | while a type is required, types 5, 6, 20 and those from 50 up end the session, the others get that answer |
| Transcripts.KeysAreSigned | GPL/dropbear-2022.83/svr-kex.c:49-101 | in every reachable state each end sends under the key of the last reply sent or read, and each reply signs the last KEXINIT of both sides and the public values of its exchange, as they went over the wire |
| Rekeying.NoDeadlock | GPL/dropbear-2022.83/cli-session.c:217-237 | an unfinished exchange always has a packet on its way, if the client trusts no guess that the server throws away |
| Completion.ReadingFalls | GPL/dropbear-2022.83/common-session.c:237-270 | a pass that only reads a packet brings the state nearer to rest, by a measure of packets in flight, packets held back and the exchange that is left |
| Completion.EveryExchangeFinishes | GPL/dropbear-2022.83/common-session.c:237-270 | if the client trusts no guess that is thrown away, reading takes every reachable state within a stated number of packets to rest: no exchange in progress, nothing held back or on its way, keys matched, unless an end exits |
| Completion.AnyReadingFinishes | GPL/dropbear-2022.83/common-session.c:237-270 | in whatever order the packets are read, no more than that number can be, and once there are none left both ends are at rest |
| Completion.FinishesExactly | GPL/dropbear-2022.83/cli-session.c:217-237 | every reachable state can be brought to rest by reading if and only if the client trusts no guess that the server throws away |
| CircBuffers.PositionsAgree | GPL/dropbear-2022.83/circbuffer.c:73-75 | the consistency assertions of `cbuf_writelen` hold in unsigned arithmetic |
| CircBuffers.CircBuffer.WriteLen | GPL/dropbear-2022.83/circbuffer.c:71-87 | the linear space is positive unless full, and short of the free space only where the storage ends; the three assertions hold |
| CircBuffers.CircBuffer.ReadPtrs | GPL/dropbear-2022.83/circbuffer.c:89-102 | the two pieces, put together, are the contents |
| CircBuffers.CircBuffer.WritePtr | GPL/dropbear-2022.83/circbuffer.c:104-116 | storage is allocated on first use and the contents are untouched |
| CircBuffers.CircBuffer.IncrWrite | GPL/dropbear-2022.83/circbuffer.c:118-126 | the bytes stored at the write position are appended to the contents; the size assertion holds |
| CircBuffers.CircBuffer.IncrRead | GPL/dropbear-2022.83/circbuffer.c:129-133 | the first bytes leave the contents; the assertion on used holds |
| CircBuffers.AroundTail | GPL/dropbear-2022.83/circbuffer.c:129-133 | dropping k bytes at the read position drops them from the front of the queue |
| ChannelObjects.ChannelRecord.CloseChanFd | GPL/dropbear-2022.83/common-channel.c:1048-1087 | `close_chan_fd`: which descriptor fields are closed, for all combinations of direction, bidirectional and error descriptors |
| ChannelLaws.CloseAllCloses | GPL/dropbear-2022.83/common-channel.c:388-390 | `send_msg_channel_close` closes every descriptor exactly unless a bidirectional channel reads from a separate error descriptor |
| ChannelObjects.ChannelRecord.WriteVectored | GPL/dropbear-2022.83/common-channel.c:441-505 | `writechannel_writev` over three iovecs takes what the descriptor took from ring then packet |
| ChannelObjects.ChannelRecord.WriteFallback | GPL/dropbear-2022.83/common-channel.c:411-437 | `writechannel_fallback` writes from the first piece only and consumes nothing of the packet |
| ChannelObjects.TakenWrites | GPL/dropbear-2022.83/common-channel.c:497-502 | what the descriptor took is a prefix of ring followed by packet, and the ring keeps the rest |
| ChannelObjects.ChannelRecord.WriteToChannel | GPL/dropbear-2022.83/common-channel.c:512-536 | `writechannel` with its window adjustment; the three assertions that end it hold |
| ChannelObjects.CopyRest | GPL/dropbear-2022.83/common-channel.c:838-848 | the copy-in loop appends all remaining bytes in at most two rounds |
| ChannelObjects.ChannelRecord.CommonRecvData | GPL/dropbear-2022.83/common-channel.c:786-852 | `common_recv_msg_channel_data` for any packet on a channel that any peer has brought about, error exits included |
| ChannelObjects.ChannelRecord.SendMsgChannelData | GPL/dropbear-2022.83/common-channel.c:696-772 | `send_msg_channel_data`: at most what window, packet limit and buffer allow, charged to the window |
| ChannelObjects.ChannelRecord.RecvMsgWindowAdjust | GPL/dropbear-2022.83/common-channel.c:857-871 | `recv_msg_channel_window_adjust` with both clamps, in unsigned arithmetic |
| ChannelObjects.ChannelRecord.CheckChannelClose | GPL/dropbear-2022.83/common-channel.c:276-341 | `check_close`: flushing, removal, EOF and CLOSE in their order |
| ChannelObjects.ChannelRecord.ChannelIoPass | GPL/dropbear-2022.83/common-channel.c:205-253 | `channelio` for one channel; no step of it exits, whatever the peer has sent before |
| ChannelObjects.ChannelRecord.Handle | GPL/dropbear-2022.83/common-channel.c:591-620 | the message handlers for any message from any peer, with the exit for an unknown channel |
| ChannelLaws.WriteChannelKeeps | GPL/dropbear-2022.83/common-channel.c:522-532 | the closing assertions of `writechannel` hold, window and log move together, and nothing but the bytes taken leaves the sink |
| ChannelPeers.ReceiveIsSound | GPL/dropbear-2022.83/common-channel.c:786-852 | a packet within the window is written, held or discarded whole and in order, and the balance of the window is kept |
| ChannelPeers.CheckCloseIsSound | GPL/dropbear-2022.83/common-channel.c:276-341 | `check_close` keeps order of EOF and CLOSE, and closes descriptors before it claims they are closed |
| ChannelRuns.NoChannelExit | GPL/dropbear-2022.83/common-channel.c:798-823 | between two honest ends no run reaches "Received data after eof", "Oversized packet", an unknown channel, or the assertions on windows and on sent_close |
| ChannelRuns.WindowSafety | GPL/dropbear-2022.83/common-channel.c:857-871 | sender window, data in flight, credit in flight and dropped bytes add up exactly to the receive window in every reachable state; clamping loses nothing |
| ChannelRuns.CreditConserved | GPL/dropbear-2022.83/common-channel.c:522-532 | window, ungranted bytes, both rings and discarded bytes add up to opts.recv_window after every run |
| ChannelRuns.NeverStarved | GPL/dropbear-2022.83/common-channel.c:158-162 | with everything drained and nothing lost the sender has window left |
| ChannelRuns.StreamFidelity | GPL/dropbear-2022.83/common-channel.c:411-505 | bytes written, then held, then skipped, then in flight are the bytes sent; nothing is skipped while the descriptor is open |
| ChannelBytes.ReadIsSent | GPL/dropbear-2022.83/common-channel.c:737-770 | a read within window, packet size and buffer is sent whole, in one message, and charged to the window |
| ChannelBytes.ReadNothing | GPL/dropbear-2022.83/common-channel.c:714-757 | without a window nothing is read; end of file closes the descriptor for reading |
| ChannelBytes.WriteTakes | GPL/dropbear-2022.83/common-channel.c:411-505 | what a write takes is the first bytes held, then those of the packet, and only they leave |
| ChannelBytes.BytesReadArrive | GPL/dropbear-2022.83/common-channel.c:411-770 | from descriptor to descriptor, after every run: written, held, skipped and in flight make up what the other end has read |
| ChannelBytes.CheckCloseActs | GPL/dropbear-2022.83/common-channel.c:276-341 | `check_close` leaves nothing undone: removal, end of writing, EOF and CLOSE happen exactly when they are due |
| ChannelBytes.GrantRaises | GPL/dropbear-2022.83/common-channel.c:857-871 | a grant raises the window by itself, both limited to 500000000, without wrapping |
| ChannelRuns.LifeCycle | GPL/dropbear-2022.83/common-channel.c:276-341 | at most one EOF and one CLOSE, no data after EOF, nothing after CLOSE, closed descriptors behind a CLOSE, removal only after both CLOSEs and with no buffered bytes left for an open descriptor |
| ChannelRuns.RemovalDrains | GPL/dropbear-2022.83/common-channel.c:276-316 | the pass or message that removes a channel finds both CLOSEs due and nothing buffered for an open descriptor, on every type of channel |
| ChannelSafety.AnyPeer | GPL/dropbear-2022.83/common-channel.c:786-871 | whatever messages a peer sends and whatever the descriptors do, the channel keeps the balance of its window, the order of EOF and CLOSE and its closed descriptors until a message ends the session |
| ChannelSafety.ExitExactly | GPL/dropbear-2022.83/common-channel.c:591-620 | exactly which messages end the session: for a removed channel, after EOF, or beyond the window of an open descriptor |
| ChannelSafety.PacketVerdict | GPL/dropbear-2022.83/common-channel.c:812-823 | for any packet from any peer: accepted exactly up to the window, "Oversized packet" exactly beyond the free ring, the assertion exactly in between |
| ChannelSafety.OverrunWitness | GPL/dropbear-2022.83/common-channel.c:812-823 | a packet of ten bytes, for a window of ten of which nine are left, that the oversize test lets through and the assertion catches |
| ChannelDelivery.RemovalDeliversAll | GPL/dropbear-2022.83/common-channel.c:309-316 | a channel without a process whose writes never fail is removed only when every byte the peer sent is written |
| Buffers.PutBytesTwice | GPL/dropbear-2022.83/buffer.c:294-297 | consecutive writes are one write of the concatenation |
| Buffers.PutIntRead | GPL/dropbear-2022.83/buffer.c:263-277 | reading back a written uint32 gives the same number and position |
| Buffers.BigEndian | GPL/dropbear-2022.83/buffer.c:263-277 | four bytes, most significant first |
| Buffers.StringRoundTrip | GPL/dropbear-2022.83/buffer.c:201-221 | reading back a written string gives it and the same position, exactly up to MAX_STRING_LEN |
| BufferObjects.Buffer.PutBytes | GPL/dropbear-2022.83/buffer.c:294-297 | `buf_putbytes` in place; false exactly where the C code exits |
| BufferObjects.Buffer.PutInt | GPL/dropbear-2022.83/buffer.c:272-277 | `buf_putint` stores four big-endian bytes |
| BufferObjects.Buffer.GetInt | GPL/dropbear-2022.83/buffer.c:263-269 | `buf_getint` loads them |
| BufferObjects.Buffer.PutString | GPL/dropbear-2022.83/buffer.c:280-285 | `buf_putstring` in place |
| BufferObjects.Buffer.GetString | GPL/dropbear-2022.83/buffer.c:201-221 | `buf_getstring`, with its length limit |
| BufferObjects.Buffer.Resize | GPL/dropbear-2022.83/buffer.c:67-78 | `buf_resize` keeps the used bytes that fit |
| Mpint.MpintLength | GPL/dropbear-2022.83/buffer.c:313-325 | the length of an mpint is determined by the number of bits |
| Mpint.MpintUnique | GPL/dropbear-2022.83/buffer.c:302-342 | there is only one minimal non-negative mpint of a number (section 5 of RFC 4251) |
| Mpint.StoredIsMpint | GPL/dropbear-2022.83/buffer.c:313-339 | what `buf_putmpint` stores is that encoding |
| Mpint.MpintBytes | GPL/dropbear-2022.83/buffer.c:327-339 | the buffer holds its length and the one encoding |
| Mpint.MpintRoundTrip | GPL/dropbear-2022.83/buffer.c:349-371 | `buf_putmpint` then `buf_getmpint` returns the same number and position exactly for numbers of fewer than 8240 bits, and fails for longer ones |
| BufferObjects.Buffer.PutMpint | GPL/dropbear-2022.83/buffer.c:302-342 | `buf_putmpint` in place, pad byte included |
| BufferObjects.Buffer.GetMpint | GPL/dropbear-2022.83/buffer.c:347-372 | `buf_getmpint`, distinguishing exit and failure |
| Framing.PaddingIsRight | GPL/dropbear-2022.83/packet.c:586-602 | padding of 4 to 255 bytes, whole blocks in plain and AEAD modes, minimum length, and a large enough buffer even in a build without zlib (section 6 of RFC 4253) |
| Framing.NoCipherIsLawful | GPL/dropbear-2022.83/common-algo.c:40-46 | `void_cipher` meets the laws asked of a cipher |
| Framing.NoSealIsLawful | GPL/dropbear-2022.83/packet.c:616-630 | the laws asked of an AEAD mode can be met |
| PacketLaws.TwoPieces | GPL/dropbear-2022.83/packet.c:254-276 | decrypting the first block and then the rest gives the packet in the clear |
| PacketLaws.FirstBlockFound | GPL/dropbear-2022.83/packet.c:257-287 | the first block of any sent frame gives its whole length and passes the size checks |
| PacketLaws.OpenedWhole | GPL/dropbear-2022.83/packet.c:309-348 | the complete frame decrypts to what was sent and its MAC is accepted |
| PacketLaws.PlainFrame | GPL/dropbear-2022.83/packet.c:616-650 | without AEAD the frame is the encrypted packet and behind it the MAC of sequence number and packet in the clear |
| Tampering.MacDecides | GPL/dropbear-2022.83/packet.c:330-348 | a packet without AEAD is refused unless its last bytes are the MAC of the sequence number and what it decrypts to |
| Tampering.ShortIsRefused | GPL/dropbear-2022.83/packet.c:330-348 | a packet too short for its first block and a MAC is refused |
| Tampering.SealDecides | GPL/dropbear-2022.83/packet.c:309-325 | a packet that the AEAD mode does not open is refused |
| Tampering.DeliversPayload | GPL/dropbear-2022.83/packet.c:350-383 | what is delivered lies between the padding length and the padding |
| Tampering.OtherMacEndsAll | GPL/dropbear-2022.83/packet.c:150-348 | a sent packet with any other MAC, and whatever follows it, delivers nothing, however it is read and with any re-keys before it |
| Tampering.BrokenSealEndsAll | GPL/dropbear-2022.83/packet.c:150-325 | the same for a packet changed behind its first block that the AEAD mode does not open |
| ReaderLaws.ReadProgress | GPL/dropbear-2022.83/packet.c:150-208 | one `read_packet`, whatever the reads return, moves the reader on in its packet or delivers it |
| FramingRuns.FramingRoundTrip | GPL/dropbear-2022.83/packet.c:150-383 | under any partial writes, short reads and re-keys the payloads delivered are the first of those encrypted, in order; no check fails, sequence numbers agree |
| FramingRuns.NothingLeftBehind | GPL/dropbear-2022.83/packet.c:99-100 | once everything is written and read, everything is delivered |
| HostileLengths.WrappedNeverDelivers | GPL/dropbear-2022.83/packet.c:265-295 | a packet whose length sum wraps is never delivered, whatever the reads return: the first checks or those of `decrypt_packet` end the session |
| HostileLengths.PassesTheFirstChecks | GPL/dropbear-2022.83/packet.c:277-291 | such a packet can pass every check of `read_packet_init`, for a lawful cipher: length field 2^32 - 12 in blocks of 8 with a MAC of 32 |
| HostileLengths.LengthsAccepted | GPL/dropbear-2022.83/packet.c:265-281 | the first checks let through exactly whole blocks, at least one, of at most 35000 bytes with the MAC |
| HostileLengths.SealedLengthsAccepted | GPL/dropbear-2022.83/packet.c:257-281 | the same in an AEAD mode, the length field not being counted |
| LogGrowth.IterateExtends | GPL/dropbear-2022.83/common-session.c:164-279 | every packet that one pass adds to an endpoint's log is under its present key up to and including NEWKEYS, and under the new one after it |
| EndToEnd.SwitchedAlike | GPL/dropbear-2022.83/common-kex.c:133-150 | after reading NEWKEYS the receive key is the one the peer now sends under, each having derived its own |
| EndToEnd.PlayIsTurn | GPL/dropbear-2022.83/common-session.c:164-279 | a pass that reads bytes is a turn that reads at most one packet, the next of the peer's log |
| EndToEnd.BytesRefinePackets | GPL/dropbear-2022.83/packet.c:150-383 | every run of two endpoints over encrypted byte streams, with any partial writes, short reads and re-keys, each reader switched by its own endpoint, is a run of packets as `Rekeying` has them |
| EndToEnd.BytesArriveSafely | GPL/dropbear-2022.83/packet.c:309-324 | no such run ends in a failed length, MAC, signature or protocol check, and what one end has read decodes to the first of the messages that the other has sent |
| FramingRuns.ConsumeTakes | GPL/dropbear-2022.83/netio.c:331-347 | `packet_queue_consume` takes exactly the written bytes off the front and leaves no empty buffer |
| FramingRuns.OfferedIsPrefix | GPL/dropbear-2022.83/netio.c:317-328 | what one writev is offered is a prefix of what is still to be written |
| PacketObjects.EncryptPacket | GPL/dropbear-2022.83/packet.c:547-650 | `encrypt_packet` in place: no buffer operation can exit and the bytes are the encrypted frame |
| PacketObjects.PacketReader.ReadPacketInit | GPL/dropbear-2022.83/packet.c:214-295 | `read_packet_init` in place, with wrapping lengths and every exit |
| PacketObjects.PacketReader.DecryptWhole | GPL/dropbear-2022.83/packet.c:298-386 | `decrypt_packet` in place |
| PacketObjects.PacketReader.ReadPacketOnce | GPL/dropbear-2022.83/packet.c:150-208 | `read_packet` in place |
| PacketQueue.Queue.Enqueue | GPL/dropbear-2022.83/queue.c:69-87 | `enqueue` on the linked queue appends |
| PacketQueue.Queue.Dequeue | GPL/dropbear-2022.83/queue.c:41-61 | `dequeue` takes the first item |
| PacketQueue.Queue.ConsumeWritten | GPL/dropbear-2022.83/netio.c:331-347 | `packet_queue_consume` on the linked queue |
| PacketQueue.Queue.ToIovec | GPL/dropbear-2022.83/netio.c:317-328 | `packet_queue_to_iovec`: the first buffers, each with bytes left; its assertion holds |
| Negotiation.SplitJoin | GPL/dropbear-2022.83/common-algo.c:315-339 | the splitter undoes the printer on names without commas |
| Negotiation.JoinedByCommas | GPL/dropbear-2022.83/common-algo.c:315-339 | names are printed with byte 44 between them |
| Negotiation.JoinSplit | GPL/dropbear-2022.83/common-algo.c:349-383 | the printer undoes the splitter on any list |
| Negotiation.ListArrives | GPL/dropbear-2022.83/common-algo.c:349-383 | the list of any table arrives as its usable names, within the limits of `get_algolist` |
| Negotiation.ScanExactly | GPL/dropbear-2022.83/common-algo.c:349-383 | `get_algolist` gives the split list exactly when it has no zero byte and no more names than there is room for, whatever its length |
| Negotiation.LongListPasses | GPL/dropbear-2022.83/common-algo.c:356-358 | a list longer than the limit that is tested and forgotten goes through |
| Negotiation.ClientMatch | GPL/dropbear-2022.83/common-algo.c:460-495 | the client, on its masked table, finds the first of its usable names that the peer has |
| Negotiation.ServerMatch | GPL/dropbear-2022.83/common-algo.c:454-495 | the server, on its masked table, finds the same |
| Negotiation.Agreement | GPL/dropbear-2022.83/common-algo.c:426-500 | both ends select the algorithm of section 7.1 of RFC 4253, or both none |
| Negotiation.ChosenIs | GPL/dropbear-2022.83/common-algo.c:456-495 | the choice is the first client name that the server has, or there is none |
| Negotiation.ChoicesByRfc | GPL/dropbear-2022.83/common-kex.c:842-1002 | `read_kex_algos` on any lists: it exits exactly if a choice fails, and each direction gets the choices of its own lists |
| Negotiation.GuessAgreement | GPL/dropbear-2022.83/common-algo.c:475-484 | with kexguess2 both ends judge the guess alike if and only if the client's first entry is usable or its first usable name is not chosen |
| Negotiation.Guess2Verdicts | GPL/dropbear-2022.83/common-algo.c:476-479 | with kexguess2 the client likes its guess exactly if its own first entry is usable and the server has it, the server if it has the first name it was sent |
| Negotiation.GuessDisagreement | GPL/dropbear-2022.83/common-algo.c:476-479 | a client whose first entry is disabled and whose next is chosen disagrees with its server |
| Negotiation.PlainGuess | GPL/dropbear-2022.83/common-algo.c:480-484 | without kexguess2 each end likes the guess exactly when its own first entry is usable and is the other's first usable one, so the two disagree exactly when their first usable names are the same and just one has its first entry disabled |
| Negotiation.PlainDisagreement | GPL/dropbear-2022.83/common-algo.c:480-484 | without kexguess2 a client can think a guess good that a server with a disabled first entry throws away |
| Negotiation.MirroredAlgos | GPL/dropbear-2022.83/common-kex.c:842-1002 | both ends exit or both install the same algorithms with transmit and receive exchanged, each having split the list that the other has printed |
| Negotiation.MirroredGuess | GPL/dropbear-2022.83/common-kex.c:862-875 | both offering kexguess2, client favourites usable: both ends agree about the guessed packet |
| Negotiation.VerdictsCohere | GPL/dropbear-2022.83/common-kex.c:862-875 | for all tables of a client that offers kexguess2: a guess good to the client is good to the server |
| Negotiation.GuessIsChosen | GPL/dropbear-2022.83/common-kex.c:862-875 | for all tables in any mode: a guess good to the server was made for the algorithm chosen |
| Negotiation.TableVerdicts | GPL/dropbear-2022.83/common-kex.c:948-956 | both verdicts of `read_kex_algos` by the tables alone, each side going by what the other offers |
| NegotiationObjects.PutAlgolistAll | GPL/dropbear-2022.83/common-algo.c:315-339 | `buf_put_algolist_all`, length filled in afterwards, is an SSH string of the printed list |
| NegotiationObjects.ListTravels | GPL/dropbear-2022.83/common-algo.c:440-443 | a table printed into a buffer is read back by `buf_getstring` and `get_algolist` as its usable names |
| NegotiationObjects.GetAlgolist | GPL/dropbear-2022.83/common-algo.c:349-383 | `get_algolist` in place: each pointer reads its name, with the stops for a zero byte and for too many names |
| NegotiationObjects.BufMatchAlgo | GPL/dropbear-2022.83/common-algo.c:445-495 | the nested loops of `buf_match_algo` return a usable entry with the selected name and the guess flag |
| NegotiationObjects.FirstUsableAlgo | GPL/dropbear-2022.83/common-algo.c:411-419 | `first_usable_algo` is the first name of the printed list |
| NegotiationObjects.BufHasAlgo | GPL/dropbear-2022.83/common-algo.c:397-403 | `buf_has_algo` is membership in the split list |
| Derivation.DerivedPrefix | GPL/dropbear-2022.83/common-kex.c:255-279 | a shorter derived key is a prefix of a longer one |
| Derivation.DerivedBlock | GPL/dropbear-2022.83/common-kex.c:255-279 | K1 = HASH(K || H || X || session_id) and each further block is HASH(K || H || all blocks before it) (section 7.2 of RFC 4253) |
| Derivation.HashKeys | GPL/dropbear-2022.83/common-kex.c:255-279 | `hashkeys`, for every length and hash size: exactly the prefix of K1 || K2 || ... of section 7.2 of RFC 4253 |
| Derivation.GenNewKeys | GPL/dropbear-2022.83/common-kex.c:288-375 | `gen_new_keys`: K as its one mpint, then H; letters A, C, E from client to server and B, D, F back, for IV, key and MAC key of either side |
| Derivation.MirroredKeys | GPL/dropbear-2022.83/common-kex.c:312-375 | with equal K, H and session id, what one side transmits with the other receives with, all six letters as they should be |

## Left out

- Edwards.LadderComputesMultiple: the group law of the curve is a hypothesis, because it is not part of the program.
- Montgomery.X25519Multiplies: the group law is a hypothesis here too, and that x^(p-2) divides needs p to be prime (Montgomery.PowerDivides).
- Rekeying.NoProtocolExit: compression, a failed negotiation, the timeouts that close a session, and a guess whose message type differs from the required one are not modelled.
- FramingRuns.FramingRoundTrip: compression and the zero-length read or write that means the peer has gone are not modelled.
- EndToEnd.BytesRefinePackets: the sizes of messages are not modelled; a pass that would send a message longer than a packet holds is not part of a run.
- ChannelRuns.NoChannelExit: for one established channel; channel requests and their replies, late attachment of descriptors and pending connects are not modelled.
- ChannelDelivery.RemovalDeliversAll: for the main stream; a server session closes its descriptors when its process exits and is excluded.
- ChannelObjects.ChannelRecord.CloseChanFd: the shutdown and close system calls themselves are not modelled, only the descriptor fields.
- BufferObjects.Buffer.PutMpint: mp_count_bits, mp_to_ubin and mp_from_ubin are taken to be what their names say.
- Derivation.HashKeys: copying and finishing a hash state is hashing the bytes it has seen.
- The slot search and growth of the channel table in newchannel; only the windows and rings it sets up are modelled.
- Sockets, select, processes, pseudo-terminals, logging, options and file formats: input and output plumbing.
- User authentication, agent, X11 and TCP forwarding, listeners: mostly checks of the environment.
- Ed25519 key files, point decompression and the other signature algorithms: calls into big-number libraries or checks of encodings.
- The TCP fast-open path of netio.c, which consumes the queue outside the accounting of write_packet.
- Big-number, cipher and compression internals: in libraries.
