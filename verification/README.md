# Verified model of the SSH session engine

A Dafny model of the parts of the forked russh library, and of one piece of the
worker beside it, whose promises no single function keeps: they hold of whole
runs, of two endpoints together, or of a byte format and its inverse.

| module | what it models |
|---|---|
| `Wire` | 32-bit words and length-prefixed strings |
| `Channel` | one channel's flow control: splitting data into packets under the peer's window, queueing the rest, draining it on WINDOW_ADJUST, deferring EOF and CLOSE, re-granting window (sections 5.2 and 5.3 of RFC 4254) |
| `Flow` | two endpoints of a channel joined by two FIFO wires, with any interleaving of application calls and deliveries |
| `Endings` | how a channel ends: what EOF and CLOSE mean on arrival, when CLOSE is answered, how often EOF is sent |
| `Session` | the imperative `Encrypted`: its channel table, write queue and cursor, method by method against `Channel` |
| `Codec` | the binary packet format (sections 6 and 6.4 of RFC 4253) over its four cipher shapes, with the imperative writer, reader and CBC chunk loop |
| `Sealing` | what is in a sealed packet, how cipher states move on, what a tag admits |
| `Negotiation` | KEXINIT messages and the choice both sides make (section 7.1 of RFC 4253) |
| `KeyMaterial` | mpint encoding, the GCM nonce counter, key expansion (section 7.2 of RFC 4253) |
| `KeyExchange` | client and server key exchange machines run against each other over FIFO wires, any number of rekeys, strict kex sequence resets |
| `KexFailures` | exactly which runs of the two machines end in an error |
| `KexLockstep` | exactly when sequence numbers stay in step |
| `KexTrust` | what a client's keys rest on, whoever its peer is |
| `Connection` | negotiation, exchange and key expansion put together |
| `EndToEnd` | a channel down to the bytes: session, codec and peer put together, as a refinement of `Flow` |
| `Auth` | the server's user authentication (RFC 4252) over whole connections |
| `AuthReplies` | what the same server says to single requests and to rounds of them |
| `CryptoVec` | the growable buffer for secrets, on an array of `capacity` bytes |
| `ReplayBuffer` | the worker's replay buffer with eviction |

Where the source changes state in place the model is a class or a method with
loops (`Session.Encrypted`, `Codec.Key`, `Codec.CbcWrapper`,
`CryptoVec.CryptoVec`, `Auth.ServerSession`, `ReplayBuffer.SshSessionDO`,
`Negotiation.SelectLoop`, `KeyMaterial.Advance`, `KeyMaterial.ComputeKey`,
`KeyMaterial.EncodeMpint`). Each is proved against a function, and the results
about runs are proved of those functions. The two key exchange machines are
functions from a state and a message to a state and messages, because their
results are about two of them run against each other.

Everything the code cannot see or decide is a parameter: handler answers, random
bytes, the order of events, the hash, signature, block cipher, keystream, MAC and
AEAD functions. Of the primitives only these laws are used: DH secrets agree, the
server's signature verifies, decryption inverts encryption, a hash is never empty, and
a packet sealed under one set of keys and number opens under no other.
`Connection.AssumptionsCanBeMet` shows that what is asked of two sides can be had, with
strict key exchange and without.

## How the proofs go

- **Order** in a channel is not local. `data` queues behind waiting data only during
  a rekey; at all other times order holds because data waits only behind a shut
  window (`Channel.Sound`). Every handler that raises a window must restore that by
  flushing at once, and the lemmas of `Channel` show that it does.
- **Flow control** rests on one equation per direction (`Flow.Credit`), kept by
  every action. Deadlock freedom and the saturating addition follow from it.
  `Flow.Drains` adds a measure under which each delivered message pays for
  everything it causes.
- **From end to end** a stream of bytes carries a list of messages (`EndToEnd.Carries`).
  Sealing adds to that list, reading takes its head, so each step on bytes is a step of
  `Flow`, and what holds of messages holds of bytes.
- **Key exchange** draws its randomness from tapes indexed by the number of the
  exchange. So each endpoint has a closed form (`KeyExchange.EndpointAt`), and
  what is on a wire is exactly the kex messages between the reader's and the
  sender's position, each numbered for the state its reader will be in.
- **Any peer.** Those runs have a partner that keeps to the protocol. What a client may
  believe of any other is an invariant over the list of payloads it has read
  (`KexTrust.Trusting`), and what must be refused is a predicate on a single one
  (`KexTrust.Refused`), met by both roles in both directions.
- **What is written** is pinned down apart from its inverse: bytes by position
  (`Sealing.OnTheWire`, `Session.MessageLayout`, `Negotiation.InitLayout`), keys by the
  blocks they are made of (`KeyMaterial.IsKey`), cipher states by what each packet uses up.

## What the proofs found

- `pending_eof` is never cleared, so a deferred EOF is sent again by every later
  window adjustment (`Channel.DeferredEofRepeats`; a run that sends it twice is
  `Endings.EofGoesOutTwice`, and `Endings.EofsAreCounted` says how often any run does).
- A client that receives CLOSE while data waits defers its answer for ever: the
  peer has dropped the channel and grants nothing more. It answers if and only if
  no data waits (`Endings.AnswersCloseExactly`; a run that gets there is
  `Endings.CloseMeetsWaitingData`).
- A server drops the channel on CLOSE and never answers, although section 5.3 of
  RFC 4254 asks for it: it has sent CLOSE in the end only if its application closed
  first (`Endings.ServerNeverAnswers`; such a run is `Endings.ServerLeavesCloseUnanswered`).
- A window target of 0 or 1 is never re-granted (`Flow.TinyTargetStalls`); 2 is enough.
- After a CHANNEL_OPEN_CONFIRMATION that announces window while data waits a later
  byte overtakes what waits, and only after such a one (`Channel.ConfirmationKeepsOrder`).
- `data_noqueue` adds offset and window in 32 bits; its slice is right exactly when
  the sum does not wrap (`Session.SplitIsExact`). A single large grant can make it wrap
  (`Session.GrantCanWrap`; exactly when: `Session.SendableExactly`). No conforming peer
  does, not even by a grant sent before its CLOSE (`Flow.NextMessageIsExpected`,
  `Session.GrantsAreSendable`).
- Packets sent between an endpoint's own NEWKEYS and the peer's are sealed with the
  old keys and reach the peer under the new ones, and no other packets do
  (`KeyExchange.EpochMismatchExactlyWhenLate`). Such packets are what ends a run in
  an error, and nothing else does, unless the agreed cipher does not encrypt
  (`KexFailures.FailsExactlyOverLatePackets`, `KexFailures.FailsExactlyOverLateSends`;
  `KexFailures.LatePacketIsReachable` is such a run).
- The `none` key exchange under strict kex loses the sequence numbers, and nothing
  else does (`KexLockstep.InStepExactly`). Strict or not it works only with a cipher
  that does not encrypt (`KexLockstep.SkippedExchangeNeedsClearCipher`).
- `strict_kex` is only set together with the first session
  (`KexFailures.StrictNeedsSession`), so the strict message tables, which are
  consulted only before a session exists, never apply.
- Authentication by `none` does not record the accepted user
  (`Auth.RecordedUserExactly`, `Auth.NoneLogsNobodyIn`); a handler's partial success is
  reported only for keyboard-interactive (`Auth.PartialSuccessReportedExactly`,
  `Auth.PartialPasswordLooksWrong`), and then again to requests that have nothing to do
  with it (`AuthReplies.PartialSuccessIsRepeated`).
- A client that signs without asking first gets its keys considered only as long as
  each one is accepted as an offer, carries a good signature and is turned down in the
  end; any other failure blocks all that follow (`Auth.UnaskedKeyConsideredExactly`; runs
  either way are `Auth.SecondKeyIsIgnored` and `Auth.SecondKeyLogsIn`).
- The configured maximum of attempts is never applied: refused requests and
  responses of any kind end nothing (`Auth.RejectionsNeverEndIt`), neither maximum nor counts are among
  what ends a connection (`Auth.EndsExactly`), and they influence nothing at all
  (`Auth.CountsNeverMatter`).
- The key that signs is not compared with the key that was offered before it, so only
  the handler's last verdict is about it (`Auth.OtherKeyLogsIn`; exactly when the two agree: `Auth.SignedKeyIsOfferedKeyExactly`).
- `encode_mpint` has no encoding for the number 0: it indexes past the end of its input
  exactly on strings of zeros (`KeyMaterial.EncodeMpint`), the result of a key agreement
  that comes out as zero among them (`kex/curve25519.rs:107-115`, `135-139`).

## Model

| member | source | states |
|---|---|---|
| Wire.StringRoundTrip | crates/russh/russh/src/helpers.rs:36-52 | A length-prefixed string is read back whole from the head of any longer buffer, with the rest untouched |
| Wire.StringIsEncoded | crates/russh/russh/src/helpers.rs:46-52 | And the other way round: whatever is read as a string was written as that string, with the rest behind it |
| Wire.WordIsBigEndian | crates/russh/russh/src/session.rs:477-479 | The four bytes of a word are its digits to the base 256, the highest first |
| Channel.PacketsCarry | crates/russh/russh/src/session.rs:392-424 | The packet loop of `data_noqueue` emits only non-empty packets of at most the peer's maximum, which carry exactly the bytes of the slice in order |
| Channel.PacketsAreFull | crates/russh/russh/src/session.rs:392-396 | Every packet but the last has exactly the peer's maximum of bytes |
| Channel.SubmitKeepsOrder | crates/russh/russh/src/session.rs:427-468 | `data`/`extended_data`, rekeying or not: emitted bytes followed by waiting bytes grow by exactly the submitted, tagged bytes; the window pays for what is sent; data waits only behind a shut window |
| Channel.SendHeadKeepsOrder | crates/russh/russh/src/session.rs:297-313 | Sending from the head of the queue emits a prefix of the waiting bytes and leaves the rest |
| Channel.FlushKeepsOrder | crates/russh/russh/src/session.rs:297-313 | A flush emits a prefix of the waiting bytes, pays for it, and stops only with the queue empty or the window shut |
| Channel.FlushIsIdle | crates/russh/russh/src/session.rs:351-356 | In every sound state a flush without new window does nothing, so `flush_all_pending` may drop its results |
| Channel.FlushDrains | crates/russh/russh/src/session.rs:297-313 | A flush empties the queue exactly when the window admits every waiting byte |
| Channel.FlushPendingKeepsOrder | crates/russh/russh/src/session.rs:315-349 | Draining the queue keeps the order and the invariant, and closes the channel only for a deferred CLOSE |
| Channel.AdjustKeepsOrder | crates/russh/russh/src/client/encrypted.rs:535-560 | A window adjustment restores the invariant that data waits only behind a shut window; the channel is closed in that step exactly when a CLOSE was deferred and the raised window admits every waiting byte |
| Channel.RaiseSaturates | crates/russh/russh/src/client/encrypted.rs:535-551 | The raised window is the sum exactly if that fits 32 bits, and the largest number otherwise |
| Channel.FarewellsComeLast | crates/russh/russh/src/session.rs:315-349 | A flush writes EOF and CLOSE only once no byte waits and after all data, CLOSE only as the last message |
| Channel.AdjustSendsEof | crates/russh/russh/src/session.rs:315-334 | A window adjustment sends EOF exactly when one was ever deferred and the raised window admits every waiting byte |
| Channel.DeferredEofRepeats | crates/russh/russh/src/session.rs:315-334 | EOF is not sent at most once: after a deferred EOF has gone out every further window adjustment sends another |
| Channel.ConfirmationKeepsOrder | crates/russh/russh/src/lib_inner.rs:491-498 | After a confirmation every submission, of any bytes and tag and rekeying or not, stays in order, if and only if no data waits or the announced window is 0; otherwise one byte overtakes what waits |
| Flow.InitialHolds | crates/russh/russh/src/session.rs:516-538 | A channel just opened satisfies the two-endpoint invariant |
| Flow.SubmitKeepsPair | crates/russh/russh/src/session.rs:427-468 | Submitting data, at any time of a rekey, keeps the two-endpoint invariant |
| Flow.EofKeepsPair | crates/russh/russh/src/session.rs:237-244 | Sending or deferring EOF keeps the two-endpoint invariant |
| Flow.CloseKeepsPair | crates/russh/russh/src/session.rs:246-254 | Sending or deferring CLOSE keeps the two-endpoint invariant |
| Flow.FinishRekeyIsIdle | crates/russh/russh/src/session.rs:351-356 | The flush at the end of a rekey changes nothing at an endpoint that satisfies the invariant |
| Flow.ReadConfirmation | crates/russh/russh/src/server/encrypted.rs:680-716 | Reading CHANNEL_OPEN_CONFIRMATION keeps the two-endpoint invariant |
| Flow.DataFits | crates/russh/russh/src/session.rs:264-295 | Data about to be read never exceeds the receiver's window, so no data is ever extra |
| Flow.ReadData | crates/russh/russh/src/server/encrypted.rs:611-652 | Reading data, with any regrant the handler's target leads to, keeps the two-endpoint invariant |
| Flow.GrantFits | crates/russh/russh/src/client/encrypted.rs:535-551 | No grant makes the window addition saturate, whether or not the peer has closed since it sent it |
| Flow.ReadAdjust | crates/russh/russh/src/server/encrypted.rs:654-678 | Reading WINDOW_ADJUST and flushing at once keeps the two-endpoint invariant |
| Flow.ReadClose | crates/russh/russh/src/client/encrypted.rs:360-370 | Reading CLOSE, on either side, keeps the two-endpoint invariant |
| Flow.PerformKeepsPair | crates/russh/russh/src/client/encrypted.rs:316-560 | Every application call on a confirmed channel and every delivery keep the two-endpoint invariant |
| Flow.CreditIsConserved | crates/russh/russh/src/session.rs:264-295 | In every reachable state with both sides open: the sender's window plus data bytes in flight plus grants in flight equals the receiver's window |
| Flow.NextMessageIsExpected | crates/russh/russh/src/session.rs:375-425 | In every reachable state the next message is expected, the sender's having closed notwithstanding: data fits the window, a grant neither saturates nor pushes an offset beyond 32 bits, a confirmation meets an unconfirmed empty channel |
| Flow.DeliveryIsAPrefix | crates/russh/russh/src/session.rs:375-468 | In every reachable state an application has been given exactly the data of the messages read, whether or not its channel is still open, and that is a prefix of what the other one submitted, stream tags included |
| Flow.QuietMeansDelivered | crates/russh/russh/src/session.rs:264-349 | No flow-control deadlock: with nothing in flight and both sides open, nothing waits, everything submitted is delivered and both windows are open (a client's at least at half its target; a server's by `Flow.WindowStaysHalfOpen`) |
| Flow.WindowStaysHalfOpen | crates/russh/russh/src/session.rs:264-295 | A side whose target never changes, server or client, keeps its window at half the target or more in every reachable state |
| Flow.GrantsExactly | crates/russh/russh/src/session.rs:264-295 | In every reachable state the next data message is answered by a WINDOW_ADJUST exactly if it leaves less than half the target, by one that restores the whole target; with half the target left nothing is sent and the window only falls by the data. A server that has granted, and no other side, then takes up the handler's new target |
| Flow.GrantsAreLarge | crates/russh/russh/src/session.rs:264-295 | A side whose target never changes sends no WINDOW_ADJUST of half the target or less, and none above the target, in any run |
| Flow.FarewellsAreInTime | crates/russh/russh/src/session.rs:237-254 | In every reachable state EOF and CLOSE were queued only after every byte submitted by then, CLOSE is last, and a deferred CLOSE has data in front of it |
| Flow.HandlingIsWorthIt | crates/russh/russh/src/client/encrypted.rs:535-560 | What handling a message sends and leaves waiting is worth less than the message: the measure behind `Drains` |
| Flow.Drains | crates/russh/russh/src/session.rs:336-349 | From every state that satisfies the invariant finitely many deliveries empty both wires |
| Flow.QuietArrivesExactly | crates/russh/russh/src/server/encrypted.rs:594-602 | With nothing in flight: all that a side was given has arrived if it has closed or the other side has not, and for a client only then |
| Flow.EverythingArrives | crates/russh/russh/src/session.rs:264-349 | From every reachable state deliveries alone lead to a state where nothing is in flight and all that was submitted to a side has arrived if that side has closed or the other one has not; a client whose peer has closed and which has not loses some of its data |
| Flow.TinyTargetStalls | crates/russh/russh/src/session.rs:264-295 | With a window target of 0 or 1 two submitted bytes reach a state with nothing in flight and data waiting, so the target of at least 2 that the absence of deadlock asks for is exact |
| Endings.FarewellsMeanEverythingArrived | crates/russh/russh/src/session.rs:237-254 | In every reachable state: when EOF or CLOSE is the next message of an open receiver, it has been given all that its peer had submitted when it queued that message; for CLOSE that is all ever submitted |
| Endings.ClientAnswersClose | crates/russh/russh/src/client/encrypted.rs:360-370 | A client answers CLOSE at once exactly when no data waits |
| Endings.StrandedForever | crates/russh/russh/src/client/encrypted.rs:360-370 | Data that waits behind a peer that has closed stays for ever: no later run sends anything more on the channel |
| Endings.UnansweredForever | crates/russh/russh/src/client/encrypted.rs:360-370 | A client with waiting data whose next message is CLOSE never answers it: no later run sends a CLOSE, and the data stays queued |
| Endings.AnswersCloseExactly | crates/russh/russh/src/client/encrypted.rs:360-370 | In every reachable state in which a client's next message is CLOSE: some later run contains its answer if and only if no data waits |
| Endings.CloseMeetsWaitingData | crates/russh/russh/src/client/encrypted.rs:360-370 | A concrete run from a fresh channel in which a client has CLOSE before it and data waiting |
| Endings.ServerNeverAnswers | crates/russh/russh/src/server/encrypted.rs:594-602 | In every reachable state in which CLOSE is the next message of a server's open channel: a later run contains a CLOSE of its own if and only if its application closes, with no data waiting, before CLOSE is read; after that no run does, whatever is asked of it |
| Endings.ServerLeavesCloseUnanswered | crates/russh/russh/src/server/encrypted.rs:594-602 | A concrete run from a fresh channel in which a client closes and its server, with nothing waiting, drops the channel without an answer |
| Endings.EofsAreCounted | crates/russh/russh/src/session.rs:315-334 | Over any run a side sends as many EOFs as it is asked for one while no data waits plus as it reads grants, with EOF ever deferred, that admit every waiting byte |
| Endings.NotDeferredNotRepeated | crates/russh/russh/src/session.rs:237-244 | With no EOF deferred, a side that is not asked for one sends none in any run |
| Endings.DeferredExactly | crates/russh/russh/src/session.rs:237-244 | Over any run the flag behind repeated EOFs is set exactly by an EOF that was asked for while data waited; one that was sent at once sets nothing |
| Endings.EofGoesOutTwice | crates/russh/russh/src/session.rs:315-334 | A concrete run from a fresh channel in which EOF is asked for once and sent twice |
| Session.PacketRoundTrip | crates/russh/russh/src/session.rs:375-425 | Each channel message that is queued is read back by the peer as the same message for the same channel |
| Session.MessageLayout | crates/russh/russh/src/session.rs:392-415 | Each channel message is its number from RFC 4254, the receiver's channel number and its fields in order, as words and strings, with nothing behind them |
| Session.FramesAppend | crates/russh/russh/src/lib_inner.rs:57-70 | Appending a frame to the queue is appending its payload to the list of payloads |
| Session.FirstFrame | crates/russh/russh/src/session.rs:470-493 | Reading a length and that many bytes at the cursor yields the oldest queued payload and leaves the rest framed |
| Session.SplitIsExact | crates/russh/russh/src/session.rs:383-389 | The 32-bit comparison picks the longest slice that the window admits exactly when offset plus window does not wrap around |
| Session.SendableExactly | crates/russh/russh/src/session.rs:297-313 | As only the head of a queue has been sent from, a flush wraps around if and only if its first round does |
| Session.GrantCanWrap | crates/russh/russh/src/session.rs:383-389 | It can: on a fresh channel confirmed with a window of 2, four bytes are submitted and a window of 2^32 - 1 is granted |
| Session.SumsFit | crates/russh/russh/src/session.rs:383-389 | No round of a flush wraps around when every waiting offset can be added to the window in 32 bits |
| Session.GrantsAreSendable | crates/russh/russh/src/session.rs:383-389 | In every reachable state of two endpoints the next grant can be flushed without an offset wrapping around, which is what `Session.Encrypted.WindowAdjust` asks for |
| Session.Encrypted.PushPacket | crates/russh/russh/src/lib_inner.rs:57-70 | Reserving, writing and patching a length leaves the queue framed with exactly this payload added last |
| Session.Encrypted.Eof | crates/russh/russh/src/session.rs:237-244 | Sends EOF, or defers it behind queued data; other channels and the invariant are kept |
| Session.Encrypted.Close | crates/russh/russh/src/session.rs:246-254 | Sends CLOSE and forgets the channel, or defers it behind queued data; other channels and the invariant are kept |
| Session.Encrypted.AdjustWindowSize | crates/russh/russh/src/session.rs:264-295 | Takes received bytes off the window and re-grants up to the target once it falls below half, as specified; reports whether it did (exactly when: `Flow.GrantsExactly`) |
| Session.Encrypted.PushPackets | crates/russh/russh/src/session.rs:392-424 | The loop pushes exactly the packets of the specification, as frames, in order |
| Session.Encrypted.DataNoqueue | crates/russh/russh/src/session.rs:375-425 | Sends the longest slice from the offset that the window admits, charges the window and returns its length, when offset plus window does not wrap |
| Session.Encrypted.Data | crates/russh/russh/src/session.rs:427-468 | Submits data as specified, queueing what does not fit, and keeps the session invariant |
| Session.Encrypted.SendFromHead | crates/russh/russh/src/session.rs:297-313 | One round of `flush_channel`: pops the head, sends what fits, puts a rest back in front; the sum must not wrap only if it is taken |
| Session.Encrypted.FlushChannel | crates/russh/russh/src/session.rs:297-313 | The loop reaches exactly the specified flush, reporting bytes written and whether the queue is empty, whenever no round that it makes wraps around |
| Session.Encrypted.SendFarewells | crates/russh/russh/src/session.rs:315-334 | After a complete flush: EOF if deferred, then CLOSE if deferred, which forgets the channel |
| Session.Encrypted.FlushPending | crates/russh/russh/src/session.rs:336-349 | Flush and farewells together restore the session invariant after a window was raised |
| Session.Encrypted.WindowAdjust | crates/russh/russh/src/server/encrypted.rs:654-678 | The handler raises the window (saturating) and flushes at once, which keeps the session invariant |
| Session.Encrypted.FlushAllPending | crates/russh/russh/src/session.rs:351-356 | In a valid session the flush at the end of a rekey changes neither the channels nor the queue |
| Session.Encrypted.Confirm | crates/russh/russh/src/client/encrypted.rs:322-359 | Fills in the peer's channel, window and packet size and leaves its own window and what waits, or reports an unknown channel; the session stays valid exactly when the packet size is positive and no data waits or the window is 0 |
| Session.Encrypted.NewChannel | crates/russh/russh/src/session.rs:506-538 | The new channel gets the first free number after the last one given out, wrapping around, which is then the last one given out; it is unconfirmed with a shut window. The search ends because some number is free |
| Session.Encrypted.Flush | crates/russh/russh/src/session.rs:470-504 | Hands the writer exactly the queued payloads, once each and in order, leaves the queue empty with the cursor at 0, and asks for a rekey exactly when wanted or over a limit and exchanges are not skipped |
| Codec.CtrRoundTrip | crates/russh/russh/src/cipher/block.rs:216-224 | Applying the positioned keystream twice at one position gives the data back |
| Codec.CbcRoundTrip | crates/russh/russh/src/cipher/cbc.rs:35-51 | Decrypting what was encrypted from the same chain value gives the data back, aligned or not |
| Codec.CbcDecryptPrefix | crates/russh/russh/src/cipher/block.rs:96-120 | Decrypting a prefix of whole blocks gives that prefix of the plaintext, so peeking at the length is harmless |
| Codec.CbcLeavesTail | crates/russh/russh/src/cipher/cbc.rs:35-51 | The chunk loop leaves an incomplete last block as it was: the reason why padding must align |
| Codec.PaddingAligns | crates/russh/russh/src/cipher/block.rs:160-181 | For every cipher shape and payload length padding lies in 4..19, aligns the encrypted part to its block, and the packet reaches the minimum length |
| Codec.DataRoundTrip | crates/russh/russh/src/cipher/block.rs:126-208 | Decrypting encrypted data gives the data back and leaves both cipher states equal (that they have moved on: `Sealing.SealFollows`) |
| Codec.SealShape | crates/russh/russh/src/cipher/mod.rs:225-260 | Sealing keeps the length, adds a tag of the cipher's length and keeps the cipher state lawful |
| Codec.OpenSealed | crates/russh/russh/src/cipher/block.rs:126-208 | For all four shapes opening what was sealed under the same state and sequence number gives the packet without its length, and the same next state (what else opens: `Sealing.TagCoversExactly`) |
| Codec.LengthOfSealed | crates/russh/russh/src/cipher/mod.rs:263-292 | The length is read correctly off the first bytes of a sealed packet, encrypted or not |
| Codec.PacketRoundTrip | crates/russh/russh/src/cipher/mod.rs:225-318 | Reading what was written gives the payload and consumes exactly the bytes written, if and only if the packet is at most 256 KiB long; a longer one is the size error |
| Codec.HistoryRoundTrip | crates/russh/russh/src/cipher/mod.rs:225-318 | For every list of payloads and every cipher shape, reading back all that was written gives the same list, leaves what follows, and ends with equal sequence numbers and cipher states |
| Codec.FillPadding | crates/russh/russh/src/cipher/clear.rs:86-93 | Padding is zeros for the clear and ChaCha ciphers and random otherwise, of the requested length |
| Codec.Key.Write | crates/russh/russh/src/cipher/mod.rs:225-260 | Appends the specified packet to the buffer, with zeros or the random bytes as padding, counts bytes and sequence number on (what is in the packet: `Sealing.WrittenOnTheWire`) |
| Codec.Key.ReadFrom | crates/russh/russh/src/cipher/mod.rs:263-318 | Reads exactly what the specification reads, with the rest of the stream, the next cipher state and sequence number; otherwise ends in exactly its fault (an incomplete or oversized packet, a length that does not fit, a packet that does not authenticate, under the name the cipher gives it, a slice that panics) with the number unchanged |
| Codec.CbcWrapper.EncryptData | crates/russh/russh/src/cipher/cbc.rs:35-42 | The in-place chunk loop computes CBC encryption of the whole array and leaves the last block in the chain |
| Sealing.XorIsBitwise | crates/russh/russh/src/cipher/block.rs:216-224 | Keystream and chain are mixed in bit by bit: each bit of the result is set exactly if one of the two is |
| Sealing.CbcBlockAt | crates/russh/russh/src/cipher/cbc.rs:35-42 | Every block of CBC ciphertext encrypts its plaintext mixed with the ciphertext block before it, the first one with the chain |
| Sealing.WrittenOnTheWire | crates/russh/russh/src/cipher/mod.rs:225-260 | A written packet is length, padding length, payload and padding in this order; which part is encrypted from which state, and what the tag is computed from, for each cipher shape (encrypt-then-MAC and encrypt-and-MAC, the length as associated data of the AEAD, the length hidden apart) |
| Sealing.PaddingIsLeast | crates/russh/russh/src/cipher/block.rs:160-181 | No smaller padding of 4 or more aligns the packet and reaches the minimum length |
| Sealing.SealFollows | crates/russh/russh/src/cipher/block.rs:187-208 | Sealing moves the state on: the GCM nonce by one, the CTR position by exactly the bytes encrypted, the CBC chain to the last ciphertext block of the packet |
| Sealing.PacketAt | crates/russh/russh/src/cipher/mod.rs:225-260 | Each packet of a history is sealed in the state and under the number that the packets before it left, right behind their bytes |
| Sealing.NumbersAt | crates/russh/russh/src/cipher/gcm.rs:88-102 | After n packets the sequence number has counted on by n modulo 2^32 and the GCM nonce by n steps |
| Sealing.NoncesNeverRepeat | crates/russh/russh/src/cipher/gcm.rs:88-102 | Of up to 2^96 packets written under one AES-GCM key no two are sealed under the same nonce |
| Sealing.KeystreamNeverRepeats | crates/russh/russh/src/cipher/block.rs:216-224 | Of the packets written under one CTR key no two use the same part of the keystream, and none of it is skipped between them |
| Sealing.ForgeryIsRefused | crates/russh/russh/src/cipher/block.rs:126-153 | Reading a written packet with any other tag of the right length ends in the cipher's own refusal, for block ciphers and ChaCha20-Poly1305, whatever follows on the stream |
| Sealing.GcmRefusesExactly | crates/russh/russh/src/cipher/gcm.rs:123-145 | A whole packet of acceptable length is refused under AES-GCM exactly if the AEAD refuses it under the current nonce with the length as associated data |
| Sealing.TagCoversExactly | crates/russh/russh/src/cipher/block.rs:126-153 | Under the tag of a sealed packet any other ciphertext, state or sequence number opens if and only if the MAC does not tell them apart: number and ciphertext are both covered, or the plaintext for encrypt-and-MAC |
| Sealing.AnyBodyIsRead | crates/russh/russh/src/cipher/mod.rs:263-318 | Whatever body a peer seals, with right or wrong padding: as many bytes are cut off as its first byte says, up to all; more than there are, or a body above 256 KiB, is the respective error |
| Sealing.PartOfPacketIsIncomplete | crates/russh/russh/src/cipher/mod.rs:263-298 | A proper prefix of a written packet is waited for, never read |
| Sealing.ShortLengthPanics | crates/russh/russh/src/cipher/mod.rs:288-295 | A length shorter than what was read to learn it makes the reader slice past the end, exactly if length and tag together are under 12 bytes |
| Negotiation.FirstCommonMeans | crates/russh/russh/src/negotiation.rs:394-441 | The choice is the first of the client's names that the server lists; there is none exactly when the lists are disjoint |
| Negotiation.SelectLoop | crates/russh/russh/src/negotiation.rs:394-441 | The double loop of both `select`s finds exactly that choice and reports whether both sides had it first |
| Negotiation.Filter | crates/russh/russh/src/negotiation.rs:86-101 | Keeps exactly the names that satisfy the condition |
| Negotiation.PossibleHostKeyAlgos | crates/russh/russh/src/negotiation.rs:86-101 | Exactly the preferred algorithms for which a key is available |
| Negotiation.SplitJoin | crates/russh/russh/src/helpers.rs:26-34 | A name list survives the wire, except that the empty list arrives as one empty name |
| Negotiation.SelectAgrees | crates/russh/russh/src/negotiation.rs:389-441 | Client and server make the same choice although each knows its own list as the local one |
| Negotiation.KexAgrees | crates/russh/russh/src/negotiation.rs:240-268 | The key exchange is the same on both sides, extension names and unknown names filtered differently notwithstanding |
| Negotiation.StrictAgrees | crates/russh/russh/src/negotiation.rs:269-290 | Both sides see strict key exchange requested and provided exactly when the client lists its marker and the server its own |
| Negotiation.ListsAgree | crates/russh/russh/src/negotiation.rs:291-383 | Host key, cipher, MAC and compression lists are read by either side into the agreement |
| Negotiation.BothSidesAgree | crates/russh/russh/src/negotiation.rs:232-554 | Each side, reading the KEXINIT the other wrote, arrives at the agreement that the two preference lists determine: both fail for the same reason or both succeed with identical names, strict flag included |
| Negotiation.AgreedIsUsable | crates/russh/russh/src/server/kex.rs:242-255 | What is agreed can be used: both sides implement the key exchange, the server has a key for the host key algorithm, cipher and compression are on both lists, so the lookups after negotiation never fail |
| Negotiation.AnyInitIsRead | crates/russh/russh/src/negotiation.rs:232-383 | What either role makes of any KEXINIT whatever: each name is the first of the client's list that the server has, failures come in the order of the lists, the server-to-client cipher list counts for nothing, and a guessed packet is ignored exactly if one follows and the first key exchanges or the first host keys differ |
| Negotiation.AcceptedIsComplete | crates/russh/russh/src/negotiation.rs:232-383 | And nothing else is accepted: what negotiation succeeds on is 17 bytes, ten whole name lists and at least one byte behind them |
| Negotiation.InitLayout | crates/russh/russh/src/negotiation.rs:443-554 | What is written is message number 20, the cookie, the lists in their order, the same for both directions, no languages, no guess, and the reserved word 0 |
| Negotiation.AnnouncedExactly | crates/russh/russh/src/negotiation.rs:458-479 | Each role announces all its key exchanges but the other role's two marker names |
| Negotiation.KeyServes | crates/russh/russh/src/negotiation.rs:77-84 | An RSA key serves exactly the three RSA algorithms, any other key exactly the algorithm of its own name |
| KeyMaterial.EncodeMpint | crates/russh/russh/src/kex/mod.rs:500-515 | Writes the minimal non-negative mpint of the same number, and indexes past the end of its input if and only if that is a string of zeros, the number 0 |
| KeyMaterial.MinimalIsUnique | crates/russh/russh/src/kex/mod.rs:500-515 | A number has one minimal body, so the encoding does not depend on leading zeros |
| KeyMaterial.Advance | crates/russh/russh/src/cipher/gcm.rs:88-102 | The carry loop returns the old nonce and replaces it by its successor |
| KeyMaterial.AddedCounts | crates/russh/russh/src/cipher/gcm.rs:88-102 | The successor is one more as a big-endian number, modulo 256 to the length |
| KeyMaterial.AdvancedCounts | crates/russh/russh/src/cipher/gcm.rs:88-102 | After n steps the nonce is n more, modulo 256 to the length |
| KeyMaterial.NoncesAreDistinct | crates/russh/russh/src/cipher/gcm.rs:88-102 | A later nonce equals an earlier one exactly when a full cycle of 256 to the length steps lies between them |
| KeyMaterial.ComputeKey | crates/russh/russh/src/kex/mod.rs:405-442 | For a hash that is never empty the expansion loop ends with a key of the requested length that is made of blocks as section 7.2 of RFC 4253 has them: K1 = hash(K, H, letter, session id), each further one the hash of K, H and all before it, joined and cut off (`KeyMaterial.IsKey`) |
| KeyMaterial.KeyIsUnique | crates/russh/russh/src/kex/mod.rs:405-442 | There is only one such key for each secret, hash, session id, letter and length |
| KeyMaterial.FirstBlockTellsApart | crates/russh/russh/src/kex/mod.rs:405-418 | Under an injective hash another letter, session id, or secret or exchange hash of the same length, starts with another first block |
| KeyMaterial.StreamGrows | crates/russh/russh/src/kex/mod.rs:405-442 | More rounds only extend the key stream |
| KeyMaterial.DerivedIsPrefix | crates/russh/russh/src/kex/mod.rs:405-442 | The derived key is the prefix of the key stream however far that is taken |
| KeyMaterial.ShorterIsPrefix | crates/russh/russh/src/kex/mod.rs:405-442 | A shorter key is a prefix of a longer one for the same letter |
| KeyExchange.Begins | crates/russh/russh/src/client/mod.rs:1562-1580 | `begin_rekey` sends the one KEXINIT due and records it in the transcript, on either side |
| KeyExchange.ClientInBegun | crates/russh/russh/src/client/kex.rs:103-180 | On the server's KEXINIT the client sends exactly the message due next and moves on |
| KeyExchange.ServerInBegun | crates/russh/russh/src/server/kex.rs:99-162 | On the client's KEXINIT the server moves on in silence |
| KeyExchange.InGexing | crates/russh/russh/src/client/kex.rs:181-229 | The group exchange message due moves either side on to Diffie-Hellman with the same group |
| KeyExchange.ClientInDhing | crates/russh/russh/src/client/kex.rs:230-320 | On the reply of a server that keeps to the protocol the client completes the transcript, derives the keys both sides must have and sends NEWKEYS, numbering from 0 under strict key exchange (any other reply: `KexTrust.BadReplyIsTheEnd`) |
| KeyExchange.ServerCompletes | crates/russh/russh/src/server/kex.rs:240-290 | What the server completes on the client's ephemeral is the one transcript of this exchange, with the one secret |
| KeyExchange.ServerInDhing | crates/russh/russh/src/server/kex.rs:204-314 | On the client's ephemeral the server completes the same transcript, derives the same keys and sends reply and NEWKEYS |
| KeyExchange.InClosing | crates/russh/russh/src/client/kex.rs:321-343 | On NEWKEYS either side starts the next epoch with those keys, the first session id kept, reading from 0 under strict key exchange |
| KeyExchange.Receives | crates/russh/russh/src/client/mod.rs:1607-1712 | Whatever stage an endpoint is in, the kex message due moves it to the canonical next state and sends exactly what is due |
| KeyExchange.StepKeeps | crates/russh/russh/src/server/mod.rs:1074-1170 | Sending any packet, starting a rekey and delivering a packet, which is opened under the reader's keys and number, keep the invariant that ties both endpoints that have not failed and both wires together |
| KeyExchange.SeqnLockstep | crates/russh/russh/src/client/mod.rs:1638-1703 | In every reachable state the next packet of an endpoint that has not failed is opened with the sequence number it was sealed with |
| KeyExchange.EpochMismatchExactlyWhenLate | crates/russh/russh/src/client/mod.rs:1584-1595 | For an endpoint that has not failed, the next packet meets the keys it was sealed with exactly when its sender was not between sending NEWKEYS and receiving it; a packet sent in between meets the next keys |
| KeyExchange.CompletedExchangesAgree | crates/russh/russh/src/kex/mod.rs:444-490 | Endpoints that completed equally many exchanges hold the same session id and strict flag, and each seals with exactly what the other opens with |
| KeyExchange.TranscriptsAgree | crates/russh/russh/src/client/kex.rs:230-320 | While both wait for NEWKEYS of one exchange they hold the same transcript, hash, names and session id |
| KeyExchange.SessionIdIsFirstHash | crates/russh/russh/src/session.rs:124-141 | A session exists exactly once an exchange is complete, and its id is the hash of the first exchange, however many follow |
| KexFailures.FailsExactlyOverLatePackets | crates/russh/russh/src/client/mod.rs:1112-1115 | Over any number of rekeys, started by either side or both at once, with any other traffic: an endpoint ends in an error if and only if the agreed cipher encrypts and a packet was delivered to it that its peer had sent between its own NEWKEYS and the one it waited for |
| KexFailures.FailsExactlyOverLateSends | crates/russh/russh/src/client/mod.rs:1140-1148 | A run can be continued by deliveries into an error if and only if the agreed cipher encrypts and some endpoint sent other traffic between its own NEWKEYS and the one it waited for |
| KexFailures.NeverFails | crates/russh/russh/src/client/mod.rs:1607-1712 | A run in which nothing is sent late has no error, whatever rekeys it contains |
| KexFailures.LatePacketIsReachable | crates/russh/russh/src/server/encrypted.rs:611-652 | A concrete run in which a server sends one more packet after its NEWKEYS and the client fails over it |
| KexFailures.StrictNeedsSession | crates/russh/russh/src/client/mod.rs:1619-1622 | For any two sides and any run: an endpoint with strict key exchange turned on has a session, so the strict message tables, consulted only without one, are never consulted |
| KexLockstep.InStepWithoutStrict | crates/russh/russh/src/client/mod.rs:1638-1703 | Without strict key exchange the numbers stay in step whatever is negotiated, errors included |
| KexLockstep.NoneUnderStrictBreaksStep | crates/russh/russh/src/client/kex.rs:139-161 | Under strict key exchange the skipped exchange `none` breaks the step: reading starts at 0 at KEXINIT while NEWKEYS follows with number 1 |
| KexLockstep.SkippedExchangeNeedsClearCipher | crates/russh/russh/src/client/kex.rs:139-161 | With the skipped exchange `none`, strict or not, the client's NEWKEYS ends the server's connection exactly if the agreed cipher encrypts |
| KexLockstep.InStepExactly | crates/russh/russh/src/server/kex.rs:126-148 | Sequence numbers stay in step over every run if and only if the two sides do not agree on both strict key exchange and a skipped exchange |
| KexTrust.WaitingKeysAreGrounded | crates/russh/russh/src/client/kex.rs:230-320 | Whatever messages a client is given, by anyone: keys that wait for NEWKEYS are those of a hash over its own transcript, with a KEXINIT it read and names read off that, for which a reply it read carries a signature that verifies under the host key in it |
| KexTrust.SessionIsGrounded | crates/russh/russh/src/client/kex.rs:321-343 | And so are the keys of any session it has and the session id, for the last and the first exchange, unless it read a KEXINIT that agrees on an exchange that is skipped |
| KexTrust.ExchangeIsAccepted | crates/russh/russh/src/client/kex.rs:127-137 | In any such run the group of a group exchange is one the client accepts, and under strict key exchange its first KEXINIT was read with the counter at 0 |
| KexTrust.FailsExactlyIfRefused | crates/russh/russh/src/client/kex.rs:103-343 | Either role, in any stage and over any payload, ends in an error exactly if the payload is one it must refuse: another message than the one due, no agreement, strict key exchange too late, a group it does not accept, a signature that does not verify |
| KexTrust.RefusalChangesNothing | crates/russh/russh/src/client/kex.rs:103-343 | A refused payload changes no keys, exchange or session, and nothing is sent but the KEXINIT of an exchange it began |
| KexTrust.BadReplyIsTheEnd | crates/russh/russh/src/client/kex.rs:291-294 | A reply that does not verify is the end: the client sends nothing, and no later input gives it keys |
| KexTrust.GuessIsSkipped | crates/russh/russh/src/client/kex.rs:238-247 | The packet behind a wrong guess is skipped whatever it is, and only that one |
| KexTrust.ReadingCounts | crates/russh/russh/src/client/mod.rs:1656-1699 | For any payload: only the end of an exchange raises the epoch and touches strict key exchange; none turns it off, one ended by NEWKEYS turns it on exactly if it was agreed on, and under it reading starts at 0; any other packet is counted by one |
| KexTrust.StrictOnceAlways | crates/russh/russh/src/client/mod.rs:1656-1657 | Once agreed, strict key exchange stays on, whatever the peer offers later |
| Connection.TranscriptIsUnambiguous | crates/russh/russh/src/kex/curve25519.rs:120-148 | The bytes that are hashed determine both identifications, both KEXINITs, the host key, both ephemerals and the secret |
| Connection.TranscriptInOrder | crates/russh/russh/src/kex/curve25519.rs:120-148 | What is hashed starts with both identifications, both KEXINITs, the host key and both ephemerals, client's first, as strings in this order, and ends with the secret |
| Connection.ReadsAgreement | crates/russh/russh/src/negotiation.rs:232-383 | In first exchanges and strict rekeys alike either side reads the same agreement off the other's KEXINIT |
| Connection.AgreementIsLawful | crates/russh/russh/src/client/kex.rs:103-126 | Preference lists with an agreement meet every assumption that the runs of the two machines rest on |
| Connection.KeysInUse | crates/russh/russh/src/kex/mod.rs:444-490 | In every reachable state each side that completed an exchange seals and opens with exactly the keys of section 7.2 of RFC 4253, block by block: letters C, A, E towards the server and D, B, F back, for key, IV and MAC key, under the agreed names and the first session id |
| Connection.NoAgreementNoSession | crates/russh/russh/src/client/kex.rs:117-126 | Preference lists without an agreement never lead to a session on either side in any run, and each side fails when the other's KEXINIT reaches it |
| Auth.ServerSession.ProcessPacket | crates/russh/russh/src/server/encrypted.rs:47-137 | One packet changes state, user, counters, replies, channels and whether the connection has ended exactly as specified, errors of the handler included |
| Auth.ServerSession.ReadAuthRequest | crates/russh/russh/src/server/encrypted.rs:168-292 | Dispatch on service and method does what the specification of each method says |
| Auth.ServerSession.ReadAuthRequestPk | crates/russh/russh/src/server/encrypted.rs:300-481 | Key queries and signed requests do what the specification says, certificates and parse errors included |
| Auth.ServerSession.ReplyInfoResponse | crates/russh/russh/src/server/encrypted.rs:537-580 | Each answer of the handler to keyboard-interactive has its specified effect |
| Auth.ServerSession.RejectAuthRequest | crates/russh/russh/src/server/encrypted.rs:484-500 | A rejection is said, forgets the request in progress and is counted |
| Auth.ServerSession.ChannelOpenGeneric | crates/russh/russh/src/server/session.rs:1130-1174 | Opening a channel towards the client succeeds exactly after login |
| Auth.StateAdvances | crates/russh/russh/src/server/encrypted.rs:47-137 | The state never goes back, and login is reached exactly when the handler accepts a user it was asked about |
| Auth.OneAnswerEach | crates/russh/russh/src/server/encrypted.rs:168-292 | Every request or response that does not end the connection gets exactly one answer, and a rejection is counted exactly when it is said |
| Auth.GrantedExactly | crates/russh/russh/src/server/encrypted.rs:502-506 | USERAUTH_SUCCESS is said by an event exactly when it grants a login, and nothing else is said with it |
| Auth.RunOfPrefix | crates/russh/russh/src/session.rs:124-141 | Over any run, rekeys included, the state never goes back and an ended connection stays as it is |
| Auth.SuccessExactlyOnce | crates/russh/russh/src/server/encrypted.rs:70-137 | Over any run USERAUTH_SUCCESS was said exactly once by a connection that is logged in and never by one that is not |
| Auth.RunIsAttributed | crates/russh/russh/src/server/encrypted.rs:345-379 | A request in progress belongs to the user of the last request, and a key in progress is that of the last offer the handler accepted, made for that user |
| Auth.LoginHasACause | crates/russh/russh/src/server/encrypted.rs:168-481 | A connection that is logged in had one event at which the handler accepted the user of the last request; by public key only with a verified signature and with the last accepted offer, then or before, being one for the same user |
| Auth.NoChannelBeforeSuccess | crates/russh/russh/src/server/encrypted.rs:583-593 | No channel, and no reply about one, before USERAUTH_SUCCESS |
| Auth.RecordedUserExactly | crates/russh/russh/src/server/encrypted.rs:225-254 | After a login the recorded user is the accepted one exactly unless the method was `none` and the user recorded before, usually nobody, is another |
| Auth.NoneLogsNobodyIn | crates/russh/russh/src/server/encrypted.rs:225-254 | A concrete run in which a user logs in by `none` and nobody is recorded |
| Auth.PartialSuccessReportedExactly | crates/russh/russh/src/server/encrypted.rs:184-224 | A handler's partial success reaches the client exactly for keyboard-interactive; for password, none and public key it is always overwritten |
| Auth.PartialPasswordLooksWrong | crates/russh/russh/src/server/encrypted.rs:184-224 | A concrete run in which a password accepted as one of several factors is answered with a plain failure |
| Auth.SignedWithoutOfferStaysRejected | crates/russh/russh/src/server/encrypted.rs:369-420 | While a user is recorded and no offer stands, signed requests are rejected whatever handler and signature would say, however many follow |
| Auth.UnaskedKeyConsideredExactly | crates/russh/russh/src/server/encrypted.rs:369-420 | For a client that signs without asking first, any number of times: the handler is asked about a key if and only if every key before it was accepted as an offer, carried a good signature and was turned down in the end, or named no user and failed |
| Auth.SecondKeyIsIgnored | crates/russh/russh/src/server/encrypted.rs:369-420 | A concrete run in which the first key is refused and the second, which the handler would accept, is never considered |
| Auth.SecondKeyLogsIn | crates/russh/russh/src/server/encrypted.rs:369-420 | A concrete run in which the first key is turned down after its signature was verified and the second logs in |
| Auth.RejectionsNeverEndIt | crates/russh/russh/src/server/encrypted.rs:484-500 | No number of refused requests and responses, of any methods and in any order, with any rounds of prompts between them (wrong passwords, sent or typed, refused `none`, refused keys, bad signatures), ends the connection; each is answered, and counted exactly if the answer is a failure |
| Auth.EndsExactly | crates/russh/russh/src/server/encrypted.rs:47-137 | What ends a connection, for every state and event: a field that does not decode, another service, a key that cannot be parsed, an answer without meaning for keyboard-interactive, or an error of the handler, opening a channel included; no count is among it |
| Auth.CountsNeverMatter | crates/russh/russh/src/server/mod.rs:91 | In any run attempts made, rejections counted and the configured maximum of attempts influence nothing: connections that differ only in them say the same, end alike and log in alike |
| Auth.SignedKeyIsOfferedKeyExactly | crates/russh/russh/src/server/encrypted.rs:345-379 | When a signed request logs in, its key is that of the last offer the handler accepted if and only if no earlier offer was standing or the standing one is for this key |
| Auth.OtherKeyLogsIn | crates/russh/russh/src/server/encrypted.rs:345-379 | A concrete run in which the handler accepts the offer of one key, never that of a second, and a signature by the second logs in |
| AuthReplies.GreetingExactly | crates/russh/russh/src/server/encrypted.rs:69-88 | The first service request is accepted, then the banner is shown if there is one, and the configured methods are what can be used |
| AuthReplies.ChannelAnsweredExactly | crates/russh/russh/src/server/encrypted.rs:1103-1200 | After login a channel is confirmed exactly if its kind is supported and the handler allows it; otherwise a failure is said and none is opened |
| AuthReplies.MethodsLeftExactly | crates/russh/russh/src/server/encrypted.rs:184-254 | A refusal names the methods left: the handler's list if its answer decided the request and has one, else those left before without the password or `none` just refused; what is reported of partial success is exact as well, and nothing stays in progress |
| AuthReplies.PartialSuccessIsRepeated | crates/russh/russh/src/server/encrypted.rs:274-287 | A concrete run in which partial success of a prompt is reported again to a request for a method that does not exist |
| AuthReplies.StruckStaysOff | crates/russh/russh/src/server/encrypted.rs:184-211 | Once a password, or `none`, has been refused, no failure in any later run offers it again, unless the handler lists methods |
| AuthReplies.RecordedAfterRefusal | crates/russh/russh/src/server/encrypted.rs:184-480 | Whom the server records after a refusal, for every method: nobody after the handler's verdict on a password, `none` or a key, the asked user after a refused prompt, and the first to sign if nobody was recorded |
| AuthReplies.AttemptsAreCounted | crates/russh/russh/src/server/encrypted.rs:98 | Every request is counted that does not end the connection, and one that logs in even if its greeting does |
| AuthReplies.BadKeyIsRefused | crates/russh/russh/src/server/encrypted.rs:327-345 | A certificate out of date or with a bad signature, and a key of an unknown algorithm, are refused without asking the handler, and nobody logs in |
| AuthReplies.PromptsUntilVerdict | crates/russh/russh/src/server/encrypted.rs:508-580 | The handler's prompts go out unchanged, round after round, while the request stays in progress for its user; the next response logs that user in exactly if the handler accepts |
| AuthReplies.QueryThenSign | crates/russh/russh/src/server/encrypted.rs:345-456 | A key the handler takes is confirmed with its own algorithm and bytes; the same user's signature then logs in exactly if it verifies and the handler accepts, without asking about the key again |
| CryptoVec.Doubles | crates/russh/russh-cryptovec/src/cryptovec.rs:209-247 | A power of two above another is at least its double: the step behind the bound on copied bytes |
| CryptoVec.CryptoVec.Zeroed | crates/russh/russh-cryptovec/src/cryptovec.rs:163-171 | A new vector of zeros, with the invariant |
| CryptoVec.CryptoVec.WithCapacity | crates/russh/russh-cryptovec/src/cryptovec.rs:174-186 | An empty vector with room for at least the requested bytes, with the invariant |
| CryptoVec.CryptoVec.Resize | crates/russh/russh-cryptovec/src/cryptovec.rs:209-247 | Truncates or really appends zeros, with a new block exactly when the size exceeds the capacity; then the block given up is zero, and the copied bytes grow by exactly the old size; the bytes ever copied are zero or fewer than the capacity |
| CryptoVec.CryptoVec.Reallocate | crates/russh/russh-cryptovec/src/cryptovec.rs:220-246 | Moves the contents to a larger block, copying exactly the old size, and leaves the old block entirely zero when it is freed, although only its first bytes are wiped |
| CryptoVec.CryptoVec.Clear | crates/russh/russh-cryptovec/src/cryptovec.rs:257-259 | Empties the vector in its block, erasing what was in use, and copies nothing |
| CryptoVec.CryptoVec.Push | crates/russh/russh-cryptovec/src/cryptovec.rs:262-266 | Appends one byte, keeps the invariant, and leaves any block it gives up zero |
| CryptoVec.CryptoVec.Extend | crates/russh/russh-cryptovec/src/cryptovec.rs:331-337 | Appends the slice, keeps the invariant, and leaves any block it gives up zero |
| CryptoVec.CryptoVec.Read | crates/russh/russh-cryptovec/src/cryptovec.rs:270-289 | Appends what the reader reports to have read, nothing if it fails, erases whatever else it scribbled, and leaves any block it gives up zero |
| CryptoVec.CryptoVec.ResizeMut | crates/russh/russh-cryptovec/src/cryptovec.rs:319-323 | Hands out a zeroed slice behind the old contents, and leaves any block it gives up zero |
| CryptoVec.CryptoVec.Drop | crates/russh/russh-cryptovec/src/cryptovec.rs:363-374 | The block itself is entirely zero when it goes back to the allocator |
| CryptoVec.FromSlice | crates/russh/russh-cryptovec/src/cryptovec.rs:344-351 | A fresh vector that holds exactly the slice |
| EndToEnd.PutKeeps | crates/russh/russh/src/cipher/mod.rs:225-318 | What is sealed onto a stream of bytes is what is read off it next, behind all that it carried before, for every cipher shape |
| EndToEnd.BytesRefineMessages | crates/russh/russh/src/session.rs:470-504 | Over any run, whatever ciphers the two directions use: every packet can be read, the message in it is the next one of the peer's log, and both sides are where the same run of messages takes them |
| EndToEnd.CallSealsTheQueue | crates/russh/russh/src/session.rs:427-504 | What an application call adds to the stream of bytes is, packet by packet, what the session queues for the peer's channel number, sealed by the codec |
| EndToEnd.SubmittedBytesArrive | crates/russh/russh/src/session.rs:375-504 | From bytes submitted to bytes delivered: each application has been given a prefix of what the other submitted, and deliveries alone lead to empty streams and everything delivered, if the sender has closed or the receiver has not |
| ReplayBuffer.LongestSuffixIsUnique | worker/src/session-do.ts:357-366 | The kept chunks are determined by the output history and the budget |
| ReplayBuffer.SshSessionDO.BufferOutput | worker/src/session-do.ts:357-366 | After any calls the buffer is the longest suffix of whole chunks of the output history that fits the budget, or the last chunk alone, and the size is the sum of the kept lengths |
| ReplayBuffer.SshSessionDO.Cleanup | worker/src/session-do.ts:353-354 | Empties buffer, size and history |

## Left out

Outside the model:

- Sockets, tasks, timers, keepalives and rejection delays: the order of events is arbitrary instead.
- Compression: the negotiated name is modelled, `flate2` is not, and packets are written as without it; so `packet_raw` never fails.
- The primitives (AES, ChaCha20, Poly1305, HMAC, curves, signatures, ML-KEM): abstract functions under the laws named above.
- DISCONNECT, IGNORE, DEBUG, UNIMPLEMENTED, EXT_INFO, global requests and channel requests: no property here speaks of them.
- Whether a client trusts the host key it is shown (`check_server_key`), and key files and agents.
- The strict kex message tables: never consulted, as said above.
- The mirror of the window in `ChannelTx`: client and server update it differently, and the proofs are about `Encrypted`.
- The client's side of authentication, and certificate contents beyond their validity and signature.
- Language lists of KEXINIT beyond being empty, and names other than ASCII.
- Allocation failure and `usize` overflow in `CryptoVec`, `mlock`, and its formatting and slicing traits.
- Identification strings and their parsing: they enter the transcript as given bytes.

Assumed of callers, because the code needs it:

- The peer's maximum packet size is positive (otherwise the packet loop makes no progress), and a confirmation arrives exactly once and before any data.
- A submitted buffer plus the largest window target, and a buffer plus the 13 bytes of a message header, stay below 2^32.
- Window targets are at least 2.
- Shared secrets are not zero, as zero has no encoding.
- Every key exchange a side prefers is one it implements, and both builds agree on which ciphers need a MAC.

Weaker than the source in places:

- Flow.PerformKeepsPair: calls before the confirmation are left out. There the source panics on data (`data` and `extended_data` assert a confirmed channel) and sends EOF and CLOSE to channel 0; `Channel.ConfirmationKeepsOrder` says what a confirmation does to data that waits all the same. Both endpoints are this implementation.
- Session.Encrypted.DataNoqueue: asks for a positive maximum packet size, as the packet loop would not end otherwise, and that offset plus window does not wrap if they are added, as the slice would panic (`Session.SplitIsExact`).
- Session.Encrypted.SendFromHead: asks for the same of the head of the queue.
- Session.Encrypted.FlushChannel: asks for the same of each round that is made.
- Session.Encrypted.FlushPending: asks for the same of each round that is made.
- Session.Encrypted.WindowAdjust: asks for the same under the raised window, which `Session.GrantsAreSendable` shows of every grant of a conforming peer.
- Session.Encrypted.Data: asks for a confirmed channel, as the source asserts.
- Session.Encrypted.Flush: the writer is a log of payloads and elapsed time a flag; `EndToEnd.CallSealsTheQueue` seals those payloads.
- EndToEnd.BytesRefineMessages: for one channel, and under the keys of one exchange; announced packet sizes leave room for header and padding below 256 KiB.
- Codec.Key.ReadFrom: only reads that start a packet; of what is left after a failure only the sequence number is specified, and the connection ends there.
- Sealing.TagCoversExactly: tags have a fixed length, so no MAC tells all packets apart, and what is proved is that exactly its collisions open.
- Sealing.KeystreamNeverRepeats: positions are unbounded; the block counter behind a real keystream wraps around after 2^128 blocks.
- Sealing.AnyBodyIsRead: for bodies of at least 12 bytes, as every sealing key writes them.
- KexTrust.SessionIsGrounded: a host key that does not parse is one that verifies nothing; whether the user trusts the key is left to the handler and not part of the model. No such result is stated for servers, which learn of their client only later.
- Codec.FillPadding: random bytes are given; that they are unpredictable is not expressed.
- Codec.PacketRoundTrip: for packets whose length fits 32 bits.
- KeyExchange.StepKeeps: that a packet sealed under another key or number does not open is how the model reads the ciphers, not proved of them; the clear cipher, which has neither, opens everything. Guessed first packets, which this implementation never sends, are excluded by assumption; group exchange messages are named like the plain ones.
- KeyExchange.SeqnLockstep: traffic other than kex messages is one kind of packet, and a server may not be sent any before the first exchange is over (it would end the connection).
- Connection.TranscriptIsUnambiguous: outside group exchange, whose transcript adds the group parameters.
- Auth.ServerSession.ProcessPacket: messages after login other than CHANNEL_OPEN are not modelled.
- Auth.ServerSession.ReadAuthRequestPk: parsing the key and verifying the signature are given outcomes, not computed from the key.
- Negotiation.SelectLoop: names are compared as bytes.
- CryptoVec.CryptoVec.Resize: on unbounded sizes.
