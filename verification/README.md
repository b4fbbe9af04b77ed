# WireGuard core: verified model

This project models the parts of a C WireGuard implementation (and of the agent around it) that do
arithmetic or change state against a simple specification, and proves that they meet it.

- **Arithmetic.** X25519 on five 51-bit limbs (`Field25519`, `X25519`), Poly1305 on five 26-bit limbs
  (`Poly1305`), ChaCha20 and the AEAD built of the two (`ChaCha20`, `Aead`), and streaming BLAKE2s (`Blake2s`).
  Words are bounded integers: every sum and product has to be shown to stay in range. `Words` holds the bitwise
  operators and byte orders, and `KnownAnswers` ties the word-level steps to published test vectors.
- **The Noise layer.** HMAC and HKDF (`NoiseCrypto`), the IKpsk2 messages and TAI64N timestamps as functions
  (`Handshake`) and as the token patterns of the framework (`Patterns`), the keypair slots, index table and reference counts as a world with one invariant (`Keypairs`),
  the C functions as methods of `Noise.Local`, and the counters with their replay window (`ReplayWindow`).
- **Packet queues.** The parallel and serial queues as a machine whose steps are the critical sections
  (`PacketQueues`), and the queues of one thread (`StagedQueue`).
- **Admission.** The token-bucket table with its garbage collection against buckets that are never forgotten
  (`RateLimit`).
- **Routing and sessions.** The bit trie (`AllowedIps`), the peer table and its runtime commands (`Peers`), and
  the session: tries after every command, sending, receiving, and a packet's way from one session to another
  (`WgSession` in `Session.dfy`).
- **The tunnel and the agent.** The handshake timers of a peer (`Timers`), the planner of the bounded long poll
  (`LongPoll`), and the configuration file with its parser, printer and comparison (`WGConf`).

Where the C code and its intention part, the code is modelled and the difference is a theorem:

- `fe_mul121666` multiplies by 121665, as section 5 of RFC 7748 asks, not by what its name says.
- Overlapping `wg_peer_send_staged` calls for one peer can put nonces on the wire in the wrong order
  (`PacketQueues.OverlapInverts`); without overlap they always rise (`PacketQueues.NoncesRise`).
- A first handshake message that is refused as too soon still uses up its timestamp
  (`Noise.Local.ConsumeInitiation`).
- `peer_tombstone` leaves keypairs in the index table, so that after a remove and an add what they open counts as
  sent by the slot's new occupant (`WgSession.Replace`); `WgSession.CountsForItsPeer` gives the exact condition.
- A report of `wg_session_get_uapi` is refused by `wg_session_set_uapi` at its first line, `private_key`; without
  the refused lines it restores the peers (`Peers.DumpRestores`, `WgSession.Transplant`).

## Model

| member | source | states |
|---|---|---|
| `Field25519.FeFromBytes` | src/curve25519_portable.c:79-102 | 32 bytes become limbs within the tight bounds, whose value is the little-endian number modulo 2^255: the top bit is dropped |
| `Field25519.FeAdd` | src/curve25519_portable.c:157-161 | limbwise addition of tight vectors is addition modulo p, within the bounds that a multiplication accepts |
| `Field25519.FeSub` | src/curve25519_portable.c:163-170 | adding twice p first keeps every limb from going below zero; the result is subtraction modulo p |
| `Field25519.FeMul` | src/curve25519_portable.c:203-231 | the product of loose vectors, for which no 128-bit column overflows, is tight again and is multiplication modulo p |
| `Field25519.FeMul121666` | src/curve25519_portable.c:260-276 | multiplication by 121665 modulo p |
| `Field25519.FeInvert` | src/curve25519_portable.c:278-318 | the chain of 254 squarings and 11 multiplications computes z to the power p - 2 |
| `Field25519.FeToBytes` | src/curve25519_portable.c:105-154 | the bytes are the canonical encoding of the field element, in [0, p), for any tight limbs |
| `X25519.LadderStep` | src/curve25519_portable.c:337-382 | one step doubles the first point and adds the two by the closed formulas of the curve v^2 = u^3 + 486662 u^2 + u in projective coordinates |
| `X25519.LadderBit` | src/curve25519_portable.c:337-382 | one round of swap, differential addition and doubling on the curve takes the point pair of a scalar prefix to that of the next prefix, bounds kept |
| `X25519.FirstRung` | src/curve25519_portable.c:327-336 | the first multiple that the ladder gives is the point itself |
| `X25519.Rfc7748IsLadder` | src/curve25519_portable.c:320-387 | the loop with deferred swaps of section 5 of RFC 7748 gives the same coordinate as the plain Montgomery ladder, for every clamped scalar |
| `X25519.X25519Ladder` | src/curve25519_portable.c:320-387 | for every scalar and point the output is the canonical little-endian encoding of what the ladder over the curve operations gives |
| `X25519.Curve25519` | src/curve25519_portable.c:426-437 | the shared secret is X25519 of both inputs, and success is reported exactly when it is not zero |
| `Poly1305.EvalIsPolynomial` | src/wg_crypto_impl.c:166-213 | the authenticator is the polynomial with the blocks for coefficients, evaluated at the clamped key modulo 2^130 - 5 |
| `Poly1305.KeyRIs` | src/wg_crypto_impl.c:142-163 | which bits of which key bytes the clamp clears |
| `Poly1305.Context.constructor` | src/wg_crypto_impl.c:142-163 | a fresh context stands for the empty message under the clamped key |
| `Poly1305.Context.Block` | src/wg_crypto_impl.c:166-213 | one block multiplies into the accumulator modulo 2^130 - 5 with every product in 64 bits, and leaves limb 1 below 2^26 + 64, the others below 2^26 |
| `Poly1305.Context.Update` | src/wg_crypto_impl.c:216-243 | any split of the message into updates has the effect of absorbing the concatenation |
| `Poly1305.FullCarry26` | src/wg_crypto_impl.c:266-271 | the final carry leaves all five limbs below 2^26, although the last step carries into limb 1 and stops |
| `Poly1305.SubtractOnce` | src/wg_crypto_impl.c:273-288 | the masked selection is reduction modulo 2^130 - 5 |
| `Poly1305.Pack32` | src/wg_crypto_impl.c:290-294 | packing the limbs with OR into 32-bit words loses nothing modulo 2^128 |
| `Poly1305.Context.Finish` | src/wg_crypto_impl.c:246-303 | the tag is that of section 2.5 of RFC 8439 for the key and everything absorbed |
| `KnownAnswers.QuarterRoundVector` | src/wg_crypto_impl.c:29-33 | the quarter round gives the published vector of section 2.1.1 of RFC 8439 |
| `KnownAnswers.DoubleRoundIs` | src/wg_crypto_impl.c:42-51 | the eight quarter rounds are a round over the columns and one over the diagonals of the state |
| `KnownAnswers.BlockWord` | src/wg_crypto_impl.c:52-59 | a block is the state after twenty rounds with the input added, in little-endian words |
| `KnownAnswers.StateIs` | src/wg_crypto_impl.c:63-86 | the state is the spelled-out constant, the key, the counter and the nonce |
| `ChaCha20.XorStreamInvolutive` | src/wg_crypto_impl.c:63-97 | applying the key stream twice gives the data back |
| `ChaCha20.ChaChaXor` | src/wg_crypto_impl.c:63-97 | the buffer is xored in place with the key stream of section 2.4 of RFC 8439, block by block, and bytes outside it are untouched |
| `Aead.OneStream` | src/wg_crypto_impl.c:335-358 | one key stream serves the authenticator key, from block 0, and the data, from block 1 on |
| `Aead.MacDataInjective` | src/wg_crypto_impl.c:319-358 | what is authenticated tells associated data and ciphertext apart |
| `Aead.PacketNonceIs` | src/wg_crypto.c:213-235 | four zero bytes and the little-endian counter; no two counters have the same nonce |
| `Aead.OpenIffSealed` | src/wg_crypto_impl.c:335-391 | opening gives a plaintext exactly when the bytes are the sealing of that plaintext, for every key, nonce, associated data and length |
| `Aead.SealInjective` | src/wg_crypto_impl.c:335-358 | two plaintexts never seal to the same bytes |
| `Aead.AeadEncrypt` | src/wg_crypto_impl.c:335-358 | the buffer path writes ciphertext and tag of section 2.8 of RFC 8439 |
| `Aead.AeadDecrypt` | src/wg_crypto_impl.c:361-391 | success exactly when the tag fits, then the plaintext; otherwise the buffer is not written |
| `Aead.DispatchDecrypt` | src/wg_crypto_impl.c:523-588 | the in-place path gives the verdict and plaintext of the buffer path with empty associated data, and leaves a refused packet alone |
| `Aead.EncryptMbuf` | src/wg_crypto.c:213-235 | a packet buffer ends up as the sealing of its contents under the counter nonce, growing when the tag does not fit |
| `Aead.DecryptMbuf` | src/wg_crypto.c:237-261 | short packets, forged packets and good ones are told apart, and only good ones change |
| `KnownAnswers.IvIsRoots` | src/wg_crypto.c:47-51 | the initial value is the fractional parts of the square roots of the first eight primes |
| `KnownAnswers.WorkVectorIs` | src/wg_crypto.c:106-127 | the work vector at the start of the example of appendix B of RFC 7693 |
| `KnownAnswers.MixVector` | src/wg_crypto.c:128-137 | the first step of that example |
| `Blake2s.State.Update` | src/wg_crypto.c:171-193 | for every split into chunks only the concatenation counts; a full final block is held back and the counter is the number of bytes compressed |
| `Blake2s.State.Final` | src/wg_crypto.c:195-204 | the digest is that of section 3.3 of RFC 7693 of everything absorbed |
| `Blake2s.Blake2s` | src/crypto.h:106-118 | the one-shot form is the RFC 7693 hash, with a key block exactly when the key is not empty |
| `Blake2s.ParameterWord` | src/wg_crypto.c:88-103 | OR-ing the three parameters into the parameter word is adding them, as long as length and key length fit their bytes |
| `NoiseCrypto.ComputeHmac` | src/wg_noise.c:1194-1230 | turning the padded key from inner to outer form in place gives HMAC of RFC 2104 |
| `NoiseCrypto.NoiseKdf` | src/wg_noise.c:1232-1271 | up to three outputs are HKDF outputs of RFC 5869, and the first one not asked for ends the derivation |
| `Patterns.InitiateIsPattern` | src/wg_noise.c:943-996 | the first message is what the pattern e, es, s, ss of IKpsk2, read token by token as in sections 5 and 7.5 of the Noise framework, writes |
| `Patterns.ReadInitiationIsPattern` | src/wg_noise.c:998-1042 | the first message of a peer is read exactly when the pattern reads it and the static key in it is the peer's |
| `Patterns.RespondIsPattern` | src/wg_noise.c:1077-1126 | the second message is what the pattern e, ee, se, psk writes |
| `Patterns.ReadResponseIsPattern` | src/wg_noise.c:1128-1192 | the second message is read exactly when the pattern reads it, to the same chaining key and hash |
| `Patterns.KeysAreSplit` | src/wg_noise.c:649-678 | the session keys are the two of Split, the first for sending by the initiator |
| `Handshake.StampValue` | src/wg_noise.c:1374-1393 | a timestamp is the seconds since the epoch of TAI64N and the nanoseconds cut to multiples of 2^24 |
| `Handshake.FieldOpens` | src/wg_noise.c:1343-1363 | a sealed handshake field opens to what was sealed, and both sides then have the same hash |
| `Handshake.StaticRecovered` | src/wg_noise.c:999-1042 | the responder recovers static key, timestamp, chaining key and hash from an unmodified first message |
| `Handshake.ResponseAccepted` | src/wg_noise.c:1078-1192 | the initiator accepts an unmodified second message and ends with the responder's chaining key and hash |
| `Handshake.KeysMirrored` | src/wg_noise.c:649-678 | what one side sends with, the other receives with |
| `Handshake.BeforeIsLess` | src/wg_noise.c:1044-1050 | comparing timestamps byte by byte is comparing the big-endian numbers |
| `Handshake.StampOrder` | src/wg_noise.c:1374-1393 | byte order of TAI64N timestamps is time order at 2^24 ns within a second, in both directions |
| `Handshake.StampsAdvance` | src/wg_noise.c:1374-1393 | clock readings 2^24 ns apart never give equal or reversed timestamps |
| `Keypairs.StepKeeps` | src/wg_noise.c:600-785 | the invariant of slots, table, indices (no two entries share one) and counts is local: what a step has to establish is about the remote and keypairs it touches |
| `Keypairs.AddKeypairKeeps` | src/wg_noise.c:601-647 | adding a keypair keeps the invariant; the initiator's is used at once, the responder's waits in the next slot, and the displaced ones go |
| `Keypairs.PromoteKeeps` | src/wg_noise.c:726-750 | the first packet on the next keypair moves it up, keeps the invariant and lets data be sent on it |
| `Noise.Local.AddNewKeypair` | src/wg_noise.c:601-647 | the pointer and table updates come to the rotation of the specification, from any valid state |
| `Noise.Local.ReceivedWith` | src/wg_noise.c:726-750 | exactly the keypair in the next slot is promoted; any other changes nothing |
| `Noise.Local.KeypairPut` | src/wg_noise.c:752-785 | the keypair is freed exactly when no slot and no holder refers to it any more |
| `Noise.Local.KeypairLookup` | src/wg_noise.c:680-699 | an index finds exactly the keypair that is in a slot and has it, and takes a reference |
| `Noise.Local.KeypairCurrent` | src/wg_noise.c:701-718 | the current keypair, if it is young enough and not used up, is one that the other side is known to have |
| `Noise.Local.IndexInsert` | src/wg_noise.c:380-409 | the handshake enters the table under an index that nothing else has |
| `Noise.Local.CreateInitiation` | src/wg_noise.c:943-996 | succeeds exactly with an identity, an expired timer and usable secrets; the message is the one of the specification and the handshake is linked |
| `Noise.Local.ConsumeInitiation` | src/wg_noise.c:998-1075 | accepts a message of an enabled peer that is neither replayed nor too soon; the accepted history stays strictly increasing in time stamps and more than the interval apart; a refusal as too soon uses up the timestamp |
| `Noise.HistoryGrows` | src/wg_noise.c:1044-1066 | an accepted timestamp extends the increasing history |
| `Noise.Local.CreateResponse` | src/wg_noise.c:1077-1126 | answers only a consumed first message, with the message of the specification, and begins the session |
| `Noise.Local.ConsumeResponse` | src/wg_noise.c:1128-1192 | accepts exactly an answer to the handshake of ours that has the index; otherwise nothing changes |
| `Noise.Exchange` | src/wg_noise.c:943-1192 | four calls with unmodified messages leave both sides with keypairs of mirrored keys, mirrored indices and opposite roles |
| `Noise.Reinitiate` | src/wg_noise.c:943-1066 | any number of first messages, each more than the rekey timeout after the one before on an advancing clock: none is taken for a replay or a flood, and all are accepted in their turn |
| `ReplayWindow.Counters.NonceNext` | src/wg_noise.c:793-810 | nonces are handed out in order from zero, each once, and none from the limit on |
| `ReplayWindow.Counters.NonceCheck` | src/wg_noise.c:812-855 | accepts exactly the counters below the limit, not too far behind the highest and not accepted before; the ring of 128 words is that set |
| `ReplayWindow.CheckAll` | src/wg_noise.c:812-855 | over any sequence of checks from a fresh keypair a counter is accepted exactly when it is below the limit, no more than 8128 behind each accepted one and none of those; the accepted set is that of the specification |
| `ReplayWindow.ReorderingWithinWindow` | src/wg_noise.c:28-42 | packets never more than a window apart are all accepted, in whatever order they come |
| `PacketQueues.RunKeeps` | src/if_wg.c:1980-2036 | whatever the interleaving of senders, workers and deliverers, the invariant holds all along |
| `PacketQueues.InOrder` | src/if_wg.c:2010-2022 | in every run what has left a serial queue is a prefix of what entered it, and lengths are those of the contents, at most 1024 |
| `PacketQueues.WaitingIsTracked` | src/if_wg.c:1980-2036 | a packet not yet encrypted in a serial queue is in the parallel queue or in exactly one hand, and others are in none |
| `PacketQueues.NoDanglingPacket` | src/if_wg.c:1872-1880 | nothing refers to a freed packet |
| `PacketQueues.FreedExactlyOnce` | src/if_wg.c:1722-1764 | over every run a packet that was staged went back, is still there, or was freed once; of those that entered a queue exactly the delivered ones are freed |
| `PacketQueues.SentIffEncrypted` | src/if_wg.c:1722-1764 | over every run: of the packets whose delivery is over, exactly those are handed to the socket whose encryption some worker has ended with success |
| `PacketQueues.NoncesRise` | src/if_wg.c:2138-2172 | when sends to one peer do not overlap, the nonces handed to the socket rise per keypair in every run |
| `PacketQueues.OverlapInverts` | src/if_wg.c:2138-2172 | two overlapping sends put nonce 1 on the wire before nonce 0 |
| `StagedQueue.PacketQueue.EnlistStaged` | src/if_wg.c:1952-1959 | what comes back joins the queue in order, and the oldest beyond the limit are freed |
| `StagedQueue.PacketQueue.SendStaged` | src/if_wg.c:2138-2172 | all that waited gets consecutive nonces in order, or, without a session or nonces, all of it waits on as before |
| `RateLimit.RateBound` | src/wg_cookie.c:28-36 | over any stretch of events what a source was allowed costs at most a full bucket and the elapsed time |
| `RateLimit.RefusedExactly` | src/wg_cookie.c:445-470 | a source is refused exactly when, from some earlier decision about it on, what was allowed and one more cost more than a full bucket and the time since |
| `RateLimit.CollectionInvisible` | src/wg_cookie.c:392-417 | collecting entries that were idle for a second leaves the table a memory of the unforgotten buckets |
| `RateLimit.RateLimiter.Gc` | src/wg_cookie.c:392-417 | a collection drops exactly the idle entries, at any time; a forced one, which ends the limiter, leaves it as new |
| `RateLimit.RateLimiter.Allow` | src/wg_cookie.c:419-496 | verdict and new table are those of the entry whose bytes match, or of a new entry at the head while there is room; keys stay unique and the count is that of the entries |
| `RateLimit.DecidedRightly` | src/wg_cookie.c:419-496 | the decision is that of the unforgotten bucket exactly when the source has an entry or there is room for one |
| `RateLimit.Limits.Admit` | src/wg_cookie.c:252-263 | each address family is decided about by a table of its own; other families are turned away; without room only when more sources were seen than a table holds, or memory is out |
| `RateLimit.Run` | src/wg_cookie.c:252-496 | over every list of packets and collections: each source is refused exactly when it has overspent, as by a limiter that never forgets, but for refusals when there is no room; with no more than 65536 sources and memory there is none of those; for every source and interval what was allowed costs at most a full bucket and the elapsed time |
| `AllowedIps.SamePrefix` | src/allowedips.c:32-37 | two addresses have the same first n bits exactly when their first n / 8 bytes agree, and the upper n % 8 bits of the next |
| `AllowedIps.LongestIsLongest` | src/allowedips.c:82-97 | the lookup specification names the value of a stored prefix than which no longer stored one matches, or finds none |
| `AllowedIps.Trie.Insert` | src/allowedips.c:56-79 | insert is an update of the map at the first bits of the address only; a failure for lack of memory or a bad length leaves the map |
| `AllowedIps.Trie.Lookup` | src/allowedips.c:82-97 | lookup gives the value of the longest stored prefix |
| `AllowedIps.Trie.Remove` | src/allowedips.c:100-117 | remove deletes exactly the entry of that prefix and says whether there was one; the entry count is the size of the map |
| `Peers.RoutesAre` | src/wg_session.c:1372-1391 | inserting the blocks in order routes a prefix exactly when an active peer lists it, and to the last peer that does |
| `Peers.RouteIsLongest` | src/wg_session.c:525-545 | a destination is routed exactly when an active peer has a block for it, and then to one with a block as long as any, the last of those |
| `Peers.RunAppend` | src/wg_session.c:1417-1579 | a refused command has done exactly what stands before the offending line |
| `Peers.RunDistinct` | src/wg_session.c:1281-1302 | commands never make two active peers of one key |
| `Peers.RunUntouched` | src/wg_session.c:1417-1579 | a peer whose key is not named keeps its slot and everything in it |
| `Peers.RemovedIsGone` | src/wg_session.c:1306-1320 | after a remove that was accepted no active peer has the key |
| `Peers.BlocksReplaced` | src/wg_session.c:1545-1565 | after a replacement the peer has the blocks added since and no others, and what is routed to it lies in one of them |
| `Peers.DumpRestores` | src/wg_session.c:1153-1252 | the peer lines of a report, run from nothing, set up the same peers, closed up, each with a remote of its own |
| `WgSession.Transplant` | src/wg_session.c:1417-1579 | sent to an empty session they are accepted and leave it valid with these peers |
| `WgSession.FourHeader` | src/wg_session.c:525-546 | of a packet with the header of RFC 791, destination, source and length are the fields of that name |
| `WgSession.SixHeader` | src/wg_session.c:525-546 | the same for the header of RFC 8200 |
| `WgSession.HeaderReads` | src/wg_session.c:547-606 | a datagram is the type, index and counter in little-endian bytes and the sealed packet, and the receiver reads them back |
| `WgSession.Session.Configure` | src/wg_session.c:870-916 | after creation the tries are the in-order insertion of the configured blocks, and every peer has an enabled remote with its keys |
| `WgSession.Session.SetUapi` | src/wg_session.c:1417-1579 | accepted or refused, the peers are those of the run of the lines, the tries are the in-order insertion of the active peers' blocks, and the bounds of 8 peers and 16 blocks hold |
| `WgSession.KeysIdentify` | src/wg_session.c:1281-1302 | while active peers have distinct keys, a public key stands for one enabled remote |
| `WgSession.Session.Encap` | src/wg_session.c:547-606 | what is sent is the padded packet sealed on the current keypair under the next nonce, or nothing when there is no endpoint, no live keypair, or more than 2000 bytes; never on a keypair older than 180 seconds or past the nonce limit |
| `WgSession.Session.HandleTun` | src/wg_session.c:961-971 | a packet goes to the peer that its destination is routed to |
| `WgSession.Session.HandleData` | src/wg_session.c:660-735 | a datagram that its keypair opens is delivered cut to its length, exactly when the routes give its source to the keypair's slot; the peer roams to the sender; anything else delivers nothing |
| `WgSession.OnlyFromItsPeer` | src/wg_session.c:660-735 | whatever is delivered was sealed under the keypair's key and no active peer has a better claim to its source address; never under a keypair older than 180 seconds |
| `WgSession.Carry` | src/wg_session.c:547-735 | between sessions with mirrored live keypairs every whole packet of at most 2000 bytes arrives byte for byte exactly when the routes there give its source to the peer it came from |
| `WgSession.CountsForItsPeer` | src/wg_session.c:1306-1320 | a keypair counts for the peer it was agreed with exactly while that peer's remote is enabled |
| `WgSession.Replace` | src/wg_session.c:1306-1320 | after removing a peer and adding another in its slot, the old keypairs are still heard and count for the new peer |
| `Timers.Peer.Tick` | src/wg_core.c:1923-1965 | a tick sends at most one initiation, exactly when one is due and can be sent: a pending handshake is tried again after 5 seconds and given up after 18 initiations, and another is begun at once without a keypair, and otherwise 120 to 150 seconds after the last |
| `Timers.Peer.ConsumeInitiation` | src/wg_core.c:2044-2058 | answering the peer's handshake stamps the keypair and leaves our own handshake pending |
| `Timers.Peer.ConsumeResponse` | src/wg_core.c:2064-2114 | an answer ends the pending handshake and stamps the keypair |
| `Timers.Run` | src/wg_core.c:1892-2114 | whatever happens on a clock that does not run backwards: attempts lie in 0 to 18, initiations are at least 5 seconds apart, all of them belong to handshakes of at most 18, and a peer without a configured endpoint sends none |
| `Timers.GivingUpStartsAgain` | src/wg_core.c:1930-1961 | the tick that gives up begins the next handshake at once, unless a keypair has come to be while the old one was pending and is young |
| `LongPoll.Planner.Next` | WGAgent/Sources/WGAgentCore/LongPoll.swift:85-108 | however late it is asked: a stop is final, a wait fits what is left of the budget, and a sleep ends before the deadline when it begins as soon as planned |
| `LongPoll.Planner.Record` | WGAgent/Sources/WGAgentCore/LongPoll.swift:111-150 | the answer decides mode, sleep and stop; a sleep from now ends before the deadline; a revision leads to a trial, a long enough answer or not-modified to waiting for good; the account of unchanged answers against elapsed time is kept |
| `LongPoll.WaitsNext` | WGAgent/Sources/WGAgentCore/LongPoll.swift:84-154 | after not-modified, and after a first answer with a revision, the next request asks to be held back, for as long as configured or as is left |
| `LongPoll.Drive` | WGAgent/Sources/WGAgentCore/LongPoll.swift:84-154 | over every sequence of answers and delays, however fast, at most 2 + budget/min(minReturn, floor) are unchanged |
| `WGConf.ParseText` | WGAgent/Sources/WGAgentCore/WGConf.swift:60-128 | reading line by line with mutable accumulators is the fold that the theorems are about |
| `WGConf.RenderText` | WGAgent/Sources/WGAgentCore/WGConf.swift:137-160 | appending section by section writes the text of the specification, the peers by key |
| `WGConf.ParseRender` | WGAgent/Sources/WGAgentCore/WGConf.swift:59-160 | the file written for a well-formed configuration (trimmed fields without line feeds that end in no carriage return) reads back as it, with its peers sorted by key |
| `WGConf.RenderStable` | WGAgent/Sources/WGAgentCore/WGConf.swift:59-160 | reading that file and writing it again gives the same bytes |
| `WGConf.RenderForgets` | WGAgent/Sources/WGAgentCore/WGConf.swift:135-160 | peers with distinct keys give the same bytes in any order |
| `WGConf.ParseReadable` | WGAgent/Sources/WGAgentCore/WGConf.swift:86-116 | whatever the text, a configuration that is read has a private key, a public key for each peer, extra keys without an equals sign, and addresses that are neither empty nor hold a comma |
| `WGConf.CommentsSkipped` | WGAgent/Sources/WGAgentCore/WGConf.swift:74-77 | blank lines and comments may stand anywhere |
| `WGConf.KeyTells` | WGAgent/Sources/WGAgentCore/WGConf.swift:165-170 | two peers mean the same exactly when their comparison keys agree and the first two fields are as long |
| `WGConf.FilesCompare` | WGAgent/Sources/WGAgentCore/WGConf.swift:182-193 | any two files mean the same exactly when they compare equal and their comparison keys have the same first two bars; without bars in keys and endpoints the comparison alone tells. Order of addresses and peers and letter case of extra keys do not matter |
| `WGConf.BarsConfuse` | WGAgent/Sources/WGAgentCore/WGConf.swift:167-170 | two files with a bar in a key compare equal and mean different peers |
| `WGConf.WrittenIsEqual` | WGAgent/Sources/WGAgentCore/WGConf.swift:182-193 | a configuration compares equal to the file written for it |

## Left out

- XChaCha20, HChaCha20 and cookies: one more use of the primitives modelled here.
- The 32-bit build and the MSVC multiplication shims: 64-bit words and 128-bit products are modelled, on a little-endian host.
- Constant time, wiping of secrets and all claims of secrecy: the model is about values.
- Noise.Exchange: that X25519 commutes is a hypothesis (`Commute`), and that the four secrets are not zero another; the group law of the curve is not proved.
- Noise.Local: a call is one step; locks, epochs and the moment between slot and index-table update inside a call are not modelled, nor is the counting of references to remotes and their freeing.
- Noise.Local: the identity is set once, before any peer is known; changing it later is not modelled.
- Noise.Local: the index table is one table without hash buckets, and the limit on the number of remotes is not modelled.
- Time is an unbounded integer and one reading serves a whole call.
- PacketQueues: a packet's identity is never used again after it is freed; reuse of its memory, the timers, counters and wake-ups on delivery, and liveness (a queue whose head went dead waits for the next wake-up) are not modelled.
- RateLimit.RateLimiter: address bytes are big-endian numbers and the keyed hash is any function of key bytes and length; timer scheduling is replaced by collection at any time.
- AllowedIps.Trie: nodes are records in a map keyed by address, so freeing them is not modelled; `aips_destroy` is a new trie.
- WgSession.Session: configuration text, command lines, hex, addresses and endpoints arrive decoded; name resolution is a value or a failure. Memory for the tries suffices.
- WgSession.Session.HandleData: counters are not checked against the replay window here, as in the code; the only caller of the check is the receive path of the interface.
- WgSession.Session: dispatch by packet type, handshake and cookie packets, keepalives, statistics and logging. The two reasons for which a keypair may no longer send, age and exhaustion, are two flags.
- Peers.ReportIsRefused: a remark about the report format that follows from the first branch of the command loop.
- Timers.Run: the timers of one peer; sockets are a success or a failure of each attempt, a send that fails before a handshake is pending does not count as an attempt, and persistent keepalives are not modelled.
- LongPoll.Drive: the bound takes a positive least return time and floor, as the defaults are; with others the code has none. Answers other than unchanged have no bound, as in the code; cleaning the cursor for a query string is not modelled.
- WGConf.ParseRender: lower-casing and blanks are those of single characters, letters outside ASCII keep their case, and of the characters made of several code points only a carriage return with a line feed is one. Strings compare by code point.
- WGConf.BarsConfuse: keys of the key generator are base64 and hold no bar, so this takes a file written by hand.
- WGConf: `build`, `routeSet` and `routesDiffer`, which merge a server's answer and compare sets of addresses.
