# A verified model of the VPN server's protocol core

The repository is an OpenVPN-protocol server. This project models its protocol core in Dafny and
proves what that core promises: the control and data codecs, the tls-auth and tls-crypt envelopes,
key derivation, the sliding replay window, the data plane end to end, the session and rekey state
machine, the reliability layer of the control channel, and the server's shared tables.

`dafny verify dfyconfig.toml` checks everything.

## How the model is built

* What the code updates in place is imperative here as well: `ReplayWindow`, `Session` and
  `VpnServer` are classes, the codecs advance cursors and append to buffers, `p_hash` and the
  keystream work on arrays. Every such method is proved equal to a function on values.
* Properties of whole runs are proved about those functions. `SessionRuns` runs the keys and phases
  of a session, `ReliabilityRuns` the control channel, `Tables` the shared maps, `DataPlane` a sender,
  a network and a receiver, `ControlPath` control packets from the session to the peer. The methods of
  `Session` are tied to the runs in `SessionRefinement`: `RunSession` creates a session object and goes
  through the sections in which the server locks it (control packet, rekey timer, retransmit timer,
  shutdown, ping timer, packet from the TUN device, data packet) in any order and with any arguments.
  Its contract says that the object is then in a state of both machines, and that a mirrored peer
  unwraps what it has sent. `ServerRuns` joins sessions and tables: there the outcome of address
  assignment is what the tables answer.
* Cryptography is abstract. `Crypto.Aead` keeps only that AES-GCM adds a 16-byte tag, refuses
  over-long messages and decrypts exactly what it encrypts; `Hmac256`, `Keystream` and `Prf.Hash`
  keep only output lengths. All four types are shown to be inhabited.
* Machine words are integers with explicit wrap-around. `Bits` gives `<<`, `|`, `&` and `^` by their
  binary digits. A `u32` counter wraps where the code wraps it.
* Time, randomness, decrypted plaintext, the end of a TLS handshake, the outcome of sends and the
  outcome of address assignment are inputs. Each locked section is one atomic step. Creating a TLS
  context and feeding it never fails. Strings are bytes, and lossy UTF-8 decoding is the identity.
* History that the code does not keep (generation numbers of key slots, logs of ids used, times of
  transmissions) is part of the model so that properties can speak of it; no operation reads it.

* Every operation is also fixed from outside. Formats are stated by their wire offsets, texts and labels
  by their characters, limits by their numbers, and outcomes by exact conditions on the inputs, so
  that a statement does not rest on the definition it is about.

## What is proved, and where the code falls short

* Replay window: over every sequence of ids the bitmap gives exactly the verdict of the set of all
  ids accepted so far.
* Data plane: under any loss, repetition, reordering and injection, a mirrored receiver yields exactly
  the plaintext of each packet that the window admits, each at most once. In-order streams are
  delivered whole if and only if they have fewer than 2^32 packets, because id 0 comes up then.
* Sessions: over every run no generation and packet id, and no generation and nonce, is handed to the
  cipher twice, if and only if no generation seals more than 2^32 packets; no packet is accepted twice, across rekeys as well;
  the phase never moves back.
* Rekeys: safe in every run in which clients name a key id other than the one in use. Packets sealed
  under any key still held, the previous one included, find their key on the wire and are delivered
  exactly if the window admits them. The code does not check the key id. `PromoteReachesInstalled` and
  `InstallKeepsDistinct` give the exact conditions of the two things that can go wrong, and
  `ReusedKeyIdExample` is a run in which the first does.
* Control stream: how it is cut into chunks does not matter while address assignment succeeds. When
  assignment fails the loop returns with the rest unread. `CutMattersExactly` reads off the bytes when
  that makes a difference; `FailedAssignmentCutExample` gives two runs that differ.
* Control packets survive the wire if and only if they are well formed. More than 255 pending acks make
  a packet that does not, since the count is cast to a byte: `AckCountOverflows` gives sessions in which
  this happens, with packets the server notes but does not answer. With no more than that, whatever a
  session flushes is read by the peer as it was built, under any envelope.
  What a session sends again are the packets first sent under the ids that are due, and the peer parses
  from each exactly what it parsed from the first copy. Over a whole run the peer's window accepts all
  datagrams if and only if there are fewer than 2^32.
* Length-prefixed strings read back if and only if they have at most 65534 bytes.
* Reliability: each recorded packet is queued, acknowledged or abandoned, and exactly one of these; it
  is sent at most 6 times, with doubling gaps, and abandoned only after the sixth; once acknowledged or
  abandoned it stays so and is never sent again.
* Inbound envelopes: over every run of a session no control packet is handled twice under one id.
* Tables: creation, PUSH_REQUEST and removal keep all maps in agreement under stated provisions. Each
  step also has its exact condition. The code checks none of the provisions, and three runs show what
  happens without them: an exhausted IPv6 pool leaves a stale IPv4 route behind
  (`ExhaustedPoolExample`), a static address inside the pool is handed to a second client
  (`StaticInPoolExample`), and after 2^24 - 1 hard resets that could not be answered the peer id of a
  living session is handed out again (`PeerIdCollisionExample`).
* Server: over every run of sessions and tables together, the tables call a session established exactly
  if its phase is Established or Closed, and then it has an address and a key to seal with.
* The comment on the reaper (src/server.rs:260-263) says that a freed address can be reused at once.
  The pool counter only moves forward, so the model follows the code: pool addresses are not reused.
* The comment in src/prf.rs:18-20 describes another key layout than src/crypto.rs:19-28. The model
  follows the offsets of the code in src/crypto.rs.

## Model

| member | source | states |
|---|---|---|
| Replay.ReplayWindow.CheckAndSet | src/replay.rs:27-53 | in place, the call is one step of the window function about which the refinement is proved |
| Replay.CheckRefines | src/replay.rs:11-53 | if bit n stands for "highest - n was accepted", the verdict is "nonzero, never accepted, less than 64 behind everything accepted", and the bitmap keeps that meaning |
| Replay.RunRefines | src/replay.rs:27-53 | over every sequence of ids, each verdict of a fresh window is the reference verdict over the set of ids accepted before |
| Replay.AtMostOnce | src/replay.rs:24-53 | no id is accepted twice in any run |
| Replay.SpanAcceptsFirsts | src/replay.rs:40-52 | ids spanning fewer than 64, in any order and with repeats, are accepted exactly at their first occurrence |
| Replay.IncreasingAllAccepted | src/replay.rs:31-39 | strictly increasing nonzero ids are all accepted |
| Protocol.ControlPacketRoundTrip | src/protocol.rs:67-138 | a packet parses back to itself if and only if it is well formed: at most 255 acks, remote id exactly with acks, packet id exactly when not a pure ack, 3-bit key id, control opcode |
| Protocol.ParseThenEncode | src/protocol.rs:67-138 | encoding the result of any successful parse gives the parsed bytes back, and the result is well formed |
| Protocol.ParsePacket | src/protocol.rs:67-119 | the cursor loop computes the parse function, with each of its error cases |
| Protocol.ParsesExactly | src/protocol.rs:67-119 | exactly the buffers that parse: one of nine opcode numbers, and long enough for the acks announced, the remote id and the packet id |
| Protocol.EncodePacket | src/protocol.rs:121-138 | appending field by field computes the encode function |
| Protocol.OpcodesOnTheWire | src/protocol.rs:12-47 | the number of each opcode in the first five bits, the key id in the last three |
| Protocol.ControlLayout | src/protocol.rs:121-138 | first byte, session id, ack count and each ack by wire offset |
| Protocol.TailLayout | src/protocol.rs:121-138 | remote session id, packet id and payload by wire offset |
| Bytes.MostSignificantFirst | src/protocol.rs:121-138 | numbers go on the wire most significant byte first |
| Protocol.DataHeaderParses | src/session.rs:468-473 | the header put on a data packet parses to its key id, peer id and packet id, with the rest as ciphertext |
| Protocol.ParsedDataHeader | src/protocol.rs:159-177 | every accepted data packet is the header of its own fields followed by its ciphertext |
| Protocol.DataLayout | src/session.rs:468-473 | opcode 9 with the key id, peer id and packet id by wire offset |
| Protocol.DataAccepted | src/protocol.rs:159-177 | exactly the datagrams accepted as data packets, and their fields by offset |
| Crypto.OpenExact | src/crypto.rs:72-115 | the mirrored cipher opens a wire string to a plaintext if and only if sealing that plaintext gives that string |
| Crypto.SealedUnder | src/crypto.rs:72-91 | what is sent is tag and ciphertext under the sending key and the 12-byte nonce made of the packet id and the sending IV, with the header authenticated |
| Crypto.OpenedUnder | src/crypto.rs:94-115 | what is received is decrypted under the receiving key, the nonce of its packet id and the receiving IV, with its own header |
| Crypto.NoncesDiffer | src/crypto.rs:74-76 | under one IV two nonces are equal if and only if the packet ids are |
| Crypto.ClientMirrorsServer | src/crypto.rs:155-168 | the client's reading of the key block, cut by its own offsets, is the mirror image of the server's |
| Crypto.FromKeymatServer | src/crypto.rs:40-65 | the copied slices are the server's half of the key block |
| Crypto.SealPacket | src/crypto.rs:72-91 | filling the nonce array and splicing tag before ciphertext computes the seal function |
| Crypto.OpenPacket | src/crypto.rs:94-115 | splitting off the tag and undoing the splice computes the open function |
| EnvelopePrimitives.ApplyKeystream | src/tls_crypt.rs:112-118 | the buffer becomes its own exclusive-or with the keystream of its length |
| TlsCrypt.UnwrapExact | src/tls_crypt.rs:87-162 | the mirrored key unwraps a packet to given contents and id if and only if wrapping those, at some time stamp, gives that packet |
| TlsCrypt.UnwrapByOffsets | src/tls_crypt.rs:130-162 | a packet is accepted exactly if bytes 17 to 48 are the tag over its first 17 bytes and its plaintext, decrypted with the first 16 tag bytes as IV |
| TlsCrypt.WrapByOffsets | src/tls_crypt.rs:87-125 | id, time stamp, tag and encrypted body of what is sent, by wire offset |
| TlsCrypt.ClientMirrorsServer | src/tls_crypt.rs:57-82 | running the 256-byte key in the other direction gives the mirror of the server's keys |
| TlsCrypt.FromStaticKeyServer | src/tls_crypt.rs:63-82 | the four copied keys are the server's view of the static key |
| TlsCrypt.WrapPacket | src/tls_crypt.rs:87-125 | header array, tag and keystream in place compute the wrap function |
| TlsCrypt.UnwrapPacket | src/tls_crypt.rs:130-162 | decrypting with the tag-derived IV and checking the tag computes the unwrap function |
| TlsAuth.UnwrapExact | src/tls_auth.rs:68-128 | the mirrored key unwraps a packet to given contents and id if and only if wrapping those, at some time stamp, gives that packet |
| TlsAuth.UnwrapByOffsets | src/tls_auth.rs:95-128 | a packet is accepted exactly if bytes 9 to 40 are the tag over replay id, time stamp, the first nine bytes and the whole body |
| TlsAuth.WrapByOffsets | src/tls_auth.rs:68-90 | tag, replay id, time stamp and body of what is sent, by wire offset |
| TlsAuth.ClientMirrorsServer | src/tls_auth.rs:46-64 | a client with the same file and direction holds the mirror image of the server's keys; only directions 0 and 1 exist |
| TlsAuth.FromStaticKeyServer | src/tls_auth.rs:53-64 | both key directions pick their slots, any other direction is an error |
| TlsAuth.ComposeHmacInput | src/tls_auth.rs:131-145 | the authenticated bytes are replay id, time, opcode, session id and body in that order |
| TlsAuth.WrapPacket | src/tls_auth.rs:68-90 | computes the wrap function, too short packets being an error |
| TlsAuth.UnwrapPacket | src/tls_auth.rs:95-128 | computes the unwrap function, short packets and bad tags being errors |
| Envelope.UnwrapExact | src/server.rs:180-209 | for tls-crypt, tls-auth and no envelope alike, the peer accepts exactly what this side can put on the wire |
| Envelope.ControlPathExact | src/server.rs:180-209 | the peer accepts a datagram as packet p under id n if and only if p is well formed and the datagram is p encoded and wrapped under n |
| Envelope.EncodedWraps | src/server.rs:180-192 | no encoded control packet is too short to be wrapped |
| ControlChannel.LpRoundTrip | src/control_channel.rs:134-164 | a written string reads back, at its place in any buffer, if and only if it has at most 65534 bytes; longer ones never read back |
| ControlChannel.LpReadsExactly | src/control_channel.rs:134-156 | for any buffer and offset, exactly which string is read: two length bytes, that many more, one closing NUL dropped if there is one |
| ControlChannel.TryParseExtends | src/control_channel.rs:42-92 | once the parser is ready or has refused, later bytes do not change its answer |
| ControlChannel.TryParseNeedsAll | src/control_channel.rs:42-92 | every strict prefix of a complete packet needs more bytes |
| ControlChannel.ClientRoundTrip | src/control_channel.rs:42-92 | a printed packet, followed by anything, parses to itself and consumes exactly its own bytes if and only if its four strings fit |
| ControlChannel.ServerStringsReadBack | src/control_channel.rs:107-119 | options, user name, password and peer info of the reply are recovered in this order by the same reader if and only if they fit |
| ControlChannel.ServerRandomsReadBack | src/control_channel.rs:107-119 | the reply carries the method and the two randoms, in order, where a client reads them |
| ControlChannel.FirstNul | src/control_channel.rs:124-131 | the position found holds the first NUL, and nothing is found only if there is none |
| ControlChannel.AsciiRoundTrip | src/control_channel.rs:124-131 | a NUL-free message with its terminator pops as itself, whatever follows |
| ControlChannel.PopAsciiExtends | src/control_channel.rs:124-131 | a popped message does not depend on bytes that arrive later |
| ControlChannel.ReadLpString | src/control_channel.rs:134-156 | the offset moves past the string when it is complete and stays otherwise |
| ControlChannel.TryParsePacket | src/control_channel.rs:42-92 | threading the offset through four reads computes the parser function |
| ControlChannel.ParsedFields | src/control_channel.rs:42-92 | a packet is complete exactly with four zeros, a 2, and four strings; each field by offset and the strings in order |
| ControlChannel.MalformedExactly | src/control_channel.rs:42-60 | the parser refuses exactly a complete fixed part that does not start with four zeros and a 2 |
| ControlChannel.WriteLpString | src/control_channel.rs:158-164 | appends the printed string |
| ControlChannel.EncodeServerPacket | src/control_channel.rs:107-119 | appending field by field computes the reply |
| Prf.FillPHash | src/prf.rs:88-101 | the loop ends and the slice holds the first bytes of the stream HMAC(A(1), seed), HMAC(A(2), seed), ... |
| Prf.PHashOfStream | src/prf.rs:85-101 | any number of blocks that reaches a length gives the same first bytes |
| Prf.PHashPrefix | src/prf.rs:85-101 | shorter outputs are prefixes of longer ones |
| Prf.HalvesCover | src/prf.rs:63-69 | the two halves have equal length, cover the secret, and share one byte exactly when its length is odd |
| Prf.Tls10PrfPrefix | src/prf.rs:66-83 | shorter PRF outputs are prefixes of longer ones |
| Prf.FillTls10Prf | src/prf.rs:66-83 | the output slice is the exclusive-or of both hash streams |
| Prf.PrfIsBytes | src/prf.rs:63-101 | byte i of the PRF is the exclusive-or of byte i % size of block i / size of both hash streams, each over its half of the secret |
| Prf.DeriveKeyData | src/prf.rs:37-61 | the 256 bytes are the expansion of the master secret derived from the exchanged randoms |
| Prf.KeyDataIsBytes | src/prf.rs:11-61 | the key data byte by byte: both labels as text, both client and server randoms and both session ids in their places |
| Keyring.PromoteReachesInstalled | src/session.rs:216-227 | promoting the key id just installed reaches the slot just installed, except exactly when slot 0 is active and already carries that key id |
| Keyring.InstallKeepsDistinct | src/session.rs:442-455 | after an installation each slot is found by its own key id if and only if the new key id differs from the active one |
| Keyring.SealedWire | src/session.rs:460-479 | a data packet by wire offset: key id, peer id, packet id, tag and ciphertext under the active key, the nonce of that id and the header |
| Keyring.AuthenticatesExactly | src/server.rs:1303-1315 | a datagram authenticates exactly if its key id is that of a slot and it decrypts under that slot's key, the nonce of its id and its own header |
| DataPlane.SentAt | src/session.rs:460-479 | the i-th packet carries the i-th id after the counter modulo 2^32, under the same key |
| DataPlane.InstalledPairIsFresh | src/session.rs:409-427 | installing one derived key on both sides starts a pair in both directions to which the end-to-end results apply |
| DataPlane.HandshakeGivesFreshPair | src/server.rs:1050-1074 | the session at the end of a handshake and its client form such a pair, with the cipher each derives |
| DataPlane.EndToEnd | src/server.rs:1303-1333 | for every plaintext sequence below 2^32 packets and every network, a delivery yields exactly the sealed plaintext if the reference window admits its id and nothing otherwise |
| DataPlane.DeliveredAtMostOnce | src/server.rs:1316-1320 | no packet is delivered twice |
| DataPlane.RecentIsDelivered | src/server.rs:1303-1333 | a packet not seen before and less than 64 ids behind is delivered |
| DataPlane.InOrderLossless | src/session.rs:460-479 | in-order delivery loses nothing if and only if there are fewer than 2^32 packets |
| ControlPlane.CutsDoNotMatter | src/server.rs:1036-1154 | for every stream and every cutting into chunks, when assignment succeeds, the final phase, leftover bytes, messages, replies, keys and verdict are those of feeding it at once |
| ControlPlane.CutMattersExactly | src/server.rs:1085-1111 | a cut makes no difference if and only if assignment succeeds, or the bytes of the first part hold no complete PUSH_REQUEST, or no complete message stands behind it |
| ControlPlane.DriveDrains | src/server.rs:1036-1154 | when the loop returns without error no complete message is left unread |
| ControlPlane.DriveText | src/server.rs:1078-1150 | what each text message does in PushPending and Established: push request, exit, anything else |
| ControlPlane.ClosesExactly | src/server.rs:1136-1150 | an established session is closed exactly by a complete message that is "EXIT" or starts with "CC_EXIT" |
| ControlPlane.PushEstablishes | src/server.rs:1078-1122 | a waiting session is established by exactly the text "PUSH_REQUEST" and a successful assignment |
| ControlPlane.RefusesExactly | src/server.rs:1036-1058 | the drive fails exactly on a fixed part that is not key-method-2, and then changes nothing |
| ControlPlane.WaitsForTls | src/server.rs:807-815 | nothing is read before the TLS handshake is over |
| ControlPlane.HandshakeEstablishes | src/server.rs:1036-1135 | key-method-2 and PUSH_REQUEST, however cut, lead to Established with the derived key active, both replies queued and nothing left over |
| ControlPlane.RekeyCompletes | src/server.rs:894-1008 | a complete key-method-2 on the rekey track makes the new key active and keeps the old one in the other slot |
| ControlPlane.RekeyAnswers | src/server.rs:941-1008 | a complete key-method-2 on the rekey track installs the key and queues the answer with the track's own randoms, even if it cannot be sent yet |
| ControlPlane.KeyAgreement | src/session.rs:388-411 | a client that derives the key data byte by byte from its own packet and the randoms it reads in the reply has the mirror image of the server's cipher |
| ControlPlane.ReplyReadsBack | src/server.rs:1060-1073 | the strings a client reads from the reply are the options, two empty ones and the peer info, if and only if they fit |
| SessionRuns.RunValid | src/server.rs:801-837 | over every run the phase never moves back, an active slot exists exactly once key-method-2 was handled, which happens once and first, and a rekey track exists only in Established or Closed |
| SessionRuns.ActiveSlotSurvives | src/session.rs:449-455 | no event overwrites the slot that is active |
| SessionRuns.NonceUniqueness | src/session.rs:460-474 | over every run no generation and packet id is handed to the cipher twice, if and only if no generation seals more than 2^32 packets |
| SessionRuns.NonceBytesUnique | src/crypto.rs:74-76 | over every run no two packets of one generation get the same 12 nonce bytes, if and only if no generation seals more than 2^32 packets |
| SessionRuns.SentUnderLogged | src/session.rs:460-479 | every packet sent is encrypted under the nonce that is logged for it |
| SessionRuns.SendsExactly | src/session.rs:460-479 | a send advances the active slot's counter by one, wrapping, and changes nothing else; pings only in Established |
| SessionRuns.NoReplayAccepted | src/server.rs:1303-1322 | over every run, across rekeys, no packet id of a generation is accepted twice |
| SessionRuns.AcceptanceExact | src/server.rs:1303-1322 | in every reachable state an authentic datagram is accepted exactly when its id is nonzero, new in its generation and less than 64 behind |
| SessionRuns.RekeySafety | src/server.rs:894-1008 | with clients that name a new key id, each slot is found by its key id, the active one is the latest generation promoted, and the other one the generation before it |
| SessionRuns.HeldKeyOpens | src/server.rs:1303-1322 | in such runs every key id fits its three bits, so a packet the client seals under any key held authenticates under that key and is delivered exactly if the window of its generation admits its id |
| SessionRuns.PreviousIsHeld | src/session.rs:442-455 | after a rekey the slot that is not active holds the generation promoted before, until the next key is installed |
| SessionRuns.PreviousKeyOpens | src/server.rs:1303-1322 | packets of that generation are still delivered, exactly if its window admits their ids |
| SessionRuns.InFlightSurvives | src/server.rs:922-934 | whatever event comes next, the switch to a new key included, packets in flight under the active key are received after it |
| SessionRuns.FinishedRekeyPromotesNewest | src/server.rs:922-934 | the event that finishes a rekey makes the generation installed last active and keeps the one before in the other slot |
| SessionRuns.RekeyStartsExactly | src/server.rs:820-836 | a rekey starts exactly on a soft reset or a due timer, in Established with none under way, under the client's key id or the next of the eight |
| SessionRuns.RekeyFinishesExactly | src/server.rs:894-936 | a rekey is over exactly when a packet for it arrives, all output could be sent and key-method-2 is answered |
| SessionRuns.PromotionsIncrease | src/server.rs:922-934 | generations become active in the order of their installation |
| SessionRuns.ReusedKeyIdExample | src/server.rs:820-836 | a run: handshake, soft reset under key id 0, its key-method-2; the rekey is over, two keys were installed, and the first is still active |
| SessionRuns.FailedAssignmentCutExample | src/server.rs:1085-1111 | two runs: after key-method-2, two push requests with failing assignment, in one control packet or in two, end in different states |
| Reliability.BuildersWellFormed | src/session.rs:267-340 | the builders' packets are well formed if and only if at most 255 acks are pending, and a pure ack only if there is one |
| Reliability.BackoffTable | src/session.rs:255-256 | the waiting time is 1, 2, 4, 8, 16 and at most 32 base timeouts |
| Reliability.PeerReadsBuilders | src/session.rs:267-321 | the peer reads from a reset or pure ack the server's session id, its own as remote id, the next packet id and exactly the ids acknowledged |
| Reliability.FlushFragments | src/server.rs:846-888 | payloads are nonempty, at most 1100 bytes and join to the TLS output; ids are consecutive; acks ride on the first packet only; the packets the transport took are queued in order |
| ReliabilityRuns.UnackedConservation | src/session.rs:229-264 | over every run of at most 2^32 ids, each recorded packet is in exactly one of queue, acknowledged and abandoned; queued ids increase and were allocated |
| ReliabilityRuns.UnknownAcksIgnored | src/session.rs:241-246 | acks for ids that are not queued leave the queue as it is |
| ReliabilityRuns.BackoffBound | src/session.rs:248-264 | each packet is sent 1 to 6 times, and transmission k+1 comes at least (2^k - 1) base timeouts after the first, whatever the clock does |
| ReliabilityRuns.AbandonedAfterSix | src/session.rs:252-253 | a packet is given up on only after exactly 6 transmissions |
| ReliabilityRuns.SettledStays | src/session.rs:241-264 | whatever happens later in a run, a packet acknowledged or abandoned stays so and is never put on the wire again |
| ReliabilityRuns.ResendRule | src/session.rs:254-262 | a queued packet sent k times is sent again at a tick if and only if k < 6 and 2^(k-1) base timeouts have passed since the last time |
| ReliabilityRuns.AckBookkeeping | src/session.rs:357-362 | over every run the acks handed to packets followed by those pending list each received id exactly once |
| ReliabilityRuns.AcksFitExactly | src/session.rs:323-340 | runs in which n ids arrive and then a packet is sent: it reads back at the peer if and only if n is at most 255 |
| ReliabilityRuns.QueueHoldsPackets | src/session.rs:229-239 | over every run each queue entry is the encoding of a packet that was sent under its id |
| ReliabilityRuns.QueueHoldsSent | src/session.rs:229-239 | within 2^32 ids it is the encoding of the one packet sent under its id |
| ReliabilityRuns.FreshEnvelopeIds | src/session.rs:348-355 | a peer's replay window accepts every envelope of a run in order if and only if there are fewer than 2^32 |
| ControlPath.WiresReadBack | src/server.rs:180-192 | for packets sent in turn there is one datagram each, from which the peer parses exactly the encoding, under an envelope id of its own; it is read as the packet if and only if that is well formed |
| ControlPath.FlushReachesPeer | src/server.rs:846-888 | for every TLS output, session state and envelope, the peer reads the datagrams of a flush as exactly the packets built if and only if at most 255 acks were pending, and the payloads join to the output |
| ControlPath.RetransmitsFromLog | src/server.rs:446-476 | over every run, what a tick sends again are packets sent before under the ids due, each under an envelope id of its own, and the peer parses from each datagram exactly what it would from the first copy |
| ControlPath.RetransmitsReadBack | src/server.rs:446-476 | within 2^32 ids these are the very packets sent under the ids due, looked up by id |
| Tables.CreateKeepsExactly | src/server.rs:739-769 | creating a session keeps the tables in agreement if and only if the masked peer id is free and the TUN writer is set |
| Tables.PushKeepsExactly | src/server.rs:1085-1122 | a push request keeps the tables in agreement if and only if the addresses handed out are free and the session holds no others |
| Tables.RemoveKeeps | src/server.rs:276-301 | eviction keeps the tables in agreement |
| Tables.RemoveForgets | src/server.rs:689-699 | after a removal no table mentions the address and other sessions are untouched |
| Tables.TablesAgree | src/server.rs:729-769 | under the stated provisions every interleaving of creation, push request, eviction and close keeps routes, peers and data routes in agreement with the sessions |
| Tables.PushGrants | src/server.rs:1085-1122 | a waiting session is established exactly when an address is available, and then holds one that nobody held |
| Tables.PoolInOrder | src/server.rs:1179-1188 | over every run the pool is handed out from its start, address by address, none skipped |
| Tables.PoolNeverRepeats | src/server.rs:1179-1188 | no pool address is handed out twice, if the pool does not end at the largest address |
| Tables.DestinationOfHeaders | src/server.rs:1345-1369 | the destination read is the one an IPv4 or IPv6 header carries |
| Tables.DestinationExact | src/server.rs:1345-1369 | exactly the packets that have a given destination, by version, length and offset |
| Tables.TunTargetExact | src/server.rs:1335-1381 | a packet from the TUN device goes to a session if and only if the session holds its destination |
| Tables.DataTargetExact | src/server.rs:1159-1177 | a datagram goes to the worker of a session if and only if it names that session's peer id |
| Tables.ExhaustedPoolExample | src/server.rs:1103-1111 | with the IPv6 pool exhausted, two push requests leave a stale route |
| Tables.StaticInPoolExample | src/server.rs:1085-1102 | a run in which a static address inside the pool ends up with two clients, the route pointing to the second |
| Tables.PeerIdCollisionExample | src/server.rs:750-767 | a run in which failed creations use up the peer ids and a living session's id is given to another |
| ServerObject.ReapedKeeps | src/server.rs:270-304 | a whole pass of the reaper keeps the tables in agreement |
| ServerObject.ReapedExactly | src/server.rs:270-304 | after a pass of the reaper exactly the sessions remain that are not idle candidates, unchanged |
| ServerObject.VpnServer.CreateSession | src/server.rs:739-769 | the maps change by one creation step |
| ServerObject.VpnServer.SpawnDataWorker | src/server.rs:162-177 | a data route is added, unless there is no TUN writer yet |
| ServerObject.VpnServer.AllocatePoolIp | src/server.rs:1179-1188 | hands out the counter's address and moves it on, or fails past the end |
| ServerObject.VpnServer.AllocatePoolIpV6 | src/server.rs:1192-1206 | the same for IPv6, or nothing when there is no pool |
| ServerObject.VpnServer.AssignAddresses | src/server.rs:1085-1122 | the maps change by one push-request step, each failure leaving what the code leaves |
| ServerObject.VpnServer.RemoveSession | src/server.rs:688-699 | the maps change by one removal step |
| ServerObject.VpnServer.ReapIdle | src/server.rs:270-304 | exactly the idle candidates are removed |
| ServerObject.VpnServer.FindTunTarget | src/server.rs:1335-1373 | the lookups give the session about which the delivery property is proved |
| ServerObject.VpnServer.FindDataTarget | src/server.rs:1159-1177 | the lookup gives the session about which the routing property is proved |
| SessionObject.Session.PromoteSlot | src/session.rs:216-227 | the scan makes the first slot with the key id active, or reports that there is none |
| SessionObject.Session.InstallSlot | src/session.rs:451-455 | replaces the slot that is not active, and nothing else |
| SessionObject.Session.InstallPrfSlot | src/session.rs:388-429 | the slot's cipher is the one derived from the exchange; the first slot is active at once |
| SessionObject.Session.BuildDataPacket | src/session.rs:460-479 | one step of the sender in the end-to-end results |
| SessionObject.Session.DecryptAndForward | src/server.rs:1303-1333 | one step of the receiver in the end-to-end results; pings are recognised and not forwarded |
| SessionObject.ForwardsAllButPings | src/server.rs:1323-1333 | everything but the 16 bytes of a ping is forwarded as it is |
| SessionObject.Session.NotePid | src/session.rs:357-362 | a new id is remembered and queued for acknowledgement, a known one is not queued again |
| SessionObject.Session.ProcessAcks | src/session.rs:241-246 | keeps in order the entries that are not acknowledged |
| SessionObject.Session.StaleUnacked | src/session.rs:250-264 | drops entries sent six times, bumps those due and returns their bytes in order |
| SessionObject.Session.NextTlsAuthPid | src/session.rs:351-355 | hands out the counter and moves it on, skipping 0 |
| SessionObject.Session.BuildControl | src/session.rs:323-346 | takes the next id and all pending acks |
| SessionObject.Session.BuildReset | src/session.rs:267-309 | takes the next id and acknowledges the given one, if any |
| SessionObject.Session.constructor | src/session.rs:156-195 | a new session waits for its hard reset, with no keys, an empty queue and a fresh replay window |
| SessionObject.Session.AnswerHardReset | src/server.rs:751-762 | the replay window is seeded with the first id, the reply acknowledges the hard reset and is queued, and its datagram is returned |
| SessionObject.Session.WrapForWire | src/server.rs:180-192 | the datagram is the wrap function under the next envelope id, which is used up only when there is an envelope |
| SessionObject.Session.SendAndTrack | src/server.rs:874-888 | the datagram is the encoded packet wrapped under the next envelope id; the packet is queued only if it was sent |
| SessionObject.Session.SendReset | src/server.rs:833-834 | a reset is built, wrapped, sent and queued, and failure to send is reported |
| SessionObject.PeerReadsHardReset | src/session.rs:267-278 | the peer reads the answer to a hard reset as one that acknowledges it, under key id 0 and the next packet id |
| SessionObject.PeerReadsSoftReset | src/session.rs:282-293 | the peer reads the answer to a soft reset as one that acknowledges it under its own key id |
| SessionObject.PeerReadsOwnReset | src/session.rs:298-309 | the server's own soft reset acknowledges nothing and names the key id after the active one, of eight |
| SessionObject.Session.StartTrack | src/session.rs:199-212 | the rekey track is replaced by one that handshakes under the new key id, and nothing else changes |
| SessionObject.Session.SendFragments | src/server.rs:850-853 | the chunk loop is the flush about which fragmentation is proved, with its datagrams, stopping at the first send that fails |
| SessionObject.Session.FlushOutgoing | src/server.rs:846-868 | flushes TLS output, or else the pending acks alone, and returns the datagrams |
| SessionObject.Session.FlushRekeyOutgoing | src/server.rs:1012-1032 | flushes the rekey track's TLS output under its key id and returns the datagrams |
| SessionObject.Session.DriveControlPlane | src/server.rs:1036-1154 | the loop ends and computes the drive function, each turn returning or shrinking the buffer |
| SessionObject.Session.DriveRekeyControlPlane | src/server.rs:941-1008 | installs the derived slot and queues the answer once key-method-2 is complete |
| SessionObject.Session.HandleRekeyControl | src/server.rs:894-936 | feed, drive, flush and switch, stopping and reporting where the code stops on an error |
| SessionObject.Session.HandleControlPacket | src/server.rs:779-841 | one control packet is one step of the session machine and of the reliability layer, with its datagrams and its result; a replayed one is an error and changes nothing but the window |
| SessionObject.HandledExactly | src/server.rs:799-841 | a control packet is handled without error exactly if its drive ends without one and the transport takes every packet; after a failed drive nothing is sent |
| SessionObject.SentExactly | src/server.rs:761-762 | the answer to a hard reset, the server's soft reset and the restart message succeed exactly if the transport takes them |
| SessionObject.PacketsUseTheirKey | src/server.rs:846-868 | the main track sends under the active key id, the rekey track under its own |
| SessionObject.Session.RekeyTick | src/server.rs:329-381 | the timer starts a rekey under the next key id and sends its soft reset, only in Established and with no rekey under way |
| SessionObject.Session.RetransmitTick | src/server.rs:446-476 | the datagrams are the packets due again, each wrapped under a fresh envelope id |
| SessionObject.Session.AnnounceRestart | src/server.rs:706-727 | on shutdown an established session queues the restart message and flushes, any other does nothing |
| ControlPlane.RestartText | src/server.rs:718 | the message is "RESTART,1" with its terminator, queued only in Established |
| SessionObject.Session.PingTick | src/server.rs:411-421 | a ping is one send step, only in Established, and its datagram is the one that step seals |
| SessionRefinement.Perform | src/server.rs:779-841 | each section is performed by a method of the object: what it leaves is the section function of what was there, and it returns the section's datagrams |
| SessionRefinement.RunSession | src/server.rs:729-841 | an object that is created, answers the hard reset and goes through any sequence of sections has the keys and phase of a run of session events and the reliability layer of a run of reliability operations, and a mirrored peer unwraps its datagrams in order |
| SessionRefinement.SessionRefines | src/server.rs:729-888 | the section functions, iterated, are such runs |
| SessionRefinement.RunArrives | src/server.rs:180-192 | over every run a mirrored peer unwraps each datagram to what was wrapped, under successive envelope ids from 1 on |
| SessionRefinement.PeerAcceptsAll | src/session.rs:348-355 | the envelope ids the peer finds are those of the run, and its replay window accepts all datagrams if and only if there are fewer than 2^32 |
| SessionRefinement.EnvelopesHandledOnce | src/server.rs:783-788 | over every run of a session no control packet is handled twice under one envelope id, and one is handled exactly if its id is nonzero, new and less than 64 behind |
| SessionRefinement.AckCountOverflows | src/session.rs:323-340 | sessions that receive n packets with an ignored opcode: the next control packet reads back at the peer if and only if n is at most 255 |
| SessionRefinement.SectionIsOps | src/server.rs:790-888 | each method call is a definite sequence of reliability operations: control packets, rekey timer, retransmit timer |
| ServerRuns.RunLinked | src/server.rs:1078-1122 | over every run of sessions and tables, the tables call a session established if and only if its phase is Established or Closed, and then it has an address |
| ServerRuns.StepEstablishes | src/server.rs:1036-1122 | an event establishes a session exactly if its bytes hold a complete PUSH_REQUEST and assignment succeeds, and an established session never asks again |
| ServerRuns.EstablishedIsServed | src/server.rs:1335-1381 | a session the tables call established has an address and a key to seal with |
| ServerRuns.TablesRefined | src/server.rs:729-769 | the tables of such a run are those of a run of the tables alone |

## Left out

- AES, GCM, CTR, HMAC, MD5, SHA and TLS themselves: foreign libraries, kept as functions with laws.
- In-order and exactly-once delivery of inbound TLS payloads: the receive path feeds every payload as it arrives, so this does not hold and is not claimed.
- Liveness of handshakes and rekeys: it depends on the client and on timers.
- Failures of TLS itself (a context that cannot be created, a record that cannot be processed): TLS calls always succeed in the model.
- Tokio tasks, sockets, channels, TCP framing and the transport: sending is an input that says whether it worked.
- Interleavings inside a locked section, and of a handler with the eviction of its own session: each section is one atomic step.
- References from the session table to session objects: the tables hold the fields of a session that they depend on, as values.
- Clocks: `last_seen`, `last_rekey_at` and the time stamps of the envelopes are inputs, as "idle", "due" and one number for each locked section.
- The text of PUSH_REPLY, options and peer_info, CIDR parsing: string building that no protocol step depends on.
- src/nat.rs, src/tun_dev.rs, src/config.rs, src/static_key.rs, src/main.rs: device set-up, configuration, and a fixed-size hex parser.
- ReliabilityRuns.UnackedConservation: for at most 2^32 ids per session, since the id counter wraps and ids then repeat.
- ReliabilityRuns.BackoffBound: for a positive base timeout, which the code fixes at two seconds.
- ControlPath.RetransmitsReadBack: for at most 2^32 ids per session, since ids then repeat; RetransmitsFromLog has no such bound.
- ReliabilityRuns.QueueHoldsSent: for at most 2^32 ids per session, as above; QueueHoldsPackets has no such bound.
- Tables.PoolNeverRepeats: for a pool that does not end at the largest address, where the counter wraps; PoolInOrder has no such bound.
