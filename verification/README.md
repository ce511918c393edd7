# A verified model of a userspace Tailscale node and its camera

This project models the protocol core of the repository in Dafny and proves what it is for. `dafny verify dfyconfig.toml` checks all of it.

- **The WireGuard tunnel** (`Noise`, `Replay`, `TunnelSpec`, `Tunnel`, `Handshake`, `HandshakeShape`, `TunnelRuns`, `TunnelSteps`, `TunnelTimers`, `HandshakeRuns`, `InitiationRuns`, `Outsider`, `Delivery`). `TunnelSpec` says what each operation does to a tunnel as a value; `Tunnel` is the object with its fields updated in place and a live replay ring, each method proved to do what the specification says. Cryptography is symbolic: terms for hashes, key derivations and ciphertexts, with a Diffie-Hellman secret being an unordered pair of private keys. `HandshakeShape` writes the messages out as terms and `TunnelSteps` says in milliseconds when what is sent. Whole runs of one tunnel carry a history of everything sealed and opened, and so do two tunnels joined by a network that loses, repeats and reorders messages and delivers any that an outsider can build from what was sent and every secret but the two static ones.
- **The control handshake and its record stream** (`ControlHandshake`, `NoiseStream`, `RecordRuns`, `Upgrade`). The handshake is symbolic like WireGuard's. The record stream works on bytes with any AEAD that opens what it sealed; what happens after a lost part of a record also takes that no stretch of a stream opens under a nonce but the record sealed under it (`NoStray`).
- **Peers, paths and the packet gate** (`PeerTable`, `PeerIndex`, `PeerRuns`, `PeerPaths`, `MagicSock`, `Filter`, `FilterSets`, `IpBytes`). Every handler that runs under the table's lock is one step; `PeerRuns` follows all of them with the evidence seen for each path and the life of each tunnel; `PeerPaths` says from the events what every peer's configuration and route is; `IpBytes` says where in a packet's bytes everything is that the gate, the filter and the router look at; `MagicSock` is the object with its maps and loops.
- **Two concurrent protocols** (`Camera`, `Netstack`). Step systems whose steps are the critical sections, with any number of threads; the state behind each mutex is also a class whose methods are those sections.
- **HTTP/2 and framing** (`Framing`, `Transport`, `Streams`, `H2`, `H2Responses`, `H2Conn`). A theory of incremental decoders with three instances, the clients that use them over a transport that returns whatever it likes, and flow control checked against books kept from the frames alone, since the connection began or the stream last came into being. `H2Responses` says the same of every response: its body is the contents of its DATA frames in order.

Where a class is given, its methods are tied to functions on values and the theorems are about those; sequences of events are unbounded everywhere.

## Assumptions

- `now` values are readings of a clock in milliseconds. The timer theorems take them to be non-decreasing (`Timely`, `Steady`); `PeerRuns.DirectIsFresh` holds for any readings and places the evidence in the past when none was later than `now`.
- Freshly drawn ephemerals, session indices and ping ids differ from those in use (`Enabled`, `FreshIndex`, `FreshDraws`). Full peer lists may name a key twice.
- Counters stay below their machine width; where the width is visible (24- and 32-bit lengths, 64-bit nonces) it is modelled.
- Text has been parsed: keys, addresses and prefixes that do not parse arrive as `None`.
- Messages are symbolic, so lengths are those of well-formed messages plus arbitrary junk; plaintext of a transport message that is not bytes counts as an authentication failure.
- Random choices and the wall clock are parameters (`Draw`), the split of every read is the transport's choice (`script`), what the hpack decoder says is arbitrary.

## Findings

- `Filter::compile` drops protocol numbers that do not fit a byte, and a rule left with none falls back to the default protocols. `ProtoFaithfulIff` gives the exact condition under which a rule means what it lists, `OutOfRangeProtoOpensTcp` a rule for which it does not.
- The clamp on the peer's maximum frame size admits 2^24, one more than the length field holds; `ChunkLengthFaithfulIff` says exactly which DATA frames are written with their true length, and `LargeChunkLosesLength` is a run in which one is not.
- HEADERS on stream 0 are accepted and create a stream 0, whose DATA is counted on the connection and once more on that stream, with both counters given back on the connection. `CreditBoundedIff` says exactly when the peer's credit stays within OUR_WINDOW, `StreamZeroOverflows` is a run in which it does not; every other bound holds without exception.
- `set_peers` with one key listed twice replaces the peer's tunnel by a new one (`TunnelKeptIff` exactly when, `RepeatedKeyReplaces`), and with different disco keys leaves the disco index naming a peer under a key it no longer has (`SetPeersDiscoIff` exactly when, `RepeatedKeyBreaks`). The receiver index stays right for every list.
- `snapshot` promises a frame captured after the call, but a frame whose callback counted it before the call and stored it after is handed out when `skip` is 0 (when the sensor took the picture the program does not know); `CapturedAfterIff` says exactly when that can happen, `SnapshotCanBeOld` is a run in which it does.
- A read of the record stream that times out inside a record throws away what it had taken of it, and the program reads on (`crates/tsnode/src/node.rs:405-433`, `crates/tsnode/src/h2.rs:347-361`). The next read then looks for a header in the middle of that record, and nothing is ever read again although every byte arrives. `InStepIff` says exactly when the stream survives failed reads, `LostForever` what is lost, `TimeoutLosesStream` is a run of the connection; what was read stays a prefix of what was written in every case.
- `parse_tuple` says it returns nothing for IPv6 packets with extension headers; it reads them as packets of that protocol with port 0 (`ExtensionHeaderRead`), and refuses an IPv6 packet exactly when it is too short for its TCP or UDP header (`V6RefusedIff`).

## Model

| member | source | states |
|---|---|---|
| `Replay.ReplayWindow.CheckAndUpdate` | crates/tsnode/src/wireguard.rs:104-128 | the ring of 32 words gives the verdict of the plain set of accepted counters and goes on representing it, across word wrap and jumps of any size |
| `Replay.ReplayWindow.ClearBetween` | crates/tsnode/src/wireguard.rs:109-114 | clears exactly the words the window slides over, so what the ring still decides is what it decided before |
| `Replay.ReplayWindow.ClearAll` | crates/tsnode/src/wireguard.rs:106-107 | after a jump past the whole ring it represents the set again with nothing held |
| `Replay.ReplayWindow.Mark` | crates/tsnode/src/wireguard.rs:130-139 | marks one counter and no other that the ring still decides |
| `Replay.Slide` | crates/tsnode/src/wireguard.rs:104-128 | clearing the skipped words turns a ring for the old highest counter into one for the new |
| `Replay.CheckAll` | crates/tsnode/src/wireguard.rs:87-140 | for every sequence of counters the live ring returns exactly the verdicts of the reference set |
| `Replay.SeenIsAccepted` | crates/tsnode/src/wireguard.rs:87-140 | the reference set is exactly the counters accepted so far |
| `Replay.NeverTwice` | crates/tsnode/src/wireguard.rs:87-140 | no counter is accepted twice in any sequence |
| `Replay.VerdictExact` | crates/tsnode/src/wireguard.rs:104-128 | accepted if and only if above the highest accepted, or less than REPLAY_BITS behind it and not accepted before |
| `Noise.SymmetricState.constructor` | crates/tsnode/src/noise.rs:14-23 | a fresh state has the hashed protocol name as hash and chaining key |
| `Noise.SymmetricState.Absorb` | crates/tsnode/src/noise.rs:25-27 | changes the hash as specified and nothing else |
| `Noise.SymmetricState.Key` | crates/tsnode/src/noise.rs:29-34 | new chaining key and cipher key, hash kept |
| `Noise.SymmetricState.KeyAndAbsorb` | crates/tsnode/src/noise.rs:36-41 | mixes the preshared key into all three parts |
| `Noise.SymmetricState.Agree` | crates/tsnode/src/noise.rs:43-47 | mixes the shared secret of a private and a public key |
| `Noise.SymmetricState.Encrypt` | crates/tsnode/src/noise.rs:49-54 | the ciphertext is bound to the transcript before it and then becomes part of it |
| `Noise.SymmetricState.Decrypt` | crates/tsnode/src/noise.rs:56-62 | opens exactly what the same state sealed; a failure leaves the state as it was |
| `Handshake.InitiationUnderstood` | crates/tsnode/src/wireguard.rs:160-197 | an initiation for our key is always consumed, names the right initiator and stamp, and leaves the responder in the initiator's own state |
| `Handshake.AnswersMatch` | crates/tsnode/src/wireguard.rs:379-423 | the two halves of the response mix to one state for all keys |
| `Handshake.HandshakeAgrees` | crates/tsnode/src/wireguard.rs:267-298 | from any two tunnel states with each other's keys, initiation, acceptance and response succeed and leave mirrored send and receive keys and indices (section 5.4 of the WireGuard whitepaper) |
| `Handshake.KeysNeverShared` | crates/tsnode/src/wireguard.rs:440-488 | two of the five keys any two handshakes derive are the same if and only if they have the same place and the same values entered them: initiator ephemeral and responder, then initiator, then responder ephemeral; so an initiation answered twice gives different response and transport keys |
| `HandshakeShape.InitiationSent` | crates/tsnode/src/wireguard.rs:267-298 | the initiation sent is the term of section 5.4.2 of the WireGuard whitepaper written out, transcript hashes, keys and mac1 included, and the state kept is its chaining key and hash |
| `HandshakeShape.InitiationReadIff` | crates/tsnode/src/wireguard.rs:160-197 | an initiation is taken if and only if it is that term for our key, and then names its peer, stamp, index and ephemeral and leaves that chaining key and hash |
| `HandshakeShape.ResponseSent` | crates/tsnode/src/wireguard.rs:440-488 | the answer is the response term that goes on from the initiation taken, and the new session, its keys written out, replaces the current one, which becomes the previous |
| `HandshakeShape.PendingWasSent` | crates/tsnode/src/wireguard.rs:267-298 | in every run a pending initiation is one the tunnel sent |
| `HandshakeShape.ResponseReadIff` | crates/tsnode/src/wireguard.rs:379-408 | an initiator accepts a response if and only if it is the term that goes on from the initiation it waits on |
| `HandshakeShape.ResponseInstalls` | crates/tsnode/src/wireguard.rs:408-437 | the tunnel it then has, field by field, with the keys written out and what waited sealed first |
| `HandshakeShape.ResponseRefused` | crates/tsnode/src/wireguard.rs:379-407 | a refused response leaves the pending initiation and everything else |
| `HandshakeShape.InitiationMacBinds` | crates/tsnode/src/wireguard.rs:160-170 | an initiation changed in any field under the same mac1 is refused for its mac1 |
| `HandshakeShape.ResponseMacBinds` | crates/tsnode/src/wireguard.rs:379-389 | and so is a response, with the tunnel left as it was |
| `HandshakeRuns.PayloadKeysOnce` | crates/tsnode/src/wireguard.rs:267-488 | in every run of a tunnel, in both roles, no key seals a handshake payload twice |
| `Tunnel.ConsumeInitiation` | crates/tsnode/src/wireguard.rs:160-197 | the step-by-step code computes the specified outcome, errors in the same order |
| `Tunnel.BuildInitiation` | crates/tsnode/src/wireguard.rs:267-298 | the step-by-step code builds the specified message and state |
| `Tunnel.OpenResponse` | crates/tsnode/src/wireguard.rs:396-408 | derives the session keys exactly when the empty payload opens |
| `Tunnel.SealResponse` | crates/tsnode/src/wireguard.rs:452-471 | seals the empty payload and derives the responder's keys |
| `Tunnel.Tunn.constructor` | crates/tsnode/src/wireguard.rs:223-237 | a new tunnel is the specification's start |
| `Tunnel.Tunn.NewInitiation` | crates/tsnode/src/wireguard.rs:267-298 | replaces the pending initiation, counting attempts |
| `Tunnel.Tunn.InitiateIfNeeded` | crates/tsnode/src/wireguard.rs:302-316 | initiates only without a session, not within REKEY_TIMEOUT, and gives up after 18 attempts with the queue cleared |
| `Tunnel.Tunn.Encapsulate` | crates/tsnode/src/wireguard.rs:319-354 | new tunnel state and messages are those of the specification, with live sessions and replay windows in place |
| `Tunnel.LiveSession.Seal` | crates/tsnode/src/wireguard.rs:363-376 | pads to 16, seals under the next counter and advances it by one |
| `Tunnel.Tunn.FlushQueue` | crates/tsnode/src/wireguard.rs:425-437 | seals everything queued in order under the current session and empties the queue |
| `Tunnel.Tunn.ConsumeResponse` | crates/tsnode/src/wireguard.rs:379-423 | errors leave the tunnel alone; success installs the session, retires the current one and flushes the queue |
| `Tunnel.Tunn.AcceptInitiation` | crates/tsnode/src/wireguard.rs:440-488 | refuses a stranger or a stamp not above the newest accepted (`InitiationRuns.AnsweredIff`); otherwise answers and installs the session |
| `Tunnel.Tunn.ConsumeTransport` | crates/tsnode/src/wireguard.rs:491-543 | session lookup, expiry, decryption, replay check and confirmation, in the specification's order and with its state on each outcome |
| `Tunnel.Tunn.Tick` | crates/tsnode/src/wireguard.rs:546-578 | drops expired sessions, retries, and sends a keepalive exactly when due |
| `Tunnel.Trim` | crates/tsnode/src/wireguard.rs:535-542 | cuts a packet to the length in its IP header, never beyond its end |
| `InitiationRuns.StampsIncrease` | crates/tsnode/src/wireguard.rs:440-451 | in every run the timestamps of the initiations answered, read from the messages, are strictly increasing, and the newest is the one remembered |
| `InitiationRuns.AnsweredIff` | crates/tsnode/src/wireguard.rs:440-451 | after any run an initiation is answered if and only if it decrypts, names the peer, and its timestamp is above 0 and above that of every initiation answered before |
| `InitiationRuns.NeverAnsweredTwice` | crates/tsnode/src/wireguard.rs:440-451 | an initiation answered once is refused ever after, with nothing sent and nothing changed |
| `TunnelSteps.InitiateExact` | crates/tsnode/src/wireguard.rs:302-316 | exactly when an initiation goes out, when the attempt is given up with the queue cleared, and when nothing happens |
| `TunnelSteps.SendExact` | crates/tsnode/src/wireguard.rs:319-361 | exactly when a packet is sealed and under what, when the session is renewed (120 s or 2^60 messages, initiator only, none pending), and what is queued otherwise |
| `TunnelSteps.TransportExact` | crates/tsnode/src/wireguard.rs:491-543 | a transport message is taken if and only if it opens under the usable session its index addresses with a fresh counter; the whole tunnel after it; nothing changes otherwise |
| `TunnelSteps.SlotExact` | crates/tsnode/src/wireguard.rs:503-522 | which session an index addresses, the current one first |
| `TunnelSteps.TickExact` | crates/tsnode/src/wireguard.rs:546-578 | exactly which sessions a tick drops, when it retries or gives up, and when it sends a keepalive |
| `TunnelSteps.KeepaliveIff` | crates/tsnode/src/wireguard.rs:546-578 | in every run a tick sends a keepalive if and only if a session is younger than 180 s, a packet heard is unanswered, the last message was heard less than 20 s ago and none was sent for 10 s, all read off the messages |
| `TunnelRuns.RunKeeps` | crates/tsnode/src/wireguard.rs:319-578 | over every run: key freshness, sealed counters and opened counters stay consistent with the sessions |
| `TunnelRuns.NoncesUnique` | crates/tsnode/src/wireguard.rs:363-376 | in no run of a tunnel is a (key, counter) pair sealed twice |
| `TunnelRuns.UsedExactly` | crates/tsnode/src/wireguard.rs:363-376 | the counters sealed under the current key are exactly 0 up to its send counter |
| `TunnelRuns.RetiredForever` | crates/tsnode/src/wireguard.rs:408-422 | a key that has left current seals nothing in any continuation of the run |
| `TunnelRuns.LeavingRetires` | crates/tsnode/src/wireguard.rs:471-487 | whenever the current session changes or goes, its key is retired from then on |
| `TunnelRuns.SealsCurrent` | crates/tsnode/src/wireguard.rs:319-354 | an event seals only under the session that is current when it returns, with consecutive counters |
| `TunnelRuns.OutIsSeals` | crates/tsnode/src/wireguard.rs:319-376 | the transport messages an event sends are exactly its sealed packets, in order |
| `TunnelRuns.PacketsConserved` | crates/tsnode/src/wireguard.rs:319-437 | packets sealed and packets waiting are, as a bag, among the packets offered |
| `Delivery.RunInv` | crates/tsnode/src/wireguard.rs:319-543 | invariant of two tunnels joined by a network that drops, duplicates and reorders, and delivers whatever an outsider can make of what it saw |
| `Delivery.SessionGuarded` | crates/tsnode/src/wireguard.rs:379-488 | the shared secret of the two static keys has entered every session key |
| `Outsider.DerivedSafe` | crates/tsnode/src/wireguard.rs:160-376 | an outsider who knows every secret but the two static ones, and all messages sent, derives neither the static secret nor a key it entered, nor a new ciphertext under one |
| `Outsider.GuardedWasShown` | crates/tsnode/src/wireguard.rs:491-543 | a ciphertext under such a key in a message anyone can send was sent by an end |
| `Outsider.ReplayCanSend` | crates/tsnode/src/wireguard.rs:491-543 | every message sent can be sent again by the network |
| `Delivery.NotOurs` | crates/tsnode/src/wireguard.rs:491-543 | an end never opens what it sealed itself: its send and receive keys never coincide |
| `Delivery.SessionsMatch` | crates/tsnode/src/wireguard.rs:379-488 | two live sessions at the two ends that share one key share both, crosswise, and have opposite roles |
| `Delivery.DeliveredWasSealed` | crates/tsnode/src/wireguard.rs:491-543 | whatever one end opens, the other sealed under the same key and counter, and no (key, counter) is opened twice, with any message an outsider can derive on the network |
| `Delivery.TrimUndoesPad` | crates/tsnode/src/wireguard.rs:590-596 | padding and trimming give back, byte for byte, every IPv4 packet whose bytes 2 and 3 hold its length and every IPv6 packet whose bytes 4 and 5 hold its payload's |
| `Delivery.TrimExact` | crates/tsnode/src/wireguard.rs:535-542 | a packet is cut to the length its header bytes give when all of it is there, and left alone otherwise |
| `Delivery.PadLeast` | crates/tsnode/src/wireguard.rs:363-368 | padding adds the fewest zeros that make the length a multiple of 16 |
| `IpBytes.LengthRead` | crates/tsnode/src/wireguard.rs:590-597 | the length is read from bytes 2 and 3 of an IPv4 header, and 4 and 5 of an IPv6 header plus 40, and from nothing else |
| `IpBytes.SourceRead` | crates/tsnode/src/magicsock.rs:1287-1298 | the source address is bytes 12 to 15, or 8 to 23 |
| `IpBytes.DestRead` | crates/tsnode/src/magicsock.rs:1274-1285 | the destination address is bytes 16 to 19, or 24 to 39 |
| `IpBytes.TupleRead` | crates/tsnode/src/filter.rs:195-257 | protocol, addresses, port and the established flag are read exactly where the bytes of the two headers hold them, and nothing is read from truncated packets and later fragments |
| `IpBytes.ExtensionHeaderRead` | crates/tsnode/src/filter.rs:191-250 | an IPv6 packet with an extension header is read as one of that protocol, not refused as the comment says |
| `IpBytes.V6RefusedIff` | crates/tsnode/src/filter.rs:191-250 | an IPv6 packet is refused if and only if it is too short for its TCP or UDP header |
| `Delivery.DeliveredAmongOffered` | crates/tsnode/src/wireguard.rs:319-376 | when offered packets are as long as their headers say, the packets delivered at the other end are, as a bag, among those offered: nothing altered, nothing delivered twice |
| `TunnelTimers.InitiationsSpaced` | crates/tsnode/src/wireguard.rs:289-316 | in every run below REKEY_AFTER_MESSAGES any two initiations are at least REKEY_TIMEOUT apart and attempts stay in 1..18 |
| `TunnelTimers.QueueHoldsLast` | crates/tsnode/src/wireguard.rs:356-361 | the queue is always the last at most 8 packets queued since its last flush or clear |
| `TunnelTimers.SilenceIsBounded` | crates/tsnode/src/wireguard.rs:546-562 | under ticks alone at most a fixed number of further messages is sent, and a tunnel at rest stays silent |
| `TunnelTimers.SilenceEnds` | crates/tsnode/src/wireguard.rs:546-562 | with a silent peer and ticks at most any given time apart, a computable time later there is no attempt, no session and an empty queue |
| `ControlHandshake.ClientHandshake.constructor` | crates/tsnode/src/controlbase.rs:71-105 | builds the specified initiation and state |
| `ControlHandshake.ClientHandshake.Finish` | crates/tsnode/src/controlbase.rs:112-144 | the keys or the failure of the specification, for every response frame |
| `ControlHandshake.ServerHandshake` | crates/tsnode/src/controlbase.rs:154-197 | the server's outcome for every initiation frame |
| `ControlHandshake.HandshakeAgrees` | crates/tsnode/src/controlbase.rs:70-197 | for all keys and versions the server accepts, identifies the machine, and both ends get mirrored keys (section 7.5 of the Noise specification) |
| `ControlHandshake.VersionBound` | crates/tsnode/src/controlbase.rs:52-54 | a version changed on the way is always caught |
| `ControlHandshake.WrongServer` | crates/tsnode/src/controlbase.rs:71-105 | a server with another static key refuses the initiation |
| `ControlHandshake.InitiationSent` | crates/tsnode/src/controlbase.rs:71-105 | the initiation sent is the Noise IK message written out, prologue and transcript hashes included |
| `ControlHandshake.ServerAcceptsIff` | crates/tsnode/src/controlbase.rs:154-197 | the server accepts a frame as a machine's if and only if it is that message for its key; its response and keys go on from there |
| `ControlHandshake.ClientAcceptsIff` | crates/tsnode/src/controlbase.rs:112-144 | the client accepts a response if and only if it goes on from its initiation, and has those keys |
| `ControlHandshake.KeysNeverShared` | crates/tsnode/src/controlbase.rs:70-197 | with one server, two of the five keys any two handshakes derive are the same if and only if they have the same place and the same values entered them: client ephemeral, then machine, then server ephemeral; so an initiation answered twice gives different response and transport keys |
| `Camera.DevState.BeginOpen` | firmware/src/camera.rs:467-471 | marks the device in use and forgets an old close request |
| `Camera.DevState.EndOpen` | firmware/src/camera.rs:474-502 | installs the handle, or hands back the duty to close it when a disconnect came meanwhile |
| `Camera.DevState.OpenFailed` | firmware/src/camera.rs:476-482 | a failed open leaves nothing owed |
| `Camera.DevState.Claim` | firmware/src/camera.rs:514-527 | takes the handle only when it is not in use |
| `Camera.DevState.Release` | firmware/src/camera.rs:529-538 | gives the handle back, or takes over its close |
| `Camera.DevState.Disconnect` | firmware/src/camera.rs:237-245 | closes at once when idle, else leaves the close to the thread in the call |
| `Camera.DevState.NextFrame` | firmware/src/camera.rs:268-272 | counts a frame, saturating |
| `Camera.HandleSafety` | firmware/src/camera.rs:510-540 | over every interleaving: each handle closed at most once, never with a call in flight, no call after its close, every disconnected handle closed or its close owed, and pending_close implies in_use |
| `Camera.DebtPaid` | firmware/src/camera.rs:529-538 | from any reachable state the close is done once the owing thread has taken at most two steps, whatever others do in between |
| `Camera.DebtMoves` | firmware/src/camera.rs:231-247 | no other thread's step takes the debt away and each own step brings the close nearer |
| `Camera.DebtorCanMove` | firmware/src/camera.rs:529-538 | the owing thread is never blocked |
| `Camera.SnapshotsFresh` | firmware/src/camera.rs:598-630 | every snapshot is the newest stored frame of its moment, and at least skip + 1 frames were stored after it read its starting number, reopens included |
| `Camera.AnswerExact` | firmware/src/camera.rs:598-630 | without a reopen in between, a snapshot can be answered exactly when skip + 1 frames have been stored since it was asked for |
| `Camera.WarmupExact` | firmware/src/camera.rs:266-284 | in every run the frame counter is the number of frames since a stream was installed or started, and a frame is stored if and only if it is not one of the first two and has four bytes |
| `Camera.SequenceCounts` | firmware/src/camera.rs:278-284 | the sequence number is the number of frames stored since the last open reset it |
| `Camera.CapturedAfterIff` | firmware/src/camera.rs:594-608 | with one driver task a snapshot is sure to be a frame whose callback counted it after the call if and only if it skips a frame or none is counted and waiting to be stored when it is made |
| `Camera.SnapshotCanBeOld` | firmware/src/camera.rs:265-284 | a run from the start, stream opened and started by a first snapshot, in which a frame counted before the call and stored after it is handed out |
| `Netstack.ConnState.Read` | crates/tsnode/src/netstack.rs:275-301 | takes the next bytes in order and wakes the poll thread exactly when the buffer had been full |
| `Netstack.ConnState.Write` | crates/tsnode/src/netstack.rs:304-331 | accepts what there is room for, in order, and nothing after a close |
| `Netstack.ConnState.Drain` | crates/tsnode/src/netstack.rs:541-549 | moves received bytes in order until the socket is empty or the buffer full, by at most 1023 bytes over the limit |
| `Netstack.ConnState.Push` | crates/tsnode/src/netstack.rs:550-560 | hands over a prefix of what is queued, each byte once |
| `Netstack.ConnState.Visit` | crates/tsnode/src/netstack.rs:535-590 | one look at a connection is the specified transition |
| `Netstack.ConnState.Settle` | crates/tsnode/src/netstack.rs:561-577 | closes gracefully only when nothing is left to hand over, and notices the peer's end |
| `Netstack.NeverSleepsThroughWork` | crates/tsnode/src/netstack.rs:403-448 | in every interleaving, waiting work has the wake flag or shutdown set; while the poll thread sleeps every connection needing a look has the flag, shutdown, or a caller of that connection about to set it |
| `Netstack.BytesConserved` | crates/tsnode/src/netstack.rs:275-352 | bytes handed over are a prefix of bytes accepted, bytes read a prefix of bytes received, buffers in between and bounded by 32768 and 16384 + 1023, and a graceful close follows the last byte |
| `Netstack.ClosedIsFinal` | crates/tsnode/src/netstack.rs:561-565 | after a graceful close nothing more is accepted or handed over |
| `Netstack.FallsAsleepIdle` | crates/tsnode/src/netstack.rs:597-610 | the poll thread falls asleep if and only if it was neither woken nor shut down, and then nothing waits and every connection needing a look has a caller about to wake it |
| `Netstack.ShutdownFinal` | crates/tsnode/src/netstack.rs:403-409 | a stack shut down stays so and its poll thread takes up nothing any more |
| `Netstack.AbortedStays` | crates/tsnode/src/netstack.rs:561-565 | a connection aborted before it was closed gracefully is never closed so |
| `Netstack.ReadMost` | crates/tsnode/src/netstack.rs:275-301 | a read takes the next bytes, as many as asked for or all there are |
| `Netstack.WriteMost` | crates/tsnode/src/netstack.rs:304-331 | a write takes the front of its data, all of it or as much as fills the buffer to 32 KiB |
| `Netstack.InboundBounded` | crates/tsnode/src/netstack.rs:173-182 | in every run at most 256 packets wait |
| `Netstack.InjectExact` | crates/tsnode/src/netstack.rs:173-182 | a packet is dropped exactly when that many wait |
| `Filter.CidrIsBlock` | crates/tsnode/src/filter.rs:70-92 | a prefix holds exactly the aligned block of addresses around its network address, both families and over-long prefixes included |
| `Filter.CidrIsInBlock` | crates/tsnode/src/filter.rs:70-92 | an address matches a prefix if and only if it lies between the first and the last address of its block, said in numbers |
| `Filter.ContainsIsInSet` | crates/tsnode/src/filter.rs:53-68 | what a set contains is everything, its block, or what lies between its bounds inclusive |
| `Filter.CompiledMeans` | crates/tsnode/src/filter.rs:131-150 | a compiled rule matches exactly what the rule as sent permits in its own numbers: protocol, source in a block or range, destination in one with the port between its bounds for 6 and 17; entries that do not parse left out |
| `Filter.FilterExact` | crates/tsnode/src/filter.rs:162-189 | the filter passes exactly established TCP segments and what some rule permits |
| `Filter.ProtoFaithfulIff` | crates/tsnode/src/filter.rs:103-112 | a rule admits exactly the protocols it lists if and only if it lists none or at least one that fits a byte |
| `Filter.OutOfRangeProtoOpensTcp` | crates/tsnode/src/filter.rs:131-150 | a rule restricted to protocol 300 admits TCP |
| `FilterSets.Node.HandleMapResponse` | crates/tsnode/src/node.rs:455-588 | sets and filter after a map message, keep-alives ignored |
| `FilterSets.Node.MergeNamed` | crates/tsnode/src/node.rs:569-582 | a value replaces, a null deletes, in any order of the names |
| `FilterSets.Node.CollectRules` | crates/tsnode/src/node.rs:583-587 | the rules of all sets, whose filter does not depend on their order |
| `FilterSets.CompileReflects` | crates/tsnode/src/node.rs:583-587 | every order of the sets compiles to a filter with the same meaning |
| `FilterSets.SetsAreLastWords` | crates/tsnode/src/node.rs:560-588 | after any messages each name holds the last word said about it, a legacy filter clearing all others |
| `FilterSets.WordsArePermits` | crates/tsnode/src/node.rs:560-588 | what the sets permit is what some rule in the last words permits |
| `FilterSets.FeedAll` | crates/tsnode/src/node.rs:455-588 | a node fed any messages has a filter exactly if one that is no pure keep-alive carried one, and it permits exactly established TCP plus the last words |
| `MagicSock.MagicSock.SetPeers` | crates/tsnode/src/magicsock.rs:274-298 | the table after a full list, tunnels of peers already known carried over |
| `MagicSock.MagicSock.PeersChanged` | crates/tsnode/src/magicsock.rs:300-321 | the table after changed peers, disco index included |
| `MagicSock.MagicSock.PeersRemoved` | crates/tsnode/src/magicsock.rs:322-334 | removed peers leave no entry in either index |
| `MagicSock.MagicSock.SetNodeKey` | crates/tsnode/src/magicsock.rs:339-350 | every tunnel rebuilt with the new key, the index emptied, trust withdrawn |
| `MagicSock.MagicSock.ApplyPatches` | crates/tsnode/src/magicsock.rs:362-392 | patched peers, the disco index following a new disco key |
| `MagicSock.MagicSock.RefreshIndices` | crates/tsnode/src/magicsock.rs:416-425 | exactly the tunnel's live indices map to the peer, other peers' entries kept unless taken over |
| `MagicSock.MagicSock.NotePath` | crates/tsnode/src/magicsock.rs:829-847 | renews trust in the same address, keeps a trusted one, otherwise roams |
| `MagicSock.MagicSock.HandlePacket` | crates/tsnode/src/magicsock.rs:711-822 | new table, packet for the sink and messages sent, each with where it goes, are those of the specification |
| `MagicSock.MagicSock.HandleInitiation` | crates/tsnode/src/magicsock.rs:726-751 | an initiation updates table and path only when decrypted, known and accepted, and is then answered over the path it came by |
| `MagicSock.MagicSock.HandleResponse` | crates/tsnode/src/magicsock.rs:752-778 | a response reaches the tunnel its index maps to, and what waited for it goes out over the path chosen then |
| `MagicSock.MagicSock.SendAll` | crates/tsnode/src/magicsock.rs:428-437 | every message of a batch goes over the path the peer has at that moment, in order |
| `MagicSock.MagicSock.ChoosePath` | crates/tsnode/src/magicsock.rs:428-446 | the trusted direct path, else the relay, else the first endpoint |
| `MagicSock.MagicSock.HandleTransport` | crates/tsnode/src/magicsock.rs:779-817 | decryption, source check, path, filter, in this order |
| `MagicSock.MagicSock.HandlePong` | crates/tsnode/src/magicsock.rs:900-929 | the answered ping is taken out and may install its address as best |
| `MagicSock.MagicSock.Ping` | crates/tsnode/src/magicsock.rs:949-966 | records the ping, dropping old ones when there are many |
| `MagicSock.MagicSock.CallMeMaybe` | crates/tsnode/src/magicsock.rs:930-947 | endpoints are added in order, without repeats, up to 16 |
| `MagicSock.MagicSock.CheckPath` | crates/tsnode/src/magicsock.rs:1042-1058 | a path is dropped exactly when there is traffic and its trust has ended |
| `MagicSock.MagicSock.Route` | crates/tsnode/src/magicsock.rs:1255-1265 | the longest covering prefix wins; none is found exactly when none covers the address |
| `MagicSock.MagicSock.SendIp` | crates/tsnode/src/magicsock.rs:396-415 | a packet goes into the tunnel of a peer with the longest prefix whose block holds the destination in its header bytes, or nowhere exactly when there is none |
| `MagicSock.MagicSock.Tick` | crates/tsnode/src/magicsock.rs:664-681 | every tunnel is ticked once whatever the order, what it sends goes to its peer, and the indexes stay right when draws are fresh |
| `PeerIndex.SetPeersExact` | crates/tsnode/src/magicsock.rs:274-298 | any list, repeated keys included, leaves exactly the peers it names and a sound receiver index; a known peer named once keeps its tunnel, pings and at most its trust, any other is new |
| `PeerIndex.TunnelKeptIff` | crates/tsnode/src/magicsock.rs:274-298 | a known peer a list names keeps its tunnel if and only if it is named once or the tunnel was new anyway, and so with its pings |
| `PeerIndex.RepeatedKeyReplaces` | crates/tsnode/src/magicsock.rs:274-298 | a list with one node twice drops that peer's tunnel and its session |
| `PeerIndex.SetPeersDiscoIff` | crates/tsnode/src/magicsock.rs:274-298 | for every list, repeated keys included, the disco index names only peers with that disco key if and only if the last node with each disco key belongs to a peer whose own last node has it |
| `PeerIndex.RepeatedKeyBreaks` | crates/tsnode/src/magicsock.rs:274-298 | a list with one key twice and two disco keys leaves the disco index naming a peer with another disco key |
| `PeerIndex.ChangeKeeps` | crates/tsnode/src/magicsock.rs:300-321 | changed peers keep both indexes sound |
| `PeerIndex.RemoveKeeps` | crates/tsnode/src/magicsock.rs:322-334 | removed peers keep both indexes sound |
| `PeerIndex.PatchKeeps` | crates/tsnode/src/magicsock.rs:362-392 | patches keep both indexes sound |
| `PeerIndex.RekeyKeeps` | crates/tsnode/src/magicsock.rs:339-350 | a new node key keeps both indexes sound |
| `PeerIndex.PacketKeeps` | crates/tsnode/src/magicsock.rs:711-822 | every received packet keeps both indexes sound |
| `PeerIndex.DriveKeeps` | crates/tsnode/src/magicsock.rs:396-425 | sending and ticking keep both indexes sound |
| `PeerIndex.DispatchIsScan` | crates/tsnode/src/magicsock.rs:752-817 | dispatch by the index map is dispatch to the peer a scan of all tunnels finds; with no owner the packet changes nothing |
| `PeerIndex.StaleRefused` | crates/tsnode/src/magicsock.rs:752-817 | a stale index entry leads only to rejection with the table unchanged |
| `PeerIndex.GateExact` | crates/tsnode/src/magicsock.rs:779-816 | a packet reaches the sink if and only if some present peer's unexpired session opens it under a fresh counter, its source is allowed and the filter passes it |
| `PeerIndex.MaySendIff` | crates/tsnode/src/magicsock.rs:793-799 | a source passes if and only if the source address in the header bytes lies in the block of one of the peer's prefixes |
| `PeerRuns.RunSound` | crates/tsnode/src/magicsock.rs:274-425 | in every reachable state, whatever lists came: the receiver index sound, each tunnel where its own life led it, trust grounded in evidence, pings accounted for |
| `PeerRuns.DiscoStaysSound` | crates/tsnode/src/magicsock.rs:274-394 | in every run whose last full list agreed with itself, the disco index names only peers with that disco key |
| `PeerRuns.DirectIsFresh` | crates/tsnode/src/magicsock.rs:428-437 | a message sent on the direct path goes to an address the peer was heard on less than 6.5 s before, by an authenticated message or the answer to a ping of ours to it, each ping counting once, and under the peer's own disco key if the last full list agreed with itself |
| `PeerRuns.EvidenceSource` | crates/tsnode/src/magicsock.rs:829-929 | every piece of evidence comes from one event of the run, a message the peer's tunnel accepted over that address or a pong under its disco key |
| `PeerRuns.FromIsAuthentic` | crates/tsnode/src/magicsock.rs:726-817 | WireGuard evidence is a message the peer's tunnel accepted |
| `PeerRuns.EvidencePast` | crates/tsnode/src/magicsock.rs:829-847 | evidence is never later than the latest clock reading |
| `PeerRuns.FilterInForce` | crates/tsnode/src/node.rs:560-588 | in every run the filter in force is compiled from the rule sets the map messages so far have left, and there is none until one carries one |
| `PeerRuns.FilterIsWords` | crates/tsnode/src/magicsock.rs:806-812 | it lets a packet through if and only if a map message carried a filter and the packet is established TCP or some rule said last permits it |
| `PeerRuns.DeliveredExactly` | crates/tsnode/src/magicsock.rs:779-816 | in every run a packet reaches the sink if and only if some present peer's unexpired session opens it under a fresh counter, the source address in its header bytes lies in one of the peer's prefixes and the map messages so far permit the tuple in its bytes; it is then the first opening of that key and counter in the life of the tunnel |
| `PeerPaths.RouteExact` | crates/tsnode/src/magicsock.rs:428-446 | exactly when each route is taken: the direct address while its trust runs past now, else the home relay, else the first endpoint, else none; so nothing goes to an unvouched address while a relay is known |
| `PeerPaths.ConfigIsLastWord` | crates/tsnode/src/magicsock.rs:274-394 | in every run the peers are exactly those control last said are there, each with the disco key, home relay and prefixes it was last given, prefixes of length 0 and no others left out |
| `PeerPaths.RelayedIff` | crates/tsnode/src/magicsock.rs:428-446 | in every run a message is relayed if and only if no direct address is trusted and control last named a home relay, and to that one |
| `PeerPaths.DeliveredAsTold` | crates/tsnode/src/magicsock.rs:779-816 | what is delivered comes from a source address in a prefix control last listed for a peer that is still there |
| `PeerPaths.ListConfigures` | crates/tsnode/src/magicsock.rs:274-298 | after a full list each peer is as its last node says, endpoints included |
| `PeerPaths.ChangeExact` | crates/tsnode/src/magicsock.rs:300-321 | a changed node: configuration from the node, tunnel and pings kept, the path kept unless the disco key changed, the disco index following, all other peers untouched |
| `PeerPaths.RemoveExact` | crates/tsnode/src/magicsock.rs:322-334 | a removed peer takes its disco key and every index that led to it, and nothing else |
| `PeerPaths.PatchExact` | crates/tsnode/src/magicsock.rs:362-392 | a patch changes just what it carries |
| `PeerPaths.RekeyExact` | crates/tsnode/src/magicsock.rs:339-350 | a new node key keeps configuration and pings, and takes sessions, path and index |
| `PeerPaths.RefreshExact` | crates/tsnode/src/magicsock.rs:416-425 | exactly a tunnel's live indices lead to it, and no other peer loses one it did not take |
| `PeerPaths.StrayIndex` | crates/tsnode/src/magicsock.rs:752-791 | an index that leads to nobody is forgotten with the message that came for it |
| `PeerPaths.HeardExact` | crates/tsnode/src/magicsock.rs:829-847 | an authenticated packet over UDP leaves a direct path: its own address for 6.5 s, unless another is trusted now |
| `PeerPaths.PongExact` | crates/tsnode/src/magicsock.rs:900-929 | an answered ping leaves a direct path: the pinged address for 6.5 s, unless another is trusted now and at most 5 ms slower; that ping alone is taken out, and a pong that answers none changes nothing |
| `PeerPaths.CheckExact` | crates/tsnode/src/magicsock.rs:1042-1058 | a path is dropped exactly when its trust has ended |
| `PeerPaths.PingExact` | crates/tsnode/src/magicsock.rs:949-960 | a ping waits for its answer; an earlier one still does if and only if there were at most 32 or it is less than 10 s old |
| `PeerPaths.CallMeExact` | crates/tsnode/src/magicsock.rs:930-947 | known endpoints stay in front, only announced ones follow without repeats, and one is missing only if there are 16 |
| `PeerPaths.LearntJoin` | crates/tsnode/src/magicsock.rs:930-947 | endpoints announced in two messages or in one are learnt alike |
| `PeerPaths.AnswersGoBack` | crates/tsnode/src/magicsock.rs:726-778 | an answer to an initiation goes back the way it came, flushed packets go in order by the peer's route, and a message that authenticates nobody sends nothing |
| `Framing.SplitsIrrelevant` | crates/tsnode/src/h2.rs:366-391 | for every splitting of a stream into reads an incremental decoder yields the frames, order, kept suffix and failure of the whole stream |
| `Framing.FramesComeOut` | crates/tsnode/src/h2.rs:366-391 | bytes that read as given frames, followed by anything, come out as those frames in order and then what the rest gives, however split; an incomplete rest is kept |
| `Framing.H2FramesComeOut` | crates/tsnode/src/h2.rs:366-391 | HTTP/2 frames within the limits, pushed one after the other, come out exactly, in order and with the suffix kept, for every split |
| `Framing.DerpFramesComeOut` | crates/tsnode/src/derp.rs:234-253 | DERP frames within the limit come out exactly, in order and with the suffix kept, for every split |
| `Framing.MapMessagesComeOut` | crates/tsnode/src/control.rs:283-304 | length-prefixed JSON texts come out as what they decode to, in order and with the suffix kept, for every split |
| `Framing.H2Incremental` | crates/tsnode/src/h2.rs:366-391 | the HTTP/2 decoder never changes its mind with more bytes |
| `Framing.H2RoundTrip` | crates/tsnode/src/h2.rs:610-619 | a pushed frame reads back as itself if and only if its payload is within 16384 bytes and its stream id below 2^31 |
| `Framing.H2Bytes` | crates/tsnode/src/h2.rs:366-391 | the decoder reads exactly the fields of section 4.1 of RFC 9113 from their bytes, and fails exactly on a length above 16384 |
| `Framing.H2LengthFaithfulIff` | crates/tsnode/src/h2.rs:610-619 | the header states the payload's length if and only if it is below 2^24 |
| `Framing.DerpIncremental` | crates/tsnode/src/derp.rs:234-253 | the DERP decoder never changes its mind with more bytes |
| `Framing.DerpRoundTrip` | crates/tsnode/src/derp.rs:181-188 | a written DERP frame reads back as itself if and only if it is within the limit |
| `Framing.DerpBytes` | crates/tsnode/src/derp.rs:234-253 | a frame is type, big-endian length and payload, and a length above the limit is the only error |
| `Framing.MapIncremental` | crates/tsnode/src/control.rs:283-304 | the map message decoder never changes its mind with more bytes, whatever the JSON decoder |
| `Framing.MapRoundTrip` | crates/tsnode/src/control.rs:283-304 | a length-prefixed message is taken whole exactly when it is within 8 MiB and decodes |
| `Framing.MapBytes` | crates/tsnode/src/control.rs:283-304 | a message is a little-endian length and a text; above 8 MiB or not decoding are the only errors |
| `Streams.DerpClient.WriteFrame` | crates/tsnode/src/derp.rs:181-188 | puts exactly the encoded frame on the wire |
| `Streams.DerpClient.TakeFrame` | crates/tsnode/src/derp.rs:234-253 | takes the first buffered frame and exactly its bytes |
| `Streams.DerpClient.Fill` | crates/tsnode/src/derp.rs:216-232 | moves bytes from the connection to the buffer, losing none |
| `Streams.DerpClient.ReadFrame` | crates/tsnode/src/derp.rs:255-269 | the outcome is that of the whole stream: its first frame and then exactly its bytes are gone; a timeout or a broken transport takes nothing and is reported only without a whole frame |
| `Streams.MapStream.TakeMessage` | crates/tsnode/src/control.rs:283-304 | takes the first buffered message and exactly its bytes |
| `Streams.MapStream.Next` | crates/tsnode/src/control.rs:267-281 | the next message of the whole body; the end is reported only when no whole message is left |
| `Upgrade.FindHeadEnd` | crates/tsnode/src/http1.rs:75-77 | the first blank line, or none anywhere |
| `Upgrade.ReadResponseHead` | crates/tsnode/src/http1.rs:24-73 | the head ends at the first blank line of the whole stream whatever the reads, with everything read past it kept; errors only for a missing end, a long head or a broken transport |
| `Upgrade.ReadResponse` | crates/tsnode/src/controlbase.rs:361-401 | the 51 response bytes are the next ones of the stream, from what came with the head and then from the connection |
| `Upgrade.Dial` | crates/tsnode/src/controlbase.rs:318-405 | on success the stream is head, blank line, response and the records handed to the connection, in order and without loss; it fails only if the transport did or the server did not agree |
| `Upgrade.SkipEarly` | crates/tsnode/src/control.rs:118-140 | the prefix and the plaintext behind it are the stream after the early payload, which is dropped only when its magic is there |
| `Upgrade.EarlyExact` | crates/tsnode/src/control.rs:118-140 | an early payload of up to 1 MiB behind its magic and length is dropped and only that; a stream that begins otherwise is left as it is |
| `Upgrade.DialControl` | crates/tsnode/src/control.rs:108-141 | on a successful dial every byte the server sent reaches the head, the response or the records, and the records' plaintext less the early payload is what HTTP/2 gets, in order; it fails only if the transport, the upgrade or the early payload does |
| `NoiseStream.NoncesDiffer` | crates/tsnode/src/controlbase.rs:34-38 | byte-swapping 64-bit counters is its own inverse, so different counters never share a nonce |
| `NoiseStream.NonceBytes` | crates/tsnode/src/controlbase.rs:34-38 | a nonce's bytes, least significant first, are its counter's, most significant first |
| `NoiseStream.ChunksWhole` | crates/tsnode/src/controlbase.rs:292-304 | the pieces of a write are the buffer again, none empty, none over the plaintext limit |
| `NoiseStream.ChunksFull` | crates/tsnode/src/controlbase.rs:292-304 | all pieces of a write but the last are of 4077 bytes |
| `NoiseStream.RecordFits` | crates/tsnode/src/controlbase.rs:292-304 | every record fits 4096 bytes and its header states its length |
| `NoiseStream.RecordTakenBack` | crates/tsnode/src/controlbase.rs:239-275 | a record opens to what was sealed, with what follows untouched |
| `NoiseStream.RecordCut` | crates/tsnode/src/controlbase.rs:239-275 | part of a record is never mistaken for one |
| `NoiseStream.RecordBytes` | crates/tsnode/src/controlbase.rs:239-275 | a record is read if and only if its bytes are 4, a length between 16 and 4093 and that many that open; what else is an error |
| `NoiseStream.FailedReadTakes` | crates/tsnode/src/controlbase.rs:239-266 | what a failed read takes of a stream that is all there: an error message or an unopened record whole, of anything else three bytes |
| `NoiseStream.ReadTakesFront` | crates/tsnode/src/controlbase.rs:278-289 | a read hands out the next plaintext bytes and loses none |
| `RecordRuns.ReadsOn` | crates/tsnode/src/controlbase.rs:278-289 | in step, a read succeeds whenever a whole record is delivered to it |
| `RecordRuns.ReadIsPrefixOfWritten` | crates/tsnode/src/controlbase.rs:225-309 | for any writes, any part of them arrived and any reads, failed ones included, the bytes read are a prefix of the bytes written and exactly what the reader's record counter holds |
| `RecordRuns.InStepIff` | crates/tsnode/src/controlbase.rs:225-275 | the ends are in step, the next record before the reader being the one its counter is for, if and only if every failed read had taken nothing |
| `RecordRuns.LostForever` | crates/tsnode/src/controlbase.rs:225-275 | once a failed read has taken something no later read hands out anything, however much more arrives, and the reader's counter stands still |
| `RecordRuns.TimeoutLosesStream` | crates/tsnode/src/controlbase.rs:225-275 | a run of the connection: header, timeout, rest; both reads fail although the whole record has come |
| `NoiseStream.NoiseConn.constructor` | crates/tsnode/src/controlbase.rs:212-223 | starts both counters at zero with the leftover in front of the stream |
| `NoiseStream.NoiseConn.ReadRawExact` | crates/tsnode/src/controlbase.rs:225-237 | exactly the next bytes, leftover first; what a failed one has taken is gone, and how much that is |
| `Transport.Conn.ReceiveExact` | crates/tsnode/src/controlbase.rs:232-236 | exactly the next bytes, or failure with exactly those taken until a read did not deliver gone |
| `NoiseStream.NoiseConn.FetchRecord` | crates/tsnode/src/controlbase.rs:239-266 | takes exactly what the transport delivers of the next record and yields its ciphertext exactly when there is all of it |
| `NoiseStream.NoiseConn.ReadRecord` | crates/tsnode/src/controlbase.rs:239-275 | loads the next record, or fails with plaintext and counter unchanged and exactly what was delivered gone |
| `NoiseStream.NoiseConn.Read` | crates/tsnode/src/controlbase.rs:278-289 | hands out the front of the record in hand or the next one, and on failure leaves exactly the stream behind what was delivered |
| `NoiseStream.NoiseConn.ReadExact` | crates/tsnode/src/control.rs:118-140 | exactly the next plaintext bytes; it fails only when the transport did, too few are left, or an empty record comes |
| `NoiseStream.NoiseConn.Write` | crates/tsnode/src/controlbase.rs:292-304 | puts the records of the buffer's pieces on the wire and counts them |
| `H2.RunKeeps` | crates/tsnode/src/h2.rs:129-608 | what every interleaving of requests, DATA, incoming frames and forgotten streams keeps |
| `H2.DataWithinCredit` | crates/tsnode/src/h2.rs:185-220 | no DATA frame is larger than the connection's credit, its stream's credit or the peer's maximum frame, credit being computed from the frames alone (section 6.9.1 of RFC 9113) |
| `H2.WindowsAreBooks` | crates/tsnode/src/h2.rs:448-477 | in every reachable state a request stream's window is the current initial window plus increments less bytes sent, even when negative, and the connection's is never negative (section 6.9.2 of RFC 9113) |
| `H2.CreditNeverStalls` | crates/tsnode/src/h2.rs:561-590 | in every run the peer holds more than half of OUR_WINDOW on the connection, and more than half and at most all of it on every open stream but 0, rejected DATA aside |
| `H2.CreditBoundedIff` | crates/tsnode/src/h2.rs:561-590 | in every run connection credit is within OUR_WINDOW if and only if no DATA on stream 0 was accepted whose stream counter then reached the threshold |
| `H2.UpdatesLegal` | crates/tsnode/src/h2.rs:561-590 | in every run every increment sent lies in 1..2^31-1, and the connection's counter together with what is given back for it grows by the whole payload of DATA, padding included and for unknown streams too (section 6.9 of RFC 9113) |
| `H2.StreamZeroOverflows` | crates/tsnode/src/h2.rs:395-429 | HEADERS on stream 0 followed by eight full DATA frames on it leaves the peer with more than OUR_WINDOW of credit |
| `H2.ChunkLengthFaithfulIff` | crates/tsnode/src/h2.rs:453-456 | a DATA frame is written with its true length if and only if it is not 2^24 bytes long, which the clamp on the peer's maximum allows |
| `H2.LargeChunkLosesLength` | crates/tsnode/src/h2.rs:448-471 | a peer that allows 2^24-byte frames and gives credit for one is sent a DATA frame of that size whose header says it is empty |
| `H2Conn.H2Conn.constructor` | crates/tsnode/src/h2.rs:82-124 | writes preface, settings and the window update the initial credit rests on; bytes read too early are kept |
| `H2Conn.H2Conn.TakeFrame` | crates/tsnode/src/h2.rs:366-391 | takes the first buffered frame and exactly its bytes |
| `H2Conn.H2Conn.ProcessOne` | crates/tsnode/src/h2.rs:337-364 | handles the first frame of the stream whatever the reads, in step with the model, and never writes DATA |
| `H2Conn.H2Conn.HandleFrame` | crates/tsnode/src/h2.rs:393-517 | state and replies are those of the model for every frame |
| `H2Conn.H2Conn.HandleData` | crates/tsnode/src/h2.rs:395-407 | DATA adds its content at the end of the body (`H2Responses.ResponseIsFrames`), counts the whole payload and gives credit back when due |
| `H2Conn.H2Conn.HandleSettings` | crates/tsnode/src/h2.rs:448-471 | every setting in order, each initial-window change shifting all streams |
| `H2Conn.H2Conn.AddHeaderBlock` | crates/tsnode/src/h2.rs:408-436 | header bytes gather on a stream that comes into being if need be |
| `H2Conn.H2Conn.MaybeWindowUpdate` | crates/tsnode/src/h2.rs:561-590 | gives back what was consumed once it reaches the threshold, not for ended streams |
| `H2Conn.H2Conn.SendChunk` | crates/tsnode/src/h2.rs:202-218 | one DATA frame, its bytes off both windows, in step with the model |
| `H2Conn.H2Conn.SendNext` | crates/tsnode/src/h2.rs:187-203 | as much of the rest as both windows and the peer's maximum allow, with END_STREAM exactly at the end of the body |
| `H2Conn.H2Conn.SendBody` | crates/tsnode/src/h2.rs:185-220 | the DATA on the stream is the body in order with END_STREAM on its last frame only, or a proper part of it on failure, whatever frames come in between |
| `H2Conn.H2Conn.Request` | crates/tsnode/src/h2.rs:129-183 | after GOAWAY nothing; otherwise a stream is opened with its HEADERS, ending it when there is no body, and the whole body follows |
| `H2Conn.H2Conn.OpenStream` | crates/tsnode/src/h2.rs:143-180 | the next stream id, a stream with the peer's initial window, and its HEADERS on the wire |
| `H2Conn.H2Conn.ReadBody` | crates/tsnode/src/h2.rs:268-300 | the next body bytes, in order and none twice; at the end everything the stream's DATA frames carried has been handed out and the peer has ended it |
| `H2Conn.H2Conn.ReadFullBody` | crates/tsnode/src/h2.rs:302-320 | with what was handed out before, exactly the contents of the stream's DATA frames in order, once the peer has ended it |
| `H2Conn.H2Conn.ForgetStream` | crates/tsnode/src/h2.rs:322-324 | the stream is gone and no other |
| `H2Responses.ResponseIsFrames` | crates/tsnode/src/h2.rs:393-447 | in every run, for every stream since it came into being: bytes handed out and bytes held are the contents of its DATA frames in order, padding off by its bytes; ended exactly if DATA or HEADERS said so; header bytes, decoded blocks and reset as its frames say |
| `H2Responses.PaddingIff` | crates/tsnode/src/h2.rs:593-608 | stripping yields data exactly from a length byte, the data and that many bytes, and fails on every other payload |
| `H2Responses.AcceptedIff` | crates/tsnode/src/h2.rs:393-517 | frames are refused exactly for a push, padding or priority that does not fit, or a header block too long or undecodable |
| `H2Responses.AnswersExact` | crates/tsnode/src/h2.rs:448-504 | settings and pings are acknowledged exactly when they are no acknowledgements, a ping with its own bytes, and GOAWAY is remembered |
| `H2Responses.SettingsAreSaid` | crates/tsnode/src/h2.rs:448-471 | in every run initial window and maximum frame are the last values said, by their bytes, clamped to 2^14..2^24, or the defaults |
| `H2Responses.IncrementBytes` | crates/tsnode/src/h2.rs:505-513 | a window update is worth the low 31 bits of its four bytes, a short one nothing |
| `H2Responses.SendSizeMost` | crates/tsnode/src/h2.rs:187-203 | what is sent next is the most the rest, both windows and the peer's maximum allow |

## Left out

- `Tunn::reset`, which nothing calls.
- Keepalive and handshake liveness against a responsive peer; only silence is bounded.
- Delivery.DeliveredWasSealed: the two ends have different static keys, and neither static key is known to the outsider.
- TunnelRuns.NoncesUnique: freshness of ephemerals is per tunnel, so nothing is said about two tunnels that draw the same one.
- PeerRuns.DeliveredExactly: first openings are per life of a tunnel; a peer removed and listed again starts a new life.
- MagicSock.MagicSock.SetNodeKey: the node key and the table are two locks in the source and are changed together here, so a packet handled between them is not modelled.
- MagicSock.MagicSock.Ping: when pings and call-me-maybe messages are sent is left to the run; any schedule is covered by the theorems.
- MagicSock.MagicSock.SetPeers: names, status and the removal of neighbouring repeated prefixes are not modelled; the latter changes no containment.
- DERP and STUN threads, home region choice and idle connections.
- Camera `running`, `attached` and format bookkeeping, and which lock is taken first: these lag behind the handle.
- Netstack.ConnState.Write: one round of the waiting loop; time-outs and wake-ups of condition variables are not modelled.
- smoltcp itself: a socket is what it lets be received and how much it takes.
- H2.CreditNeverStalls: DATA rejected for bad padding is not given back; the source gives the connection up after it.
- H2Conn.H2Conn.AddHeaderBlock: header contents and status codes are not kept, only the block and whether it decoded.
- H2Conn.H2Conn.SendBody: nothing is promised about when a failure is returned, only about what has been written by then.
- Upgrade.Dial: what a failed upgrade reports, which depends on how the first read fell; and that a head above 16 KiB is refused, which depends on the reads.
- Upgrade.SkipEarly: an empty record ends a read like the end of the stream, as in the source; a server that sends one may have its early payload refused.
- H2Conn.H2Conn.ReadBody: a deadline may end it while it waits; what it returns without waiting is exact.
- Streams.DerpClient.ReadFrame: the deadline is an arbitrary choice between reads.
- Streams.MapStream.Next: the body of the HTTP/2 stream is a transport of its own here, not read through `H2Conn`; a record stream that has lost its place is one whose reads fail from then on.
- H2Conn.H2Conn.ProcessOne: runs over a transport whose timeouts take nothing of what HTTP/2 is to see. That is the record stream too: a timeout that loses part of a record shows as reads that fail from then on (`RecordRuns.LostForever`).
- The DERP HTTP fallback, `recv` and its packet types, the chunked HTTP/1 body.
- JSON, hpack, base64, TLS, key text formats, disco and STUN codecs, the setup shell, Wi-Fi and USB plumbing.
