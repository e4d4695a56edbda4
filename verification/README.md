# Cathole: a verified model of the tunnel

Cathole carries TCP and UDP services of a home machine through one QUIC connection to a public server, with Noise
inside. This project models the parts of it whose correctness comes from several stateful pieces working together, and
proves what they guarantee in every run.

The UDP path is the core. Payloads are cut into fragments, each sealed under an explicit nonce (`Fragments`, `Crypto`);
the receiver keeps a 1024-bit ring of opened nonces (`Replay`, over the word operations of `Bits`) and a bounded, expiring
reassembly table (`Reassembly`). Neither the ring nor the table alone gives at-most-once delivery, since a completed
message is forgotten by the table; `DatagramChannel` puts them together as a step system with concurrent senders, a
connection that may refuse a datagram, and a network that may lose, repeat, reorder and invent them. `ChannelSafety`
proves what holds in every reachable state, and `Completeness` and `ChannelProgress` prove that what arrives in time is
delivered. `Session` holds the imperative code, `Sender.Send` and `ReadPacket`, and shows that it takes the steps of the
channel and no others, with other senders and the peer at work beside it. `Flows` is the server's two-way table of
public peers; `Replies` composes it with the channel from the client, `Requests` with the channel to the client and the
client's workers (`Forwarding`, with their queues and byte budget), and `RoundTrip` puts both ways over one table;
`TripProgress` proves that packets with room on their way do get through, there and back.

The TCP path is the frame codec (`Frames`), the two loops of the bridge (`Bridge`), and both ends of a bridged connection
with their loops joined, so that an error in one loop stops the other and an orderly end does not (`BridgedLink`). Around
them: turn-taking in the handshake loop (`Handshake`), checking and binding of offers (`Registration`), the set-up of a
session with service-ID agreement (`Setup`), reconnect delays (`Backoff`) and the reload supervisor (`Supervisor`).

## How it is built

- Objects that the program updates in place are classes (`ReplayWindow`, `DatagramCrypto`, `Sender`, `Reassembler`,
  `FlowTable`, `SendStream`, `RecvStream`); loops are methods with invariants. Each is proved against a specification
  function or against the abstract state it stands for, and the properties are lemmas about those.
- A run is any sequence of steps. Each lock-held block, and each `select!` arm between two waits, is one step. Time is a
  natural number of nanoseconds that never goes back.
- The ciphers are ideal. `IdealDecrypt`, one for datagrams and one for streams, opens a ciphertext at a nonce exactly if
  the peer sealed it at that nonce, in that direction; the ciphertext itself is chosen by the environment. A fragment that
  was sealed and then refused by the connection is known to nobody, so it opens for nobody. Where the program calls the
  cipher, the call is a parameter (`Cipher.Encrypt`, `Cipher.Decrypt`). The handshake is an alternation of `k` messages,
  for every `k`.
- Results of other calls are parameters too: whether the connection takes a datagram, whether an attempt to bind succeeds,
  what a read of the configuration file returned, and whether its contents pass parsing, role selection and file checks.
  The JSON of a registration is any encoding that reads back as written and writes out names and tokens.
- The protocol document says that excessive names and tokens fail closed; the configuration check does not exclude them.
  `Setup` gives the exact condition and a checked configuration that can never register.
- Some states carry history that the program does not keep, such as what was sealed, what was delivered, and the message a
  queued packet came in. No step's outcome for the program depends on it.
- Machine words are numbers with 64 binary digits; `Bits` defines `&`, `|`, `!` and `1 << k` on them digit by digit.
- `hide` statements keep definitions out of proofs that do not need them.

## Model

| member | source | states |
|---|---|---|
| Bytes.DecodeEncode | src/datagram.rs:42-46 | reading a big-endian integer back gives the value, for every value that fits the width |
| Bytes.EncodeDecode | src/datagram.rs:80-84 | every octet string is the big-endian encoding of the value read from it |
| Bytes.MostSignificantFirst | docs/protocol.md:69 | the first octet of an encoded integer weighs most |
| Bits.TestAfterSet | src/crypto.rs:294 | `w \| (1 << i)` changes the answer of `w & (1 << k) != 0` for `k == i` only |
| Bits.TestAfterUnset | src/crypto.rs:289 | `w & !(1 << i)` clears that answer for `k == i` only |
| Replay.SameSlot | src/crypto.rs:278 | two nonces share a word and bit of the ring exactly when they agree modulo 1024 |
| Replay.ReplayWindow.constructor | src/crypto.rs:268-272 | a new window stands for the empty history |
| Replay.ReplayWindow.Acceptable | src/crypto.rs:274-280 | the ring accepts a nonce exactly when it was never opened and no opened nonce is 1024 or more ahead, against the whole unbounded history |
| Replay.ReplayWindow.Slide | src/crypto.rs:282-292 | after clearing, or the large-jump reset, the ring answers correctly for the 1024 nonces up to the new highest |
| Replay.ReplayWindow.Record | src/crypto.rs:281-295 | recording an acceptable nonce adds it, and nothing else, to the history the ring stands for |
| Replay.Filter | src/crypto.rs:253-265 | over any sequence of authentic nonces, each passes exactly when it is fresh against those passed before; none passes twice |
| Crypto.DatagramCrypto.constructor | src/crypto.rs:233-239 | a new state has spent no nonce and opened none |
| Crypto.DatagramCrypto.Seal | src/crypto.rs:240-252 | succeeds exactly within the budget of 2^32 and if the cipher does; the datagram's first eight octets read as the nonce spent, the rest is what the cipher gave for it; nonces go 0, 1, 2, ... and a failed encryption spends its nonce |
| Crypto.DatagramCrypto.Open | src/crypto.rs:253-265 | opens exactly the datagrams of at least 24 octets whose nonce is below 2^32 and fresh and whose ciphertext is authentic, to what the cipher gives; the history grows by the nonce on success and by nothing on any failure |
| Crypto.NonceReadsBack | src/crypto.rs:255 | the nonce and ciphertext of a sealed datagram are recovered from its bytes |
| Fragments.Count | src/datagram.rs:86 | the number of fragments is the least that covers the length, and at least one |
| Fragments.PartSize | src/datagram.rs:88-91 | the required size of part `i` ends at the next multiple of 1000 or at the length; the subtraction never underflows |
| Fragments.DecodeInvertsEncode | src/datagram.rs:41-47 | the 22-octet header and body read back as written |
| Fragments.HeaderLayout | docs/protocol.md:58-67 | service, flow, message, length and index stand at octets 0, 2, 10, 18 and 20 of a fragment, and the body at 22 |
| Fragments.ParseExact | src/datagram.rs:79-91 | a plaintext passes the checks as fragment `f` exactly when `f` is well formed and the plaintext is its encoding |
| Fragments.RefusedFor | src/datagram.rs:79-91 | which error a refused plaintext gets: too short, or the first of length, index and size that is wrong |
| Fragments.JoinInvertsCut | src/datagram.rs:38-47 | joining the parts a payload is cut into gives the payload |
| Fragments.CutInvertsJoin | src/datagram.rs:118-123 | parts of the required sizes join to the advertised length, and cutting that gives the parts back |
| Fragments.Cut | src/datagram.rs:38-47 | every fragment of a payload of at most 65507 octets is well formed |
| Reassembly.Expired | src/datagram.rs:74-77 | expiry keeps exactly the assemblies younger than two seconds, each unchanged, and the table invariant |
| Reassembly.PushKeepsWf | src/datagram.rs:78-124 | for any bytes at any time, at most 128 assemblies remain, each with one slot per fragment, filled slots of exact size, and incomplete |
| Reassembly.ClashExactly | src/datagram.rs:110-113 | a fragment is inconsistent exactly with a live assembly of its message for another service, flow or length |
| Reassembly.StoredExactly | src/datagram.rs:99-123 | an accepted fragment of several is dropped exactly if its message has no live assembly and 128 are live; otherwise its body replaces its slot, the other slots and the age stay, and the message is returned and forgotten exactly if all slots are then filled |
| Reassembly.OthersUntouched | src/datagram.rs:99-118 | a push leaves every other message's assembly, or its absence, as it is unless its two seconds are over |
| Reassembly.DeliveredIsAccepted | src/datagram.rs:114-123 | a delivered payload has the advertised length, and its parts are this fragment's body and the stored unexpired ones |
| Reassembly.StoredBytesBound | src/datagram.rs:100-102 | a table in order never stores more than 128 times 65507 octets |
| Reassembly.Reassembler.Expire | src/datagram.rs:74-77 | removes exactly the assemblies two seconds old or older |
| Reassembly.Reassembler.Insert | src/datagram.rs:100-123 | the stateful part of `push`, equal to the specification `Store` |
| Reassembly.Reassembler.Push | src/datagram.rs:78-124 | new table and result are those of the specification and the invariant holds; inconsistent exactly with a live assembly for another service, flow or length; an error alters no assembly and drops none that is live; what is accepted replaces its slot, and completes the message exactly if it fills the last one |
| Reassembly.AnyMissing | src/datagram.rs:115 | tells whether a slot is still empty |
| Reassembly.Collect | src/datagram.rs:122 | concatenates the parts in index order |
| Completeness.PartEvent | src/datagram.rs:99-123 | a fragment meeting the parts that arrived before it completes the payload or leaves exactly the parts arrived so far |
| Completeness.OtherEvent | src/datagram.rs:78-124 | an event that is no fragment of the message leaves its live assembly, or its absence, alone |
| Completeness.EveryOrderCompletes | src/datagram.rs:28-124 | fragments in any order, repeated, interleaved with anything, within two seconds of the first, whatever stale assembly the table still holds: the push that completes them returns exactly the payload, and no earlier one returns anything |
| Completeness.ReversedPairCompletes | src/datagram.rs:141-148 | the two fragments of any two-part message, second first and with a tick between, complete it: an instance that meets all the conditions of the general lemma |
| Completeness.SingleFragmentCompletes | src/datagram.rs:92-98 | a one-fragment message is returned as sent, and the table is untouched |
| ChannelSafety.NextKeepsInv | src/proxy.rs:147-160 | every step, sending, delivery of arbitrary bytes, expiry or time, keeps the invariant tying nonces, fragments, assemblies and deliveries |
| ChannelSafety.DeliveredAsSentAtMostOnce | src/proxy.rs:147-160 | in every reachable state each returned packet is that of a `send` that handed over all its fragments and was not stopped, and no send is returned twice |
| ChannelSafety.DeliveredFragmentsArrivedTogether | src/datagram.rs:74-123 | the fragments of a returned packet were opened less than two seconds apart |
| ChannelSafety.NumbersAreUnique | src/datagram.rs:30-51 | under any interleaving of senders nonces are 0, 1, 2, ... up to 2^32 and message IDs are distinct |
| ChannelSafety.DatagramsFit | src/crypto.rs:247-250 | a sealed fragment is at most 1046 octets |
| ChannelSafety.OnlyFragmentsArePushed | src/crypto.rs:156-185 | only fragments handed over and not opened before reach the reassembler, never the registration plaintext, and none of them is refused |
| ChannelSafety.FreshDatagramOpens | src/crypto.rs:253-265 | a datagram that is still fresh opens to what was sealed exactly when it was handed over and is unaltered |
| ChannelSafety.OwnDatagramOpens | src/crypto.rs:253-265 | the datagram of any fragment handed over opens to that fragment if it is fresh when it arrives |
| ChannelProgress.TableFollows | src/proxy.rs:147-160 | the reassembly table of a run goes through exactly the plaintexts opened and the ticks |
| ChannelProgress.ArrivalOpens | src/proxy.rs:152-154 | the datagram of a fragment that was handed over, arriving fresh and unaltered at any point of a run, opens to that fragment |
| ChannelProgress.TimelyArrivalsAreDelivered | src/proxy.rs:147-160 | from any reachable state, if the datagrams of a message arrive unaltered and fresh, in any order and among any other steps, later fragments perhaps handed over after earlier ones have arrived, the first finding room and the last within two seconds, the last arrival delivers exactly the packet sent |
| ChannelProgress.ReversedPairIsDelivered | src/datagram.rs:141-148 | an instance that meets those conditions: from any reachable state with room, the two fragments of a two-part message, the second first, fresh and fewer than 1024 nonces apart, deliver it |
| ChannelProgress.SinglePartIsDelivered | src/proxy.rs:147-160 | a fresh unaltered one-fragment datagram is delivered at once |
| ChannelProgress.SmallIsDelivered | src/proxy.rs:147-160 | from any reachable state with an ID and a nonce left, a packet of one fragment sent and arriving at once is delivered as sent |
| Session.Sender.constructor | src/datagram.rs:22-27 | message IDs start at 0 |
| Session.Sender.SealFragment | src/datagram.rs:39-51 | sealing the next fragment and offering it to the connection is one step of its job, whether the connection takes it or not; the datagram is the one the network then holds for that fragment |
| Session.Sender.SendFragments | src/datagram.rs:38-53 | with any steps of others between two fragments, the loop hands over the first fragments in order, each as the datagram the network then holds for it, and stops early only for want of nonces or on a refused datagram |
| Session.Sender.Send | src/datagram.rs:28-54 | a call, whatever runs beside it, is a run of the channel whose own steps are one beginning and the sealing of its fragments in order; it keeps the channel reachable; size and ID errors change nothing; all fragments are handed over exactly on success; and each datagram handed over, arriving fresh, opens to its fragment |
| Session.AnyOthersWillDo | src/datagram.rs:38-53 | whatever steps others take between two fragments of a call, there are counters for it to find, so the contract of `Send` excludes no interleaving |
| Session.Establish | src/crypto.rs:156-185 | a message of the registration exchange arrives exactly if it can be sealed and fits a frame of 65535 octets with nonce and tag; it then spends and records nonce 0 and leaves both ends at a reachable start of the channel; otherwise the receiver has opened nothing |
| Session.ReadOne | src/proxy.rs:152-158 | one turn of the receive loop is one delivery step, for any cipher |
| Session.ReadPacket | src/proxy.rs:147-160 | while the peer goes on sending, from any reachable state: the loop is a run of the channel and leaves a reachable state; the packet returned is that of a send that handed over all its fragments and was never delivered before; without one everything was consumed and nothing delivered |
| Flows.SweptWf | src/proxy/server.rs:33-36 | expiry keeps the two maps inverse to each other |
| Flows.ArrivedWf | src/proxy/server.rs:236-258 | allocation and touching keep the maps inverse, IDs below `next` and the number of flows within the limit |
| Flows.RoutedWf | src/proxy/server.rs:174-179 | routing a reply keeps the same |
| Flows.FlowTable.constructor | src/proxy/server.rs:139-143 | a session starts with an empty table |
| Flows.FlowTable.Expire | src/proxy/server.rs:33-36 | removes exactly the idle flows from both maps |
| Flows.FlowTable.Arrive | src/proxy/server.rs:236-258 | a peer with a flow keeps it; any other gets the next ID, except nothing when as many flows as allowed are live, and an error when no ID is left; the flow is the peer's, touched now, and all else is as it was |
| Flows.FlowTable.Route | src/proxy/server.rs:174-179 | a reply goes to the peer of its flow exactly if the flow is live for that service, and touches it; otherwise nothing changes |
| Flows.After | src/proxy/server.rs:27-37 | after any events the maps are exact inverses, live IDs are below `next`, and there are at most `max_udp_flows` |
| Flows.OwnedOrGone | src/proxy/server.rs:236-258 | an ID handed out stays with its owner while live and never comes back |
| Flows.FlowIdsNeverReused | src/proxy/server.rs:236-258 | over every run no flow ID names two different (service, peer) pairs |
| Flows.FlowIsGivenExactly | src/proxy/server.rs:238-257 | in every run a packet gets a flow exactly if its peer has a live one for the service, or fewer than allowed are live and an ID is left; and the flow is then the peer's, touched now |
| Flows.RepliesReachTheirPeer | src/proxy/server.rs:172-181 | a reply is sent only to the peer whose own packet was given that flow ID |
| Flows.LateRepliesAreDropped | src/proxy/server.rs:172-181 | a reply for an expired ID is dropped, however late |
| Flows.TouchedIsLastUse | src/proxy/server.rs:176-178 | a flow's time stamp is that of the last packet or reply that used it |
| Flows.SweepKeepsActive | src/proxy/server.rs:168-170 | a sweep keeps exactly the live flows last used less than the idle time ago |
| Replies.PayloadsReachTheirPeerOnce | src/proxy/server.rs:161-183 | in every run each payload sent to a peer was sent by the client on a flow given to that peer and no other, and no message goes out twice |
| Requests.EventKeepsInv | src/proxy/server.rs:218-262 | every event at either end keeps the invariant tying public packets, flow IDs, messages, queues and what workers took |
| Requests.RequestsComeFromTheirPeerOnce | src/proxy/client.rs:127-145 | in every run each packet a worker takes for a service and flow is one that a public peer sent to that service, which has a destination; that peer and service alone were ever given the flow ID; and no public packet is taken twice |
| RoundTrip.EventKeepsInv | src/proxy/client.rs:150-176 | every event on the way forth and back keeps the invariant of both directions, the one flow table and the workers' makers |
| RoundTrip.AnswersReturnToTheirPeerOnce | src/proxy/server.rs:161-183 | in every run of both directions over one table, whatever the server sends to a peer is what a worker sent back, and the packet that made that worker was that peer's own, to the same service; nothing sent back goes out twice; and the workers took only what is theirs |
| TripProgress.EveryRunIsGoing | src/proxy/server.rs:161-183 | every state of every run, both directions over one table, meets the conditions of the results below |
| TripProgress.AdmittedExactly | src/proxy/server.rs:233-261 | a public packet of at most 65507 octets is admitted, under its peer's flow, exactly if the peer has one or fewer than allowed are live and an ID is left; any other changes nothing |
| TripProgress.SentAsGiven | src/proxy/server.rs:259-261 | an admitted packet is sent as it came, under the flow it was given, exactly if a message ID is left |
| TripProgress.DeliveredIsOffered | src/proxy/client.rs:127-145 | a packet the channel delivers is queued for its flow's worker exactly if its service has a destination and there is room |
| TripProgress.RequestIsQueued | src/proxy/client.rs:127-145 | from any state a small packet that goes through at once is queued for the worker of its peer's flow exactly if there is room |
| TripProgress.WorkerAnswers | src/proxy/client.rs:170-173 | a running worker can always pass on an answer, on its own service and flow, if a message ID is left |
| TripProgress.AnswerIsSent | src/proxy/server.rs:172-181 | from any state a small answer that goes back at once is sent, as it is, to the peer of the worker's flow exactly if the flow is live |
| TripProgress.RoundTripCompletes | src/proxy/server.rs:161-183 | from any state of any run, with room on the way, a small packet of a peer reaches the running worker of that peer's flow, and the worker's small answer comes back to that very peer |
| Frames.ReadFramed | src/crypto.rs:19-31 | reading a written frame gives its data and leaves what follows |
| Frames.OrderlyExactly | src/crypto.rs:19-31 | a stream ends in order exactly when it is a concatenation of frames, which are then the ones read |
| Frames.TruncatedStream | src/crypto.rs:19-31 | frames cut off after any number of bytes read as the whole ones, with an orderly end exactly on a boundary and an error otherwise |
| Frames.SendStream.WriteFrame | src/crypto.rs:13-18 | appends length and data, or refuses data over 65535 octets and writes nothing |
| Frames.RecvStream.ReadFrame | src/crypto.rs:19-31 | returns what the specification says of the bytes left, and moves past it |
| Bridge.Transmit | src/crypto.rs:196-211 | every chunk, in the order read, becomes one frame sealed at its own nonce; none is too large for a frame, so the loop reaches the end of its input |
| Bridge.SealedInOrder | src/crypto.rs:199-209 | chunk `i` as read is sealed `i`-th, at nonce `first + i` |
| Bridge.Receive | src/crypto.rs:212-220 | what is written, and how the loop stops, for any bytes |
| Bridge.LoopsAgree | src/crypto.rs:196-220 | with any cipher pair that fits together, what the sending loop frames is received in full, in order and with an orderly end |
| Bridge.Relay | src/crypto.rs:187-223 | one direction from end to end: what was read is what is written, and the end is passed on |
| Bridge.EndsExactly | src/crypto.rs:212-220 | on any bytes and with any cipher the loop ends in order exactly if the bytes are a concatenation of frames that all open, and as not authentic exactly if one does not open |
| Bridge.PrefixOnAnyBytes | src/crypto.rs:212-220 | whatever bytes arrive, forged, cut or reordered, what is written is a prefix of what was sealed on the other side |
| Bridge.WrittenAfter | src/crypto.rs:212-220 | with the same cipher, after any number of the sender's bytes exactly the chunks whose frames are whole have been written, and the end is orderly exactly on a boundary |
| BridgedLink.ActKeepsInv | src/crypto.rs:196-222 | every action of an endpoint, a chunk, an end of input, an error, an arrival or a turn of the receiving loop, keeps what holds of both ends and both directions |
| BridgedLink.WrittenIsPrefix | src/crypto.rs:221 | in every run, failing ones included, each end has written a prefix of what the other has read; an end that failed has no loop running, one that did not has none stopped |
| BridgedLink.TurnsRefineReceive | src/crypto.rs:212-220 | the receiving loop taken turn by turn, on bytes arriving in any pieces, writes what `Bridge.Receive` writes on the bytes read so far |
| BridgedLink.DrainedExactly | src/crypto.rs:187-223 | once a sender is at the end of its input, all has arrived and the receiver is at rest, its socket is shut down or its end has failed; everything is written exactly unless the receiving loop was stopped with bytes unread |
| BridgedLink.NoErrorNoLoss | src/crypto.rs:187-223 | framing and the cipher never stop an end: if no socket or stream operation fails, no end does, and each drained direction is written in full |
| BridgedLink.LeftToItself | src/crypto.rs:212-220 | from any point where one sender has ended and all has arrived, the receiving loop alone writes everything and shuts down, and the other direction stays open if it was |
| BridgedLink.ErrorLosesArrived | src/crypto.rs:221 | for every chunk there is a run that loses it after it has arrived, because the other loop of the receiving end failed |
| Handshake.NextKeepsInv | src/crypto.rs:84-98 | turns alternate, the endpoints are at most one message apart, and the streams hold exactly what is under way |
| Handshake.HandshakeNeverStalls | src/crypto.rs:76-133 | for every number of messages and every schedule no frame is taken for the wrong kind, the two never both wait, and every action is progress |
| Handshake.ActedCount | src/crypto.rs:76-133 | both are finished after exactly 2k + 4 actions, not earlier |
| Registration.Validate | src/proxy/server.rs:89-108 | succeeds exactly when version, count, distinctness, kinds and tokens are right, lists the definitions in offer order, and names the reason otherwise |
| Registration.Register | src/proxy/server.rs:88-117 | nothing is bound unless every offer validates, and nothing after the first attempt that fails; succeeds exactly when all validate and every attempt to bind succeeds |
| Registration.Destinations | src/proxy/client.rs:92-104 | the client's UDP table has exactly the IDs of its UDP services, with their own addresses |
| Registration.KeysIncrease | src/config.rs:31 | the names of an ordered map increase, so they are distinct |
| Registration.LessIsLexicographic | docs/protocol.md:11-12 | names are ordered as in a dictionary |
| Registration.TokenIsConfigured | src/config.rs:181-187 | the token of a service is its own if it has one, if not its side's default, and if there is none either the empty one |
| Registration.AcceptedExactly | src/proxy/client.rs:57-68 | a client's offer is acceptable exactly when the server has every service, of the same kind and with the same configured token, own before default |
| Setup.Admit | src/proxy/server.rs:88-117 | the server's part on the client's own request: succeeds exactly if the client is welcome, that is, the server agrees on every service and every attempt to bind succeeds |
| Setup.Connect | src/proxy/client.rs:56-104 | set-up succeeds exactly when the registration fits a frame and the client is welcome; then every ID means the same on both ends, name, kind, the service a TCP header leads to or why it is refused, and the UDP destination, and both directions are at a reachable start; a registration that does not fit reaches nobody and nothing is bound |
| Setup.LargeNeverConnects | src/config.rs:276-309 | a client and a server that pass all configuration checks and agree on everything, whose registration never fits a frame, however it is encoded |
| Forwarding.OnPacket | src/proxy/client.rs:127-145 | the packet arm keeps the budget and pairing invariant, and the packet is last in its flow's queue exactly if there is room; no other worker changes |
| Forwarding.Session | src/proxy/client.rs:112-147 | the event loop is a run of the specification and keeps its invariant; flows and workers are only for services with a destination, and hold at most 8 MiB of payload |
| Forwarding.BudgetIsConserved | src/proxy/client.rs:105-145 | in every run free and held permits total 8 MiB, flow keys and unjoined workers match one to one within the limit, and each worker has received a subsequence of its flow's packets |
| Forwarding.AllPermitsReturn | src/proxy/client.rs:109-145 | with no flow left all permits are back |
| Forwarding.DroppedOnlyWithoutRoom | src/proxy/client.rs:131-144 | in every state in order a packet for a known service is queued last in its flow exactly if permits, queue slot and flow limit allow |
| Forwarding.PacketExactly | src/proxy/client.rs:127-145 | in every run a packet for a service with a destination is queued last in its flow exactly if there is room, and one for any other service changes nothing |
| Forwarding.OnlyDestinations | src/proxy/client.rs:129 | in every run all flows and workers are for services with a destination |
| Forwarding.MemoryIsBounded | src/proxy/client.rs:109 | in every run the workers hold at most 8 MiB of payload between them, queued and in hand |
| Forwarding.QueueIsDrained | src/proxy/client.rs:165-169 | a running worker takes its queued packets in order and gives back their permits, one per octet and at least one each |
| Forwarding.EndedWorkerIsGone | src/proxy/client.rs:116 | a worker that ends gives back all its permits, and once joined its flow and it are gone |
| Backoff.NominalIsMonotone | src/proxy/client.rs:22-30 | waits start at the interval, never shrink in a streak and never exceed max(30, interval) |
| Backoff.Reconnect | src/proxy/client.rs:12-32 | after a streak of `j` the wait is 1000 min(b 2^j, max(30, b)) plus jitter, or 100 for b = 0, without leaving 64 bits; so it is the interval after the first and after every long session, and otherwise twice the wait before, up to the cap |
| Supervisor.NextKeepsInv | src/main.rs:202-225 | every event keeps the invariant on tasks, causes and the pending rollback |
| Supervisor.OneTaskAtATime | src/main.rs:198-225 | in every run all tasks but the newest have ended and been awaited once, and every configuration launched is justified |
| Supervisor.RollbacksAreBounded | src/main.rs:205-209 | there are never more rollbacks than accepted reloads |
| Supervisor.LaunchedAsTold | src/main.rs:198-225 | in every run the causes of the tasks, and whether the loop is over, are those told from the events alone: every good edit while the loop runs, and a rollback when a task ends right after a reload |
| Supervisor.ReloadsAreGoodEdits | src/main.rs:211-222 | the reloads are exactly the ticks with new bytes whose second read passes all checks, in order; no other tick launches anything |
| Supervisor.StopsOnlyWithoutRollback | src/main.rs:203-210 | the loop ends only when interrupted, or when a task that is not a fresh reload ends |
| Supervisor.Supervise | src/main.rs:198-225 | the loop, on any events: tasks end and are awaited once before the next starts, every launch is justified, rollbacks never outnumber accepted reloads, the launches are those the events call for, and the reloads exactly the good edits in order |

## Left out

- QUIC, TLS, congestion control and sockets (`src/transport.rs`): a reliable byte stream and an unreliable datagram channel stand for them.
- The Noise ciphers, key exchange, prologue and TLS exporter binding: replaced by ideal ciphers and an abstract alternation of messages.
- Configuration parsing and range checks (`src/config.rs`): single conditions with no state. The facts later code relies on, an address for every service, at most 256 services and a retry interval of at most 86400, are preconditions of the members that use them.
- Set-up of one TCP stream (`src/proxy.rs:75-145`) beyond its header and its handshake: the empty request, the `ok` reply and the retry loop for the local connection would add only easy members.
- The check that nothing follows the one frame each way on the control stream (`src/proxy/server.rs:119-124`): it cannot fail between the two ends modelled.
- Closing the connection when the nonces are spent (`src/datagram.rs:48-50`), session lifetimes and set-up deadlines: effects of the runtime.
- The socket kept in a flow (`src/proxy/server.rs:24`): it is the socket of the flow's service, so the service stands for it.
- The exact limit on accepted connections and TCP streams: semaphores with no further state.
- TripProgress.RoundTripCompletes: follows packets of one fragment; that larger ones are delivered is `ChannelProgress.TimelyArrivalsAreDelivered`, and what happens to any delivered packet is `TripProgress.DeliveredIsOffered` and `TripProgress.DeliveredIsRouted`.
- Frames.RecvStream.ReadFrame: after an error the position is put at the end of the stream, because an errored stream is not read again.
- Registration.Register: the listeners that a failed bind drops are counted as attempts and not modelled as objects.
- The constant-time comparison of tokens is plain equality.
- `--init`, `--genkey`, command line, logging, DNS resolution, benchmarks and deployment files.
