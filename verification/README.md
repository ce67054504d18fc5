# PaceTun transport: a Dafny model

PaceTun carries IP packets over an authenticated, encrypted tunnel, as a TLS stream, inside WebSocket messages, or
through HTTP requests. This project models the transport, layer by layer, and proves what each layer promises over
every run; then it composes the layers from the local interface to the far end.

The operations are written twice: as functions on values, about which whole runs are reasoned, and, where the source
updates state in place, as classes and loops whose contracts tie the new state to those functions. Sockets are
adversaries: every write takes as many bytes as it likes, and arriving bytes are cut anywhere. Clocks are numbers that
come with each call. The cryptographic primitives are function parameters of which only lengths and "opening undoes
sealing" are assumed; in the handshake they are symbolic terms.

| file | what it models |
|---|---|
| `Bytes.dfy` | bytes, big-endian numbers, exclusive or, concatenation |
| `Incremental.dfy` | parsers that take units off the front of a growing buffer; independence of how the bytes were cut |
| `RecordCodec.dfy`, `RecordTheorems.dfy`, `Authenticity.dfy` | the sealed records (plain, padded, envelope), the PTT3 records, their decoders, sequence accounting, refusal of what no key holder made |
| `WsFrames.dfy`, `WsSession.dfy` | WebSocket frames (sections 5.2 to 5.5 of RFC 6455), the transmit queue, reading messages |
| `Handshake.dfy`, `HandshakeRuns.dfy` | hello, proof, confirmation, three trials, commit, acknowledgement |
| `PacketFlow.dfy`, `RoundRobin.dfy`, `BatchScheduler.dfy`, `FlowQueue.dfy` | flows, the burst scheduler, the flow queue |
| `SendQueue.dfy` | the bounded queue of records, its TLS flush and its messages |
| `EndToEnd.dfy`, `CarrierTunnel.dfy`, `PacketPath.dfy` | sender to receiver over TLS, over a WebSocket, and from interface to interface |
| `CarrierLimits.dfy`, `PathDelivers.dfy` | when a receiver refuses an honest stream over a WebSocket; that any list of packets can get across |
| `PoolAffinity.dfy`, `LanePool.dfy` | the flow-to-lane cache and the life of the client's lanes |
| `Traffic.dfy`, `Timers.dfy` | padding budgets, latency renewal, the reply watchdog, recovery attempts |
| `HttpCarrier.dfy` | sessions and ordered uploads of the HTTP carrier's server |

`dafny verify dfyconfig.toml` checks everything.

## What the model found

- While the acknowledgement is under way the server may already send, but the client still refuses any frame of more
  than 1024 bytes (cdn/src/websocket.cpp:580 applies until line 392). A longer first message that arrives together with
  the acknowledgement ends the client's attempt. `HandshakeRuns.RunExact` and `Handshake.FailureIsEarlyData` say that this
  is the only failure, `EarlyDataCanFail` gives a run for every such size, `ShortDataNeverFails` that shorter data are always safe.
- Nothing ties the sender's limits to the receiver's `max_record_buffer_bytes`. The longest message a sender can make is
  the least of `batch_bytes`, `queue_bytes` and what the records it may hold can add up to: as many as `batch_packets`
  (or `adaptive_batch_max_packets`) and `queue_packets` allow, each of the longest size there is. Some run of an honest
  sender is refused if and only if that is more than the receiver's buffer (`CarrierLimits.CarrierExact`). With the
  default 8 records (16 when adaptive), an mtu of 1280 and the smallest buffer of 65536 bytes it is not, whatever
  `batch_bytes` says; with the 64 records and 131072 bytes of the profile "ultra", adaptive batching off, it is.
- The HTTP carrier forgets a nonce after 65 seconds but sets no bound on how long a create may take from the check of its
  signature to the hub's lock. Up to four seconds and a nanosecond a signed create opens one session
  (`HttpCarrier.OneSessionPerCreate`). With any longer delay it can open two: in a hub with room for two sessions both can
  be open at once while the delay is at most 14 seconds and a nanosecond (`HttpCarrier.SlowCreateTwice`), and even in a
  hub with room for one it can open one after the other, if the first is deleted in between
  (`HttpCarrier.SlowCreateAgain`).
- The PTT3 encoder checks no lengths: it seals records that every decoder then refuses (`RecordTheorems.MacRoundTrip`).
- A record longer than `batch_bytes` would block the queue behind it: until it is dropped, no message is made and nothing
  goes out (`SendQueue.LongRecordBlocks`); the configuration check keeps records below that.

## Model

| member | source | states |
|---|---|---|
| Incremental.ChunkIndependence | cdn/src/record.cpp:91-134 | feeding a byte stream in any pieces gives the same outputs, verdict and state as feeding it at once |
| Incremental.PrefixYieldsPrefix | cdn/src/record.cpp:91-134 | a prefix of a stream yields a prefix of its outputs, and an accepted stream has no refused prefix |
| RecordCodec.WriteNumber | cdn/src/record.cpp:72-80 | the byte-by-byte loop writes the big-endian form of the number |
| RecordCodec.EncodeSealed | cdn/src/record.cpp:66-90 | the encoder refuses exactly the inputs the record format excludes and otherwise yields header and sealed payload |
| RecordCodec.RecordDecoder.Feed | cdn/src/record.cpp:91-134 | appending a chunk delivers exactly the records now complete; a chunk without room changes nothing |
| RecordTheorems.SealedRoundTrip | cdn/src/record.cpp:66-131 | a sealed record is accepted if and only if it fits the buffer and what it holds is well formed for its flags, whatever follows it |
| RecordTheorems.RoundTrip | cdn/src/record.cpp:215-239 | every plain, padded and envelope record, with any padding, decodes to its own flags, number and payload if it fits |
| RecordTheorems.EncoderShape | cdn/src/record.cpp:54-65 | the lengths each encoder accepts, flag by flag, in both directions |
| RecordTheorems.EncodedLength | cdn/src/record.cpp:215-237 | a record is longer than its payload by 32 bytes and its padding, 3 or 2 bytes of wrapping included |
| RecordTheorems.MacRoundTrip | cdn/src/record.cpp:157-166 | a PTT3 record decodes to itself if its shape and size are allowed, and is refused for that otherwise |
| RecordTheorems.NoncesDistinct | cdn/src/record.cpp:48-53 | under one key different sequence numbers have different nonces |
| RecordTheorems.SessionOrNoRoom | cdn/src/record.cpp:91-100 | a decoder fed in chunks either runs out of room, after a prefix of the outputs, or does what decoding at once does |
| RecordTheorems.LeftoverIsPartialRecord | cdn/src/record.cpp:101-112 | what is left after a success is fewer than the 16 bytes of a header, whatever they are, or begins with an acceptable header whose record is not all there |
| RecordTheorems.AcceptAccounts | cdn/src/record.cpp:119-121 | accepting a number keeps: highest minus first equals accepted minus one plus gaps, without wrapping round |
| RecordTheorems.DrainAccounts | cdn/src/record.cpp:101-134 | for every byte stream: numbers strictly increase, the accounting identity holds, replays are counted exactly |
| RecordTheorems.HonestStream | cdn/src/record.cpp:91-134 | a stream of records with increasing numbers is accepted to its last byte |
| Authenticity.SealedExact | cdn/src/record.cpp:100-131 | a record is delivered if and only if it is well shaped, fits, is new, and its seal opens under the nonce of its number over its header and text; then as what was sealed |
| Authenticity.ForgeryRefused | cdn/src/record.cpp:107-118 | a complete, well-shaped record whose seal does not open is refused as unauthentic and changes nothing |
| Authenticity.UnwrapHolds | cdn/src/record.cpp:122-131 | padding and envelope are undone exactly where the text is a length, a payload of the size its flags allow and at most 1024 bytes more |
| Authenticity.MacExact | cdn/src/record.cpp:162-165 | a PTT3 record is delivered if and only if it is well shaped, fits, is new and its tag is that of all before it |
| Authenticity.WrongTagRefused | cdn/src/record.cpp:162-165 | a PTT3 record with any other tag is refused as unauthentic and changes nothing |
| Authenticity.MacShapes | cdn/src/record.cpp:165 | the flags and lengths the PTT3 decoder accepts, one by one |
| Authenticity.DecodersAuthentic | cdn/src/record.cpp:91-165 | whatever bytes arrive and however they are cut, all that either decoder delivers are the records the stream begins with, each of them authentic |
| WsFrames.MakeFrame | cdn/src/websocket.cpp:184-206 | the frame built is the printed form of section 5.2 of RFC 6455, masked for a client; long payloads are refused |
| WsFrames.FrameLayout | cdn/src/websocket.cpp:184-206 | where each field of a frame is, bit by bit as in section 5.2 of RFC 6455, and which mask byte goes with which payload byte |
| WsFrames.PrintParse | cdn/src/websocket.cpp:552-588 | every frame the reader allows is parsed back to itself, whatever follows it |
| WsFrames.OnlyReadable | cdn/src/websocket.cpp:552-581 | no frame is read but without reserved bits, masked exactly if from a client, controls whole and of at most 125 bytes, others of at most 1024 bytes before the peer is authenticated and 16 MiB after |
| WsFrames.TooLargeRefused | cdn/src/websocket.cpp:580 | a longer frame from a peer not yet authenticated is refused |
| WsFrames.ParseStable | cdn/src/websocket.cpp:552-588 | bytes behind a complete or refused frame do not change what it is |
| WsFrames.BuffersBounded | cdn/src/websocket.cpp:572-610 | reassembly stays within 16 MiB, unparsed bytes under 16 MiB + 14, and the refusal of fragments that are not binary is out of reach |
| WsFrames.Reassembly | cdn/src/websocket.cpp:589-610 | messages cut into frames anywhere, with pings and pongs anywhere, read in any pieces, come out as they went in |
| WsFrames.PlayCounts | cdn/src/websocket.cpp:589-625 | the receive counters are the true numbers of frames, pings and pongs, and the bytes of the messages delivered |
| WsSession.MovedRest | cdn/src/websocket.cpp:480-507 | bytes leave the transmit queue in order, what stays is the rest, and the byte count stays true |
| WsSession.LinkRunValid | cdn/src/websocket.cpp:208-222 | in every run what went out and what is queued make up the messages taken; each frame is counted exactly when its last byte is out |
| WsSession.Delivery | cdn/src/websocket.cpp:480-634 | over every run of sends, partial writes and cuts, the messages read are a prefix of those sent, all of them once all bytes arrived |
| WsSession.PingsAnswered | cdn/src/websocket.cpp:605 | every ping seen is answered by a pong of the same payload, in order |
| WsSession.FramesAnswered | cdn/src/websocket.cpp:605-610 | of the frames that arrive, each with opcode 9 is answered by one pong frame of its payload, in order, and no other is; the last sixteen payloads of frames with opcode 10 are remembered |
| WsSession.FrameAccepted | cdn/src/websocket.cpp:589-625 | which frames are accepted: a new message, the next piece of the one under way within the limit, a ping, a pong, a close frame that is empty or has a status that may be sent |
| WsSession.CloseAnswered | cdn/src/websocket.cpp:611-621 | an accepted close frame ends the session, its status is kept, and it is echoed if there is room |
| WsSession.Session.QueueFrame | cdn/src/websocket.cpp:208-216 | a frame is queued exactly if it is short enough and finds room |
| WsSession.Session.Flush | cdn/src/websocket.cpp:480-507 | exactly the bytes the socket takes leave the queue, the first ones pending; it fails exactly at a write that takes nothing |
| WsSession.FlushMeaning | cdn/src/websocket.cpp:480-507 | a flush uses the first writes, each for at least a byte, and stops only at an empty queue, a spent budget or a write that takes nothing |
| WsSession.AllTaken | cdn/src/websocket.cpp:480-507 | a socket that takes all it is offered empties the queue, as far as the budget goes, with a write for each frame |
| WsSession.Session.Receive | cdn/src/websocket.cpp:538-550 | takes all that arrives before a pause, or at least 256 KiB of it, and meets the end or the failure of the stream exactly if it comes next |
| WsSession.Session.TakePongs | cdn/src/websocket.cpp:525-530 | hands over the remembered pongs once |
| WsSession.Session.Parse | cdn/src/websocket.cpp:551-625 | the parsing loop delivers what decoding the buffer yields, or fails for its refusal, a full transmit queue or a close frame |
| WsSession.Session.ReadMessages | cdn/src/websocket.cpp:532-634 | a read takes what has arrived, returns the messages now complete and keeps the rest; the only ways to fail, the receive limit and the fragment refusal not among them |
| Handshake.FindKey | cdn/src/websocket.cpp:424-429 | the server takes the first of its keys that fits the client's token |
| Handshake.StepExact | cdn/src/websocket.cpp:252-444 | every step keeps the agreement of the two ends, unless it shows the client a long frame early; exactly then an end fails |
| Handshake.FailureIsEarlyData | cdn/src/websocket.cpp:392 | the only possible failure is data beyond 1024 bytes read together with the acknowledgement |
| HandshakeRuns.RunExact | cdn/src/websocket.cpp:252-444 | a run of honest ends ends without failure if and only if no step of it showed such a frame |
| HandshakeRuns.Handshakes | cdn/src/websocket.cpp:252-444 | at most one message is in flight until the acknowledgement; both ends get the same keys, made of the common key, both secrets and both nonces; data sent behind it arrive in order through the read-ahead |
| HandshakeRuns.ShortDataNeverFails | cdn/src/websocket.cpp:252-339 | no interleaving fails while the server's data fit 1024 bytes |
| HandshakeRuns.CanComplete | cdn/src/websocket.cpp:252-312 | from every state of a run the handshake can be completed |
| HandshakeRuns.EarlyDataCanFail | cdn/src/websocket.cpp:580 | for every longer size there is a run in which the client fails |
| Handshake.OnePlaceEach | cdn/src/websocket.cpp:242-299 | no end accepts a handshake message made for another turn, neither a repeated one nor its own come back |
| HandshakeRuns.CompletesIffAgreed | cdn/src/websocket.cpp:396-444 | a handshake can complete exactly between ends with a common key and equal host, path and pool size |
| PacketFlow.SameFlow4 | cdn/include/pacetun/flow_scheduler.hpp:28-37 | two IPv4 packets share a flow exactly if protocol, addresses and visible ports agree; fragments stay together |
| PacketFlow.SameFlow6 | cdn/include/pacetun/flow_scheduler.hpp:38-44 | two IPv6 packets share a flow exactly if next header, addresses and visible ports agree |
| PacketFlow.KindsApart | cdn/include/pacetun/flow_scheduler.hpp:23-51 | IPv4, IPv6 and malformed packets never share a flow; all malformed ones are one |
| PacketFlow.FragmentedMeaning | cdn/include/pacetun/flow_scheduler.hpp:36 | a fragment is a packet with the more-fragments flag or an offset |
| PacketFlow.PortsShown4 | cdn/include/pacetun/flow_scheduler.hpp:36-37 | ports are shown exactly by whole TCP and UDP packets with four bytes behind their header |
| RoundRobin.NextIsNearest | cdn/include/pacetun/flow_scheduler.hpp:80-93 | the scan finds a waiting flow whenever there is one, the nearest to the cursor |
| RoundRobin.SelectServes | cdn/include/pacetun/flow_scheduler.hpp:94-102 | something waiting is always served; interactive flows take at most two turns in a row while bulk waits |
| RoundRobin.TurnsPass | cdn/include/pacetun/flow_scheduler.hpp:80-93 | while a flow waits, each turn of its class goes to a place not passed since it was served |
| RoundRobin.ServedPassesNothing | cdn/include/pacetun/flow_scheduler.hpp:80-93 | when a flow has just been served, every other flow of its class comes before it |
| RoundRobin.Choose | cdn/include/pacetun/flow_scheduler.hpp:94-102 | the three attempts of the loop make the choice |
| BatchScheduler.SchedulePacketBatch | cdn/include/pacetun/flow_scheduler.hpp:54-104 | the order is a permutation that keeps each flow's arrival order, alternates the classes and goes round the flows |
| BatchScheduler.ScheduleComplete | cdn/include/pacetun/flow_scheduler.hpp:54-104 | every packet is scheduled once, in order within its flow; the loop never gives up early |
| BatchScheduler.ScheduleAlternatesClasses | cdn/include/pacetun/flow_scheduler.hpp:94-102 | three interactive in a row only when no bulk is left, two bulk in a row only when no interactive is left |
| BatchScheduler.ScheduleAlternatesFlows | cdn/include/pacetun/flow_scheduler.hpp:80-102 | between two consecutive picks of a flow any other flow of its class is picked at most once |
| BatchScheduler.FirstDecides | cdn/include/pacetun/flow_scheduler.hpp:54-79 | a flow of a burst is interactive exactly if its first packet has at most 256 bytes |
| FlowQueue.PushMeaning | cdn/include/pacetun/flow_scheduler.hpp:136-151 | a push is admitted exactly if there is room, and appends to its own flow only |
| FlowQueue.PopMeaning | cdn/include/pacetun/flow_scheduler.hpp:165-196 | a queue that is not empty always yields a packet, the oldest of its flow; the fallback is out of reach |
| FlowQueue.ExpireMeaning | cdn/include/pacetun/flow_scheduler.hpp:152-164 | expiry takes the run of over-age packets at the head of each flow |
| FlowQueue.ExpiryExact | cdn/include/pacetun/flow_scheduler.hpp:152-164 | in every run with a clock that does not go back, expiry removes exactly the over-age packets |
| FlowQueue.RunValid | cdn/include/pacetun/flow_scheduler.hpp:110-201 | in every run the counters are the true totals and there are at most 32 more flows than packets |
| FlowQueue.StarvationPerCompaction | cdn/include/pacetun/flow_scheduler.hpp:119-124 | with bulk waiting, departures without a bulk one are at most two more than two for each compaction |
| FlowQueue.StarvationBound | cdn/include/pacetun/flow_scheduler.hpp:119-124 | under pushes and pops, with bulk waiting, any five consecutive pops include a bulk one |
| FlowQueue.ClassKept | cdn/include/pacetun/flow_scheduler.hpp:140-147 | a flow is interactive exactly if the packet that opens it has at most 256 bytes, and keeps its class while it is in the table |
| FlowQueue.StarvationBySize | cdn/include/pacetun/flow_scheduler.hpp:119-149 | in every run of flows that send short packets only or long ones only, no more than four short packets leave in a row while long ones wait, under pushes and pops |
| FlowQueue.TwoBulkTurns | cdn/include/pacetun/flow_scheduler.hpp:165-196 | a bulk pop right after a bulk pop means that no interactive packet waited |
| FlowQueue.EachOnceMeanwhile | cdn/include/pacetun/flow_scheduler.hpp:165-196 | while a flow waits and the table is not compacted, every other flow of its class is served at most once |
| FlowQueue.FlowQueue.Push | cdn/include/pacetun/flow_scheduler.hpp:136-151 | the method does to the fields what a push does to the queue |
| FlowQueue.FlowQueue.Pop | cdn/include/pacetun/flow_scheduler.hpp:165-196 | the method returns the packet whose turn it is and settles the table |
| FlowQueue.FlowQueue.DropExpired | cdn/include/pacetun/flow_scheduler.hpp:152-164 | the loops drop what expiry drops and count it |
| FlowQueue.FlowQueue.OldestAge | cdn/include/pacetun/flow_scheduler.hpp:130-135 | with times in order, the age reported is the largest over all packets |
| SendQueue.EvictMeaning | cdn/src/runtime.cpp:267-275 | making room leaves the longest end of the queue that leaves room, and counts the others |
| SendQueue.OfferMeaning | cdn/src/runtime.cpp:265-281 | a record that can never fit, or would displace a begun one, only counts as dropped; any other is queued behind the longest end of the queue that leaves room, and the records before it are dropped and counted |
| SendQueue.ExpireExact | cdn/src/runtime.cpp:657-660 | with records in the order of their times exactly the late ones are dropped |
| SendQueue.ExpireMeaning | cdn/src/runtime.cpp:386-393 | expiry stops at the first record not late and at a partly written one |
| SendQueue.GatheredMeaning | cdn/src/runtime.cpp:603-624 | a message holds as many records as the limits allow, no fewer; it is empty only if the front record is too long |
| SendQueue.LimitMeaning | cdn/src/runtime.cpp:283-297 | the number of records allowed in a message stays between its settings: the largest once the front record has waited for the target delay or 64 wait, the smallest for few young ones, in between a 64th of the span for each |
| SendQueue.LongRecordBlocks | cdn/src/runtime.cpp:603-624 | in every run a front record longer than a message may be stays in front and nothing is sent until it is dropped |
| SendQueue.RunKeeps | cdn/src/runtime.cpp:265-393 | in every run bounds hold, the byte count is true, records are sent, queued or counted as dropped, and the bytes out are whole records and the begun part of the front one |
| SendQueue.BegunRecordsStay | cdn/src/runtime.cpp:349-378 | a record that has begun to leave is never dropped; it is the next to be out |
| SendQueue.DroppedCounted | cdn/src/runtime.cpp:265-281 | the two drop counters count exactly the sequence numbers that are missing |
| SendQueue.DroppedBetween | cdn/src/runtime.cpp:265-281 | how many records were dropped between the first and the k-th sent |
| SendQueue.FlushWrites | cdn/src/runtime.cpp:349-378 | a flush uses the first writes, each for at least a byte, and stops only at an empty queue, one of its two limits or a write that takes nothing |
| SendQueue.RecordQueue.Add | cdn/src/runtime.cpp:265-281 | the method queues a record, evicts for it or refuses it as specified, and counts |
| SendQueue.RecordQueue.FlushTo | cdn/src/runtime.cpp:349-378 | the write loop moves exactly the bytes the connection takes |
| SendQueue.RecordQueue.GatherMessage | cdn/src/runtime.cpp:603-624 | the loop builds the message of the records it takes |
| SendQueue.RecordQueue.DropLate | cdn/src/runtime.cpp:386-393 | the loop drops what expiry drops |
| EndToEnd.StreamReceived | cdn/src/runtime.cpp:349-378 | any part of what a sender wrote, cut anywhere, is received as a prefix of its records with the books in order |
| EndToEnd.TlsEndToEnd | cdn/src/runtime.cpp:265-393 | over TLS, from any state of a sender on, whatever is dropped and however writes and reads are cut: numbers go up, no replay, gaps are exactly the records dropped in between |
| EndToEnd.TlsAccepts | cdn/src/record.cpp:91-100 | the receiver never runs out of room if its buffer holds one byte less than the longest record and one chunk together; then everything sent is delivered |
| CarrierTunnel.MessagesDecode | cdn/src/record.cpp:91-100 | messages of whole records are decoded up to the first that is longer than the buffer, and nothing of that one |
| CarrierTunnel.RunKeeps | cdn/src/runtime.cpp:603-624 | in every run the connection was handed exactly the messages taken from the queue, in order |
| CarrierTunnel.CarrierEndToEnd | cdn/src/runtime.cpp:543-664 | the same from queue to decoder over a WebSocket; the receiver refuses the stream if and only if a message is longer than its buffer |
| CarrierTunnel.CarrierFromStart | cdn/src/runtime.cpp:515-664 | the same for every run from an idle connection on |
| CarrierLimits.MessageBound | cdn/src/runtime.cpp:603-616 | no message is longer than `LargestMessage`, the least of the byte limits and of the records it can have times their longest size |
| CarrierLimits.CarrierAccepts | cdn/src/runtime.cpp:603-624 | while that is no more than the receiver's buffer no run is refused, whatever arrives of it and however it is cut |
| CarrierLimits.CarrierCanRefuse | cdn/src/record.cpp:91-100 | records that each fit the receiver's buffer, queued behind a busy connection and put into one message that does not fit, are refused |
| CarrierLimits.LongerMessageRefused | cdn/src/record.cpp:91-100 | as soon as `LargestMessage` is more than the receiver's buffer there is an honest run, from the start, that is refused |
| CarrierLimits.CarrierExact | cdn/src/runtime.cpp:603-624 | some honest run is refused if and only if `LargestMessage` is more than the receiver's buffer |
| PacketPath.RunKeeps | cdn/src/runtime.cpp:626-641 | in every run a flow's packets in records, then those waiting, are a subsequence of those that arrived |
| PacketPath.FlowsInOrder | cdn/src/runtime.cpp:626-641 | from interface to interface, each flow's packets come out in the order they went in, none twice and none made up |
| PacketPath.FlowsFromStart | cdn/src/runtime.cpp:626-641 | the same for every run from an empty path on |
| PathDelivers.PacketsDelivered | cdn/src/runtime.cpp:515-760 | for every list of packets within the limits there is a run from the start after which all of them, in order and nothing else, have been delivered |
| PoolAffinity.PoolAffinity.Choose | cdn/include/pacetun/pool.hpp:32-54 | the lane chosen is live whenever any is; the table stays within 4096 and changes as specified |
| PoolAffinity.PoolAffinity.Prune | cdn/include/pacetun/pool.hpp:26-31 | exactly the entries idle for more than 180 s go |
| PoolAffinity.Sticky | cdn/include/pacetun/pool.hpp:32-54 | a flow used again within 180 s and before 4096 other flows keeps its lane while that is live |
| PoolAffinity.AlwaysLive | cdn/include/pacetun/pool.hpp:32-54 | in every run, whatever the clock does, the table is bounded and the lane is one of the live ones |
| LanePool.Lifecycle | cdn/src/runtime.cpp:1122-1207 | in every run at most one lane more than configured, only while one drains; at most one drains; ids are distinct and not zero |
| LanePool.MakeBeforeBreak | cdn/src/runtime.cpp:1122-1134 | a lane begins to drain only in the step that attaches its replacement; only a lane's own end leaves fewer active lanes |
| LanePool.PlacementAvoidsDraining | cdn/src/runtime.cpp:1248-1259 | a newly placed flow goes to a lane that is not draining if there is one |
| LanePool.Preferred | cdn/src/runtime.cpp:1248-1259 | the preferred lane is the first active one with the lowest score |
| LanePool.ClientPool.DialFinished | cdn/src/runtime.cpp:1155-1183 | a finished dial attaches the lane and sets the replaced one draining, or gives the replacement up |
| LanePool.ClientPool.ConsiderReplacement | cdn/src/runtime.cpp:1184-1202 | when the pool is complete and quiet and the waits are over, the first lane that wants replacing is chosen |
| LanePool.ClientPool.MaybeDial | cdn/src/runtime.cpp:1203-1207 | a dial starts exactly if a lane is missing or to be replaced, none is under way and the wait before the next is over |
| LanePool.DetachedExact | cdn/src/runtime.cpp:1135-1146 | exactly the lane that ended goes |
| LanePool.ClientPool.Detach | cdn/src/runtime.cpp:1135-1146 | a lane that ended is taken out, the others stay in order |
| Traffic.PadRecord | cdn/src/runtime.cpp:1101-1119 | one record's padding on the two shared budgets |
| Traffic.PadCovered | cdn/include/pacetun/traffic.hpp:32-53 | no charge exceeds its bucket, so the floors at zero forgive nothing |
| Traffic.PadGranted | cdn/src/runtime.cpp:1101-1119 | with enough in the buckets the encoder gets the padding it asks for |
| Traffic.Refills | cdn/include/pacetun/traffic.hpp:43-51 | the shaping bucket earns all of its rate until it is full, and is full after long enough |
| Traffic.CreditReturns | cdn/include/pacetun/traffic.hpp:32-40 | credit comes back at 64 bytes a second for control records and at its percentage for data, up to the caps |
| Traffic.PaddingBounds | cdn/include/pacetun/traffic.hpp:32-53 | data padding at most its percentage of the data, control padding at most 128 bytes and 64 a second, all padding within burst and rate |
| Traffic.WindowBound | cdn/include/pacetun/traffic.hpp:41-53 | with shaping on, in every window of every run all padding is at most burst plus rate times length |
| Timers.LatencyRenewal.Observe | cdn/include/pacetun/traffic.hpp:72-85 | renews exactly after enough new slow samples in a row outside the cooldown |
| Timers.SlowLaneRenewed | cdn/include/pacetun/traffic.hpp:72-85 | as many slow samples in a row as required, behind the cooldown, bring a renewal |
| Timers.RenewalEvidence | cdn/include/pacetun/traffic.hpp:72-85 | each renewal has its own slow samples, as many as required |
| Timers.RenewalRate | cdn/include/pacetun/traffic.hpp:72-85 | n renewals take at least n - 1 cooldowns |
| Timers.ReplyWatchdog.NoteReply | cdn/include/pacetun/traffic.hpp:14-17 | only a reply to the pending probe, not dated before it, answers it |
| Timers.DeadlineStands | cdn/include/pacetun/traffic.hpp:8-18 | nothing but its own reply postpones the deadline of a pending probe |
| Timers.RecoveryRate | cdn/include/pacetun/traffic.hpp:19-27 | n recovery attempts take at least n - 1 times 30 seconds, however they end |
| Timers.WaitGrows | cdn/include/pacetun/traffic.hpp:19-27 | the wait doubles with each failure in a row, from 30 seconds to five minutes |
| Timers.RecoveryBackoff.Failed | cdn/include/pacetun/traffic.hpp:24 | a failure sets the next attempt that far off |
| HttpCarrier.WriteFull | cdn/adapter/httpcarrier.go:312-324 | what was written is a prefix of the body, all of it exactly if no write failed or took nothing |
| HttpCarrier.UploadsInOrder | cdn/adapter/httpcarrier.go:256-276 | whatever requests come and however they interleave, a backend has the bodies of upload requests numbered 0, 1, 2, ..., once each and in order, then at most a prefix of the body of one request with the next number, and then the session is closed unless that request is still at it; sessions stay within the limit |
| HttpCarrier.ClosedStaysSilent | cdn/adapter/httpcarrier.go:139-162 | a closed session stays closed and nothing more is written to its backend |
| HttpCarrier.SignatureOutlived | cdn/adapter/httpcarrier.go:122-138 | a nonce is remembered for longer than its signature can pass |
| HttpCarrier.OneSessionPerCreate | cdn/adapter/httpcarrier.go:189-237 | in every run in which creates reach the lock within four seconds and a nanosecond of the check, a signed create is let in at most once and at most one session comes of it |
| HttpCarrier.SlowCreateTwice | cdn/adapter/httpcarrier.go:122-215 | for every longer delay and room for two sessions there is a run in which one signed create opens two, both open at once if the delay is at most 14 seconds and a nanosecond |
| HttpCarrier.SlowCreateAgain | cdn/adapter/httpcarrier.go:122-215 | with room for one session there is such a run too: the two are open one after the other, the first being deleted in between |
| HttpCarrier.HttpHub.OpenPlaceholder | cdn/adapter/httpcarrier.go:189-215 | the first half of a create admits it exactly if it is new and there is room |
| HttpCarrier.HttpHub.FinishCreate | cdn/adapter/httpcarrier.go:216-237 | the second half replaces the placeholder exactly if it is still there |
| HttpCarrier.HttpHub.Post | cdn/adapter/httpcarrier.go:256-276 | one upload: refused if not due, else written in full, or in part and the session closed |
| HttpCarrier.SweptExact | cdn/adapter/httpcarrier.go:147-162 | a cleanup removes and closes exactly the sessions idle for more than 75 seconds or older than two hours, or all |
| HttpCarrier.HttpHub.Sweep | cdn/adapter/httpcarrier.go:147-162 | cleanup closes and forgets exactly the sessions idle or old and the nonces past remembering |

## Left out

- Sockets, poll, OpenSSL, the TUN device, DNS, signals and threads: chunk sizes, clock values and event orders stand for them.
- Cryptographic strength: only lengths, "opening undoes sealing", agreement of the Diffie-Hellman secret and, in the handshake, injectivity are used.
- Handshake.StepExact: a blocking send is one step and a message one unit, because frames and partial writes are dealt with in `WsSession`; timeouts and the round-trip limit of a trial only end an attempt.
- HandshakeRuns.Handshakes: starts after the 101 response; header parsing, and hex and length checks of the hello's fields, are string handling.
- WsSession.Session.ReadMessages: what has arrived is given as a list of pieces; the source's wait for readability is whether there is anything.
- HttpCarrier.OneSessionPerCreate: holds of runs in which a create takes at most four seconds and a nanosecond from the signature check to the hub's lock, because the source sets no bound and beyond that the property fails for every hub that lets any session in (`SlowCreateTwice`, `SlowCreateAgain`).
- CarrierLimits.CarrierExact: the longest record is a parameter, at least 104 bytes and no more than the receiver's buffer; the configuration allows at most 9000 + 256 bytes of packet, 32 of record and 3 + 1024 of padding, and no buffer below 65536.
- CarrierLimits.CarrierCanRefuse: the refused run is one of the single connection's loop; the lanes of a pool make their messages of packets popped one by one (cdn/src/runtime.cpp:1283-1304) and are not part of this model.
- HttpCarrier.UploadsInOrder: sessions are places in a list rather than objects on the heap, a request holds one by its place; a placeholder's connection could be written to in the model, which only allows more runs.
- The transmit stall timer of a WebSocket and the telemetry counters of the loops: they only end a connection or report on it.
- Downloads (GET), DELETE and the reading flag of the HTTP carrier, and its client: they hold no state across requests worth a proof.
- PoolAffinity.Sticky: the FNV hash is a function parameter; which of several equally old flows is evicted is left open, as in the source.
- Traffic.PaddingBounds: token counts are exact reals, the source uses doubles; `carrier_tunnel_loop` asks the data budget before the shaping one in the same way but takes its maximum from the burst shaper.
- The burst shaper, adaptive batch sizes and timing jitter decide when something is sent, not what: every such choice is one of the runs.
- The server side of the pool, the round-trip statistics that make a lane wanted for replacement, and the clocks that say when the next replacement or dial is due: inputs of the model.
- Sequence numbers beyond 2^64: the encoders' refusal of number zero is modelled, a counter that wraps is not.
- Configuration, logging, telemetry, the Go uTLS bridge, scripts and pages: plumbing and text.
