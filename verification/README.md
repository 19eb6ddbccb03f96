# MPMPES in Dafny: the reliable session and the world logic around it

This project models the behaviour of the MPMPES server (a Minecraft PE 0.14 server in C++) where it
is most intricate, and proves what that behaviour guarantees.

**The RakLib session.** `SessionModel.dfy` describes a session as a value and each of its operations
as a function; `Session.dfy` keeps the fields in a class and proves every method, loop by loop,
against those functions, runs of the object included. `Binary.dfy`, `Packets.dfy` and `Acknowledge.dfy` are the codecs underneath,
as loops over a cursor and as the functions they compute; `Formats.dfy` says what lies where in the
bytes. `Moves.dfy` and `Runs.dfy` break every
input of a session into a few moves of its sending side, so that an invariant of the moves is one of
all runs. On that rest the results about one session: what the sender keeps (`Sender.dfy`,
`Numbering.dfy`), the packet size (`Mtu.dfy`), the two receiving windows (`Windows.dfy`), the life of a
connection (`Lifecycle.dfy`) and when a message in parts can still be put together (`Reassembly.dfy`).
Five files say in bytes, numbers and seconds what single steps do, rather than in terms of one another:
what becomes of an offer (`Offers.dfy`), what is sent again and when (`Resends.dfy`), what a datagram does
to the windows (`Arrivals.dfy`), what the peer is told of it (`Reports.dfy`) and every answer of the
connection (`Replies.dfy`).
`Link.dfy` joins two sessions by a network that may drop, repeat
and reorder whatever either hands to its socket; `Progress.dfy` shows the way from any state of the
link to one where nothing is left to send; `Messages.dfy` carries the result up to whole
messages through the handshake, splitting and reassembly.

**Redstone.** `RedstoneWorld.dfy` has the blocks and sources, `RedstoneWires.dfy` the relaxation of
wire strengths with its reference (best walks) and its local equation, `RedstoneUpdate.dfy` the whole
recompute, `RedstoneResults.dfy` its update log, its schedules and its idempotence, and
`RedstoneSchedules.dfy` the list of waiting repeater flips with the tick that applies them;
`RedstoneTiming.dfy` says over whole runs when a flip comes due. `RedstoneDirections.dfy` says in
coordinates what feeds, powers and drives what, and `RedstoneFlips.dfy` what a tick does to the world.

**Spawn.** `Planes.dfy` says what a flat plane and its centre are; `SpawnPlane.dfy` has the surface
scan, the flood fill and the choice of the largest plane; `SpawnChoices.dfy` has the numbers of each kind
of world.

**Items.** `Items.dfy` counts items by type; `SlotTransactions.dfy` has the survival inventory
transactions with their greedy matcher, `SlotGroups.dfy` when a group of them takes effect; `Hoppers.dfy`,
`HopperLevel.dfy` and `HopperRuns.dfy` have the hopper tick, its loop over the level, and what all runs of
it keep, and `HopperTransfers.dfy` what moves, from where and into what.

**Chunks.** `Chunk.dfy` has the flat arrays, the packed half bytes and the incremental height map,
against a plain map from places to blocks.

Time is an argument of every operation that asks for it. Fields and parameters said to be history
(the packets enqueued, the numbers accepted, the callbacks made, the transfers of a hopper) are
recorded for the statements and never read by an operation.

## Where the proofs found a limit

- A datagram is acknowledged before its packets meet the reliable window
  (src/raklib/Session.cpp:354, src/raklib/Session.cpp:404). An index beyond the window is dropped and
  never sent again (`Link.AckedYetDropped`); `Link.NoLossAtRest` says exactly when that loses something,
  and `Link.NoLossWhenPaced` gives a pace that prevents it.
- A NACK that names a number before it is given out can have one datagram sent twice, since its first
  resend gives that number out; `Resends.NackResends` says exactly which NACKs do.
- A message of 128 parts or more is sent and acknowledged, and the receiver ignores every part of it
  (`Messages.SeeTooMany`, and `Messages.Heard` in the statement of whole-message delivery).
- `splits_[sid]` makes an entry before the limit is checked, entries left empty are erased only after they
  were filled, and a part that claims a message of no parts is stored without ever completing one. A
  connected session can be made to deliver a message in parts if and only if its table is not stuck
  (`Reassembly.DeliversUnlessStuck`); a stuck table stays stuck (`Reassembly.StuckForGood`). It is stuck
  when every entry with a part has index 127, and the entries that are empty or hold 128 parts are more
  than four, or are four and no entry is empty. Five empty entries are one way to get there
  (`Reassembly.EmptyEntriesJam`, `Reassembly.JamIsReachable`), four full ones another
  (`Reassembly.FourFullEntries`).
- An offer of an empty buffer that does not fit the packet size takes a message index that is never
  sent (`Numbering.OfferKeepsGapless`, `Numbering.NothingProduced`).
- Reliabilities 1 and 4 print an order field that `totalLength` does not count
  (`Mtu.UnmeasuredReliabilities`), so that a datagram exceeds the packet size by up to four bytes for each
  packet of theirs (`Mtu.MtuBound`, `Mtu.FourTooMany`).
- A run of more than 513 numbers, and a list past the cap of 4096, are cut short when an acknowledgement is
  read; what is cut is never acknowledged by mistake (`Acknowledge.AckRoundTrip`).
- The comment before the wire seeds speaks of the source power less one; the code keeps the power
  itself in every branch (`RedstoneWires.StrongGives15`). The model follows the code.
- The comment on plane centres says they are snapped to a cell of the plane; the code compares heights
  only, so that the spawn may be put on another, smaller plane (`Planes.CentreOffPlane`).
  `Planes.CentreOnPlane` says exactly when. The model follows the code.
- A repeater that is asked to flip again while it waits starts its delay again
  (src/server/Server.cpp:98-103), and every recompute nearby asks for it again. Recomputes that come
  often enough put it off for ever (`RedstoneTiming.PutOffForEver`); `RedstoneTiming.DueAfterLastAsk`
  says exactly when it comes due.
- The branch for a single write of a creative player (src/server/Server.cpp:3649-3655) cannot be
  reached: a creative group is always applied before it (`SlotTransactions.CreativeApplies`).

## Model

| member | source | states |
|---|---|---|
| Binary.ShortRoundTrip | src/binary/BinaryStream.cpp:220-236 | a value written in 16 bits reads back modulo 2^16 |
| Binary.LTriadRoundTrip | src/binary/BinaryStream.cpp:205-218 | a little-endian triad reads back modulo 2^24 |
| Binary.IntRoundTrip | src/binary/BinaryStream.cpp:252-270 | a 32-bit integer reads back as the signed value of its low 32 bits |
| Binary.BinaryStream.Get | src/binary/BinaryStream.cpp:38-49 | yields the next bytes and moves the cursor past them, or fails without moving when too few are left |
| Binary.BinaryStream.Put | src/binary/BinaryStream.cpp:139-141 | appends to the buffer and leaves the cursor |
| Packets.PacketRoundTrip | src/raklib/EncapsulatedPacket.cpp:13-111 | reading a printed packet in front of any bytes yields what the reliability lets through, and consumes exactly the header and the buffer modulo 8192 bytes |
| Packets.RoundTripIsIdentity | src/raklib/EncapsulatedPacket.cpp:13-111 | the packet read back is the one printed if and only if its optional fields match its reliability and its fields fit the wire |
| Packets.TotalLengthExact | src/raklib/EncapsulatedPacket.cpp:75-111 | totalLength is the printed length if and only if the index fields present are those the reliability prints |
| Packets.DatagramRoundTrip | src/raklib/Datagram.cpp:15-38 | a printed datagram reads back with its packets up to the first empty one; with all of them if and only if no buffer is empty |
| Packets.PacketsRoundTrip | src/raklib/Datagram.cpp:15-38 | the packet list read from a printed list is the list before its first empty packet |
| Packets.MeasureDatagram | src/raklib/Datagram.cpp:7-13 | the loop adds up the four header bytes and every packet's totalLength |
| Packets.PrintDatagram | src/raklib/Datagram.cpp:15-23 | the stream the loop writes is the encoding the round trip is proved for |
| Packets.ParsePackets | src/raklib/Datagram.cpp:29-37 | the reading loop ends on all bytes and yields the decoding the round trip is proved for |
| Packets.ParseDatagram | src/raklib/Datagram.cpp:25-38 | fails on fewer than four bytes, else header and packet list of the decoding |
| Acknowledge.RunsOfListed | src/raklib/AcknowledgePacket.cpp:13-66 | the runs written expand to exactly the sorted duplicate-free list |
| Acknowledge.RunsAreMaximal | src/raklib/AcknowledgePacket.cpp:20-58 | between two runs at least one number is missing: no two could be written as one |
| Acknowledge.AckRoundTrip | src/raklib/AcknowledgePacket.cpp:13-95 | nothing is read back that was not listed, and all of the list exactly when no run spans more than 513 numbers and the cap of 4096 is met only by the last run |
| Acknowledge.KeptAll | src/raklib/AcknowledgePacket.cpp:68-95 | the reader keeps every number of a record list if and only if enough records are announced, runs are short and the cap holds |
| Acknowledge.PrintRuns | src/raklib/AcknowledgePacket.cpp:20-58 | the loop over the sorted vector writes the records of the maximal runs and counts them in 16 bits |
| Acknowledge.PrintAck | src/raklib/AcknowledgePacket.cpp:13-66 | the bytes written are those the round trip is proved for |
| Acknowledge.ReadRecord | src/raklib/AcknowledgePacket.cpp:74-92 | one record extends the list by what the reader keeps of it and leaves the rest of the stream to complete it |
| Acknowledge.ParseAck | src/raklib/AcknowledgePacket.cpp:68-95 | the reading loop ends on all bytes, fails where the decoding fails and yields its list |
| Formats.PacketLayout | src/raklib/EncapsulatedPacket.cpp:80-111 | byte for byte: reliability and split bit, length in bits, message index for five reliabilities, payload last |
| Formats.OrderLayout | src/raklib/EncapsulatedPacket.cpp:97-100 | order index and channel lie behind the message index, for three reliabilities |
| Formats.SplitLayout | src/raklib/EncapsulatedPacket.cpp:103-107 | count, identifier and index of a part, most significant bytes first |
| Formats.DatagramLayout | src/raklib/Datagram.cpp:15-23 | identifier and number in four bytes, each further packet at the end |
| Formats.OneRunLayout | src/raklib/AcknowledgePacket.cpp:13-66 | consecutive numbers are written as one record, single or range, behind the identifier and a count of one |
| Formats.LongRunIsCut | src/raklib/AcknowledgePacket.cpp:76-85 | of more than 513 consecutive numbers the reader takes the first 513 |
| Formats.LongEcho | src/binary/BinaryStream.cpp:292-309 | eight bytes read and written back are the same bytes |
| Sessions.Session.constructor | include/mpmpes/raklib/Session.hpp:90-125 | every field has its declared initial value |
| Sessions.Session.SendDatagram | src/raklib/Session.cpp:104-109 | the stamped datagram is in the recovery queue under its number and handed to the socket |
| Sessions.Session.FlushSendQueue | src/raklib/Session.cpp:111-118 | a non-empty queue leaves as one datagram under the next number |
| Sessions.Session.AddToQueue | src/raklib/Session.cpp:120-133 | an immediate packet leaves alone; another joins the queue, which is flushed first when it would not fit |
| Sessions.Session.AddEncapsulated | src/raklib/Session.cpp:135-175 | indexes assigned, then sent whole or in parts as the sending model says |
| Sessions.Session.SendSplit | src/raklib/Session.cpp:149-171 | the loop sends the parts of the model, over consecutive message indexes |
| Sessions.Session.FlushAcks | src/raklib/Session.cpp:52-67 | both queues are sent as one message each and emptied |
| Sessions.Session.Update | src/raklib/Session.cpp:177-222 | timeout or one periodic pass: acknowledgements, drain, resend, drain, flush, pruning |
| Sessions.Session.Drain | src/raklib/Session.cpp:186-192 | at most 64 waiting datagrams leave, in order |
| Sessions.Session.Expire | src/raklib/Session.cpp:194-206 | each datagram unacknowledged for half a second is given a new number and waits to be sent again |
| Sessions.Session.Prune | src/raklib/Session.cpp:213-219 | exactly the numbers below the window start are forgotten |
| Sessions.Session.Disconnect | src/raklib/Session.cpp:224-232 | the close callback is made the first time only |
| Sessions.Session.HandleAck | src/raklib/Session.cpp:375-381 | each number named is erased from the recovery queue |
| Sessions.Session.HandleNack | src/raklib/Session.cpp:383-395 | each datagram named and still in recovery is sent again under a fresh number |
| Sessions.Session.AcceptNumber | src/raklib/Session.cpp:348-368 | window, queues and received set after an admitted number |
| Sessions.Session.HandleDatagram | src/raklib/Session.cpp:342-373 | inadmissible numbers change nothing; others pass the window and then each packet |
| Sessions.Session.HandleEncapsulated | src/raklib/Session.cpp:397-427 | the reliable window lets through, holds or drops the packet, and releases what became ready |
| Sessions.Session.HandleSplit | src/raklib/Session.cpp:429-455 | a part is stored or refused, and the last one yields the joined packet |
| Sessions.Session.HandleEncapsulatedRoute | src/raklib/Session.cpp:457-475 | parts are reassembled, session packets handled, others delivered when connected |
| Sessions.Session.HandleInternal | src/raklib/Session.cpp:477-543 | handshake, ping and disconnect packets and their answers |
| Sessions.Session.HandleOffline | src/raklib/Session.cpp:283-340 | the two open-connection requests and their replies |
| Sessions.Session.HandleRaw | src/raklib/Session.cpp:234-270 | any bytes are dispatched by state and first byte |
| Sessions.Session.Perform | src/raklib/Session.cpp:104-340 | one input, whatever its kind, takes the object where a step of the model takes its state |
| Sessions.Session.PerformAll | src/raklib/Session.cpp:104-340 | any inputs take the object where the run of the model takes its state, so that what holds of all runs holds of the object |
| Moves.RawMoves | src/raklib/Session.cpp:234-270 | whatever bytes arrive, the sending side makes a sequence of a few kinds of moves; nothing is forgotten that no ACK names, and the packet size moves only during the handshake |
| Moves.UpdateMoves | src/raklib/Session.cpp:177-222 | a periodic pass only sends, postpones, flushes and tells its two acknowledgement queues |
| Moves.HandshakeLength | src/raklib/Session.cpp:86-102 | the handshake answer is 96 bytes for every endpoint and ping |
| Offers.OfferIsCut | src/raklib/Session.cpp:135-175 | whole if it and four bytes fit the packet size, else in parts of 34 bytes less than that, numbered under the next split identifier |
| Offers.OfferLeaves | src/raklib/Session.cpp:111-175 | cut or immediate offers leave at once in datagrams of their own; others wait, and the queue leaves first if it has no room |
| Offers.OrderIndexCounts | src/raklib/Session.cpp:139-145 | over all runs: an ordered offer carries the number of ordered offers before it on its channel modulo 32, in every part |
| Resends.NackResends | src/raklib/Session.cpp:383-395 | every number named that waits is sent again at once, once, under the next number, and waits under it; nothing else is sent or changed; if and only if no number is named that this NACK itself gives out first |
| Resends.AckReleases | src/raklib/Session.cpp:375-381 | an ACK ends the wait for exactly the numbers it names and sends nothing |
| Resends.SilentCloses | src/raklib/Session.cpp:177-181 | a session silent since the last pass and for ten seconds is closed, and does nothing else |
| Resends.PassExact | src/raklib/Session.cpp:177-222 | any other pass tells what is queued, sends up to 64 datagrams in line, puts what has waited for more than half a second in line under new numbers, sends up to 64 more and flushes; what has not waited so long stays as it was |
| Runs.OfferEnqueues | src/raklib/Session.cpp:135-175 | an offer enqueues the packet itself or its parts, and advances the index by as many |
| Runs.StepMoves | src/raklib/Session.cpp:135-270 | every input of a session is such a sequence of moves on its sending side |
| Sender.MovesKeep | src/raklib/Session.cpp:104-133 | every move keeps the numbers unique and the packets balanced |
| Sender.WhereCarried | src/raklib/Session.cpp:104-133 | an enqueued packet is in a queue or was in a datagram an ACK named |
| Sender.SenderConservation | src/raklib/Session.cpp:104-222 | over all runs: each enqueued packet is held exactly once over the three queues and the acknowledged datagrams, leaves only by an ACK that names a datagram that carried it, and live numbers are distinct and below the counter |
| Mtu.HandshakeNeeds103 | src/raklib/Session.cpp:86-102 | the handshake answer fits a datagram if and only if the packet size is at least 103 |
| Mtu.ProducedFit | src/raklib/Session.cpp:135-175 | with a packet size above 34, whatever is offered, each packet or part enqueued is counted as fitting a datagram of its own |
| Mtu.UnmeasuredReliabilities | src/raklib/EncapsulatedPacket.cpp:75-111 | reliabilities 1 and 4 print four bytes that totalLength does not count |
| Mtu.DatagramLength | src/raklib/EncapsulatedPacket.cpp:75-111 | for packets that came without indexes of their own, a datagram encodes to its counted length and four bytes for each packet of reliability 1 or 4 |
| Mtu.FourTooMany | src/raklib/Session.cpp:135-175 | an offer of reliability 1 counted as just fitting is sent whole, in a datagram four bytes larger than the packet size |
| Mtu.MtuBound | src/raklib/Session.cpp:111-175 | over all runs whose offers come after the offline handshake, with a packet size of 103 or more: every datagram sent, batched, split, answered or resent, encodes to at most that many bytes and what its packets print uncounted, four each for reliabilities 1 and 4, nothing for the others; and none is sent before the size is settled |
| Windows.AcceptNumberKeeps | src/raklib/Session.cpp:342-370 | an admitted number is new, and taking it keeps the partition of numbers |
| Windows.AckNackPartition | src/raklib/Session.cpp:342-373 | over all runs: window start is the last number and window end 2049 more; each number up to the last was queued once, for an ACK if accepted and a NACK if not |
| Windows.RoutedInOrder | src/raklib/Session.cpp:397-427 | over all runs: indexed packets are routed as 0, 1, 2, ...; the window is the next index and 2048 more; what is held lies strictly inside |
| Windows.AcceptPacketsFollow | src/raklib/Session.cpp:397-427 | against a sender's stream: routed packets stay its prefix, held ones stay in place, and each arriving index is routed, held or beyond the window |
| Arrivals.DatagramArrives | src/raklib/Session.cpp:342-373 | over all runs: a datagram is taken if and only if its number is one of the 2049 after the last; then it is queued for an ACK, and the numbers skipped for a NACK; else nothing happens |
| Arrivals.PacketArrives | src/raklib/Session.cpp:397-427 | the next index passes with the held ones that follow it without a gap, the 2048 after it wait, others are dropped |
| Arrivals.PlainPass | src/raklib/Session.cpp:397-401 | packets without an index are all routed, in their order |
| Reports.EachNumberReported | src/raklib/Session.cpp:52-67 | over all runs: each accepted number waits in the ACK queue or was named by exactly one ACK sent, each missing one likewise for NACKs, and no other number was ever named |
| Reports.FlushTellsAll | src/raklib/Session.cpp:52-67 | a flush sends what is queued as one ACK and one NACK and empties both queues |
| Replies.Request1 | src/raklib/Session.cpp:283-301 | the first request is answered with 28 given bytes that tell its length as the packet size, or ignored if too short or unmarked |
| Replies.Request2 | src/raklib/Session.cpp:272-339 | the second is answered with 35 given bytes; packet size, at most 1464, and client are taken from it |
| Replies.RequestAgain | src/raklib/Session.cpp:245-266 | repeated before the connection packet it is answered again; later, nothing below 128 is heard outside datagrams |
| Replies.OthersIgnored | src/raklib/Session.cpp:268-339 | before the handshake is done nothing else has any effect |
| Replies.ConnectAnswered | src/raklib/Session.cpp:86-102 | the connection packet is answered at once with 96 given bytes, the client's eight bytes among them |
| Replies.BytesKeepAlive | src/raklib/Session.cpp:234-238 | whatever arrives sets the time from which silence is counted |
| Replies.PingAnswered | src/raklib/Session.cpp:528-543 | a ping is answered with its own eight bytes, with the next datagram |
| Replies.PacketsDo | src/raklib/Session.cpp:457-527 | what any other whole packet does: connect, close once, deliver, or nothing |
| Lifecycle.StorePartKeeps | src/raklib/Session.cpp:434-441 | at most four reassemblies hold parts, all with indexes below 128 |
| Lifecycle.LifeOfASession | src/raklib/Session.cpp:224-340 | over all runs and between any two moments: the phase never goes back; packet size and client are frozen after the offline handshake; open and close are signalled at most once, and no delivery precedes open |
| Reassembly.StuckTakes | src/raklib/Session.cpp:429-455 | on a stuck table (every entry with a part has index 127, and the entries that are empty or hold 128 parts are more than four, or four with no entry empty) no part completes a message, the table stays stuck and no reassembly is opened |
| Reassembly.StuckForGood | src/raklib/Session.cpp:429-475 | every run of a session leaves a stuck table stuck, and at every moment of it routing is routing without the parts: no message in parts is ever delivered again |
| Reassembly.UnstuckDelivers | src/raklib/Session.cpp:429-475 | on any other table there are parts that make a connected session deliver a message |
| Reassembly.DeliversUnlessStuck | src/raklib/Session.cpp:429-475 | over all runs: a connected session can be made to deliver a message by parts if and only if its table is not stuck |
| Reassembly.FourFullEntries | src/raklib/Session.cpp:429-455 | parts of four messages that claim to have no parts lead a connected session to a stuck table of four full entries, without an empty one |
| Reassembly.EmptyEntriesJam | src/raklib/Session.cpp:429-475 | with five entries left empty by refused parts and no reassembly open, every run of the session stays so, and at every moment of it routing is routing without the parts: no message in parts is ever delivered again |
| Reassembly.JamIsReachable | src/raklib/Session.cpp:429-475 | a connected session without reassemblies can be led there by parts alone: five messages refused while four are half received, then the four completed |
| Numbering.OfferKeepsGapless | src/raklib/Session.cpp:135-175 | the stream of indexed packets stays numbered 0, 1, 2, ... if and only if the offer is cut into at least one packet |
| Numbering.NothingProduced | src/raklib/Session.cpp:149-154 | only an empty buffer that does not fit the packet size is cut into no packet |
| Link.LaneAccepts | src/raklib/Session.cpp:342-427 | taking any datagram the peer logged keeps the whole relation between sender and receiver |
| Link.PrefixSafety | src/raklib/Session.cpp:397-427 | two sessions over a network that drops, repeats and reorders: in every run the routed packets are exactly the first lastReliable + 1 of the peer's stream |
| Link.NoLossAtRest | src/raklib/Session.cpp:104-427 | once the sender's three queues are empty, the receiver has routed the whole stream if and only if every index that arrived beyond the window was also routed |
| Link.NoLossWhenPaced | src/raklib/Session.cpp:397-427 | a sender that never numbers a packet beyond the receiver's window loses nothing |
| Progress.ProgressToRest | src/raklib/Session.cpp:104-427 | from every moment of a run at which both sides are past the offline handshake and the sender has numbers left, periodic passes and deliveries without any offer bring the sender to rest |
| Progress.Starved | src/raklib/Session.cpp:342-366 | as long as no delivery carries one of the 2049 numbers after the last one taken, nothing is taken, routed or held any more, whatever else is delivered |
| Link.AckedYetDropped | src/raklib/Session.cpp:342-406 | the bytes of a datagram whose one packet lies beyond the reliable window, arriving at any session past the offline handshake: the number is queued for an ACK, and the packet is neither routed nor held |
| Messages.SeeParts | src/raklib/Session.cpp:429-455 | the parts of a message, in order, leave no trace but the message they join to |
| Messages.SeeTooMany | src/raklib/Session.cpp:429-433 | the parts of a message of 128 or more change nothing at the receiver, nor any part before it is connected |
| Messages.OfferSeen | src/raklib/Session.cpp:135-175 | splitting on one side and reassembly on the other undo each other for every offer of fewer than 128 parts once the receiver is connected; before that parts change nothing and an unsplit 0x13 connects it |
| Messages.WholeMessageDelivery | src/raklib/Session.cpp:135-513 | over all runs of the link from sessions that have exchanged nothing, through the handshake: the messages handed to the receiving host are a prefix of those offered for it after the packet that connects it, whole, in order and once; and all of them at rest when no index was lost |
| Messages.AMessageIsDelivered | src/raklib/Session.cpp:234-513 | there is such a run from two new sessions, through the offline handshake and the connection packet, in which a message is delivered |
| RedstoneWorld.DiodeFaces | include/mpmpes/block/Redstone.hpp:50-89 | a diode listens and gives at opposite faces and waits two ticks for each of its four levels |
| RedstoneWorld.DiodeGivesOneWay | include/mpmpes/block/Redstone.hpp:180-194 | a diode that is on gives to one neighbour only, the one opposite to its input |
| RedstoneWorld.ChestRange | include/mpmpes/block/Redstone.hpp:117-130 | a chest reads as 0 to 15, and 0 exactly when it is empty |
| RedstoneWorld.MostGivenIsMaximum | include/mpmpes/block/Redstone.hpp:174-198 | the power around a cell is the maximum given by its neighbours and lies in 0..15 |
| RedstoneWorld.SourceAround | include/mpmpes/block/Redstone.hpp:174-198 | the loop over the six sides finds that maximum, diodes counting at their output face only |
| RedstoneWorld.KeysDistinct | include/mpmpes/block/Redstone.hpp:41-45 | packed keys of two cells of a world are equal if and only if x and y are and z differs by a multiple of 65536 |
| RedstoneWorld.KeysCollide | include/mpmpes/block/Redstone.hpp:41-45 | cells 65536 apart in z share a key |
| RedstoneWires.StrongGives15 | include/mpmpes/block/Redstone.hpp:237-260 | a block of redstone or lit torch beside a wire already gives 15, so the special case for them changes nothing |
| RedstoneWires.FeedWires | include/mpmpes/block/Redstone.hpp:235-267 | the seeds queued are earned, complete and waiting to be spread |
| RedstoneWires.TryWire | include/mpmpes/block/Redstone.hpp:276-284 | raising a neighbour keeps every strength earned and every unspread strength queued, and makes progress |
| RedstoneWires.Relax | include/mpmpes/block/Redstone.hpp:270-290 | the loop ends with every wire at the strength of its best walk, whatever the order of seeds and stale entries |
| RedstoneWires.PowerIsBestWalk | include/mpmpes/block/Redstone.hpp:232-290 | that strength is the greatest seed minus walk length over all walks from wires of the box, or 0 |
| RedstoneWires.OneSolution | include/mpmpes/block/Redstone.hpp:232-290 | a table of strengths solves the local equation if and only if it is that one |
| RedstoneUpdate.Level.Place | src/level/Level.cpp:719-729 | bedrock and the bottom layer are not replaced by air, other cells take the block |
| RedstoneUpdate.Level.CollectWires | include/mpmpes/block/Redstone.hpp:222-230 | the wires of the box, in scanning order |
| RedstoneUpdate.Level.WriteWires | include/mpmpes/block/Redstone.hpp:292-305 | each wire whose stored strength differs is written and logged |
| RedstoneUpdate.Level.VisitCell | include/mpmpes/block/Redstone.hpp:340-416 | one lamp, rail, hopper, repeater or comparator is set, scheduled or left alone |
| RedstoneUpdate.MeasurePower | include/mpmpes/block/Redstone.hpp:308-331 | the power at a cell is the larger of its source and the wires around it |
| RedstoneUpdate.Level.Recompute | include/mpmpes/block/Redstone.hpp:216-419 | the three passes together are the function the results below are about |
| RedstoneResults.LogIsFaithful | include/mpmpes/block/Redstone.hpp:292-419 | replaying the log on the old world gives the new one, and every entry is a real change at its turn |
| RedstoneResults.WiresAndRepeaters | include/mpmpes/block/Redstone.hpp:292-419 | with a schedule list no repeater changes or appears; wires of the box hold the strength of their best walk, others keep what they had |
| RedstoneResults.SchedulesAreRight | include/mpmpes/block/Redstone.hpp:376-394 | with a schedule list and no comparator in or next to the box, the flips put off are exactly those of repeaters that disagree with their input face, each with its own delay |
| RedstoneResults.RecomputeIsIdempotent | include/mpmpes/block/Redstone.hpp:216-419 | with a schedule list and no comparator in or next to the box, a second recompute changes and logs nothing |
| RedstoneResults.ConsumersObey | include/mpmpes/block/Redstone.hpp:333-375 | with a schedule list and no comparator in or next to the box, after a recompute every lamp, rail and hopper of the box is on exactly when the new world powers it, and points where it did |
| RedstoneResults.TableKeysDistinct | include/mpmpes/block/Redstone.hpp:41-45 | no two positions the strength table can hold share a packed key |
| RedstoneDirections.PlacedWhere | src/level/Level.cpp:719-729 | a block placed takes its cell, but for emptying bedrock or the bottom, and no other |
| RedstoneDirections.GivesWhere | include/mpmpes/block/Redstone.hpp:143-198 | what a block gives to a neighbour: strong sources and repeaters 15, a repeater or comparator only to the cell ahead of it, by coordinates |
| RedstoneDirections.WireTakes | include/mpmpes/block/Redstone.hpp:232-305 | after a recompute a wire of the box carries at least what any of its six neighbours gives it, in numbers for each kind of block |
| RedstoneDirections.LoneWireTakes | include/mpmpes/block/Redstone.hpp:232-305 | and exactly what one of them gives, or nothing, if no wire leads to it |
| RedstoneDirections.WireAtSource | include/mpmpes/block/Redstone.hpp:232-305 | after a recompute wire next to a strong source, or ahead of a repeater that is on, carries 15 |
| RedstoneDirections.LoneWireIsFed | include/mpmpes/block/Redstone.hpp:232-305 | after a recompute wire to which no wire leads is on if and only if one of its six neighbours feeds it |
| RedstoneDirections.PowerFallsByOne | include/mpmpes/block/Redstone.hpp:269-290 | between two wires of the box one step apart, level or one up or down, power falls by one at most |
| RedstoneDirections.PowerComesFrom | include/mpmpes/block/Redstone.hpp:269-290 | a live wire that nothing feeds has a wire one step away that carries one more, or lies outside the box |
| RedstoneDirections.RepeaterListens | include/mpmpes/block/Redstone.hpp:376-394 | by coordinates: with a schedule list and no comparator near, the flip of a repeater is put off if and only if its state disagrees with the power of the cell behind it, to the other state, for two ticks a level |
| RedstoneDirections.ComparatorsRead | include/mpmpes/block/Redstone.hpp:395-416 | after a recompute every comparator of the box is on if and only if there is something to read in the cell behind it |
| RedstoneDirections.ConsumersWhere | include/mpmpes/block/Redstone.hpp:307-375 | which cells decide over a lamp, a rail and a hopper after a recompute, by coordinates, with no comparator near |
| RedstoneSchedules.EnqueuedWaits | src/server/Server.cpp:95-106 | a flip of the same repeater to the same state is replaced, others stay, none is doubled |
| RedstoneSchedules.LaterCounts | src/server/Server.cpp:119-132 | a tick splits the waiting flips into those due, whose delay has run out, and the rest, one closer |
| RedstoneSchedules.TickWaits | src/server/Server.cpp:108-149 | a tick, with its flips and the recomputes they set off, leaves each flip waiting once, with one to eight ticks to go |
| RedstoneFlips.RecomputeReaches | include/mpmpes/block/Redstone.hpp:216-230 | a recompute reaches as far as its radius, at least 1 and at most 32 blocks; farther away nothing changes |
| RedstoneFlips.TickFlips | src/server/Server.cpp:118-148 | after a tick a repeater is in the state of its last due flip, with its setting unless it was so already and had no other; one without stays; none appears or goes |
| RedstoneFlips.FlipPowersWires | src/server/Server.cpp:133-148 | a single due flip turns its repeater over, and the wires within 16 blocks carry their best walk in the world with it turned over |
| RedstoneFlips.SwitchedOnFeeds | src/server/Server.cpp:133-148 | wire ahead of a repeater switched on carries 15 after the tick |
| RedstoneSchedules.Scheduler.Enqueue | src/server/Server.cpp:95-106 | the loop replaces the matching entry or adds one |
| RedstoneSchedules.Scheduler.Tick | src/server/Server.cpp:119-149 | due flips are applied to repeaters in the other state only, each followed by a recompute |
| RedstoneTiming.RunWaits | src/server/Server.cpp:95-149 | over any run of ticks, recomputes and other changes, no flip waits twice, and each has one to eight ticks to go |
| RedstoneTiming.DueAfterLastAsk | src/server/Server.cpp:95-149 | over any such run a flip has to go what is left of the delay it was last asked for with, and the next tick makes it due if and only if it completes that delay |
| RedstoneTiming.OnTimeUnlessAsked | src/server/Server.cpp:95-149 | a flip with so many ticks to go is due at exactly that tick if and only if nothing asks for it again from the next tick on, while its repeater keeps its setting |
| RedstoneTiming.Restarted | src/server/Server.cpp:98-132 | a flip asked for again before it is due waits as long as it did at first |
| RedstoneTiming.PutOffForEver | src/server/Server.cpp:98-149 | a recompute after every tick puts the repeaters of its box off for ever: after any number of ticks none has flipped, and each that disagrees with its input has its whole delay to go, with no comparator in or next to the box |
| RedstoneTiming.LitStaysOff | src/server/Server.cpp:98-149 | for example a repeater that is off in front of a block of redstone |
| SpawnPlane.SurfaceY | src/level/Level.cpp:774-806 | the highest floor of the band with clear air above it, or -1 when there is none |
| SpawnPlane.SurfaceUnique | src/level/Level.cpp:774-806 | that description fits one value only |
| SpawnPlane.ScanSurface | src/level/Level.cpp:940-960 | the grid holds the surface of every column of the disc and nothing else |
| SpawnPlane.PushNeighbours | src/level/Level.cpp:1009-1020 | exactly the unseen neighbours of the same height are marked and queued, each once |
| SpawnPlane.Fill | src/level/Level.cpp:984-1021 | the fill ends, enters each cell of the plane once and marks exactly the plane, so its area, sums and bounds are the plane's |
| SpawnPlane.FindNearest | src/level/Level.cpp:1036-1056 | on grids up to 16383 blocks, the first nearest cell of the height, row by row, is always found |
| SpawnPlane.FindCentre | src/level/Level.cpp:1025-1059 | on grids up to 16383 blocks, the origin, the middle, or the first nearest cell of the height; no plane is left unused |
| SpawnPlane.Survey | src/level/Level.cpp:962-1071 | on grids up to 16383 blocks, the best area is the maximum over all planes of the grid, and among planes of that area its centre is nearest to the origin |
| SpawnPlane.FindSpawn | src/level/Level.cpp:883-1095 | for reaches up to 16383 blocks and distances up to 46340, beyond which the 32-bit squares of the source overflow, the spawn is the centre of a largest plane of nine cells or more, feet on its surface, else a platform |
| SpawnPlane.SpawnIsSafe | src/level/Level.cpp:1063-1087 | under the spawn there is a floor with clear air above, at the height of a plane of nine cells or more than which none is larger |
| SpawnChoices.SurfacesAre | src/level/Level.cpp:774-960 | a column of the disc shows its highest floor within the bounds and the air of the kind of world, written in numbers, if it has one |
| SpawnChoices.SurfacePlaced | src/level/Level.cpp:883-960 | such a column lies within the chunks loaded and the distance asked for |
| SpawnChoices.SpawnDecides | src/level/Level.cpp:1063-1095 | a platform if and only if no plane has nine cells; else on a cell of the grid at the height of a plane of nine or more than which none is larger |
| Planes.SameComponent | src/level/Level.cpp:962-1021 | planes are classes of an equivalence: cells of one plane have the same plane |
| Planes.MiddleInside | src/level/Level.cpp:1029-1035 | the truncated mean of a plane's cells lies within its bounds |
| Planes.CentreUnique | src/level/Level.cpp:1025-1059 | there is one place for the centre of a plane, however its cells are listed |
| Planes.CentreOnPlane | src/level/Level.cpp:1025-1059 | the centre is on the plane if and only if the plane has the origin, or one of its cells is nearer to the middle, or as near and earlier in the search, than every cell of another plane of the same height in its bounds |
| Planes.CentreOffPlane | src/level/Level.cpp:1034-1035 | a ring around a lone cell of its height takes that cell, which is not on the ring, for its centre |
| Items.SanitizeCleans | include/mpmpes/item/Item.hpp:39-54 | clamping yields a clean stack, and leaves alone exactly the clean ones |
| SlotTransactions.MeetOne | src/server/Server.cpp:3478-3488 | one wanted stack is met as far as its type is given, keeping the difference of totals for every type |
| SlotTransactions.MatchItems | src/server/Server.cpp:3476-3502 | the greedy matcher accepts if and only if wanted and given totals agree for every type |
| SlotTransactions.Player.Write | src/server/Server.cpp:3437-3453 | the slot takes the clamped stack; missing armor becomes four empty slots |
| SlotTransactions.Player.TryExecute | src/server/Server.cpp:3456-3508 | a group is applied if and only if every source still matches its slot and the totals balance; else nothing changes |
| SlotTransactions.Player.HandleSetSlot | src/server/Server.cpp:3584-3663 | ignored, gathered, applied or dropped as the request, the pending group and the game mode call for |
| SlotTransactions.CreativeApplies | src/server/Server.cpp:3642-3655 | a creative request is applied with whatever waits, so that the branch for a single creative write is never reached |
| SlotTransactions.AppliedTrades | src/server/Server.cpp:3456-3508 | applying a group trades the items given for those wanted, type by type |
| SlotTransactions.SurvivalConserves | src/server/Server.cpp:3511-3663 | over any sequence of requests a survival player keeps the total of every type, and pending entries name distinct slots, fewer than eight between requests |
| SlotGroups.GroupDecides | src/server/Server.cpp:3596-3663 | at most eight requests within eight seconds, of which no first part balances, take effect together if they balance; else no slot changes, fewer than eight wait, eight are forgotten |
| SlotGroups.GroupWaits | src/server/Server.cpp:3596-3663 | until then they wait as they came |
| SlotGroups.SwapTakesEffect | src/server/Server.cpp:3596-3663 | two requests that exchange or move what two slots hold leave it exchanged and nothing waiting |
| SlotGroups.LateStartsAnew | src/server/Server.cpp:3609-3615 | a request more than eight seconds after the first that waits starts anew |
| SlotGroups.RequestIgnored | src/server/Server.cpp:3591-3606 | a request for no slot, or for what the slot holds, has no effect |
| SlotGroups.CreativeTakesEffect | src/server/Server.cpp:3642-3655 | a creative request is given what it asks for |
| Hoppers.TryMoveOneItem | src/server/Server.cpp:1336-1354 | the first item that fits goes to the first slot that takes it |
| Hoppers.MoveOneMoves | src/server/Server.cpp:1336-1354 | exactly one item changes over, totals of every type are kept and no slot is lifted above 64 |
| Hoppers.MoveOneTries | src/server/Server.cpp:1336-1354 | something moves if and only if some item fits some slot |
| HopperLevels.HopperLevel.SuckDrops | src/server/Server.cpp:1439-1482 | the first drop in reach that fits at all is taken in as far as it fits |
| HopperLevels.HopperLevel.PullFromAbove | src/server/Server.cpp:1486-1511 | one item comes from a chest or hopper above |
| HopperLevels.HopperLevel.PushIntoFaced | src/server/Server.cpp:1513-1542 | one item goes to the chest or hopper faced |
| HopperLevels.HopperLevel.TickOne | src/server/Server.cpp:1424-1551 | switched-off hoppers rest; others count down, suck, and transfer only when the countdown is over |
| HopperLevels.HopperLevel.TickHoppers | src/server/Server.cpp:1415-1554 | one round over the hoppers |
| HopperTransfers.HopperWorks | src/server/Server.cpp:1424-1551 | by coordinates: the first suckable drop goes in as far as it fits; else, when the countdown ends, one item comes from above if one fits, or else goes into what the hopper points at if one fits; that is a transfer, and the countdown starts at eight; nothing else changes |
| HopperTransfers.HopperRests | src/server/Server.cpp:1424-1430 | a hopper that is off rests, countdown and all |
| HopperRuns.TicksConserve | src/server/Server.cpp:1415-1554 | over any ticks the items of each type in hoppers, chests and on the ground stay the same in number |
| HopperRuns.TicksRaiseNothing | src/server/Server.cpp:1336-1354 | over any ticks no slot is lifted above 64 |
| HopperRuns.TransfersAreSpaced | src/server/Server.cpp:1430-1546 | over any ticks two container transfers of one hopper lie at least eight ticks apart |
| HopperRuns.FreshYardIsRested | include/mpmpes/level/Level.hpp:166-171 | hoppers that have transferred nothing yet, whatever their countdowns, may start such a run |
| Chunks.IndexDistinct | include/mpmpes/level/Chunk.hpp:19-22 | different places have different indexes |
| Chunks.IndexOnto | include/mpmpes/level/Chunk.hpp:13-22 | every cell of the array is the place of some block |
| Chunks.SetNibble | src/level/Chunk.cpp:13-22 | the half byte is replaced and every other half byte left alone |
| Chunks.Chunk.GetBlockId | src/level/Chunk.cpp:92-95 | the identifier in the map, 0 outside the chunk |
| Chunks.Chunk.GetBlockMeta | src/level/Chunk.cpp:97-100 | the metadata in the map, 0 outside the chunk |
| Chunks.Chunk.SetBlock | src/level/Chunk.cpp:50-75 | one place of the map changes and a right height map stays right; the chunk is dirty exactly when something changed |
| Chunks.Chunk.RecomputeHeightMap | src/level/Chunk.cpp:77-90 | each column's height is one above its highest block that is not air |
| Chunks.Chunk.SetBlocks | src/level/Chunk.cpp:50-75 | any run of writes leaves the chunk equal to the plain map, and a right height map right |
| Chunks.LastWriteCounts | src/level/Chunk.cpp:50-75 | after any run of writes each place holds what the last write to it gave, or what it held |
| Chunks.HeightMapUnique | src/level/Chunk.cpp:50-90 | two right height maps are equal: the one kept write by write is the one a recompute gives |

## Left out

- Sockets, cached addresses, threads, locks, logging and the session manager: sending is appending to
  a history of messages, and time is a parameter.
- Wrap-around of sequence numbers and message indexes at 2^24 and 2^32: the results about the link
  assume both stay below 2^24, where the receiver has no wrap-around logic either.
- Fields of the session class: they are grouped into three records (sending, windows, connection), which
  the methods reassign field by field.
- `reliable_window_`, `recovery_queue_` and the ordered sets are maps and sets visited in ascending order;
  sorting and removing duplicates before an acknowledgement is written is one such visit.
- The peer's address is four bytes and a port; reading it from text is not modelled, nor the reply sent
  when it cannot be read.
- The internal form of `toBinary` (`internal = true`), which nothing sends, is not part of this model.
- The callbacks are taken to be set, and to record their call only: what hosts do in them comes back as
  further inputs.
- Unreliable packets in the exactly-once results: retransmission repeats them and the receiver has no
  index to tell them apart. `Messages.WholeMessageDelivery` is about hosts that offer reliable messages.
- Bytes that reach a linked session from elsewhere are handshake requests; forged datagrams are outside
  `Link`, though the results on a single session hold for all bytes.
- ProducedFit: leaves out packet sizes of 34 or less, where parts are cut at 64 bytes whatever the size.
- MtuBound: leaves out offers made before the offline handshake has settled the size, which are cut to
  another one.
- The strength table is keyed by positions, not by packed keys; TableKeysDistinct shows that no two of its
  positions share a key.
- The two passes of a recompute over its box share one listing of the cells, in the order of the nested
  loops.
- Comparators in or next to the box in the idempotence, schedule and consumer results: they read wire
  strengths from before the recompute. `RedstoneDirections.ComparatorsRead` says what becomes of the
  comparators themselves.
- Several levels sharing the list of waiting flips: the list is that of one level.
- Placement helpers for levers, torches and repeaters, rail shapes, and chunk generation on access: a cell
  that was never set is air.
- Building the fallback platform of the spawn, its log lines and the preloading of chunks; grids beyond
  16383 blocks and distances beyond 46340, where the squares of the search would not fit 32 bits.
- The height grid and the mark grid of the spawn are two-dimensional arrays rather than one flat vector each,
  and cells are named by world coordinates.
- The creative content window, dynamic container windows, hotbar links, crafting, and item tag data: the client is
  the authority there, or no count depends on them.
- Conservation for creative players: their requests are applied whether or not they balance.
- Item entity kinds and levels: the drops of a hopper yard are those of its level. Positions are real numbers
  instead of floats.
- Refreshing open container windows and entities at clients after a hopper tick.
- Light arrays, biome colours, the network payload and the file form of chunks.
- Physics, damage, portals, terrain noise, commands, persistence and the game packet encoders: floating
  point or straight-line code.
