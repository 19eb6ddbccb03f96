/** The reliable session as a value and its operations as functions on that value. The class in
    Session.dfy keeps the fields and is proved against these functions; the other modules prove
    what whole runs of them keep.

    Fields named in the second group of each record are history: no operation reads them. */
module SessionModel {
  import opened Collections
  import opened Binary
  import opened Packets
  import opened Acknowledge

  const WINDOW_SIZE := 2048
  const MAX_SPLIT_SIZE := 128
  const MAX_SPLIT_COUNT := 4
  const DRAIN_LIMIT: nat := 64
  const RESEND_DELAY := 0.5
  const TIMEOUT := 10.0

  datatype Phase = Unconnected | Connecting1 | Connecting2 | Connected

  /** IPv4 address and port of the peer. */
  datatype Endpoint = Endpoint(a: byte, b: byte, c: byte, d: byte, port: nat)

  datatype Config = Config(serverId: nat, endpoint: Endpoint)

  /** One thing handed to the socket. */
  datatype Message =
    | Data(datagram: Datagram)
    | Ack(numbers: set<nat>)
    | Nack(numbers: set<nat>)
    | Reply(raw: seq<byte>)

  function Bytes(m: Message): seq<byte> {
    match m
    case Data(d) => EncodeDatagram(d)
    case Ack(ns) => EncodeAck(ID_ACK, Ascending(ns))
    case Nack(ns) => EncodeAck(ID_NACK, Ascending(ns))
    case Reply(raw) => raw
  }

  /** A call of on_open_, on_encap_ or on_close_. */
  datatype Event = Opened(clientId: nat) | Delivered(packet: Packet) | Closed

  /** Numbers that start at -1, one before the first. */
  type Last = x: int | -1 <= x witness -1

  /** The order index of each of the 32 channels. */
  type Channels = s: seq<nat> | |s| == 32 witness seq(32, _ => 0)

  datatype Outbound = Outbound(
    mtu: nat,
    messageIndex: nat,
    splitIdCounter: nat,
    channelIndex: Channels,
    sendSeq: nat,
    sendQueue: Datagram,
    packetToSend: seq<Datagram>,
    recovery: map<nat, Datagram>,
    // every packet given to addToQueue; the payload sent under each number; datagrams erased by an
    // ACK; numbers named by ACKs; everything handed to the socket
    enqueued: seq<Packet>,
    log: map<nat, seq<Packet>>,
    retired: map<nat, Datagram>,
    acked: set<nat>,
    sent: seq<Message>)

  datatype Window = Window(
    lastSeq: Last,
    windowStart: int,
    windowEnd: int,
    lastReliable: Last,
    reliableStart: int,
    reliableEnd: int,
    held: map<nat, Packet>,
    ackQueue: set<nat>,
    nackQueue: set<nat>,
    received: set<nat>,
    // numbers put into the ACK queue and into the NACK queue, in order; indexed packets routed, in
    // order; indexes dropped for lying beyond the window
    accepted: seq<nat>,
    nacked: seq<nat>,
    routed: seq<Packet>,
    overrun: set<nat>)

  datatype App = App(
    phase: Phase,
    temporal: bool,
    active: bool,
    closed: bool,
    lastUpdate: real,
    clientId: nat,
    splits: Splits,
    // callbacks made
    events: seq<Event>)

  /** What routing a packet may touch. */
  datatype Host = Host(app: App, out: Outbound)

  datatype Session = Session(config: Config, window: Window, host: Host)

  // ================ sending ================

  const EMPTY_QUEUE: Datagram := Datagram(0x84, 0, [], 0.0)

  function SendDatagram(o: Outbound, d: Datagram, now: real): Outbound {
    var stamped := d.(sendTime := now);
    o.(recovery := o.recovery[d.seqNumber := stamped],
       log := o.log[d.seqNumber := d.packets],
       sent := o.sent + [Data(stamped)])
  }

  function FlushSendQueue(o: Outbound, now: real): Outbound {
    if o.sendQueue.packets == [] then o
    else
      SendDatagram(o.(sendSeq := o.sendSeq + 1), o.sendQueue.(seqNumber := o.sendSeq, id := 0x84), now)
      .(sendQueue := EMPTY_QUEUE)
  }

  function AddToQueue(o: Outbound, p: Packet, immediate: bool, now: real): Outbound {
    var o0 := o.(enqueued := o.enqueued + [p]);
    if immediate then
      SendDatagram(o0.(sendSeq := o0.sendSeq + 1), Datagram(0x80, o0.sendSeq, [p], 0.0), now)
    else
      var o1 := if Length(o0.sendQueue) + TotalLength(p) > o0.mtu then FlushSendQueue(o0, now) else o0;
      o1.(sendQueue := o1.sendQueue.(packets := o1.sendQueue.packets + [p]))
  }

  /** Reliabilities that take a message index on sending. */
  predicate Numbered(rel: int) {
    rel == 2 || rel == 3 || rel == 4 || rel == 6 || rel == 7
  }

  function AssignIndexes(o: Outbound, p: Packet): (Outbound, Packet)
  {
    if !Numbered(p.reliability) then (o, p)
    else
      var o1 := o.(messageIndex := o.messageIndex + 1);
      var p1 := p.(messageIndex := Some(o.messageIndex));
      if p.reliability != 3 then (o1, p1)
      else
        var ch := p.orderChannel.GetOr(0);
        var slot := ch % 32;
        (o1.(channelIndex := o1.channelIndex[slot := o1.channelIndex[slot] + 1]),
         p1.(orderChannel := Some(ch), orderIndex := Some(o1.channelIndex[slot])))
  }

  function ChunkSize(mtu: nat): (c: nat)
    ensures c > 0
  {
    if mtu > 34 then mtu - 34 else 64
  }

  function ChunkCount(size: nat, chunk: nat): nat
    requires chunk > 0
  {
    (size + chunk - 1) / chunk
  }

  function Chunk(buffer: seq<byte>, chunk: nat, i: nat): seq<byte>
  {
    Sub(buffer, i * chunk, chunk)
  }

  /** `substr(from, n)` for a position inside the string. */
  function Sub(s: seq<byte>, from: nat, n: nat): seq<byte> {
    if from >= |s| then [] else if from + n >= |s| then s[from..] else s[from..from + n]
  }

  /** Part i of a split packet; `index` is the message index it takes. */
  function Part(p: Packet, sid: nat, count: nat, chunk: nat, i: nat, index: Option<nat>): Packet {
    Packet(p.reliability, true, index,
           if p.reliability == 3 then p.orderIndex else None,
           if p.reliability == 3 then p.orderChannel else None,
           Some(count), Some(sid), Some(i), Chunk(p.buffer, chunk, i), false, None)
  }

  function SendParts(o: Outbound, p: Packet, sid: nat, count: nat, chunk: nat, i: nat, now: real): Outbound
    decreases count - i
  {
    if i >= count then o
    else
      var taken := i > 0 && Numbered(p.reliability);
      var index := if i == 0 then p.messageIndex else if taken then Some(o.messageIndex) else None;
      var o1 := if taken then o.(messageIndex := o.messageIndex + 1) else o;
      SendParts(AddToQueue(o1, Part(p, sid, count, chunk, i, index), true, now), p, sid, count, chunk, i + 1, now)
  }

  function SendSplit(o: Outbound, p: Packet, now: real): Outbound {
    var chunk := ChunkSize(o.mtu);
    var sid := (o.splitIdCounter + 1) % U16;
    SendParts(o.(splitIdCounter := sid), p, sid, ChunkCount(|p.buffer|, chunk), chunk, 0, now)
  }

  function AddEncapsulated(o: Outbound, packet: Packet, immediate: bool, now: real): Outbound
  {
    var (o1, p) := AssignIndexes(o, packet);
    if TotalLength(p) + 4 > o1.mtu then SendSplit(o1, p, now) else AddToQueue(o1, p, immediate, now)
  }

  // ---------- acknowledgements and resends ----------

  function Drain(o: Outbound, limit: nat, now: real): Outbound
    decreases limit
  {
    if o.packetToSend == [] || limit == 0 then o
    else Drain(SendDatagram(o.(packetToSend := o.packetToSend[1..]), o.packetToSend[0], now), limit - 1, now)
  }

  function Reschedule(o: Outbound, k: nat): Outbound
    requires k in o.recovery
  {
    o.(sendSeq := o.sendSeq + 1,
       packetToSend := o.packetToSend + [o.recovery[k].(seqNumber := o.sendSeq)],
       recovery := o.recovery - {k})
  }

  /** The resend loop over the keys still to visit, in ascending order. */
  function Expire(o: Outbound, keys: set<nat>, now: real): Outbound
    decreases keys
  {
    if keys == {} then o
    else
      var k := MinKey(keys);
      var o1 := if k in o.recovery && o.recovery[k].sendTime < now - RESEND_DELAY then Reschedule(o, k) else o;
      Expire(o1, keys - {k}, now)
  }

  function HandleAck(o: Outbound, numbers: seq<nat>): Outbound
    decreases |numbers|
  {
    if numbers == [] then o
    else
      var k := numbers[0];
      HandleAck(o.(recovery := o.recovery - {k}, acked := o.acked + {k},
                   retired := if k in o.recovery then o.retired[k := o.recovery[k]] else o.retired),
                numbers[1..])
  }

  function ResendOne(o: Outbound, k: nat, now: real): Outbound {
    if k !in o.recovery then o
    else SendDatagram(o.(sendSeq := o.sendSeq + 1, recovery := o.recovery - {k}),
                      o.recovery[k].(seqNumber := o.sendSeq), now)
  }

  function HandleNack(o: Outbound, numbers: seq<nat>, now: real): Outbound
    decreases |numbers|
  {
    if numbers == [] then o else HandleNack(ResendOne(o, numbers[0], now), numbers[1..], now)
  }

  // ================ receiving: the two windows ================

  /** Numbers in from..to-1 that were not received: they go to the NACK queue. */
  function Missing(received: set<nat>, from: nat, to: int): seq<nat>
    decreases to - from
  {
    if from >= to then []
    else (if from in received then [] else [from]) + Missing(received, from + 1, to)
  }

  predicate Admits(w: Window, number: nat) {
    !(number < w.windowStart || number > w.windowEnd || number in w.received)
  }

  function AcceptNumber(w: Window, number: nat): Window {
    var diff := number - w.lastSeq;
    var received := w.received + {number};
    var missing := Missing(received, w.lastSeq + 1, number);
    var w1 := w.(nackQueue := (w.nackQueue - {number}) + (set i | i in missing),
                 ackQueue := w.ackQueue + {number},
                 received := received,
                 accepted := w.accepted + [number],
                 nacked := w.nacked + missing);
    if diff >= 1 then
      w1.(lastSeq := number, windowStart := w1.windowStart + diff, windowEnd := w1.windowEnd + diff)
    else w1
  }

  function Advance(w: Window, p: Packet): Window {
    w.(lastReliable := w.lastReliable + 1, reliableStart := w.reliableStart + 1, reliableEnd := w.reliableEnd + 1,
       routed := w.routed + [p])
  }

  /** A window and the packets it lets through, in the order they are routed. */
  datatype Passed = Passed(window: Window, packets: seq<Packet>)

  function DrainHeld(w: Window): Passed
    decreases w.held.Keys
  {
    if w.held == map[] then Passed(w, [])
    else
      assert w.held.Keys != {};
      var k := MinKey(w.held.Keys);
      if k - w.lastReliable != 1 then Passed(w, [])
      else
        var p := w.held[k];
        var next := DrainHeld(Advance(w.(held := w.held - {k}), p));
        next.(packets := [p] + next.packets)
  }

  function AcceptPacket(w: Window, p: Packet): Passed {
    match p.messageIndex
    case None => Passed(w, [p])
    case Some(idx) =>
      if idx < w.reliableStart || idx > w.reliableEnd then
        Passed(w.(overrun := if idx > w.reliableEnd then w.overrun + {idx} else w.overrun), [])
      else if idx - w.lastReliable == 1 then
        var next := DrainHeld(Advance(w, p));
        next.(packets := [p] + next.packets)
      else Passed(w.(held := w.held[idx := p]), [])
  }

  function AcceptPackets(w: Window, ps: seq<Packet>): Passed
    decreases |ps|
  {
    if ps == [] then Passed(w, [])
    else
      var first := AcceptPacket(w, ps[0]);
      var rest := AcceptPackets(first.window, ps[1..]);
      rest.(packets := first.packets + rest.packets)
  }

  // ================ receiving: routing ================

  /** The parts i.. joined, or None where one is missing. */
  function Join(parts: map<nat, Packet>, i: nat, count: int): Option<seq<byte>>
    decreases count - i
  {
    if i >= count then Some([])
    else if i !in parts then None
    else
      match Join(parts, i + 1, count)
      case None => None
      case Some(rest) => Some(parts[i].buffer + rest)
  }

  type Splits = map<nat, map<nat, Packet>>

  datatype Stored = Refused(splits: Splits) | Filled(splits: Splits, parts: map<nat, Packet>)

  /** `splits_[sid]` makes an entry before the limit is checked. */
  function StorePart(splits: Splits, sid: nat, index: nat, p: Packet): Stored {
    var parts := if sid in splits then splits[sid] else map[];
    var touched := splits[sid := parts];
    if parts == map[] && |touched| > MAX_SPLIT_COUNT then Refused(touched)
    else Filled(touched[sid := parts[index := p]], parts[index := p])
  }

  /** Stores a part; the second component is the reassembled packet, if the part completed one. */
  function TakePart(splits: Splits, p: Packet): (Splits, Option<Packet>) {
    if p.splitCount.None? || p.splitIndex.None? || p.splitId.None? then (splits, None)
    else
      var count, index, sid := p.splitCount.value, p.splitIndex.value, p.splitId.value;
      if count >= MAX_SPLIT_SIZE || index >= MAX_SPLIT_SIZE || index < 0 then (splits, None)
      else
        var stored := StorePart(splits, sid, index, p);
        if stored.Refused? then (stored.splits, None) else Complete(stored.splits, sid, stored.parts, count)
  }

  /** A reassembly with as many parts as the message has is erased, and joined if none is missing. */
  function Complete(splits: Splits, sid: nat, parts: map<nat, Packet>, count: int): (Splits, Option<Packet>) {
    if |parts| != count then (splits, None)
    else
      match Join(parts, 0, count)
      case None => (splits - {sid}, None)
      case Some(buffer) => (splits - {sid}, Some(BLANK.(buffer := buffer)))
  }

  function HandleSplit(a: App, p: Packet): (App, Option<Packet>) {
    var (splits, whole) := TakePart(a.splits, p);
    (a.(splits := splits), whole)
  }

  function Disconnect(a: App): App {
    if a.closed then a else a.(closed := true, events := a.events + [Closed])
  }

  function AddressBytes(e: Endpoint): seq<byte> {
    [4, 255 - e.a, 255 - e.b, 255 - e.c, 255 - e.d] + WriteShort(e.port)
  }

  function SystemAddresses(i: nat): seq<byte> {
    if i == 0 then []
    else SystemAddresses(i - 1)
         + AddressBytes(if i == 1 then Endpoint(127, 0, 0, 1, 0) else Endpoint(0, 0, 0, 0, 0))
  }

  function ServerHandshake(e: Endpoint, ping: nat): seq<byte> {
    [0x10] + AddressBytes(e) + WriteShort(0) + SystemAddresses(10) + WriteLong(ping) + WriteLong(ping + 1000)
  }

  function HandleInternal(h: Host, config: Config, payload: seq<byte>, now: real): Host
    requires payload != []
  {
    var id := payload[0];
    if h.app.phase == Connecting2 && id == 0x09 then
      if |payload| < 17 then h
      else
        var reply := BLANK.(buffer := ServerHandshake(config.endpoint, ReadLong(payload[9..17])));
        h.(out := AddToQueue(h.out, reply, true, now))
    else if h.app.phase == Connecting2 && id == 0x13 then
      h.(app := h.app.(phase := Connected, temporal := false, events := h.app.events + [Opened(h.app.clientId)]))
    else if id == 0x15 then h.(app := Disconnect(h.app))
    else if id == 0x00 then
      if |payload| < 9 then h
      else
        var reply := BLANK.(buffer := [0x03] + WriteLong(ReadLong(payload[1..9])));
        h.(out := AddToQueue(h.out, reply, false, now))
    else h
  }

  /** Routing of a packet that is not a part. */
  function RouteWhole(h: Host, config: Config, p: Packet, now: real): Host {
    if p.buffer == [] then h
    else if p.buffer[0] < 0x80 then HandleInternal(h, config, p.buffer, now)
    else if h.app.phase == Connected then h.(app := h.app.(events := h.app.events + [Delivered(p)]))
    else h
  }

  function Route(h: Host, config: Config, p: Packet, now: real): Host {
    if !p.hasSplit then RouteWhole(h, config, p, now)
    else if h.app.phase != Connected then h
    else
      var (app, whole) := HandleSplit(h.app, p);
      match whole
      case None => h.(app := app)
      case Some(c) => RouteWhole(h.(app := app), config, c, now)
  }

  function RouteAll(h: Host, config: Config, ps: seq<Packet>, now: real): Host
    decreases |ps|
  {
    if ps == [] then h else RouteAll(Route(h, config, ps[0], now), config, ps[1..], now)
  }

  lemma {:induction false} RouteAllFirst(h: Host, config: Config, p: Packet, ps: seq<Packet>, now: real)
    ensures RouteAll(h, config, [p] + ps, now) == RouteAll(Route(h, config, p, now), config, ps, now)
  {
    assert ([p] + ps)[1..] == ps;
  }

  lemma {:induction false} RouteAllAppend(h: Host, config: Config, ps: seq<Packet>, qs: seq<Packet>, now: real)
    ensures RouteAll(h, config, ps + qs, now) == RouteAll(RouteAll(h, config, ps, now), config, qs, now)
    decreases |ps|
  {
    if ps == [] {
      assert [] + qs == qs;
    } else {
      FirstOfAppend(ps, qs);
      RouteAllAppend(Route(h, config, ps[0], now), config, ps[1..], qs, now);
    }
  }

  // ================ the entry points ================

  /** A message handed to the socket outside the datagram stream. */
  function Emit(h: Host, m: Message): Host {
    h.(out := h.out.(sent := h.out.sent + [m]))
  }

  function HandleDatagram(s: Session, d: Datagram, now: real): Session {
    if !Admits(s.window, d.seqNumber) then s
    else
      var passed := AcceptPackets(AcceptNumber(s.window, d.seqNumber), d.packets);
      s.(window := passed.window, host := RouteAll(s.host, s.config, passed.packets, now))
  }

  function SendAcks(o: Outbound, acks: set<nat>, nacks: set<nat>): Outbound {
    var o1 := if acks == {} then o else o.(sent := o.sent + [Ack(acks)]);
    if nacks == {} then o1 else o1.(sent := o1.sent + [Nack(nacks)])
  }

  function ClearQueues(w: Window): Window {
    w.(ackQueue := {}, nackQueue := {})
  }

  function FlushAcks(s: Session): Session {
    s.(window := ClearQueues(s.window),
       host := s.host.(out := SendAcks(s.host.out, s.window.ackQueue, s.window.nackQueue)))
  }

  function Prune(w: Window): Window {
    w.(received := set k | k in w.received && k >= w.windowStart)
  }

  /** Drain, reschedule what has gone unacknowledged, drain again. */
  function Resend(o: Outbound, now: real): Outbound {
    var o1 := Drain(o, DRAIN_LIMIT, now);
    Drain(Expire(o1, o1.recovery.Keys, now), DRAIN_LIMIT, now)
  }

  predicate TimedOut(a: App, now: real) {
    !a.active && a.lastUpdate > 0.0 && a.lastUpdate + TIMEOUT < now
  }

  function UpdateOut(o: Outbound, w: Window, now: real): Outbound {
    FlushSendQueue(Resend(SendAcks(o, w.ackQueue, w.nackQueue), now), now)
  }

  function UpdateWin(w: Window, a: App, now: real): Window {
    if TimedOut(a, now) then w else Prune(ClearQueues(w))
  }

  function UpdateHost(h: Host, w: Window, now: real): Host {
    if TimedOut(h.app, now) then h.(app := Disconnect(h.app))
    else Host(h.app.(active := false), UpdateOut(h.out, w, now))
  }

  function Update(s: Session, now: real): Session {
    s.(window := UpdateWin(s.window, s.host.app, now), host := UpdateHost(s.host, s.window, now))
  }

  // ---------- offline handshake ----------

  const MAGIC: seq<byte> := [0x00, 0xff, 0xff, 0x00, 0xfe, 0xfe, 0xfe, 0xfe,
                             0xfd, 0xfd, 0xfd, 0xfd, 0x12, 0x34, 0x56, 0x78]

  function OpenReply1(serverId: nat, mtu: nat): seq<byte> {
    [0x06] + MAGIC + WriteLong(serverId) + [0] + WriteShort(mtu)
  }

  function OpenReply2(config: Config, mtu: nat): seq<byte> {
    [0x08] + MAGIC + WriteLong(config.serverId) + AddressBytes(config.endpoint) + WriteShort(mtu) + [0]
  }

  /** The offered packet size: the absolute value of a 16-bit unsigned field, at most 1464. */
  function OfferedMtu(field: nat): nat {
    if field <= 1464 then field else 1464
  }

  function HandleOffline(h: Host, config: Config, buffer: seq<byte>): Host
    requires buffer != []
  {
    var id := buffer[0];
    if id == 0x05 then
      if |buffer| < 18 || buffer[1..17] != MAGIC then h
      else
        var mtu := |buffer| % U16;
        Emit(h.(app := h.app.(phase := Connecting1), out := h.out.(mtu := mtu)), Reply(OpenReply1(config.serverId, mtu)))
    else if h.app.phase == Connecting1 && id == 0x07 then
      if |buffer| < 34 || buffer[1..17] != MAGIC || buffer[17] != 4 then h
      else
        var mtu := OfferedMtu(ReadShort(buffer[24..26]));
        Emit(h.(app := h.app.(phase := Connecting2, clientId := ReadLong(buffer[26..34])),
                out := h.out.(mtu := mtu)),
             Reply(OpenReply2(config, mtu)))
    else h
  }

  predicate Online(phase: Phase) { phase == Connecting2 || phase == Connected }

  function HandleRaw(s: Session, buffer: seq<byte>, now: real): Session {
    if buffer == [] then s
    else
      var id := buffer[0];
      var h := s.host.(app := s.host.app.(active := true, lastUpdate := now));
      var s1 := s.(host := h);
      if Online(h.app.phase) then
        if 0x80 <= id <= 0x8f then
          match DecodeDatagram(buffer)
          case None => s1
          case Some(d) => HandleDatagram(s1, d, now)
        else if id == ID_ACK then
          match DecodeAck(buffer)
          case None => s1
          case Some(ns) => s1.(host := h.(out := HandleAck(h.out, ns)))
        else if id == ID_NACK then
          match DecodeAck(buffer)
          case None => s1
          case Some(ns) => s1.(host := h.(out := HandleNack(h.out, ns, now)))
        else if h.app.phase == Connecting2 && id == 0x07 then
          s1.(host := Emit(h, Reply(OpenReply2(s.config, h.out.mtu))))
        else s1
      else if 0x00 < id < 0x80 then s1.(host := HandleOffline(h, s.config, buffer))
      else s1
  }

  // ---------- a new session ----------

  function FreshOutbound(mtu: nat): Outbound {
    Outbound(mtu, 0, 0, seq(32, _ => 0), 0, EMPTY_QUEUE, [], map[], [], map[], map[], {}, [])
  }

  const FRESH_WINDOW: Window :=
    Window(-1, -1, WINDOW_SIZE, -1, 0, WINDOW_SIZE, map[], {}, {}, {}, [], [], [], {})

  function FreshApp(phase: Phase): App {
    App(phase, true, false, false, 0.0, 0, map[], [])
  }

  function FreshSession(config: Config): Session {
    Session(config, FRESH_WINDOW, Host(FreshApp(Unconnected), FreshOutbound(548)))
  }
}
