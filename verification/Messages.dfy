/** Splitting and reassembly undo each other over the link: what a receiver hands to its host is a
    prefix of the messages the sender's host offered after the connection packet, and all of them once
    nothing is lost. */
module Messages {
  import opened Collections
  import opened Binary
  import opened Packets
  import opened SessionModel
  import opened Moves
  import opened Runs
  import opened Sender
  import opened Windows
  import opened Numbering
  import opened Link

  /** The messages handed to on_encap_. */
  function Deliveries(events: seq<Event>): seq<seq<byte>> {
    if events == [] then []
    else
      var last := events[|events| - 1];
      Deliveries(events[..|events| - 1]) + (if last.Delivered? then [last.packet.buffer] else [])
  }

  lemma {:induction false} DeliveriesSnoc(events: seq<Event>, e: Event)
    ensures Deliveries(events + [e]) == Deliveries(events) + (if e.Delivered? then [e.packet.buffer] else [])
  {
    assert (events + [e])[..|events|] == events;
  }

  // ---------- the part of the receiver that matters ----------

  /** Whether the connection is open, the reassemblies under way and the messages delivered so far. */
  datatype View = View(open: bool, splits: Splits, delivered: seq<seq<byte>>)

  /** A session that is not connected yet. */
  const NOTHING: View := View(false, map[], [])

  function ViewOf(a: App): View { View(a.phase == Connected, a.splits, Deliveries(a.events)) }

  /** Identifiers from 0x80 on go to the host. */
  predicate ForHost(buffer: seq<byte>) { buffer != [] && buffer[0] >= 0x80 }

  /** The packet that makes a session connected. */
  predicate Opening(buffer: seq<byte>) { buffer != [] && buffer[0] == 0x13 }

  function Hear(v: View, buffer: seq<byte>): View {
    if v.open && ForHost(buffer) then v.(delivered := v.delivered + [buffer])
    else if Opening(buffer) then v.(open := true)
    else v
  }

  function See(v: View, p: Packet): View {
    if !p.hasSplit then Hear(v, p.buffer)
    else if !v.open then v
    else
      var (splits, whole) := TakePart(v.splits, p);
      if whole.None? then v.(splits := splits) else Hear(v.(splits := splits), whole.value.buffer)
  }

  function SeeAll(v: View, ps: seq<Packet>): View
    decreases |ps|
  {
    if ps == [] then v else SeeAll(See(v, ps[0]), ps[1..])
  }

  lemma {:induction false} SeeAppend(v: View, ps: seq<Packet>, qs: seq<Packet>)
    ensures SeeAll(v, ps + qs) == SeeAll(SeeAll(v, ps), qs)
    decreases |ps|
  {
    if ps == [] {
      assert [] + qs == qs;
    } else {
      FirstOfAppend(ps, qs);
      SeeAppend(See(v, ps[0]), ps[1..], qs);
    }
  }

  lemma {:induction false} SeeOnlyAdds(v: View, ps: seq<Packet>)
    ensures v.delivered <= SeeAll(v, ps).delivered
    decreases |ps|
  {
    if ps != [] { SeeOnlyAdds(See(v, ps[0]), ps[1..]); }
  }

  // ---------- the receiver's routing acts on the view alone ----------

  lemma InternalView(h: Host, config: Config, payload: seq<byte>, now: real)
    requires payload != [] && payload[0] < 0x80 && Online(h.app.phase)
    ensures var a := HandleInternal(h, config, payload, now).app;
            Online(a.phase) && ViewOf(a) == Hear(ViewOf(h.app), payload)
  {
    DeliveriesSnoc(h.app.events, Closed);
    DeliveriesSnoc(h.app.events, Opened(h.app.clientId));
    var heard := Deliveries(h.app.events);
    assert heard + [] == heard;
  }

  lemma RouteWholeView(h: Host, config: Config, p: Packet, now: real)
    requires Online(h.app.phase)
    ensures var a := RouteWhole(h, config, p, now).app; Online(a.phase) && ViewOf(a) == Hear(ViewOf(h.app), p.buffer)
  {
    if p.buffer != [] && p.buffer[0] < 0x80 {
      InternalView(h, config, p.buffer, now);
    } else {
      DeliveriesSnoc(h.app.events, Delivered(p));
    }
  }

  lemma RouteView(h: Host, config: Config, p: Packet, now: real)
    requires Online(h.app.phase)
    ensures var a := Route(h, config, p, now).app; Online(a.phase) && ViewOf(a) == See(ViewOf(h.app), p)
  {
    if !p.hasSplit {
      RouteWholeView(h, config, p, now);
    } else if h.app.phase == Connected {
      var (app, whole) := HandleSplit(h.app, p);
      if whole.Some? { RouteWholeView(h.(app := app), config, whole.value, now); }
    }
  }

  /** A packet that changes nothing the host can see. */
  predicate Silent(p: Packet) { !p.hasSplit && !ForHost(p.buffer) && !Opening(p.buffer) }

  lemma {:induction false} RouteAllView(h: Host, config: Config, ps: seq<Packet>, now: real)
    requires Online(h.app.phase)
    requires forall p | p in ps && p.messageIndex.None? :: Silent(p)
    ensures var a := RouteAll(h, config, ps, now).app;
            Online(a.phase) && ViewOf(a) == SeeAll(ViewOf(h.app), OnlyIndexed(ps))
    decreases |ps|
  {
    if ps != [] {
      var p := ps[0];
      assert p in ps;
      RouteView(h, config, p, now);
      RouteAllView(Route(h, config, p, now), config, ps[1..], now);
      assert ([p] + OnlyIndexed(ps[1..]))[1..] == OnlyIndexed(ps[1..]);
    }
  }

  // ---------- splitting and joining ----------

  function Tail(b: seq<byte>, from: nat): seq<byte> { if from >= |b| then [] else b[from..] }

  lemma ChunkThenTail(b: seq<byte>, chunk: nat, i: nat)
    ensures Tail(b, i * chunk) == Chunk(b, chunk, i) + Tail(b, (i + 1) * chunk)
  {
    var from := i * chunk;
    assert (i + 1) * chunk == from + chunk;
  }

  lemma {:induction false} JoinChunks(parts: map<nat, Packet>, b: seq<byte>, chunk: nat, i: nat, count: nat)
    requires i <= count && count * chunk >= |b|
    requires forall j: nat | j < count :: j in parts && parts[j].buffer == Chunk(b, chunk, j)
    ensures Join(parts, i, count) == Some(Tail(b, i * chunk))
    decreases count - i
  {
    if i < count {
      JoinChunks(parts, b, chunk, i + 1, count);
      ChunkThenTail(b, chunk, i);
    }
  }

  predicate IsPart(q: Packet, count: nat, sid: nat, j: nat) {
    q.hasSplit && q.splitCount == Some(count) && q.splitIndex == Some(j) && q.splitId == Some(sid)
  }

  /** The parts of one message as they arrive. */
  ghost predicate PartsOf(ps: seq<Packet>, sid: nat) {
    forall j | 0 <= j < |ps| :: IsPart(ps[j], |ps|, sid, j)
  }

  function FirstParts(ps: seq<Packet>, j: nat): map<nat, Packet>
    requires j <= |ps|
  {
    map i: nat | i < j :: ps[i]
  }

  lemma {:induction false} FirstPartsSize(ps: seq<Packet>, j: nat)
    requires j <= |ps|
    ensures |FirstParts(ps, j)| == j
  {
    if j > 0 {
      FirstPartsSize(ps, j - 1);
      assert FirstParts(ps, j) == FirstParts(ps, j - 1)[j - 1 := ps[j - 1]];
    }
  }

  function Waiting(ps: seq<Packet>, sid: nat, j: nat): Splits
    requires j <= |ps|
  {
    if j == 0 then map[] else map[sid := FirstParts(ps, j)]
  }

  lemma StoreNext(ps: seq<Packet>, sid: nat, j: nat)
    requires j < |ps|
    ensures StorePart(Waiting(ps, sid, j), sid, j, ps[j]) == Filled(Waiting(ps, sid, j + 1), FirstParts(ps, j + 1))
  {
    var parts := FirstParts(ps, j);
    assert parts[j := ps[j]] == FirstParts(ps, j + 1);
    assert Waiting(ps, sid, j)[sid := parts] == map[sid := parts];
    assert map[sid := parts][sid := FirstParts(ps, j + 1)] == map[sid := FirstParts(ps, j + 1)];
  }

  lemma PartTaken(splits: Splits, p: Packet, count: nat, sid: nat, j: nat)
    requires IsPart(p, count, sid, j) && j < count < MAX_SPLIT_SIZE
    ensures var stored := StorePart(splits, sid, j, p);
            stored.Filled? ==> TakePart(splits, p) == Complete(stored.splits, sid, stored.parts, count)
  {
  }

  lemma {:induction false} TakeNext(ps: seq<Packet>, sid: nat, b: seq<byte>, j: nat)
    requires j < |ps| < MAX_SPLIT_SIZE && IsPart(ps[j], |ps|, sid, j)
    requires Join(FirstParts(ps, |ps|), 0, |ps|) == Some(b)
    ensures TakePart(Waiting(ps, sid, j), ps[j]) ==
              if j + 1 < |ps| then (Waiting(ps, sid, j + 1), None) else (map[], Some(BLANK.(buffer := b)))
  {
    StoreNext(ps, sid, j);
    FirstPartsSize(ps, j + 1);
    PartTaken(Waiting(ps, sid, j), ps[j], |ps|, sid, j);
    assert Waiting(ps, sid, j + 1) - {sid} == map[];
  }

  lemma {:induction false} SeeNext(ps: seq<Packet>, sid: nat, b: seq<byte>, j: nat, heard: seq<seq<byte>>)
    requires j < |ps| < MAX_SPLIT_SIZE && IsPart(ps[j], |ps|, sid, j)
    requires Join(FirstParts(ps, |ps|), 0, |ps|) == Some(b)
    ensures var next := See(View(true, Waiting(ps, sid, j), heard), ps[j]);
            next == if j + 1 < |ps| then View(true, Waiting(ps, sid, j + 1), heard) else Hear(View(true, map[], heard), b)
  {
    TakeNext(ps, sid, b, j);
  }

  lemma {:induction false} SeeStep(v: View, ps: seq<Packet>, j: nat)
    requires j < |ps|
    ensures SeeAll(v, ps[j..]) == SeeAll(See(v, ps[j]), ps[j + 1..])
  {
    assert ps[j..][1..] == ps[j + 1..];
  }

  lemma {:induction false} SeeRest(v: View, next: View, ps: seq<Packet>, j: nat)
    requires j < |ps| && See(v, ps[j]) == next
    ensures SeeAll(v, ps[j..]) == if j + 1 < |ps| then SeeAll(next, ps[j + 1..]) else next
  {
    SeeStep(v, ps, j);
    if j + 1 == |ps| { assert ps[j + 1..] == []; }
  }

  lemma {:induction false} SeePart(ps: seq<Packet>, sid: nat, b: seq<byte>, j: nat, heard: seq<seq<byte>>)
    requires j < |ps| < MAX_SPLIT_SIZE && IsPart(ps[j], |ps|, sid, j)
    requires Join(FirstParts(ps, |ps|), 0, |ps|) == Some(b)
    ensures SeeAll(View(true, Waiting(ps, sid, j), heard), ps[j..]) ==
              if j + 1 < |ps| then SeeAll(View(true, Waiting(ps, sid, j + 1), heard), ps[j + 1..])
              else Hear(View(true, map[], heard), b)
  {
    SeeNext(ps, sid, b, j, heard);
    SeeRest(View(true, Waiting(ps, sid, j), heard),
            if j + 1 < |ps| then View(true, Waiting(ps, sid, j + 1), heard) else Hear(View(true, map[], heard), b), ps, j);
  }

  lemma {:induction false} SeeParts(ps: seq<Packet>, sid: nat, b: seq<byte>, j: nat, heard: seq<seq<byte>>)
    requires PartsOf(ps, sid) && j < |ps| < MAX_SPLIT_SIZE
    requires Join(FirstParts(ps, |ps|), 0, |ps|) == Some(b)
    ensures SeeAll(View(true, Waiting(ps, sid, j), heard), ps[j..]) == Hear(View(true, map[], heard), b)
    decreases |ps| - j
  {
    SeePart(ps, sid, b, j, heard);
    if j + 1 < |ps| { SeeParts(ps, sid, b, j + 1, heard); }
  }

  /** A receiver ignores the parts of a message of 128 parts or more, and every part before it is
      connected. */
  lemma {:induction false} SeeTooMany(v: View, ps: seq<Packet>)
    requires forall p | p in ps :: p.hasSplit && (v.open ==> p.splitCount.Some? && p.splitCount.value >= MAX_SPLIT_SIZE)
    ensures SeeAll(v, ps) == v
    decreases |ps|
  {
    if ps != [] {
      assert ps[0] in ps;
      SeeTooMany(v, ps[1..]);
    }
  }

  /** A message the host offers: reliable, not already a part, below 2 GiB. */
  predicate Offered(p: Packet) {
    Numbered(p.reliability) && !p.hasSplit && p.buffer != [] && |p.buffer| < 0x8000_0000
  }

  /** Whether an offer goes out in one packet. */
  predicate Fits(o: Outbound, p: Packet) { TotalLength(AssignIndexes(o, p).1) + 4 <= o.mtu }

  /** What the receiving host is given for an offer once the connection is open: the message, unless
      its first byte is reserved for the session or it takes 128 parts or more. */
  function Heard(o: Outbound, p: Packet): seq<seq<byte>> {
    if ForHost(p.buffer) && |Produced(o, p)| < 128 then [p.buffer] else []
  }

  /** An offer that opens the connection: parts are not looked at before it is open. */
  predicate Opens(o: Outbound, p: Packet) { Opening(p.buffer) && Fits(o, p) }

  /** The view of a peer that has seen all of it, one offer further. */
  function Told(v: View, o: Outbound, p: Packet): View {
    View(v.open || Opens(o, p), v.splits, v.delivered + (if v.open then Heard(o, p) else []))
  }

  lemma ManyChunks(size: nat, chunk: nat)
    requires chunk > 0
    ensures ChunkCount(size, chunk) * chunk >= size
    ensures ChunkCount(size, chunk) <= size
  {
    var n := size + chunk - 1;
    assert n / chunk * chunk == n - n % chunk;
    if ChunkCount(size, chunk) > size {
      Times(size + 1, ChunkCount(size, chunk), chunk);
      Times(1, chunk, size);
    }
  }

  lemma PartReceived(p: Packet, sid: nat, count: nat, chunk: nat, j: nat, index: Option<nat>)
    requires j < count < 0x8000_0000 && sid < U16
    requires Wire(Part(p, sid, count, chunk, j, index))
    ensures var q := AsReceived(Part(p, sid, count, chunk, j, index));
            IsPart(q, count, sid, j) && q.buffer == Chunk(p.buffer, chunk, j)
  {
    var part := Part(p, sid, count, chunk, j, index);
    ReadWhole(part);
    SplitRead(part, count, sid, j);
  }

  /** The fields of a part are read as they were written. */
  lemma SplitRead(part: Packet, count: nat, sid: nat, j: nat)
    requires IsPart(part, count, sid, j) && j < 0x8000_0000 && count < 0x8000_0000 && sid < U16
    ensures IsPart(AsReceived(part), count, sid, j)
  {
  }

  lemma {:induction false} PartsSeen(p: Packet, sid: nat, chunk: nat, v: View)
    requires p.buffer != [] && chunk > 0 && |p.buffer| < 0x8000_0000 && sid < U16 && v.splits == map[]
    requires forall q | q in PartList(p, sid, ChunkCount(|p.buffer|, chunk), chunk) :: Wire(q)
    ensures var count := ChunkCount(|p.buffer|, chunk);
            SeeAll(v, AllAsReceived(PartList(p, sid, count, chunk)))
            == if v.open && count < MAX_SPLIT_SIZE then Hear(v, p.buffer) else v
  {
    var count := ChunkCount(|p.buffer|, chunk);
    var ps := PartList(p, sid, count, chunk);
    var qs := AllAsReceived(ps);
    ManyChunks(|p.buffer|, chunk);
    CountAtLeastOne(|p.buffer|, chunk);
    forall j | 0 <= j < count
      ensures IsPart(qs[j], count, sid, j) && qs[j].buffer == Chunk(p.buffer, chunk, j)
    {
      assert ps[j] in ps;
      PartReceived(p, sid, count, chunk, j, PartIndex(p, j));
    }
    if v.open && count < MAX_SPLIT_SIZE {
      JoinChunks(FirstParts(qs, count), p.buffer, chunk, 0, count);
      assert Tail(p.buffer, 0) == p.buffer;
      SeeParts(qs, sid, p.buffer, 0, v.delivered);
      assert qs[0..] == qs;
    } else {
      SeeTooMany(v, qs);
    }
  }

  lemma {:induction false} WholeSeen(p: Packet, v: View)
    requires Wire(p) && !p.hasSplit
    ensures SeeAll(v, AllAsReceived([p])) == Hear(v, p.buffer)
  {
    ReadWhole(p);
    assert AllAsReceived([p])[1..] == [];
  }

  /** An offer is produced either whole or as the parts of it. */
  lemma {:induction false} ProducedForms(o: Outbound, packet: Packet) returns (p: Packet, sid: nat, chunk: nat)
    requires packet.buffer != [] && !packet.hasSplit
    ensures p.buffer == packet.buffer && !p.hasSplit && sid < U16 && chunk > 0
    ensures Produced(o, packet) == if Fits(o, packet) then [p] else PartList(p, sid, ChunkCount(|p.buffer|, chunk), chunk)
  {
    var (o1, q) := AssignIndexes(o, packet);
    p, sid, chunk := q, (o1.splitIdCounter + 1) % U16, ChunkSize(o1.mtu);
  }

  /** What one offer adds to the receiver's view when it starts between messages. */
  lemma {:induction false} OfferSeen(o: Outbound, packet: Packet, v: View)
    requires Offered(packet) && packet.reliability < 8 && o.mtu <= 8191 && v.splits == map[]
    ensures SeeAll(v, AllAsReceived(Produced(o, packet))) == Told(v, o, packet)
  {
    var p, sid, chunk := ProducedForms(o, packet);
    ProducedWire(o, packet);
    assert v.delivered + [] == v.delivered;
    var ps := Produced(o, packet);
    if Fits(o, packet) {
      assert p in ps;
      WholeSeen(p, v);
    } else {
      PartsSeen(p, sid, chunk, v);
    }
  }

  // ---------- both ends of a run ----------

  /** The sender: the view of its whole stream is exactly what was told, between messages. */
  ghost predicate Speaks(o: Outbound, told: View) {
    && told.splits == map[]
    && SeeAll(NOTHING, Expected(o)) == told
    && forall p | p in o.enqueued :: Numbered(p.reliability) || Answer(p)
  }

  /** The receiver: its view is that of what it routed. */
  ghost predicate Listens(s: Session) {
    ViewOf(s.host.app) == SeeAll(NOTHING, s.window.routed)
  }

  lemma {:induction false} StreamSeen(a: seq<Packet>, ps: seq<Packet>)
    requires Stream(ps) == ps
    ensures SeeAll(NOTHING, AllAsReceived(Stream(a + ps))) ==
              SeeAll(SeeAll(NOTHING, AllAsReceived(Stream(a))), AllAsReceived(ps))
  {
    StreamAppend(a, ps);
    AllAsReceivedAppend(Stream(a), ps);
    SeeAppend(NOTHING, AllAsReceived(Stream(a)), AllAsReceived(ps));
  }

  lemma SpeaksMore(o: Outbound, packet: Packet, immediate: bool, now: real, told: View)
    requires Speaks(o, told) && Offered(packet) && packet.reliability < 8 && o.mtu <= 8191
    ensures Speaks(AddEncapsulated(o, packet, immediate, now), Told(told, o, packet))
  {
    var ps := Produced(o, packet);
    OfferEnqueues(o, packet, immediate, now);
    ProducedShape(o, packet);
    StreamAllOrNone(ps, packet.reliability);
    OfferSeen(o, packet, told);
    StreamSeen(o.enqueued, ps);
  }

  lemma {:induction false} SpeaksSame(o: Outbound, ms: seq<Move>, told: View)
    requires Speaks(o, told) && forall m | m in ms :: Reaction(m)
    ensures Speaks(ApplyAll(o, ms), told)
  {
    ReactionsKeepStream(o, ms);
  }

  lemma AnswersAreSilent(ps: seq<Packet>)
    requires forall p | p in ps :: Wire(p) && (Numbered(p.reliability) || Answer(p))
    ensures forall q | q in AllAsReceived(ps) && q.messageIndex.None? :: Silent(q)
  {
    forall q | q in AllAsReceived(ps) && q.messageIndex.None? ensures Silent(q) {
      var j :| 0 <= j < |ps| && AllAsReceived(ps)[j] == q;
      assert ps[j] in ps;
      ReadWhole(ps[j]);
    }
  }

  lemma LoggedSpoken(o: Outbound, told: View, k: nat)
    requires Balanced(o) && Speaks(o, told) && k in o.log
    requires forall p | p in o.enqueued :: Wire(p)
    ensures forall p | p in o.log[k] :: Wire(p) && (Numbered(p.reliability) || Answer(p))
  {
  }

  /** What a datagram lets through acts on the view as its indexed packets do. */
  lemma PassedSeen(o: Outbound, told: View, w: Window, k: nat)
    requires Lane(o, w) && Triads(o) && Speaks(o, told) && k in o.log && Admits(w, k)
    ensures var passed := AcceptPackets(AcceptNumber(w, k), AllAsReceived(o.log[k]));
            && passed.window.routed == w.routed + OnlyIndexed(passed.packets)
            && forall p | p in passed.packets && p.messageIndex.None? :: Silent(p)
  {
    var ps := AllAsReceived(o.log[k]);
    PayloadFromStream(o, k);
    LoggedSpoken(o, told, k);
    AnswersAreSilent(o.log[k]);
    AcceptNumberFollows(w, k, Expected(o));
    AcceptPacketsFollow(AcceptNumber(w, k), ps, Expected(o));
    PassedSilent(AcceptNumber(w, k), ps);
  }

  lemma ListensToDatagram(s: Session, o: Outbound, told: View, d: Datagram, now: real)
    requires Listens(s) && Online(s.host.app.phase) && Lane(o, s.window) && Triads(o) && Speaks(o, told)
    requires d.seqNumber in o.log && d.packets == AllAsReceived(o.log[d.seqNumber])
    ensures Listens(HandleDatagram(s, d, now))
  {
    if Admits(s.window, d.seqNumber) {
      PassedSeen(o, told, s.window, d.seqNumber);
      var passed := AcceptPackets(AcceptNumber(s.window, d.seqNumber), d.packets);
      RouteAllView(s.host, s.config, passed.packets, now);
      SeeAppend(NOTHING, s.window.routed, OnlyIndexed(passed.packets));
    }
  }

  lemma {:induction false} DrainIndexed(w: Window)
    requires Releasing(w)
    ensures forall p | p in DrainHeld(w).packets :: p.messageIndex.Some?
    decreases w.held.Keys
  {
    if w.held != map[] {
      assert w.held.Keys != {};
      var k := MinKey(w.held.Keys);
      if k - w.lastReliable == 1 { DrainIndexed(Advance(w.(held := w.held - {k}), w.held[k])); }
    }
  }

  /** Packets without an index pass as they came. */
  lemma {:induction false} PassedSilent(w: Window, ps: seq<Packet>)
    requires ReliableWindow(w)
    requires forall p | p in ps && p.messageIndex.None? :: Silent(p)
    ensures forall p | p in AcceptPackets(w, ps).packets && p.messageIndex.None? :: Silent(p)
    decreases |ps|
  {
    if ps != [] {
      var p := ps[0];
      assert p in ps;
      if p.messageIndex.Some? && p.messageIndex.value == w.reliableStart { DrainIndexed(Advance(w, p)); }
      AcceptPacketKeeps(w, p);
      PassedSilent(AcceptPacket(w, p).window, ps[1..]);
    }
  }

  /** Datagrams reach a session past the offline handshake. */
  predicate Heeds(s: Session, raw: seq<byte>) {
    Online(s.host.app.phase) && raw != [] && 0x80 <= raw[0] <= 0x8f && DecodeDatagram(raw).Some?
  }

  /** A datagram reaches the windows; everything else leaves them and the view alone. */
  lemma RawView(s: Session, raw: seq<byte>, now: real)
    requires Listens(s)
    ensures var t := HandleRaw(s, raw, now);
            if Heeds(s, raw) then
              t == HandleDatagram(s.(host := s.host.(app := s.host.app.(active := true, lastUpdate := now))),
                                  DecodeDatagram(raw).value, now)
            else Listens(t)
  {
  }

  lemma LocalListens(s: Session, i: Input)
    requires Listens(s) && Permitted(s, i)
    ensures Listens(Step(s, i))
  {
    DisconnectView(s.host.app);
    if i.Arrive? { RawView(s, i.raw, i.now); }
  }

  lemma DisconnectView(a: App)
    ensures ViewOf(Disconnect(a)) == ViewOf(a)
  {
    DeliveriesSnoc(a.events, Closed);
    var heard := Deliveries(a.events);
    assert heard + [] == heard;
  }

  lemma DeliveryListens(s: Session, o: Outbound, told: View, m: Message, now: real)
    requires Listens(s) && Lane(o, s.window) && Triads(o) && Speaks(o, told)
    requires m in o.sent && (m.Reply? ==> Greeting(m))
    ensures Listens(HandleRaw(s, Bytes(m), now))
  {
    RawView(s, Bytes(m), now);
    if m.Data? && Heeds(s, Bytes(m)) {
      assert Logged(o.log, m.datagram);
      DatagramRead(o, m.datagram);
      var s1 := s.(host := s.host.(app := s.host.app.(active := true, lastUpdate := now)));
      ListensToDatagram(s1, o, told, DecodeDatagram(Bytes(m)).value, now);
    }
  }

  // ---------- whole runs ----------

  predicate Offers(a: Action, from: Side) { a.Local? && a.side == from && a.input.Offer? }

  predicate OffersMessages(a: Action, from: Side) { Offers(a, from) ==> Offered(a.input.packet) }

  /** The messages the sender's host offers over a run after the packet that opens the connection, as
      far as they are meant for the peer's host. */
  function Said(p: Pair, actions: seq<Action>, from: Side, open: bool): seq<seq<byte>>
    decreases |actions|
  {
    if actions == [] then []
    else
      var a, o := actions[0], p.At(from).host.out;
      var opens := Offers(a, from) && Opens(o, a.input.packet);
      (if open && Offers(a, from) then Heard(o, a.input.packet) else [])
      + Said(Act(p, a), actions[1..], from, open || opens)
  }

  function ToldIn(p: Pair, a: Action, from: Side, told: View): View {
    if Offers(a, from) then Told(told, p.At(from).host.out, a.input.packet) else told
  }

  function ToldAll(p: Pair, actions: seq<Action>, from: Side, told: View): View
    decreases |actions|
  {
    if actions == [] then told else ToldAll(Act(p, actions[0]), actions[1..], from, ToldIn(p, actions[0], from, told))
  }

  lemma {:induction false} ToldIsSaid(p: Pair, actions: seq<Action>, from: Side, told: View)
    ensures ToldAll(p, actions, from, told).delivered == told.delivered + Said(p, actions, from, told.open)
    decreases |actions|
  {
    if actions == [] {
      assert told.delivered + [] == told.delivered;
    } else {
      var a, o := actions[0], p.At(from).host.out;
      var next := ToldIn(p, a, from, told);
      var now := if told.open && Offers(a, from) then Heard(o, a.input.packet) else [];
      assert told.delivered + [] == told.delivered;
      assert next.delivered == told.delivered + now;
      ToldIsSaid(Act(p, a), actions[1..], from, next);
      Append(told.delivered, now, Said(Act(p, a), actions[1..], from, next.open));
    }
  }

  ghost predicate Conversing(p: Pair, from: Side, told: View) {
    Speaks(p.At(from).host.out, told) && Listens(p.At(Other(from)))
  }

  lemma SenderStep(s: Session, i: Input, told: View)
    requires Speaks(s.host.out, told)
    requires i.Offer? ==> Permitted(s, i) && Offered(i.packet)
    ensures Speaks(Step(s, i).host.out, if i.Offer? then Told(told, s.host.out, i.packet) else told)
  {
    if i.Offer? {
      SpeaksMore(s.host.out, i.packet, i.immediate, i.now, told);
    } else {
      var ms := StepMoves(s, i);
      SpeaksSame(s.host.out, ms, told);
    }
  }

  lemma LocalConverses(p: Pair, side: Side, i: Input, from: Side, told: View)
    requires Conversing(p, from, told) && Permitted(p.At(side), i)
    requires side == from && i.Offer? ==> Offered(i.packet)
    ensures Conversing(p.Put(side, Step(p.At(side), i)), from, ToldIn(p, Local(side, i), from, told))
  {
    if side == from { SenderStep(p.At(side), i, told); } else { LocalListens(p.At(side), i); }
  }

  lemma DeliveryConverses(p: Pair, to: Side, m: Message, now: real, from: Side, told: View)
    requires Conversing(p, from, told) && PairLinked(p)
    requires Triads(p.left.host.out) && Triads(p.right.host.out)
    requires m in p.At(Other(to)).host.out.sent
    ensures Conversing(p.Put(to, HandleRaw(p.At(to), Bytes(m), now)), from, told)
  {
    var s := p.At(to);
    if to == from {
      SenderStep(s, Arrive(Bytes(m), now), told);
    } else {
      assert m.Reply? ==> Greeting(m);
      DeliveryListens(s, p.At(from).host.out, told, m, now);
    }
  }

  lemma ActConverses(p: Pair, a: Action, from: Side, told: View)
    requires Conversing(p, from, told) && PairLinked(p)
    requires Triads(p.left.host.out) && Triads(p.right.host.out)
    requires a.Local? ==> Permitted(p.At(a.side), a.input)
    requires OffersMessages(a, from)
    ensures Conversing(Act(p, a), from, ToldIn(p, a, from, told))
  {
    match a
    case Local(side, i) => LocalConverses(p, side, i, from, told);
    case Deliver(to, k, now) =>
      var wire := p.At(Other(to)).host.out.sent;
      if k < |wire| { DeliveryConverses(p, to, wire[k], now, from, told); }
  }

  lemma {:induction false} StepConverses(p: Pair, actions: seq<Action>, from: Side, told: View)
    requires actions != [] && Conversing(p, from, told) && PairLinked(p) && Allowed(p, actions)
    requires OffersMessages(actions[0], from)
    ensures var next := Act(p, actions[0]);
            Conversing(next, from, ToldIn(p, actions[0], from, told)) && PairLinked(next) && Allowed(next, actions[1..])
  {
    ActConverses(p, actions[0], from, told);
    ActKeeps(p, actions[0]);
  }

  lemma {:induction false} ActAllConverses(p: Pair, actions: seq<Action>, from: Side, told: View)
    requires Conversing(p, from, told) && PairLinked(p) && Allowed(p, actions)
    requires forall a | a in actions :: OffersMessages(a, from)
    ensures Conversing(ActAll(p, actions), from, ToldAll(p, actions, from, told))
    decreases |actions|
  {
    if actions != [] {
      var rest := actions[1..];
      assert actions[0] in actions;
      StepConverses(p, actions, from, told);
      assert forall a | a in rest :: a in actions;
      ActAllConverses(Act(p, actions[0]), rest, from, ToldIn(p, actions[0], from, told));
    }
  }

  lemma HeardSoFar(o: Outbound, s: Session, told: View)
    requires Speaks(o, told) && Listens(s) && Lane(o, s.window)
    ensures var heard := Deliveries(s.host.app.events);
            && heard <= told.delivered
            && (AtRest(o) && (forall i | i in s.window.overrun :: i <= s.window.lastReliable) ==> heard == told.delivered)
  {
    var n := |s.window.routed|;
    assert Expected(o) == Expected(o)[..n] + Expected(o)[n..];
    SeeAppend(NOTHING, Expected(o)[..n], Expected(o)[n..]);
    SeeOnlyAdds(SeeAll(NOTHING, s.window.routed), Expected(o)[n..]);
    if AtRest(o) { LaneAtRest(o, s.window); }
  }

  lemma StartConverses(p: Pair, from: Side)
    requires Start(p) && ViewOf(p.At(Other(from)).host.app) == NOTHING
    ensures Conversing(p, from, NOTHING)
  {
  }

  lemma {:induction false} ReachedConversing(p: Pair, actions: seq<Action>, from: Side) returns (told: View)
    requires Start(p) && Allowed(p, actions) && ViewOf(p.At(Other(from)).host.app) == NOTHING
    requires forall a | a in actions :: OffersMessages(a, from)
    ensures Conversing(ActAll(p, actions), from, told) && told.delivered == Said(p, actions, from, false)
  {
    told := ToldAll(p, actions, from, NOTHING);
    StartLinked(p);
    StartConverses(p, from);
    ActAllConverses(p, actions, from, NOTHING);
    ToldIsSaid(p, actions, from, NOTHING);
    var said := Said(p, actions, from, false);
    assert [] + said == said;
  }

  /** Whole-message delivery, from before the offline handshake on. Whatever the network does, the
      messages a receiver hands to its host are a prefix of those the sender's host offered for it
      after the packet that opens the connection, each once, whole and in order; and they are all of
      them once the sender is at rest with no index lost beyond the window. */
  lemma {:induction false} WholeMessageDelivery(p: Pair, actions: seq<Action>, from: Side)
    requires Start(p) && Allowed(p, actions)
    requires forall a | a in actions :: OffersMessages(a, from)
    requires var a := p.At(Other(from)).host.app; a.phase != Connected && a.splits == map[] && Deliveries(a.events) == []
    ensures var r := ActAll(p, actions);
            var heard := Deliveries(r.At(Other(from)).host.app.events);
            var w := r.At(Other(from)).window;
            && heard <= Said(p, actions, from, false)
            && (AtRest(r.At(from).host.out) && (forall i | i in w.overrun :: i <= w.lastReliable) ==>
                  heard == Said(p, actions, from, false))
  {
    var told := ReachedConversing(p, actions, from);
    Reached(p, actions, from);
    var r := ActAll(p, actions);
    HeardSoFar(r.At(from).host.out, r.At(Other(from)), told);
  }

  // ---------- a run that delivers ----------

  const REQUEST1: seq<byte> := [0x05] + MAGIC + [0]

  const REQUEST2: seq<byte> := [0x07] + MAGIC + [4] + seq(16, _ => 0)

  function Reliable(buffer: seq<byte>): Packet { BLANK.(reliability := 2, buffer := buffer) }

  /** The offline handshake leads a new session to where datagrams reach it. */
  lemma OfflineHandshake(config: Config, now: real)
    ensures var s := HandleRaw(HandleRaw(FreshSession(config), REQUEST1, now), REQUEST2, now);
            && s.host.app.phase == Connecting2 && s.window == FRESH_WINDOW
            && ViewOf(s.host.app) == NOTHING && Triads(s.host.out)
  {
    assert REQUEST1[1..17] == MAGIC && REQUEST2[1..17] == MAGIC;
  }

  lemma {:induction false} NextPassed(w: Window, q: Packet)
    requires w.held == map[] && q.messageIndex == Some(w.lastReliable + 1)
    requires w.reliableStart <= w.lastReliable + 1 <= w.reliableEnd
    ensures AcceptPackets(w, [q]) == Passed(Advance(w, q), [q])
  {
    assert [q][1..] == [] && [q] + [] == [q];
    assert AcceptPackets(AcceptPacket(w, q).window, []).packets == [];
  }

  /** The next datagram with the next packet is routed at once. */
  lemma NextRouted(s: Session, raw: seq<byte>, d: Datagram, q: Packet, now: real)
    requires Heeds(s, raw) && DecodeDatagram(raw) == Some(d) && d.packets == [q]
    requires d.seqNumber == s.window.lastSeq + 1 && Admits(s.window, d.seqNumber)
    requires s.window.held == map[] && q.messageIndex == Some(s.window.lastReliable + 1)
    requires s.window.reliableStart <= s.window.lastReliable + 1 <= s.window.reliableEnd
    ensures var t := HandleRaw(s, raw, now);
            && Online(t.host.app.phase) && ViewOf(t.host.app) == See(ViewOf(s.host.app), q)
            && t.window == Advance(AcceptNumber(s.window, d.seqNumber), q)
            && (!q.hasSplit && (Opening(q.buffer) || ForHost(q.buffer)) ==> t.host.out == s.host.out)
  {
    var h := s.host.(app := s.host.app.(active := true, lastUpdate := now));
    NextPassed(AcceptNumber(s.window, d.seqNumber), q);
    RouteView(h, s.config, q, now);
    assert [q] + [] == [q];
    RouteAllFirst(h, s.config, q, [], now);
    assert HandleRaw(s, raw, now) == HandleDatagram(s.(host := h), d, now);
  }

  /** What a small reliable offer puts on the wire. */
  lemma OfferSent(o: Outbound, buffer: seq<byte>, now: real)
    requires |buffer| == 1 && o.mtu == 548 && o.messageIndex < U24 && o.sendSeq < U24
    ensures var r := AddEncapsulated(o, Reliable(buffer), true, now);
            var p := Reliable(buffer).(messageIndex := Some(o.messageIndex));
            && r.sent == o.sent + [Data(Datagram(0x80, o.sendSeq, [p], now))]
            && r.mtu == 548 && r.messageIndex == o.messageIndex + 1 && r.sendSeq == o.sendSeq + 1
  {
  }

  /** The receiver is ready for the sender's next datagram and next packet. */
  predicate InStep(o: Outbound, s: Session) {
    && o.mtu == 548 && o.messageIndex == |o.sent| == o.sendSeq
    && Online(s.host.app.phase) && s.window.held == map[]
    && o.sendSeq == s.window.lastSeq + 1 && Admits(s.window, o.sendSeq)
    && o.messageIndex == s.window.lastReliable + 1 && s.window.reliableStart <= o.messageIndex <= s.window.reliableEnd
    && forall k | k in s.window.received :: k < o.sendSeq
  }

  lemma InStepAgain(o: Outbound, r: Outbound, s: Session, t: Session, q: Packet)
    requires InStep(o, s) && o.sendSeq < 2000 && s.window.windowEnd >= 2047 && s.window.reliableEnd >= 2047
    requires r.mtu == 548 && r.messageIndex == |r.sent| == r.sendSeq == o.sendSeq + 1
    requires Online(t.host.app.phase) && t.window == Advance(AcceptNumber(s.window, o.sendSeq), q)
    ensures InStep(r, t) && t.window.windowEnd >= 2047 && t.window.reliableEnd >= 2047
  {
  }

  /** One offer and its delivery: what the receiver sees is the packet the sender put on the wire. */
  lemma OfferThenDeliver(o: Outbound, s: Session, buffer: seq<byte>, now: real)
    requires InStep(o, s) && o.sendSeq < 2000 && s.window.windowEnd >= 2047 && s.window.reliableEnd >= 2047
    requires |buffer| == 1 && (Opening(buffer) || ForHost(buffer))
    ensures var r := AddEncapsulated(o, Reliable(buffer), true, now);
            && r.sendSeq == o.sendSeq + 1 && |r.sent| == |o.sent| + 1
            && var t := HandleRaw(s, Bytes(r.sent[|o.sent|]), now);
               && InStep(r, t) && t.window.windowEnd >= 2047 && t.window.reliableEnd >= 2047
               && ViewOf(t.host.app) == Hear(ViewOf(s.host.app), buffer) && t.host.out == s.host.out
  {
    OfferSent(o, buffer, now);
    var r := AddEncapsulated(o, Reliable(buffer), true, now);
    var p := Reliable(buffer).(messageIndex := Some(o.messageIndex));
    var d := Datagram(0x80, o.sendSeq, [p], now);
    OneRead(d, p);
    IndexRead(p);
    FirstByte(d);
    ReadWhole(p);
    NextRouted(s, EncodeDatagram(d), Datagram(0x80, o.sendSeq, [AsReceived(p)], 0.0), AsReceived(p), now);
    InStepAgain(o, r, s, HandleRaw(s, EncodeDatagram(d), now), AsReceived(p));
  }

  lemma {:induction false} ActFirst(p: Pair, a: Action, rest: seq<Action>)
    ensures ActAll(p, [a] + rest) == ActAll(Act(p, a), rest)
    ensures Allowed(p, [a] + rest) ==
            (Triads(p.left.host.out) && Triads(p.right.host.out)
             && (a.Local? ==> Permitted(p.At(a.side), a.input)) && Allowed(Act(p, a), rest))
  {
    assert ([a] + rest)[1..] == rest;
  }

  function OfferOf(buffer: seq<byte>, now: real): Action { Local(Left, Offer(Reliable(buffer), true, now)) }

  /** Two actions of a run: the left side offers, and what it sent is delivered. */
  lemma {:induction false} Exchanged(p: Pair, buffer: seq<byte>, k: nat, now: real, rest: seq<Action>) returns (r: Pair)
    requires InStep(p.left.host.out, p.right) && k == |p.left.host.out.sent| && k < 2000
    requires p.right.window.windowEnd >= 2047 && p.right.window.reliableEnd >= 2047 && Triads(p.right.host.out)
    requires |buffer| == 1 && (Opening(buffer) || ForHost(buffer))
    ensures InStep(r.left.host.out, r.right) && |r.left.host.out.sent| == k + 1
    ensures r.right.window.windowEnd >= 2047 && r.right.window.reliableEnd >= 2047 && Triads(r.right.host.out)
    ensures ViewOf(r.right.host.app) == Hear(ViewOf(p.right.host.app), buffer)
    ensures ActAll(p, [OfferOf(buffer, now)] + ([Deliver(Right, k, now)] + rest)) == ActAll(r, rest)
    ensures Allowed(r, rest) ==> Allowed(p, [OfferOf(buffer, now)] + ([Deliver(Right, k, now)] + rest))
  {
    var a, b := OfferOf(buffer, now), Deliver(Right, k, now);
    OfferThenDeliver(p.left.host.out, p.right, buffer, now);
    OfferSent(p.left.host.out, buffer, now);
    ActFirst(p, a, [b] + rest);
    ActFirst(Act(p, a), b, rest);
    r := Act(Act(p, a), b);
  }

  /** A new session on the left, and on the right one past the offline handshake. */
  lemma {:induction false} ReadyPair(left: Config, right: Config, now: real) returns (p: Pair)
    ensures p == Pair(FreshSession(left), HandleRaw(HandleRaw(FreshSession(right), REQUEST1, now), REQUEST2, now))
    ensures InStep(p.left.host.out, p.right) && p.left.host.out.sent == []
    ensures p.right.window.windowEnd >= 2047 && p.right.window.reliableEnd >= 2047 && Triads(p.right.host.out)
    ensures ViewOf(p.right.host.app) == NOTHING
  {
    OfflineHandshake(right, now);
    p := Pair(FreshSession(left), HandleRaw(HandleRaw(FreshSession(right), REQUEST1, now), REQUEST2, now));
  }

  /** The left side offers the packet that opens the connection and then a message. */
  lemma {:induction false} Conversation(p: Pair, now: real) returns (actions: seq<Action>)
    requires InStep(p.left.host.out, p.right) && p.left.host.out.sent == []
    requires p.right.window.windowEnd >= 2047 && p.right.window.reliableEnd >= 2047 && Triads(p.right.host.out)
    requires ViewOf(p.right.host.app) == NOTHING
    ensures Allowed(p, actions) && Deliveries(ActAll(p, actions).right.host.app.events) == [[0x80]]
    ensures forall a | a in actions :: OffersMessages(a, Left)
  {
    var second := [OfferOf([0x80], now)] + ([Deliver(Right, 1, now)] + []);
    var p3 := Exchanged(p, [0x13], 0, now, second);
    var p4 := Exchanged(p3, [0x80], 1, now, []);
    actions := [OfferOf([0x13], now)] + ([Deliver(Right, 0, now)] + second);
  }

  lemma {:induction false} Prepend(p: Pair, raw: seq<byte>, now: real, actions: seq<Action>)
    requires raw != [] && raw[0] < 0x80 && Triads(p.left.host.out) && Triads(p.right.host.out)
    requires Allowed(Pair(p.left, HandleRaw(p.right, raw, now)), actions)
    requires forall a | a in actions :: OffersMessages(a, Left)
    ensures var all := [Local(Right, Arrive(raw, now))] + actions;
            && Allowed(p, all) && ActAll(p, all) == ActAll(Pair(p.left, HandleRaw(p.right, raw, now)), actions)
            && forall a | a in all :: OffersMessages(a, Left)
  {
    ActFirst(p, Local(Right, Arrive(raw, now)), actions);
  }

  /** Messages do arrive: from two new sessions there is a run that takes the right side through the
      offline handshake, opens the connection and delivers a message of the left side's host. */
  lemma {:induction false} AMessageIsDelivered(left: Config, right: Config, now: real) returns (actions: seq<Action>)
    ensures var p := Pair(FreshSession(left), FreshSession(right));
            && Start(p) && Allowed(p, actions) && ViewOf(p.right.host.app) == NOTHING
            && (forall a | a in actions :: OffersMessages(a, Left))
            && Deliveries(ActAll(p, actions).right.host.app.events) == [[0x80]]
  {
    var p := Pair(FreshSession(left), FreshSession(right));
    var p1 := Pair(p.left, HandleRaw(p.right, REQUEST1, now));
    var p2 := ReadyPair(left, right, now);
    var talk := Conversation(p2, now);
    Prepend(p1, REQUEST2, now, talk);
    Prepend(p, REQUEST1, now, [Local(Right, Arrive(REQUEST2, now))] + talk);
    actions := [Local(Right, Arrive(REQUEST1, now))] + ([Local(Right, Arrive(REQUEST2, now))] + talk);
  }
}
