/** Two sessions joined by a network that may drop, repeat and reorder what either hands to its
    socket. The receiver routes a prefix of the sender's stream in every run, and once the sender has
    nothing left to resend, all of it, exactly when no index was dropped for good beyond the window. */
module Link {
  import opened Collections
  import opened Binary
  import opened Packets
  import opened SessionModel
  import opened Moves
  import opened Runs
  import opened Sender
  import opened Windows
  import opened Numbering
  import Acknowledge

  datatype Side = Left | Right

  function Other(side: Side): Side { if side == Left then Right else Left }

  datatype Pair = Pair(left: Session, right: Session) {
    function At(side: Side): Session { if side == Left then left else right }

    function Put(side: Side, s: Session): Pair { if side == Left then Pair(s, right) else Pair(left, s) }
  }

  /** `Deliver` hands over any message the peer ever sent: never choosing one drops it, choosing it
      again repeats it, and the order is free. */
  datatype Action =
    | Local(side: Side, input: Input)
    | Deliver(to: Side, k: nat, now: real)

  function Act(p: Pair, a: Action): Pair {
    match a
    case Local(side, i) => p.Put(side, Step(p.At(side), i))
    case Deliver(to, k, now) =>
      var wire := p.At(Other(to)).host.out.sent;
      if k < |wire| then p.Put(to, HandleRaw(p.At(to), Bytes(wire[k]), now)) else p
  }

  function ActAll(p: Pair, actions: seq<Action>): Pair
    decreases |actions|
  {
    if actions == [] then p else ActAll(Act(p, actions[0]), actions[1..])
  }

  /** A packet the byte form can carry and the reader does not stop at. */
  predicate Wire(p: Packet) { Carriable(p) && p.buffer != [] }

  /** What the host offers, and what arrives from elsewhere: handshake requests only. */
  predicate Permitted(s: Session, i: Input) {
    match i
    case Offer(p, _, _) => p.reliability < 8 && p.buffer != [] && s.host.out.mtu <= 8191
    case Arrive(raw, _) => raw == [] || raw[0] < 0x80
    case _ => true
  }

  /** Sequence numbers and message indexes stay below 2^24. */
  predicate Triads(o: Outbound) { o.sendSeq <= U24 && o.messageIndex <= U24 }

  predicate Allowed(p: Pair, actions: seq<Action>)
    decreases |actions|
  {
    && Triads(p.left.host.out) && Triads(p.right.host.out)
    && (actions != [] ==>
          && (actions[0].Local? ==> Permitted(p.At(actions[0].side), actions[0].input))
          && Allowed(Act(p, actions[0]), actions[1..]))
  }

  /** Two sessions that have not exchanged anything; their connection phases are arbitrary. */
  predicate Start(p: Pair) {
    && p.left.window == FRESH_WINDOW && p.right.window == FRESH_WINDOW
    && p.left.host.out == FreshOutbound(p.left.host.out.mtu)
    && p.right.host.out == FreshOutbound(p.right.host.out.mtu)
  }

  // ---------- one direction ----------

  /** The stream as its receiver reads it. */
  function Expected(o: Outbound): seq<Packet> { AllAsReceived(Stream(o.enqueued)) }

  /** Every indexed packet of the payload was routed, is held, or lay beyond the window. */
  ghost predicate Arrived(w: Window, ps: seq<Packet>) {
    forall p | p in ps && Numbered(p.reliability) :: p.messageIndex.Some? && Covers(w, p.messageIndex.value)
  }

  /** Accepted numbers were sent, with payloads that arrived; acknowledged numbers were accepted. */
  ghost predicate Known(o: Outbound, w: Window) {
    && (forall k | k in w.accepted :: k in o.log && Arrived(w, o.log[k]))
    && (forall k | k in o.acked :: k in w.accepted)
  }

  ghost predicate Lane(o: Outbound, w: Window) {
    && Sound(o) && Gapless(o) && BothWindows(w)
    && (forall p | p in o.enqueued :: Wire(p))
    && Follows(w, Expected(o))
    && Known(o, w)
  }

  /** A side acknowledges only numbers it accepted, and its other replies are handshake replies. */
  ghost predicate Honest(sent: seq<Message>, accepted: seq<nat>) {
    && (forall m | m in sent && m.Ack? :: forall k | k in m.numbers :: k in accepted)
    && (forall m | m in sent && m.Reply? :: Greeting(m))
  }

  // ---------- the sender moves ----------

  lemma FollowsLonger(w: Window, a: seq<Packet>, b: seq<Packet>)
    requires Follows(w, a) && a <= b
    ensures Follows(w, b)
  {
    assert b[..|w.routed|] == a[..|w.routed|];
  }

  lemma KnownGrows(o: Outbound, r: Outbound, w: Window)
    requires Known(o, w) && Grows(o, r)
    requires forall k | k in r.acked :: k in o.acked || k in w.accepted
    ensures Known(r, w)
  {
  }

  lemma {:induction false} LaneReacts(o: Outbound, w: Window, ms: seq<Move>)
    requires Lane(o, w)
    requires forall m | m in ms :: Reaction(m)
    requires forall m | m in ms && m.Forget? :: m.number in w.accepted
    ensures Lane(ApplyAll(o, ms), w)
  {
    MovesKeep(o, ms);
    MovesGrow(o, ms);
    MovesAdd(o, ms);
    ReactionsKeepStream(o, ms);
    KnownGrows(o, ApplyAll(o, ms), w);
  }

  lemma {:induction false} Times(a: nat, b: nat, c: nat)
    requires a <= b
    ensures a * c <= b * c
  {
    if a < b { Times(a, b - 1, c); }
  }

  lemma LastChunk(size: nat, chunk: nat, j: nat)
    requires chunk > 0 && j < ChunkCount(size, chunk)
    ensures j * chunk < size
  {
    Times(j + 1, ChunkCount(size, chunk), chunk);
    assert ChunkCount(size, chunk) * chunk <= size + chunk - 1;
  }

  lemma ProducedWire(o: Outbound, packet: Packet)
    requires packet.reliability < 8 && packet.buffer != [] && o.mtu <= 8191
    ensures forall q | q in Produced(o, packet) :: Wire(q)
  {
    var (o1, p) := AssignIndexes(o, packet);
    if TotalLength(p) + 4 > o1.mtu {
      var chunk := ChunkSize(o1.mtu);
      var count := ChunkCount(|p.buffer|, chunk);
      var ps := PartList(p, (o1.splitIdCounter + 1) % U16, count, chunk);
      forall j | 0 <= j < count ensures Wire(ps[j]) {
        LastChunk(|p.buffer|, chunk, j);
        assert 0 < |Chunk(p.buffer, chunk, j)| <= chunk;
      }
    }
  }

  lemma {:induction false} StreamGrows(a: seq<Packet>, ps: seq<Packet>)
    ensures AllAsReceived(Stream(a)) <= AllAsReceived(Stream(a + ps))
  {
    StreamAppend(a, ps);
  }

  lemma LaneOffers(o: Outbound, w: Window, packet: Packet, immediate: bool, now: real)
    requires Lane(o, w)
    requires packet.reliability < 8 && packet.buffer != [] && o.mtu <= 8191
    ensures Lane(AddEncapsulated(o, packet, immediate, now), w)
  {
    var ps := Produced(o, packet);
    var ms := OfferMoves(o, packet, immediate, now);
    MovesKeep(o, ms);
    MovesGrow(o, ms);
    MovesAdd(o, ms);
    OfferEnqueues(o, packet, immediate, now);
    NothingProduced(o, packet);
    OfferKeepsGapless(o, packet, immediate, now);
    ProducedWire(o, packet);
    StreamGrows(o.enqueued, ps);
    var r := ApplyAll(o, ms);
    FollowsLonger(w, Expected(o), Expected(r));
    KnownGrows(o, r, w);
  }

  // ---------- the receiver takes a datagram ----------

  /** Logged packets are read back at their place in the stream. */
  lemma PayloadFromStream(o: Outbound, k: nat)
    requires Sound(o) && Gapless(o) && Triads(o) && k in o.log
    requires forall p | p in o.enqueued :: Wire(p)
    ensures FromStream(AllAsReceived(o.log[k]), Expected(o))
    ensures forall p | p in o.log[k] && Numbered(p.reliability) ::
              p.messageIndex.Some? && AsReceived(p).messageIndex == p.messageIndex
  {
    var ps, st := o.log[k], Stream(o.enqueued);
    StreamMembers(o.enqueued);
    forall p | p in ps && Numbered(p.reliability)
      ensures p.messageIndex.Some? && p.messageIndex.value < |st| && st[p.messageIndex.value] == p
      ensures AsReceived(p).messageIndex == p.messageIndex
    {
      assert p in st;
      var i :| 0 <= i < |st| && st[i] == p;
    }
    forall q | q in AllAsReceived(ps) && q.messageIndex.Some?
      ensures q.messageIndex.value < |st| && q == Expected(o)[q.messageIndex.value]
    {
      var j :| 0 <= j < |ps| && AllAsReceived(ps)[j] == q;
      assert ps[j] in ps && Wire(ps[j]);
      assert Numbered(ps[j].reliability);
    }
  }

  lemma AcceptNumberFollows(w: Window, n: nat, stream: seq<Packet>)
    requires Follows(w, stream)
    ensures Follows(AcceptNumber(w, n), stream)
    ensures forall i: nat | Covers(w, i) :: Covers(AcceptNumber(w, n), i)
  {
  }

  lemma ArrivedKept(v: Window, w: Window, ps: seq<Packet>)
    requires Arrived(v, ps)
    requires forall i: nat | Covers(v, i) :: Covers(w, i)
    ensures Arrived(w, ps)
  {
  }

  lemma NowArrived(w: Window, ps: seq<Packet>)
    requires forall p | p in ps && Numbered(p.reliability) ::
               p.messageIndex.Some? && AsReceived(p).messageIndex == p.messageIndex
    requires forall q | q in AllAsReceived(ps) && q.messageIndex.Some? :: Covers(w, q.messageIndex.value)
    ensures Arrived(w, ps)
  {
    forall p | p in ps && Numbered(p.reliability) ensures Covers(w, p.messageIndex.value) {
      var j :| 0 <= j < |ps| && ps[j] == p;
      assert AllAsReceived(ps)[j] in AllAsReceived(ps);
    }
  }

  lemma LaneAccepts(o: Outbound, w: Window, d: Datagram)
    requires Lane(o, w) && Triads(o)
    requires d.seqNumber in o.log && d.packets == AllAsReceived(o.log[d.seqNumber])
    requires Admits(w, d.seqNumber)
    ensures Lane(o, AcceptPackets(AcceptNumber(w, d.seqNumber), d.packets).window)
  {
    var n := d.seqNumber;
    var w1 := AcceptNumber(w, n);
    var w2 := AcceptPackets(w1, d.packets).window;
    PayloadFromStream(o, n);
    AcceptNumberKeeps(w, n);
    AcceptNumberFollows(w, n, Expected(o));
    AcceptPacketsFollow(w1, d.packets, Expected(o));
    AcceptPacketsSide(w1, d.packets);
    HandleDatagramKeeps(w, d);
    NowArrived(w2, o.log[n]);
    forall k | k in w2.accepted ensures k in o.log && Arrived(w2, o.log[k]) {
      if k != n {
        assert k in w.accepted;
        ArrivedKept(w, w2, o.log[k]);
      }
    }
    assert Known(o, w2);
  }

  lemma NothingStops(d: Datagram)
    requires d.seqNumber < U24
    requires forall p | p in d.packets :: p.buffer != []
    ensures d.seqNumber % U24 == d.seqNumber && BeforeEmpty(d.packets) == d.packets
  {
    BeforeEmptyIsAll(d.packets);
  }

  lemma ReadBack(d: Datagram)
    requires d.seqNumber < U24
    requires forall p | p in d.packets :: Carriable(p)
    requires forall p | p in d.packets :: p.buffer != []
    ensures DecodeDatagram(EncodeDatagram(d)) == Some(Datagram(d.id, d.seqNumber, AllAsReceived(d.packets), 0.0))
  {
    DatagramRoundTrip(d);
    NothingStops(d);
  }

  lemma LoggedWire(o: Outbound, d: Datagram)
    requires Sound(o) && Triads(o) && Logged(o.log, d)
    requires forall p | p in o.enqueued :: Wire(p)
    ensures d.seqNumber < U24
    ensures forall p | p in d.packets :: Wire(p)
  {
  }

  /** What a datagram of the sender reads as. */
  lemma DatagramRead(o: Outbound, d: Datagram)
    requires Sound(o) && Triads(o) && Logged(o.log, d)
    requires forall p | p in o.enqueued :: Wire(p)
    ensures var r := DecodeDatagram(EncodeDatagram(d));
            && r.Some? && r.value.seqNumber == d.seqNumber
            && r.value.packets == AllAsReceived(o.log[d.seqNumber])
  {
    LoggedWire(o, d);
    ReadBack(d);
  }

  // ---------- one step of one side ----------

  /** Windows that differ in the queues and the pruned set only. */
  ghost predicate SameHistory(a: Window, b: Window) {
    && a.lastReliable == b.lastReliable && a.held == b.held && a.routed == b.routed
    && a.overrun == b.overrun && a.accepted == b.accepted
  }

  lemma LaneSame(o: Outbound, a: Window, b: Window)
    requires Lane(o, a) && SameHistory(a, b) && BothWindows(b)
    ensures Lane(o, b)
  {
    forall k | k in b.accepted ensures Arrived(b, o.log[k]) {
      ArrivedKept(a, b, o.log[k]);
    }
  }

  /** One side of the link: the lane from the peer into it, the lane out of it, and its replies. */
  ghost predicate Linked(s: Session, peer: Session) {
    && Lane(s.host.out, peer.window)
    && Lane(peer.host.out, s.window)
    && Honest(s.host.out.sent, s.window.accepted)
    && Honest(peer.host.out.sent, peer.window.accepted)
  }

  lemma {:induction false} HonestMoves(s: Session, ms: seq<Move>, accepted: seq<nat>)
    requires Honest(s.host.out.sent, s.window.accepted)
    requires forall k | k in s.window.accepted :: k in accepted
    requires forall k | k in s.window.ackQueue :: k in s.window.accepted
    requires forall m | m in ms && m.Tell? ::
               Greeting(m.message) || m.message == Ack(s.window.ackQueue) || m.message.Nack?
    ensures Honest(ApplyAll(s.host.out, ms).sent, accepted)
  {
    MovesAdd(s.host.out, ms);
  }

  lemma LocalWindow(s: Session, i: Input)
    requires BothWindows(s.window) && Permitted(s, i)
    ensures SameHistory(s.window, Step(s, i).window) && BothWindows(Step(s, i).window)
  {
    StepKeepsWindows(s, i);
    if i.Arrive? { RawWindow(s, i.raw, i.now); }
  }

  lemma LocalOut(s: Session, w: Window, i: Input)
    requires Lane(s.host.out, w) && BothWindows(s.window) && Permitted(s, i)
    requires Honest(s.host.out.sent, s.window.accepted)
    ensures Lane(Step(s, i).host.out, w) && Honest(Step(s, i).host.out.sent, s.window.accepted)
  {
    var ms := StepMoves(s, i);
    if i.Offer? {
      LaneOffers(s.host.out, w, i.packet, i.immediate, i.now);
    } else {
      LaneReacts(s.host.out, w, ms);
    }
    HonestMoves(s, ms, s.window.accepted);
  }

  lemma LocalKeeps(s: Session, peer: Session, i: Input)
    requires Linked(s, peer) && Permitted(s, i)
    ensures Linked(Step(s, i), peer)
  {
    LocalOut(s, peer.window, i);
    LocalWindow(s, i);
    LaneSame(peer.host.out, s.window, Step(s, i).window);
  }

  /** Numbers read out of the peer's ACK are numbers the peer accepted. */
  lemma AckNamesAccepted(o: Outbound, sent: seq<Message>, log: map<nat, seq<Packet>>, accepted: seq<nat>, m: Message, k: nat)
    requires Honest(sent, accepted) && m in sent && (m.Data? ==> Logged(log, m.datagram))
    requires forall x | x in accepted :: x < U24
    requires Names(Bytes(m), k)
    ensures k in accepted
  {
    assert m.Reply? ==> Greeting(m);
    if m.Ack? {
      Acknowledge.AckRoundTrip(Acknowledge.ID_ACK, Ascending(m.numbers));
    }
  }

  lemma DeliverWindow(o: Outbound, w: Window, m: Message)
    requires Lane(o, w) && Triads(o) && m in o.sent
    requires m.Reply? ==> Greeting(m)
    ensures Lane(o, Received(w, Bytes(m)))
    ensures forall k | k in w.accepted :: k in Received(w, Bytes(m)).accepted
  {
    if m.Data? {
      assert Logged(o.log, m.datagram);
      DatagramRead(o, m.datagram);
      var d := DecodeDatagram(Bytes(m)).value;
      if Admits(w, d.seqNumber) {
        LaneAccepts(o, w, d);
        AcceptNumberKeeps(w, d.seqNumber);
        AcceptPacketsSide(AcceptNumber(w, d.seqNumber), d.packets);
      }
    }
  }

  lemma DeliverOut(s: Session, peer: Session, m: Message, now: real)
    requires Linked(s, peer) && Triads(s.host.out) && m in peer.host.out.sent
    ensures Lane(HandleRaw(s, Bytes(m), now).host.out, peer.window)
    ensures Honest(HandleRaw(s, Bytes(m), now).host.out.sent, s.window.accepted)
  {
    var ms := RawMoves(s, Bytes(m), now);
    assert m.Data? ==> Logged(peer.host.out.log, m.datagram);
    forall x | x in ms && x.Forget? ensures x.number in peer.window.accepted {
      AckNamesAccepted(s.host.out, peer.host.out.sent, peer.host.out.log, peer.window.accepted, m, x.number);
    }
    LaneReacts(s.host.out, peer.window, ms);
    HonestMoves(s, ms, s.window.accepted);
  }

  lemma DeliverKeeps(s: Session, peer: Session, m: Message, now: real)
    requires Linked(s, peer) && m in peer.host.out.sent
    requires Triads(s.host.out) && Triads(peer.host.out)
    ensures Linked(HandleRaw(s, Bytes(m), now), peer)
  {
    DeliverOut(s, peer, m, now);
    RawWindow(s, Bytes(m), now);
    assert m.Reply? ==> Greeting(m);
    DeliverWindow(peer.host.out, s.window, m);
  }

  // ---------- whole runs ----------

  ghost predicate PairLinked(p: Pair) { Linked(p.left, p.right) }

  lemma PutLinked(p: Pair, side: Side, s: Session)
    requires PairLinked(p) && Linked(s, p.At(Other(side)))
    ensures PairLinked(p.Put(side, s))
  {
  }

  lemma LocalActKeeps(p: Pair, side: Side, i: Input)
    requires PairLinked(p) && Permitted(p.At(side), i)
    ensures PairLinked(p.Put(side, Step(p.At(side), i)))
  {
    var s := p.At(side);
    LocalKeeps(s, p.At(Other(side)), i);
    PutLinked(p, side, Step(s, i));
  }

  lemma DeliveryKeeps(p: Pair, to: Side, m: Message, now: real)
    requires PairLinked(p) && Triads(p.left.host.out) && Triads(p.right.host.out)
    requires m in p.At(Other(to)).host.out.sent
    ensures PairLinked(p.Put(to, HandleRaw(p.At(to), Bytes(m), now)))
  {
    var s := p.At(to);
    DeliverKeeps(s, p.At(Other(to)), m, now);
    PutLinked(p, to, HandleRaw(s, Bytes(m), now));
  }

  lemma ActKeeps(p: Pair, a: Action)
    requires PairLinked(p) && Triads(p.left.host.out) && Triads(p.right.host.out)
    requires a.Local? ==> Permitted(p.At(a.side), a.input)
    ensures PairLinked(Act(p, a))
  {
    match a
    case Local(side, i) => LocalActKeeps(p, side, i);
    case Deliver(to, k, now) => DeliverActKeeps(p, to, k, now);
  }

  lemma DeliverActKeeps(p: Pair, to: Side, k: nat, now: real)
    requires PairLinked(p) && Triads(p.left.host.out) && Triads(p.right.host.out)
    ensures PairLinked(Act(p, Deliver(to, k, now)))
  {
    var wire := p.At(Other(to)).host.out.sent;
    if k < |wire| {
      var m := wire[k];
      assert Act(p, Deliver(to, k, now)) == p.Put(to, HandleRaw(p.At(to), Bytes(m), now));
      DeliveryKeeps(p, to, m, now);
    }
  }

  lemma {:induction false} ActAllKeeps(p: Pair, actions: seq<Action>)
    requires PairLinked(p) && Allowed(p, actions)
    ensures PairLinked(ActAll(p, actions))
    decreases |actions|
  {
    if actions != [] {
      ActKeeps(p, actions[0]);
      ActAllKeeps(Act(p, actions[0]), actions[1..]);
    }
  }

  lemma StartLinked(p: Pair)
    requires Start(p)
    ensures PairLinked(p)
  {
    FreshIsSound(p.left.host.out.mtu);
    FreshIsSound(p.right.host.out.mtu);
  }

  lemma {:induction false} Reached(p: Pair, actions: seq<Action>, from: Side)
    requires Start(p) && Allowed(p, actions)
    ensures var r := ActAll(p, actions); Lane(r.At(from).host.out, r.At(Other(from)).window)
  {
    StartLinked(p);
    ActAllKeeps(p, actions);
  }

  /** In every run, whatever the network does, the indexed packets one side has routed are exactly
      the first `lastReliable` + 1 packets of the other side's stream, as they read on arrival. */
  lemma {:induction false} PrefixSafety(p: Pair, actions: seq<Action>, from: Side)
    requires Start(p) && Allowed(p, actions)
    ensures var r := ActAll(p, actions);
            var w := r.At(Other(from)).window;
            && 0 <= w.lastReliable + 1 <= |Expected(r.At(from).host.out)|
            && w.routed == Expected(r.At(from).host.out)[..w.lastReliable + 1]
            && (forall k | k in w.held :: w.lastReliable + 1 < k <= w.reliableEnd)
  {
    Reached(p, actions, from);
  }

  /** The sender has nothing queued, nothing to resend and nothing unacknowledged. */
  predicate AtRest(o: Outbound) {
    o.sendQueue.packets == [] && o.packetToSend == [] && o.recovery == map[]
  }

  lemma AllCovered(o: Outbound, w: Window, i: nat)
    requires Lane(o, w) && AtRest(o) && i < |Expected(o)|
    ensures Covers(w, i)
  {
    var p := Stream(o.enqueued)[i];
    StreamMembers(o.enqueued);
    assert p in Stream(o.enqueued);
    WhereCarried(o, p);
    assert AckedWith(o, p);
    var k :| k in o.acked && k in o.log && p in o.log[k];
    assert Arrived(w, o.log[k]);
  }

  lemma LaneAtRest(o: Outbound, w: Window)
    requires Lane(o, w) && AtRest(o)
    ensures w.routed == Expected(o) <==> forall i | i in w.overrun :: i <= w.lastReliable
  {
    var next := w.lastReliable + 1;
    if next < |Expected(o)| {
      AllCovered(o, w, next);
      assert next in w.overrun;
    } else {
      assert Expected(o)[..next] == Expected(o);
    }
  }

  /** No loss at rest: once the sender's three queues are empty, the other side has routed the whole
      stream, in order and each packet once, if and only if every index that ever arrived beyond the
      reliable window also arrived in time to be routed. The datagram that carries such an index is
      acknowledged all the same. */
  lemma {:induction false} NoLossAtRest(p: Pair, actions: seq<Action>, from: Side)
    requires Start(p) && Allowed(p, actions)
    requires AtRest(ActAll(p, actions).At(from).host.out)
    ensures var r := ActAll(p, actions);
            var w := r.At(Other(from)).window;
            w.routed == Expected(r.At(from).host.out) <==> forall i | i in w.overrun :: i <= w.lastReliable
  {
    Reached(p, actions, from);
    var r := ActAll(p, actions);
    LaneAtRest(r.At(from).host.out, r.At(Other(from)).window);
  }

  // ---------- a pace that keeps every index within the window ----------

  /** The sender never numbers a packet beyond the other side's reliable window. */
  predicate Paced(p: Pair, actions: seq<Action>, from: Side)
    decreases |actions|
  {
    && p.At(from).host.out.messageIndex <= p.At(Other(from)).window.reliableEnd + 1
    && (actions != [] ==> Paced(Act(p, actions[0]), actions[1..], from))
  }

  lemma {:induction false} DrainOverrun(w: Window)
    ensures DrainHeld(w).window.overrun == w.overrun && DrainHeld(w).window.reliableEnd >= w.reliableEnd
    decreases w.held.Keys
  {
    if w.held != map[] {
      assert w.held.Keys != {};
      var k := MinKey(w.held.Keys);
      if k - w.lastReliable == 1 { DrainOverrun(Advance(w.(held := w.held - {k}), w.held[k])); }
    }
  }

  lemma {:induction false} NoOverrun(w: Window, ps: seq<Packet>)
    requires forall p | p in ps && p.messageIndex.Some? :: p.messageIndex.value <= w.reliableEnd
    ensures AcceptPackets(w, ps).window.overrun == w.overrun
    decreases |ps|
  {
    if ps != [] {
      var p := ps[0];
      assert p in ps;
      DrainOverrun(Advance(w, p));
      NoOverrun(AcceptPacket(w, p).window, ps[1..]);
    }
  }

  lemma DeliverWithin(o: Outbound, w: Window, m: Message)
    requires Lane(o, w) && Triads(o) && m in o.sent
    requires m.Reply? ==> Greeting(m)
    requires o.messageIndex <= w.reliableEnd + 1
    ensures Received(w, Bytes(m)).overrun == w.overrun
  {
    if m.Data? {
      assert Logged(o.log, m.datagram);
      DatagramRead(o, m.datagram);
      var d := DecodeDatagram(Bytes(m)).value;
      PayloadFromStream(o, d.seqNumber);
      NoOverrun(AcceptNumber(w, d.seqNumber), d.packets);
    }
  }

  lemma PacedStep(p: Pair, a: Action, from: Side)
    requires PairLinked(p) && Triads(p.left.host.out) && Triads(p.right.host.out)
    requires a.Local? ==> Permitted(p.At(a.side), a.input)
    requires p.At(from).host.out.messageIndex <= p.At(Other(from)).window.reliableEnd + 1
    ensures Act(p, a).At(Other(from)).window.overrun == p.At(Other(from)).window.overrun
  {
    var s, peer := p.At(Other(from)), p.At(from);
    match a
    case Local(side, i) => if side == Other(from) { LocalWindow(s, i); }
    case Deliver(to, k, now) =>
      if to == Other(from) && k < |peer.host.out.sent| {
        var m := peer.host.out.sent[k];
        assert m.Reply? ==> Greeting(m);
        DeliverWithin(peer.host.out, s.window, m);
        RawWindow(s, Bytes(m), now);
      }
  }

  lemma {:induction false} PacedKeeps(p: Pair, actions: seq<Action>, from: Side)
    requires PairLinked(p) && Allowed(p, actions) && Paced(p, actions, from)
    requires p.At(Other(from)).window.overrun == {}
    ensures ActAll(p, actions).At(Other(from)).window.overrun == {}
    decreases |actions|
  {
    if actions != [] {
      PacedStep(p, actions[0], from);
      ActKeeps(p, actions[0]);
      PacedKeeps(Act(p, actions[0]), actions[1..], from);
    }
  }

  /** With a sender that keeps that pace nothing is ever lost: at rest the whole stream was routed. */
  lemma {:induction false} NoLossWhenPaced(p: Pair, actions: seq<Action>, from: Side)
    requires Start(p) && Allowed(p, actions) && Paced(p, actions, from)
    requires AtRest(ActAll(p, actions).At(from).host.out)
    ensures var r := ActAll(p, actions);
            r.At(Other(from)).window.routed == Expected(r.At(from).host.out)
  {
    StartLinked(p);
    PacedKeeps(p, actions, from);
    NoLossAtRest(p, actions, from);
  }

  lemma {:induction false} BeyondWindow(w: Window, q: Packet)
    requires q.messageIndex.Some? && q.messageIndex.value > w.reliableEnd
    ensures AcceptPackets(w, [q]).window == w.(overrun := w.overrun + {q.messageIndex.value})
  {
    assert [q][1..] == [];
  }

  lemma AllAsReceivedOne(p: Packet)
    ensures AllAsReceived([p]) == [AsReceived(p)]
  {
  }

  /** A datagram of one packet, as it is read. */
  lemma OneRead(d: Datagram, p: Packet)
    requires Wire(p) && d.packets == [p] && d.seqNumber < U24
    ensures DecodeDatagram(EncodeDatagram(d)) == Some(Datagram(d.id, d.seqNumber, [AsReceived(p)], 0.0))
  {
    ReadBack(d);
    AllAsReceivedOne(p);
  }

  lemma IndexRead(p: Packet)
    requires Numbered(p.reliability) && p.messageIndex.Some? && p.messageIndex.value < U24
    ensures AsReceived(p).messageIndex == p.messageIndex
  {
  }

  lemma FirstByte(d: Datagram)
    ensures EncodeDatagram(d) != [] && EncodeDatagram(d)[0] == d.id
  {
  }

  lemma ReceivedBeyond(s: Session, raw: seq<byte>, d: Datagram, q: Packet, now: real)
    requires Online(s.host.app.phase) && raw != [] && 0x80 <= raw[0] <= 0x8f && DecodeDatagram(raw) == Some(d)
    requires Admits(s.window, d.seqNumber) && d.packets == [q]
    requires q.messageIndex.Some? && q.messageIndex.value > s.window.reliableEnd
    ensures var w := HandleRaw(s, raw, now).window;
            && d.seqNumber in w.ackQueue && w.routed == s.window.routed && w.held == s.window.held
            && q.messageIndex.value in w.overrun
  {
    RawWindow(s, raw, now);
    BeyondWindow(AcceptNumber(s.window, d.seqNumber), q);
  }

  /** Without it: a session past the offline handshake is sent a datagram whose one packet carries an
      index beyond the reliable window. The number of the datagram is queued for an ACK, so the sender
      will not repeat it, and the packet is neither routed nor held. */
  lemma AckedYetDropped(s: Session, d: Datagram, p: Packet, now: real)
    requires Online(s.host.app.phase) && Admits(s.window, d.seqNumber)
    requires 0x80 <= d.id <= 0x8f && d.seqNumber < U24 && d.packets == [p]
    requires Wire(p) && Numbered(p.reliability) && p.messageIndex.Some?
    requires s.window.reliableEnd < p.messageIndex.value < U24
    ensures var w := HandleRaw(s, EncodeDatagram(d), now).window;
            && d.seqNumber in w.ackQueue && w.routed == s.window.routed && w.held == s.window.held
            && p.messageIndex.value in w.overrun
  {
    OneRead(d, p);
    IndexRead(p);
    FirstByte(d);
    ReceivedBeyond(s, EncodeDatagram(d), Datagram(d.id, d.seqNumber, [AsReceived(p)], 0.0), AsReceived(p), now);
  }
}
