/** A session driven by arbitrary inputs: host calls, bytes from the socket, periodic passes. */
module Runs {
  import opened Collections
  import opened Binary
  import opened Packets
  import opened SessionModel
  import opened Moves

  datatype Input =
    | Offer(packet: Packet, immediate: bool, now: real)
    | Arrive(raw: seq<byte>, now: real)
    | Tick(now: real)
    | AckNow
    | HangUp

  function Step(s: Session, i: Input): Session {
    match i
    case Offer(p, imm, now) => s.(host := s.host.(out := AddEncapsulated(s.host.out, p, imm, now)))
    case Arrive(raw, now) => HandleRaw(s, raw, now)
    case Tick(now) => Update(s, now)
    case AckNow => FlushAcks(s)
    case HangUp => s.(host := s.host.(app := Disconnect(s.host.app)))
  }

  function Run(s: Session, inputs: seq<Input>): Session
    decreases |inputs|
  {
    if inputs == [] then s else Run(Step(s, inputs[0]), inputs[1..])
  }

  // ---------- what addEncapsulated puts into the queues ----------

  function PartIndex(p: Packet, j: nat): Option<nat> {
    if j == 0 then p.messageIndex
    else if Numbered(p.reliability) && p.messageIndex.Some? then Some(p.messageIndex.value + j)
    else None
  }

  /** The parts of a split packet, over consecutive message indexes. */
  function PartList(p: Packet, sid: nat, count: nat, chunk: nat): (ps: seq<Packet>)
    ensures |ps| == count
  {
    seq(count, j requires 0 <= j < count => Part(p, sid, count, chunk, j, PartIndex(p, j)))
  }

  function Produced(o: Outbound, packet: Packet): seq<Packet> {
    var (o1, p) := AssignIndexes(o, packet);
    if TotalLength(p) + 4 > o1.mtu then
      var chunk := ChunkSize(o1.mtu);
      PartList(p, (o1.splitIdCounter + 1) % U16, ChunkCount(|p.buffer|, chunk), chunk)
    else [p]
  }

  lemma {:induction false} PartsEnqueued(o: Outbound, p: Packet, sid: nat, count: nat, chunk: nat, i: nat, now: real)
    requires i <= count
    requires Numbered(p.reliability) ==>
               p.messageIndex.Some? && o.messageIndex == p.messageIndex.value + (if i == 0 then 1 else i)
    ensures var r := SendParts(o, p, sid, count, chunk, i, now);
            && r.enqueued == o.enqueued + PartList(p, sid, count, chunk)[i..]
            && r.messageIndex == if Numbered(p.reliability) && i < count then p.messageIndex.value + count else o.messageIndex
    decreases count - i
  {
    if i < count {
      var taken := i > 0 && Numbered(p.reliability);
      var o1 := if taken then o.(messageIndex := o.messageIndex + 1) else o;
      var part := Part(p, sid, count, chunk, i, PartIndex(p, i));
      var o2 := AddToQueue(o1, part, true, now);
      PartsEnqueued(o2, p, sid, count, chunk, i + 1, now);
      var all := PartList(p, sid, count, chunk);
      assert all[i..] == [part] + all[i + 1..];
      Append(o.enqueued, [part], all[i + 1..]);
    } else {
      assert PartList(p, sid, count, chunk)[i..] == [];
    }
  }

  lemma OfferEnqueues(o: Outbound, packet: Packet, immediate: bool, now: real)
    ensures var r := AddEncapsulated(o, packet, immediate, now);
            && r.enqueued == o.enqueued + Produced(o, packet)
            && r.messageIndex == if !Numbered(packet.reliability) then o.messageIndex
                                 else if Produced(o, packet) == [] then o.messageIndex + 1
                                 else o.messageIndex + |Produced(o, packet)|
  {
    var (o1, p) := AssignIndexes(o, packet);
    if TotalLength(p) + 4 > o1.mtu {
      var chunk := ChunkSize(o1.mtu);
      var sid := (o1.splitIdCounter + 1) % U16;
      var count := ChunkCount(|p.buffer|, chunk);
      PartsEnqueued(o1.(splitIdCounter := sid), p, sid, count, chunk, 0, now);
    }
  }

  // ---------- its moves ----------

  lemma {:induction false} PartsMoves(o: Outbound, p: Packet, sid: nat, count: nat, chunk: nat, i: nat, now: real)
    returns (ms: seq<Move>)
    requires i <= count
    requires Numbered(p.reliability) ==>
               p.messageIndex.Some? && o.messageIndex == p.messageIndex.value + (if i == 0 then 1 else i)
    ensures SendParts(o, p, sid, count, chunk, i, now) == ApplyAll(o, ms)
    ensures forall m | m in ms :: m.Count? || (m.Enqueue? && m.packet in PartList(p, sid, count, chunk))
    decreases count - i
  {
    if i >= count {
      ms := [];
    } else {
      var taken := i > 0 && Numbered(p.reliability);
      var o1 := if taken then o.(messageIndex := o.messageIndex + 1) else o;
      var part := Part(p, sid, count, chunk, i, PartIndex(p, i));
      assert part == PartList(p, sid, count, chunk)[i];
      var a, b := Count(o1.messageIndex, o.channelIndex, o.splitIdCounter), Enqueue(part, true, now);
      assert Apply(o, a) == o1;
      var rest := PartsMoves(Apply(o1, b), p, sid, count, chunk, i + 1, now);
      ApplyFirst(o1, b, rest);
      ApplyFirst(o, a, [b] + rest);
      ms := [a] + ([b] + rest);
    }
  }

  lemma {:induction false} OfferMoves(o: Outbound, packet: Packet, immediate: bool, now: real) returns (ms: seq<Move>)
    ensures AddEncapsulated(o, packet, immediate, now) == ApplyAll(o, ms)
    ensures forall m | m in ms :: m.Count? || (m.Enqueue? && m.packet in Produced(o, packet))
  {
    var (o1, p) := AssignIndexes(o, packet);
    if TotalLength(p) + 4 > o1.mtu {
      var chunk := ChunkSize(o1.mtu);
      var sid := (o1.splitIdCounter + 1) % U16;
      var a := Count(o1.messageIndex, o1.channelIndex, sid);
      var o2 := o1.(splitIdCounter := sid);
      assert Apply(o, a) == o2;
      var rest := PartsMoves(o2, p, sid, ChunkCount(|p.buffer|, chunk), chunk, 0, now);
      ApplyFirst(o, a, rest);
      ms := [a] + rest;
    } else {
      var a, b := Count(o1.messageIndex, o1.channelIndex, o1.splitIdCounter), Enqueue(p, immediate, now);
      assert Apply(o, a) == o1;
      ApplyOne(o1, b);
      ApplyFirst(o, a, [b]);
      ms := [a] + [b];
    }
  }

  lemma {:induction false} TickMoves(s: Session, now: real) returns (ms: seq<Move>)
    ensures Update(s, now).host.out == ApplyAll(s.host.out, ms)
    ensures forall m | m in ms :: Sending(m) || m == Tell(Ack(s.window.ackQueue)) || m == Tell(Nack(s.window.nackQueue))
  {
    if TimedOut(s.host.app, now) {
      ms := [];
    } else {
      ms := UpdateMoves(s.host.out, s.window, now);
    }
  }

  /** One input is a sequence of moves; which ones depends on where the input comes from. */
  lemma {:induction false} StepMoves(s: Session, i: Input) returns (ms: seq<Move>)
    ensures Step(s, i).host.out == ApplyAll(s.host.out, ms)
    ensures !i.Offer? ==> forall m | m in ms :: Reaction(m)
    ensures !i.Offer? && Online(s.host.app.phase) ==> forall m | m in ms :: Settled(m)
    ensures !i.Offer? && !Online(s.host.app.phase) ==> forall m | m in ms :: !m.Enqueue?
    ensures !i.Offer? ==> forall m | m in ms && m.Forget? :: i.Arrive? && Names(i.raw, m.number)
    ensures forall m | m in ms && m.Tell? ::
              Greeting(m.message) || m.message == Ack(s.window.ackQueue) || m.message.Nack?
    ensures i.Offer? ==> forall m | m in ms :: m.Count? || (m.Enqueue? && m.packet in Produced(s.host.out, i.packet))
  {
    match i
    case Offer(p, imm, now) => ms := OfferMoves(s.host.out, p, imm, now);
    case Arrive(raw, now) => ms := RawMoves(s, raw, now);
    case Tick(now) => ms := TickMoves(s, now);
    case AckNow => ms := SendAcksMoves(s.host.out, s.window.ackQueue, s.window.nackQueue);
    case HangUp => ms := [];
  }

  // ---------- the connection phase ----------

  function Rank(p: Phase): nat {
    match p
    case Unconnected => 0
    case Connecting1 => 1
    case Connecting2 => 2
    case Connected => 3
  }

  /** What routing leaves of the connection: the phase goes up at most, the client stays. */
  predicate Onward(a: App, b: App) {
    Rank(b.phase) >= Rank(a.phase) && b.clientId == a.clientId && (Online(a.phase) ==> Online(b.phase))
  }

  lemma InternalPhase(h: Host, config: Config, payload: seq<byte>, now: real)
    requires payload != []
    ensures Onward(h.app, HandleInternal(h, config, payload, now).app)
  {
  }

  lemma RouteWholePhase(h: Host, config: Config, p: Packet, now: real)
    ensures Onward(h.app, RouteWhole(h, config, p, now).app)
  {
    if p.buffer != [] && p.buffer[0] < 0x80 { InternalPhase(h, config, p.buffer, now); }
  }

  lemma SplitPhase(a: App, p: Packet)
    ensures HandleSplit(a, p).0 == a.(splits := HandleSplit(a, p).0.splits)
  {
  }

  lemma RoutePhase(h: Host, config: Config, p: Packet, now: real)
    ensures Onward(h.app, Route(h, config, p, now).app)
  {
    if !p.hasSplit {
      RouteWholePhase(h, config, p, now);
    } else if h.app.phase == Connected {
      SplitPhase(h.app, p);
      var (app, whole) := HandleSplit(h.app, p);
      if whole.Some? { RouteWholePhase(h.(app := app), config, whole.value, now); }
    }
  }

  lemma {:induction false} RouteAllPhase(h: Host, config: Config, ps: seq<Packet>, now: real)
    ensures Onward(h.app, RouteAll(h, config, ps, now).app)
    decreases |ps|
  {
    if ps != [] {
      RoutePhase(h, config, ps[0], now);
      RouteAllPhase(Route(h, config, ps[0], now), config, ps[1..], now);
    }
  }

  lemma StaysOnline(s: Session, i: Input)
    requires Online(s.host.app.phase)
    ensures Onward(s.host.app, Step(s, i).host.app)
  {
    if i.Arrive? && i.raw != [] && 0x80 <= i.raw[0] <= 0x8f {
      var h := s.host.(app := s.host.app.(active := true, lastUpdate := i.now));
      var d := DecodeDatagram(i.raw);
      if d.Some? && Admits(s.window, d.value.seqNumber) {
        var passed := AcceptPackets(AcceptNumber(s.window, d.value.seqNumber), d.value.packets);
        RouteAllPhase(h, s.config, passed.packets, i.now);
      }
    }
  }
}
