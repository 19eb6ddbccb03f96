/** No datagram is larger than the negotiated packet size, provided the size fits the handshake
    answer, but for four bytes with each packet of reliability 1 or 4, which `totalLength` does not
    count. */
module Mtu {
  import opened Binary
  import opened Packets
  import opened SessionModel
  import opened Moves
  import opened Runs

  /** By its `totalLength` the packet fits a datagram of its own. */
  predicate Fits(p: Packet, mtu: nat) {
    Measured(p) && TotalLength(p) + 4 <= mtu
  }

  /** The indexes the session fills in are there to be counted. */
  predicate Measured(p: Packet) {
    && (Numbered(p.reliability) ==> p.messageIndex.Some?)
    && (p.reliability == 3 ==> p.orderIndex.Some?)
  }

  /** What is printed but not counted: the order field of reliabilities 1 and 4, and the index of
      those the three bits of the wire cannot carry. */
  function Surplus(p: Packet): nat {
    if p.reliability == 1 || p.reliability == 4 then 4 else if p.reliability >= 8 then 3 else 0
  }

  function Extra(ps: seq<Packet>): nat {
    if ps == [] then 0 else Surplus(ps[0]) + Extra(ps[1..])
  }

  lemma {:induction false} ExtraNone(ps: seq<Packet>)
    requires forall p | p in ps :: Surplus(p) == 0
    ensures Extra(ps) == 0
  {
    if ps != [] {
      assert ps[0] in ps;
      ExtraNone(ps[1..]);
    }
  }

  /** Printed bytes against counted ones, whatever indexes a packet came with. */
  lemma PrintedLength(p: Packet)
    requires Measured(p)
    ensures |ToBinary(p)| <= TotalLength(p) + Surplus(p)
  {
  }

  predicate AllMeasured(d: Datagram) {
    forall p | p in d.packets :: Measured(p)
  }

  ghost predicate Small(d: Datagram, mtu: nat) {
    AllMeasured(d) && Length(d) <= mtu
  }

  /** Every datagram of the sending side is within the packet size. */
  ghost predicate WithinMtu(o: Outbound) {
    && AllMeasured(o.sendQueue) && (o.sendQueue.packets != [] ==> Length(o.sendQueue) <= o.mtu)
    && (forall i | 0 <= i < |o.packetToSend| :: Small(o.packetToSend[i], o.mtu))
    && (forall k | k in o.recovery :: Small(o.recovery[k], o.mtu))
    && (forall m | m in o.sent && m.Data? :: Small(m.datagram, o.mtu))
  }

  lemma {:induction false} EncodedPackets(ps: seq<Packet>)
    requires forall p | p in ps :: Measured(p)
    ensures |EncodePackets(ps)| <= TotalLengths(ps) + Extra(ps)
  {
    if ps != [] {
      assert Measured(ps[0]);
      PrintedLength(ps[0]);
      EncodedPackets(ps[1..]);
    }
  }

  lemma EncodedLength(d: Datagram)
    requires AllMeasured(d)
    ensures |EncodeDatagram(d)| <= Length(d) + Extra(d.packets)
  {
    EncodedPackets(d.packets);
  }

  lemma {:induction false} TotalLengthsSnoc(ps: seq<Packet>, p: Packet)
    ensures TotalLengths(ps + [p]) == TotalLengths(ps) + TotalLength(p)
  {
    if ps == [] {
      assert [] + [p] == [p] && [p][1..] == [];
    } else {
      TotalLengthsSnoc(ps[1..], p);
      assert (ps + [p])[1..] == ps[1..] + [p] && (ps + [p])[0] == ps[0];
    }
  }

  // ---------- the moves ----------

  lemma SendSmall(o: Outbound, d: Datagram, now: real)
    requires WithinMtu(o) && Small(d, o.mtu)
    ensures WithinMtu(SendDatagram(o, d, now))
  {
    assert Small(d.(sendTime := now), o.mtu);
  }

  lemma FlushSmall(o: Outbound, now: real)
    requires WithinMtu(o)
    ensures WithinMtu(FlushSendQueue(o, now))
    ensures FlushSendQueue(o, now).sendQueue.packets == []
    ensures FlushSendQueue(o, now).mtu == o.mtu
  {
    if o.sendQueue.packets != [] {
      var d := o.sendQueue.(seqNumber := o.sendSeq, id := 0x84);
      assert Small(d, o.mtu);
      SendSmall(o.(sendSeq := o.sendSeq + 1), d, now);
    }
  }

  lemma PushSmall(o: Outbound, p: Packet)
    requires WithinMtu(o) && Fits(p, o.mtu)
    requires Length(o.sendQueue) + TotalLength(p) <= o.mtu || o.sendQueue.packets == []
    ensures WithinMtu(o.(sendQueue := o.sendQueue.(packets := o.sendQueue.packets + [p])))
  {
    TotalLengthsSnoc(o.sendQueue.packets, p);
  }

  lemma EnqueueSmall(o: Outbound, p: Packet, immediate: bool, now: real)
    requires WithinMtu(o) && Fits(p, o.mtu)
    ensures WithinMtu(AddToQueue(o, p, immediate, now))
  {
    var o0 := o.(enqueued := o.enqueued + [p]);
    assert WithinMtu(o0);
    if immediate {
      var d := Datagram(0x80, o0.sendSeq, [p], 0.0);
      TotalLengthsSnoc([], p);
      assert [] + [p] == [p];
      assert Small(d, o.mtu);
      SendSmall(o0.(sendSeq := o0.sendSeq + 1), d, now);
    } else if Length(o0.sendQueue) + TotalLength(p) > o0.mtu {
      FlushSmall(o0, now);
      PushSmall(FlushSendQueue(o0, now), p);
    } else {
      PushSmall(o0, p);
    }
  }

  lemma MoveSmall(o: Outbound, m: Move)
    requires WithinMtu(o) && !m.SetMtu?
    requires m.Enqueue? ==> Fits(m.packet, o.mtu)
    ensures WithinMtu(Apply(o, m)) && Apply(o, m).mtu == o.mtu
  {
    match m
    case Count(_, _, _) =>
    case Enqueue(p, imm, now) => EnqueueSmall(o, p, imm, now);
    case Flush(now) => FlushSmall(o, now);
    case SendHead(now) =>
      if o.packetToSend != [] {
        SendSmall(o.(packetToSend := o.packetToSend[1..]), o.packetToSend[0], now);
      }
    case Postpone(k) =>
      if k in o.recovery { assert Small(o.recovery[k].(seqNumber := o.sendSeq), o.mtu); }
    case Forget(k) =>
    case Repeat(k, now) =>
      if k in o.recovery {
        var d := o.recovery[k].(seqNumber := o.sendSeq);
        assert Small(d, o.mtu);
        SendSmall(o.(sendSeq := o.sendSeq + 1, recovery := o.recovery - {k}), d, now);
      }
    case Tell(_) =>
  }

  lemma {:induction false} MovesSmall(o: Outbound, ms: seq<Move>)
    requires WithinMtu(o)
    requires forall m | m in ms :: !m.SetMtu? && (m.Enqueue? ==> Fits(m.packet, o.mtu))
    ensures WithinMtu(ApplyAll(o, ms)) && ApplyAll(o, ms).mtu == o.mtu
    decreases |ms|
  {
    if ms != [] {
      MoveSmall(o, ms[0]);
      MovesSmall(Apply(o, ms[0]), ms[1..]);
    }
  }

  // ---------- what is offered, and what is answered ----------

  /** Whatever is offered, each packet or part it becomes is counted as fitting the packet size. */
  lemma ProducedFit(o: Outbound, packet: Packet)
    requires o.mtu > 34
    ensures forall q | q in Produced(o, packet) :: Fits(q, o.mtu)
  {
    var (o1, p) := AssignIndexes(o, packet);
    assert Measured(p);
    if TotalLength(p) + 4 > o1.mtu {
      var chunk := ChunkSize(o1.mtu);
      var count := ChunkCount(|p.buffer|, chunk);
      var ps := PartList(p, (o1.splitIdCounter + 1) % U16, count, chunk);
      forall j | 0 <= j < count ensures Fits(ps[j], o.mtu) {
        assert |Chunk(p.buffer, chunk, j)| <= chunk;
      }
    }
  }

  lemma AnswerFits(p: Packet, mtu: nat)
    requires Answer(p) && mtu >= 103
    ensures Fits(p, mtu)
  {
  }

  /** The handshake answer is the reason for the bound of 103. */
  lemma HandshakeNeeds103(e: Endpoint, ping: nat, mtu: nat)
    ensures Fits(BLANK.(buffer := ServerHandshake(e, ping)), mtu) <==> mtu >= 103
  {
    HandshakeLength(e, ping);
  }

  /** Reliabilities 1 and 4 print an order field that `totalLength` does not count. */
  lemma UnmeasuredReliabilities(p: Packet)
    requires p.orderIndex.None? && (p.reliability == 1 || p.reliability == 4)
    requires p.messageIndex.Some? <==> HasIndex(p.reliability)
    ensures |ToBinary(p)| == TotalLength(p) + 4
  {
  }

  /** The indexes of a packet that came to its session without any. */
  predicate Indexed(p: Packet) {
    && (p.messageIndex.Some? <==> Numbered(p.reliability))
    && (p.orderIndex.Some? <==> p.reliability == 3)
  }

  lemma IndexedLength(p: Packet)
    requires Indexed(p)
    ensures |ToBinary(p)| == TotalLength(p) + Surplus(p)
  {
  }

  /** For such packets that is the whole difference. */
  lemma {:induction false} EncodedExactly(ps: seq<Packet>)
    requires forall p | p in ps :: Indexed(p)
    ensures |EncodePackets(ps)| == TotalLengths(ps) + Extra(ps)
  {
    if ps != [] {
      assert Indexed(ps[0]);
      IndexedLength(ps[0]);
      EncodedExactly(ps[1..]);
    }
  }

  lemma DatagramLength(d: Datagram)
    requires forall p | p in d.packets :: Indexed(p)
    ensures |EncodeDatagram(d)| == Length(d) + Extra(d.packets)
  {
    EncodedExactly(d.packets);
  }

  lemma LengthOfOne(p: Packet)
    ensures TotalLengths([p]) == TotalLength(p) && Extra([p]) == Surplus(p)
  {
    assert [p][1..] == [];
    assert Extra([p]) == Surplus([p][0]) + Extra([p][1..]);
  }

  function Sequenced(size: nat): Packet { BLANK.(reliability := 1, buffer := seq(size, _ => 0x80)) }

  /** A packet size that an offer of reliability 1 exceeds: counted as just fitting, it is sent whole,
      in a datagram four bytes too large. */
  lemma FourTooMany(o: Outbound, now: real)
    requires o.mtu >= 7
    ensures var r := AddEncapsulated(o, Sequenced(o.mtu - 7), true, now);
            && |r.sent| == |o.sent| + 1 && r.sent[|o.sent|].Data?
            && Length(r.sent[|o.sent|].datagram) == o.mtu && |Bytes(r.sent[|o.sent|])| == o.mtu + 4
  {
    var p := Sequenced(o.mtu - 7);
    var d := Datagram(0x80, o.sendSeq, [p], now);
    LengthOfOne(p);
    DatagramLength(d);
    assert AddEncapsulated(o, p, true, now).sent == o.sent + [Data(d)];
  }

  // ---------- whole runs ----------

  /** Nothing has been sent and nothing waits. */
  ghost predicate Quiet(o: Outbound) {
    && o.sendQueue.packets == [] && o.packetToSend == [] && o.recovery == map[]
    && forall m | m in o.sent :: !m.Data?
  }

  lemma {:induction false} MovesQuiet(o: Outbound, ms: seq<Move>)
    requires Quiet(o)
    requires forall m | m in ms :: Reaction(m) && !m.Enqueue?
    ensures Quiet(ApplyAll(o, ms))
    decreases |ms|
  {
    if ms != [] {
      assert Reaction(ms[0]);
      MovesQuiet(Apply(o, ms[0]), ms[1..]);
    }
  }

  /** The host offers packets only once the offline handshake is done. */
  predicate OffersOnline(s: Session, inputs: seq<Input>)
    decreases |inputs|
  {
    inputs == [] ||
    (&& (inputs[0].Offer? ==> Online(s.host.app.phase))
     && OffersOnline(Step(s, inputs[0]), inputs[1..]))
  }

  ghost predicate Bounded(s: Session) {
    && (!Online(s.host.app.phase) ==> Quiet(s.host.out))
    && (Online(s.host.app.phase) && s.host.out.mtu >= 103 ==> WithinMtu(s.host.out))
  }

  lemma StepBounded(s: Session, i: Input)
    requires Bounded(s)
    requires i.Offer? ==> Online(s.host.app.phase)
    ensures Bounded(Step(s, i))
  {
    var ms := StepMoves(s, i);
    var o := s.host.out;
    if !Online(s.host.app.phase) {
      MovesQuiet(o, ms);
    } else {
      StaysOnline(s, i);
      MovesKeepMtu(o, ms);
      if o.mtu >= 103 {
        if i.Offer? {
          ProducedFit(o, i.packet);
        } else {
          forall m | m in ms && m.Enqueue? ensures Fits(m.packet, o.mtu) {
            AnswerFits(m.packet, o.mtu);
          }
        }
        MovesSmall(o, ms);
      }
    }
  }

  lemma {:induction false} MovesKeepMtu(o: Outbound, ms: seq<Move>)
    requires forall m | m in ms :: !m.SetMtu?
    ensures ApplyAll(o, ms).mtu == o.mtu
    decreases |ms|
  {
    if ms != [] {
      assert !ms[0].SetMtu?;
      MovesKeepMtu(Apply(o, ms[0]), ms[1..]);
    }
  }

  lemma {:induction false} RunBounded(s: Session, inputs: seq<Input>)
    requires Bounded(s) && OffersOnline(s, inputs)
    ensures Bounded(Run(s, inputs))
    decreases |inputs|
  {
    if inputs != [] {
      StepBounded(s, inputs[0]);
      RunBounded(Step(s, inputs[0]), inputs[1..]);
    }
  }

  /** In every run, once the packet size is settled at 103 or more, every datagram ever sent,
      whether batched, split, an answer or a resend, encodes to at most that many bytes and the surplus
      of its packets; before it is settled no datagram is sent. */
  lemma {:induction false} MtuBound(config: Config, inputs: seq<Input>)
    requires OffersOnline(FreshSession(config), inputs)
    ensures var s := Run(FreshSession(config), inputs);
            var o := s.host.out;
            && (Online(s.host.app.phase) && o.mtu >= 103 ==>
                  forall m | m in o.sent && m.Data? ::
                    && |Bytes(m)| <= o.mtu + Extra(m.datagram.packets)
                    && ((forall p | p in m.datagram.packets :: Surplus(p) == 0) ==> |Bytes(m)| <= o.mtu))
            && (!Online(s.host.app.phase) ==> forall m | m in o.sent :: !m.Data?)
  {
    RunBounded(FreshSession(config), inputs);
    var s := Run(FreshSession(config), inputs);
    var o := s.host.out;
    if Online(s.host.app.phase) && o.mtu >= 103 {
      forall m | m in o.sent && m.Data?
        ensures |Bytes(m)| <= o.mtu + Extra(m.datagram.packets)
        ensures (forall p | p in m.datagram.packets :: Surplus(p) == 0) ==> Extra(m.datagram.packets) == 0
      {
        assert Small(m.datagram, o.mtu);
        EncodedLength(m.datagram);
        if forall p | p in m.datagram.packets :: Surplus(p) == 0 { ExtraNone(m.datagram.packets); }
      }
    }
  }
}
