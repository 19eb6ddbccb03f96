/** Every operation of the session acts on the sending side as a sequence of a few moves. An
    invariant of the moves is therefore an invariant of whole runs. */
module Moves {
  import opened Collections
  import opened Binary
  import opened Packets
  import opened SessionModel
  import Acknowledge

  datatype Move =
    | Count(messageIndex: nat, channelIndex: Channels, splitIdCounter: nat)
    | Enqueue(packet: Packet, immediate: bool, now: real)
    | Flush(now: real)
    | SendHead(now: real)
    | Postpone(number: nat)
    | Forget(number: nat)
    | Repeat(number: nat, now: real)
    | Tell(message: Message)
    | SetMtu(mtu: nat)

  function ForgetOne(o: Outbound, k: nat): Outbound {
    o.(recovery := o.recovery - {k}, acked := o.acked + {k},
       retired := if k in o.recovery then o.retired[k := o.recovery[k]] else o.retired)
  }

  function Apply(o: Outbound, m: Move): Outbound {
    match m
    case Count(mi, ci, sid) => o.(messageIndex := mi, channelIndex := ci, splitIdCounter := sid)
    case Enqueue(p, imm, now) => AddToQueue(o, p, imm, now)
    case Flush(now) => FlushSendQueue(o, now)
    case SendHead(now) =>
      if o.packetToSend == [] then o
      else SendDatagram(o.(packetToSend := o.packetToSend[1..]), o.packetToSend[0], now)
    case Postpone(k) => if k in o.recovery then Reschedule(o, k) else o
    case Forget(k) => ForgetOne(o, k)
    case Repeat(k, now) => ResendOne(o, k, now)
    case Tell(msg) => if msg.Data? then o else o.(sent := o.sent + [msg])
    case SetMtu(mtu) => o.(mtu := mtu)
  }

  function ApplyAll(o: Outbound, ms: seq<Move>): Outbound
    decreases |ms|
  {
    if ms == [] then o else ApplyAll(Apply(o, ms[0]), ms[1..])
  }

  lemma {:induction false} ApplyAppend(o: Outbound, ms: seq<Move>, ns: seq<Move>)
    ensures ApplyAll(o, ms + ns) == ApplyAll(ApplyAll(o, ms), ns)
    decreases |ms|
  {
    if ms == [] {
      assert [] + ns == ns;
    } else {
      ApplyAppend(Apply(o, ms[0]), ms[1..], ns);
      assert (ms + ns)[1..] == ms[1..] + ns && (ms + ns)[0] == ms[0];
    }
  }

  lemma {:induction false} ApplyFirst(o: Outbound, m: Move, ms: seq<Move>)
    ensures ApplyAll(o, [m] + ms) == ApplyAll(Apply(o, m), ms)
  {
    assert ([m] + ms)[1..] == ms;
  }

  lemma {:induction false} ApplyOne(o: Outbound, m: Move)
    ensures ApplyAll(o, [m]) == Apply(o, m)
  {
    ApplyFirst(o, m, []);
    assert [m] + [] == [m];
  }

  // ---------- the kinds of moves an operation makes ----------

  /** Moves of the periodic pass and of acknowledgements: nothing is enqueued, no counter is set. */
  predicate Housekeeping(m: Move) {
    m.Flush? || m.SendHead? || m.Postpone? || m.Forget? || m.Repeat? || (m.Tell? && !m.message.Data?)
  }

  /** Answers to connection packets: unreliable, unsplit, a pong or the server's handshake. */
  predicate Answer(p: Packet) {
    && p == BLANK.(buffer := p.buffer) && 0 < |p.buffer| <= 96
    && (p.buffer[0] == 0x03 || p.buffer[0] == 0x10)
  }

  /** Moves made while handling what the socket delivers. */
  predicate Reaction(m: Move) {
    Housekeeping(m) || m.SetMtu? || (m.Enqueue? && Answer(m.packet))
  }

  /** Moves of a session whose packet size is settled. */
  predicate Settled(m: Move) {
    Reaction(m) && !m.SetMtu?
  }

  /** Moves of the periodic pass proper. */
  predicate Sending(m: Move) {
    m.Flush? || m.SendHead? || m.Postpone?
  }

  // ---------- the periodic pass ----------

  lemma {:induction false} DrainMoves(o: Outbound, limit: nat, now: real) returns (ms: seq<Move>)
    ensures Drain(o, limit, now) == ApplyAll(o, ms)
    ensures forall m | m in ms :: Sending(m)
    decreases limit
  {
    if o.packetToSend == [] || limit == 0 {
      ms := [];
    } else {
      var first := SendHead(now);
      var rest := DrainMoves(Apply(o, first), limit - 1, now);
      ApplyFirst(o, first, rest);
      ms := [first] + rest;
    }
  }

  lemma {:induction false} ExpireMoves(o: Outbound, keys: set<nat>, now: real) returns (ms: seq<Move>)
    ensures Expire(o, keys, now) == ApplyAll(o, ms)
    ensures forall m | m in ms :: Sending(m)
    decreases keys
  {
    if keys == {} {
      ms := [];
    } else {
      var k := MinKey(keys);
      if k in o.recovery && o.recovery[k].sendTime < now - RESEND_DELAY {
        var first := Postpone(k);
        var rest := ExpireMoves(Apply(o, first), keys - {k}, now);
        ApplyFirst(o, first, rest);
        ms := [first] + rest;
      } else {
        ms := ExpireMoves(o, keys - {k}, now);
      }
    }
  }

  lemma {:induction false} ResendMoves(o: Outbound, now: real) returns (ms: seq<Move>)
    ensures Resend(o, now) == ApplyAll(o, ms)
    ensures forall m | m in ms :: Sending(m)
  {
    var a := DrainMoves(o, DRAIN_LIMIT, now);
    var o1 := ApplyAll(o, a);
    var b := ExpireMoves(o1, o1.recovery.Keys, now);
    var o2 := ApplyAll(o1, b);
    var c := DrainMoves(o2, DRAIN_LIMIT, now);
    ApplyAppend(o, a, b);
    ApplyAppend(o, a + b, c);
    ms := a + b + c;
  }

  lemma {:induction false} SendAcksMoves(o: Outbound, acks: set<nat>, nacks: set<nat>) returns (ms: seq<Move>)
    ensures SendAcks(o, acks, nacks) == ApplyAll(o, ms)
    ensures forall m | m in ms :: m == Tell(Ack(acks)) || m == Tell(Nack(nacks))
  {
    var a := if acks == {} then [] else [Tell(Ack(acks))];
    var b := if nacks == {} then [] else [Tell(Nack(nacks))];
    if acks != {} { ApplyOne(o, a[0]); }
    var o1 := ApplyAll(o, a);
    if nacks != {} { ApplyOne(o1, b[0]); }
    ApplyAppend(o, a, b);
    ms := a + b;
  }

  lemma {:induction false} UpdateMoves(o: Outbound, w: Window, now: real) returns (ms: seq<Move>)
    ensures UpdateOut(o, w, now) == ApplyAll(o, ms)
    ensures forall m | m in ms :: Sending(m) || m == Tell(Ack(w.ackQueue)) || m == Tell(Nack(w.nackQueue))
  {
    var a := SendAcksMoves(o, w.ackQueue, w.nackQueue);
    var o1 := ApplyAll(o, a);
    var b := ResendMoves(o1, now);
    var o2 := ApplyAll(o1, b);
    ApplyOne(o2, Flush(now));
    ApplyAppend(o, a, b);
    ApplyAppend(o, a + b, [Flush(now)]);
    ms := a + b + [Flush(now)];
  }

  // ---------- acknowledgements ----------

  lemma {:induction false} AckMoves(o: Outbound, numbers: seq<nat>) returns (ms: seq<Move>)
    ensures HandleAck(o, numbers) == ApplyAll(o, ms)
    ensures forall m | m in ms :: m.Forget? && m.number in numbers
    decreases |numbers|
  {
    if numbers == [] {
      ms := [];
    } else {
      var first := Forget(numbers[0]);
      var rest := AckMoves(Apply(o, first), numbers[1..]);
      ApplyFirst(o, first, rest);
      ms := [first] + rest;
    }
  }

  lemma {:induction false} NackMoves(o: Outbound, numbers: seq<nat>, now: real) returns (ms: seq<Move>)
    ensures HandleNack(o, numbers, now) == ApplyAll(o, ms)
    ensures forall m | m in ms :: m.Repeat?
    decreases |numbers|
  {
    if numbers == [] {
      ms := [];
    } else {
      var first := Repeat(numbers[0], now);
      var rest := NackMoves(Apply(o, first), numbers[1..], now);
      ApplyFirst(o, first, rest);
      ms := [first] + rest;
    }
  }

  // ---------- routing ----------

  lemma {:induction false} AddressesLength(i: nat)
    ensures |SystemAddresses(i)| == 7 * i
  {
    if i > 0 { AddressesLength(i - 1); }
  }

  lemma HandshakeLength(e: Endpoint, ping: nat)
    ensures |ServerHandshake(e, ping)| == 96
  {
    AddressesLength(10);
  }

  lemma {:induction false} InternalMoves(h: Host, config: Config, payload: seq<byte>, now: real) returns (ms: seq<Move>)
    requires payload != []
    ensures HandleInternal(h, config, payload, now).out == ApplyAll(h.out, ms)
    ensures forall m | m in ms :: m.Enqueue? && Answer(m.packet)
  {
    var id := payload[0];
    ms := [];
    if h.app.phase == Connecting2 && id == 0x09 {
      if |payload| >= 17 {
        var reply := ServerHandshake(config.endpoint, ReadLong(payload[9..17]));
        HandshakeLength(config.endpoint, ReadLong(payload[9..17]));
        ms := [Enqueue(BLANK.(buffer := reply), true, now)];
        ApplyOne(h.out, ms[0]);
      }
    } else if !(h.app.phase == Connecting2 && id == 0x13) && id == 0x00 && |payload| >= 9 {
      ms := [Enqueue(BLANK.(buffer := [0x03] + WriteLong(ReadLong(payload[1..9]))), false, now)];
      ApplyOne(h.out, ms[0]);
    }
  }

  lemma {:induction false} RouteMoves(h: Host, config: Config, p: Packet, now: real) returns (ms: seq<Move>)
    ensures Route(h, config, p, now).out == ApplyAll(h.out, ms)
    ensures forall m | m in ms :: m.Enqueue? && Answer(m.packet)
  {
    if !p.hasSplit {
      ms := RouteWholeMoves(h, config, p, now);
    } else if h.app.phase != Connected {
      ms := [];
    } else {
      var (app, whole) := HandleSplit(h.app, p);
      if whole.Some? {
        ms := RouteWholeMoves(h.(app := app), config, whole.value, now);
      } else {
        ms := [];
      }
    }
  }

  lemma {:induction false} RouteWholeMoves(h: Host, config: Config, p: Packet, now: real) returns (ms: seq<Move>)
    ensures RouteWhole(h, config, p, now).out == ApplyAll(h.out, ms)
    ensures forall m | m in ms :: m.Enqueue? && Answer(m.packet)
  {
    if p.buffer != [] && p.buffer[0] < 0x80 {
      ms := InternalMoves(h, config, p.buffer, now);
    } else {
      ms := [];
    }
  }

  lemma {:induction false} RouteAllMoves(h: Host, config: Config, ps: seq<Packet>, now: real) returns (ms: seq<Move>)
    ensures RouteAll(h, config, ps, now).out == ApplyAll(h.out, ms)
    ensures forall m | m in ms :: m.Enqueue? && Answer(m.packet)
    decreases |ps|
  {
    if ps == [] {
      ms := [];
    } else {
      var a := RouteMoves(h, config, ps[0], now);
      var h1 := Route(h, config, ps[0], now);
      var b := RouteAllMoves(h1, config, ps[1..], now);
      ApplyAppend(h.out, a, b);
      ms := a + b;
    }
  }

  // ---------- everything the socket delivers ----------

  /** A reply of the offline handshake. */
  predicate Greeting(m: Message) {
    m.Reply? && m.raw != [] && m.raw[0] < 0x80
  }

  /** The bytes are an ACK that names `k`. */
  predicate Names(raw: seq<byte>, k: nat) {
    && raw != [] && raw[0] == Acknowledge.ID_ACK
    && Acknowledge.DecodeAck(raw).Some? && k in Acknowledge.DecodeAck(raw).value
  }

  lemma {:induction false} OfflineMoves(h: Host, config: Config, buffer: seq<byte>) returns (ms: seq<Move>)
    requires buffer != []
    ensures HandleOffline(h, config, buffer).out == ApplyAll(h.out, ms)
    ensures forall m | m in ms :: m.SetMtu? || (m.Tell? && Greeting(m.message))
  {
    var h1 := HandleOffline(h, config, buffer);
    if h1 == h {
      ms := [];
    } else {
      var reply := h1.out.sent[|h1.out.sent| - 1];
      ms := [SetMtu(h1.out.mtu), Tell(reply)];
      ApplyFirst(h.out, ms[0], [ms[1]]);
      ApplyOne(Apply(h.out, ms[0]), ms[1]);
      assert ms == [ms[0]] + [ms[1]];
    }
  }

  /** Whatever bytes arrive, the sending side reacts by moves that enqueue answers at most, and
      that leave the packet size alone once the handshake is past its second request. */
  lemma {:induction false} RawMoves(s: Session, buffer: seq<byte>, now: real) returns (ms: seq<Move>)
    ensures HandleRaw(s, buffer, now).host.out == ApplyAll(s.host.out, ms)
    ensures forall m | m in ms :: Reaction(m)
    ensures Online(s.host.app.phase) ==> forall m | m in ms :: Settled(m)
    ensures !Online(s.host.app.phase) ==> forall m | m in ms :: !m.Enqueue?
    ensures forall m | m in ms && m.Tell? :: Greeting(m.message)
    ensures forall m | m in ms && m.Forget? :: Names(buffer, m.number)
  {
    ms := [];
    if buffer != [] {
      var id := buffer[0];
      var h := s.host.(app := s.host.app.(active := true, lastUpdate := now));
      if Online(h.app.phase) {
        if 0x80 <= id <= 0x8f {
          var d := DecodeDatagram(buffer);
          if d.Some? && Admits(s.window, d.value.seqNumber) {
            var passed := AcceptPackets(AcceptNumber(s.window, d.value.seqNumber), d.value.packets);
            ms := RouteAllMoves(h, s.config, passed.packets, now);
          }
        } else if id == Acknowledge.ID_ACK {
          var ns := Acknowledge.DecodeAck(buffer);
          if ns.Some? { ms := AckMoves(h.out, ns.value); }
        } else if id == Acknowledge.ID_NACK {
          var ns := Acknowledge.DecodeAck(buffer);
          if ns.Some? { ms := NackMoves(h.out, ns.value, now); }
        } else if h.app.phase == Connecting2 && id == 0x07 {
          ms := [Tell(Reply(OpenReply2(s.config, h.out.mtu)))];
          ApplyOne(h.out, ms[0]);
        }
      } else if 0x00 < id < 0x80 {
        ms := OfflineMoves(h, s.config, buffer);
      }
    }
  }
}
