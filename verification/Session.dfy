/** The session as the object the server keeps. Its fields are grouped in the three records of
    SessionModel; every method updates them in place, with the source's loops, and is proved to
    take the records where the model's functions take them, over whole runs too. */
module Sessions {
  import opened Collections
  import opened Binary
  import opened Packets
  import opened Acknowledge
  import M = SessionModel
  import R = Runs

  class Session {
    const config: M.Config
    var out: M.Outbound
    var window: M.Window
    var app: M.App

    ghost function State(): M.Session
      reads this
    {
      M.Session(config, window, M.Host(app, out))
    }

    constructor (config: M.Config)
      ensures State() == M.FreshSession(config)
    {
      this.config := config;
      out, window, app := M.FreshOutbound(548), M.FRESH_WINDOW, M.FreshApp(M.Unconnected);
    }

    /** Hands bytes to the socket; they are the encoding of the message recorded as sent. */
    method SendBytes(data: seq<byte>, m: M.Message)
      requires data == M.Bytes(m)
      modifies this`out
      ensures out == old(out).(sent := old(out).sent + [m])
    {
      out := out.(sent := out.sent + [m]);
    }

    // ---------- sending ----------

    method SendDatagram(d: Datagram, now: real)
      modifies this`out
      ensures out == M.SendDatagram(old(out), d, now)
    {
      var stamped := d.(sendTime := now);
      var raw := PrintDatagram(stamped);
      out := out.(recovery := out.recovery[d.seqNumber := stamped], log := out.log[d.seqNumber := d.packets]);
      SendBytes(raw, M.Data(stamped));
    }

    method FlushSendQueue(now: real)
      modifies this`out
      ensures out == M.FlushSendQueue(old(out), now)
    {
      if out.sendQueue.packets == [] { return; }
      var d := out.sendQueue.(seqNumber := out.sendSeq, id := 0x84);
      out := out.(sendSeq := out.sendSeq + 1);
      SendDatagram(d, now);
      out := out.(sendQueue := M.EMPTY_QUEUE);
    }

    method AddToQueue(p: Packet, immediate: bool, now: real)
      modifies this`out
      ensures out == M.AddToQueue(old(out), p, immediate, now)
    {
      out := out.(enqueued := out.enqueued + [p]);
      if immediate {
        var d := Datagram(0x80, out.sendSeq, [p], 0.0);
        out := out.(sendSeq := out.sendSeq + 1);
        SendDatagram(d, now);
        return;
      }
      var length := MeasureDatagram(out.sendQueue);
      if length + TotalLength(p) > out.mtu {
        FlushSendQueue(now);
      }
      out := out.(sendQueue := out.sendQueue.(packets := out.sendQueue.packets + [p]));
    }

    method AddEncapsulated(packet: Packet, immediate: bool, now: real)
      modifies this`out
      ensures out == M.AddEncapsulated(old(out), packet, immediate, now)
    {
      var p := packet;
      if M.Numbered(p.reliability) {
        p := p.(messageIndex := Some(out.messageIndex));
        out := out.(messageIndex := out.messageIndex + 1);
        if p.reliability == 3 {
          var ch := p.orderChannel.GetOr(0);
          var slot := ch % 32;
          p := p.(orderChannel := Some(ch), orderIndex := Some(out.channelIndex[slot]));
          out := out.(channelIndex := out.channelIndex[slot := out.channelIndex[slot] + 1]);
        }
      }
      if TotalLength(p) + 4 > out.mtu {
        SendSplit(p, now);
      } else {
        AddToQueue(p, immediate, now);
      }
    }

    method SendSplit(p: Packet, now: real)
      modifies this`out
      ensures out == M.SendSplit(old(out), p, now)
    {
      var chunk := M.ChunkSize(out.mtu);
      var count := M.ChunkCount(|p.buffer|, chunk);
      out := out.(splitIdCounter := (out.splitIdCounter + 1) % U16);
      var sid := out.splitIdCounter;
      ghost var whole := M.SendParts(out, p, sid, count, chunk, 0, now);
      for i := 0 to count
        invariant whole == M.SendParts(out, p, sid, count, chunk, i, now)
      {
        var index := None;
        if i == 0 {
          index := p.messageIndex;
        } else if M.Numbered(p.reliability) {
          index := Some(out.messageIndex);
          out := out.(messageIndex := out.messageIndex + 1);
        }
        AddToQueue(M.Part(p, sid, count, chunk, i, index), true, now);
      }
    }

    // ---------- the periodic pass ----------

    method SendAck(numbers: set<nat>)
      modifies this`out
      ensures out == old(out).(sent := old(out).sent + [M.Ack(numbers)])
    {
      var raw := PrintAck(ID_ACK, Ascending(numbers));
      SendBytes(raw, M.Ack(numbers));
    }

    method SendNack(numbers: set<nat>)
      modifies this`out
      ensures out == old(out).(sent := old(out).sent + [M.Nack(numbers)])
    {
      var raw := PrintAck(ID_NACK, Ascending(numbers));
      SendBytes(raw, M.Nack(numbers));
    }

    method FlushAcks()
      modifies this`window, this`out
      ensures State() == M.FlushAcks(old(State()))
    {
      if window.ackQueue != {} {
        SendAck(window.ackQueue);
        window := window.(ackQueue := {});
      }
      if window.nackQueue != {} {
        SendNack(window.nackQueue);
        window := window.(nackQueue := {});
      }
    }

    method Drain(now: real)
      modifies this`out
      ensures out == M.Drain(old(out), M.DRAIN_LIMIT, now)
    {
      var limit := M.DRAIN_LIMIT;
      ghost var whole := M.Drain(out, limit, now);
      while out.packetToSend != [] && limit > 0
        invariant whole == M.Drain(out, limit, now)
        decreases limit
      {
        var d := out.packetToSend[0];
        out := out.(packetToSend := out.packetToSend[1..]);
        SendDatagram(d, now);
        limit := limit - 1;
      }
    }

    method Expire(now: real)
      modifies this`out
      ensures out == M.Expire(old(out), old(out).recovery.Keys, now)
    {
      var keys := out.recovery.Keys;
      ghost var whole := M.Expire(out, keys, now);
      while keys != {}
        invariant keys <= out.recovery.Keys
        invariant whole == M.Expire(out, keys, now)
        decreases keys
      {
        var k := MinKey(keys);
        if out.recovery[k].sendTime < now - M.RESEND_DELAY {
          var d := out.recovery[k].(seqNumber := out.sendSeq);
          out := out.(sendSeq := out.sendSeq + 1, packetToSend := out.packetToSend + [d], recovery := out.recovery - {k});
        }
        keys := keys - {k};
      }
    }

    method Prune()
      modifies this`window
      ensures window == M.Prune(old(window))
    {
      ghost var before := window;
      while window.received != {}
        invariant window == before.(received := window.received)
        invariant window.received <= before.received
        invariant forall k | k in before.received && k >= before.windowStart :: k in window.received
        decreases window.received
      {
        var k := MinKey(window.received);
        if k >= window.windowStart { break; }
        window := window.(received := window.received - {k});
      }
      assert window.received == set k | k in before.received && k >= before.windowStart;
    }

    method Disconnect()
      modifies this`app
      ensures app == M.Disconnect(old(app))
    {
      if app.closed { return; }
      app := app.(closed := true, events := app.events + [M.Closed]);
    }

    method Update(now: real)
      modifies this`app, this`window, this`out
      ensures State() == M.Update(old(State()), now)
    {
      if !app.active && app.lastUpdate > 0.0 && app.lastUpdate + M.TIMEOUT < now {
        Disconnect();
        return;
      }
      app := app.(active := false);
      FlushAcks();
      Drain(now);
      Expire(now);
      Drain(now);
      Prune();
      FlushSendQueue(now);
    }

    // ---------- receiving ----------

    method HandleAck(numbers: seq<nat>)
      modifies this`out
      ensures out == M.HandleAck(old(out), numbers)
    {
      ghost var whole := M.HandleAck(out, numbers);
      for i := 0 to |numbers|
        invariant whole == M.HandleAck(out, numbers[i..])
      {
        var k := numbers[i];
        assert numbers[i..][1..] == numbers[i + 1..];
        if k in out.recovery {
          out := out.(retired := out.retired[k := out.recovery[k]]);
        }
        out := out.(recovery := out.recovery - {k}, acked := out.acked + {k});
      }
    }

    method HandleNack(numbers: seq<nat>, now: real)
      modifies this`out
      ensures out == M.HandleNack(old(out), numbers, now)
    {
      ghost var whole := M.HandleNack(out, numbers, now);
      for i := 0 to |numbers|
        invariant whole == M.HandleNack(out, numbers[i..], now)
      {
        var k := numbers[i];
        assert numbers[i..][1..] == numbers[i + 1..];
        if k in out.recovery {
          var d := out.recovery[k].(seqNumber := out.sendSeq);
          out := out.(sendSeq := out.sendSeq + 1, recovery := out.recovery - {k});
          SendDatagram(d, now);
        }
      }
    }

    /** The bookkeeping of an admitted datagram number. */
    method AcceptNumber(number: nat)
      modifies this`window
      ensures window == M.AcceptNumber(old(window), number)
    {
      var diff := number - window.lastSeq;
      window := window.(nackQueue := window.nackQueue - {number}, ackQueue := window.ackQueue + {number},
                        received := window.received + {number}, accepted := window.accepted + [number]);
      NackMissing(number);
      if diff >= 1 {
        window := window.(lastSeq := number, windowStart := window.windowStart + diff,
                          windowEnd := window.windowEnd + diff);
      }
    }

    method NackMissing(number: nat)
      modifies this`window
      ensures var w := old(window);
              var missing := M.Missing(w.received, w.lastSeq + 1, number);
              window == w.(nackQueue := w.nackQueue + (set i | i in missing), nacked := w.nacked + missing)
    {
      var i := window.lastSeq + 1;
      ghost var before := window;
      ghost var missing := M.Missing(before.received, i, number);
      ghost var found: seq<nat> := [];
      while i < number
        invariant 0 <= i
        invariant found + M.Missing(before.received, i, number) == missing
        invariant window == before.(nackQueue := before.nackQueue + (set k | k in found), nacked := before.nacked + found)
      {
        if i !in window.received {
          window := window.(nackQueue := window.nackQueue + {i}, nacked := window.nacked + [i]);
          assert (set k | k in found + [i]) == (set k | k in found) + {i};
          Append(found, [i], M.Missing(before.received, i + 1, number));
          Append(before.nacked, found, [i]);
          found := found + [i];
        }
        i := i + 1;
      }
      assert found == missing;
    }

    method HandleDatagram(d: Datagram, now: real)
      modifies this
      ensures State() == M.HandleDatagram(old(State()), d, now)
    {
      if !M.Admits(window, d.seqNumber) { return; }
      AcceptNumber(d.seqNumber);
      HandlePackets(d.packets, now);
    }

    method HandlePackets(ps: seq<Packet>, now: real)
      modifies this
      ensures var passed := M.AcceptPackets(old(window), ps);
              && window == passed.window
              && M.Host(app, out) == M.RouteAll(M.Host(old(app), old(out)), config, passed.packets, now)
    {
      ghost var whole, h0 := M.AcceptPackets(window, ps), M.Host(app, out);
      ghost var routed: seq<Packet> := [];
      for i := 0 to |ps|
        invariant whole.window == M.AcceptPackets(window, ps[i..]).window
        invariant whole.packets == routed + M.AcceptPackets(window, ps[i..]).packets
        invariant M.Host(app, out) == M.RouteAll(h0, config, routed, now)
      {
        assert ps[i..][1..] == ps[i + 1..];
        ghost var step := M.AcceptPacket(window, ps[i]);
        Append(routed, step.packets, M.AcceptPackets(step.window, ps[i + 1..]).packets);
        HandleEncapsulated(ps[i], now);
        M.RouteAllAppend(h0, config, routed, step.packets, now);
        routed := routed + step.packets;
      }
      assert ps[|ps|..] == [] && routed + [] == routed;
    }

    method HandleEncapsulated(p: Packet, now: real)
      modifies this
      ensures var passed := M.AcceptPacket(old(window), p);
              && window == passed.window
              && M.Host(app, out) == M.RouteAll(M.Host(old(app), old(out)), config, passed.packets, now)
    {
      ghost var h0 := M.Host(app, out);
      if p.messageIndex.None? {
        HandleEncapsulatedRoute(p, now);
        M.RouteAllFirst(h0, config, p, [], now);
        return;
      }
      var idx := p.messageIndex.value;
      if idx < window.reliableStart || idx > window.reliableEnd {
        if idx > window.reliableEnd { window := window.(overrun := window.overrun + {idx}); }
        return;
      }
      if idx - window.lastReliable == 1 {
        window := M.Advance(window, p);
        ghost var next := M.DrainHeld(window);
        HandleEncapsulatedRoute(p, now);
        DrainHeld(now);
        M.RouteAllFirst(h0, config, p, next.packets, now);
      } else {
        window := window.(held := window.held[idx := p]);
      }
    }

    method DrainHeld(now: real)
      modifies this
      ensures var passed := M.DrainHeld(old(window));
              && window == passed.window
              && M.Host(app, out) == M.RouteAll(M.Host(old(app), old(out)), config, passed.packets, now)
    {
      ghost var whole, h0 := M.DrainHeld(window), M.Host(app, out);
      ghost var routed: seq<Packet> := [];
      while window.held != map[]
        invariant whole.window == M.DrainHeld(window).window
        invariant whole.packets == routed + M.DrainHeld(window).packets
        invariant M.Host(app, out) == M.RouteAll(h0, config, routed, now)
        decreases window.held.Keys
      {
        assert window.held.Keys != {};
        var k := MinKey(window.held.Keys);
        if k - window.lastReliable != 1 { break; }
        var p := window.held[k];
        window := M.Advance(window.(held := window.held - {k}), p);
        Append(routed, [p], M.DrainHeld(window).packets);
        HandleEncapsulatedRoute(p, now);
        M.RouteAllFirst(M.RouteAll(h0, config, routed, now), config, p, [], now);
        M.RouteAllAppend(h0, config, routed, [p], now);
        routed := routed + [p];
      }
      assert M.DrainHeld(window).packets == [] && routed + [] == routed;
    }

    method HandleEncapsulatedRoute(p: Packet, now: real)
      modifies this`app, this`out
      ensures M.Host(app, out) == M.Route(M.Host(old(app), old(out)), config, p, now)
    {
      if p.hasSplit {
        if app.phase != M.Connected { return; }
        var whole := HandleSplit(p);
        if whole.Some? { RouteWhole(whole.value, now); }
      } else {
        RouteWhole(p, now);
      }
    }

    /** Stores a part; None if a new reassembly is refused. */
    method StorePart(sid: nat, index: nat, p: Packet) returns (filled: Option<map<nat, Packet>>)
      modifies this`app
      ensures var stored := M.StorePart(old(app).splits, sid, index, p);
              && app == old(app).(splits := stored.splits)
              && filled == (if stored.Refused? then None else Some(stored.parts))
    {
      var parts := if sid in app.splits then app.splits[sid] else map[];
      app := app.(splits := app.splits[sid := parts]);
      if parts == map[] && |app.splits| > M.MAX_SPLIT_COUNT { return None; }
      parts := parts[index := p];
      app := app.(splits := app.splits[sid := parts]);
      filled := Some(parts);
    }

    method HandleSplit(p: Packet) returns (whole: Option<Packet>)
      modifies this`app
      ensures (app, whole) == M.HandleSplit(old(app), p)
    {
      if p.splitCount.None? || p.splitIndex.None? || p.splitId.None? { return None; }
      var count, index, sid := p.splitCount.value, p.splitIndex.value, p.splitId.value;
      if count >= M.MAX_SPLIT_SIZE || index >= M.MAX_SPLIT_SIZE || index < 0 { return None; }
      var parts := StorePart(sid, index, p);
      if parts.None? || |parts.value| != count { return None; }
      var buffer := JoinParts(parts.value, count);
      app := app.(splits := app.splits - {sid});
      if buffer.None? { return None; }
      whole := Some(BLANK.(buffer := buffer.value));
    }

    method JoinParts(parts: map<nat, Packet>, count: int) returns (r: Option<seq<byte>>)
      ensures r == M.Join(parts, 0, count)
    {
      var buffer: seq<byte> := [];
      var i := 0;
      ghost var whole := M.Join(parts, 0, count);
      assert whole.Some? ==> buffer + whole.value == whole.value;
      while i < count
        invariant 0 <= i
        invariant whole == match M.Join(parts, i, count)
                           case None => None
                           case Some(rest) => Some(buffer + rest)
      {
        if i !in parts { return None; }
        ghost var rest := M.Join(parts, i + 1, count);
        if rest.Some? { Append(buffer, parts[i].buffer, rest.value); }
        buffer := buffer + parts[i].buffer;
        i := i + 1;
      }
      assert buffer + [] == buffer;
      r := Some(buffer);
    }

    method RouteWhole(p: Packet, now: real)
      modifies this`app, this`out
      ensures M.Host(app, out) == M.RouteWhole(M.Host(old(app), old(out)), config, p, now)
    {
      if p.buffer == [] { return; }
      if p.buffer[0] < 0x80 {
        HandleInternal(p.buffer, now);
      } else if app.phase == M.Connected {
        app := app.(events := app.events + [M.Delivered(p)]);
      }
    }

    method HandleInternal(payload: seq<byte>, now: real)
      requires payload != []
      modifies this`app, this`out
      ensures M.Host(app, out) == M.HandleInternal(M.Host(old(app), old(out)), config, payload, now)
    {
      var id := payload[0];
      if app.phase == M.Connecting2 {
        if id == 0x09 {
          if |payload| < 17 { return; }
          var reply := M.ServerHandshake(config.endpoint, ReadLong(payload[9..17]));
          AddToQueue(BLANK.(buffer := reply), true, now);
          return;
        }
        if id == 0x13 {
          app := app.(phase := M.Connected, temporal := false, events := app.events + [M.Opened(app.clientId)]);
          return;
        }
      }
      if id == 0x15 {
        Disconnect();
      } else if id == 0x00 {
        if |payload| < 9 { return; }
        var reply := [0x03] + WriteLong(ReadLong(payload[1..9]));
        AddToQueue(BLANK.(buffer := reply), false, now);
      }
    }

    // ---------- the socket side ----------

    method HandleOffline(buffer: seq<byte>)
      requires buffer != []
      modifies this`app, this`out
      ensures M.Host(app, out) == M.HandleOffline(M.Host(old(app), old(out)), config, buffer)
    {
      var id := buffer[0];
      if id == 0x05 {
        if |buffer| < 18 || buffer[1..17] != M.MAGIC { return; }
        out := out.(mtu := |buffer| % U16);
        var reply := M.OpenReply1(config.serverId, out.mtu);
        SendBytes(reply, M.Reply(reply));
        app := app.(phase := M.Connecting1);
      } else if app.phase == M.Connecting1 && id == 0x07 {
        if |buffer| < 34 || buffer[1..17] != M.MAGIC || buffer[17] != 4 { return; }
        app := app.(clientId := ReadLong(buffer[26..34]));
        out := out.(mtu := M.OfferedMtu(ReadShort(buffer[24..26])));
        var reply := M.OpenReply2(config, out.mtu);
        SendBytes(reply, M.Reply(reply));
        app := app.(phase := M.Connecting2);
      }
    }

    method HandleRaw(buffer: seq<byte>, now: real)
      modifies this
      ensures State() == M.HandleRaw(old(State()), buffer, now)
    {
      if buffer == [] { return; }
      app := app.(active := true, lastUpdate := now);
      var id := buffer[0];
      if M.Online(app.phase) {
        if 0x80 <= id <= 0x8f {
          var d := ParseDatagram(buffer);
          if d.Some? { HandleDatagram(d.value, now); }
        } else if id == ID_ACK {
          var numbers := ParseAck(buffer);
          if numbers.Some? { HandleAck(numbers.value); }
        } else if id == ID_NACK {
          var numbers := ParseAck(buffer);
          if numbers.Some? { HandleNack(numbers.value, now); }
        } else if app.phase == M.Connecting2 && id == 0x07 {
          var reply := M.OpenReply2(config, out.mtu);
          SendBytes(reply, M.Reply(reply));
        }
      } else if 0x00 < id < 0x80 {
        HandleOffline(buffer);
      }
    }

    // ---------- runs ----------

    method Perform(i: R.Input)
      modifies this
      ensures State() == R.Step(old(State()), i)
    {
      match i
      case Offer(p, immediate, now) => AddEncapsulated(p, immediate, now);
      case Arrive(raw, now) => HandleRaw(raw, now);
      case Tick(now) => Update(now);
      case AckNow => FlushAcks();
      case HangUp => Disconnect();
    }

    /** Whatever is done to the object, its state is the run of the model: what is proved of runs
        holds of the object. */
    method PerformAll(inputs: seq<R.Input>)
      modifies this
      ensures State() == R.Run(old(State()), inputs)
    {
      ghost var whole := R.Run(State(), inputs);
      for i := 0 to |inputs|
        invariant whole == R.Run(State(), inputs[i..])
      {
        assert inputs[i..][1..] == inputs[i + 1..];
        Perform(inputs[i]);
      }
    }
  }
}
