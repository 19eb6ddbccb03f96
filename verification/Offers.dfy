/** What becomes of an offer: the packets it is cut into, the order index they carry, which over every
    run counts the ordered offers made before on the same channel, and the datagrams that leave at once. */
module Offers {
  import opened Collections
  import opened Binary
  import opened Packets
  import opened SessionModel
  import opened Moves
  import opened Runs

  /** An offer of reliability 3 whose channel is `slot` modulo 32. */
  predicate OrderedOn(i: Input, slot: nat) {
    i.Offer? && i.packet.reliability == 3 && i.packet.orderChannel.GetOr(0) % 32 == slot
  }

  function OffersOn(inputs: seq<Input>, slot: nat): nat {
    if inputs == [] then 0
    else (if OrderedOn(inputs[0], slot) then 1 else 0) + OffersOn(inputs[1..], slot)
  }

  // ---------- one offer ----------

  lemma EnqueueKeepsChannels(o: Outbound, p: Packet, immediate: bool, now: real)
    ensures AddToQueue(o, p, immediate, now).channelIndex == o.channelIndex
  {
  }

  lemma {:induction false} PartsKeepChannels(o: Outbound, p: Packet, sid: nat, count: nat, chunk: nat, i: nat, now: real)
    ensures SendParts(o, p, sid, count, chunk, i, now).channelIndex == o.channelIndex
    decreases count - i
  {
    if i < count {
      var taken := i > 0 && Numbered(p.reliability);
      var index := if i == 0 then p.messageIndex else if taken then Some(o.messageIndex) else None;
      var o1 := if taken then o.(messageIndex := o.messageIndex + 1) else o;
      var part := Part(p, sid, count, chunk, i, index);
      EnqueueKeepsChannels(o1, part, true, now);
      PartsKeepChannels(AddToQueue(o1, part, true, now), p, sid, count, chunk, i + 1, now);
    }
  }

  lemma OfferCounts(o: Outbound, packet: Packet, immediate: bool, now: real, slot: nat)
    requires slot < 32
    ensures var r := AddEncapsulated(o, packet, immediate, now);
            r.channelIndex[slot] ==
              o.channelIndex[slot] + if packet.reliability == 3 && packet.orderChannel.GetOr(0) % 32 == slot then 1 else 0
  {
    var (o1, p) := AssignIndexes(o, packet);
    EnqueueKeepsChannels(o1, p, immediate, now);
    var chunk := ChunkSize(o1.mtu);
    var sid := (o1.splitIdCounter + 1) % U16;
    PartsKeepChannels(o1.(splitIdCounter := sid), p, sid, ChunkCount(|p.buffer|, chunk), chunk, 0, now);
  }

  lemma {:induction false} MovesKeepChannels(o: Outbound, ms: seq<Move>)
    requires forall m | m in ms :: !m.Count?
    ensures ApplyAll(o, ms).channelIndex == o.channelIndex
    decreases |ms|
  {
    if ms != [] {
      assert ms[0] in ms;
      if ms[0].Enqueue? { EnqueueKeepsChannels(o, ms[0].packet, ms[0].immediate, ms[0].now); }
      MovesKeepChannels(Apply(o, ms[0]), ms[1..]);
    }
  }

  lemma StepCounts(s: Session, i: Input, slot: nat)
    requires slot < 32
    ensures Step(s, i).host.out.channelIndex[slot] ==
              s.host.out.channelIndex[slot] + if OrderedOn(i, slot) then 1 else 0
  {
    if i.Offer? {
      OfferCounts(s.host.out, i.packet, i.immediate, i.now, slot);
    } else {
      var ms := StepMoves(s, i);
      MovesKeepChannels(s.host.out, ms);
    }
  }

  lemma {:induction false} RunCounts(s: Session, inputs: seq<Input>, slot: nat)
    requires slot < 32
    ensures Run(s, inputs).host.out.channelIndex[slot] == s.host.out.channelIndex[slot] + OffersOn(inputs, slot)
    decreases |inputs|
  {
    if inputs != [] {
      StepCounts(s, inputs[0], slot);
      RunCounts(Step(s, inputs[0]), inputs[1..], slot);
    }
  }

  // ---------- what an offer enqueues ----------

  /** The packets cut from an offer of reliability 3 share its order index and channel, and take one
      message index each. */
  lemma OrderedPackets(o: Outbound, packet: Packet)
    requires packet.reliability == 3
    ensures var ps, ch := Produced(o, packet), packet.orderChannel.GetOr(0);
            forall i | 0 <= i < |ps| ::
              && ps[i].reliability == 3 && ps[i].orderChannel == Some(ch)
              && ps[i].orderIndex == Some(o.channelIndex[ch % 32])
              && ps[i].messageIndex == Some(o.messageIndex + i)
  {
  }

  /** Over every run of a session: the packets that an ordered offer adds to what was enqueued carry, as
      their order index, the number of ordered offers made before on the same channel modulo 32, and the
      channel asked for, or 0 if none was. */
  lemma {:induction false} OrderIndexCounts(config: Config, before: seq<Input>, packet: Packet, immediate: bool, now: real)
    returns (added: seq<Packet>)
    requires packet.reliability == 3
    ensures var s := Run(FreshSession(config), before);
            var ch := packet.orderChannel.GetOr(0);
            && Step(s, Offer(packet, immediate, now)).host.out.enqueued == s.host.out.enqueued + added
            && (packet.buffer != [] ==> added != [])
            && forall p | p in added :: p.orderChannel == Some(ch) && p.orderIndex == Some(OffersOn(before, ch % 32))
  {
    var s := Run(FreshSession(config), before);
    added := Produced(s.host.out, packet);
    OfferEnqueues(s.host.out, packet, immediate, now);
    OrderedPackets(s.host.out, packet);
    RunCounts(FreshSession(config), before, packet.orderChannel.GetOr(0) % 32);
    var (o1, p) := AssignIndexes(s.host.out, packet);
    if packet.buffer != [] { SomePart(|p.buffer|, ChunkSize(o1.mtu)); }
  }

  lemma SomePart(size: nat, chunk: nat)
    requires chunk > 0 && size > 0
    ensures ChunkCount(size, chunk) > 0
  {
  }

  // ---------- packets that are cut ----------

  lemma CountHolds(size: nat, chunk: nat)
    requires chunk > 0
    ensures var count := ChunkCount(size, chunk);
            count * chunk >= size && (if size == 0 then count == 0 else (count - 1) * chunk < size && count > 0)
  {
  }

  predicate IsSlice(b: seq<byte>, s: seq<byte>, from: int, to: int) {
    0 <= from <= to <= |s| && b == s[from..to]
  }

  lemma Monotone(i: nat, j: nat, chunk: nat)
    requires i <= j
    ensures i * chunk <= j * chunk && (i + 1) * chunk == i * chunk + chunk
  {
  }

  /** Where part `i` ends. */
  function EndOf(size: nat, chunk: nat, count: nat, i: nat): nat {
    if i + 1 == count then size else (i + 1) * chunk
  }

  lemma ChunkIs(buffer: seq<byte>, chunk: nat, i: nat)
    requires chunk > 0 && i < ChunkCount(|buffer|, chunk)
    ensures IsSlice(Chunk(buffer, chunk, i), buffer, i * chunk, EndOf(|buffer|, chunk, ChunkCount(|buffer|, chunk), i))
  {
    var n, count := |buffer|, ChunkCount(|buffer|, chunk);
    CountHolds(n, chunk);
    Monotone(i, count - 1, chunk);
    if i + 1 < count { Monotone(i + 1, count - 1, chunk); } else { Monotone(i, count, chunk); }
  }

  /** Part `i` of `count`, which holds its share of the buffer. */
  ghost predicate IsPart(p: Packet, buffer: seq<byte>, sid: nat, count: nat, chunk: nat, i: nat) {
    && p.hasSplit && p.splitCount == Some(count) && p.splitIndex == Some(i) && p.splitId == Some(sid)
    && IsSlice(p.buffer, buffer, i * chunk, EndOf(|buffer|, chunk, count, i))
  }

  /** The bytes an offer counts for. */
  function Size(packet: Packet): nat {
    3 + |packet.buffer| + (if packet.messageIndex.Some? || packet.reliability in {2, 3, 4, 6, 7} then 3 else 0)
    + (if packet.orderIndex.Some? || packet.reliability == 3 then 4 else 0) + (if packet.hasSplit then 10 else 0)
  }

  /** An offer is sent whole when it and the four bytes in front of a datagram fit the packet size. Else
      it is cut, under the next split identifier, into parts that hold 34 bytes less than the packet size
      each, or 64 if that is no more than 34, the last one what is left. */
  lemma OfferIsCut(o: Outbound, packet: Packet)
    ensures var ps, n, chunk := Produced(o, packet), |packet.buffer|, if o.mtu > 34 then o.mtu - 34 else 64;
            if Size(packet) + 4 <= o.mtu then
              |ps| == 1 && ps[0].buffer == packet.buffer && ps[0].hasSplit == packet.hasSplit
              && ps[0].reliability == packet.reliability
            else
              && (if n == 0 then ps == [] else (|ps| - 1) * chunk < n <= |ps| * chunk)
              && forall i | 0 <= i < |ps| :: IsPart(ps[i], packet.buffer, (o.splitIdCounter + 1) % 65536, |ps|, chunk, i)
  {
    var (o1, p) := AssignIndexes(o, packet);
    SizeIs(o, packet);
    var chunk := ChunkSize(o1.mtu);
    CountHolds(|p.buffer|, chunk);
    if TotalLength(p) + 4 > o1.mtu {
      var ps, sid := Produced(o, packet), (o.splitIdCounter + 1) % 65536;
      forall i | 0 <= i < ChunkCount(|p.buffer|, chunk) ensures IsPart(ps[i], packet.buffer, sid, |ps|, chunk, i)
      {
        ChunkIs(p.buffer, chunk, i);
      }
    }
  }

  lemma SizeIs(o: Outbound, packet: Packet)
    ensures var (o1, p) := AssignIndexes(o, packet);
            && TotalLength(p) == Size(packet) && o1.mtu == o.mtu && o1.splitIdCounter == o.splitIdCounter
            && p.buffer == packet.buffer && p.hasSplit == packet.hasSplit && p.reliability == packet.reliability
  {
  }

  // ---------- what leaves at once ----------

  /** Each packet in a datagram of its own, under the numbers from `first` up. */
  function Alone(ps: seq<Packet>, first: nat, now: real): seq<Message> {
    seq(|ps|, i requires 0 <= i < |ps| => Data(Datagram(0x80, first + i, [ps[i]], now)))
  }

  lemma AloneFirst(sent: seq<Message>, p: Packet, ps: seq<Packet>, first: nat, now: real)
    ensures sent + Alone([p] + ps, first, now)
         == (sent + [Data(Datagram(0x80, first, [p], now))]) + Alone(ps, first + 1, now)
  {
  }

  lemma {:induction false} PartsLeave(o: Outbound, p: Packet, sid: nat, count: nat, chunk: nat, i: nat, now: real)
    requires i <= count
    requires Numbered(p.reliability) ==>
               p.messageIndex.Some? && o.messageIndex == p.messageIndex.value + (if i == 0 then 1 else i)
    ensures var r := SendParts(o, p, sid, count, chunk, i, now);
            && r.sent == o.sent + Alone(PartList(p, sid, count, chunk)[i..], o.sendSeq, now)
            && r.sendSeq == o.sendSeq + (count - i) && r.sendQueue == o.sendQueue
    decreases count - i
  {
    var all := PartList(p, sid, count, chunk);
    if i < count {
      var taken := i > 0 && Numbered(p.reliability);
      var o1 := if taken then o.(messageIndex := o.messageIndex + 1) else o;
      var part := Part(p, sid, count, chunk, i, PartIndex(p, i));
      PartsLeave(AddToQueue(o1, part, true, now), p, sid, count, chunk, i + 1, now);
      assert all[i..] == [part] + all[i + 1..];
      AloneFirst(o.sent, part, all[i + 1..], o.sendSeq, now);
    } else {
      assert all[i..] == [];
    }
  }

  /** The datagrams that leave with an offer. An offer that is cut, or made to leave at once, leaves in
      datagrams of its own under the next numbers. Another waits in the queue, which leaves first, as one
      datagram, if the offer no longer fits it. */
  lemma OfferLeaves(o: Outbound, packet: Packet, immediate: bool, now: real)
    ensures var r, ps := AddEncapsulated(o, packet, immediate, now), Produced(o, packet);
            if Size(packet) + 4 > o.mtu || immediate then
              && r.sent == o.sent + Alone(ps, o.sendSeq, now) && r.sendSeq == o.sendSeq + |ps|
              && r.sendQueue == o.sendQueue
            else if Length(o.sendQueue) + Size(packet) <= o.mtu || o.sendQueue.packets == [] then
              r.sent == o.sent && r.sendSeq == o.sendSeq && r.sendQueue.packets == o.sendQueue.packets + ps
            else
              && r.sent == o.sent + [Data(Datagram(0x84, o.sendSeq, o.sendQueue.packets, now))]
              && r.sendSeq == o.sendSeq + 1 && r.sendQueue.packets == ps
  {
    SizeIs(o, packet);
    if Size(packet) + 4 > o.mtu {
      CutLeaves(o, packet, immediate, now);
    } else {
      var (o1, p) := AssignIndexes(o, packet);
      QueueLeaves(o1, p, immediate, now);
    }
  }

  lemma CutLeaves(o: Outbound, packet: Packet, immediate: bool, now: real)
    requires Size(packet) + 4 > o.mtu
    ensures var r, ps := AddEncapsulated(o, packet, immediate, now), Produced(o, packet);
            && r.sent == o.sent + Alone(ps, o.sendSeq, now) && r.sendSeq == o.sendSeq + |ps|
            && r.sendQueue == o.sendQueue
  {
    var (o1, p) := AssignIndexes(o, packet);
    SizeIs(o, packet);
    var chunk := ChunkSize(o1.mtu);
    var sid := (o1.splitIdCounter + 1) % U16;
    var count := ChunkCount(|p.buffer|, chunk);
    PartsLeave(o1.(splitIdCounter := sid), p, sid, count, chunk, 0, now);
    var all := PartList(p, sid, count, chunk);
    assert all[0..] == all;
  }

  lemma QueueLeaves(o: Outbound, p: Packet, immediate: bool, now: real)
    ensures var r := AddToQueue(o, p, immediate, now);
            if immediate then
              && r.sent == o.sent + Alone([p], o.sendSeq, now) && r.sendSeq == o.sendSeq + 1 && r.sendQueue == o.sendQueue
            else if Length(o.sendQueue) + TotalLength(p) <= o.mtu || o.sendQueue.packets == [] then
              r.sent == o.sent && r.sendSeq == o.sendSeq && r.sendQueue.packets == o.sendQueue.packets + [p]
            else
              && r.sent == o.sent + [Data(Datagram(0x84, o.sendSeq, o.sendQueue.packets, now))]
              && r.sendSeq == o.sendSeq + 1 && r.sendQueue.packets == [p]
  {
    assert Alone([p], o.sendSeq, now) == [Data(Datagram(0x80, o.sendSeq, [p], now))];
  }
}
