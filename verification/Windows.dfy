/** What every run keeps on the receiving side: the datagram window partitions the numbers into
    acknowledged and reported missing, and the reliable window routes the indexes in order. */
module Windows {
  import opened Collections
  import opened Binary
  import opened Packets
  import opened SessionModel
  import opened Runs

  /** Each number up to `lastSeq` was queued once, for an ACK if its datagram was accepted and for a
      NACK if it was not, and the window follows `lastSeq`. */
  ghost predicate DatagramWindow(w: Window) {
    && w.windowStart == w.lastSeq && w.windowEnd == w.lastSeq + WINDOW_SIZE + 1
    && (forall k | k in w.received :: k <= w.lastSeq)
    && (w.lastSeq >= 0 ==> w.lastSeq in w.received && w.lastSeq in w.accepted)
    && StrictlyAscending(w.accepted) && StrictlyAscending(w.nacked)
    && (forall k: nat :: k in w.accepted || k in w.nacked <==> k <= w.lastSeq)
    && (forall k | k in w.accepted :: k !in w.nacked)
    && (forall k | k in w.ackQueue :: k in w.accepted)
    && (forall k | k in w.nackQueue :: k in w.nacked)
  }

  /** The reliable window follows the last routed index; what it holds lies strictly inside. */
  ghost predicate ReliableWindow(w: Window) {
    && Aligned(w)
    && (forall k | k in w.held :: w.reliableStart < k <= w.reliableEnd && w.held[k].messageIndex == Some(k))
  }

  /** As above while held packets are being released. */
  ghost predicate Releasing(w: Window) {
    && Aligned(w)
    && (forall k | k in w.held :: w.reliableStart <= k <= w.reliableEnd && w.held[k].messageIndex == Some(k))
  }

  ghost predicate Aligned(w: Window) {
    && w.reliableStart == w.lastReliable + 1 && w.reliableEnd == w.reliableStart + WINDOW_SIZE
    && |w.routed| == w.lastReliable + 1
    && (forall i | 0 <= i < |w.routed| :: w.routed[i].messageIndex == Some(i))
  }

  // ---------- the datagram window ----------

  lemma {:induction false} MissingIsRange(received: set<nat>, from: nat, to: int)
    requires from <= to
    requires forall k | k in received :: !(from <= k < to)
    ensures |Missing(received, from, to)| == to - from
    ensures forall i | 0 <= i < to - from :: Missing(received, from, to)[i] == from + i
    decreases if from < to then to - from else 0
  {
    if from < to {
      var rest := Missing(received, from + 1, to);
      MissingIsRange(received, from + 1, to);
      forall i | 0 <= i < to - from ensures ([from] + rest)[i] == from + i {
        if i > 0 { assert rest[i - 1] == from + 1 + (i - 1); }
      }
    }
  }

  lemma AscendingAppend(xs: seq<nat>, ys: seq<nat>)
    requires StrictlyAscending(xs) && StrictlyAscending(ys)
    requires forall x, y | x in xs && y in ys :: x < y
    ensures StrictlyAscending(xs + ys)
  {
    var zs := xs + ys;
    forall i, j | 0 <= i < j < |zs| ensures zs[i] < zs[j] {
      if i < |xs| <= j {
        assert xs[i] in xs && ys[j - |xs|] in ys;
      }
    }
  }

  /** An admitted number is new: it lies above every number seen so far. */
  lemma AdmittedIsNew(w: Window, n: nat)
    requires DatagramWindow(w) && Admits(w, n)
    ensures w.lastSeq < n <= w.lastSeq + WINDOW_SIZE + 1
  {
  }

  lemma AcceptNumberKeeps(w: Window, n: nat)
    requires DatagramWindow(w) && Admits(w, n)
    ensures DatagramWindow(AcceptNumber(w, n))
    ensures AcceptNumber(w, n).lastSeq == n
    ensures n !in w.accepted && AcceptNumber(w, n).accepted == w.accepted + [n]
  {
    AdmittedIsNew(w, n);
    var from := w.lastSeq + 1;
    var missing := Missing(w.received + {n}, from, n);
    MissingIsRange(w.received + {n}, from, n);
    assert forall k :: k in missing <==> from <= k < n by {
      forall k | from <= k < n ensures k in missing { assert missing[k - from] == k; }
    }
    AscendingAppend(w.accepted, [n]);
    AscendingAppend(w.nacked, missing);
    var w1 := AcceptNumber(w, n);
    assert w1.nacked == w.nacked + missing && w1.accepted == w.accepted + [n];
    forall k: nat ensures k in w1.accepted || k in w1.nacked <==> k <= n {
      assert k in w1.accepted <==> k in w.accepted || k == n;
      assert k in w1.nacked <==> k in w.nacked || from <= k < n;
    }
  }

  // ---------- the reliable window ----------

  lemma {:induction false} DrainKeeps(w: Window)
    requires Releasing(w)
    ensures ReliableWindow(DrainHeld(w).window)
    decreases w.held.Keys
  {
    if w.held != map[] {
      assert w.held.Keys != {};
      var k := MinKey(w.held.Keys);
      if k - w.lastReliable == 1 {
        DrainKeeps(Advance(w.(held := w.held - {k}), w.held[k]));
      }
    }
  }

  lemma AcceptPacketKeeps(w: Window, p: Packet)
    requires ReliableWindow(w)
    ensures ReliableWindow(AcceptPacket(w, p).window)
  {
    if p.messageIndex.Some? && p.messageIndex.value == w.reliableStart {
      DrainKeeps(Advance(w, p));
    }
  }

  lemma {:induction false} AcceptPacketsKeeps(w: Window, ps: seq<Packet>)
    requires ReliableWindow(w)
    ensures ReliableWindow(AcceptPackets(w, ps).window)
    decreases |ps|
  {
    if ps != [] {
      AcceptPacketKeeps(w, ps[0]);
      AcceptPacketsKeeps(AcceptPacket(w, ps[0]).window, ps[1..]);
    }
  }

  /** The two windows do not touch each other's fields. */
  ghost predicate SameDatagramSide(a: Window, b: Window) {
    && a.lastSeq == b.lastSeq && a.windowStart == b.windowStart && a.windowEnd == b.windowEnd
    && a.received == b.received && a.ackQueue == b.ackQueue && a.nackQueue == b.nackQueue
    && a.accepted == b.accepted && a.nacked == b.nacked
  }

  lemma {:induction false} DrainSide(w: Window)
    ensures SameDatagramSide(w, DrainHeld(w).window)
    decreases w.held.Keys
  {
    if w.held != map[] {
      assert w.held.Keys != {};
      var k := MinKey(w.held.Keys);
      if k - w.lastReliable == 1 {
        DrainSide(Advance(w.(held := w.held - {k}), w.held[k]));
      }
    }
  }

  lemma {:induction false} AcceptPacketsSide(w: Window, ps: seq<Packet>)
    ensures SameDatagramSide(w, AcceptPackets(w, ps).window)
    decreases |ps|
  {
    if ps != [] {
      var p := ps[0];
      if p.messageIndex.Some? && p.messageIndex.value == w.lastReliable + 1 { DrainSide(Advance(w, p)); }
      AcceptPacketsSide(AcceptPacket(w, p).window, ps[1..]);
    }
  }

  // ---------- whole runs ----------

  ghost predicate BothWindows(w: Window) {
    DatagramWindow(w) && ReliableWindow(w)
  }

  lemma HandleDatagramKeeps(w: Window, d: Datagram)
    requires BothWindows(w) && Admits(w, d.seqNumber)
    ensures BothWindows(AcceptPackets(AcceptNumber(w, d.seqNumber), d.packets).window)
  {
    var w1 := AcceptNumber(w, d.seqNumber);
    AcceptNumberKeeps(w, d.seqNumber);
    assert ReliableWindow(w1);
    AcceptPacketsKeeps(w1, d.packets);
    AcceptPacketsSide(w1, d.packets);
  }

  /** What bytes from the socket do to the windows of a connected session. */
  function Received(w: Window, raw: seq<byte>): Window {
    if raw == [] || !(0x80 <= raw[0] <= 0x8f) then w
    else
      match DecodeDatagram(raw)
      case None => w
      case Some(d) =>
        if Admits(w, d.seqNumber) then AcceptPackets(AcceptNumber(w, d.seqNumber), d.packets).window else w
  }

  lemma RawWindow(s: Session, raw: seq<byte>, now: real)
    ensures HandleRaw(s, raw, now).window == if Online(s.host.app.phase) then Received(s.window, raw) else s.window
  {
  }

  lemma ReceivedKeeps(w: Window, raw: seq<byte>)
    requires BothWindows(w)
    ensures BothWindows(Received(w, raw))
  {
    if raw != [] && 0x80 <= raw[0] <= 0x8f {
      var d := DecodeDatagram(raw);
      if d.Some? && Admits(w, d.value.seqNumber) { HandleDatagramKeeps(w, d.value); }
    }
  }

  lemma StepKeepsWindows(s: Session, i: Input)
    requires BothWindows(s.window)
    ensures BothWindows(Step(s, i).window)
  {
    if i.Arrive? {
      RawWindow(s, i.raw, i.now);
      ReceivedKeeps(s.window, i.raw);
    }
  }

  lemma {:induction false} RunKeepsWindows(s: Session, inputs: seq<Input>)
    requires BothWindows(s.window)
    ensures BothWindows(Run(s, inputs).window)
    decreases |inputs|
  {
    if inputs != [] {
      StepKeepsWindows(s, inputs[0]);
      RunKeepsWindows(Step(s, inputs[0]), inputs[1..]);
    }
  }

  /** Over every run of a session, whatever arrives and however often the window is pruned: the
      numbers 0..lastSeq are split between those queued for an ACK and those queued for a NACK, each
      queued once, and the window is lastSeq .. lastSeq + 2049. */
  lemma {:induction false} AckNackPartition(config: Config, inputs: seq<Input>)
    ensures var w := Run(FreshSession(config), inputs).window;
            && w.windowStart == w.lastSeq && w.windowEnd == w.lastSeq + 2049
            && StrictlyAscending(w.accepted) && StrictlyAscending(w.nacked)
            && (forall k: nat :: k <= w.lastSeq <==> k in w.accepted || k in w.nacked)
            && (forall k | k in w.accepted :: k !in w.nacked)
            && (forall k | k in w.ackQueue :: k in w.accepted)
            && (forall k | k in w.nackQueue :: k in w.nacked)
  {
    RunKeepsWindows(FreshSession(config), inputs);
  }

  /** Over every run: the indexed packets routed carry the indexes 0, 1, 2, ... up to the last
      routed one, and what is held back lies strictly above the next index, within the window. */
  lemma {:induction false} RoutedInOrder(config: Config, inputs: seq<Input>)
    ensures var w := Run(FreshSession(config), inputs).window;
            && |w.routed| == w.lastReliable + 1 == w.reliableStart && w.reliableEnd == w.reliableStart + 2048
            && (forall i | 0 <= i < |w.routed| :: w.routed[i].messageIndex == Some(i))
            && (forall k | k in w.held :: w.reliableStart < k <= w.reliableEnd)
  {
    RunKeepsWindows(FreshSession(config), inputs);
  }

  // ---------- the windows against the sender's stream ----------

  /** The routed packets are the first ones of `stream`, and held packets are at their place in it. */
  ghost predicate Follows(w: Window, stream: seq<Packet>) {
    && |w.routed| <= |stream| && w.routed == stream[..|w.routed|]
    && (forall k | k in w.held :: k < |stream| && w.held[k] == stream[k])
    && (forall k | k in w.overrun :: k < |stream|)
  }

  /** Indexed packets are at their place in `stream`. */
  ghost predicate FromStream(ps: seq<Packet>, stream: seq<Packet>) {
    forall p | p in ps && p.messageIndex.Some? :: p.messageIndex.value < |stream| && p == stream[p.messageIndex.value]
  }

  /** The index was routed, is held, or was dropped for lying beyond the window. */
  ghost predicate Covers(w: Window, i: nat) {
    i <= w.lastReliable || i in w.held || i in w.overrun
  }

  function OnlyIndexed(ps: seq<Packet>): seq<Packet> {
    if ps == [] then []
    else if ps[0].messageIndex.Some? then [ps[0]] + OnlyIndexed(ps[1..])
    else OnlyIndexed(ps[1..])
  }

  lemma {:induction false} OnlyIndexedAppend(ps: seq<Packet>, qs: seq<Packet>)
    ensures OnlyIndexed(ps + qs) == OnlyIndexed(ps) + OnlyIndexed(qs)
  {
    if ps == [] {
      assert [] + qs == qs;
    } else {
      FirstOfAppend(ps, qs);
      OnlyIndexedAppend(ps[1..], qs);
    }
  }

  lemma {:induction false} DrainFollows(w: Window, stream: seq<Packet>)
    requires Releasing(w) && Follows(w, stream)
    ensures var r := DrainHeld(w);
            && Follows(r.window, stream)
            && (forall i: nat | Covers(w, i) :: Covers(r.window, i))
            && r.window.routed == w.routed + OnlyIndexed(r.packets)
            && (forall p | p in r.packets :: p.messageIndex.Some?)
    decreases w.held.Keys
  {
    if w.held != map[] {
      assert w.held.Keys != {};
      var k := MinKey(w.held.Keys);
      if k - w.lastReliable == 1 {
        var p := w.held[k];
        var w1 := Advance(w.(held := w.held - {k}), p);
        assert w1.routed == stream[..k + 1];
        DrainFollows(w1, stream);
        forall i: nat | Covers(w, i) ensures Covers(DrainHeld(w).window, i) {
          assert Covers(w1, i);
        }
        var next := DrainHeld(w1).packets;
        assert ([p] + next)[1..] == next;
        Append(w.routed, [p], OnlyIndexed(next));
      }
    }
    assert w.routed + [] == w.routed;
  }

  lemma AcceptPacketFollows(w: Window, p: Packet, stream: seq<Packet>)
    requires ReliableWindow(w) && Follows(w, stream) && FromStream([p], stream)
    ensures var r := AcceptPacket(w, p);
            && Follows(r.window, stream)
            && (forall i: nat | Covers(w, i) :: Covers(r.window, i))
            && (p.messageIndex.Some? ==> Covers(r.window, p.messageIndex.value))
            && r.window.routed == w.routed + OnlyIndexed(r.packets)
  {
    assert p in [p];
    assert w.routed + [] == w.routed;
    if p.messageIndex.None? {
      assert [p][1..] == [];
    } else {
      var idx := p.messageIndex.value;
      if idx == w.reliableStart {
        var w1 := Advance(w, p);
        assert w1.routed == stream[..idx + 1];
        DrainFollows(w1, stream);
        assert forall i: nat | Covers(w, i) :: Covers(w1, i);
        assert Covers(w1, idx);
        var next := DrainHeld(w1).packets;
        assert ([p] + next)[1..] == next;
        Append(w.routed, [p], OnlyIndexed(next));
      }
    }
  }

  lemma {:induction false} AcceptPacketsFollow(w: Window, ps: seq<Packet>, stream: seq<Packet>)
    requires ReliableWindow(w) && Follows(w, stream) && FromStream(ps, stream)
    ensures var r := AcceptPackets(w, ps);
            && Follows(r.window, stream)
            && (forall i: nat | Covers(w, i) :: Covers(r.window, i))
            && (forall p | p in ps && p.messageIndex.Some? :: Covers(r.window, p.messageIndex.value))
            && r.window.routed == w.routed + OnlyIndexed(r.packets)
    decreases |ps|
  {
    if ps == [] {
      assert w.routed + [] == w.routed;
    } else {
      var p := ps[0];
      assert forall q :: q in [p] ==> q in ps;
      AcceptPacketFollows(w, p, stream);
      AcceptPacketKeeps(w, p);
      var first := AcceptPacket(w, p);
      assert forall q :: q in ps[1..] ==> q in ps;
      AcceptPacketsFollow(first.window, ps[1..], stream);
      var rest := AcceptPackets(first.window, ps[1..]);
      OnlyIndexedAppend(first.packets, rest.packets);
      Append(w.routed, OnlyIndexed(first.packets), OnlyIndexed(rest.packets));
      assert forall q :: q in ps <==> q == p || q in ps[1..];
    }
  }
}
