/** The way to rest. From every moment of a run of the link there are periodic passes and deliveries,
    with nothing new offered, after which the sender has nothing left to send, to resend or to have
    acknowledged. */
module Progress {
  import opened Collections
  import opened Binary
  import opened Packets
  import opened SessionModel
  import opened Moves
  import opened Runs
  import opened Sender
  import opened Windows
  import opened Numbering
  import opened Link
  import Acknowledge

  // ---------- every number is on its way ----------

  /** A datagram with this number waits to be sent. */
  ghost predicate Promised(o: Outbound, k: nat) {
    exists i :: 0 <= i < |o.packetToSend| && o.packetToSend[i].seqNumber == k
  }

  /** A datagram with this number was handed to the socket. */
  ghost predicate WasSent(o: Outbound, k: nat) {
    exists i :: 0 <= i < |o.sent| && o.sent[i].Data? && o.sent[i].datagram.seqNumber == k
  }

  /** Every number given out is on the wire or waits. */
  ghost predicate Accounted(o: Outbound) {
    && (forall k: nat | k < o.sendSeq :: k in o.log || Promised(o, k))
    && (forall k | k in o.log :: WasSent(o, k))
  }

  lemma TellSent(o: Outbound, r: Outbound, m: Message)
    requires r.sent == o.sent + [m]
    ensures forall k | WasSent(o, k) :: WasSent(r, k)
    ensures m.Data? ==> WasSent(r, m.datagram.seqNumber)
  {
    forall k | WasSent(o, k) ensures WasSent(r, k) {
      var i :| 0 <= i < |o.sent| && o.sent[i].Data? && o.sent[i].datagram.seqNumber == k;
      assert r.sent[i] == o.sent[i];
    }
    assert r.sent[|o.sent|] == m;
  }

  lemma SendAccounts(o: Outbound, d: Datagram, now: real)
    requires forall k: nat | k < o.sendSeq :: k == d.seqNumber || k in o.log || Promised(o, k)
    requires forall k | k in o.log :: WasSent(o, k)
    ensures Accounted(SendDatagram(o, d, now))
  {
    var r := SendDatagram(o, d, now);
    TellSent(o, r, Data(d.(sendTime := now)));
    forall k: nat | k < r.sendSeq ensures k in r.log || Promised(r, k) {
      if k != d.seqNumber && k !in o.log {
        var i :| 0 <= i < |o.packetToSend| && o.packetToSend[i].seqNumber == k;
        assert r.packetToSend[i].seqNumber == k;
      }
    }
  }

  /** The next number is given to a datagram sent at once. */
  lemma SendNextAccounts(o: Outbound, o1: Outbound, d: Datagram, now: real)
    requires Accounted(o) && o1.sendSeq == o.sendSeq + 1 && d.seqNumber == o.sendSeq
    requires o1.log == o.log && o1.sent == o.sent && o1.packetToSend == o.packetToSend
    ensures Accounted(SendDatagram(o1, d, now))
  {
    forall k: nat | k < o1.sendSeq ensures k == d.seqNumber || k in o1.log || Promised(o1, k) {
      if k < o.sendSeq && k !in o.log {
        var i :| 0 <= i < |o.packetToSend| && o.packetToSend[i].seqNumber == k;
        assert o1.packetToSend[i].seqNumber == k;
      }
    }
    forall k | k in o1.log ensures WasSent(o1, k) {
      var i :| 0 <= i < |o.sent| && o.sent[i].Data? && o.sent[i].datagram.seqNumber == k;
      assert o1.sent[i] == o.sent[i];
    }
    SendAccounts(o1, d, now);
  }

  lemma SameAccounts(o: Outbound, r: Outbound)
    requires Accounted(o) && r.sendSeq == o.sendSeq && r.log == o.log && r.packetToSend == o.packetToSend
    requires forall k | WasSent(o, k) :: WasSent(r, k)
    ensures Accounted(r)
  {
    forall k: nat | k < r.sendSeq ensures k in r.log || Promised(r, k) {
      if k !in o.log {
        var i :| 0 <= i < |o.packetToSend| && o.packetToSend[i].seqNumber == k;
        assert r.packetToSend[i].seqNumber == k;
      }
    }
  }

  lemma KeepsSent(o: Outbound, r: Outbound)
    requires r.sent == o.sent
    ensures forall k | WasSent(o, k) :: WasSent(r, k)
  {
    forall k | WasSent(o, k) ensures WasSent(r, k) {
      var i :| 0 <= i < |o.sent| && o.sent[i].Data? && o.sent[i].datagram.seqNumber == k;
      assert r.sent[i] == o.sent[i];
    }
  }

  lemma FlushAccounts(o: Outbound, now: real)
    requires Accounted(o)
    ensures Accounted(FlushSendQueue(o, now))
  {
    if o.sendQueue.packets != [] {
      var o1 := o.(sendSeq := o.sendSeq + 1);
      var d := o.sendQueue.(seqNumber := o.sendSeq, id := 0x84);
      SendNextAccounts(o, o1, d, now);
      var r := SendDatagram(o1, d, now);
      KeepsSent(r, r.(sendQueue := EMPTY_QUEUE));
      SameAccounts(r, r.(sendQueue := EMPTY_QUEUE));
    }
  }

  lemma EnqueueAccounts(o: Outbound, p: Packet, immediate: bool, now: real)
    requires Accounted(o)
    ensures Accounted(AddToQueue(o, p, immediate, now))
  {
    var o0 := o.(enqueued := o.enqueued + [p]);
    KeepsSent(o, o0);
    SameAccounts(o, o0);
    if immediate {
      SendNextAccounts(o0, o0.(sendSeq := o0.sendSeq + 1), Datagram(0x80, o0.sendSeq, [p], 0.0), now);
    } else {
      FlushAccounts(o0, now);
      var o1 := if Length(o0.sendQueue) + TotalLength(p) > o0.mtu then FlushSendQueue(o0, now) else o0;
      var r := o1.(sendQueue := o1.sendQueue.(packets := o1.sendQueue.packets + [p]));
      KeepsSent(o1, r);
      SameAccounts(o1, r);
    }
  }

  lemma HeadAccounts(o: Outbound, now: real)
    requires Accounted(o) && o.packetToSend != []
    ensures Accounted(SendDatagram(o.(packetToSend := o.packetToSend[1..]), o.packetToSend[0], now))
  {
    var o1 := o.(packetToSend := o.packetToSend[1..]);
    forall k: nat | k < o1.sendSeq ensures k == o.packetToSend[0].seqNumber || k in o1.log || Promised(o1, k) {
      if k !in o.log && k != o.packetToSend[0].seqNumber {
        var i :| 0 <= i < |o.packetToSend| && o.packetToSend[i].seqNumber == k;
        assert o1.packetToSend[i - 1].seqNumber == k;
      }
    }
    KeepsSent(o, o1);
    SendAccounts(o1, o.packetToSend[0], now);
  }

  lemma RescheduleAccounts(o: Outbound, k: nat)
    requires Accounted(o) && k in o.recovery
    ensures Accounted(Reschedule(o, k))
  {
    var r := Reschedule(o, k);
    KeepsSent(o, r);
    forall j: nat | j < r.sendSeq ensures j in r.log || Promised(r, j) {
      if j == o.sendSeq {
        assert r.packetToSend[|o.packetToSend|].seqNumber == j;
      } else if j !in o.log {
        var i :| 0 <= i < |o.packetToSend| && o.packetToSend[i].seqNumber == j;
        assert r.packetToSend[i].seqNumber == j;
      }
    }
  }

  lemma RepeatAccounts(o: Outbound, k: nat, now: real)
    requires Accounted(o)
    ensures Accounted(ResendOne(o, k, now))
  {
    if k in o.recovery {
      SendNextAccounts(o, o.(sendSeq := o.sendSeq + 1, recovery := o.recovery - {k}),
                       o.recovery[k].(seqNumber := o.sendSeq), now);
    }
  }

  lemma TellAccounts(o: Outbound, m: Message)
    requires Accounted(o)
    ensures Accounted(o.(sent := o.sent + [m]))
  {
    TellSent(o, o.(sent := o.sent + [m]), m);
    SameAccounts(o, o.(sent := o.sent + [m]));
  }

  lemma MoveAccounts(o: Outbound, m: Move)
    requires Accounted(o)
    ensures Accounted(Apply(o, m))
  {
    var r := Apply(o, m);
    match m
    case Enqueue(p, imm, now) => EnqueueAccounts(o, p, imm, now);
    case Flush(now) => FlushAccounts(o, now);
    case SendHead(now) => if o.packetToSend != [] { HeadAccounts(o, now); }
    case Postpone(k) => if k in o.recovery { RescheduleAccounts(o, k); }
    case Repeat(k, now) => RepeatAccounts(o, k, now);
    case Tell(msg) => TellAccounts(o, msg);
    case _ =>
      KeepsSent(o, r);
      SameAccounts(o, r);
  }

  lemma {:induction false} MovesAccount(o: Outbound, ms: seq<Move>)
    requires Accounted(o)
    ensures Accounted(ApplyAll(o, ms))
    decreases |ms|
  {
    if ms != [] {
      MoveAccounts(o, ms[0]);
      MovesAccount(Apply(o, ms[0]), ms[1..]);
    }
  }

  // ---------- a pass over the queues ----------

  /** No datagram is overdue. */
  ghost predicate Calm(o: Outbound, now: real) {
    forall k | k in o.recovery :: o.recovery[k].sendTime >= now - RESEND_DELAY
  }

  /** The datagrams not acknowledged yet. */
  function Burden(o: Outbound): nat { |o.recovery| + |o.packetToSend| }

  /** The datagrams not acknowledged yet have numbers from `first` on. */
  ghost predicate From(o: Outbound, first: nat) {
    && (forall k | k in o.recovery :: k >= first)
    && (forall i | 0 <= i < |o.packetToSend| :: o.packetToSend[i].seqNumber >= first)
  }

  lemma InsertSize(m: map<nat, Datagram>, k: nat, d: Datagram)
    ensures |m[k := d]| <= |m| + 1
  {
    if k in m { assert m[k := d].Keys == m.Keys; }
  }

  lemma RemoveSize(m: map<nat, Datagram>, k: nat)
    requires k in m
    ensures |m - {k}| == |m| - 1
  {
    assert (m - {k})[k := m[k]] == m;
  }

  lemma {:induction false} DrainGoes(o: Outbound, limit: nat, now: real, first: nat)
    requires From(o, first)
    ensures var r := Drain(o, limit, now);
            && r.sendSeq == o.sendSeq && r.sendQueue == o.sendQueue && Burden(r) <= Burden(o) && From(r, first)
            && |r.packetToSend| == (if |o.packetToSend| <= limit then 0 else |o.packetToSend| - limit)
            && (forall k | k in r.recovery ::
                  (k in o.recovery && r.recovery[k] == o.recovery[k]) || r.recovery[k].sendTime == now)
    decreases limit
  {
    if o.packetToSend != [] && limit > 0 {
      var d := o.packetToSend[0];
      InsertSize(o.recovery, d.seqNumber, d.(sendTime := now));
      DrainGoes(SendDatagram(o.(packetToSend := o.packetToSend[1..]), d, now), limit - 1, now, first);
    }
  }

  lemma {:induction false} ExpireGoes(o: Outbound, keys: set<nat>, now: real, first: nat)
    requires From(o, first) && first <= o.sendSeq
    ensures var r := Expire(o, keys, now);
            && o.sendSeq <= r.sendSeq <= o.sendSeq + |keys| && r.sendQueue == o.sendQueue
            && Burden(r) == Burden(o) && From(r, first)
            && (forall k | k in r.recovery :: k in o.recovery && r.recovery[k] == o.recovery[k])
            && (forall k | k in r.recovery && k in keys :: r.recovery[k].sendTime >= now - RESEND_DELAY)
    decreases keys
  {
    if keys != {} {
      var k := MinKey(keys);
      var due := k in o.recovery && o.recovery[k].sendTime < now - RESEND_DELAY;
      if due { RemoveSize(o.recovery, k); }
      var o1 := if due then Reschedule(o, k) else o;
      ExpireGoes(o1, keys - {k}, now, first);
    }
  }

  /** Nothing overdue, nothing put off. */
  lemma {:induction false} ExpireCalm(o: Outbound, keys: set<nat>, now: real)
    requires Calm(o, now)
    ensures Expire(o, keys, now) == o
    decreases keys
  {
    if keys != {} { ExpireCalm(o, keys - {MinKey(keys)}, now); }
  }

  /** Datagrams of the queues that are flushed. */
  function Flushes(o: Outbound): nat { if o.sendQueue.packets == [] then 0 else 1 }

  lemma FlushGoes(o: Outbound, now: real, first: nat)
    requires From(o, first) && first <= o.sendSeq && Calm(o, now)
    ensures var r := FlushSendQueue(o, now);
            && From(r, first) && Calm(r, now) && r.sendQueue.packets == [] && r.packetToSend == o.packetToSend
            && r.sendSeq == o.sendSeq + Flushes(o) && Burden(r) <= Burden(o) + Flushes(o)
  {
    if o.sendQueue.packets != [] {
      InsertSize(o.recovery, o.sendSeq, o.sendQueue.(seqNumber := o.sendSeq, id := 0x84, sendTime := now));
    }
  }

  /** What a pass leaves: nothing overdue and nothing to be flushed. */
  lemma ResendGoes(o: Outbound, now: real, first: nat)
    requires From(o, first) && first <= o.sendSeq
    ensures var r := Resend(o, now);
            && Calm(r, now) && From(r, first) && r.sendQueue == o.sendQueue
            && Burden(r) <= Burden(o) && o.sendSeq <= r.sendSeq <= o.sendSeq + Burden(o)
  {
    var o1 := Drain(o, DRAIN_LIMIT, now);
    DrainGoes(o, DRAIN_LIMIT, now, first);
    assert |o1.recovery.Keys| == |o1.recovery|;
    ExpireGoes(o1, o1.recovery.Keys, now, first);
    DrainGoes(Expire(o1, o1.recovery.Keys, now), DRAIN_LIMIT, now, first);
  }

  lemma AcksGo(o: Outbound, acks: set<nat>, nacks: set<nat>)
    ensures SendAcks(o, acks, nacks) == o.(sent := SendAcks(o, acks, nacks).sent)
  {
  }

  lemma PassGoes(o: Outbound, w: Window, now: real, first: nat)
    requires From(o, first) && first <= o.sendSeq
    ensures var r := UpdateOut(o, w, now);
            && Calm(r, now) && From(r, first) && r.sendQueue.packets == []
            && Burden(r) <= Burden(o) + Flushes(o) && o.sendSeq <= r.sendSeq <= o.sendSeq + Burden(o) + Flushes(o)
  {
    AcksGo(o, w.ackQueue, w.nackQueue);
    var o0 := SendAcks(o, w.ackQueue, w.nackQueue);
    ResendGoes(o0, now, first);
    FlushGoes(Resend(o0, now), now, first);
  }

  /** With nothing overdue a pass only sends what waits. */
  lemma PassCalm(o: Outbound, w: Window, now: real)
    requires Calm(o, now) && o.sendQueue.packets == []
    ensures var r := UpdateOut(o, w, now);
            && r.sendSeq == o.sendSeq
            && |r.packetToSend| == (if |o.packetToSend| <= 2 * DRAIN_LIMIT then 0 else |o.packetToSend| - 2 * DRAIN_LIMIT)
  {
    AcksGo(o, w.ackQueue, w.nackQueue);
    var o0 := SendAcks(o, w.ackQueue, w.nackQueue);
    var o1 := Drain(o0, DRAIN_LIMIT, now);
    DrainGoes(o0, DRAIN_LIMIT, now, 0);
    ExpireCalm(o1, o1.recovery.Keys, now);
    DrainGoes(o1, DRAIN_LIMIT, now, 0);
  }

  /** Everything unacknowledged is overdue, or has a number from `first` on already. */
  lemma {:induction false} ExpireAll(o: Outbound, keys: set<nat>, now: real, first: nat)
    requires first <= o.sendSeq && forall i | 0 <= i < |o.packetToSend| :: o.packetToSend[i].seqNumber >= first
    requires forall k | k in o.recovery :: k >= first || (k in keys && o.recovery[k].sendTime < now - RESEND_DELAY)
    ensures From(Expire(o, keys, now), first)
    decreases keys
  {
    if keys != {} {
      var k := MinKey(keys);
      var due := k in o.recovery && o.recovery[k].sendTime < now - RESEND_DELAY;
      ExpireAll(if due then Reschedule(o, k) else o, keys - {k}, now, first);
    }
  }

  /** After a pass late enough, nothing that is not acknowledged has an old number. */
  lemma PassLate(o: Outbound, w: Window, now: real)
    requires o.packetToSend == [] && o.sendQueue.packets == []
    requires forall k | k in o.recovery :: o.recovery[k].sendTime < now - RESEND_DELAY
    ensures From(UpdateOut(o, w, now), o.sendSeq)
  {
    AcksGo(o, w.ackQueue, w.nackQueue);
    var o0 := SendAcks(o, w.ackQueue, w.nackQueue);
    ExpireAll(o0, o0.recovery.Keys, now, o.sendSeq);
    var o2 := Expire(o0, o0.recovery.Keys, now);
    ExpireGoes(o0, o0.recovery.Keys, now, 0);
    DrainGoes(o2, DRAIN_LIMIT, now, o.sendSeq);
  }

  /** A time by which everything is overdue. */
  lemma {:induction false} LateEnough(m: map<nat, Datagram>, now: real) returns (late: real)
    ensures late >= now && forall k | k in m :: m[k].sendTime < late - RESEND_DELAY
    decreases m.Keys
  {
    if m == map[] {
      late := now;
    } else {
      assert m.Keys != {};
      var k := MinKey(m.Keys);
      late := LateEnough(m - {k}, now);
      assert forall j | j in m :: j == k || j in m - {k};
      if m[k].sendTime + 1.0 > late { late := m[k].sendTime + 1.0; }
    }
  }

  // ---------- actions without offers ----------

  /** A wake-up byte, a periodic pass, an acknowledgement pass, or a delivery. */
  predicate Gentle(a: Action) {
    a.Local? ==> a.input.Tick? || a.input.AckNow? || (a.input.Arrive? && a.input.raw == [0x01])
  }

  /** Gentle actions throughout, with the numbers of one side below 2^24. */
  ghost predicate Mild(p: Pair, actions: seq<Action>, from: Side)
    decreases |actions|
  {
    && Triads(p.At(from).host.out)
    && (actions != [] ==> Gentle(actions[0]) && Mild(Act(p, actions[0]), actions[1..], from))
  }

  ghost predicate Leads(p: Pair, actions: seq<Action>, r: Pair, from: Side) {
    Mild(p, actions, from) && ActAll(p, actions) == r
  }

  lemma {:induction false} LeadsOn(p: Pair, a: seq<Action>, q: Pair, b: seq<Action>, r: Pair, from: Side)
    requires Leads(p, a, q, from) && Leads(q, b, r, from)
    ensures Leads(p, a + b, r, from)
    decreases |a|
  {
    if a == [] {
      assert [] + b == b;
    } else {
      FirstOfAppend(a, b);
      LeadsOn(Act(p, a[0]), a[1..], q, b, r, from);
    }
  }

  lemma LeadsOne(p: Pair, a: Action, from: Side)
    requires Gentle(a) && Triads(p.At(from).host.out) && Triads(Act(p, a).At(from).host.out)
    ensures Leads(p, [a], Act(p, a), from)
  {
    assert [a][1..] == [];
  }

  lemma LeadsTwo(p: Pair, a: Action, b: Action, from: Side)
    requires Gentle(a) && Gentle(b) && Triads(p.At(from).host.out)
    requires Triads(Act(p, a).At(from).host.out) && Triads(Act(Act(p, a), b).At(from).host.out)
    ensures Leads(p, [a] + [b], Act(Act(p, a), b), from)
  {
    LeadsOne(p, a, from);
    LeadsOne(Act(p, a), b, from);
    LeadsOn(p, [a], Act(p, a), [b], Act(Act(p, a), b), from);
  }

  /** What the way to rest needs of the sender, and of the other side. */
  ghost predicate Ready(p: Pair, from: Side) {
    var s, g := p.At(from), p.At(Other(from));
    && Online(s.host.app.phase) && Online(g.host.app.phase)
    && Sending24(s.host.out) && BothWindows(g.window) && g.window.lastSeq < s.host.out.sendSeq
  }

  /** The sending side, its numbers below 2^24. */
  ghost predicate Sending24(o: Outbound) {
    && Sound(o) && Accounted(o) && Triads(o)
    && forall p | p in o.enqueued :: Wire(p)
  }

  /** A session awake makes its pass. */
  lemma AwakePass(s: Session, now: real)
    requires Online(s.host.app.phase)
    ensures var s1 := Step(s, Arrive([0x01], now));
            var s2 := Step(s1, Tick(now));
            && s1.host.out == s.host.out && s1.window == s.window
            && s2.host.out == UpdateOut(s.host.out, s.window, now) && Online(s2.host.app.phase)
  {
  }

  lemma PassKeeps(o: Outbound, w: Window, now: real)
    requires Sending24(o) && UpdateOut(o, w, now).sendSeq <= U24
    ensures Sending24(UpdateOut(o, w, now))
  {
    var ms := UpdateMoves(o, w, now);
    MovesKeep(o, ms);
    MovesAccount(o, ms);
    PassEnqueues(o, ms);
  }

  lemma {:induction false} PassEnqueues(o: Outbound, ms: seq<Move>)
    requires forall m | m in ms :: Sending(m) || m.Tell?
    ensures ApplyAll(o, ms).enqueued == o.enqueued && ApplyAll(o, ms).messageIndex == o.messageIndex
    decreases |ms|
  {
    if ms != [] {
      assert ms[0] in ms;
      HousekeepingEnqueuesNothing(o, ms[0]);
      PassEnqueues(Apply(o, ms[0]), ms[1..]);
    }
  }

  /** One pass of the sender. */
  lemma {:induction false} PassLeads(p: Pair, from: Side, now: real) returns (actions: seq<Action>, r: Pair)
    requires Ready(p, from) && UpdateOut(p.At(from).host.out, p.At(from).window, now).sendSeq <= U24
    requires p.At(from).host.out.sendSeq <= UpdateOut(p.At(from).host.out, p.At(from).window, now).sendSeq
    ensures Leads(p, actions, r, from) && Ready(r, from)
    ensures r.At(Other(from)) == p.At(Other(from))
    ensures r.At(from).host.out == UpdateOut(p.At(from).host.out, p.At(from).window, now)
  {
    var s := p.At(from);
    var a, b := Local(from, Arrive([0x01], now)), Local(from, Tick(now));
    AwakePass(s, now);
    PassKeeps(s.host.out, s.window, now);
    r := Act(Act(p, a), b);
    LeadsTwo(p, a, b, from);
    actions := [a] + [b];
  }

  // ---------- everything on the wire, under new numbers ----------

  lemma {:induction false} DrainedBy(p: Pair, from: Side, now: real, first: nat) returns (actions: seq<Action>, r: Pair)
    requires Ready(p, from) && Calm(p.At(from).host.out, now) && p.At(from).host.out.sendQueue.packets == []
    requires From(p.At(from).host.out, first) && first <= p.At(from).host.out.sendSeq
    ensures Leads(p, actions, r, from) && Ready(r, from) && r.At(Other(from)) == p.At(Other(from))
    ensures var o, q := p.At(from).host.out, r.At(from).host.out;
            && q.packetToSend == [] && q.sendQueue.packets == [] && q.sendSeq == o.sendSeq
            && Burden(q) <= Burden(o) && From(q, first)
    decreases |p.At(from).host.out.packetToSend|
  {
    var o := p.At(from).host.out;
    if o.packetToSend == [] {
      actions, r := [], p;
    } else {
      PassCalm(o, p.At(from).window, now);
      PassGoes(o, p.At(from).window, now, first);
      var a, q := PassLeads(p, from, now);
      var b, t := DrainedBy(q, from, now, first);
      LeadsOn(p, a, q, b, t, from);
      actions, r := a + b, t;
    }
  }

  /** Passes until nothing waits. */
  lemma {:induction false} AllSent(p: Pair, from: Side, now: real, first: nat) returns (actions: seq<Action>, r: Pair)
    requires Ready(p, from) && From(p.At(from).host.out, first) && first <= p.At(from).host.out.sendSeq
    requires var o := p.At(from).host.out; o.sendSeq + Burden(o) + Flushes(o) <= U24
    ensures Leads(p, actions, r, from) && Ready(r, from) && r.At(Other(from)) == p.At(Other(from))
    ensures var o, q := p.At(from).host.out, r.At(from).host.out;
            && q.packetToSend == [] && q.sendQueue.packets == [] && From(q, first)
            && q.sendSeq <= o.sendSeq + Burden(o) + Flushes(o) && Burden(q) <= Burden(o) + Flushes(o)
  {
    var o := p.At(from).host.out;
    PassGoes(o, p.At(from).window, now, first);
    var a, q := PassLeads(p, from, now);
    var b, t := DrainedBy(q, from, now, first);
    LeadsOn(p, a, q, b, t, from);
    actions, r := a + b, t;
  }

  /** With everything on the wire, one late pass gives all of it new numbers. */
  lemma {:induction false} Renumbered(p: Pair, from: Side, now: real) returns (actions: seq<Action>, r: Pair, first: nat)
    requires Ready(p, from)
    requires var o := p.At(from).host.out;
             o.packetToSend == [] && o.sendQueue.packets == [] && o.sendSeq + Burden(o) <= U24
    ensures Leads(p, actions, r, from) && Ready(r, from) && r.At(Other(from)) == p.At(Other(from))
    ensures first == p.At(from).host.out.sendSeq <= r.At(from).host.out.sendSeq
    ensures var q := r.At(from).host.out; q.packetToSend == [] && q.sendQueue.packets == [] && From(q, first)
  {
    var o := p.At(from).host.out;
    first := o.sendSeq;
    var late := LateEnough(o.recovery, now);
    PassGoes(o, p.At(from).window, late, 0);
    PassLate(o, p.At(from).window, late);
    var a, q := PassLeads(p, from, late);
    var b, t := DrainedBy(q, from, late, first);
    LeadsOn(p, a, q, b, t, from);
    actions, r := a + b, t;
  }

  // ---------- one number after the other ----------

  lemma AscendingOne(n: nat)
    ensures Ascending({n}) == [n]
  {
    var xs := Ascending({n});
    assert |xs| == 1 && xs[0] in xs;
  }

  /** An ACK of one number is read as it was written. */
  lemma AckOfOne(n: nat)
    requires n < U24
    ensures Acknowledge.DecodeAck(Bytes(Ack({n}))) == Some([n])
  {
    var xs := [n];
    AscendingOne(n);
    assert (set x | x in xs) == {n};
    assert Acknowledge.Listed(xs) == xs;
    var rs := Acknowledge.Runs(xs);
    assert rs == [Acknowledge.Run(n, n)];
    assert rs[..|rs| - 1] == [];
    Acknowledge.AckRoundTrip(Acknowledge.ID_ACK, xs);
  }

  lemma AckBytes(n: nat)
    ensures Bytes(Ack({n})) != [] && Bytes(Ack({n}))[0] == Acknowledge.ID_ACK
  {
  }

  /** An ACK frees what it names. */
  lemma AckFrees(s: Session, raw: seq<byte>, n: nat, now: real)
    requires Online(s.host.app.phase) && raw != [] && raw[0] == Acknowledge.ID_ACK
    requires Acknowledge.DecodeAck(raw) == Some([n])
    ensures var t := HandleRaw(s, raw, now);
            t.host.out == ForgetOne(s.host.out, n) && t.window == s.window && Online(t.host.app.phase)
  {
    assert [n][1..] == [];
    assert HandleAck(s.host.out, [n]) == HandleAck(ForgetOne(s.host.out, n), []);
  }

  lemma ForgetSound(o: Outbound, n: nat)
    requires Sound(o)
    ensures Sound(ForgetOne(o, n))
  {
    MoveNumbers(o, Forget(n));
    MoveBalance(o, Forget(n));
  }

  lemma ForgetKeeps(o: Outbound, n: nat)
    requires Sending24(o)
    ensures Sending24(ForgetOne(o, n))
  {
    ForgetSound(o, n);
    MoveAccounts(o, Forget(n));
  }

  lemma {:induction false} NoneMissing(received: set<nat>, n: nat)
    ensures Missing(received, n, n) == []
  {
  }

  /** The number after the last one is taken, and is all there is to acknowledge. */
  lemma NextTaken(w: Window, d: Datagram)
    requires BothWindows(w) && w.ackQueue == {} && w.nackQueue == {} && d.seqNumber == w.lastSeq + 1
    ensures Admits(w, d.seqNumber)
    ensures var r := AcceptPackets(AcceptNumber(w, d.seqNumber), d.packets).window;
            && BothWindows(r) && r.lastSeq == d.seqNumber && r.ackQueue == {d.seqNumber} && r.nackQueue == {}
  {
    NoneMissing(w.received + {d.seqNumber}, d.seqNumber);
    AcceptNumberKeeps(w, d.seqNumber);
    AcceptPacketsSide(AcceptNumber(w, d.seqNumber), d.packets);
    HandleDatagramKeeps(w, d);
  }

  lemma DataTaken(g: Session, raw: seq<byte>, d: Datagram, now: real)
    requires Online(g.host.app.phase) && BothWindows(g.window) && g.window.ackQueue == {} && g.window.nackQueue == {}
    requires raw != [] && 0x80 <= raw[0] <= 0x8f && DecodeDatagram(raw) == Some(d) && d.seqNumber == g.window.lastSeq + 1
    ensures var t := HandleRaw(g, raw, now);
            && Online(t.host.app.phase) && BothWindows(t.window) && t.window.lastSeq == d.seqNumber
            && t.window.ackQueue == {d.seqNumber} && t.window.nackQueue == {}
  {
    RawWindow(g, raw, now);
    NextTaken(g.window, d);
    StaysOnline(g, Arrive(raw, now));
  }

  /** The datagram with a given number, among what was sent. */
  lemma {:induction false} FindSent(o: Outbound, n: nat) returns (k: nat, d: Datagram)
    requires Sending24(o) && o.packetToSend == [] && n < o.sendSeq
    ensures k < |o.sent| && o.sent[k].Data?
    ensures var raw := Bytes(o.sent[k]); raw != [] && 0x80 <= raw[0] <= 0x8f && DecodeDatagram(raw) == Some(d)
    ensures d.seqNumber == n
  {
    assert n in o.log by { assert !Promised(o, n); }
    k :| k < |o.sent| && o.sent[k].Data? && o.sent[k].datagram.seqNumber == n;
    var sent := o.sent[k].datagram;
    assert o.sent[k] in o.sent && Logged(o.log, sent);
    DatagramRead(o, sent);
    FirstByte(sent);
    d := DecodeDatagram(EncodeDatagram(sent)).value;
  }

  /** Nothing is left but what waits for its ACK, and the other side has nothing to report. */
  ghost predicate Waiting(p: Pair, from: Side) {
    var o, w := p.At(from).host.out, p.At(Other(from)).window;
    && Ready(p, from) && o.packetToSend == [] && o.sendQueue.packets == []
    && From(o, w.lastSeq + 1) && w.ackQueue == {} && w.nackQueue == {}
  }

  lemma FlushOne(g: Session, n: nat)
    requires g.window.ackQueue == {n} && g.window.nackQueue == {}
    ensures var t := FlushAcks(g);
            && t.host.out.sent == g.host.out.sent + [Ack({n})] && t.window == ClearQueues(g.window)
            && t.host.app == g.host.app
  {
  }

  /** Delivery of the next datagram, and a report of it. */
  lemma {:induction false} NumberTaken(p: Pair, from: Side, now: real) returns (actions: seq<Action>, q: Pair, k: nat)
    requires Waiting(p, from) && p.At(Other(from)).window.lastSeq + 1 < p.At(from).host.out.sendSeq
    ensures Leads(p, actions, q, from) && q.At(from) == p.At(from)
    ensures var g, n := q.At(Other(from)), p.At(Other(from)).window.lastSeq + 1;
            && Online(g.host.app.phase) && BothWindows(g.window) && g.window.lastSeq == n
            && g.window.ackQueue == {} && g.window.nackQueue == {}
            && k < |g.host.out.sent| && g.host.out.sent[k] == Ack({n})
  {
    var s, g, to := p.At(from), p.At(Other(from)), Other(from);
    var i, d := FindSent(s.host.out, g.window.lastSeq + 1);
    var g1, g2 := TakenAndReported(g, Bytes(s.host.out.sent[i]), d, now);
    var a, b := Deliver(to, i, now), Local(to, AckNow);
    ActTaken(p, from, i, g1, g2, now);
    LeadsTwo(p, a, b, from);
    k := |g1.host.out.sent|;
    actions, q := [a] + [b], p.Put(to, g2);
  }

  lemma {:induction false} TakenAndReported(g: Session, raw: seq<byte>, d: Datagram, now: real) returns (g1: Session, g2: Session)
    requires Online(g.host.app.phase) && BothWindows(g.window) && g.window.ackQueue == {} && g.window.nackQueue == {}
    requires raw != [] && 0x80 <= raw[0] <= 0x8f && DecodeDatagram(raw) == Some(d) && d.seqNumber == g.window.lastSeq + 1
    ensures g1 == HandleRaw(g, raw, now) && g2 == Step(g1, AckNow)
    ensures Online(g2.host.app.phase) && BothWindows(g2.window) && g2.window.lastSeq == d.seqNumber
    ensures g2.window.ackQueue == {} && g2.window.nackQueue == {}
    ensures g2.host.out.sent == g1.host.out.sent + [Ack({d.seqNumber})]
  {
    DataTaken(g, raw, d, now);
    g1 := HandleRaw(g, raw, now);
    FlushOne(g1, d.seqNumber);
    ClearedKeeps(g1.window);
    g2 := FlushAcks(g1);
  }

  lemma ActTaken(p: Pair, from: Side, i: nat, g1: Session, g2: Session, now: real)
    requires i < |p.At(from).host.out.sent|
    requires g1 == HandleRaw(p.At(Other(from)), Bytes(p.At(from).host.out.sent[i]), now) && g2 == Step(g1, AckNow)
    ensures Act(p, Deliver(Other(from), i, now)) == p.Put(Other(from), g1)
    ensures Act(p.Put(Other(from), g1), Local(Other(from), AckNow)) == p.Put(Other(from), g2)
  {
  }

  lemma ClearedKeeps(w: Window)
    requires BothWindows(w)
    ensures BothWindows(ClearQueues(w))
  {
  }

  /** Delivery of an ACK of one number. */
  lemma {:induction false} AckDelivered(q: Pair, from: Side, n: nat, k: nat, now: real) returns (r: Pair)
    requires Online(q.At(from).host.app.phase) && Sending24(q.At(from).host.out) && n < U24
    requires var sent := q.At(Other(from)).host.out.sent; k < |sent| && sent[k] == Ack({n})
    ensures Leads(q, [Deliver(from, k, now)], r, from) && r.At(Other(from)) == q.At(Other(from))
    ensures Online(r.At(from).host.app.phase) && Sending24(r.At(from).host.out)
    ensures var o, t := q.At(from).host.out, r.At(from).host.out;
            && t.recovery == o.recovery - {n} && t.packetToSend == o.packetToSend && t.sendQueue == o.sendQueue
            && t.sendSeq == o.sendSeq
  {
    var s := q.At(from);
    AckOfOne(n);
    AckBytes(n);
    AckFrees(s, Bytes(Ack({n})), n, now);
    ForgetKeeps(s.host.out, n);
    r := Act(q, Deliver(from, k, now));
    LeadsOne(q, Deliver(from, k, now), from);
  }

  /** Delivery of the next datagram, its acknowledgement, and delivery of that. */
  lemma {:induction false} OneTaken(p: Pair, from: Side, now: real) returns (actions: seq<Action>, r: Pair)
    requires Waiting(p, from) && p.At(Other(from)).window.lastSeq + 1 < p.At(from).host.out.sendSeq
    ensures Leads(p, actions, r, from) && Waiting(r, from)
    ensures r.At(from).host.out.sendSeq == p.At(from).host.out.sendSeq
    ensures r.At(Other(from)).window.lastSeq == p.At(Other(from)).window.lastSeq + 1
  {
    var n := p.At(Other(from)).window.lastSeq + 1;
    var a, q, k := NumberTaken(p, from, now);
    r := AckDelivered(q, from, n, k, now);
    StillWaiting(p.At(from).host.out, r, from, n);
    LeadsOn(p, a, q, [Deliver(from, k, now)], r, from);
    actions := a + [Deliver(from, k, now)];
  }

  lemma FromNext(o: Outbound, t: Outbound, n: nat)
    requires From(o, n) && t.recovery == o.recovery - {n} && t.packetToSend == []
    ensures From(t, n + 1)
  {
  }

  lemma StillWaiting(o: Outbound, r: Pair, from: Side, n: nat)
    requires From(o, n) && o.packetToSend == [] && o.sendQueue.packets == [] && n < o.sendSeq
    requires var t := r.At(from).host.out;
             && Sending24(t) && t.recovery == o.recovery - {n} && t.packetToSend == o.packetToSend
             && t.sendQueue == o.sendQueue && t.sendSeq == o.sendSeq
    requires var g := r.At(Other(from));
             && Online(g.host.app.phase) && BothWindows(g.window) && g.window.lastSeq == n
             && g.window.ackQueue == {} && g.window.nackQueue == {}
    requires Online(r.At(from).host.app.phase)
    ensures Waiting(r, from)
  {
    FromNext(o, r.At(from).host.out, n);
  }

  lemma NothingLeft(o: Outbound)
    requires Sending24(o) && From(o, o.sendSeq)
    ensures o.recovery == map[]
  {
    assert forall k :: k in o.recovery ==> k in o.log && k >= o.sendSeq;
    assert o.recovery.Keys == {};
  }

  /** All that waits is taken. */
  lemma {:induction false} AllTaken(p: Pair, from: Side, now: real) returns (actions: seq<Action>, r: Pair)
    requires Waiting(p, from)
    ensures Leads(p, actions, r, from) && Ready(r, from) && AtRest(r.At(from).host.out)
    decreases p.At(from).host.out.sendSeq - p.At(Other(from)).window.lastSeq
  {
    if p.At(Other(from)).window.lastSeq + 1 == p.At(from).host.out.sendSeq {
      NothingLeft(p.At(from).host.out);
      actions, r := [], p;
    } else {
      var a, q := OneTaken(p, from, now);
      var b, t := AllTaken(q, from, now);
      LeadsOn(p, a, q, b, t, from);
      actions, r := a + b, t;
    }
  }

  /** The other side reports what it has to report first. */
  lemma {:induction false} Reported(p: Pair, from: Side, first: nat) returns (actions: seq<Action>, r: Pair)
    requires Ready(p, from) && From(p.At(from).host.out, first) && p.At(Other(from)).window.lastSeq < first
    requires p.At(from).host.out.packetToSend == [] && p.At(from).host.out.sendQueue.packets == []
    ensures Leads(p, actions, r, from) && Waiting(r, from)
  {
    var a := Local(Other(from), AckNow);
    r := Act(p, a);
    LeadsOne(p, a, from);
    actions := [a];
  }

  /** The way to rest, from any pair that is ready: passes until everything is on the wire, a late pass
      that gives it new numbers, and one delivery after the other. */
  lemma {:induction false} WayToRest(p: Pair, from: Side, now: real) returns (actions: seq<Action>, r: Pair)
    requires Ready(p, from)
    requires var o := p.At(from).host.out; o.sendSeq + 2 * (Burden(o) + 1) <= U24
    ensures Leads(p, actions, r, from) && AtRest(r.At(from).host.out)
  {
    var a, q := AllSent(p, from, now, 0);
    var b, t, first := Renumbered(q, from, now);
    var c, u := Reported(t, from, first);
    var d, v := AllTaken(u, from, now);
    LeadsOn(p, a, q, b, t, from);
    LeadsOn(p, a + b, t, c, u, from);
    LeadsOn(p, a + b + c, u, d, v, from);
    actions, r := a + b + c + d, v;
  }

  // ---------- from the runs of the link ----------

  lemma {:induction false} ReachedAccounted(p: Pair, actions: seq<Action>, from: Side)
    requires Accounted(p.At(from).host.out)
    ensures Accounted(ActAll(p, actions).At(from).host.out)
    decreases |actions|
  {
    if actions != [] {
      ActAccounts(p, actions[0], from);
      ReachedAccounted(Act(p, actions[0]), actions[1..], from);
    }
  }

  lemma StepAccounts(s: Session, i: Input)
    requires Accounted(s.host.out)
    ensures Accounted(Step(s, i).host.out)
  {
    var ms := StepMoves(s, i);
    MovesAccount(s.host.out, ms);
  }

  lemma ActAccounts(p: Pair, a: Action, from: Side)
    requires Accounted(p.At(from).host.out)
    ensures Accounted(Act(p, a).At(from).host.out)
  {
    match a
    case Local(side, i) => if side == from { StepAccounts(p.At(from), i); }
    case Deliver(to, k, now) =>
      var wire := p.At(Other(to)).host.out.sent;
      if to == from && k < |wire| { StepAccounts(p.At(from), Arrive(Bytes(wire[k]), now)); }
  }

  /** The sending counters only go up. */
  lemma {:induction false} MovesCountUp(o: Outbound, ms: seq<Move>)
    requires forall m | m in ms :: !m.Count?
    ensures ApplyAll(o, ms).sendSeq >= o.sendSeq && ApplyAll(o, ms).messageIndex == o.messageIndex
    decreases |ms|
  {
    if ms != [] {
      assert ms[0] in ms;
      MovesCountUp(Apply(o, ms[0]), ms[1..]);
    }
  }

  lemma StepCountsUp(s: Session, i: Input)
    requires !i.Offer?
    ensures Step(s, i).host.out.sendSeq >= s.host.out.sendSeq && Step(s, i).host.out.messageIndex == s.host.out.messageIndex
  {
    var ms := StepMoves(s, i);
    assert forall m | m in ms :: Reaction(m);
    MovesCountUp(s.host.out, ms);
  }

  lemma GentleCountsUp(p: Pair, a: Action, side: Side)
    requires Gentle(a)
    ensures var o, r := p.At(side).host.out, Act(p, a).At(side).host.out;
            r.sendSeq >= o.sendSeq && r.messageIndex == o.messageIndex
  {
    match a
    case Local(at, i) => if side == at { StepCountsUp(p.At(side), i); }
    case Deliver(to, k, now) =>
      var wire := p.At(Other(to)).host.out.sent;
      if to == side && k < |wire| { StepCountsUp(p.At(side), Arrive(Bytes(wire[k]), now)); }
  }

  /** If the other side's numbers are below 2^24 in the end, they were all along. */
  lemma {:induction false} MildAllowed(p: Pair, actions: seq<Action>, from: Side)
    requires Mild(p, actions, from) && Triads(ActAll(p, actions).At(Other(from)).host.out)
    ensures Allowed(p, actions) && Triads(p.At(Other(from)).host.out)
    decreases |actions|
  {
    if actions != [] {
      GentleCountsUp(p, actions[0], Other(from));
      MildAllowed(Act(p, actions[0]), actions[1..], from);
    }
  }

  lemma {:induction false} AllowedOn(p: Pair, a: seq<Action>, b: seq<Action>)
    requires Allowed(p, a)
    ensures ActAll(p, a + b) == ActAll(ActAll(p, a), b)
    ensures Allowed(ActAll(p, a), b) ==> Allowed(p, a + b)
    decreases |a|
  {
    if a == [] {
      assert [] + b == b;
    } else {
      FirstOfAppend(a, b);
      AllowedOn(Act(p, a[0]), a[1..], b);
    }
  }

  lemma LaneIsReady(p: Pair, from: Side)
    requires PairLinked(p) && Accounted(p.At(from).host.out) && Triads(p.At(from).host.out)
    requires Online(p.left.host.app.phase) && Online(p.right.host.app.phase)
    ensures Ready(p, from)
  {
    var w := p.At(Other(from)).window;
    assert Lane(p.At(from).host.out, w);
    assert w.lastSeq >= 0 ==> w.lastSeq in w.accepted;
  }

  lemma {:induction false} MildIsGentle(p: Pair, actions: seq<Action>, from: Side)
    requires Mild(p, actions, from)
    ensures forall a | a in actions :: Gentle(a)
    decreases |actions|
  {
    if actions != [] {
      MildIsGentle(Act(p, actions[0]), actions[1..], from);
      assert forall a :: a in actions <==> a == actions[0] || a in actions[1..];
    }
  }

  /** Progress. From every moment of a run at which both sides are past the offline handshake and the
      sender has numbers left, there are actions without offers that bring the sender to rest: whatever
      the network has dropped, repeated or reordered so far, nothing needs to be lost for good. They
      are a continuation of the run, as long as the other side has numbers left for its own replies. */
  lemma {:induction false} ProgressToRest(p: Pair, before: seq<Action>, from: Side, now: real) returns (after: seq<Action>)
    requires Start(p) && Allowed(p, before)
    requires var q := ActAll(p, before);
             var o := q.At(from).host.out;
             && Online(q.left.host.app.phase) && Online(q.right.host.app.phase)
             && o.sendSeq + 2 * (|o.recovery| + |o.packetToSend| + 1) <= U24
    ensures forall a | a in after :: Gentle(a)
    ensures var r := ActAll(p, before + after);
            && AtRest(r.At(from).host.out)
            && (Triads(r.At(Other(from)).host.out) ==> Allowed(p, before + after))
  {
    var q := ActAll(p, before);
    StartLinked(p);
    ActAllKeeps(p, before);
    ReachedAccounted(p, before, from);
    AllowedEnds(p, before);
    LaneIsReady(q, from);
    var r: Pair;
    after, r := WayToRest(q, from, now);
    MildIsGentle(q, after, from);
    AllowedOn(p, before, after);
    if Triads(r.At(Other(from)).host.out) { MildAllowed(q, after, from); }
  }

  lemma {:induction false} AllowedEnds(p: Pair, actions: seq<Action>)
    requires Allowed(p, actions)
    ensures var q := ActAll(p, actions); Triads(q.left.host.out) && Triads(q.right.host.out)
    decreases |actions|
  {
    if actions != [] { AllowedEnds(Act(p, actions[0]), actions[1..]); }
  }

  // ---------- no way on without the next numbers ----------

  /** The bytes carry no datagram with a number from `lo` + 1 to `hi`. */
  predicate Misses(raw: seq<byte>, lo: int, hi: int) {
    raw != [] && 0x80 <= raw[0] <= 0x8f && DecodeDatagram(raw).Some? ==> !(lo < DecodeDatagram(raw).value.seqNumber <= hi)
  }

  /** No delivery to one side carries such a number. */
  ghost predicate Withheld(p: Pair, actions: seq<Action>, to: Side, lo: int, hi: int)
    decreases |actions|
  {
    actions != [] ==>
      var a, wire := actions[0], p.At(Other(to)).host.out.sent;
      && (a.Deliver? && a.to == to && a.k < |wire| ==> Misses(Bytes(wire[a.k]), lo, hi))
      && Withheld(Act(p, a), actions[1..], to, lo, hi)
  }

  lemma MissedLeaves(w: Window, raw: seq<byte>)
    requires BothWindows(w) && Misses(raw, w.lastSeq, w.windowEnd)
    ensures Received(w, raw) == w
  {
    if raw != [] && 0x80 <= raw[0] <= 0x8f && DecodeDatagram(raw).Some? {
      var n := DecodeDatagram(raw).value.seqNumber;
      if Admits(w, n) { AdmittedIsNew(w, n); }
    }
  }

  lemma StarvedStep(p: Pair, a: Action, to: Side, lo: int, hi: int)
    requires BothWindows(p.At(to).window) && p.At(to).window.lastSeq == lo && p.At(to).window.windowEnd == hi
    requires a.Local? ==> Permitted(p.At(a.side), a.input)
    requires var wire := p.At(Other(to)).host.out.sent;
             a.Deliver? && a.to == to && a.k < |wire| ==> Misses(Bytes(wire[a.k]), lo, hi)
    ensures var w, v := p.At(to).window, Act(p, a).At(to).window;
            SameHistory(w, v) && BothWindows(v) && v.lastSeq == lo && v.windowEnd == hi
  {
    var s := p.At(to);
    match a
    case Local(side, i) =>
      if side == to {
        LocalWindow(s, i);
        LocalNumbers(s, i);
      }
    case Deliver(at, k, now) =>
      var wire := p.At(Other(at)).host.out.sent;
      if at == to && k < |wire| {
        RawWindow(s, Bytes(wire[k]), now);
        MissedLeaves(s.window, Bytes(wire[k]));
      }
  }

  lemma LocalNumbers(s: Session, i: Input)
    requires Permitted(s, i)
    ensures Step(s, i).window.lastSeq == s.window.lastSeq && Step(s, i).window.windowEnd == s.window.windowEnd
  {
    if i.Arrive? { RawWindow(s, i.raw, i.now); }
  }

  /** As long as the network withholds the 2049 numbers after the last one taken, nothing else it may
      deliver is taken: nothing is routed or held, whatever the sender does, since datagrams are only
      ever sent again under higher numbers. */
  lemma {:induction false} Starved(p: Pair, actions: seq<Action>, to: Side)
    requires Allowed(p, actions) && BothWindows(p.At(to).window)
    requires Withheld(p, actions, to, p.At(to).window.lastSeq, p.At(to).window.windowEnd)
    ensures var w, v := p.At(to).window, ActAll(p, actions).At(to).window;
            SameHistory(w, v) && v.lastSeq == w.lastSeq && v.windowEnd == w.windowEnd
    decreases |actions|
  {
    if actions != [] {
      StarvedStep(p, actions[0], to, p.At(to).window.lastSeq, p.At(to).window.windowEnd);
      Starved(Act(p, actions[0]), actions[1..], to);
    }
  }
}
