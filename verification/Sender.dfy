/** What every run keeps on the sending side: live numbers are distinct and never reused, and every
    packet enqueued is in exactly one queue until an ACK names a datagram that carried it. */
module Sender {
  import opened Collections
  import opened Binary
  import opened Packets
  import opened SessionModel
  import opened Moves
  import opened Runs

  ghost function Payloads(m: map<nat, Datagram>): map<nat, seq<Packet>> {
    map k | k in m :: m[k].packets
  }

  ghost function Queued(ds: seq<Datagram>): multiset<Packet>
    decreases |ds|
  {
    if ds == [] then multiset{} else multiset(ds[0].packets) + Queued(ds[1..])
  }

  /** The packets held by the three queues and those whose datagram was acknowledged. */
  ghost function Carried(o: Outbound): multiset<Packet> {
    multiset(o.sendQueue.packets) + Queued(o.packetToSend) + Bag(Payloads(o.recovery)) + Bag(Payloads(o.retired))
  }

  predicate DataId(id: byte) { id == 0x80 || id == 0x84 }

  /** A number not yet on the wire and not promised to a waiting datagram. */
  ghost predicate Unused(o: Outbound, k: nat) {
    && k < o.sendSeq && k !in o.log
    && forall i | 0 <= i < |o.packetToSend| :: o.packetToSend[i].seqNumber != k
  }

  ghost predicate Logged(log: map<nat, seq<Packet>>, d: Datagram) {
    d.seqNumber in log && log[d.seqNumber] == d.packets && DataId(d.id)
  }

  /** Live numbers are below the counter, distinct, and used once. */
  ghost predicate Numbers(o: Outbound) {
    && (forall k | k in o.log :: k < o.sendSeq)
    && (forall k | k in o.recovery :: o.recovery[k].seqNumber == k && Logged(o.log, o.recovery[k]))
    && (forall k | k in o.retired :: k in o.acked && k !in o.recovery && k in o.log && o.log[k] == o.retired[k].packets)
    && (forall i | 0 <= i < |o.packetToSend| ::
          o.packetToSend[i].seqNumber < o.sendSeq && o.packetToSend[i].seqNumber !in o.log && DataId(o.packetToSend[i].id))
    && (forall i, j | 0 <= i < j < |o.packetToSend| :: o.packetToSend[i].seqNumber != o.packetToSend[j].seqNumber)
    && (forall m | m in o.sent && m.Data? :: Logged(o.log, m.datagram))
  }

  /** Every enqueued packet is carried, each exactly once, and nothing else was ever sent. */
  ghost predicate Balanced(o: Outbound) {
    && multiset(o.enqueued) == Carried(o)
    && (forall k | k in o.log :: forall p | p in o.log[k] :: p in o.enqueued)
  }

  ghost predicate Sound(o: Outbound) {
    Numbers(o) && Balanced(o)
  }

  lemma FreshIsSound(mtu: nat)
    ensures Sound(FreshOutbound(mtu))
  {
  }

  // ---------- the bags ----------

  lemma PayloadsInsert(m: map<nat, Datagram>, k: nat, d: Datagram)
    requires k !in m
    ensures Bag(Payloads(m[k := d])) == multiset(d.packets) + Bag(Payloads(m))
  {
    BagInsert(Payloads(m), k, d.packets);
    assert Payloads(m[k := d]) == Payloads(m)[k := d.packets];
  }

  lemma PayloadsRemove(m: map<nat, Datagram>, k: nat)
    requires k in m
    ensures Bag(Payloads(m)) == multiset(m[k].packets) + Bag(Payloads(m - {k}))
  {
    BagRemove(Payloads(m), k);
    assert Payloads(m - {k}) == Payloads(m) - {k};
  }

  lemma {:induction false} QueuedAppend(ds: seq<Datagram>, d: Datagram)
    ensures Queued(ds + [d]) == Queued(ds) + multiset(d.packets)
    decreases |ds|
  {
    if ds == [] {
      assert [] + [d] == [d] && [d][1..] == [];
    } else {
      QueuedAppend(ds[1..], d);
      assert (ds + [d])[1..] == ds[1..] + [d] && (ds + [d])[0] == ds[0];
    }
  }

  lemma InEnqueued(o: Outbound, ps: seq<Packet>)
    requires Balanced(o) && multiset(ps) <= Carried(o)
    ensures forall p | p in ps :: p in o.enqueued
  {
    forall p | p in ps ensures p in o.enqueued {
      assert p in multiset(ps);
      assert p in multiset(o.enqueued);
    }
  }

  // ---------- the moves keep the numbers ----------

  lemma SendNumbers(o: Outbound, d: Datagram, now: real)
    requires Numbers(o) && Unused(o, d.seqNumber) && DataId(d.id)
    ensures Numbers(SendDatagram(o, d, now))
  {
    var o1 := SendDatagram(o, d, now);
    assert Logged(o1.log, d.(sendTime := now));
    assert forall x | Logged(o.log, x) :: Logged(o1.log, x);
  }

  lemma FlushNumbers(o: Outbound, now: real)
    requires Numbers(o)
    ensures Numbers(FlushSendQueue(o, now))
  {
    if o.sendQueue.packets != [] {
      SendNumbers(o.(sendSeq := o.sendSeq + 1), o.sendQueue.(seqNumber := o.sendSeq, id := 0x84), now);
    }
  }

  lemma EnqueueNumbers(o: Outbound, p: Packet, immediate: bool, now: real)
    requires Numbers(o)
    ensures Numbers(AddToQueue(o, p, immediate, now))
  {
    var o0 := o.(enqueued := o.enqueued + [p]);
    if immediate {
      SendNumbers(o0.(sendSeq := o0.sendSeq + 1), Datagram(0x80, o0.sendSeq, [p], 0.0), now);
    } else {
      FlushNumbers(o0, now);
    }
  }

  lemma SendHeadNumbers(o: Outbound, now: real)
    requires Numbers(o)
    ensures Numbers(Apply(o, SendHead(now)))
  {
    if o.packetToSend != [] {
      SendNumbers(o.(packetToSend := o.packetToSend[1..]), o.packetToSend[0], now);
    }
  }

  lemma PostponeNumbers(o: Outbound, k: nat)
    requires Numbers(o)
    ensures Numbers(Apply(o, Postpone(k)))
  {
    if k in o.recovery {
      assert Logged(o.log, o.recovery[k]);
    }
  }

  lemma RepeatNumbers(o: Outbound, k: nat, now: real)
    requires Numbers(o)
    ensures Numbers(ResendOne(o, k, now))
  {
    if k in o.recovery {
      assert Logged(o.log, o.recovery[k]);
      SendNumbers(o.(sendSeq := o.sendSeq + 1, recovery := o.recovery - {k}), o.recovery[k].(seqNumber := o.sendSeq), now);
    }
  }

  lemma ForgetNumbers(o: Outbound, k: nat)
    requires Numbers(o)
    ensures Numbers(ForgetOne(o, k))
  {
    if k in o.recovery {
      assert Logged(o.log, o.recovery[k]);
    }
  }

  lemma MoveNumbers(o: Outbound, m: Move)
    requires Numbers(o)
    ensures Numbers(Apply(o, m))
  {
    match m
    case Count(_, _, _) =>
    case Enqueue(p, imm, now) => EnqueueNumbers(o, p, imm, now);
    case Flush(now) => FlushNumbers(o, now);
    case SendHead(now) => SendHeadNumbers(o, now);
    case Postpone(k) => PostponeNumbers(o, k);
    case Forget(k) => ForgetNumbers(o, k);
    case Repeat(k, now) => RepeatNumbers(o, k, now);
    case Tell(_) =>
    case SetMtu(_) =>
  }

  // ---------- the moves keep the balance ----------

  /** Sending under an unused number adds the payload to what is carried. */
  lemma SendCarries(o: Outbound, d: Datagram, now: real)
    requires d.seqNumber !in o.recovery
    ensures Carried(SendDatagram(o, d, now)) == Carried(o) + multiset(d.packets)
  {
    PayloadsInsert(o.recovery, d.seqNumber, d.(sendTime := now));
  }

  // Moving one bag of packets between the four summands of Carried.

  lemma FirstToThird<T>(a: multiset<T>, b: multiset<T>, c: multiset<T>, d: multiset<T>)
    ensures multiset{} + b + (a + c) + d == a + b + c + d
  {
  }

  lemma SecondToThird<T>(a: multiset<T>, b: multiset<T>, c: multiset<T>, d: multiset<T>, x: multiset<T>)
    ensures a + b + (x + c) + d == a + (x + b) + c + d
    ensures a + (b + x) + c + d == a + b + (x + c) + d
  {
  }

  lemma FromSecond<T>(a: multiset<T>, b: multiset<T>, c: multiset<T>, d: multiset<T>, x: multiset<T>)
    ensures a + (x + b) + c + d == (a + b + c + d) + x
  {
  }

  lemma FlushBalance(o: Outbound, now: real)
    requires Sound(o)
    ensures Balanced(FlushSendQueue(o, now)) && FlushSendQueue(o, now).enqueued == o.enqueued
  {
    if o.sendQueue.packets != [] {
      var ps := o.sendQueue.packets;
      var d := o.sendQueue.(seqNumber := o.sendSeq, id := 0x84, sendTime := now);
      InEnqueued(o, ps);
      PayloadsInsert(o.recovery, d.seqNumber, d);
      var o1 := FlushSendQueue(o, now);
      assert o1.recovery == o.recovery[d.seqNumber := d];
      FirstToThird(multiset(ps), Queued(o.packetToSend), Bag(Payloads(o.recovery)), Bag(Payloads(o.retired)));
      assert Carried(o1) == Carried(o);
    }
  }

  lemma EnqueueNowBalance(o: Outbound, p: Packet, now: real)
    requires Sound(o)
    ensures Balanced(AddToQueue(o, p, true, now))
  {
    var o1 := o.(enqueued := o.enqueued + [p], sendSeq := o.sendSeq + 1);
    assert Carried(o1) == Carried(o);
    SendCarries(o1, Datagram(0x80, o.sendSeq, [p], 0.0), now);
  }

  lemma PushBalance(o: Outbound, p: Packet)
    requires Balanced(o)
    ensures Balanced(o.(enqueued := o.enqueued + [p], sendQueue := o.sendQueue.(packets := o.sendQueue.packets + [p])))
  {
  }

  lemma EnqueueLaterBalance(o: Outbound, p: Packet, now: real)
    requires Sound(o)
    ensures Balanced(AddToQueue(o, p, false, now))
  {
    if Length(o.sendQueue) + TotalLength(p) > o.mtu {
      FlushBalance(o, now);
      PushBalance(FlushSendQueue(o, now), p);
    } else {
      PushBalance(o, p);
    }
  }

  lemma WithoutHead(o: Outbound)
    requires o.packetToSend != []
    ensures Carried(o) == Carried(o.(packetToSend := o.packetToSend[1..])) + multiset(o.packetToSend[0].packets)
  {
    FromSecond(multiset(o.sendQueue.packets), Queued(o.packetToSend[1..]), Bag(Payloads(o.recovery)),
               Bag(Payloads(o.retired)), multiset(o.packetToSend[0].packets));
  }

  lemma HeadUnused(o: Outbound)
    requires Numbers(o) && o.packetToSend != []
    ensures o.packetToSend[0].seqNumber !in o.recovery
  {
    var k := o.packetToSend[0].seqNumber;
    assert k in o.recovery ==> Logged(o.log, o.recovery[k]);
  }

  lemma SendHeadBalance(o: Outbound, now: real)
    requires Balanced(o) && o.packetToSend != []
    requires o.packetToSend[0].seqNumber !in o.recovery
    ensures Balanced(SendDatagram(o.(packetToSend := o.packetToSend[1..]), o.packetToSend[0], now))
  {
    var d := o.packetToSend[0];
    var o1 := o.(packetToSend := o.packetToSend[1..]);
    WithoutHead(o);
    InEnqueued(o, d.packets);
    SendCarries(o1, d, now);
  }

  lemma PostponeBalance(o: Outbound, k: nat)
    requires Sound(o)
    ensures Balanced(Apply(o, Postpone(k)))
  {
    if k in o.recovery {
      var d := o.recovery[k].(seqNumber := o.sendSeq);
      PayloadsRemove(o.recovery, k);
      QueuedAppend(o.packetToSend, d);
      SecondToThird(multiset(o.sendQueue.packets), Queued(o.packetToSend), Bag(Payloads(o.recovery - {k})),
                    Bag(Payloads(o.retired)), multiset(d.packets));
      assert Carried(Reschedule(o, k)) == Carried(o);
    }
  }

  lemma ForgetBalance(o: Outbound, k: nat)
    requires Sound(o)
    ensures Balanced(ForgetOne(o, k))
  {
    if k in o.recovery {
      PayloadsRemove(o.recovery, k);
      PayloadsInsert(o.retired, k, o.recovery[k]);
    } else {
      assert o.recovery - {k} == o.recovery;
    }
  }

  lemma RepeatBalance(o: Outbound, k: nat, now: real)
    requires Sound(o)
    ensures Balanced(ResendOne(o, k, now))
  {
    if k in o.recovery {
      var d := o.recovery[k].(seqNumber := o.sendSeq);
      var o1 := o.(sendSeq := o.sendSeq + 1, recovery := o.recovery - {k});
      PayloadsRemove(o.recovery, k);
      assert Carried(o) == Carried(o1) + multiset(d.packets);
      InEnqueued(o, d.packets);
      SendCarries(o1, d, now);
    }
  }

  /** Counters, the packet size and other messages carry nothing. */
  lemma OtherBalance(o: Outbound, r: Outbound)
    requires Balanced(o)
    requires r.sendQueue == o.sendQueue && r.packetToSend == o.packetToSend && r.recovery == o.recovery
    requires r.retired == o.retired && r.enqueued == o.enqueued && r.log == o.log
    ensures Balanced(r)
  {
    assert Carried(r) == Carried(o);
  }

  lemma MoveEnqueueBalance(o: Outbound, p: Packet, immediate: bool, now: real)
    requires Sound(o)
    ensures Balanced(Apply(o, Enqueue(p, immediate, now)))
  {
    if immediate { EnqueueNowBalance(o, p, now); } else { EnqueueLaterBalance(o, p, now); }
  }

  lemma MoveHeadBalance(o: Outbound, now: real)
    requires Sound(o)
    ensures Balanced(Apply(o, SendHead(now)))
  {
    if o.packetToSend != [] { HeadUnused(o); SendHeadBalance(o, now); }
  }

  lemma MoveFlushBalance(o: Outbound, now: real)
    requires Sound(o)
    ensures Balanced(Apply(o, Flush(now)))
  {
    FlushBalance(o, now);
  }

  lemma MovePostponeBalance(o: Outbound, k: nat)
    requires Sound(o)
    ensures Balanced(Apply(o, Postpone(k)))
  {
    PostponeBalance(o, k);
  }

  lemma MoveForgetBalance(o: Outbound, k: nat)
    requires Sound(o)
    ensures Balanced(Apply(o, Forget(k)))
  {
    ForgetBalance(o, k);
  }

  lemma MoveRepeatBalance(o: Outbound, k: nat, now: real)
    requires Sound(o)
    ensures Balanced(Apply(o, Repeat(k, now)))
  {
    RepeatBalance(o, k, now);
  }

  lemma MoveOtherBalance(o: Outbound, m: Move)
    requires Sound(o) && (m.Count? || m.Tell? || m.SetMtu?)
    ensures Balanced(Apply(o, m))
  {
    OtherBalance(o, Apply(o, m));
  }

  lemma MoveBalance(o: Outbound, m: Move)
    requires Sound(o)
    ensures Balanced(Apply(o, m))
  {
    match m
    case Enqueue(p, imm, now) => MoveEnqueueBalance(o, p, imm, now);
    case Flush(now) => MoveFlushBalance(o, now);
    case SendHead(now) => MoveHeadBalance(o, now);
    case Postpone(k) => MovePostponeBalance(o, k);
    case Forget(k) => MoveForgetBalance(o, k);
    case Repeat(k, now) => MoveRepeatBalance(o, k, now);
    case _ => MoveOtherBalance(o, m);
  }

  lemma {:induction false} MovesKeep(o: Outbound, ms: seq<Move>)
    requires Sound(o)
    ensures Sound(ApplyAll(o, ms))
    decreases |ms|
  {
    if ms != [] {
      MoveNumbers(o, ms[0]);
      MoveBalance(o, ms[0]);
      MovesKeep(Apply(o, ms[0]), ms[1..]);
    }
  }

  // ---------- whole runs ----------

  lemma {:induction false} RunIsSound(s: Session, inputs: seq<Input>)
    requires Sound(s.host.out)
    ensures Sound(Run(s, inputs).host.out)
    decreases |inputs|
  {
    if inputs != [] {
      var ms := StepMoves(s, inputs[0]);
      MovesKeep(s.host.out, ms);
      RunIsSound(Step(s, inputs[0]), inputs[1..]);
    }
  }

  /** The numbers of datagrams waiting to be sent or to be acknowledged. */
  ghost predicate LiveNumbersDistinct(o: Outbound) {
    && (forall k | k in o.recovery :: o.recovery[k].seqNumber == k < o.sendSeq)
    && (forall i | 0 <= i < |o.packetToSend| ::
          o.packetToSend[i].seqNumber < o.sendSeq && o.packetToSend[i].seqNumber !in o.recovery)
    && (forall i, j | 0 <= i < j < |o.packetToSend| :: o.packetToSend[i].seqNumber != o.packetToSend[j].seqNumber)
  }

  ghost predicate InQueues(o: Outbound, p: Packet) {
    || p in o.sendQueue.packets
    || (exists i :: 0 <= i < |o.packetToSend| && p in o.packetToSend[i].packets)
    || (exists k :: k in o.recovery && p in o.recovery[k].packets)
  }

  ghost predicate AckedWith(o: Outbound, p: Packet) {
    exists k :: k in o.acked && k in o.log && p in o.log[k]
  }

  lemma {:induction false} QueuedMember(ds: seq<Datagram>, p: Packet)
    requires p in Queued(ds)
    ensures exists i :: 0 <= i < |ds| && p in ds[i].packets
    decreases |ds|
  {
    if p !in ds[0].packets {
      QueuedMember(ds[1..], p);
      var i :| 0 <= i < |ds[1..]| && p in ds[1..][i].packets;
      assert p in ds[i + 1].packets;
    }
  }

  lemma WhereCarried(o: Outbound, p: Packet)
    requires Sound(o) && p in o.enqueued
    ensures InQueues(o, p) || AckedWith(o, p)
  {
    assert p in multiset(o.enqueued);
    assert p in Carried(o);
    if p in multiset(o.sendQueue.packets) {
      assert p in o.sendQueue.packets;
    } else if p in Queued(o.packetToSend) {
      QueuedMember(o.packetToSend, p);
    } else if p in Bag(Payloads(o.recovery)) {
      BagMember(Payloads(o.recovery), p);
      var k :| k in Payloads(o.recovery) && p in Payloads(o.recovery)[k];
      assert k in o.recovery && p in o.recovery[k].packets;
    } else {
      BagMember(Payloads(o.retired), p);
      var k :| k in Payloads(o.retired) && p in Payloads(o.retired)[k];
      assert k in o.acked && p in o.log[k];
    }
  }

  /** Whatever the host offers and whatever bytes arrive: each enqueued packet is held once, over
      the three queues and the acknowledged datagrams; it leaves the queues only when an ACK names a
      datagram that carried it; and no two live datagrams share a number. */
  lemma {:induction false} SenderConservation(config: Config, inputs: seq<Input>)
    ensures var o := Run(FreshSession(config), inputs).host.out;
            && multiset(o.enqueued) == Carried(o)
            && (forall p | p in o.enqueued :: InQueues(o, p) || AckedWith(o, p))
            && LiveNumbersDistinct(o)
  {
    var o := Run(FreshSession(config), inputs).host.out;
    FreshIsSound(548);
    RunIsSound(FreshSession(config), inputs);
    forall p | p in o.enqueued ensures InQueues(o, p) || AckedWith(o, p) {
      WhereCarried(o, p);
    }
    forall k | k in o.recovery ensures o.recovery[k].seqNumber == k < o.sendSeq {
      assert Logged(o.log, o.recovery[k]);
    }
    forall i | 0 <= i < |o.packetToSend| ensures o.packetToSend[i].seqNumber !in o.recovery {
      var k := o.packetToSend[i].seqNumber;
      assert k in o.recovery ==> Logged(o.log, o.recovery[k]);
    }
  }
}
