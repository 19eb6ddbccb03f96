/** What the peer is told about its datagrams: over every run, each number accepted is named by one ACK
    or waits for it, each number found missing by one NACK or waits for it, and no other is named. */
module Reports {
  import opened Collections
  import opened Binary
  import opened Packets
  import opened SessionModel
  import opened Moves
  import opened Runs
  import opened Windows
  import Resends

  /** The ACKs and NACKs among the messages sent, in order. */
  function ReportsOf(sent: seq<Message>): seq<Message> {
    if sent == [] then []
    else
      var last := sent[|sent| - 1];
      ReportsOf(sent[..|sent| - 1]) + (if last.Ack? || last.Nack? then [last] else [])
  }

  lemma {:induction false} ReportsSnoc(sent: seq<Message>, m: Message)
    ensures ReportsOf(sent + [m]) == ReportsOf(sent) + (if m.Ack? || m.Nack? then [m] else [])
  {
    assert (sent + [m])[..|sent|] == sent;
  }

  // ---------- what each step tells ----------

  predicate TellsReport(m: Move) { m.Tell? && (m.message.Ack? || m.message.Nack?) }

  /** At most one message more, and no report. */
  predicate AtMostOne(before: seq<Message>, after: seq<Message>) {
    || after == before
    || (|after| == |before| + 1 && after == before + [after[|before|]] && !after[|before|].Ack? && !after[|before|].Nack?)
  }

  lemma EnqueueOne(o: Outbound, p: Packet, immediate: bool, now: real)
    ensures AtMostOne(o.sent, AddToQueue(o, p, immediate, now).sent)
  {
  }

  lemma SentOne(o: Outbound, m: Move)
    requires !TellsReport(m)
    ensures AtMostOne(o.sent, Apply(o, m).sent)
  {
    if m.Enqueue? { EnqueueOne(o, m.packet, m.immediate, m.now); }
  }

  lemma {:induction false} MovesTellNothing(o: Outbound, ms: seq<Move>)
    requires forall m | m in ms :: !TellsReport(m)
    ensures ReportsOf(ApplyAll(o, ms).sent) == ReportsOf(o.sent)
    decreases |ms|
  {
    if ms != [] {
      assert ms[0] in ms;
      var r := Apply(o, ms[0]);
      SentOne(o, ms[0]);
      if r.sent != o.sent { ReportsSnoc(o.sent, r.sent[|o.sent|]); }
      assert ReportsOf(r.sent) + [] == ReportsOf(r.sent);
      MovesTellNothing(r, ms[1..]);
    }
  }

  /** A step that tells what is queued: a periodic pass, unless the session has timed out, or a flush. */
  predicate Tells(s: Session, i: Input) { i.AckNow? || (i.Tick? && !TimedOut(s.host.app, i.now)) }

  lemma {:induction false} SendAcksTells(o: Outbound, w: Window)
    ensures ReportsOf(SendAcks(o, w.ackQueue, w.nackQueue).sent) == ReportsOf(o.sent) + Resends.AckMessages(w)
  {
    var a := if w.ackQueue == {} then o.sent else o.sent + [Ack(w.ackQueue)];
    ReportsSnoc(o.sent, Ack(w.ackQueue));
    ReportsSnoc(a, Nack(w.nackQueue));
    assert ReportsOf(o.sent) + [] == ReportsOf(o.sent);
    Append(ReportsOf(o.sent), if w.ackQueue == {} then [] else [Ack(w.ackQueue)],
           if w.nackQueue == {} then [] else [Nack(w.nackQueue)]);
  }

  lemma {:induction false} UpdateTells(o: Outbound, w: Window, now: real)
    ensures ReportsOf(UpdateOut(o, w, now).sent) == ReportsOf(o.sent) + Resends.AckMessages(w)
  {
    var o1 := SendAcks(o, w.ackQueue, w.nackQueue);
    SendAcksTells(o, w);
    var ms := ResendMoves(o1, now);
    MovesTellNothing(o1, ms);
    ApplyOne(Resend(o1, now), Flush(now));
    MovesTellNothing(Resend(o1, now), [Flush(now)]);
  }

  lemma {:induction false} StepTells(s: Session, i: Input)
    ensures ReportsOf(Step(s, i).host.out.sent)
         == ReportsOf(s.host.out.sent) + if Tells(s, i) then Resends.AckMessages(s.window) else []
  {
    var none: seq<Message> := [];
    assert ReportsOf(s.host.out.sent) + none == ReportsOf(s.host.out.sent);
    match i
    case Offer(p, imm, now) =>
      var ms := OfferMoves(s.host.out, p, imm, now);
      MovesTellNothing(s.host.out, ms);
    case Arrive(raw, now) =>
      var ms := RawMoves(s, raw, now);
      MovesTellNothing(s.host.out, ms);
    case Tick(now) =>
      UpdateTells(s.host.out, s.window, now);
    case AckNow =>
      SendAcksTells(s.host.out, s.window);
    case HangUp =>
  }

  /** A flush tells, in one ACK and one NACK, all that is queued, and empties the queues. */
  lemma FlushTellsAll(s: Session)
    ensures var t, acks, nacks := FlushAcks(s), s.window.ackQueue, s.window.nackQueue;
            && t.host.out.sent == s.host.out.sent + (if acks == {} then [] else [Ack(acks)])
                                  + (if nacks == {} then [] else [Nack(nacks)])
            && t.window.ackQueue == {} && t.window.nackQueue == {}
            && t.host.app == s.host.app && t.host.out.recovery == s.host.out.recovery
  {
  }

  // ---------- told once ----------

  predicate Names(m: Message, ack: bool, k: nat) {
    if ack then m.Ack? && k in m.numbers else m.Nack? && k in m.numbers
  }

  ghost predicate Named(reports: seq<Message>, ack: bool, k: nat) {
    exists i :: 0 <= i < |reports| && Names(reports[i], ack, k)
  }

  /** A number of `all` is queued or was named, and not both; no number was named twice; no other is
      queued or was named. */
  ghost predicate ToldOnce(reports: seq<Message>, ack: bool, queue: set<nat>, all: seq<nat>) {
    && (forall k: nat :: k in all <==> k in queue || Named(reports, ack, k))
    && (forall k | k in queue :: !Named(reports, ack, k))
    && (forall i, j, k: nat | 0 <= i < j < |reports| && Names(reports[i], ack, k) :: !Names(reports[j], ack, k))
  }

  lemma MoreQueued(reports: seq<Message>, ack: bool, queue: set<nat>, all: seq<nat>, more: seq<nat>)
    requires ToldOnce(reports, ack, queue, all) && forall k | k in more :: k !in all
    ensures ToldOnce(reports, ack, queue + (set k | k in more), all + more)
  {
  }

  /** A message names what was queued, and the queue is emptied. */
  lemma QueueTold(reports: seq<Message>, ack: bool, queue: set<nat>, all: seq<nat>, m: Message)
    requires ToldOnce(reports, ack, queue, all) && forall k: nat :: Names(m, ack, k) <==> k in queue
    ensures ToldOnce(reports + [m], ack, {}, all)
  {
    var more := reports + [m];
    assert more[|reports|] == m && forall i | 0 <= i < |reports| :: more[i] == reports[i];
    forall k: nat ensures Named(more, ack, k) <==> Named(reports, ack, k) || Names(m, ack, k) {
      if Named(reports, ack, k) {
        var i :| 0 <= i < |reports| && Names(reports[i], ack, k);
        assert Names(more[i], ack, k);
      }
    }
  }

  lemma OtherTold(reports: seq<Message>, ack: bool, queue: set<nat>, all: seq<nat>, m: Message)
    requires ToldOnce(reports, ack, queue, all) && forall k: nat :: !Names(m, ack, k)
    ensures ToldOnce(reports + [m], ack, queue, all)
  {
    var more := reports + [m];
    assert more[|reports|] == m && forall i | 0 <= i < |reports| :: more[i] == reports[i];
    forall k: nat ensures Named(more, ack, k) <==> Named(reports, ack, k) {
      if Named(reports, ack, k) {
        var i :| 0 <= i < |reports| && Names(reports[i], ack, k);
        assert Names(more[i], ack, k);
      }
    }
  }

  lemma {:induction false} BothTold(reports: seq<Message>, w: Window)
    requires ToldOnce(reports, true, w.ackQueue, w.accepted) && ToldOnce(reports, false, w.nackQueue, w.nacked)
    ensures ToldOnce(reports + Resends.AckMessages(w), true, {}, w.accepted)
    ensures ToldOnce(reports + Resends.AckMessages(w), false, {}, w.nacked)
  {
    var a: seq<Message> := if w.ackQueue == {} then [] else [Ack(w.ackQueue)];
    var b: seq<Message> := if w.nackQueue == {} then [] else [Nack(w.nackQueue)];
    if a != [] {
      QueueTold(reports, true, w.ackQueue, w.accepted, a[0]);
      OtherTold(reports, false, w.nackQueue, w.nacked, a[0]);
    }
    assert reports + [] == reports;
    if b != [] {
      QueueTold(reports + a, false, w.nackQueue, w.nacked, b[0]);
      OtherTold(reports + a, true, {}, w.accepted, b[0]);
    }
    assert reports + a + [] == reports + a;
    Append(reports, a, b);
  }

  ghost predicate AllTold(s: Session) {
    && BothWindows(s.window)
    && ToldOnce(ReportsOf(s.host.out.sent), true, s.window.ackQueue, s.window.accepted)
    && ToldOnce(ReportsOf(s.host.out.sent), false, s.window.nackQueue, s.window.nacked)
  }

  // ---------- numbers arriving ----------

  lemma {:induction false} MissingIsNew(w: Window, n: nat)
    requires DatagramWindow(w) && Admits(w, n)
    ensures forall k | k in Missing(w.received + {n}, w.lastSeq + 1, n) :: k !in w.nacked
    ensures n !in w.accepted && n !in w.nackQueue
  {
    AdmittedIsNew(w, n);
    var missing := Missing(w.received + {n}, w.lastSeq + 1, n);
    MissingIsRange(w.received + {n}, w.lastSeq + 1, n);
    forall k | k in missing ensures k !in w.nacked {
      var i :| 0 <= i < |missing| && missing[i] == k;
    }
  }

  lemma NumberTold(reports: seq<Message>, w: Window, n: nat)
    requires DatagramWindow(w) && Admits(w, n)
    requires ToldOnce(reports, true, w.ackQueue, w.accepted) && ToldOnce(reports, false, w.nackQueue, w.nacked)
    ensures var r := AcceptNumber(w, n);
            && ToldOnce(reports, true, r.ackQueue, r.accepted) && ToldOnce(reports, false, r.nackQueue, r.nacked)
  {
    MissingIsNew(w, n);
    var missing := Missing(w.received + {n}, w.lastSeq + 1, n);
    MoreQueued(reports, true, w.ackQueue, w.accepted, [n]);
    MoreQueued(reports, false, w.nackQueue, w.nacked, missing);
    QueuesAfter(w, n, missing);
  }

  lemma {:induction false} QueuesAfter(w: Window, n: nat, missing: seq<nat>)
    requires missing == Missing(w.received + {n}, w.lastSeq + 1, n) && n !in w.nackQueue
    ensures var r := AcceptNumber(w, n);
            && r.ackQueue == w.ackQueue + (set k | k in [n]) && r.accepted == w.accepted + [n]
            && r.nackQueue == w.nackQueue + (set k | k in missing) && r.nacked == w.nacked + missing
  {
    assert (set k | k in [n]) == {n};
    assert w.nackQueue - {n} == w.nackQueue;
  }

  lemma ReceivedTold(reports: seq<Message>, w: Window, raw: seq<byte>)
    requires BothWindows(w)
    requires ToldOnce(reports, true, w.ackQueue, w.accepted) && ToldOnce(reports, false, w.nackQueue, w.nacked)
    ensures var r := Received(w, raw);
            && ToldOnce(reports, true, r.ackQueue, r.accepted) && ToldOnce(reports, false, r.nackQueue, r.nacked)
  {
    if raw != [] && 0x80 <= raw[0] <= 0x8f {
      var d := DecodeDatagram(raw);
      if d.Some? && Admits(w, d.value.seqNumber) {
        NumberTold(reports, w, d.value.seqNumber);
        AcceptPacketsSide(AcceptNumber(w, d.value.seqNumber), d.value.packets);
      }
    }
  }

  lemma StepAllTold(s: Session, i: Input)
    requires AllTold(s)
    ensures AllTold(Step(s, i))
  {
    StepTells(s, i);
    StepKeepsWindows(s, i);
    var reports := ReportsOf(s.host.out.sent);
    assert reports + [] == reports;
    BothTold(reports, s.window);
    if i.Arrive? {
      RawWindow(s, i.raw, i.now);
      ReceivedTold(reports, s.window, i.raw);
    }
  }

  lemma {:induction false} RunAllTold(s: Session, inputs: seq<Input>)
    requires AllTold(s)
    ensures AllTold(Run(s, inputs))
    decreases |inputs|
  {
    if inputs != [] {
      StepAllTold(s, inputs[0]);
      RunAllTold(Step(s, inputs[0]), inputs[1..]);
    }
  }

  /** Over every run of a session: every number up to the last one seen was accepted or found missing,
      never both. Each one accepted waits in the ACK queue or was named by exactly one ACK sent, each one
      missing waits in the NACK queue or was named by exactly one NACK sent, and nothing else was ever
      named. */
  lemma {:induction false} EachNumberReported(config: Config, inputs: seq<Input>)
    ensures var s := Run(FreshSession(config), inputs);
            && (forall k: nat :: k <= s.window.lastSeq <==> k in s.window.accepted || k in s.window.nacked)
            && (forall k | k in s.window.accepted :: k !in s.window.nacked)
            && ToldOnce(ReportsOf(s.host.out.sent), true, s.window.ackQueue, s.window.accepted)
            && ToldOnce(ReportsOf(s.host.out.sent), false, s.window.nackQueue, s.window.nacked)
  {
    RunAllTold(FreshSession(config), inputs);
  }
}
