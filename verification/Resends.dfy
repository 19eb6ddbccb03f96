/** What is sent again, and when: exactly which datagrams a NACK, an ACK and a periodic pass touch,
    under which numbers they come back, and when a session is given up. */
module Resends {
  import opened Collections
  import opened Binary
  import opened Packets
  import opened SessionModel
  import opened Runs
  import opened Sender
  import Acknowledge

  // ---------- a NACK ----------

  /** The numbers of `keys` among those named, each where it is named first. */
  function FirstNamed(ns: seq<nat>, keys: set<nat>): seq<nat> {
    if ns == [] then []
    else if ns[0] in keys then [ns[0]] + FirstNamed(ns[1..], keys - {ns[0]})
    else FirstNamed(ns[1..], keys)
  }

  ghost predicate Different(xs: seq<nat>) {
    forall i, j | 0 <= i < j < |xs| :: xs[i] != xs[j]
  }

  lemma {:induction false} NamedOnce(ns: seq<nat>, keys: set<nat>)
    ensures forall x :: x in FirstNamed(ns, keys) <==> x in ns && x in keys
    ensures Different(FirstNamed(ns, keys))
    decreases |ns|
  {
    if ns != [] {
      assert forall x :: x in ns <==> x == ns[0] || x in ns[1..];
      if ns[0] in keys {
        var rest := FirstNamed(ns[1..], keys - {ns[0]});
        NamedOnce(ns[1..], keys - {ns[0]});
        assert ns[0] !in rest;
        assert forall x :: x in [ns[0]] + rest <==> x == ns[0] || x in rest;
      } else {
        NamedOnce(ns[1..], keys);
      }
    }
  }

  /** The datagrams waiting under the numbers `ks`, under the numbers from `first` up. */
  function Renumber(waiting: map<nat, Datagram>, ks: seq<nat>, first: nat): seq<Datagram>
    requires forall k | k in ks :: k in waiting
  {
    seq(|ks|, i requires 0 <= i < |ks| => waiting[ks[i]].(seqNumber := first + i))
  }

  /** Datagrams as they are handed to the socket. */
  function AsSent(ds: seq<Datagram>, now: real): seq<Message> {
    seq(|ds|, i requires 0 <= i < |ds| => Data(ds[i].(sendTime := now)))
  }

  lemma AsSentFirst(d: Datagram, ds: seq<Datagram>, now: real)
    ensures AsSent([d] + ds, now) == [Data(d.(sendTime := now))] + AsSent(ds, now)
  {
  }

  /** Renumbering goes on one number later after the first, whatever else becomes of the map. */
  lemma RenumberFirst(waiting: map<nat, Datagram>, after: map<nat, Datagram>, k: nat, rest: seq<nat>, first: nat)
    requires k in waiting && forall j | j in rest :: j in waiting && j in after && after[j] == waiting[j]
    ensures forall j | j in [k] + rest :: j in waiting
    ensures Renumber(waiting, [k] + rest, first)
         == [waiting[k].(seqNumber := first)] + Renumber(after, rest, first + 1)
  {
    assert forall j | j in [k] + rest :: j == k || j in rest;
    var a := Renumber(waiting, [k] + rest, first);
    var b := [waiting[k].(seqNumber := first)] + Renumber(after, rest, first + 1);
    forall i | 0 <= i < |a| ensures a[i] == b[i] {
      if i > 0 { assert ([k] + rest)[i] == rest[i - 1] && rest[i - 1] in rest; }
    }
  }

  /** What waits in `after` is what waited before except `named`, and those under the numbers from
      `first` up. */
  ghost predicate WaitsAgain(waiting: map<nat, Datagram>, after: map<nat, Datagram>, named: seq<nat>,
                             first: nat, now: real)
    requires forall k | k in named :: k in waiting
  {
    && (forall k :: k in after <==> (k in waiting && k !in named) || first <= k < first + |named|)
    && (forall k | k in waiting && k !in named && k < first :: after[k] == waiting[k])
    && (forall i | 0 <= i < |named| ::
          after[first + i] == waiting[named[i]].(seqNumber := first + i, sendTime := now))
  }

  lemma WaitsAgainFirst(waiting: map<nat, Datagram>, middle: map<nat, Datagram>, after: map<nat, Datagram>,
                        k: nat, rest: seq<nat>, first: nat, now: real)
    requires k in waiting && k !in rest && forall j | j in waiting :: j < first
    requires middle == (waiting - {k})[first := waiting[k].(seqNumber := first, sendTime := now)]
    requires forall j | j in rest :: j in waiting
    requires WaitsAgain(middle, after, rest, first + 1, now)
    ensures forall j | j in [k] + rest :: j in waiting
    ensures WaitsAgain(waiting, after, [k] + rest, first, now)
  {
    var named := [k] + rest;
    assert forall j :: j in named <==> j == k || j in rest;
    forall i | 0 <= i < |named|
      ensures after[first + i] == waiting[named[i]].(seqNumber := first + i, sendTime := now)
    {
      if i > 0 {
        assert named[i] == rest[i - 1] && rest[i - 1] in rest;
        assert after[first + 1 + (i - 1)] == middle[rest[i - 1]].(seqNumber := first + 1 + (i - 1), sendTime := now);
      }
    }
  }

  /** The datagrams `named` have gone out of `o` again under its next numbers, and nothing else has. */
  ghost predicate GoesAgain(o: Outbound, r: Outbound, named: seq<nat>, now: real)
    requires forall k | k in named :: k in o.recovery
  {
    && r.sendSeq == o.sendSeq + |named|
    && r.sent == o.sent + AsSent(Renumber(o.recovery, named, o.sendSeq), now)
    && r.packetToSend == o.packetToSend && r.sendQueue == o.sendQueue && r.enqueued == o.enqueued
  }

  lemma GoesAgainFirst(o: Outbound, o1: Outbound, r: Outbound, k: nat, rest: seq<nat>, now: real)
    requires k in o.recovery && o1 == ResendOne(o, k, now)
    requires forall j | j in rest :: j in o.recovery && j in o1.recovery && o1.recovery[j] == o.recovery[j]
    requires GoesAgain(o1, r, rest, now)
    ensures forall j | j in [k] + rest :: j in o.recovery
    ensures GoesAgain(o, r, [k] + rest, now)
  {
    RenumberFirst(o.recovery, o1.recovery, k, rest, o.sendSeq);
    MoreSent(o.sent, o.recovery[k].(seqNumber := o.sendSeq), Renumber(o1.recovery, rest, o.sendSeq + 1), now);
  }

  /** Sent again, and waiting again. */
  ghost predicate SentAgain(o: Outbound, r: Outbound, named: seq<nat>, now: real)
    requires forall k | k in named :: k in o.recovery
  {
    GoesAgain(o, r, named, now) && WaitsAgain(o.recovery, r.recovery, named, o.sendSeq, now)
  }

  lemma SentAgainFirst(o: Outbound, o1: Outbound, r: Outbound, k: nat, rest: seq<nat>, now: real)
    requires k in o.recovery && k !in rest && o1 == ResendOne(o, k, now) && forall j | j in o.recovery :: j < o.sendSeq
    requires forall j | j in rest :: j in o.recovery && j in o1.recovery && o1.recovery[j] == o.recovery[j]
    requires SentAgain(o1, r, rest, now)
    ensures forall j | j in [k] + rest :: j in o.recovery
    ensures SentAgain(o, r, [k] + rest, now)
  {
    GoesAgainFirst(o, o1, r, k, rest, now);
    WaitsAgainFirst(o.recovery, o1.recovery, r.recovery, k, rest, o.sendSeq, now);
  }

  lemma MoreSent(sent: seq<Message>, d: Datagram, ds: seq<Datagram>, now: real)
    ensures sent + AsSent([d] + ds, now) == (sent + [Data(d.(sendTime := now))]) + AsSent(ds, now)
  {
    AsSentFirst(d, ds, now);
    Append(sent, [Data(d.(sendTime := now))], AsSent(ds, now));
  }

  /** No number is named after an earlier number named was sent again under it: `keys` are the numbers
      that waited, `from` the first number given out by the NACK, and `next` the one to come. */
  predicate NoneAhead(ns: seq<nat>, keys: set<nat>, from: nat, next: nat) {
    if ns == [] then true
    else if ns[0] in keys then NoneAhead(ns[1..], keys - {ns[0]}, from, next + 1)
    else !(from <= ns[0] < next) && NoneAhead(ns[1..], keys, from, next)
  }

  /** In particular when only numbers are named that had been given out. */
  lemma {:induction false} GivenOut(ns: seq<nat>, keys: set<nat>, from: nat, next: nat)
    requires forall n | n in ns :: n < from
    ensures NoneAhead(ns, keys, from, next)
    decreases |ns|
  {
    if ns != [] {
      assert ns[0] in ns && forall n | n in ns[1..] :: n in ns;
      GivenOut(ns[1..], keys - {ns[0]}, from, next + 1);
      GivenOut(ns[1..], keys, from, next);
    }
  }

  /** The numbers waiting in `o` that were given out before `from`. */
  function Below(o: Outbound, from: nat): set<nat> { set k | k in o.recovery && k < from }

  lemma {:induction false} NackGoes(o: Outbound, ns: seq<nat>, now: real, from: nat)
    requires from <= o.sendSeq && (forall k | k in o.recovery :: k < o.sendSeq)
    requires NoneAhead(ns, Below(o, from), from, o.sendSeq)
    requires forall k | from <= k < o.sendSeq :: k in o.recovery
    ensures var named := FirstNamed(ns, Below(o, from));
            (forall k | k in named :: k in o.recovery) && SentAgain(o, HandleNack(o, ns, now), named, now)
    decreases |ns|
  {
    NamedOnce(ns, Below(o, from));
    if ns != [] {
      var k := ns[0];
      var o1 := ResendOne(o, k, now);
      if k in Below(o, from) {
        assert Below(o1, from) == Below(o, from) - {k};
        NackGoes(o1, ns[1..], now, from);
        var rest := FirstNamed(ns[1..], Below(o1, from));
        NamedOnce(ns[1..], Below(o1, from));
        SentAgainFirst(o, o1, HandleNack(o1, ns[1..], now), k, rest, now);
      } else {
        NackGoes(o, ns[1..], now, from);
      }
    }
  }

  lemma {:induction false} NackSends(o: Outbound, ns: seq<nat>, now: real, keys: set<nat>)
    requires (forall k | k in o.recovery :: k < o.sendSeq) && keys <= o.recovery.Keys
    ensures HandleNack(o, ns, now).sendSeq >= o.sendSeq + |FirstNamed(ns, keys)|
    decreases |ns|
  {
    if ns != [] {
      NackSends(ResendOne(o, ns[0], now), ns[1..], now, keys - {ns[0]});
      assert ns[0] !in keys ==> keys - {ns[0]} == keys;
    }
  }

  lemma {:induction false} NackSendsMore(o: Outbound, ns: seq<nat>, now: real, from: nat)
    requires from <= o.sendSeq && (forall k | k in o.recovery :: k < o.sendSeq)
    requires !NoneAhead(ns, Below(o, from), from, o.sendSeq)
    requires forall k | from <= k < o.sendSeq :: k in o.recovery
    ensures HandleNack(o, ns, now).sendSeq > o.sendSeq + |FirstNamed(ns, Below(o, from))|
    decreases |ns|
  {
    var k := ns[0];
    var o1 := ResendOne(o, k, now);
    if k in Below(o, from) {
      assert Below(o1, from) == Below(o, from) - {k};
      NackSendsMore(o1, ns[1..], now, from);
    } else if from <= k < o.sendSeq {
      assert Below(o, from) <= o1.recovery.Keys;
      NackSends(o1, ns[1..], now, Below(o, from));
    } else {
      NackSendsMore(o, ns[1..], now, from);
    }
  }

  /** A NACK resends at once. Every number named that waits for its acknowledgement, once each and in
      the order named, is sent again under the next number and waits under that one; nothing else is
      sent, and all other datagrams stay as they were. So it is if and only if no number is named
      after another was sent again under it, which needs a peer that names numbers not given out. */
  lemma {:induction false} NackResends(s: Session, raw: seq<byte>, ns: seq<nat>, now: real) returns (named: seq<nat>)
    requires Online(s.host.app.phase) && Numbers(s.host.out)
    requires raw != [] && raw[0] == 0xa0 && Acknowledge.DecodeAck(raw) == Some(ns)
    ensures Different(named) && forall k :: k in named <==> k in ns && k in s.host.out.recovery
    ensures var o := s.host.out;
            SentAgain(o, HandleRaw(s, raw, now).host.out, named, now)
            <==> NoneAhead(ns, o.recovery.Keys, o.sendSeq, o.sendSeq)
    ensures (forall n | n in ns :: n < s.host.out.sendSeq)
            ==> NoneAhead(ns, s.host.out.recovery.Keys, s.host.out.sendSeq, s.host.out.sendSeq)
  {
    var o := s.host.out;
    assert forall k | k in o.recovery :: Logged(o.log, o.recovery[k]);
    assert Below(o, o.sendSeq) == o.recovery.Keys;
    named := FirstNamed(ns, o.recovery.Keys);
    NamedOnce(ns, o.recovery.Keys);
    if NoneAhead(ns, o.recovery.Keys, o.sendSeq, o.sendSeq) {
      NackGoes(o, ns, now, o.sendSeq);
    } else {
      NackSendsMore(o, ns, now, o.sendSeq);
    }
    if forall n | n in ns :: n < o.sendSeq { GivenOut(ns, o.recovery.Keys, o.sendSeq, o.sendSeq); }
  }

  // ---------- an ACK ----------

  lemma {:induction false} AckGoes(o: Outbound, ns: seq<nat>)
    ensures var r := HandleAck(o, ns);
            && (forall k :: k in r.recovery <==> k in o.recovery && k !in ns)
            && (forall k | k in r.recovery :: r.recovery[k] == o.recovery[k])
            && r.sent == o.sent && r.sendSeq == o.sendSeq
            && r.packetToSend == o.packetToSend && r.sendQueue == o.sendQueue
    decreases |ns|
  {
    if ns != [] {
      var k := ns[0];
      AckGoes(o.(recovery := o.recovery - {k}, acked := o.acked + {k},
                 retired := if k in o.recovery then o.retired[k := o.recovery[k]] else o.retired), ns[1..]);
      assert forall x :: x in ns <==> x == k || x in ns[1..];
    }
  }

  /** An ACK ends the wait for exactly the numbers it names, and sends nothing. */
  lemma AckReleases(s: Session, raw: seq<byte>, ns: seq<nat>, now: real)
    requires Online(s.host.app.phase)
    requires raw != [] && raw[0] == 0xc0 && Acknowledge.DecodeAck(raw) == Some(ns)
    ensures var o, r := s.host.out, HandleRaw(s, raw, now).host.out;
            && (forall k :: k in r.recovery <==> k in o.recovery && k !in ns)
            && (forall k | k in r.recovery :: r.recovery[k] == o.recovery[k])
            && r.sent == o.sent && r.sendSeq == o.sendSeq
            && r.packetToSend == o.packetToSend && r.sendQueue == o.sendQueue
  {
    AckGoes(s.host.out, ns);
  }

  // ---------- the periodic pass ----------

  function AtMost(n: nat, limit: nat): nat { if n < limit then n else limit }

  lemma TakeFirst<T>(xs: seq<T>, n: nat)
    requires 0 < n <= |xs|
    ensures xs[..n] == [xs[0]] + xs[1..][..n - 1] && xs[n..] == xs[1..][n - 1..]
  {
  }

  /** The first datagrams in line go out, in order, and no more than `limit`. */
  lemma {:induction false} DrainExact(o: Outbound, limit: nat, now: real)
    ensures var r, n := Drain(o, limit, now), AtMost(|o.packetToSend|, limit);
            && r.packetToSend == o.packetToSend[n..] && r.sent == o.sent + AsSent(o.packetToSend[..n], now)
            && r.sendSeq == o.sendSeq && r.sendQueue == o.sendQueue
    decreases limit
  {
    var n := AtMost(|o.packetToSend|, limit);
    if n == 0 {
      assert o.sent + [] == o.sent;
    } else {
      var d, rest := o.packetToSend[0], o.packetToSend[1..];
      var o1 := SendDatagram(o.(packetToSend := rest), d, now);
      DrainExact(o1, limit - 1, now);
      TakeFirst(o.packetToSend, n);
      MoreSent(o.sent, d, rest[..n - 1], now);
    }
  }

  lemma {:induction false} DrainWaits(o: Outbound, limit: nat, now: real)
    requires forall i | 0 <= i < |o.packetToSend| :: o.packetToSend[i].seqNumber !in o.recovery
    requires forall i, j | 0 <= i < j < |o.packetToSend| :: o.packetToSend[i].seqNumber != o.packetToSend[j].seqNumber
    ensures var r := Drain(o, limit, now);
            && (forall k | k in o.recovery :: k in r.recovery && r.recovery[k] == o.recovery[k])
            && (forall k | k in r.recovery && k !in o.recovery :: r.recovery[k].sendTime == now)
            && (forall i | 0 <= i < |r.packetToSend| :: r.packetToSend[i].seqNumber !in r.recovery)
            && (forall i, j | 0 <= i < j < |r.packetToSend| :: r.packetToSend[i].seqNumber != r.packetToSend[j].seqNumber)
    decreases limit
  {
    if o.packetToSend != [] && limit > 0 {
      DrainWaits(SendDatagram(o.(packetToSend := o.packetToSend[1..]), o.packetToSend[0], now), limit - 1, now);
    }
  }

  predicate Late(d: Datagram, now: real) { d.sendTime < now - 0.5 }

  /** The keys under which a late datagram waits, in ascending order. */
  function Overdue(waiting: map<nat, Datagram>, keys: set<nat>, now: real): seq<nat>
    decreases keys
  {
    if keys == {} then []
    else
      var k := MinKey(keys);
      if k in waiting && Late(waiting[k], now) then [k] + Overdue(waiting, keys - {k}, now)
      else Overdue(waiting, keys - {k}, now)
  }

  lemma {:induction false} OverdueAre(waiting: map<nat, Datagram>, keys: set<nat>, now: real)
    ensures forall k :: k in Overdue(waiting, keys, now) <==> k in keys && k in waiting && Late(waiting[k], now)
    decreases keys
  {
    if keys != {} {
      var k := MinKey(keys);
      var rest := Overdue(waiting, keys - {k}, now);
      OverdueAre(waiting, keys - {k}, now);
      assert forall x :: x in [k] + rest <==> x == k || x in rest;
    }
  }

  lemma {:induction false} OverdueAscend(waiting: map<nat, Datagram>, keys: set<nat>, now: real)
    ensures StrictlyAscending(Overdue(waiting, keys, now))
    decreases keys
  {
    if keys != {} {
      var k := MinKey(keys);
      OverdueAscend(waiting, keys - {k}, now);
      OverdueAre(waiting, keys - {k}, now);
      LeastFirst(k, Overdue(waiting, keys - {k}, now));
    }
  }

  lemma LeastFirst(k: nat, xs: seq<nat>)
    requires StrictlyAscending(xs)
    requires forall x | x in xs :: k < x
    ensures StrictlyAscending([k] + xs)
  {
    var ys := [k] + xs;
    forall i, j | 0 <= i < j < |ys| ensures ys[i] < ys[j] {
      assert ys[j] == xs[j - 1] && xs[j - 1] in xs;
    }
  }

  lemma {:induction false} OverdueSame(a: map<nat, Datagram>, b: map<nat, Datagram>, keys: set<nat>, now: real)
    requires forall k | k in keys :: (k in a <==> k in b) && (k in a ==> a[k] == b[k])
    ensures Overdue(a, keys, now) == Overdue(b, keys, now)
    decreases keys
  {
    if keys != {} { OverdueSame(a, b, keys - {MinKey(keys)}, now); }
  }

  /** The datagrams `due` have left the recovery queue and stand in line under the next numbers. */
  ghost predicate InLine(o: Outbound, r: Outbound, due: seq<nat>)
    requires forall k | k in due :: k in o.recovery
  {
    && r.sendSeq == o.sendSeq + |due| && r.sent == o.sent && r.sendQueue == o.sendQueue
    && r.packetToSend == o.packetToSend + Renumber(o.recovery, due, o.sendSeq)
    && (forall k :: k in r.recovery <==> k in o.recovery && k !in due)
    && (forall k | k in r.recovery :: r.recovery[k] == o.recovery[k])
  }

  lemma InLineFirst(o: Outbound, r: Outbound, k: nat, rest: seq<nat>)
    requires k in o.recovery && k !in rest && forall j | j in rest :: j in o.recovery
    requires InLine(Reschedule(o, k), r, rest)
    ensures forall j | j in [k] + rest :: j in o.recovery
    ensures InLine(o, r, [k] + rest)
  {
    var o1 := Reschedule(o, k);
    RenumberFirst(o.recovery, o1.recovery, k, rest, o.sendSeq);
    Append(o.packetToSend, [o.recovery[k].(seqNumber := o.sendSeq)], Renumber(o1.recovery, rest, o1.sendSeq));
    assert forall x :: x in [k] + rest <==> x == k || x in rest;
  }

  lemma {:induction false} ExpireExact(o: Outbound, keys: set<nat>, now: real)
    ensures var due := Overdue(o.recovery, keys, now);
            (forall k | k in due :: k in o.recovery) && InLine(o, Expire(o, keys, now), due)
    decreases keys
  {
    OverdueAre(o.recovery, keys, now);
    if keys == {} {
      assert o.packetToSend + [] == o.packetToSend;
    } else {
      var k := MinKey(keys);
      OverdueAre(o.recovery, keys - {k}, now);
      if k in o.recovery && Late(o.recovery[k], now) {
        var o1 := Reschedule(o, k);
        OverdueSame(o.recovery, o1.recovery, keys - {k}, now);
        ExpireExact(o1, keys - {k}, now);
        InLineFirst(o, Expire(o1, keys - {k}, now), k, Overdue(o.recovery, keys - {k}, now));
      } else {
        ExpireExact(o, keys - {k}, now);
      }
    }
  }

  function AckMessages(w: Window): seq<Message> {
    (if w.ackQueue == {} then [] else [Ack(w.ackQueue)]) + (if w.nackQueue == {} then [] else [Nack(w.nackQueue)])
  }

  /** The datagram a pass makes of the send queue. */
  function Flushed(queue: Datagram, number: nat, now: real): seq<Message> {
    if queue.packets == [] then [] else [Data(Datagram(0x84, number, queue.packets, now))]
  }

  /** A session has timed out: nothing has come from the peer since the last pass, and nothing for ten
      seconds. */
  predicate Silent(a: App, now: real) { !a.active && a.lastUpdate > 0.0 && a.lastUpdate + 10.0 < now }

  /** A session that has timed out is closed, and does nothing else. */
  lemma SilentCloses(s: Session, now: real)
    requires Silent(s.host.app, now)
    ensures var t := Update(s, now);
            && t.host.app.closed && t.window == s.window && t.host.out == s.host.out
            && (!s.host.app.closed ==> t.host.app.events == s.host.app.events + [Closed])
            && (s.host.app.closed ==> t.host.app == s.host.app)
  {
  }

  /** `due` lists, in ascending order, the numbers under which something has waited for more than half a
      second. */
  ghost predicate AreLate(waiting: map<nat, Datagram>, due: seq<nat>, now: real) {
    StrictlyAscending(due) && forall k :: k in due <==> k in waiting && waiting[k].sendTime < now - 0.5
  }

  /** What two drains send of two lines: the first 64 of each. */
  function TwoDrains(first: seq<Datagram>, second: seq<Datagram>, now: real): seq<Message> {
    AsSent(first[..AtMost(|first|, 64)], now) + AsSent(second[..AtMost(|second|, 64)], now)
  }

  ghost predicate Resent(o: Outbound, r: Outbound, due: seq<nat>, line: seq<Datagram>, now: real) {
    && AreLate(o.recovery, due, now)
    && line == o.packetToSend[AtMost(|o.packetToSend|, 64)..] + Renumber(o.recovery, due, o.sendSeq)
    && r.packetToSend == line[AtMost(|line|, 64)..] && r.sendSeq == o.sendSeq + |due| && r.sendQueue == o.sendQueue
    && r.sent == o.sent + TwoDrains(o.packetToSend, line, now)
  }

  /** What a pass makes of the datagrams waiting: those in line go out, at most 64; the late ones go in
      line under the next numbers; and at most 64 go out again. */
  lemma {:induction false} ResendExact(o: Outbound, now: real) returns (due: seq<nat>, line: seq<Datagram>)
    requires Numbers(o)
    ensures Resent(o, Resend(o, now), due, line, now)
  {
    var o1 := Drain(o, 64, now);
    DrainExact(o, 64, now);
    WaitsInLine(o);
    DrainWaits(o, 64, now);
    due := Overdue(o1.recovery, o1.recovery.Keys, now);
    OverdueAre(o1.recovery, o1.recovery.Keys, now);
    OverdueAscend(o1.recovery, o1.recovery.Keys, now);
    ExpireExact(o1, o1.recovery.Keys, now);
    RenumberSame(o.recovery, o1.recovery, due, o.sendSeq);
    var o2 := Expire(o1, o1.recovery.Keys, now);
    line := o2.packetToSend;
    DrainExact(o2, 64, now);
    Append(o.sent, AsSent(o.packetToSend[..AtMost(|o.packetToSend|, 64)], now), AsSent(line[..AtMost(|line|, 64)], now));
  }

  lemma WaitsInLine(o: Outbound)
    requires Numbers(o)
    ensures forall i | 0 <= i < |o.packetToSend| :: o.packetToSend[i].seqNumber !in o.recovery
  {
    assert forall k | k in o.recovery :: Logged(o.log, o.recovery[k]);
  }

  lemma RenumberSame(a: map<nat, Datagram>, b: map<nat, Datagram>, ks: seq<nat>, first: nat)
    requires forall k | k in ks :: k in a && k in b && a[k] == b[k]
    ensures Renumber(a, ks, first) == Renumber(b, ks, first)
  {
  }

  lemma Reported(o: Outbound, w: Window)
    ensures SendAcks(o, w.ackQueue, w.nackQueue) == o.(sent := o.sent + AckMessages(w))
  {
    assert o.sent + [] == o.sent && [] + AckMessages(w) == AckMessages(w);
  }

  lemma ToldNumbers(o: Outbound, ms: seq<Message>)
    requires Numbers(o) && forall m | m in ms :: !m.Data?
    ensures Numbers(o.(sent := o.sent + ms))
  {
  }

  lemma FlushExact(o: Outbound, now: real)
    ensures var r := FlushSendQueue(o, now);
            && r.sent == o.sent + Flushed(o.sendQueue, o.sendSeq, now)
            && r.sendSeq == o.sendSeq + (if o.sendQueue.packets == [] then 0 else 1)
            && r.packetToSend == o.packetToSend && r.sendQueue.packets == []
  {
    assert o.sent + [] == o.sent;
  }

  /** What a pass leaves of the sending side: `r`, for the late datagrams `due`, and `line` of what was
      in line for the second time. */
  ghost predicate PassLeaves(o: Outbound, w: Window, r: Outbound, due: seq<nat>, line: seq<Datagram>, now: real) {
    && AreLate(o.recovery, due, now)
    && line == o.packetToSend[AtMost(|o.packetToSend|, 64)..] + Renumber(o.recovery, due, o.sendSeq)
    && r.packetToSend == line[AtMost(|line|, 64)..] && r.sendQueue.packets == []
    && r.sent == o.sent + AckMessages(w) + TwoDrains(o.packetToSend, line, now)
                 + Flushed(o.sendQueue, o.sendSeq + |due|, now)
    && r.sendSeq == o.sendSeq + |due| + (if o.sendQueue.packets == [] then 0 else 1)
  }

  lemma {:induction false} PassOut(o: Outbound, w: Window, now: real) returns (due: seq<nat>, line: seq<Datagram>)
    requires Numbers(o)
    ensures PassLeaves(o, w, UpdateOut(o, w, now), due, line, now)
  {
    var o0 := SendAcks(o, w.ackQueue, w.nackQueue);
    Reported(o, w);
    ToldNumbers(o, AckMessages(w));
    due, line := PassFrom(o0, now);
    AfterReport(o, w, o0, UpdateOut(o, w, now), due, line, now);
  }

  // ---------- what keeps waiting ----------

  ghost predicate Same(a: map<nat, Datagram>, b: map<nat, Datagram>, k: nat) {
    (k in a <==> k in b) && (k in a ==> a[k] == b[k])
  }

  ghost predicate Outside(line: seq<Datagram>, k: nat) { forall i | 0 <= i < |line| :: line[i].seqNumber != k }

  lemma {:induction false} DrainElsewhere(o: Outbound, limit: nat, now: real, k: nat)
    requires Outside(o.packetToSend, k)
    ensures Same(o.recovery, Drain(o, limit, now).recovery, k)
    ensures Outside(Drain(o, limit, now).packetToSend, k) && Drain(o, limit, now).sendSeq == o.sendSeq
    decreases limit
  {
    if o.packetToSend != [] && limit > 0 {
      DrainElsewhere(SendDatagram(o.(packetToSend := o.packetToSend[1..]), o.packetToSend[0], now), limit - 1, now, k);
    }
  }

  lemma {:induction false} ExpireElsewhere(o: Outbound, keys: set<nat>, now: real, k: nat)
    requires k < o.sendSeq && Outside(o.packetToSend, k)
    ensures var r := Expire(o, keys, now);
            && Outside(r.packetToSend, k) && r.sendSeq >= o.sendSeq
            && (if k in keys && k in o.recovery && Late(o.recovery[k], now) then k !in r.recovery
                else Same(o.recovery, r.recovery, k))
    decreases keys
  {
    if keys != {} {
      var j := MinKey(keys);
      var o1 := if j in o.recovery && Late(o.recovery[j], now) then Reschedule(o, j) else o;
      ExpireElsewhere(o1, keys - {j}, now, k);
    }
  }

  lemma {:induction false} ResendElsewhere(o: Outbound, limit: nat, now: real, k: nat)
    requires k < o.sendSeq && k in o.recovery && Outside(o.packetToSend, k)
    ensures var o1 := Drain(o, limit, now);
            var r := Drain(Expire(o1, o1.recovery.Keys, now), limit, now);
            && r.sendSeq >= o.sendSeq
            && (if Late(o.recovery[k], now) then k !in r.recovery else Same(o.recovery, r.recovery, k))
  {
    var o1 := Drain(o, limit, now);
    DrainElsewhere(o, limit, now, k);
    ExpireElsewhere(o1, o1.recovery.Keys, now, k);
    DrainElsewhere(Expire(o1, o1.recovery.Keys, now), limit, now, k);
  }

  lemma FlushElsewhere(o: Outbound, now: real, k: nat)
    requires k < o.sendSeq
    ensures Same(o.recovery, FlushSendQueue(o, now).recovery, k)
  {
  }

  /** A pass takes the late datagrams out of the recovery queue, and no other. */
  lemma {:induction false} PassKeeps(o: Outbound, w: Window, now: real, k: nat)
    requires Numbers(o) && k in o.recovery
    ensures var r := UpdateOut(o, w, now);
            if Late(o.recovery[k], now) then k !in r.recovery else Same(o.recovery, r.recovery, k)
  {
    assert Logged(o.log, o.recovery[k]);
    WaitsInLine(o);
    var o0 := SendAcks(o, w.ackQueue, w.nackQueue);
    ResendElsewhere(o0, DRAIN_LIMIT, now, k);
    FlushElsewhere(Resend(o0, now), now, k);
  }

  /** A pass from where the acknowledgements are told. */
  ghost predicate Sends(o: Outbound, r: Outbound, due: seq<nat>, line: seq<Datagram>, now: real) {
    && AreLate(o.recovery, due, now)
    && line == o.packetToSend[AtMost(|o.packetToSend|, 64)..] + Renumber(o.recovery, due, o.sendSeq)
    && r.packetToSend == line[AtMost(|line|, 64)..] && r.sendQueue.packets == []
    && r.sent == o.sent + TwoDrains(o.packetToSend, line, now) + Flushed(o.sendQueue, o.sendSeq + |due|, now)
    && r.sendSeq == o.sendSeq + |due| + (if o.sendQueue.packets == [] then 0 else 1)
  }

  lemma {:induction false} PassFrom(o: Outbound, now: real) returns (due: seq<nat>, line: seq<Datagram>)
    requires Numbers(o)
    ensures Sends(o, FlushSendQueue(Resend(o, now), now), due, line, now)
  {
    due, line := ResendExact(o, now);
    AfterResend(o, Resend(o, now), due, line, now);
  }

  lemma AfterResend(o: Outbound, r: Outbound, due: seq<nat>, line: seq<Datagram>, now: real)
    requires Resent(o, r, due, line, now)
    ensures Sends(o, FlushSendQueue(r, now), due, line, now)
  {
    FlushExact(r, now);
  }

  lemma AfterReport(o: Outbound, w: Window, o0: Outbound, r: Outbound, due: seq<nat>, line: seq<Datagram>, now: real)
    requires o0 == o.(sent := o.sent + AckMessages(w)) && Sends(o0, r, due, line, now)
    ensures PassLeaves(o, w, r, due, line, now)
  {
  }

  /** Otherwise a pass reports what was received and what is missing, sends up to 64 datagrams in line,
      puts everything that has waited for more than half a second in line again under the next numbers
      and in its old order, sends up to 64 more, and flushes the queue. */
  lemma {:induction false} PassExact(s: Session, now: real) returns (due: seq<nat>, line: seq<Datagram>)
    requires !Silent(s.host.app, now) && Numbers(s.host.out)
    ensures var t := Update(s, now);
            && PassLeaves(s.host.out, s.window, t.host.out, due, line, now)
            && !t.host.app.active && t.window.ackQueue == {} && t.window.nackQueue == {}
            && (forall k :: k in t.window.received <==> k in s.window.received && k >= s.window.windowStart)
            && (forall k | k in s.host.out.recovery ::
                  if k in due then k !in t.host.out.recovery
                  else k in t.host.out.recovery && t.host.out.recovery[k] == s.host.out.recovery[k])
  {
    due, line := PassOut(s.host.out, s.window, now);
    forall k | k in s.host.out.recovery
      ensures if k in due then k !in Update(s, now).host.out.recovery
              else k in Update(s, now).host.out.recovery
                   && Update(s, now).host.out.recovery[k] == s.host.out.recovery[k]
    {
      PassKeeps(s.host.out, s.window, now, k);
    }
  }
}
