/** The sender's stream: the packets that carry a message index are numbered without gaps, and the
    history of the sending side only grows. */
module Numbering {
  import opened Collections
  import opened Binary
  import opened Packets
  import opened SessionModel
  import opened Moves
  import opened Runs
  import opened Sender

  /** The packets that carry a message index, in the order in which they were enqueued. */
  function Stream(ps: seq<Packet>): seq<Packet> {
    if ps == [] then []
    else if Numbered(ps[0].reliability) then [ps[0]] + Stream(ps[1..])
    else Stream(ps[1..])
  }

  ghost predicate Indexed(st: seq<Packet>, first: nat) {
    forall i | 0 <= i < |st| :: st[i].messageIndex == Some(first + i)
  }

  /** Position i of the stream carries index i, and the counter is its length. */
  ghost predicate Gapless(o: Outbound) {
    |Stream(o.enqueued)| == o.messageIndex && Indexed(Stream(o.enqueued), 0)
  }

  lemma {:induction false} StreamAppend(ps: seq<Packet>, qs: seq<Packet>)
    ensures Stream(ps + qs) == Stream(ps) + Stream(qs)
  {
    if ps == [] {
      assert [] + qs == qs;
    } else {
      FirstOfAppend(ps, qs);
      StreamAppend(ps[1..], qs);
      if Numbered(ps[0].reliability) { Append([ps[0]], Stream(ps[1..]), Stream(qs)); }
    }
  }

  lemma {:induction false} StreamMembers(ps: seq<Packet>)
    ensures forall p :: p in Stream(ps) <==> p in ps && Numbered(p.reliability)
  {
    if ps != [] {
      StreamMembers(ps[1..]);
      assert forall p :: p in ps <==> p == ps[0] || p in ps[1..];
    }
  }

  lemma {:induction false} StreamAllOrNone(ps: seq<Packet>, rel: byte)
    requires forall p | p in ps :: p.reliability == rel
    ensures Stream(ps) == if Numbered(rel) then ps else []
  {
    if ps != [] {
      assert ps[0] in ps;
      StreamAllOrNone(ps[1..], rel);
      assert [ps[0]] + ps[1..] == ps;
    }
  }

  lemma CountAtLeastOne(size: nat, chunk: nat)
    requires chunk > 0 && size > 0
    ensures ChunkCount(size, chunk) > 0
  {
  }

  /** What an offer enqueues: packets of the offered reliability, and when that is numbered, over
      the next free indexes. */
  lemma ProducedShape(o: Outbound, packet: Packet)
    ensures var ps := Produced(o, packet);
            && (forall q | q in ps :: q.reliability == packet.reliability)
            && (Numbered(packet.reliability) ==>
                  Indexed(ps, o.messageIndex))
            && (packet.buffer != [] ==> ps != [])
  {
    var (o1, p) := AssignIndexes(o, packet);
    if packet.buffer != [] { CountAtLeastOne(|p.buffer|, ChunkSize(o1.mtu)); }
  }

  lemma IndexedAppend(st: seq<Packet>, ps: seq<Packet>)
    requires Indexed(st, 0) && Indexed(ps, |st|)
    ensures Indexed(st + ps, 0)
  {
    forall i | 0 <= i < |st + ps| ensures (st + ps)[i].messageIndex == Some(i) {
      if i >= |st| { assert (st + ps)[i] == ps[i - |st|]; }
    }
  }

  /** Adding packets of one reliability keeps the numbering, unless the counter ran ahead of them. */
  lemma GaplessGrows(o: Outbound, r: Outbound, ps: seq<Packet>, rel: byte)
    requires Gapless(o) && r.enqueued == o.enqueued + ps
    requires forall q | q in ps :: q.reliability == rel
    requires Numbered(rel) ==> Indexed(ps, o.messageIndex)
    requires r.messageIndex == if !Numbered(rel) then o.messageIndex
                               else if ps == [] then o.messageIndex + 1 else o.messageIndex + |ps|
    ensures Gapless(r) <==> !Numbered(rel) || ps != []
  {
    StreamAllOrNone(ps, rel);
    StreamAppend(o.enqueued, ps);
    var st := Stream(o.enqueued);
    if Numbered(rel) { IndexedAppend(st, ps); }
    assert st + [] == st;
  }

  /** Offers keep the numbering, except that one which is cut into no part at all, an empty buffer
      that does not fit, takes an index that is never sent. */
  lemma OfferKeepsGapless(o: Outbound, packet: Packet, immediate: bool, now: real)
    requires Gapless(o)
    ensures Gapless(AddEncapsulated(o, packet, immediate, now)) <==>
              !Numbered(packet.reliability) || Produced(o, packet) != []
  {
    OfferEnqueues(o, packet, immediate, now);
    ProducedShape(o, packet);
    GaplessGrows(o, AddEncapsulated(o, packet, immediate, now), Produced(o, packet), packet.reliability);
  }

  /** The only offers cut into no part: an empty buffer on a session whose packet size cannot take
      even the header. */
  lemma NothingProduced(o: Outbound, packet: Packet)
    ensures Produced(o, packet) == [] <==>
              packet.buffer == [] && TotalLength(AssignIndexes(o, packet).1) + 4 > o.mtu
  {
    var (o1, p) := AssignIndexes(o, packet);
    if packet.buffer != [] { CountAtLeastOne(|p.buffer|, ChunkSize(o1.mtu)); }
  }

  // ---------- moves ----------

  /** History grows: nothing enqueued or sent is taken back or rewritten. */
  ghost predicate Grows(a: Outbound, b: Outbound) {
    && a.enqueued <= b.enqueued
    && (forall k | k in a.log :: k in b.log && b.log[k] == a.log[k])
    && (forall k | k in a.acked :: k in b.acked)
  }

  lemma MoveGrows(o: Outbound, m: Move)
    requires Numbers(o)
    ensures Grows(o, Apply(o, m))
  {
    match m
    case Count(_, _, _) =>
    case Enqueue(p, imm, now) =>
    case Flush(now) =>
    case SendHead(now) =>
    case Postpone(k) =>
    case Forget(k) =>
    case Repeat(k, now) =>
    case Tell(_) =>
    case SetMtu(_) =>
  }

  lemma {:induction false} MovesGrow(o: Outbound, ms: seq<Move>)
    requires Numbers(o)
    ensures Grows(o, ApplyAll(o, ms)) && Numbers(ApplyAll(o, ms))
    decreases |ms|
  {
    if ms != [] {
      MoveGrows(o, ms[0]);
      MoveNumbers(o, ms[0]);
      MovesGrow(Apply(o, ms[0]), ms[1..]);
    }
  }

  /** What a move can add to the acknowledged numbers and to the messages that are not datagrams. */
  lemma MoveAdds(o: Outbound, m: Move)
    ensures forall k | k in Apply(o, m).acked :: k in o.acked || m == Forget(k)
    ensures forall x | x in Apply(o, m).sent && !x.Data? :: x in o.sent || m == Tell(x)
  {
    match m
    case Count(_, _, _) =>
    case Enqueue(p, imm, now) =>
    case Flush(now) =>
    case SendHead(now) =>
    case Postpone(k) =>
    case Forget(k) =>
    case Repeat(k, now) =>
    case Tell(_) =>
    case SetMtu(_) =>
  }

  lemma {:induction false} MovesAdd(o: Outbound, ms: seq<Move>)
    ensures forall k | k in ApplyAll(o, ms).acked :: k in o.acked || Forget(k) in ms
    ensures forall x | x in ApplyAll(o, ms).sent && !x.Data? :: x in o.sent || Tell(x) in ms
    decreases |ms|
  {
    if ms != [] {
      MoveAdds(o, ms[0]);
      MovesAdd(Apply(o, ms[0]), ms[1..]);
      assert forall m :: m in ms <==> m == ms[0] || m in ms[1..];
    }
  }

  /** Reactions enqueue answers only, which are not numbered. */
  lemma {:induction false} ReactionsKeepStream(o: Outbound, ms: seq<Move>)
    requires forall m | m in ms :: Reaction(m)
    ensures var r := ApplyAll(o, ms);
            && r.messageIndex == o.messageIndex
            && Stream(r.enqueued) == Stream(o.enqueued)
            && (forall p | p in r.enqueued :: p in o.enqueued || Answer(p))
    decreases |ms|
  {
    if ms != [] {
      var m := ms[0];
      assert m in ms;
      var o1 := Apply(o, m);
      if m.Enqueue? {
        StreamAppend(o.enqueued, [m.packet]);
        assert Stream([m.packet]) == [];
        assert o1.enqueued == o.enqueued + [m.packet];
      } else {
        HousekeepingEnqueuesNothing(o, m);
      }
      ReactionsKeepStream(o1, ms[1..]);
    }
  }

  lemma HousekeepingEnqueuesNothing(o: Outbound, m: Move)
    requires !m.Enqueue? && !m.Count?
    ensures Apply(o, m).enqueued == o.enqueued && Apply(o, m).messageIndex == o.messageIndex
  {
  }
}
