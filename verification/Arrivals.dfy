/** What the bytes of one datagram do to a receiver, in numbers: which datagrams are taken, which numbers
    are then missing, and which packets pass, wait or are dropped. */
module Arrivals {
  import opened Collections
  import opened Binary
  import opened Packets
  import opened SessionModel
  import opened Runs
  import opened Windows
  import opened Formats

  // ---------- the number of a datagram ----------

  /** The numbers from `from` up to, but not including, `to`. */
  function Between(from: int, to: int): seq<nat>
    requires 0 <= from
  {
    if from < to then seq(to - from, i requires 0 <= i => from + i) else []
  }

  lemma AdmitsWhere(w: Window, n: nat)
    requires DatagramWindow(w)
    ensures Admits(w, n) <==> w.lastSeq < n <= w.lastSeq + 2049
  {
  }

  lemma {:induction false} MissingAre(w: Window, n: nat)
    requires DatagramWindow(w) && w.lastSeq < n
    ensures Missing(w.received + {n}, w.lastSeq + 1, n) == Between(w.lastSeq + 1, n)
  {
    MissingIsRange(w.received + {n}, w.lastSeq + 1, n);
  }

  lemma {:induction false} TriadIsLittle(s: seq<byte>)
    requires |s| == 3
    ensures ReadLTriad(s) == Little(s)
  {
    LittleOfThree(s[0], s[1], s[2]);
    assert s == [s[0], s[1], s[2]];
  }

  /** Number `n` was taken: it is noted for an ACK and becomes the last, and the numbers skipped are
      noted for a NACK. */
  ghost predicate Taken(w: Window, r: Window, n: nat) {
    && r.lastSeq == n && r.accepted == w.accepted + [n] && r.nacked == w.nacked + Between(w.lastSeq + 1, n)
    && r.ackQueue == w.ackQueue + {n} && (forall k: nat :: k in r.nackQueue <==> k in w.nackQueue || w.lastSeq < k < n)
  }

  /** In every state a run leads to, past the offline handshake, a datagram is taken exactly if its number
      is one of the 2049 after the last taken. If not, nothing is noted, sent or told. */
  lemma {:induction false} DatagramArrives(config: Config, inputs: seq<Input>, raw: seq<byte>, now: real)
    requires Online(Run(FreshSession(config), inputs).host.app.phase) && |raw| >= 4 && 128 <= raw[0] <= 143
    ensures var s, n := Run(FreshSession(config), inputs), Little(raw[1..4]);
            var t := HandleRaw(s, raw, now);
            if s.window.lastSeq < n <= s.window.lastSeq + 2049 then Taken(s.window, t.window, n)
            else t.window == s.window && t.host.out == s.host.out && t.host.app.events == s.host.app.events
  {
    RunKeepsWindows(FreshSession(config), inputs);
    NumberDecides(Run(FreshSession(config), inputs), raw, Little(raw[1..4]), now);
  }

  lemma NumberDecides(s: Session, raw: seq<byte>, n: nat, now: real)
    requires DatagramWindow(s.window) && Online(s.host.app.phase) && |raw| >= 4 && 128 <= raw[0] <= 143
    requires Little(raw[1..4]) == n
    ensures var t := HandleRaw(s, raw, now);
            if s.window.lastSeq < n <= s.window.lastSeq + 2049 then Taken(s.window, t.window, n)
            else t.window == s.window && t.host.out == s.host.out && t.host.app.events == s.host.app.events
  {
    TriadIsLittle(raw[1..4]);
    AdmitsWhere(s.window, n);
    RawWindow(s, raw, now);
    if Admits(s.window, n) { NumberArrives(s.window, raw, n); } else { NumberIgnored(s, raw, n, now); }
  }

  lemma NumberIgnored(s: Session, raw: seq<byte>, n: nat, now: real)
    requires Online(s.host.app.phase) && |raw| >= 4 && 128 <= raw[0] <= 143 && ReadLTriad(raw[1..4]) == n
    requires !Admits(s.window, n)
    ensures var t := HandleRaw(s, raw, now);
            t.window == s.window && t.host.out == s.host.out && t.host.app.events == s.host.app.events
  {
  }

  lemma NumberArrives(w: Window, raw: seq<byte>, n: nat)
    requires DatagramWindow(w) && Admits(w, n) && |raw| >= 4 && 128 <= raw[0] <= 143 && ReadLTriad(raw[1..4]) == n
    ensures Taken(w, Received(w, raw), n)
  {
    NumberTaken(w, n);
    AcceptPacketsSide(AcceptNumber(w, n), DecodeDatagram(raw).value.packets);
  }

  lemma NumberTaken(w: Window, n: nat)
    requires DatagramWindow(w) && Admits(w, n)
    ensures Taken(w, AcceptNumber(w, n), n)
  {
    AdmitsWhere(w, n);
    MissingAre(w, n);
    BetweenHas(w.lastSeq + 1, n);
  }

  lemma BetweenHas(from: int, to: int)
    requires 0 <= from
    ensures forall k: nat :: k in Between(from, to) <==> from <= k < to
  {
    forall k: nat ensures k in Between(from, to) <==> from <= k < to {
      if from <= k < to { assert Between(from, to)[k - from] == k; }
    }
  }

  // ---------- packets without an index ----------

  function Plain(ps: seq<Packet>): seq<Packet> {
    if ps == [] then []
    else if ps[0].messageIndex.None? then [ps[0]] + Plain(ps[1..])
    else Plain(ps[1..])
  }

  lemma {:induction false} PlainAppend(ps: seq<Packet>, qs: seq<Packet>)
    ensures Plain(ps + qs) == Plain(ps) + Plain(qs)
  {
    if ps == [] {
      assert [] + qs == qs;
    } else {
      FirstOfAppend(ps, qs);
      PlainAppend(ps[1..], qs);
    }
  }

  lemma {:induction false} NonePlain(ps: seq<Packet>)
    requires forall p | p in ps :: p.messageIndex.Some?
    ensures Plain(ps) == []
  {
    if ps != [] {
      assert ps[0] in ps && forall p | p in ps[1..] :: p in ps;
      NonePlain(ps[1..]);
    }
  }

  /** Packets without an index are routed, all of them, in their order, whatever the window. */
  lemma {:induction false} PlainPass(w: Window, ps: seq<Packet>)
    requires ReliableWindow(w)
    ensures Plain(AcceptPackets(w, ps).packets) == Plain(ps)
    decreases |ps|
  {
    if ps != [] {
      var first := AcceptPacket(w, ps[0]);
      AcceptPacketKeeps(w, ps[0]);
      PlainPass(first.window, ps[1..]);
      PlainAppend(first.packets, AcceptPackets(first.window, ps[1..]).packets);
      PacketArrives(w, ps[0]);
      if ps[0].messageIndex.None? {
        assert [ps[0]][1..] == [];
      } else {
        NonePlain(first.packets);
      }
    }
  }

  // ---------- packets with an index ----------

  /** The packets are the held ones from index `next` up. */
  ghost predicate HeldFrom(w: Window, ps: seq<Packet>, next: nat) {
    forall i | 0 <= i < |ps| :: IsHeld(w, ps[i], next + i)
  }

  predicate IsHeld(w: Window, p: Packet, k: nat) { k in w.held && p == w.held[k] }

  /** What a packet that is next lets through: itself and the held packets that follow it without a gap. */
  ghost predicate Chain(w: Window, p: Packet, r: Passed) {
    var next := |w.routed|;
    && r.packets != [] && r.packets[0] == p && r.window.routed == w.routed + r.packets
    && HeldFrom(w, r.packets[1..], next + 1)
    && next + |r.packets| !in w.held
    && (forall k :: k in r.window.held <==> k in w.held && k > next + |r.packets|)
    && (forall k | k in r.window.held :: r.window.held[k] == w.held[k])
  }

  /** A packet without an index passes. Of the others, the next one passes with those that wait for it;
      one of the 2048 after it waits; any other is dropped. */
  lemma PacketArrives(w: Window, p: Packet)
    requires ReliableWindow(w)
    ensures var r, next := AcceptPacket(w, p), |w.routed|;
            match p.messageIndex
            case None => r == Passed(w, [p])
            case Some(idx) =>
              if idx == next then Chain(w, p, r)
              else if next < idx <= next + 2048 then r == Passed(w.(held := w.held[idx := p]), [])
              else r.packets == [] && r.window == w.(overrun := r.window.overrun)
    ensures p.messageIndex.Some? ==> forall q | q in AcceptPacket(w, p).packets :: q.messageIndex.Some?
  {
    if p.messageIndex == Some(|w.routed|) {
      Released(Advance(w, p));
      ChainOf(w, p, DrainHeld(Advance(w, p)));
    }
  }

  /** The held packets released: those that follow without a gap. */
  ghost predicate Freed(w: Window, r: Passed) {
    var next := |w.routed|;
    && r.window.routed == w.routed + r.packets
    && HeldFrom(w, r.packets, next)
    && next + |r.packets| !in w.held
    && (forall k :: k in r.window.held <==> k in w.held && k > next + |r.packets|)
    && (forall k | k in r.window.held :: r.window.held[k] == w.held[k])
  }

  lemma {:induction false} Released(w: Window)
    requires Releasing(w)
    ensures Freed(w, DrainHeld(w))
    decreases w.held.Keys
  {
    var r := DrainHeld(w);
    assert w.routed + [] == w.routed;
    if w.held != map[] {
      assert w.held.Keys != {};
      var k := MinKey(w.held.Keys);
      if k - w.lastReliable == 1 {
        var w1 := Advance(w.(held := w.held - {k}), w.held[k]);
        Released(w1);
        FreedFirst(w, w1, k, DrainHeld(w1));
      }
    }
  }

  lemma FreedFirst(w: Window, w1: Window, k: nat, r: Passed)
    requires k in w.held && k == |w.routed| && (forall j | j in w.held :: k <= j)
    requires w1.held == w.held - {k} && w1.routed == w.routed + [w.held[k]] && Freed(w1, r)
    ensures Freed(w, r.(packets := [w.held[k]] + r.packets))
  {
    var all := [w.held[k]] + r.packets;
    Append(w.routed, [w.held[k]], r.packets);
    forall i | 0 <= i < |all| ensures IsHeld(w, all[i], k + i) {
      if i > 0 { assert all[i] == r.packets[i - 1] && IsHeld(w1, r.packets[i - 1], |w1.routed| + (i - 1)); }
    }
  }

  lemma ChainOf(w: Window, p: Packet, r: Passed)
    requires ReliableWindow(w) && Freed(Advance(w, p), r)
    ensures Chain(w, p, r.(packets := [p] + r.packets))
    ensures (forall q | q in r.packets :: q.messageIndex.Some?)
  {
    Append(w.routed, [p], r.packets);
    assert ([p] + r.packets)[1..] == r.packets;
    HeldBefore(w, Advance(w, p), r.packets, |w.routed| + 1);
  }

  lemma HeldBefore(w: Window, w1: Window, ps: seq<Packet>, next: nat)
    requires ReliableWindow(w) && w1.held == w.held && HeldFrom(w1, ps, next)
    ensures HeldFrom(w, ps, next) && forall q | q in ps :: q.messageIndex.Some?
  {
    forall i | 0 <= i < |ps| ensures IsHeld(w, ps[i], next + i) && ps[i].messageIndex.Some? {
      assert IsHeld(w1, ps[i], next + i);
    }
  }
}
