/** The answers of a session, byte by byte: the two open-connection replies, the server's handshake and
    the pong, and what else the packets of the connection change. */
module Replies {
  import opened Collections
  import opened Binary
  import opened Packets
  import opened SessionModel
  import opened Formats

  /** The bytes that mark an offline message. */
  const COOKIE: seq<byte> := [0, 255, 255, 0, 254, 254, 254, 254, 253, 253, 253, 253, 18, 52, 86, 120]

  lemma CookieIsMagic()
    ensures MAGIC == COOKIE && |COOKIE| == 16
  {
  }

  /** An IPv4 address: version 4, the four octets inverted, the port. */
  ghost predicate IsAddress(b: seq<byte>, e: Endpoint) {
    && |b| == 7 && b[0] == 4
    && b[1] == 255 - e.a && b[2] == 255 - e.b && b[3] == 255 - e.c && b[4] == 255 - e.d
    && Big(b[5..7]) == e.port % 0x1_0000
  }

  lemma AddressIs(e: Endpoint)
    ensures IsAddress(AddressBytes(e), e)
  {
    ShortBytes(e.port);
    assert AddressBytes(e)[5..7] == WriteShort(e.port);
  }

  // ---------- the offline handshake ----------

  ghost predicate IsReply1(b: seq<byte>, serverId: nat, size: nat) {
    && |b| == 28 && b[0] == 6 && b[1..17] == COOKIE && Big(b[17..25]) == serverId % 0x1_0000_0000_0000_0000
    && b[25] == 0 && Big(b[26..28]) == size % 0x1_0000
  }

  ghost predicate IsReply2(b: seq<byte>, c: Config, size: nat) {
    && |b| == 35 && b[0] == 8 && b[1..17] == COOKIE && Big(b[17..25]) == c.serverId % 0x1_0000_0000_0000_0000
    && IsAddress(b[25..32], c.endpoint) && Big(b[32..34]) == size % 0x1_0000 && b[34] == 0
  }

  lemma Reply1Is(serverId: nat, size: nat)
    ensures IsReply1(OpenReply1(serverId, size), serverId, size)
  {
    CookieIsMagic();
    LongBytes(serverId);
    ShortBytes(size);
    Pieces1([6], MAGIC, WriteLong(serverId), [0], WriteShort(size));
  }

  lemma Pieces1(a: seq<byte>, b: seq<byte>, c: seq<byte>, d: seq<byte>, e: seq<byte>)
    requires |a| == 1 && |b| == 16 && |c| == 8 && |d| == 1 && |e| == 2
    ensures var s := a + b + c + d + e;
            |s| == 28 && s[0] == a[0] && s[1..17] == b && s[17..25] == c && s[25] == d[0] && s[26..28] == e
  {
  }

  lemma Reply2Is(c: Config, size: nat)
    ensures IsReply2(OpenReply2(c, size), c, size)
  {
    CookieIsMagic();
    LongBytes(c.serverId);
    AddressIs(c.endpoint);
    ShortBytes(size);
    Pieces2([8], MAGIC, WriteLong(c.serverId), AddressBytes(c.endpoint), WriteShort(size), [0]);
  }

  lemma Pieces2(a: seq<byte>, b: seq<byte>, c: seq<byte>, d: seq<byte>, e: seq<byte>, f: seq<byte>)
    requires |a| == 1 && |b| == 16 && |c| == 8 && |d| == 7 && |e| == 2 && |f| == 1
    ensures var s := a + b + c + d + e + f;
            && |s| == 35 && s[0] == a[0] && s[1..17] == b && s[17..25] == c && s[25..32] == d && s[32..34] == e
            && s[34] == f[0]
  {
  }

  /** Nothing was said and nothing learned, except that the peer is alive. */
  ghost predicate Unmoved(s: Session, t: Session, now: real) {
    && t.host.out == s.host.out && t.window == s.window
    && t.host.app == s.host.app.(active := true, lastUpdate := now)
  }

  /** `t` is `s` after one more reply. */
  ghost predicate Said(s: Session, t: Session, b: seq<byte>, size: nat) {
    t.host.out == s.host.out.(mtu := size, sent := s.host.out.sent + [Reply(b)])
  }

  /** The first request, before the session is past the offline handshake: if it is long enough and
      marked, its length is the packet size, and is told back; else it is ignored. */
  lemma {:induction false} Request1(s: Session, raw: seq<byte>, now: real) returns (b: seq<byte>)
    requires (s.host.app.phase == Unconnected || s.host.app.phase == Connecting1) && raw != [] && raw[0] == 5
    ensures var t := HandleRaw(s, raw, now);
            if |raw| >= 18 && raw[1..17] == COOKIE then
              && Said(s, t, b, |raw| % 0x1_0000) && IsReply1(b, s.config.serverId, |raw|)
              && t.host.app.phase == Connecting1
            else Unmoved(s, t, now)
  {
    CookieIsMagic();
    Reply1Is(s.config.serverId, |raw| % 0x1_0000);
    b := OpenReply1(s.config.serverId, |raw| % 0x1_0000);
  }

  /** The second request, after the first: if it is long enough, marked and names an IPv4 address, the
      packet size it asks for, at most 1464, and the client's identifier are taken from it, and the reply
      tells the size; else it is ignored. */
  lemma {:induction false} Request2(s: Session, raw: seq<byte>, now: real) returns (b: seq<byte>)
    requires s.host.app.phase == Connecting1 && raw != [] && raw[0] == 7
    ensures var t := HandleRaw(s, raw, now);
            if |raw| >= 34 && raw[1..17] == COOKIE && raw[17] == 4 then
              var size := if Big(raw[24..26]) < 1464 then Big(raw[24..26]) else 1464;
              && Said(s, t, b, size) && IsReply2(b, s.config, size)
              && t.host.app.phase == Connecting2 && t.host.app.clientId == Big(raw[26..34])
            else Unmoved(s, t, now)
  {
    CookieIsMagic();
    b := [];
    if |raw| >= 34 {
      var size := OfferedMtu(ReadShort(raw[24..26]));
      b := OpenReply2(s.config, size);
      Reply2Is(s.config, size);
      BigOf(raw[24], raw[25]);
      assert raw[24..26] == [raw[24], raw[25]];
      ReadLongBytes(raw[26..34]);
    }
  }

  /** A second request that comes again before the connection packet is answered again; past that, and for
      any other first byte below 128, nothing happens. */
  lemma {:induction false} RequestAgain(s: Session, raw: seq<byte>, now: real) returns (b: seq<byte>)
    requires (s.host.app.phase == Connecting2 || s.host.app.phase == Connected) && raw != [] && raw[0] < 128
    ensures var t := HandleRaw(s, raw, now);
            if s.host.app.phase == Connecting2 && raw[0] == 7 then
              && Said(s, t, b, s.host.out.mtu) && IsReply2(b, s.config, s.host.out.mtu)
              && t.host.app.phase == Connecting2
            else Unmoved(s, t, now)
  {
    b := OpenReply2(s.config, s.host.out.mtu);
    Reply2Is(s.config, s.host.out.mtu);
  }

  /** Before that, nothing but the two requests in their turn has any effect. */
  lemma OthersIgnored(s: Session, raw: seq<byte>, now: real)
    requires s.host.app.phase == Unconnected || s.host.app.phase == Connecting1
    requires raw != [] && raw[0] != 5 && !(s.host.app.phase == Connecting1 && raw[0] == 7)
    ensures Unmoved(s, HandleRaw(s, raw, now), now)
  {
  }

  // ---------- signs of life ----------

  predicate SameLife(a: App, b: App) { a.active == b.active && a.lastUpdate == b.lastUpdate }

  lemma WholeKeepsAlive(h: Host, config: Config, p: Packet, now: real)
    ensures SameLife(RouteWhole(h, config, p, now).app, h.app)
  {
  }

  lemma RouteKeepsAlive(h: Host, config: Config, p: Packet, now: real)
    ensures SameLife(Route(h, config, p, now).app, h.app)
  {
    if !p.hasSplit {
      WholeKeepsAlive(h, config, p, now);
    } else if h.app.phase == Connected {
      var (app, whole) := HandleSplit(h.app, p);
      PartKeepsAlive(h.app, p);
      if whole.Some? { WholeKeepsAlive(h.(app := app), config, whole.value, now); }
    }
  }

  lemma PartKeepsAlive(a: App, p: Packet)
    ensures SameLife(HandleSplit(a, p).0, a)
  {
  }

  lemma {:induction false} RouteAllKeepsAlive(h: Host, config: Config, ps: seq<Packet>, now: real)
    ensures SameLife(RouteAll(h, config, ps, now).app, h.app)
    decreases |ps|
  {
    if ps != [] {
      RouteKeepsAlive(h, config, ps[0], now);
      RouteAllKeepsAlive(Route(h, config, ps[0], now), config, ps[1..], now);
    }
  }

  /** Whatever arrives is a sign of life: it sets the time from which silence is counted. */
  lemma BytesKeepAlive(s: Session, raw: seq<byte>, now: real)
    requires raw != []
    ensures var a := HandleRaw(s, raw, now).host.app; a.active && a.lastUpdate == now
  {
    var h := s.host.(app := s.host.app.(active := true, lastUpdate := now));
    if Online(h.app.phase) && 0x80 <= raw[0] <= 0x8f {
      var d := DecodeDatagram(raw);
      if d.Some? && Admits(s.window, d.value.seqNumber) {
        var passed := AcceptPackets(AcceptNumber(s.window, d.value.seqNumber), d.value.packets);
        RouteAllKeepsAlive(h, s.config, passed.packets, now);
      }
    }
  }

  // ---------- packets of the connection ----------

  /** The `i`th of the ten addresses in a handshake. */
  ghost predicate AddressAt(b: seq<byte>, i: nat, e: Endpoint) {
    17 + 7 * i <= |b| && IsAddress(b[10 + 7 * i..17 + 7 * i], e)
  }

  /** The addresses told: the loopback address, then nine of zeros. */
  function SystemAddress(i: nat): Endpoint {
    if i == 0 then Endpoint(127, 0, 0, 1, 0) else Endpoint(0, 0, 0, 0, 0)
  }

  /** The server's handshake: the client's address, two zero bytes, ten addresses, the eight bytes the
      client sent, and a number 1000 higher. */
  ghost predicate IsHandshake(b: seq<byte>, e: Endpoint, ping: seq<byte>) {
    && |b| == 96 && b[0] == 16 && IsAddress(b[1..8], e) && b[8] == 0 && b[9] == 0
    && (forall i | 0 <= i < 10 :: AddressAt(b, i, SystemAddress(i)))
    && b[80..88] == ping && Big(b[88..96]) == (Big(ping) + 1000) % 0x1_0000_0000_0000_0000
  }

  lemma {:induction false} SystemAddressAt(n: nat, i: nat)
    requires i < n
    ensures |SystemAddresses(n)| == 7 * n
    ensures SystemAddresses(n)[7 * i..7 * i + 7] == AddressBytes(SystemAddress(i))
    decreases n
  {
    if n > 1 { SystemAddressAt(n - 1, if i < n - 1 then i else 0); }
    assert SystemAddresses(0) == [];
    assert SystemAddresses(n) == SystemAddresses(n - 1) + AddressBytes(SystemAddress(n - 1));
  }

  lemma Pieces3(a: seq<byte>, b: seq<byte>, c: seq<byte>, d: seq<byte>, e: seq<byte>, f: seq<byte>)
    requires |a| == 1 && |b| == 7 && |c| == 2 && |d| == 70 && |e| == 8 && |f| == 8
    ensures var s := a + b + c + d + e + f;
            && |s| == 96 && s[0] == a[0] && s[1..8] == b && s[8] == c[0] && s[9] == c[1] && s[10..80] == d
            && s[80..88] == e && s[88..96] == f
  {
  }

  /** The ten addresses in a row. */
  ghost predicate InARow(all: seq<byte>) {
    |all| == 70 && forall i | 0 <= i < 10 :: IsAddress(all[7 * i..7 * i + 7], SystemAddress(i))
  }

  lemma {:induction false} AddressesInARow(n: nat)
    requires n == 10
    ensures InARow(SystemAddresses(n))
  {
    SystemAddressAt(n, 0);
    forall i | 0 <= i < 10 ensures IsAddress(SystemAddresses(n)[7 * i..7 * i + 7], SystemAddress(i)) {
      SystemAddressAt(n, i);
      AddressIs(SystemAddress(i));
    }
  }

  lemma RowInside(b: seq<byte>, all: seq<byte>)
    requires |b| == 96 && b[10..80] == all && InARow(all)
    ensures forall i | 0 <= i < 10 :: AddressAt(b, i, SystemAddress(i))
  {
    forall i | 0 <= i < 10 ensures AddressAt(b, i, SystemAddress(i)) {
      SliceOfSlice(b, 10, 80, 7 * i, 7 * i + 7);
    }
  }

  lemma HandshakeOf(b: seq<byte>, e: Endpoint, ping: seq<byte>, all: seq<byte>)
    requires |ping| == 8 && InARow(all)
    requires b == [16] + AddressBytes(e) + WriteShort(0) + all
                  + WriteLong(ReadLong(ping)) + WriteLong(ReadLong(ping) + 1000)
    ensures IsHandshake(b, e, ping)
  {
    Pieces3([16], AddressBytes(e), WriteShort(0), all, WriteLong(ReadLong(ping)), WriteLong(ReadLong(ping) + 1000));
    AddressIs(e);
    assert WriteShort(0) == [0, 0];
    RowInside(b, all);
    LongEcho(ping);
    ReadLongBytes(ping);
    LongBytes(ReadLong(ping) + 1000);
  }

  lemma HandshakeIs(e: Endpoint, ping: seq<byte>)
    requires |ping| == 8
    ensures IsHandshake(ServerHandshake(e, ReadLong(ping)), e, ping)
  {
    AddressesInARow(10);
    HandshakeOf(ServerHandshake(e, ReadLong(ping)), e, ping, SystemAddresses(10));
  }

  /** An answer: reliability 0, not a part, without indexes. */
  function Bare(b: seq<byte>): Packet { Packet(0, false, None, None, None, None, None, None, b, false, None) }

  /** The connection packet is answered at once, in a datagram of its own under the next number. */
  lemma {:induction false} ConnectAnswered(h: Host, config: Config, p: Packet, now: real) returns (b: seq<byte>)
    requires h.app.phase == Connecting2 && !p.hasSplit && |p.buffer| >= 17 && p.buffer[0] == 9
    ensures var r := Route(h, config, p, now);
            && IsHandshake(b, config.endpoint, p.buffer[9..17]) && r.app == h.app
            && r.out.enqueued == h.out.enqueued + [Bare(b)] && r.out.sendSeq == h.out.sendSeq + 1
            && r.out.sent == h.out.sent + [Data(Datagram(0x80, h.out.sendSeq, [Bare(b)], now))]
  {
    b := ServerHandshake(config.endpoint, ReadLong(p.buffer[9..17]));
    HandshakeIs(config.endpoint, p.buffer[9..17]);
  }

  /** A ping is answered with its own eight bytes, with the next datagram that leaves. */
  lemma PingAnswered(h: Host, config: Config, p: Packet, now: real)
    requires (h.app.phase == Connecting2 || h.app.phase == Connected) && !p.hasSplit && |p.buffer| >= 9 && p.buffer[0] == 0
    ensures var r, pong := Route(h, config, p, now), Bare([3] + p.buffer[1..9]);
            && r.app == h.app && r.out.enqueued == h.out.enqueued + [pong]
            && r.out.sendQueue.packets != [] && r.out.sendQueue.packets[|r.out.sendQueue.packets| - 1] == pong
  {
    LongEcho(p.buffer[1..9]);
  }

  /** What else a packet that is no part does to a session past the offline handshake: the acceptance of
      the handshake connects it and tells the host; a farewell closes it, which the host is told once; a
      payload of the host is delivered once the session is connected; and nothing else has any effect. */
  lemma PacketsDo(h: Host, config: Config, p: Packet, now: real)
    requires (h.app.phase == Connecting2 || h.app.phase == Connected) && !p.hasSplit
    ensures var r := Route(h, config, p, now);
            if p.buffer == [] then r == h
            else if p.buffer[0] >= 128 then
              r.out == h.out && r.app == if h.app.phase == Connected
                                         then h.app.(events := h.app.events + [Delivered(p)]) else h.app
            else if p.buffer[0] == 19 && h.app.phase == Connecting2 then
              r.out == h.out && r.app == h.app.(phase := Connected, temporal := false,
                                                events := h.app.events + [Opened(h.app.clientId)])
            else if p.buffer[0] == 21 then
              r.out == h.out && r.app == if h.app.closed then h.app
                                         else h.app.(closed := true, events := h.app.events + [Closed])
            else if p.buffer[0] == 0 || (p.buffer[0] == 9 && h.app.phase == Connecting2) then
              r.app == h.app && (|p.buffer| < (if p.buffer[0] == 0 then 9 else 17) ==> r == h)
            else r == h
  {
  }
}
