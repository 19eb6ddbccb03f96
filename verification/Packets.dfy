/** EncapsulatedPacket and Datagram: the records, their byte forms, and how the two relate. */
module Packets {
  import opened Collections
  import opened Binary

  datatype Packet = Packet(
    reliability: byte,
    hasSplit: bool,
    messageIndex: Option<nat>,
    orderIndex: Option<nat>,
    orderChannel: Option<byte>,
    splitCount: Option<int>,
    splitId: Option<nat>,
    splitIndex: Option<int>,
    buffer: seq<byte>,
    needAck: bool,
    identifierAck: Option<int>)

  /** A default-constructed packet. */
  const BLANK: Packet := Packet(0, false, None, None, None, None, None, None, [], false, None)

  datatype Datagram = Datagram(id: byte, seqNumber: nat, packets: seq<Packet>, sendTime: real)

  /** Reliabilities whose byte form carries a message index. */
  predicate HasIndex(rel: int) { rel >= 2 && rel != 5 }

  /** Reliabilities whose byte form carries an order index and channel. */
  predicate HasOrder(rel: int) { 0 < rel <= 4 && rel != 2 }

  // ---------- EncapsulatedPacket ----------

  function TotalLength(p: Packet): nat {
    3 + |p.buffer| + (if p.messageIndex.Some? then 3 else 0) + (if p.orderIndex.Some? then 4 else 0)
    + (if p.hasSplit then 10 else 0)
  }

  function IndexBytes(p: Packet): seq<byte> {
    if HasIndex(p.reliability) then WriteLTriad(p.messageIndex.GetOr(0)) else []
  }

  function OrderBytes(p: Packet): seq<byte> {
    if HasOrder(p.reliability) then WriteLTriad(p.orderIndex.GetOr(0)) + [p.orderChannel.GetOr(0)] else []
  }

  function SplitBytes(p: Packet): seq<byte> {
    if p.hasSplit then
      WriteInt(p.splitCount.GetOr(0)) + WriteShort(p.splitId.GetOr(0)) + WriteInt(p.splitIndex.GetOr(0))
    else []
  }

  function Flags(p: Packet): byte {
    (p.reliability as int * 0x20 + (if p.hasSplit then 0x10 else 0)) % 0x100
  }

  /** The 16-bit length field counts bits. */
  function BitCount(p: Packet): nat { (|p.buffer| * 8) % U16 }

  function Header(p: Packet): seq<byte> {
    [Flags(p)] + WriteShort(BitCount(p)) + IndexBytes(p) + OrderBytes(p) + SplitBytes(p)
  }

  function ToBinary(p: Packet): seq<byte> {
    Header(p) + p.buffer
  }

  function WithIndex(p: Packet, b: seq<byte>): Packet
    requires HasIndex(p.reliability) ==> |b| >= 6
  {
    if HasIndex(p.reliability) then p.(messageIndex := Some(ReadLTriad(b[3..6]))) else p
  }

  function WithOrder(p: Packet, b: seq<byte>, o: nat): Packet
    requires HasOrder(p.reliability) ==> |b| >= o + 4
  {
    if HasOrder(p.reliability)
    then p.(orderIndex := Some(ReadLTriad(b[o..o + 3])), orderChannel := Some(b[o + 3]))
    else p
  }

  function WithSplit(p: Packet, b: seq<byte>, o: nat): Packet
    requires p.hasSplit ==> |b| >= o + 10
  {
    if p.hasSplit
    then p.(splitCount := Some(ReadInt(b[o..o + 4])), splitId := Some(ReadShort(b[o + 4..o + 6])),
            splitIndex := Some(ReadInt(b[o + 6..o + 10])))
    else p
  }

  function FlagReliability(flags: byte): byte { flags / 0x20 }

  function FlagSplit(flags: byte): bool { (flags / 0x10) % 2 == 1 }

  function ByteLength(bits: nat): nat { (bits + 7) / 8 }

  /** The packet read from the front of `b` and the number of bytes it took; 0 bytes is failure. */
  function FromBinary(b: seq<byte>): (r: (Packet, nat))
    ensures r.1 <= |b|
  {
    if b == [] then (BLANK, 0)
    else
      var rel := FlagReliability(b[0]);
      var p0 := BLANK.(reliability := rel, hasSplit := FlagSplit(b[0]));
      if |b| < 3 then (p0, 0)
      else
        var length := ByteLength(ReadShort(b[1..3]));
        var o1 := if HasIndex(rel) then 6 else 3;
        if |b| < o1 then (p0, 0)
        else
          var p1 := WithIndex(p0, b);
          var o2 := if HasOrder(rel) then o1 + 4 else o1;
          if |b| < o2 then (p1, 0)
          else
            var p2 := WithOrder(p1, b, o1);
            var o3 := if p0.hasSplit then o2 + 10 else o2;
            if |b| < o3 then (p2, 0)
            else
              var p3 := WithSplit(p2, b, o2);
              if |b| < o3 + length then (p3, 0)
              else (p3.(buffer := b[o3..o3 + length]), o3 + length)
  }

  /** What a peer reads back: the byte form has exactly the fields the reliability calls for, with
      zero for an absent one, three-byte indexes and a 16-bit length counted in bits. */
  function AsReceived(p: Packet): Packet {
    Packet(p.reliability, p.hasSplit,
           if HasIndex(p.reliability) then Some(p.messageIndex.GetOr(0) % U24) else None,
           if HasOrder(p.reliability) then Some(p.orderIndex.GetOr(0) % U24) else None,
           if HasOrder(p.reliability) then Some(p.orderChannel.GetOr(0)) else None,
           if p.hasSplit then Some(ToInt32(p.splitCount.GetOr(0))) else None,
           if p.hasSplit then Some(p.splitId.GetOr(0) % U16) else None,
           if p.hasSplit then Some(ToInt32(p.splitIndex.GetOr(0))) else None,
           p.buffer[..|p.buffer| % 0x2000], false, None)
  }

  lemma FlagsRoundTrip(p: Packet)
    requires p.reliability < 8
    ensures FlagReliability(Flags(p)) == p.reliability && FlagSplit(Flags(p)) == p.hasSplit
  {
  }

  lemma LengthRoundTrip(p: Packet)
    ensures ByteLength(ReadShort(WriteShort(BitCount(p)))) == |p.buffer| % 0x2000 <= |p.buffer|
  {
    ShortRoundTrip(BitCount(p));
    BitsToBytes(|p.buffer|);
  }

  lemma BitsToBytes(n: nat)
    ensures ((n * 8) % U16) % U16 == (n % 0x2000) * 8
    ensures ByteLength((n % 0x2000) * 8) == n % 0x2000 <= n
  {
    var q, m := n / 0x2000, n % 0x2000;
    assert n * 8 == q * U16 + m * 8;
  }

  /** Where the parts of a concatenation lie. */
  lemma Layout(f: byte, size: seq<byte>, idx: seq<byte>, ord: seq<byte>, spl: seq<byte>, buf: seq<byte>, rest: seq<byte>,
               n: nat, b: seq<byte>)
    requires |size| == 2 && n <= |buf|
    requires b == [f] + size + idx + ord + spl + buf + rest
    ensures var o1 := 3 + |idx|;
            var o2 := o1 + |ord|;
            var o3 := o2 + |spl|;
            && |b| == o3 + |buf| + |rest|
            && b[0] == f && b[1..3] == size
            && b[3..o1] == idx && b[o1..o2] == ord && b[o2..o3] == spl
            && b[o3..o3 + n] == buf[..n]
  {
  }

  lemma ReadIndex(p: Packet, q: Packet, b: seq<byte>)
    requires q.reliability == p.reliability
    requires 3 + |IndexBytes(p)| <= |b| && b[3..3 + |IndexBytes(p)|] == IndexBytes(p)
    ensures WithIndex(q, b) == if HasIndex(p.reliability) then q.(messageIndex := Some(p.messageIndex.GetOr(0) % U24)) else q
  {
    LTriadRoundTrip(p.messageIndex.GetOr(0));
  }

  lemma ReadOrder(p: Packet, q: Packet, b: seq<byte>, o: nat)
    requires q.reliability == p.reliability
    requires o + |OrderBytes(p)| <= |b| && b[o..o + |OrderBytes(p)|] == OrderBytes(p)
    ensures WithOrder(q, b, o) == if HasOrder(p.reliability)
                                  then q.(orderIndex := Some(p.orderIndex.GetOr(0) % U24),
                                          orderChannel := Some(p.orderChannel.GetOr(0)))
                                  else q
  {
    if HasOrder(p.reliability) {
      var part := b[o..o + 4];
      SliceOfSlice(b, o, o + 4, 0, 3);
      assert part[0..3] == WriteLTriad(p.orderIndex.GetOr(0));
      assert b[o + 3] == part[3];
      LTriadRoundTrip(p.orderIndex.GetOr(0));
    }
  }

  lemma ReadSplit(p: Packet, q: Packet, b: seq<byte>, o: nat)
    requires q.hasSplit == p.hasSplit
    requires o + |SplitBytes(p)| <= |b| && b[o..o + |SplitBytes(p)|] == SplitBytes(p)
    ensures WithSplit(q, b, o) == if p.hasSplit
                                  then q.(splitCount := Some(ToInt32(p.splitCount.GetOr(0))),
                                          splitId := Some(p.splitId.GetOr(0) % U16),
                                          splitIndex := Some(ToInt32(p.splitIndex.GetOr(0))))
                                  else q
  {
    if p.hasSplit {
      var part := b[o..o + 10];
      SliceOfSlice(b, o, o + 10, 0, 4);
      SliceOfSlice(b, o, o + 10, 4, 6);
      SliceOfSlice(b, o, o + 10, 6, 10);
      assert part[0..4] == WriteInt(p.splitCount.GetOr(0));
      assert part[4..6] == WriteShort(p.splitId.GetOr(0));
      assert part[6..10] == WriteInt(p.splitIndex.GetOr(0));
      IntRoundTrip(p.splitCount.GetOr(0));
      ShortRoundTrip(p.splitId.GetOr(0));
      IntRoundTrip(p.splitIndex.GetOr(0));
    }
  }

  /** A byte string whose parts are those of a printed packet parses to that packet. */
  lemma ReadParts(p: Packet, b: seq<byte>, n: nat)
    requires var o1 := 3 + |IndexBytes(p)|;
             var o2 := o1 + |OrderBytes(p)|;
             var o3 := o2 + |SplitBytes(p)|;
             && |b| >= o3 + n
             && FlagReliability(b[0]) == p.reliability && FlagSplit(b[0]) == p.hasSplit
             && ByteLength(ReadShort(b[1..3])) == n <= |p.buffer|
             && b[3..o1] == IndexBytes(p) && b[o1..o2] == OrderBytes(p) && b[o2..o3] == SplitBytes(p)
             && b[o3..o3 + n] == p.buffer[..n]
    requires n == |p.buffer| % 0x2000
    ensures FromBinary(b) == (AsReceived(p), 3 + |IndexBytes(p)| + |OrderBytes(p)| + |SplitBytes(p)| + n)
  {
    var o1 := 3 + |IndexBytes(p)|;
    var o2 := o1 + |OrderBytes(p)|;
    var p0 := BLANK.(reliability := p.reliability, hasSplit := p.hasSplit);
    ReadIndex(p, p0, b);
    var p1 := WithIndex(p0, b);
    ReadOrder(p, p1, b, o1);
    var p2 := WithOrder(p1, b, o1);
    ReadSplit(p, p2, b, o2);
  }

  /** Parsing the front of any byte string that starts with a printed packet. */
  lemma PacketRoundTrip(p: Packet, rest: seq<byte>)
    requires p.reliability < 8
    ensures FromBinary(ToBinary(p) + rest) == (AsReceived(p), |Header(p)| + |p.buffer| % 0x2000)
  {
    var b := ToBinary(p) + rest;
    LengthRoundTrip(p);
    FlagsRoundTrip(p);
    var n := |p.buffer| % 0x2000;
    Layout(Flags(p), WriteShort(BitCount(p)), IndexBytes(p), OrderBytes(p), SplitBytes(p), p.buffer, rest, n, b);
    ReadParts(p, b, n);
  }

  /** Every field agrees with the reliability and fits its place on the wire. */
  predicate Canonical(p: Packet) {
    && (if HasIndex(p.reliability) then p.messageIndex.Some? && p.messageIndex.value < U24 else p.messageIndex.None?)
    && (if HasOrder(p.reliability)
        then p.orderIndex.Some? && p.orderIndex.value < U24 && p.orderChannel.Some?
        else p.orderIndex.None? && p.orderChannel.None?)
    && (if p.hasSplit
        then && p.splitCount.Some? && -0x8000_0000 <= p.splitCount.value < 0x8000_0000
             && p.splitId.Some? && p.splitId.value < U16
             && p.splitIndex.Some? && -0x8000_0000 <= p.splitIndex.value < 0x8000_0000
        else p.splitCount.None? && p.splitId.None? && p.splitIndex.None?)
    && |p.buffer| < 0x2000 && !p.needAck && p.identifierAck.None?
  }

  /** The round trip is the identity on the canonical packets and on no others. */
  lemma RoundTripIsIdentity(p: Packet)
    requires p.reliability < 8
    ensures AsReceived(p) == p <==> Canonical(p)
  {
    if |p.buffer| < 0x2000 {
      assert p.buffer[..|p.buffer| % 0x2000] == p.buffer;
    } else {
      assert |AsReceived(p).buffer| < 0x2000;
    }
  }

  /** `totalLength` is the byte count exactly when the optional indexes present are the ones the
      reliability calls for. */
  lemma TotalLengthExact(p: Packet)
    ensures |ToBinary(p)| == TotalLength(p) <==>
            && (p.messageIndex.Some? <==> HasIndex(p.reliability))
            && (p.orderIndex.Some? <==> HasOrder(p.reliability))
  {
  }

  // ---------- Datagram ----------

  function Length(d: Datagram): nat {
    4 + TotalLengths(d.packets)
  }

  function TotalLengths(ps: seq<Packet>): nat {
    if ps == [] then 0 else TotalLength(ps[0]) + TotalLengths(ps[1..])
  }

  function EncodePackets(ps: seq<Packet>): seq<byte> {
    if ps == [] then [] else ToBinary(ps[0]) + EncodePackets(ps[1..])
  }

  function EncodeDatagram(d: Datagram): seq<byte> {
    [d.id] + WriteLTriad(d.seqNumber) + EncodePackets(d.packets)
  }

  function DecodePackets(b: seq<byte>): seq<Packet>
    decreases |b|
  {
    if b == [] then []
    else
      var (pk, used) := FromBinary(b);
      if used == 0 || pk.buffer == [] then []
      else [pk] + DecodePackets(b[used..])
  }

  function DecodeDatagram(b: seq<byte>): Option<Datagram> {
    if |b| < 4 then None
    else Some(Datagram(b[0], ReadLTriad(b[1..4]), DecodePackets(b[4..]), 0.0))
  }

  method MeasureDatagram(d: Datagram) returns (n: nat)
    ensures n == Length(d)
  {
    n := 4;
    for i := 0 to |d.packets|
      invariant n + TotalLengths(d.packets[i..]) == Length(d)
    {
      assert d.packets[i..][1..] == d.packets[i + 1..];
      n := n + TotalLength(d.packets[i]);
    }
  }

  method PrintPacket(out: BinaryStream, p: Packet)
    modifies out`buffer
    ensures out.buffer == old(out.buffer) + ToBinary(p)
  {
    out.Put(ToBinary(p));
  }

  lemma EncodePacketsStep(front: seq<byte>, ps: seq<Packet>, i: nat)
    requires i < |ps|
    ensures front + EncodePackets(ps[i..]) == (front + ToBinary(ps[i])) + EncodePackets(ps[i + 1..])
  {
    assert ps[i..][1..] == ps[i + 1..];
  }

  method PrintDatagram(d: Datagram) returns (bytes: seq<byte>)
    ensures bytes == EncodeDatagram(d)
  {
    var out := new BinaryStream([]);
    out.Put([d.id]);
    out.Put(WriteLTriad(d.seqNumber));
    ghost var whole := EncodeDatagram(d);
    assert out.buffer + EncodePackets(d.packets[0..]) == whole;
    for i := 0 to |d.packets|
      invariant out.buffer + EncodePackets(d.packets[i..]) == whole
    {
      EncodePacketsStep(out.buffer, d.packets, i);
      PrintPacket(out, d.packets[i]);
    }
    bytes := out.buffer;
  }

  method ReadPacket(buffer: seq<byte>, offset: nat) returns (pk: Packet, used: nat)
    requires offset < |buffer|
    ensures offset + used <= |buffer|
    ensures DecodePackets(buffer[offset..])
         == if used == 0 || pk.buffer == [] then [] else [pk] + DecodePackets(buffer[offset + used..])
  {
    var r := FromBinary(buffer[offset..]);
    pk, used := r.0, r.1;
    assert buffer[offset..][used..] == buffer[offset + used..];
  }

  method ParsePackets(buffer: seq<byte>, start: nat) returns (packets: seq<Packet>)
    requires start <= |buffer|
    ensures packets == DecodePackets(buffer[start..])
  {
    packets := [];
    var offset := start;
    ghost var whole := DecodePackets(buffer[start..]);
    while offset < |buffer|
      invariant start <= offset <= |buffer|
      invariant packets + DecodePackets(buffer[offset..]) == whole
    {
      var pk, used := ReadPacket(buffer, offset);
      if used == 0 || pk.buffer == [] { return; }
      Append(packets, [pk], DecodePackets(buffer[offset + used..]));
      offset := offset + used;
      packets := packets + [pk];
    }
    assert buffer[offset..] == [] && DecodePackets(buffer[offset..]) == [];
  }

  method ParseDatagram(buffer: seq<byte>) returns (r: Option<Datagram>)
    ensures r == DecodeDatagram(buffer)
  {
    if |buffer| < 4 { return None; }
    var packets := ParsePackets(buffer, 4);
    r := Some(Datagram(buffer[0], ReadLTriad(buffer[1..4]), packets, 0.0));
  }

  function AllAsReceived(ps: seq<Packet>): (r: seq<Packet>)
    ensures |r| == |ps|
    ensures forall i | 0 <= i < |ps| :: r[i] == AsReceived(ps[i])
  {
    seq(|ps|, i requires 0 <= i < |ps| => AsReceived(ps[i]))
  }

  lemma AllAsReceivedAppend(ps: seq<Packet>, qs: seq<Packet>)
    ensures AllAsReceived(ps + qs) == AllAsReceived(ps) + AllAsReceived(qs)
  {
  }

  /** The packets before the first one with an empty buffer, where the reader stops. */
  function BeforeEmpty(ps: seq<Packet>): seq<Packet> {
    if ps == [] || ps[0].buffer == [] then [] else [ps[0]] + BeforeEmpty(ps[1..])
  }

  predicate Carriable(p: Packet) {
    p.reliability < 8 && |p.buffer| < 0x2000
  }

  lemma ReadWhole(p: Packet)
    requires Carriable(p)
    ensures |Header(p)| + |p.buffer| % 0x2000 == |ToBinary(p)|
    ensures AsReceived(p).buffer == p.buffer
  {
    assert |p.buffer| % 0x2000 == |p.buffer|;
  }

  /** The first packet printed is the first one read, unless it is empty and stops the reader. */
  lemma {:induction false} FirstRead(p: Packet, rest: seq<byte>)
    requires Carriable(p)
    ensures DecodePackets(ToBinary(p) + rest) == if p.buffer == [] then [] else [AsReceived(p)] + DecodePackets(rest)
  {
    PacketRoundTrip(p, rest);
    ReadWhole(p);
    DropFront(ToBinary(p), rest);
  }

  lemma AllAsReceivedFirst(p: Packet, ps: seq<Packet>)
    ensures AllAsReceived([p] + ps) == [AsReceived(p)] + AllAsReceived(ps)
  {
  }

  lemma {:induction false} PacketsRoundTrip(ps: seq<Packet>)
    requires forall p | p in ps :: Carriable(p)
    ensures DecodePackets(EncodePackets(ps)) == AllAsReceived(BeforeEmpty(ps))
  {
    if ps != [] {
      assert ps[0] in ps;
      FirstRead(ps[0], EncodePackets(ps[1..]));
      if ps[0].buffer != [] {
        PacketsRoundTrip(ps[1..]);
        AllAsReceivedFirst(ps[0], BeforeEmpty(ps[1..]));
      }
    }
  }

  lemma {:induction false} BeforeEmptyIsAll(ps: seq<Packet>)
    ensures |BeforeEmpty(ps)| <= |ps|
    ensures |BeforeEmpty(ps)| == |ps| <==> forall p | p in ps :: p.buffer != []
    ensures (forall p | p in ps :: p.buffer != []) ==> BeforeEmpty(ps) == ps
  {
    if ps != [] {
      BeforeEmptyIsAll(ps[1..]);
      assert forall p :: p in ps <==> p == ps[0] || p in ps[1..];
    }
  }

  /** A printed datagram reads back with its packets as received, in order, up to the first empty
      one: nothing is lost exactly when no buffer is empty. */
  lemma DatagramRoundTrip(d: Datagram)
    requires forall p | p in d.packets :: Carriable(p)
    ensures var r := DecodeDatagram(EncodeDatagram(d));
            && r == Some(Datagram(d.id, d.seqNumber % U24, AllAsReceived(BeforeEmpty(d.packets)), 0.0))
            && (|r.value.packets| == |d.packets| <==> forall p | p in d.packets :: p.buffer != [])
            && ((forall p | p in d.packets :: p.buffer != []) ==> r.value.packets == AllAsReceived(d.packets))
  {
    var b := EncodeDatagram(d);
    assert b[1..4] == WriteLTriad(d.seqNumber);
    assert b[4..] == EncodePackets(d.packets);
    LTriadRoundTrip(d.seqNumber);
    PacketsRoundTrip(d.packets);
    BeforeEmptyIsAll(d.packets);
  }
}
