/** The bytes on the wire, place by place: what the writers put where, and the limits of the reader of
    acknowledgements. */
module Formats {
  import opened Collections
  import opened Binary
  import opened Packets
  import opened Acknowledge

  /** The number whose bytes these are, most or least significant first. */
  function Big(s: seq<byte>): nat {
    if s == [] then 0 else Big(s[..|s| - 1]) * 256 + s[|s| - 1] as int
  }

  function Little(s: seq<byte>): nat {
    if s == [] then 0 else s[0] as int + 256 * Little(s[1..])
  }

  // ---------- numbers ----------

  lemma {:induction false} BigOf(a: byte, b: byte)
    ensures Big([a, b]) == a as int * 256 + b as int
  {
    assert [a, b][..1] == [a] && [a][..0] == [];
    assert Big([a]) == a as int;
  }

  lemma {:induction false} BigMore(s: seq<byte>, b: byte)
    ensures Big(s + [b]) == Big(s) * 256 + b as int
  {
    assert (s + [b])[..|s|] == s;
  }

  lemma {:induction false} BigOfFour(a: byte, b: byte, c: byte, d: byte)
    ensures Big([a, b, c, d]) == a as int * 0x100_0000 + b as int * 0x1_0000 + c as int * 0x100 + d as int
  {
    BigOf(a, b);
    BigMore([a, b], c);
    BigMore([a, b, c], d);
    assert [a, b] + [c] == [a, b, c] && [a, b, c] + [d] == [a, b, c, d];
  }

  lemma {:induction false} LittleOfThree(a: byte, b: byte, c: byte)
    ensures Little([a, b, c]) == a as int + b as int * 0x100 + c as int * 0x1_0000
  {
    assert [a, b, c][1..] == [b, c] && [b, c][1..] == [c] && [c][1..] == [];
    assert Little([c]) == c as int;
    assert Little([b, c]) == b as int + 256 * c as int;
  }

  lemma ShortBytes(v: nat)
    ensures |WriteShort(v)| == 2 && Big(WriteShort(v)) == v % 0x1_0000
  {
    ShortRoundTrip(v);
    BigOf(WriteShort(v)[0], WriteShort(v)[1]);
    assert WriteShort(v) == [WriteShort(v)[0], WriteShort(v)[1]];
  }

  lemma TriadBytes(v: nat)
    ensures |WriteLTriad(v)| == 3 && Little(WriteLTriad(v)) == v % 0x100_0000
  {
    LTriadRoundTrip(v);
    var s := WriteLTriad(v);
    LittleOfThree(s[0], s[1], s[2]);
    assert s == [s[0], s[1], s[2]];
  }

  lemma IntBytes(v: int)
    ensures |WriteInt(v)| == 4 && Big(WriteInt(v)) == v % 0x1_0000_0000
  {
    var s := WriteInt(v);
    WordRoundTrip(ToUnsigned(v));
    BigOfFour(s[0], s[1], s[2], s[3]);
    assert s == [s[0], s[1], s[2], s[3]];
  }

  lemma {:induction false} BigAppend(a: seq<byte>, b: seq<byte>)
    requires |b| == 4
    ensures Big(a + b) == Big(a) * 0x1_0000_0000 + Big(b)
  {
    BigMore(a, b[0]);
    BigMore(a + [b[0]], b[1]);
    BigMore(a + [b[0], b[1]], b[2]);
    BigMore(a + [b[0], b[1], b[2]], b[3]);
    assert a + [b[0]] + [b[1]] == a + [b[0], b[1]];
    assert a + [b[0], b[1]] + [b[2]] == a + [b[0], b[1], b[2]];
    assert a + [b[0], b[1], b[2]] + [b[3]] == a + b;
    BigOfFour(b[0], b[1], b[2], b[3]);
    assert b == [b[0], b[1], b[2], b[3]];
  }

  lemma Halves(v: nat)
    ensures ((v / 0x1_0000_0000) % 0x1_0000_0000) * 0x1_0000_0000 + v % 0x1_0000_0000 == v % 0x1_0000_0000_0000_0000
  {
    var h, l := v / 0x1_0000_0000, v % 0x1_0000_0000;
    var q := h / 0x1_0000_0000;
    assert v == q * 0x1_0000_0000_0000_0000 + ((h % 0x1_0000_0000) * 0x1_0000_0000 + l);
  }

  lemma LongBytes(v: nat)
    ensures |WriteLong(v)| == 8 && Big(WriteLong(v)) == v % 0x1_0000_0000_0000_0000
  {
    IntBytes(v / 0x1_0000_0000);
    IntBytes(v);
    BigAppend(WriteInt(v / 0x1_0000_0000), WriteInt(v));
    Halves(v);
  }

  lemma {:induction false} WordIsBig(s: seq<byte>)
    requires |s| == 4
    ensures Word(s) == Big(s)
  {
    BigOfFour(s[0], s[1], s[2], s[3]);
    assert s == [s[0], s[1], s[2], s[3]];
  }

  lemma {:induction false} ReadLongBytes(s: seq<byte>)
    requires |s| == 8
    ensures ReadLong(s) == Big(s) < 0x1_0000_0000_0000_0000
  {
    WordIsBig(s[..4]);
    WordIsBig(s[4..8]);
    BigAppend(s[..4], s[4..8]);
    assert s[..4] + s[4..8] == s;
  }

  lemma {:induction false} BigDistinct(a: seq<byte>, b: seq<byte>)
    requires |a| == |b| && Big(a) == Big(b)
    ensures a == b
    decreases |a|
  {
    if a != [] {
      LastByte(Big(a[..|a| - 1]), a[|a| - 1], Big(b[..|b| - 1]), b[|b| - 1]);
      BigDistinct(a[..|a| - 1], b[..|b| - 1]);
      assert a == a[..|a| - 1] + [a[|a| - 1]] && b == b[..|b| - 1] + [b[|b| - 1]];
    }
  }

  lemma LastByte(m: nat, a: byte, n: nat, b: byte)
    requires m * 256 + a as int == n * 256 + b as int
    ensures m == n && a == b
  {
  }

  lemma Within64(v: nat)
    ensures v < 0x1_0000_0000_0000_0000 ==> v % 0x1_0000_0000_0000_0000 == v
  {
  }

  /** Eight bytes read and written back are the same bytes. */
  lemma LongEcho(s: seq<byte>)
    requires |s| == 8
    ensures WriteLong(ReadLong(s)) == s
  {
    ReadLongBytes(s);
    LongBytes(Big(s));
    Within64(Big(s));
    BigDistinct(WriteLong(Big(s)), s);
  }

  // ---------- packets and datagrams ----------

  lemma Cut(f: byte, size: seq<byte>, idx: seq<byte>, ord: seq<byte>, spl: seq<byte>, buf: seq<byte>)
    requires |size| == 2
    ensures var b := [f] + size + idx + ord + spl + buf;
            var i := 3 + |idx|;
            var o := i + |ord|;
            var s := o + |spl|;
            && |b| == s + |buf| && b[0] == f && b[1..3] == size && b[3..i] == idx && b[i..o] == ord && b[o..s] == spl
            && b[s..] == buf
  {
  }

  /** Where the fields of a packet begin. */
  function OrderAt(p: Packet): nat { if p.reliability in {2, 3, 4, 6, 7} then 6 else 3 }
  function SplitAt(p: Packet): nat { OrderAt(p) + if p.reliability in {1, 3, 4} then 4 else 0 }
  function PayloadAt(p: Packet): nat { SplitAt(p) + if p.hasSplit then 10 else 0 }

  lemma PacketCut(p: Packet)
    requires p.reliability < 8
    ensures var b, i, o, s := ToBinary(p), OrderAt(p), SplitAt(p), PayloadAt(p);
            && |b| == s + |p.buffer| && b[0] == Flags(p) && b[1..3] == WriteShort(BitCount(p))
            && b[3..i] == IndexBytes(p) && b[i..o] == OrderBytes(p) && b[o..s] == SplitBytes(p) && b[s..] == p.buffer
  {
    Cut(Flags(p), WriteShort(BitCount(p)), IndexBytes(p), OrderBytes(p), SplitBytes(p), p.buffer);
  }

  /** A packet: three bits of reliability and the split bit; the length in bits; the message index for
      five of the reliabilities; and at the end the payload. */
  lemma PacketLayout(p: Packet)
    requires p.reliability < 8
    ensures var b := ToBinary(p);
            && |b| == PayloadAt(p) + |p.buffer| && b[PayloadAt(p)..] == p.buffer
            && b[0] == p.reliability * 32 + (if p.hasSplit then 16 else 0)
            && Big(b[1..3]) == (|p.buffer| * 8) % 0x1_0000
            && (p.reliability in {2, 3, 4, 6, 7} ==> Little(b[3..6]) == p.messageIndex.GetOr(0) % 0x100_0000)
  {
    PacketCut(p);
    ShortBytes(BitCount(p));
    TriadBytes(p.messageIndex.GetOr(0));
  }

  /** Order index and channel, for three of the reliabilities. */
  lemma OrderLayout(p: Packet)
    requires p.reliability in {1, 3, 4}
    ensures var b, o := ToBinary(p), OrderAt(p);
            && o + 4 <= |b| && Little(b[o..o + 3]) == p.orderIndex.GetOr(0) % 0x100_0000
            && b[o + 3] == p.orderChannel.GetOr(0)
  {
    PacketCut(p);
    OrderParts(p, ToBinary(p), OrderAt(p));
  }

  lemma OrderParts(p: Packet, b: seq<byte>, o: nat)
    requires HasOrder(p.reliability) && o + 4 <= |b| && b[o..o + 4] == OrderBytes(p)
    ensures Little(b[o..o + 3]) == p.orderIndex.GetOr(0) % 0x100_0000 && b[o + 3] == p.orderChannel.GetOr(0)
  {
    TriadBytes(p.orderIndex.GetOr(0));
    SliceOfSlice(b, o, o + 4, 0, 3);
    assert OrderBytes(p)[0..3] == WriteLTriad(p.orderIndex.GetOr(0));
    assert b[o..o + 4][3] == b[o + 3];
  }

  /** Count, identifier and index of a part. */
  lemma SplitLayout(p: Packet)
    requires p.hasSplit && p.reliability < 8
    ensures var b, s := ToBinary(p), SplitAt(p);
            && s + 10 <= |b| && Big(b[s..s + 4]) == p.splitCount.GetOr(0) % 0x1_0000_0000
            && Big(b[s + 4..s + 6]) == p.splitId.GetOr(0) % 0x1_0000
            && Big(b[s + 6..s + 10]) == p.splitIndex.GetOr(0) % 0x1_0000_0000
  {
    PacketCut(p);
    SplitParts(p, ToBinary(p), SplitAt(p));
  }

  lemma SplitParts(p: Packet, b: seq<byte>, s: nat)
    requires p.hasSplit && s + 10 <= |b| && b[s..s + 10] == SplitBytes(p)
    ensures Big(b[s..s + 4]) == p.splitCount.GetOr(0) % 0x1_0000_0000
    ensures Big(b[s + 4..s + 6]) == p.splitId.GetOr(0) % 0x1_0000
    ensures Big(b[s + 6..s + 10]) == p.splitIndex.GetOr(0) % 0x1_0000_0000
  {
    IntBytes(p.splitCount.GetOr(0));
    ShortBytes(p.splitId.GetOr(0));
    IntBytes(p.splitIndex.GetOr(0));
    SliceOfSlice(b, s, s + 10, 0, 4);
    SliceOfSlice(b, s, s + 10, 4, 6);
    SliceOfSlice(b, s, s + 10, 6, 10);
    var c := SplitBytes(p);
    assert c[0..4] == WriteInt(p.splitCount.GetOr(0)) && c[4..6] == WriteShort(p.splitId.GetOr(0))
        && c[6..10] == WriteInt(p.splitIndex.GetOr(0));
  }

  /** A datagram: its identifier and its number in front, each further packet at the end. */
  lemma {:induction false} DatagramLayout(d: Datagram, p: Packet)
    ensures var b := EncodeDatagram(d.(packets := []));
            |b| == 4 && b[0] == d.id && Little(b[1..4]) == d.seqNumber % 0x100_0000
    ensures EncodeDatagram(d.(packets := d.packets + [p])) == EncodeDatagram(d) + ToBinary(p)
  {
    var b := EncodeDatagram(d.(packets := []));
    TriadBytes(d.seqNumber);
    assert b == [d.id] + WriteLTriad(d.seqNumber) && b[1..4] == WriteLTriad(d.seqNumber);
    EncodePacketsMore(d.packets, p);
    Append([d.id] + WriteLTriad(d.seqNumber), EncodePackets(d.packets), ToBinary(p));
  }

  lemma {:induction false} EncodePacketsMore(ps: seq<Packet>, p: Packet)
    ensures EncodePackets(ps + [p]) == EncodePackets(ps) + ToBinary(p)
    decreases |ps|
  {
    if ps == [] {
      assert [] + [p] == [p] && [p][1..] == [];
      assert ToBinary(p) + [] == ToBinary(p) && [] + ToBinary(p) == ToBinary(p);
    } else {
      assert (ps + [p])[0] == ps[0] && (ps + [p])[1..] == ps[1..] + [p];
      EncodePacketsMore(ps[1..], p);
      Append(ToBinary(ps[0]), EncodePackets(ps[1..]), ToBinary(p));
    }
  }

  // ---------- acknowledgements ----------

  /** The record of a single number and that of a range. */
  ghost predicate IsRecord(b: seq<byte>, first: nat, last: nat) {
    if first == last then |b| == 4 && b[0] == 1 && Little(b[1..4]) == first % 0x100_0000
    else |b| == 7 && b[0] == 0 && Little(b[1..4]) == first % 0x100_0000 && Little(b[4..7]) == last % 0x100_0000
  }

  lemma RecordLayout(r: Run)
    ensures IsRecord(RecordBytes(r), r.first, r.last)
  {
    TriadBytes(r.first);
    TriadBytes(r.last);
    var b := RecordBytes(r);
    assert b[1..4] == WriteLTriad(r.first);
    assert r.first != r.last ==> b[4..7] == WriteLTriad(r.last);
  }

  lemma {:induction false} AckFront(id: byte, xs: seq<nat>, rs: seq<Run>)
    requires rs == Runs(Listed(xs))
    ensures var b := EncodeAck(id, xs);
            |b| >= 3 && b[0] == id && Big(b[1..3]) == |rs| % 0x1_0000 && b[3..] == RecordsBytes(rs)
  {
    FrontOf(id, |rs|, RecordsBytes(rs));
  }

  lemma FrontOf(id: byte, n: nat, records: seq<byte>)
    ensures var b := [id] + WriteShort(n % 0x1_0000) + records;
            |b| >= 3 && b[0] == id && Big(b[1..3]) == n % 0x1_0000 && b[3..] == records
  {
    var count := WriteShort(n % 0x1_0000);
    ShortBytes(n % 0x1_0000);
    assert ([id] + count + records)[1..3] == count;
  }

  /** An acknowledgement of consecutive numbers: the identifier, the count of records in two bytes, and
      one record. */
  lemma {:induction false} OneRunLayout(id: byte, first: nat, n: nat)
    requires n > 0
    ensures var b := EncodeAck(id, Consecutive(first, n));
            |b| >= 3 && b[0] == id && Big(b[1..3]) == 1 && IsRecord(b[3..], first, first + n - 1)
  {
    var r := Run(first, first + n - 1);
    ConsecutiveRun(first, n);
    OneRecord(r);
    AckFront(id, Consecutive(first, n), [r]);
    RecordLayout(r);
  }

  lemma {:induction false} OneRecord(r: Run)
    ensures RecordsBytes([r]) == RecordBytes(r)
    ensures Kept([r], 1, 0) == Clip(r)
  {
    assert [r][1..] == [];
    assert RecordBytes(r) + [] == RecordBytes(r) && Clip(r) + [] == Clip(r);
  }

  function Consecutive(first: nat, n: nat): seq<nat> { seq(n, i requires 0 <= i => first + i) }

  lemma {:induction false} ConsecutiveRun(first: nat, n: nat)
    requires n > 0
    ensures Runs(Listed(Consecutive(first, n))) == [Run(first, first + n - 1)]
  {
    ConsecutiveListed(first, n);
    RunOn(first, Consecutive(first, n), 1);
  }

  lemma ConsecutiveListed(first: nat, n: nat)
    ensures Listed(Consecutive(first, n)) == Consecutive(first, n)
  {
    var xs := Consecutive(first, n);
    SortedUnique(Ascending(set x | x in xs), xs);
  }

  /** Two ascending lists of the same numbers are the same. */
  lemma {:induction false} SortedUnique(a: seq<nat>, b: seq<nat>)
    requires StrictlyAscending(a) && StrictlyAscending(b) && forall x :: x in a <==> x in b
    ensures a == b
    decreases |a|
  {
    assert (a != [] ==> a[0] in a) && (b != [] ==> b[0] in b);
    if a != [] {
      FirstLeast(a, b);
      forall x ensures x in a[1..] <==> x in b[1..] {
        TailMembers(a, x);
        TailMembers(b, x);
      }
      SortedUnique(a[1..], b[1..]);
      assert a == [a[0]] + a[1..] && b == [b[0]] + b[1..];
    }
  }

  lemma FirstLeast(a: seq<nat>, b: seq<nat>)
    requires a != [] && b != [] && StrictlyAscending(a) && StrictlyAscending(b) && forall x :: x in a <==> x in b
    ensures a[0] == b[0]
  {
    assert a[0] in b && b[0] in a;
    var i :| 0 <= i < |a| && a[i] == b[0];
    var j :| 0 <= j < |b| && b[j] == a[0];
  }

  lemma TailMembers(a: seq<nat>, x: nat)
    requires a != [] && StrictlyAscending(a)
    ensures x in a[1..] <==> x in a && x != a[0]
  {
    if x in a && x != a[0] {
      var i :| 0 <= i < |a| && a[i] == x;
      assert a[1..][i - 1] == x;
    }
  }

  lemma {:induction false} RunOn(first: nat, xs: seq<nat>, i: nat)
    requires 0 < i <= |xs| && first <= xs[i - 1] && forall j | 0 < j < |xs| :: xs[j] == xs[j - 1] + 1
    ensures RunsFrom(first, xs, i) == [Run(first, xs[|xs| - 1])]
    decreases |xs| - i
  {
    if i < |xs| { RunOn(first, xs, i + 1); }
  }

  /** Of more than 513 consecutive numbers the reader takes the first 513. */
  lemma {:induction false} LongRunIsCut(id: byte, first: nat, n: nat)
    requires n > 0 && first + n <= 0x100_0000
    ensures DecodeAck(EncodeAck(id, Consecutive(first, n))) == Some(Consecutive(first, if n <= 513 then n else 513))
  {
    var xs, r := Consecutive(first, n), Run(first, first + n - 1);
    ConsecutiveRun(first, n);
    forall x | x in xs ensures x < U24 {
      var i :| 0 <= i < |xs| && xs[i] == x;
    }
    AckReads(id, xs);
    OneRecord(r);
    ClipIs(first, n);
  }

  lemma ClipIs(first: nat, n: nat)
    requires n > 0
    ensures Clip(Run(first, first + n - 1)) == Consecutive(first, if n <= 513 then n else 513)
  {
  }
}
