/** AcknowledgePacket: the ACK/NACK payload, its run compression and the caps of its reader. */
module Acknowledge {
  import opened Collections
  import opened Binary

  const ID_ACK: byte := 0xc0
  const ID_NACK: byte := 0xa0

  /** At most this many numbers are read before the reader stops at a record boundary. */
  const MAX_NUMBERS := 4096

  /** A range record is cut to this many numbers beyond its first. */
  const MAX_SPAN := 512

  /** Maximal block of consecutive numbers, both ends included. */
  datatype Run = Run(first: nat, last: nat)

  /** The runs of a strictly ascending list from the run that starts at `first` and has reached xs[i - 1]. */
  function RunsFrom(first: nat, xs: seq<nat>, i: nat): (rs: seq<Run>)
    requires 0 < i <= |xs| && first <= xs[i - 1]
    ensures rs != []
    decreases |xs| - i
  {
    if i == |xs| then [Run(first, xs[i - 1])]
    else if xs[i] == xs[i - 1] + 1 then RunsFrom(first, xs, i + 1)
    else [Run(first, xs[i - 1])] + RunsFrom(xs[i], xs, i + 1)
  }

  function Runs(xs: seq<nat>): seq<Run> {
    if xs == [] then [] else RunsFrom(xs[0], xs, 1)
  }

  function RecordBytes(r: Run): seq<byte> {
    if r.first == r.last then [1] + WriteLTriad(r.first)
    else [0] + WriteLTriad(r.first) + WriteLTriad(r.last)
  }

  function RecordsBytes(rs: seq<Run>): seq<byte> {
    if rs == [] then [] else RecordBytes(rs[0]) + RecordsBytes(rs[1..])
  }

  /** The numbers listed, without repetition and in order: what sort, unique and erase leave. */
  function Listed(xs: seq<nat>): seq<nat> {
    Ascending(set x | x in xs)
  }

  function EncodeAck(id: byte, xs: seq<nat>): seq<byte> {
    var rs := Runs(Listed(xs));
    [id] + WriteShort(|rs| % U16) + RecordsBytes(rs)
  }

  function Span(first: nat, last: nat): (xs: seq<nat>)
    ensures |xs| == if first <= last then last - first + 1 else 0
    ensures forall i | 0 <= i < |xs| :: xs[i] == first + i
  {
    if first <= last then seq(last - first + 1, i requires 0 <= i => first + i) else []
  }

  /** The record loop: `left` records still announced, `count` numbers read so far. None is a
      reversed range or a stream that ends inside a record. */
  function ReadRecords(b: seq<byte>, left: nat, count: nat): Option<seq<nat>>
    decreases left
  {
    if left == 0 || b == [] || count >= MAX_NUMBERS then Some([])
    else if b[0] == 0 then
      if |b| < 7 then None
      else
        var first := ReadLTriad(b[1..4]);
        var last := ReadLTriad(b[4..7]);
        if last < first then None
        else
          var xs := Span(first, if last - first > MAX_SPAN then first + MAX_SPAN else last);
          match ReadRecords(b[7..], left - 1, count + |xs|)
          case None => None
          case Some(ys) => Some(xs + ys)
    else if |b| < 4 then None
    else
      match ReadRecords(b[4..], left - 1, count + 1)
      case None => None
      case Some(ys) => Some([ReadLTriad(b[1..4])] + ys)
  }

  function DecodeAck(b: seq<byte>): Option<seq<nat>> {
    if |b| < 3 then None else ReadRecords(b[3..], ReadShort(b[1..3]), 0)
  }

  // ---------- what the reader keeps of what the writer listed ----------

  function Expand(rs: seq<Run>): seq<nat> {
    if rs == [] then [] else Span(rs[0].first, rs[0].last) + Expand(rs[1..])
  }

  function Clip(r: Run): seq<nat> {
    Span(r.first, if r.last - r.first > MAX_SPAN then r.first + MAX_SPAN else r.last)
  }

  /** The numbers the reader takes from `rs` when `left` records were announced. */
  function Kept(rs: seq<Run>, left: nat, count: nat): seq<nat> {
    if rs == [] || left == 0 || count >= MAX_NUMBERS then []
    else Clip(rs[0]) + Kept(rs[1..], left - 1, count + |Clip(rs[0])|)
  }

  ghost predicate Ordered(rs: seq<Run>) {
    && (forall r | r in rs :: r.first <= r.last < U24)
  }

  lemma {:induction false} SingleRead(a: seq<byte>, rest: seq<byte>, left: nat, count: nat)
    requires |a| == 3 && left > 0 && count < MAX_NUMBERS
    ensures ReadRecords([1] + a + rest, left, count)
         == match ReadRecords(rest, left - 1, count + 1)
            case None => None
            case Some(ys) => Some([ReadLTriad(a)] + ys)
  {
    var b := [1] + a + rest;
    assert b[1..4] == a && b[4..] == rest;
  }

  lemma {:induction false} RangeRead(a: seq<byte>, c: seq<byte>, r: Run, rest: seq<byte>, left: nat, count: nat)
    requires |a| == |c| == 3 && left > 0 && count < MAX_NUMBERS
    requires r.first == ReadLTriad(a) <= r.last == ReadLTriad(c)
    ensures ReadRecords([0] + a + c + rest, left, count)
         == match ReadRecords(rest, left - 1, count + |Clip(r)|)
            case None => None
            case Some(ys) => Some(Clip(r) + ys)
  {
    var b := [0] + a + c + rest;
    assert b[1..4] == a && b[4..7] == c && b[7..] == rest;
  }

  lemma {:induction false} RecordRead(r: Run, rest: seq<byte>, left: nat, count: nat)
    requires r.first <= r.last < U24 && left > 0 && count < MAX_NUMBERS
    ensures ReadRecords(RecordBytes(r) + rest, left, count)
         == match ReadRecords(rest, left - 1, count + |Clip(r)|)
            case None => None
            case Some(ys) => Some(Clip(r) + ys)
  {
    LTriadRoundTrip(r.first);
    LTriadRoundTrip(r.last);
    if r.first == r.last {
      SingleRead(WriteLTriad(r.first), rest, left, count);
      assert Clip(r) == [r.first];
    } else {
      RangeRead(WriteLTriad(r.first), WriteLTriad(r.last), r, rest, left, count);
    }
  }

  ghost predicate ReadsTo(b: seq<byte>, left: nat, count: nat, kept: seq<nat>) {
    ReadRecords(b, left, count) == Some(kept)
  }

  lemma {:induction false} NothingRead(b: seq<byte>, rs: seq<Run>, left: nat, count: nat)
    requires left == 0 || count >= MAX_NUMBERS
    ensures ReadsTo(b, left, count, Kept(rs, left, count))
  {
  }

  lemma FirstRecordRead(r: Run, tail: seq<byte>, left: nat, count: nat, rest: seq<nat>)
    requires r.first <= r.last < U24 && left > 0 && count < MAX_NUMBERS
    requires ReadsTo(tail, left - 1, count + |Clip(r)|, rest)
    ensures ReadsTo(RecordBytes(r) + tail, left, count, Clip(r) + rest)
  {
    RecordRead(r, tail, left, count);
  }

  lemma {:induction false} RecordsBytesFirst(rs: seq<Run>)
    requires rs != []
    ensures RecordsBytes(rs) == RecordBytes(rs[0]) + RecordsBytes(rs[1..])
  {
  }

  lemma {:induction false} KeptFirst(rs: seq<Run>, left: nat, count: nat)
    requires rs != [] && left > 0 && count < MAX_NUMBERS
    ensures Kept(rs, left, count) == Clip(rs[0]) + Kept(rs[1..], left - 1, count + |Clip(rs[0])|)
  {
  }

  lemma {:induction false} RecordsRead(rs: seq<Run>, left: nat, count: nat)
    requires Ordered(rs) && left <= |rs|
    ensures ReadsTo(RecordsBytes(rs), left, count, Kept(rs, left, count))
    decreases |rs|
  {
    if left == 0 || count >= MAX_NUMBERS {
      NothingRead(RecordsBytes(rs), rs, left, count);
    } else {
      var r, tail := rs[0], rs[1..];
      assert r in rs;
      RecordsRead(tail, left - 1, count + |Clip(r)|);
      FirstRecordRead(r, RecordsBytes(tail), left, count, Kept(tail, left - 1, count + |Clip(r)|));
      RecordsBytesFirst(rs);
      KeptFirst(rs, left, count);
    }
  }

  lemma {:induction false} KeptSome(rs: seq<Run>, left: nat, count: nat)
    requires Ordered(rs)
    ensures |Kept(rs, left, count)| <= |Expand(rs)|
    ensures forall x | x in Kept(rs, left, count) :: x in Expand(rs)
  {
    if rs != [] && left > 0 && count < MAX_NUMBERS {
      var tail := Kept(rs[1..], left - 1, count + |Clip(rs[0])|);
      KeptSome(rs[1..], left - 1, count + |Clip(rs[0])|);
      assert rs[0] in rs;
      ClipSome(rs[0]);
      forall x | x in Clip(rs[0]) + tail ensures x in Span(rs[0].first, rs[0].last) + Expand(rs[1..]) {
        assert x in Clip(rs[0]) || x in tail;
      }
    }
  }

  lemma ClipSome(r: Run)
    requires r.first <= r.last
    ensures |Clip(r)| <= |Span(r.first, r.last)|
    ensures forall x | x in Clip(r) :: x in Span(r.first, r.last)
  {
    forall x | x in Clip(r) ensures x in Span(r.first, r.last) {
      assert Span(r.first, r.last)[x - r.first] == x;
    }
  }

  /** No run is longer than a range record may carry. */
  ghost predicate ShortRuns(rs: seq<Run>) {
    forall r | r in rs :: r.last - r.first <= 512
  }

  /** The reader is still below its cap when it comes to the last record. */
  ghost predicate UnderCap(rs: seq<Run>, count: nat) {
    rs != [] ==> count + |Expand(rs[..|rs| - 1])| < 4096
  }

  lemma {:induction false} KeptAll(rs: seq<Run>, left: nat, count: nat)
    requires Ordered(rs)
    ensures Kept(rs, left, count) == Expand(rs) <==> left >= |rs| && ShortRuns(rs) && UnderCap(rs, count)
  {
    if rs != [] {
      var r, rest := rs[0], rs[1..];
      assert r in rs && forall q :: q in rs <==> q == r || q in rest;
      if rest != [] {
        assert rs[..|rs| - 1] == [r] + rest[..|rest| - 1];
        assert rs[..|rs| - 1][1..] == rest[..|rest| - 1];
      }
      if left > 0 && count < MAX_NUMBERS {
        KeptSome(rest, left - 1, count + |Clip(r)|);
        KeptAll(rest, left - 1, count + |Clip(r)|);
        assert r.last - r.first <= MAX_SPAN ==> Clip(r) == Span(r.first, r.last);
        Prefix(Clip(r), Kept(rest, left - 1, count + |Clip(r)|), Span(r.first, r.last), Expand(rest));
      }
    }
  }

  lemma Prefix<T>(a: seq<T>, b: seq<T>, c: seq<T>, d: seq<T>)
    requires |a| <= |c| && |b| <= |d|
    ensures a + b == c + d <==> a == c && b == d
  {
    if a + b == c + d {
      assert |a + b| == |c + d|;
      assert a == (a + b)[..|a|] && b == (a + b)[|a|..];
      assert c == (c + d)[..|c|] && d == (c + d)[|c|..];
    }
  }

  lemma {:induction false} RunsExpand(first: nat, xs: seq<nat>, i: nat)
    requires 0 < i <= |xs| && first <= xs[i - 1] && StrictlyAscending(xs)
    ensures Expand(RunsFrom(first, xs, i)) == Span(first, xs[i - 1]) + xs[i..]
    decreases |xs| - i
  {
    if i == |xs| {
      assert Expand([Run(first, xs[i - 1])][1..]) == [];
    } else if xs[i] == xs[i - 1] + 1 {
      RunsExpand(first, xs, i + 1);
      Append(Span(first, xs[i - 1]), [xs[i]], xs[i + 1..]);
      assert Span(first, xs[i]) == Span(first, xs[i - 1]) + [xs[i]];
      assert [xs[i]] + xs[i + 1..] == xs[i..];
    } else {
      RunsExpand(xs[i], xs, i + 1);
      var next := RunsFrom(xs[i], xs, i + 1);
      assert ([Run(first, xs[i - 1])] + next)[1..] == next;
      assert Span(xs[i], xs[i]) + xs[i + 1..] == xs[i..];
    }
  }

  lemma {:induction false} RunsBounded(first: nat, xs: seq<nat>, i: nat)
    requires 0 < i <= |xs| && first <= xs[i - 1] && StrictlyAscending(xs)
    ensures forall r | r in RunsFrom(first, xs, i) :: r.first <= r.last && r.last in xs
    decreases |xs| - i
  {
    if i < |xs| {
      RunsBounded(if xs[i] == xs[i - 1] + 1 then first else xs[i], xs, i + 1);
    }
  }

  lemma {:induction false} RunsMaximal(first: nat, xs: seq<nat>, i: nat)
    requires 0 < i <= |xs| && first <= xs[i - 1] && StrictlyAscending(xs)
    ensures var rs := RunsFrom(first, xs, i);
            && rs[0].first == first
            && forall k | 0 <= k < |rs| - 1 :: rs[k].last + 1 < rs[k + 1].first
    decreases |xs| - i
  {
    if i < |xs| {
      assert xs[i - 1] < xs[i];
      RunsMaximal(if xs[i] == xs[i - 1] + 1 then first else xs[i], xs, i + 1);
    }
  }

  lemma RunsOfSorted(sorted: seq<nat>)
    requires StrictlyAscending(sorted)
    ensures Expand(Runs(sorted)) == sorted
    ensures forall r | r in Runs(sorted) :: r.first <= r.last && r.last in sorted
  {
    if sorted != [] {
      var x := sorted[0];
      RunsExpand(x, sorted, 1);
      RunsBounded(x, sorted, 1);
      assert Span(x, x) + sorted[1..] == sorted;
    }
  }

  lemma ListedMembers(xs: seq<nat>)
    ensures StrictlyAscending(Listed(xs)) && forall x | x in Listed(xs) :: x in xs
  {
  }

  /** The runs written for a list of numbers are its numbers, sorted and each once. */
  lemma RunsOfListed(xs: seq<nat>)
    ensures Expand(Runs(Listed(xs))) == Listed(xs)
    ensures (forall x | x in xs :: x < U24) ==> Ordered(Runs(Listed(xs)))
  {
    ListedMembers(xs);
    RunsOfSorted(Listed(xs));
  }

  /** No two runs could be written as one. */
  lemma RunsAreMaximal(xs: seq<nat>)
    ensures var rs := Runs(Listed(xs));
            forall i | 0 <= i < |rs| - 1 :: rs[i].last + 1 < rs[i + 1].first
  {
    var sorted := Listed(xs);
    if sorted != [] { RunsMaximal(sorted[0], sorted, 1); }
  }

  lemma {:induction false} ExpandCounts(rs: seq<Run>)
    requires Ordered(rs)
    ensures |Expand(rs)| >= |rs|
  {
    if rs != [] { ExpandCounts(rs[1..]); }
  }

  /** The 16-bit record count `left` wraps only where the cap has cut the list long before. */
  lemma {:induction false} KeptFromMessage(rs: seq<Run>, left: nat)
    requires Ordered(rs) && left <= |rs| && (|rs| < U16 ==> left == |rs|)
    ensures forall x | x in Kept(rs, left, 0) :: x in Expand(rs)
    ensures Kept(rs, left, 0) == Expand(rs) <==> ShortRuns(rs) && UnderCap(rs, 0)
  {
    KeptSome(rs, left, 0);
    KeptAll(rs, left, 0);
    if rs != [] {
      var front := rs[..|rs| - 1];
      assert forall r :: r in front ==> r in rs;
      ExpandCounts(front);
    }
  }

  lemma {:induction false} MessageParts(id: byte, size: seq<byte>, records: seq<byte>)
    requires |size| == 2
    ensures DecodeAck([id] + size + records) == ReadRecords(records, ReadShort(size), 0)
  {
    var b := [id] + size + records;
    assert b[1..3] == size && b[3..] == records;
  }

  lemma {:induction false} AckDecoded(id: byte, rs: seq<Run>, left: nat, b: seq<byte>)
    requires Ordered(rs) && left <= |rs| && left < U16
    requires b == [id] + WriteShort(left) + RecordsBytes(rs)
    ensures DecodeAck(b) == Some(Kept(rs, left, 0))
  {
    var size, records, kept := WriteShort(left), RecordsBytes(rs), Kept(rs, left, 0);
    SizeRead(left);
    RecordsRead(rs, left, 0);
    PartsDecoded(b, id, size, records, left, kept);
  }

  lemma PartsDecoded(b: seq<byte>, id: byte, size: seq<byte>, records: seq<byte>, left: nat, kept: seq<nat>)
    requires b == [id] + size + records && |size| == 2 && ReadShort(size) == left
    requires ReadsTo(records, left, 0, kept)
    ensures DecodeAck(b) == Some(kept)
  {
    MessageParts(id, size, records);
  }

  lemma SizeRead(left: nat)
    requires left < U16
    ensures |WriteShort(left)| == 2 && ReadShort(WriteShort(left)) == left
  {
    ShortRoundTrip(left);
  }

  lemma AckReads(id: byte, xs: seq<nat>)
    requires forall x | x in xs :: x < U24
    ensures var rs := Runs(Listed(xs)); DecodeAck(EncodeAck(id, xs)) == Some(Kept(rs, |rs| % U16, 0))
  {
    var rs := Runs(Listed(xs));
    RunsOfListed(xs);
    AckDecoded(id, rs, |rs| % U16, EncodeAck(id, xs));
  }

  lemma KeptOfListed(xs: seq<nat>)
    requires forall x | x in xs :: x < U24
    ensures var rs := Runs(Listed(xs));
            && (forall x | x in Kept(rs, |rs| % U16, 0) :: x in Listed(xs))
            && (Kept(rs, |rs| % U16, 0) == Listed(xs) <==> ShortRuns(rs) && UnderCap(rs, 0))
  {
    var rs := Runs(Listed(xs));
    RunsOfListed(xs);
    LeftFits(|rs|);
    KeptFromMessage(rs, |rs| % U16);
  }

  lemma LeftFits(n: nat)
    ensures n % U16 <= n && n % U16 < U16 && (n < U16 ==> n % U16 == n)
  {
  }

  /** Reading an acknowledgement back never yields a number that was not listed, and yields the
      whole list exactly when no run spans more than 513 numbers and the numbers before the last
      run stay below the reader's cap. */
  lemma AckRoundTrip(id: byte, xs: seq<nat>)
    requires forall x | x in xs :: x < U24
    ensures var r := DecodeAck(EncodeAck(id, xs));
            && r.Some?
            && (forall x | x in r.value :: x in xs)
            && (r.value == Listed(xs) <==> ShortRuns(Runs(Listed(xs))) && UnderCap(Runs(Listed(xs)), 0))
  {
    AckReads(id, xs);
    KeptOfListed(xs);
    ListedMembers(xs);
  }

  // ---------- the loops of encode and decode ----------

  lemma {:induction false} RecordsBytesSnoc(rs: seq<Run>, r: Run)
    ensures RecordsBytes(rs + [r]) == RecordsBytes(rs) + RecordBytes(r)
  {
    if rs == [] {
      assert [] + [r] == [r] && [r][1..] == [];
    } else {
      RecordsBytesSnoc(rs[1..], r);
      assert (rs + [r])[1..] == rs[1..] + [r];
      Append(RecordBytes(rs[0]), RecordsBytes(rs[1..]), RecordBytes(r));
    }
  }

  method PrintRuns(out: BinaryStream, sorted: seq<nat>) returns (records: nat)
    requires sorted != []
    modifies out`buffer
    ensures out.buffer == old(out.buffer) + RecordsBytes(Runs(sorted))
    ensures records == |Runs(sorted)| % U16
  {
    records := 0;
    var pointer := 1;
    var start, last := sorted[0], sorted[0];
    ghost var front, printed: seq<Run> := out.buffer, [];
    while pointer < |sorted|
      invariant 1 <= pointer <= |sorted|
      invariant start <= last == sorted[pointer - 1]
      invariant printed + RunsFrom(start, sorted, pointer) == Runs(sorted)
      invariant out.buffer == front + RecordsBytes(printed)
      invariant records == |printed| % U16
    {
      var current := sorted[pointer];
      if current != last + 1 {
        Append(printed, [Run(start, last)], RunsFrom(current, sorted, pointer + 1));
        printed := PrintRun(out, front, printed, Run(start, last));
        records := NextRecord(records, |printed|);
        start := current;
      }
      last := current;
      pointer := pointer + 1;
    }
    printed := PrintRun(out, front, printed, Run(start, last));
    records := NextRecord(records, |printed|);
  }

  /** `++records` on a 16-bit counter. */
  method NextRecord(records: nat, ghost printed: nat) returns (next: nat)
    requires printed > 0 && records == (printed - 1) % U16
    ensures next == printed % U16
  {
    next := (records + 1) % U16;
  }

  method PrintRun(out: BinaryStream, ghost front: seq<byte>, ghost printed: seq<Run>, r: Run)
    returns (ghost now: seq<Run>)
    requires out.buffer == front + RecordsBytes(printed)
    modifies out`buffer
    ensures now == printed + [r] && out.buffer == front + RecordsBytes(now)
  {
    RecordsBytesSnoc(printed, r);
    Append(front, RecordsBytes(printed), RecordBytes(r));
    out.Put(RecordBytes(r));
    now := printed + [r];
  }

  method PrintAck(id: byte, packets: seq<nat>) returns (bytes: seq<byte>)
    ensures bytes == EncodeAck(id, packets)
  {
    var out := new BinaryStream([]);
    var sorted := Listed(packets);
    var records := 0;
    if sorted != [] {
      records := PrintRuns(out, sorted);
    }
    bytes := [id] + WriteShort(records) + out.buffer;
  }

  method ReadSpan(packets: seq<nat>, first: nat, last: nat) returns (r: seq<nat>)
    requires first <= last
    ensures r == packets + Span(first, last)
  {
    r := packets;
    var c := first;
    while c <= last
      invariant first <= c <= last + 1
      invariant r == packets + Span(first, last)[..c - first]
    {
      r := r + [c];
      c := c + 1;
    }
  }

  /** `value` extends `packets` by what one record held, so that the rest of the stream completes
      both alike. */
  ghost predicate Continues(before: Option<seq<nat>>, after: Option<seq<nat>>, packets: seq<nat>, value: seq<nat>) {
    if after.None? then before.None? else before.Some? && packets + before.value == value + after.value
  }

  /** What reading one record off `b` did: `rest` is what follows it, and `r` is `packets` with its
      numbers, or None where it cannot be read. */
  ghost predicate Took(b: seq<byte>, rest: seq<byte>, left: nat, count: nat, packets: seq<nat>, r: Option<seq<nat>>)
    requires left > 0
  {
    var before := ReadRecords(b, left, count);
    if r.None? then before.None?
    else && packets <= r.value
         && Continues(before, ReadRecords(rest, left - 1, count + |r.value| - |packets|), packets, r.value)
  }

  lemma TookRange(b: seq<byte>, rest: seq<byte>, start: seq<byte>, end: seq<byte>,
                  packets: seq<nat>, left: nat, count: nat, last: nat)
    requires |b| >= 7 && b[0] == 0 && left > 0 && count < MAX_NUMBERS
    requires b[1..4] == start && b[4..7] == end && b[7..] == rest
    requires var first, end := ReadLTriad(start), ReadLTriad(end);
             first <= end && last == if end - first > MAX_SPAN then first + MAX_SPAN else end
    ensures Took(b, rest, left, count, packets, Some(packets + Span(ReadLTriad(start), last)))
  {
    var xs := Span(ReadLTriad(start), last);
    var more := ReadRecords(rest, left - 1, count + |xs|);
    if more.Some? { Append(packets, xs, more.value); }
  }

  lemma TookSingle(b: seq<byte>, rest: seq<byte>, number: seq<byte>, packets: seq<nat>, left: nat, count: nat)
    requires |b| >= 4 && b[0] != 0 && left > 0 && count < MAX_NUMBERS
    requires b[1..4] == number && b[4..] == rest
    ensures Took(b, rest, left, count, packets, Some(packets + [ReadLTriad(number)]))
  {
    var more := ReadRecords(rest, left - 1, count + 1);
    if more.Some? { Append(packets, [ReadLTriad(number)], more.value); }
  }

  /** A record that is cut short, or a range that is reversed. */
  lemma TookNothing(b: seq<byte>, rest: seq<byte>, packets: seq<nat>, left: nat, count: nat)
    requires b != [] && left > 0 && count < MAX_NUMBERS
    requires if b[0] == 0 then |b| < 7 || ReadLTriad(b[4..7]) < ReadLTriad(b[1..4]) else |b| < 4
    ensures Took(b, rest, left, count, packets, None)
  {
  }

  /** One record, appended to the numbers read so far. */
  method ReadRecord(input: BinaryStream, packets: seq<nat>, ghost left: nat, ghost count: nat)
    returns (r: Option<seq<nat>>)
    requires !input.Feof() && left > 0 && count < MAX_NUMBERS
    modifies input`offset
    ensures old(input.offset) < input.offset <= |input.buffer|
    ensures Took(input.buffer[old(input.offset)..], input.buffer[input.offset..], left, count, packets, r)
  {
    ghost var at, b := input.offset, input.buffer[input.offset..];
    var kind := input.Get(1);
    if kind.value[0] == 0 {
      r := ReadRange(input, packets, at, left, count);
    } else {
      var number := input.Get(3);
      if number.None? {
        TookNothing(b, input.buffer[input.offset..], packets, left, count);
        return None;
      }
      SliceOfTail(input.buffer, at, 1, 4);
      TailOfTail(input.buffer, at, 4);
      TookSingle(b, input.buffer[at + 4..], number.value, packets, left, count);
      r := Some(packets + [ReadLTriad(number.value)]);
    }
  }

  /** The rest of a range record that starts at `at`. */
  method ReadRange(input: BinaryStream, packets: seq<nat>, ghost at: nat, ghost left: nat, ghost count: nat)
    returns (r: Option<seq<nat>>)
    requires input.offset == at + 1 <= |input.buffer| && input.buffer[at] == 0 && left > 0 && count < MAX_NUMBERS
    modifies input`offset
    ensures at < input.offset <= |input.buffer|
    ensures Took(input.buffer[at..], input.buffer[input.offset..], left, count, packets, r)
  {
    ghost var b := input.buffer[at..];
    var start := input.Get(3);
    if start.None? {
      TookNothing(b, input.buffer[input.offset..], packets, left, count);
      return None;
    }
    var end := input.Get(3);
    if end.None? {
      TookNothing(b, input.buffer[input.offset..], packets, left, count);
      return None;
    }
    SliceOfTail(input.buffer, at, 1, 4);
    SliceOfTail(input.buffer, at, 4, 7);
    TailOfTail(input.buffer, at, 7);
    var first, last := ReadLTriad(start.value), ReadLTriad(end.value);
    if last < first {
      TookNothing(b, input.buffer[input.offset..], packets, left, count);
      return None;
    }
    if last - first > MAX_SPAN { last := first + MAX_SPAN; }
    TookRange(b, input.buffer[at + 7..], start.value, end.value, packets, left, count, last);
    var all := ReadSpan(packets, first, last);
    r := Some(all);
  }

  /** What is read so far, completed by the rest of the stream, is the whole. */
  ghost predicate Completes(whole: Option<seq<nat>>, rest: Option<seq<nat>>, packets: seq<nat>) {
    if rest.None? then whole.None? else whole == Some(packets + rest.value)
  }

  lemma CompletesFirst(buffer: seq<byte>, size: seq<byte>)
    requires |buffer| >= 3 && buffer[1..3] == size
    ensures Completes(DecodeAck(buffer), ReadRecords(buffer[3..], ReadShort(size), 0), [])
  {
    var rest := ReadRecords(buffer[3..], ReadShort(size), 0);
    assert rest.Some? ==> [] + rest.value == rest.value;
  }

  lemma {:induction false} CompletesNext(whole: Option<seq<nat>>, b: seq<byte>, rest: seq<byte>, left: nat,
                                            packets: seq<nat>, r: Option<seq<nat>>)
    requires left > 0 && Took(b, rest, left, |packets|, packets, r)
    requires Completes(whole, ReadRecords(b, left, |packets|), packets)
    ensures if r.None? then whole.None? else Completes(whole, ReadRecords(rest, left - 1, |r.value|), r.value)
  {
  }

  lemma {:induction false} CompletesLast(whole: Option<seq<nat>>, b: seq<byte>, left: nat, packets: seq<nat>)
    requires left == 0 || b == [] || |packets| >= MAX_NUMBERS
    requires Completes(whole, ReadRecords(b, left, |packets|), packets)
    ensures whole == Some(packets)
  {
    assert packets + [] == packets;
  }

  method ParseAck(buffer: seq<byte>) returns (r: Option<seq<nat>>)
    ensures r == DecodeAck(buffer)
  {
    var input := new BinaryStream(buffer);
    var id := input.Get(1);
    if id.None? { return None; }
    var announced := input.Get(2);
    if announced.None? { return None; }
    var left := ReadShort(announced.value);
    var packets: seq<nat> := [];
    ghost var whole := DecodeAck(buffer);
    CompletesFirst(buffer, announced.value);
    while left > 0 && !input.Feof() && |packets| < MAX_NUMBERS
      invariant input.buffer == buffer && input.offset <= |buffer|
      invariant Completes(whole, ReadRecords(buffer[input.offset..], left, |packets|), packets)
      decreases left
    {
      ghost var b := buffer[input.offset..];
      var more := ReadRecord(input, packets, left, |packets|);
      CompletesNext(whole, b, buffer[input.offset..], left, packets, more);
      if more.None? { return None; }
      left := left - 1;
      packets := more.value;
    }
    CompletesLast(whole, buffer[input.offset..], left, packets);
    r := Some(packets);
  }
}
