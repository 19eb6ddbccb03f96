/** When a message in parts can still be put together. The table of reassemblies can get stuck for
    good, and it is stuck exactly when its entries say so. */
module Reassembly {
  import opened Collections
  import opened Binary
  import opened Packets
  import opened SessionModel
  import opened Runs
  import opened Lifecycle

  /** An entry with this index never completes: a message has 127 parts at most. */
  const LAST: nat := 127

  /** No part can fill the entry up or have it erased: it has no part, or all there can be. */
  predicate Spends(parts: map<nat, Packet>) { parts == map[] || |parts| >= 128 }

  function Spent(splits: Splits): set<nat> { set sid | sid in splits && Spends(splits[sid]) }

  /** Every entry with a part has the last index too, and the entries nothing can erase take up the
      four reassemblies, or more with an empty one among them. */
  ghost predicate Stuck(splits: Splits) {
    && (forall sid | sid in splits :: splits[sid] == map[] || LAST in splits[sid])
    && (|Spent(splits)| > 4
        || (|Spent(splits)| == 4 && forall sid | sid in splits :: splits[sid] != map[]))
  }

  // ---------- stuck for good ----------

  lemma {:induction false} JoinNeedsAll(parts: map<nat, Packet>, i: nat, count: int)
    requires Join(parts, i, count).Some?
    ensures forall j | i <= j < count :: j in parts
    decreases count - i
  {
    if i < count { JoinNeedsAll(parts, i + 1, count); }
  }

  /** The indexes of a message of `n` parts. */
  function Below(n: nat): (s: set<nat>)
    ensures forall i: nat :: i in s <==> i < n
    ensures |s| == n
  {
    if n == 0 then {} else Below(n - 1) + {n - 1}
  }

  /** Parts as many as the message has, one of them the last index: some other is missing. */
  lemma {:induction false} NeverJoined(parts: map<nat, Packet>)
    requires LAST in parts && |parts| < MAX_SPLIT_SIZE
    ensures Join(parts, 0, |parts|) == None
  {
    var count := |parts|;
    if Join(parts, 0, count).Some? {
      JoinNeedsAll(parts, 0, count);
      SubsetSize(Below(count) + {LAST}, parts.Keys);
    }
  }

  lemma SpentSize(splits: Splits)
    ensures |Spent(splits)| <= |splits|
  {
    SubsetSize(Spent(splits), splits.Keys);
  }

  lemma StuckTouched(splits: Splits, sid: nat)
    requires Stuck(splits) && sid !in Open(splits)
    ensures var r: Splits := splits[sid := map[]]; |r| > MAX_SPLIT_COUNT && Stuck(r) && Open(r) == Open(splits)
  {
    var r: Splits := splits[sid := map[]];
    SpentSize(r);
    if sid in splits {
      assert r == splits;
    } else {
      assert Spent(r) == Spent(splits) + {sid};
    }
  }

  lemma StuckFilled(splits: Splits, sid: nat, parts: map<nat, Packet>)
    requires Stuck(splits) && sid in Open(splits) && LAST in parts && |parts| >= |splits[sid]|
    ensures Stuck(splits[sid := parts]) && Open(splits[sid := parts]) == Open(splits)
  {
    SubsetSize(Spent(splits), Spent(splits[sid := parts]));
  }

  lemma StuckErased(splits: Splits, sid: nat)
    requires Stuck(splits) && sid in Open(splits) && |splits[sid]| < MAX_SPLIT_SIZE
    ensures Stuck(splits - {sid}) && Open(splits - {sid}) <= Open(splits)
  {
    assert Spent(splits - {sid}) == Spent(splits);
  }

  lemma GrowsByOne(parts: map<nat, Packet>, index: nat, p: Packet)
    ensures |parts[index := p]| == if index in parts then |parts| else |parts| + 1
  {
    if index in parts { assert parts[index := p].Keys == parts.Keys; }
  }

  lemma StuckStores(splits: Splits, sid: nat, index: nat, p: Packet)
    requires Stuck(splits)
    ensures var r := StorePart(splits, sid, index, p);
            && Stuck(r.splits) && Open(r.splits) <= Open(splits)
            && (r.Filled? ==> sid in Open(r.splits) && r.splits[sid] == r.parts && LAST in r.parts)
  {
    if sid in Open(splits) {
      var parts := splits[sid];
      GrowsByOne(parts, index, p);
      StuckFilled(splits, sid, parts[index := p]);
      assert splits[sid := parts] == splits;
    } else {
      StuckTouched(splits, sid);
    }
  }

  lemma StuckCompletes(splits: Splits, sid: nat, count: int)
    requires Stuck(splits) && sid in Open(splits) && count < MAX_SPLIT_SIZE
    ensures var (r, whole) := Complete(splits, sid, splits[sid], count);
            whole == None && Stuck(r) && Open(r) <= Open(splits)
  {
    if |splits[sid]| == count {
      NeverJoined(splits[sid]);
      StuckErased(splits, sid);
    }
  }

  lemma StuckTakes(splits: Splits, p: Packet)
    requires Stuck(splits)
    ensures var (r, whole) := TakePart(splits, p); whole == None && Stuck(r) && Open(r) <= Open(splits)
  {
    if p.splitCount.Some? && p.splitIndex.Some? && p.splitId.Some? && p.splitIndex.value >= 0 {
      var count, index, sid := p.splitCount.value, p.splitIndex.value, p.splitId.value;
      StuckStores(splits, sid, index, p);
      var stored := StorePart(splits, sid, index, p);
      if stored.Filled? && count < MAX_SPLIT_SIZE { StuckCompletes(stored.splits, sid, count); }
    }
  }

  /** The packets that are not parts. */
  function Unsplit(ps: seq<Packet>): seq<Packet> {
    if ps == [] then [] else (if ps[0].hasSplit then [] else [ps[0]]) + Unsplit(ps[1..])
  }

  /** Everything of a host but its reassemblies. */
  function Beside(h: Host): Host { h.(app := h.app.(splits := map[])) }

  lemma InternalBeside(h: Host, config: Config, payload: seq<byte>, now: real)
    requires payload != []
    ensures HandleInternal(h, config, payload, now).app.splits == h.app.splits
    ensures Beside(HandleInternal(h, config, payload, now)) == HandleInternal(Beside(h), config, payload, now)
  {
    var id := payload[0];
    if h.app.phase == Connecting2 && (id == 0x09 || id == 0x13) {
    } else if id == 0x15 {
    } else {
    }
  }

  lemma RouteWholeBeside(h: Host, config: Config, p: Packet, now: real)
    ensures RouteWhole(h, config, p, now).app.splits == h.app.splits
    ensures Beside(RouteWhole(h, config, p, now)) == RouteWhole(Beside(h), config, p, now)
  {
    if p.buffer != [] && p.buffer[0] < 0x80 { InternalBeside(h, config, p.buffer, now); }
  }

  lemma StuckRoutes(h: Host, config: Config, p: Packet, now: real)
    requires Stuck(h.app.splits)
    ensures var a := Route(h, config, p, now).app; Stuck(a.splits) && Open(a.splits) <= Open(h.app.splits)
    ensures Beside(Route(h, config, p, now)) == if p.hasSplit then Beside(h) else RouteWhole(Beside(h), config, p, now)
  {
    StuckTakes(h.app.splits, p);
    RouteWholeBeside(h, config, p, now);
  }

  /** On a stuck table, routing is routing without the parts. */
  lemma {:induction false} StuckRoutesAll(h: Host, config: Config, ps: seq<Packet>, now: real)
    requires Stuck(h.app.splits)
    ensures var a := RouteAll(h, config, ps, now).app; Stuck(a.splits) && Open(a.splits) <= Open(h.app.splits)
    ensures Beside(RouteAll(h, config, ps, now)) == RouteAll(Beside(h), config, Unsplit(ps), now)
    decreases |ps|
  {
    if ps != [] {
      StuckRoutes(h, config, ps[0], now);
      StuckRoutesAll(Route(h, config, ps[0], now), config, ps[1..], now);
      if ps[0].hasSplit { assert [] + Unsplit(ps[1..]) == Unsplit(ps[1..]); }
      RouteAllFirst(Beside(h), config, ps[0], Unsplit(ps[1..]), now);
    }
  }

  lemma StuckStep(s: Session, i: Input)
    requires Stuck(s.host.app.splits)
    ensures var a := Step(s, i).host.app; Stuck(a.splits) && Open(a.splits) <= Open(s.host.app.splits)
  {
    if i.Arrive? && i.raw != [] && Online(s.host.app.phase) && 0x80 <= i.raw[0] <= 0x8f {
      var h := s.host.(app := s.host.app.(active := true, lastUpdate := i.now));
      var d := DecodeDatagram(i.raw);
      if d.Some? && Admits(s.window, d.value.seqNumber) {
        var passed := AcceptPackets(AcceptNumber(s.window, d.value.seqNumber), d.value.packets);
        StuckRoutesAll(h, s.config, passed.packets, i.now);
      }
    }
  }

  lemma {:induction false} StuckRun(s: Session, inputs: seq<Input>)
    requires Stuck(s.host.app.splits)
    ensures var a := Run(s, inputs).host.app; Stuck(a.splits) && Open(a.splits) <= Open(s.host.app.splits)
    decreases |inputs|
  {
    if inputs != [] {
      StuckStep(s, inputs[0]);
      StuckRun(Step(s, inputs[0]), inputs[1..]);
    }
  }

  /** No run of a session gets its table out of that state, no reassembly is opened again, and at every
      moment of the run the parts among the packets routed change nothing else: no message sent in
      parts is ever delivered again. */
  lemma {:induction false} StuckForGood(s: Session, inputs: seq<Input>, ps: seq<Packet>, now: real)
    requires Stuck(s.host.app.splits)
    ensures var r := Run(s, inputs);
            && Stuck(r.host.app.splits) && Open(r.host.app.splits) <= Open(s.host.app.splits)
            && Beside(RouteAll(r.host, r.config, ps, now)) == RouteAll(Beside(r.host), r.config, Unsplit(ps), now)
  {
    StuckRun(s, inputs);
    var r := Run(s, inputs);
    StuckRoutesAll(r.host, r.config, ps, now);
  }

  /** Five entries left empty by refused parts, with no reassembly open, are such a table, and stay so. */
  lemma {:induction false} EmptyEntriesJam(s: Session, inputs: seq<Input>, ps: seq<Packet>, now: real)
    requires |s.host.app.splits| > MAX_SPLIT_COUNT && Open(s.host.app.splits) == {}
    ensures var r := Run(s, inputs);
            && |r.host.app.splits| > MAX_SPLIT_COUNT && Open(r.host.app.splits) == {}
            && Beside(RouteAll(r.host, r.config, ps, now)) == RouteAll(Beside(r.host), r.config, Unsplit(ps), now)
  {
    EmptyIsStuck(s.host.app.splits);
    StuckForGood(s, inputs, ps, now);
    EmptyIsStuck(Run(s, inputs).host.app.splits);
  }

  lemma EmptyIsStuck(splits: Splits)
    requires Open(splits) == {}
    ensures Stuck(splits) <==> |splits| > MAX_SPLIT_COUNT
  {
    assert forall sid | sid in splits :: sid !in Open(splits);
    assert Spent(splits) == splits.Keys;
    if |splits| == MAX_SPLIT_COUNT { var sid :| sid in splits.Keys; }
  }

  // ---------- parts that change the table only ----------

  /** The parts take the table to `next`, and none of them completes a message. */
  ghost predicate Quietly(splits: Splits, ps: seq<Packet>, next: Splits)
    decreases |ps|
  {
    if ps == [] then next == splits
    else
      var (r, whole) := TakePart(splits, ps[0]);
      ps[0].hasSplit && whole == None && Quietly(r, ps[1..], next)
  }

  lemma {:induction false} QuietlyFirst(splits: Splits, p: Packet, r: Splits, ps: seq<Packet>, next: Splits)
    requires p.hasSplit && TakePart(splits, p) == (r, None) && Quietly(r, ps, next)
    ensures Quietly(splits, [p] + ps, next)
  {
    assert ([p] + ps)[1..] == ps;
  }

  lemma {:induction false} QuietlyOn(a: Splits, ps: seq<Packet>, b: Splits, qs: seq<Packet>, c: Splits)
    requires Quietly(a, ps, b) && Quietly(b, qs, c)
    ensures Quietly(a, ps + qs, c)
    decreases |ps|
  {
    if ps == [] {
      assert [] + qs == qs;
    } else {
      FirstOfAppend(ps, qs);
      QuietlyOn(TakePart(a, ps[0]).0, ps[1..], b, qs, c);
    }
  }

  lemma {:induction false} QuietlySnoc(a: Splits, ps: seq<Packet>, b: Splits, p: Packet, c: Splits)
    requires Quietly(a, ps, b) && p.hasSplit && TakePart(b, p) == (c, None)
    ensures Quietly(a, ps + [p], c)
  {
    QuietlyFirst(b, p, c, [], c);
    assert [p] + [] == [p];
    QuietlyOn(a, ps, b, [p], c);
  }

  lemma {:induction false} QuietlyRouted(h: Host, config: Config, ps: seq<Packet>, next: Splits, now: real)
    requires h.app.phase == Connected && Quietly(h.app.splits, ps, next)
    ensures RouteAll(h, config, ps, now) == h.(app := h.app.(splits := next))
    ensures forall p | p in ps :: p.hasSplit
    decreases |ps|
  {
    if ps != [] {
      var r := TakePart(h.app.splits, ps[0]).0;
      QuietlyRouted(h.(app := h.app.(splits := r)), config, ps[1..], next, now);
      assert forall p :: p in ps <==> p == ps[0] || p in ps[1..];
    }
  }

  /** A part for the host. */
  function Piece(sid: nat, index: nat, count: nat): Packet {
    BLANK.(hasSplit := true, splitCount := Some(count), splitId := Some(sid), splitIndex := Some(index), buffer := [0x80])
  }

  lemma PieceTaken(splits: Splits, sid: nat, index: nat, count: nat)
    requires index < MAX_SPLIT_SIZE && count < MAX_SPLIT_SIZE
    ensures var stored := StorePart(splits, sid, index, Piece(sid, index, count));
            TakePart(splits, Piece(sid, index, count)) ==
              if stored.Refused? then (stored.splits, None) else Complete(stored.splits, sid, stored.parts, count)
  {
  }

  lemma OpenStores(splits: Splits, sid: nat, index: nat, p: Packet)
    requires sid in Open(splits)
    ensures var parts: map<nat, Packet> := splits[sid][index := p];
            StorePart(splits, sid, index, p) == Filled(splits[sid := parts], parts)
  {
    assert splits[sid := splits[sid]] == splits;
  }

  // ---------- a table that is not stuck: erasing ----------

  lemma EraseOne(splits: Splits, sid: nat)
    requires sid in Open(splits) && LAST in splits[sid] && |splits[sid]| < MAX_SPLIT_SIZE
    ensures TakePart(splits, Piece(sid, LAST, |splits[sid]|)) == (splits - {sid}, None)
  {
    var p := Piece(sid, LAST, |splits[sid]|);
    var parts: map<nat, Packet> := splits[sid][LAST := p];
    PieceTaken(splits, sid, LAST, |splits[sid]|);
    OpenStores(splits, sid, LAST, p);
    GrowsByOne(splits[sid], LAST, p);
    NeverJoined(parts);
    assert splits[sid := parts] - {sid} == splits - {sid};
  }

  /** Where every entry with a part has the last index, all can be erased but the spent ones. */
  lemma {:induction false} EraseAll(splits: Splits) returns (ps: seq<Packet>, next: Splits)
    requires forall sid | sid in splits :: splits[sid] == map[] || LAST in splits[sid]
    ensures Quietly(splits, ps, next) && next.Keys == Spent(splits)
    ensures forall sid | sid in next :: sid in splits && next[sid] == splits[sid]
    decreases splits.Keys
  {
    if splits.Keys == Spent(splits) {
      ps, next := [], splits;
    } else {
      var sid :| sid in splits && sid !in Spent(splits);
      var p, rest := Piece(sid, LAST, |splits[sid]|), splits - {sid};
      EraseOne(splits, sid);
      assert Spent(rest) == Spent(splits);
      assert sid !in rest.Keys;
      ps, next := EraseAll(rest);
      QuietlyFirst(splits, p, rest, ps, next);
      ps := [p] + ps;
    }
  }

  lemma {:induction false} FreshId(ids: set<nat>) returns (sid: nat)
    ensures sid !in ids && sid <= |ids|
  {
    if Below(|ids| + 1) <= ids { SubsetSize(Below(|ids| + 1), ids); }
    sid :| sid in Below(|ids| + 1) && sid !in ids;
  }

  lemma NewTaken(splits: Splits, sid: nat)
    requires sid !in Open(splits) && |splits[sid := map[]]| <= MAX_SPLIT_COUNT
    ensures TakePart(splits, Piece(sid, 0, 1)).1 == Some(BLANK.(buffer := [0x80]))
  {
    var parts: map<nat, Packet> := map[0 := Piece(sid, 0, 1)];
    PieceTaken(splits, sid, 0, 1);
    assert Join(parts, 1, 1) == Some([]) && [0x80] + [] == [0x80 as byte];
    assert Join(parts, 0, 1) == Some([0x80]);
  }

  /** A message of one part, where there is room for a reassembly. */
  lemma {:induction false} StartOne(splits: Splits) returns (sid: nat)
    requires |splits| < MAX_SPLIT_COUNT || (|splits| == MAX_SPLIT_COUNT && exists k :: k in splits && splits[k] == map[])
    ensures TakePart(splits, Piece(sid, 0, 1)).1 == Some(BLANK.(buffer := [0x80]))
  {
    if |splits| < MAX_SPLIT_COUNT {
      sid := FreshId(splits.Keys);
      assert |splits[sid := map[]]| == |splits| + 1;
    } else {
      sid :| sid in splits && splits[sid] == map[];
      assert splits[sid := map[]] == splits;
    }
    NewTaken(splits, sid);
  }

  // ---------- a table that is not stuck: filling ----------

  lemma SameSet(a: set<nat>, b: set<nat>)
    requires a <= b && |a| == |b|
    ensures a == b
  {
    if x :| x in b && x !in a { SubsetSize(a, b - {x}); }
  }

  lemma {:induction false} JoinsAll(parts: map<nat, Packet>, i: nat, count: nat)
    requires forall j | i <= j < count :: j in parts
    ensures Join(parts, i, count).Some?
    ensures i < count ==> parts[i].buffer <= Join(parts, i, count).value
    decreases count - i
  {
    if i < count { JoinsAll(parts, i + 1, count); }
  }

  predicate Deliverable(buffer: seq<byte>) { buffer != [] && buffer[0] >= 0x80 }

  /** All the parts of a message of 127, the first of them for the host. */
  lemma {:induction false} AllThere(parts: map<nat, Packet>, n: nat)
    requires (forall i | i in parts :: i < n) && |parts| == n > 0 && 0 in parts && Deliverable(parts[0].buffer)
    ensures Join(parts, 0, n).Some? && Deliverable(Join(parts, 0, n).value)
  {
    SameSet(parts.Keys, Below(n));
    JoinsAll(parts, 0, n);
  }

  /** An entry that lacks some part of a message of 127 parts, has the first for the host and no part
      beyond. */
  ghost predicate Fillable(splits: Splits, sid: nat) {
    sid in Open(splits) && forall i | i in splits[sid] :: i < LAST
  }

  /** One more part of such a message: the table with it, or the message. */
  lemma FillOne(splits: Splits, sid: nat, index: nat)
    requires Fillable(splits, sid) && index < LAST
    requires index != 0 ==> 0 in splits[sid] && Deliverable(splits[sid][0].buffer)
    ensures var parts: map<nat, Packet> := splits[sid][index := Piece(sid, index, LAST)];
            var t := TakePart(splits, Piece(sid, index, LAST));
            if |parts| == LAST then t.1.Some? && Deliverable(t.1.value.buffer)
            else t == (splits[sid := parts], None)
    ensures |splits[sid][index := Piece(sid, index, LAST)]| == |splits[sid]| + (if index in splits[sid] then 0 else 1)
  {
    var p := Piece(sid, index, LAST);
    var parts: map<nat, Packet> := splits[sid][index := p];
    PieceTaken(splits, sid, index, LAST);
    OpenStores(splits, sid, index, p);
    GrowsByOne(splits[sid], index, p);
    if |parts| == LAST { AllThere(parts, |parts|); }
  }

  lemma {:induction false} MissingOne(parts: map<nat, Packet>, n: nat) returns (index: nat)
    requires |parts| < n
    ensures index < n && index !in parts
  {
    if Below(n) <= parts.Keys { SubsetSize(Below(n), parts.Keys); }
    index :| index in Below(n) && index !in parts;
  }

  lemma AtMost(parts: map<nat, Packet>, n: nat)
    requires forall i | i in parts :: i < n
    ensures |parts| <= n
  {
    SubsetSize(parts.Keys, Below(n));
  }

  lemma {:induction false} FillUp(splits: Splits, sid: nat) returns (ps: seq<Packet>, next: Splits, last: Packet)
    requires Fillable(splits, sid) && 0 in splits[sid] && Deliverable(splits[sid][0].buffer) && |splits[sid]| < LAST
    ensures Quietly(splits, ps, next) && last.hasSplit
    ensures TakePart(next, last).1.Some? && Deliverable(TakePart(next, last).1.value.buffer)
    decreases LAST - |splits[sid]|
  {
    var index := MissingOne(splits[sid], LAST);
    var p := Piece(sid, index, LAST);
    FillOne(splits, sid, index);
    var parts: map<nat, Packet> := splits[sid][index := p];
    if |parts| == LAST {
      ps, next, last := [], splits, p;
    } else {
      var r := splits[sid := parts];
      ps, next, last := FillUp(r, sid);
      QuietlyFirst(splits, p, r, ps, next);
      ps := [p] + ps;
    }
  }

  lemma {:induction false} FillFrom(splits: Splits, sid: nat) returns (ps: seq<Packet>, next: Splits, last: Packet)
    requires Fillable(splits, sid)
    ensures Quietly(splits, ps, next) && last.hasSplit
    ensures TakePart(next, last).1.Some? && Deliverable(TakePart(next, last).1.value.buffer)
  {
    var p := Piece(sid, 0, LAST);
    FillOne(splits, sid, 0);
    var parts: map<nat, Packet> := splits[sid][0 := p];
    AtMost(parts, LAST);
    if |parts| == LAST {
      ps, next, last := [], splits, p;
    } else {
      var r := splits[sid := parts];
      ps, next, last := FillUp(r, sid);
      QuietlyFirst(splits, p, r, ps, next);
      ps := [p] + ps;
    }
  }

  // ---------- exactly ----------

  ghost predicate InRange(splits: Splits) {
    forall sid | sid in splits :: forall i | i in splits[sid] :: i < MAX_SPLIT_SIZE
  }

  lemma RoomLeft(splits: Splits, next: Splits)
    requires !Stuck(splits) && forall sid | sid in splits :: splits[sid] == map[] || LAST in splits[sid]
    requires next.Keys == Spent(splits) && forall sid | sid in next :: next[sid] == splits[sid]
    ensures |next| < MAX_SPLIT_COUNT || (|next| == MAX_SPLIT_COUNT && exists k :: k in next && next[k] == map[])
  {
    assert |next| == |next.Keys| == |Spent(splits)|;
    if |Spent(splits)| == MAX_SPLIT_COUNT {
      var sid :| sid in splits && splits[sid] == map[];
      assert sid in Spent(splits);
      assert sid in next && next[sid] == map[];
    }
  }

  /** A table that is not stuck can be led to complete a message for the host. */
  lemma {:induction false} Unstuck(splits: Splits) returns (ps: seq<Packet>, next: Splits, last: Packet)
    requires InRange(splits) && !Stuck(splits)
    ensures Quietly(splits, ps, next) && last.hasSplit
    ensures TakePart(next, last).1.Some? && Deliverable(TakePart(next, last).1.value.buffer)
  {
    if sid :| sid in splits && splits[sid] != map[] && LAST !in splits[sid] {
      ps, next, last := FillFrom(splits, sid);
    } else {
      ps, next, last := EraseAndStart(splits);
    }
  }

  lemma {:induction false} EraseAndStart(splits: Splits) returns (ps: seq<Packet>, next: Splits, last: Packet)
    requires !Stuck(splits) && forall sid | sid in splits :: splits[sid] == map[] || LAST in splits[sid]
    ensures Quietly(splits, ps, next) && last.hasSplit
    ensures TakePart(next, last).1 == Some(BLANK.(buffer := [0x80]))
  {
    ps, next := EraseAll(splits);
    RoomLeft(splits, next);
    var sid := StartOne(next);
    last := Piece(sid, 0, 1);
  }

  /** The packets are parts, and the host is given a message by routing them. */
  ghost predicate Delivers(h: Host, config: Config, ps: seq<Packet>, now: real) {
    && (forall p | p in ps :: p.hasSplit)
    && exists whole :: RouteAll(h, config, ps, now).app.events == h.app.events + [Delivered(whole)]
  }

  lemma LastDelivers(h: Host, config: Config, last: Packet, now: real)
    requires h.app.phase == Connected && last.hasSplit
    requires var whole := TakePart(h.app.splits, last).1; whole.Some? && Deliverable(whole.value.buffer)
    ensures Route(h, config, last, now).app.events == h.app.events + [Delivered(TakePart(h.app.splits, last).1.value)]
  {
  }

  lemma {:induction false} UnstuckDelivers(h: Host, config: Config, now: real) returns (ps: seq<Packet>)
    requires h.app.phase == Connected && InRange(h.app.splits) && !Stuck(h.app.splits)
    ensures Delivers(h, config, ps, now)
  {
    var front, next, last := Unstuck(h.app.splits);
    var g := h.(app := h.app.(splits := next));
    QuietlyRouted(h, config, front, next, now);
    LastDelivers(g, config, last, now);
    RouteAllFirst(g, config, last, [], now);
    assert [last] + [] == [last];
    RouteAllAppend(h, config, front, [last], now);
    ps := front + [last];
  }

  lemma {:induction false} OnlyParts(ps: seq<Packet>)
    requires forall p | p in ps :: p.hasSplit
    ensures Unsplit(ps) == []
  {
    if ps != [] {
      assert ps[0] in ps;
      OnlyParts(ps[1..]);
    }
  }

  lemma StuckDeliversNothing(h: Host, config: Config, ps: seq<Packet>, now: real)
    requires Stuck(h.app.splits)
    ensures !Delivers(h, config, ps, now)
  {
    if forall p | p in ps :: p.hasSplit {
      OnlyParts(ps);
      StuckRoutesAll(h, config, ps, now);
      assert Beside(RouteAll(h, config, ps, now)).app.events == h.app.events;
      forall whole ensures h.app.events != h.app.events + [Delivered(whole)] {
        assert |h.app.events + [Delivered(whole)]| == |h.app.events| + 1;
      }
    }
  }

  /** Over every run of a session: when it is connected, there are parts that make it deliver a message
      if and only if its table is not stuck. */
  lemma {:induction false} DeliversUnlessStuck(config: Config, inputs: seq<Input>, now: real)
    requires Run(FreshSession(config), inputs).host.app.phase == Connected
    ensures var s := Run(FreshSession(config), inputs);
            (exists ps :: Delivers(s.host, s.config, ps, now)) <==> !Stuck(s.host.app.splits)
  {
    var s := Run(FreshSession(config), inputs);
    RunHealthy(FreshSession(config), inputs);
    assert FewReassemblies(s.host.app.splits);
    if Stuck(s.host.app.splits) {
      forall ps ensures !Delivers(s.host, s.config, ps, now) {
        StuckDeliversNothing(s.host, s.config, ps, now);
      }
    } else {
      var ps := UnstuckDelivers(s.host, s.config, now);
    }
  }

  // ---------- four full entries ----------

  /** The first `n` parts of a message that claims to have none. */
  function Endless(sid: nat, n: nat): map<nat, Packet> { map i: nat | i < n :: Piece(sid, i, 0) }

  lemma EndlessGrows(sid: nat, n: nat)
    ensures Endless(sid, n)[n := Piece(sid, n, 0)] == Endless(sid, n + 1)
  {
  }

  lemma {:induction false} EndlessSize(sid: nat, n: nat)
    ensures |Endless(sid, n)| == n
  {
    if n == 0 {
      assert Endless(sid, 0) == map[];
    } else {
      EndlessSize(sid, n - 1);
      EndlessGrows(sid, n - 1);
      GrowsByOne(Endless(sid, n - 1), n - 1, Piece(sid, n - 1, 0));
    }
  }

  /** A part of such a message is stored and completes nothing. */
  lemma EndlessPart(splits: Splits, sid: nat, index: nat, stored: Splits, parts: map<nat, Packet>)
    requires index < MAX_SPLIT_SIZE && StorePart(splits, sid, index, Piece(sid, index, 0)) == Filled(stored, parts)
    requires parts != map[]
    ensures TakePart(splits, Piece(sid, index, 0)) == (stored, None)
  {
    PieceTaken(splits, sid, index, 0);
    assert |parts| != 0;
  }

  lemma EndlessFirst(splits: Splits, sid: nat)
    requires sid !in splits && |splits| < MAX_SPLIT_COUNT
    ensures TakePart(splits, Piece(sid, 0, 0)) == (splits[sid := Endless(sid, 1)], None)
  {
    var none, p := Endless(sid, 0), Piece(sid, 0, 0);
    EndlessGrows(sid, 0);
    assert none == map[];
    assert |splits[sid := none]| == |splits| + 1;
    assert splits[sid := none][sid := Endless(sid, 1)] == splits[sid := Endless(sid, 1)];
    assert 0 in Endless(sid, 1);
    EndlessPart(splits, sid, 0, splits[sid := Endless(sid, 1)], Endless(sid, 1));
  }

  lemma EndlessNext(splits: Splits, sid: nat, n: nat)
    requires 0 < n < MAX_SPLIT_SIZE && sid in splits && splits[sid] == Endless(sid, n)
    ensures TakePart(splits, Piece(sid, n, 0)) == (splits[sid := Endless(sid, n + 1)], None)
  {
    EndlessGrows(sid, n);
    assert 0 in Endless(sid, n) && n in Endless(sid, n + 1);
    OpenStores(splits, sid, n, Piece(sid, n, 0));
    EndlessPart(splits, sid, n, splits[sid := Endless(sid, n + 1)], Endless(sid, n + 1));
  }

  lemma {:induction false} EndlessParts(splits: Splits, sid: nat, n: nat) returns (ps: seq<Packet>)
    requires sid !in splits && |splits| < MAX_SPLIT_COUNT && 0 < n <= MAX_SPLIT_SIZE
    ensures Quietly(splits, ps, splits[sid := Endless(sid, n)])
  {
    if n == 1 {
      ps := EndlessStart(splits, sid);
    } else {
      ps := EndlessParts(splits, sid, n - 1);
      ps := EndlessOn(splits, sid, n - 1, ps);
    }
  }

  lemma {:induction false} EndlessStart(splits: Splits, sid: nat) returns (ps: seq<Packet>)
    requires sid !in splits && |splits| < MAX_SPLIT_COUNT
    ensures Quietly(splits, ps, splits[sid := Endless(sid, 1)])
  {
    EndlessFirst(splits, sid);
    QuietlySnoc(splits, [], splits, Piece(sid, 0, 0), splits[sid := Endless(sid, 1)]);
    ps := [] + [Piece(sid, 0, 0)];
  }

  lemma {:induction false} EndlessOn(splits: Splits, sid: nat, n: nat, front: seq<Packet>) returns (ps: seq<Packet>)
    requires 0 < n < MAX_SPLIT_SIZE && Quietly(splits, front, splits[sid := Endless(sid, n)])
    ensures Quietly(splits, ps, splits[sid := Endless(sid, n + 1)])
  {
    var r, next := splits[sid := Endless(sid, n)], splits[sid := Endless(sid, n + 1)];
    EndlessNext(r, sid, n);
    assert r[sid := Endless(sid, n + 1)] == next;
    QuietlySnoc(splits, front, r, Piece(sid, n, 0), next);
    ps := front + [Piece(sid, n, 0)];
  }

  /** Entries with `n` indexes each for the messages below `k`. */
  ghost predicate FullTo(splits: Splits, k: nat, n: nat) {
    && |splits| == k && (forall sid :: sid in splits <==> 0 <= sid < k)
    && forall sid | sid in splits :: splits[sid] == Endless(sid, n)
  }

  lemma FullMore(splits: Splits, k: nat, n: nat)
    requires FullTo(splits, k, n)
    ensures FullTo(splits[k := Endless(k, n)], k + 1, n)
  {
    assert |splits[k := Endless(k, n)]| == |splits| + 1;
  }

  lemma {:induction false} FullParts(k: nat, n: nat) returns (ps: seq<Packet>, next: Splits)
    requires k <= MAX_SPLIT_COUNT && 0 < n <= MAX_SPLIT_SIZE
    ensures Quietly(map[], ps, next) && FullTo(next, k, n)
  {
    ps, next := [], map[];
    if k > 0 {
      var front, r := FullParts(k - 1, n);
      var more := EndlessParts(r, k - 1, n);
      next := r[k - 1 := Endless(k - 1, n)];
      FullMore(r, k - 1, n);
      QuietlyOn(map[], front, r, more, next);
      ps := front + more;
    }
  }

  lemma FullIsStuck(splits: Splits, n: nat)
    requires FullTo(splits, MAX_SPLIT_COUNT, n) && n == MAX_SPLIT_SIZE
    ensures Stuck(splits) && |splits| == MAX_SPLIT_COUNT && Open(splits) == splits.Keys
    ensures forall sid | sid in splits :: |splits[sid]| == MAX_SPLIT_SIZE
  {
    forall sid | sid in splits ensures |splits[sid]| == MAX_SPLIT_SIZE && LAST in splits[sid] {
      EndlessSize(sid, n);
    }
    assert Spent(splits) == splits.Keys;
  }

  /** A table can be stuck without an empty entry: parts of messages that claim to have no parts are
      stored and never complete anything, and four entries with all 128 indexes take up all the room. */
  lemma {:induction false} FourFullEntries(h: Host, config: Config, now: real) returns (ps: seq<Packet>)
    requires h.app.phase == Connected && h.app.splits == map[]
    ensures (forall p | p in ps :: p.hasSplit)
    ensures var splits := RouteAll(h, config, ps, now).app.splits;
            && Stuck(splits) && |splits| == MAX_SPLIT_COUNT && Open(splits) == splits.Keys
            && forall sid | sid in splits :: |splits[sid]| == MAX_SPLIT_SIZE
  {
    var next: Splits;
    ps, next := FullParts(MAX_SPLIT_COUNT, MAX_SPLIT_SIZE);
    QuietlyRouted(h, config, ps, next, now);
    FullIsStuck(next, MAX_SPLIT_SIZE);
  }

  // ---------- five empty entries ----------

  function TakeAll(splits: Splits, ps: seq<Packet>): Splits {
    if ps == [] then splits else TakePart(TakeAll(splits, ps[..|ps| - 1]), ps[|ps| - 1]).0
  }

  lemma {:induction false} TakeSnoc(splits: Splits, ps: seq<Packet>, p: Packet)
    ensures TakeAll(splits, ps + [p]) == TakePart(TakeAll(splits, ps), p).0
  {
    assert (ps + [p])[..|ps|] == ps;
  }

  function Half(sid: nat): map<nat, Packet> { map[0 := Piece(sid, 0, 2)] }

  /** A first half opens a reassembly, or leaves an empty entry when there are four entries already. */
  lemma FirstHalf(splits: Splits, sid: nat)
    requires sid !in splits
    ensures TakePart(splits, Piece(sid, 0, 2)).0
            == if |splits| < MAX_SPLIT_COUNT then splits[sid := Half(sid)] else splits[sid := map[]]
  {
    var none: map<nat, Packet> := map[];
    assert splits[sid := none][sid := Half(sid)] == splits[sid := Half(sid)];
    assert |splits[sid := none]| == |splits| + 1;
  }

  lemma ErasedSize(splits: Splits, sid: nat)
    requires sid in splits
    ensures |splits - {sid}| == |splits| - 1
  {
    assert (splits - {sid})[sid := splits[sid]] == splits;
  }

  lemma EraseUpdated(splits: Splits, sid: nat, parts: map<nat, Packet>)
    ensures splits[sid := parts] - {sid} == splits - {sid}
  {
  }

  lemma StoreSecond(splits: Splits, sid: nat, p: Packet)
    requires sid in splits && splits[sid] == Half(sid)
    ensures StorePart(splits, sid, 1, p) == Filled(splits[sid := Half(sid)[1 := p]], Half(sid)[1 := p])
    ensures |Half(sid)[1 := p]| == 2
  {
    assert 0 in Half(sid);
    assert splits[sid := Half(sid)] == splits;
  }

  /** The second half completes the message, and its entry is erased. */
  lemma SecondHalf(splits: Splits, sid: nat)
    requires sid in splits && splits[sid] == Half(sid)
    ensures TakePart(splits, Piece(sid, 1, 2)).0 == splits - {sid}
    ensures |splits - {sid}| == |splits| - 1
  {
    StoreSecond(splits, sid, Piece(sid, 1, 2));
    EraseUpdated(splits, sid, Half(sid)[1 := Piece(sid, 1, 2)]);
    ErasedSize(splits, sid);
  }

  /** Entries for the messages from..to-1: those below 4 are half received, the others empty. */
  ghost predicate Lined(splits: Splits, from: nat, to: nat) {
    && |splits| == to - from
    && (forall k :: k in splits <==> from <= k < to)
    && (forall k | k in splits :: splits[k] == if k < 4 then Half(k) else map[])
  }

  lemma LineExtends(splits: Splits, sid: nat, parts: map<nat, Packet>)
    requires Lined(splits, 0, sid) && parts == if sid < 4 then Half(sid) else map[]
    ensures Lined(splits[sid := parts], 0, sid + 1)
  {
    assert |splits[sid := parts]| == |splits| + 1;
  }

  lemma LineGrows(splits: Splits, sid: nat)
    requires Lined(splits, 0, sid)
    ensures Lined(TakePart(splits, Piece(sid, 0, 2)).0, 0, sid + 1)
  {
    FirstHalf(splits, sid);
    LineExtends(splits, sid, if sid < 4 then Half(sid) else map[]);
  }

  lemma LineShrinks(splits: Splits, sid: nat)
    requires Lined(splits, sid, 9) && sid < 4
    ensures Lined(TakePart(splits, Piece(sid, 1, 2)).0, sid + 1, 9)
  {
    SecondHalf(splits, sid);
  }

  lemma LinedIsJammed(splits: Splits)
    requires Lined(splits, 4, 9)
    ensures |splits| > MAX_SPLIT_COUNT && Open(splits) == {}
  {
  }

  lemma {:induction false} JammingParts() returns (ps: seq<Packet>)
    ensures var splits := TakeAll(map[], ps); |splits| > MAX_SPLIT_COUNT && Open(splits) == {}
    ensures forall p | p in ps :: p.hasSplit
  {
    ps := [];
    for sid := 0 to 9
      invariant Lined(TakeAll(map[], ps), 0, sid) && forall p | p in ps :: p.hasSplit
    {
      LineGrows(TakeAll(map[], ps), sid);
      TakeSnoc(map[], ps, Piece(sid, 0, 2));
      ps := ps + [Piece(sid, 0, 2)];
    }
    for sid := 0 to 4
      invariant Lined(TakeAll(map[], ps), sid, 9) && forall p | p in ps :: p.hasSplit
    {
      LineShrinks(TakeAll(map[], ps), sid);
      TakeSnoc(map[], ps, Piece(sid, 1, 2));
      ps := ps + [Piece(sid, 1, 2)];
    }
    LinedIsJammed(TakeAll(map[], ps));
  }

  lemma RoutePart(h: Host, config: Config, p: Packet, now: real)
    requires h.app.phase == Connected && p.hasSplit
    ensures var a := Route(h, config, p, now).app;
            a.phase == Connected && a.splits == TakePart(h.app.splits, p).0
  {
    RoutePhase(h, config, p, now);
    var (app, whole) := HandleSplit(h.app, p);
    if whole.Some? { RouteWholeBeside(h.(app := app), config, whole.value, now); }
  }

  lemma {:induction false} RouteParts(h: Host, config: Config, ps: seq<Packet>, now: real)
    requires h.app.phase == Connected && forall p | p in ps :: p.hasSplit
    ensures var a := RouteAll(h, config, ps, now).app;
            a.phase == Connected && a.splits == TakeAll(h.app.splits, ps)
    decreases |ps|
  {
    if ps != [] {
      var before, p := ps[..|ps| - 1], ps[|ps| - 1];
      assert before + [p] == ps;
      RouteParts(h, config, before, now);
      RouteAllAppend(h, config, before, [p], now);
      RouteAllFirst(RouteAll(h, config, before, now), config, p, [], now);
      RoutePart(RouteAll(h, config, before, now), config, p, now);
    }
  }

  /** Such a state is within reach of a connected session: with four messages half received, the
      first halves of five more are refused; when the four complete, nothing is open and nothing can
      be opened again. */
  lemma {:induction false} JamIsReachable(h: Host, config: Config, now: real) returns (ps: seq<Packet>)
    requires h.app.phase == Connected && h.app.splits == map[]
    ensures var splits := RouteAll(h, config, ps, now).app.splits;
            |splits| > MAX_SPLIT_COUNT && Open(splits) == {}
  {
    ps := JammingParts();
    RouteParts(h, config, ps, now);
  }
}
