/** What every run of hopper ticks keeps: no item appears or vanishes, no slot is lifted above a full
    stack, and a hopper's container transfers lie at least eight ticks apart. */
module HopperRuns {
  import opened RedstoneWorld
  import opened Items
  import opened Hoppers

  // ---------- conservation ----------

  lemma {:induction false} PutChestHolds(y: Yard, c: Pos, slots: seq<Stack>, t: Type)
    requires c in y.chests
    ensures Holdings(y.(chests := y.chests[c := slots]), t) + Total(y.chests[c], t) == Holdings(y, t) + Total(slots, t)
  {
    SumPut(y.chests, c, slots, t);
  }

  lemma FromChestHolds(y: Yard, chest: Pos, p: Pos)
    requires p in y.hoppers
    ensures SameHoldings(y, FromChest(y, chest, p).yard)
  {
    var y1 := WithChest(y, chest);
    var m := MoveOne(y1.chests[chest], y1.hoppers[p].slots);
    WithChestHolds(y, chest);
    MoveOneMoves(y1.chests[chest], y1.hoppers[p].slots);
    forall t ensures Holdings(FromChest(y, chest, p).yard, t) == Holdings(y, t) {
      PutSlotsHolds(y1, p, m.dst, t);
      PutChestHolds(PutSlots(y1, p, m.dst), chest, m.src, t);
      assert Holdings(y1, t) == Holdings(y, t);
    }
  }

  lemma IntoChestHolds(y: Yard, p: Pos, chest: Pos)
    requires p in y.hoppers
    ensures SameHoldings(y, IntoChest(y, p, chest).yard)
  {
    var y1 := WithChest(y, chest);
    var m := MoveOne(y1.hoppers[p].slots, y1.chests[chest]);
    WithChestHolds(y, chest);
    MoveOneMoves(y1.hoppers[p].slots, y1.chests[chest]);
    forall t ensures Holdings(IntoChest(y, p, chest).yard, t) == Holdings(y, t) {
      PutSlotsHolds(y1, p, m.src, t);
      PutChestHolds(PutSlots(y1, p, m.src), chest, m.dst, t);
      assert Holdings(y1, t) == Holdings(y, t);
    }
  }

  lemma BetweenHolds(y: Yard, from: Pos, to: Pos)
    requires from != to && (from in y.hoppers || to in y.hoppers)
    ensures SameHoldings(y, BetweenHoppers(y, from, to).yard)
  {
    var y1 := WithHopper(WithHopper(y, from), to);
    var m := MoveOne(y1.hoppers[from].slots, y1.hoppers[to].slots);
    WithHopperHolds(y, from);
    WithHopperHolds(WithHopper(y, from), to);
    MoveOneMoves(y1.hoppers[from].slots, y1.hoppers[to].slots);
    forall t ensures Holdings(BetweenHoppers(y, from, to).yard, t) == Holdings(y, t) {
      PutSlotsHolds(y1, from, m.src, t);
      PutSlotsHolds(PutSlots(y1, from, m.src), to, m.dst, t);
      assert Holdings(y1, t) == Holdings(WithHopper(y, from), t) == Holdings(y, t);
    }
  }

  lemma PullHolds(y: Yard, w: World, p: Pos)
    requires p in y.hoppers
    ensures SameHoldings(y, Pull(y, w, p).yard)
  {
    var q := Above(p);
    if q.y < HEIGHT {
      if At(w, q).id == CHEST { FromChestHolds(y, q, p); } else if At(w, q).id == HOPPER { BetweenHolds(y, q, p); }
    }
  }

  lemma PushHolds(y: Yard, w: World, p: Pos)
    requires p in y.hoppers
    ensures SameHoldings(y, Push(y, w, p).yard)
  {
    var q := Faced(p, At(w, p).meta);
    if 0 <= q.y < HEIGHT {
      if At(w, q).id == CHEST { IntoChestHolds(y, p, q); } else if At(w, q).id == HOPPER { BetweenHolds(y, p, q); }
    }
  }

  lemma SameHoldingsOn(a: Yard, b: Yard, c: Yard)
    requires SameHoldings(a, b) && SameHoldings(b, c)
    ensures SameHoldings(a, c)
  {
    forall t ensures Holdings(a, t) == Holdings(c, t) {
      assert Holdings(a, t) == Holdings(b, t) == Holdings(c, t);
    }
  }

  lemma CarryHolds(y: Yard, w: World, p: Pos)
    requires p in y.hoppers
    ensures SameHoldings(y, Carry(y, w, p).yard)
  {
    var a := Pull(y, w, p);
    PullHolds(y, w, p);
    if !a.ok {
      PushHolds(a.yard, w, p);
      SameHoldingsOn(y, a.yard, Push(a.yard, w, p).yard);
    }
  }

  lemma {:induction false} TotalOne(s: Stack, t: Type)
    ensures Total([s], t) == Count(s, t)
  {
    TotalSnoc([], s, t);
    assert [] + [s] == [s];
  }

  lemma {:induction false} AbsorbTrades(s: Stack, slots: seq<Stack>)
    ensures var (rest, taken) := Absorb(s, slots);
            && |taken| == |slots| && NotRaised(slots, taken)
            && (forall t :: Count(rest, t) + Total(taken, t) == Count(s, t) + Total(slots, t))
            && (rest == s ==> taken == slots)
            && (Empty(rest) || (SameType(rest, s) && rest.count <= s.count))
    decreases s.count
  {
    if !Empty(s) {
      var m := MoveOne([s], slots);
      MoveOneMoves([s], slots);
      if m.ok {
        assert m.src == [OneLess(s)];
        AbsorbTrades(m.src[0], m.dst);
        forall t ensures Count(Absorb(s, slots).0, t) + Total(Absorb(s, slots).1, t) == Count(s, t) + Total(slots, t) {
          TotalOne(s, t);
          TotalOne(m.src[0], t);
        }
      }
    }
  }

  lemma {:induction false} GroundUpdate(drops: seq<Drop>, i: nat, d: Drop, t: Type)
    requires i < |drops|
    ensures OnGround(drops[i := d], t) + (if drops[i].closed then 0 else Count(drops[i].stack, t))
            == OnGround(drops, t) + (if d.closed then 0 else Count(d.stack, t))
  {
    var n := |drops| - 1;
    if i == n {
      assert drops[i := d][..n] == drops[..n];
    } else {
      GroundUpdate(drops[..n], i, d, t);
      assert drops[i := d][..n] == drops[..n][i := d];
    }
  }

  lemma {:induction false} SuckHolds(y: Yard, p: Pos, i: nat)
    requires p in y.hoppers && i <= |y.drops|
    ensures SameHoldings(y, Suck(y, p, i).yard)
    decreases |y.drops| - i
  {
    if i < |y.drops| {
      var d := y.drops[i];
      var (rest, slots) := Absorb(d.stack, y.hoppers[p].slots);
      if !Takeable(p, d) || rest == d.stack {
        SuckHolds(y, p, i + 1);
      } else {
        AbsorbTrades(d.stack, y.hoppers[p].slots);
        forall t ensures Holdings(Suck(y, p, i).yard, t) == Holdings(y, t) {
          PutSlotsHolds(y, p, slots, t);
          GroundUpdate(y.drops, i, AfterAbsorbing(d, rest), t);
        }
      }
    }
  }

  /** What a hopper that is on leaves: the yard its work leaves, perhaps with a transfer on record and
      the cooldown set. */
  lemma {:induction false} TickWorks(y: Yard, w: World, p: Pos) returns (y1: Yard, cooldown: nat)
    requires At(w, p).id == HOPPER && At(w, p).meta < 8
    ensures y1 == PutCooldown(WithHopper(y, p), p, cooldown)
    ensures var a, r := Worked(y1, w, p, cooldown), HopperTick(y, w, p);
            var b := a.(transfers := a.transfers + [Transfer(p, a.now)]);
            r == a || r == PutCooldown(a, p, COOLDOWN) || r == PutCooldown(b, p, COOLDOWN)
  {
    var y0 := WithHopper(y, p);
    var before := y0.hoppers[p].cooldown;
    cooldown := if before > 0 then before - 1 else 0;
    y1 := PutCooldown(y0, p, cooldown);
  }

  lemma HopperTickHolds(y: Yard, w: World, p: Pos)
    ensures SameHoldings(y, HopperTick(y, w, p))
  {
    WithHopperHolds(y, p);
    LoggedHolds(y, p);
    if At(w, p).id == HOPPER && At(w, p).meta < 8 {
      var y1, cooldown := TickWorks(y, w, p);
      PutCooldownHolds(WithHopper(y, p), p, cooldown);
      SameHoldingsOn(y, WithHopper(y, p), y1);
      var worked := Worked(y1, w, p, cooldown);
      WorkedHolds(y1, w, p, cooldown);
      SameHoldingsOn(y, y1, worked);
      NotedHolds(worked, p);
      SameHoldingsOn(y, worked, HopperTick(y, w, p));
    }
  }

  lemma WorkedHolds(y: Yard, w: World, p: Pos, cooldown: nat)
    requires p in y.hoppers
    ensures SameHoldings(y, Worked(y, w, p, cooldown))
  {
    var sucked := Suck(y, p, 0);
    SuckHolds(y, p, 0);
    CarryHolds(sucked.yard, w, p);
    SameHoldingsOn(y, sucked.yard, Worked(y, w, p, cooldown));
  }

  /** A transfer on record and a cooldown set hold nothing. */
  lemma NotedHolds(y: Yard, p: Pos)
    requires p in y.hoppers
    ensures var y2 := y.(transfers := y.transfers + [Transfer(p, y.now)]);
            && SameHoldings(y, y) && SameHoldings(y, y2)
            && SameHoldings(y, PutCooldown(y, p, COOLDOWN)) && SameHoldings(y, PutCooldown(y2, p, COOLDOWN))
  {
    var y2 := y.(transfers := y.transfers + [Transfer(p, y.now)]);
    LoggedHolds(y, p);
    PutCooldownHolds(y, p, COOLDOWN);
    PutCooldownHolds(y2, p, COOLDOWN);
    SameHoldingsOn(y, y2, PutCooldown(y2, p, COOLDOWN));
  }

  lemma LoggedHolds(y: Yard, p: Pos)
    ensures SameHoldings(y, y.(transfers := y.transfers + [Transfer(p, y.now)])) && SameHoldings(y, y)
  {
  }

  lemma {:induction false} HopperTicksHold(y: Yard, w: World, order: seq<Pos>)
    ensures SameHoldings(y, HopperTicks(y, w, order))
    decreases |order|
  {
    if order != [] {
      HopperTickHolds(y, w, order[0]);
      HopperTicksHold(HopperTick(y, w, order[0]), w, order[1..]);
      SameHoldingsOn(y, HopperTick(y, w, order[0]), HopperTicks(y, w, order));
    }
  }

  lemma TickHolds(y: Yard, r: Round)
    ensures SameHoldings(y, Tick(y, r))
  {
    HopperTicksHold(y, r.world, r.order);
    var y1 := HopperTicks(y, r.world, r.order);
    forall t ensures Holdings(y, t) == Holdings(Tick(y, r), t) {
      assert Holdings(y, t) == Holdings(y1, t);
    }
  }

  /** Over any number of ticks, in any order of hoppers and while the blocks change around them, the
      items of each type in hoppers, in chests and on the ground stay the same in number. */
  lemma {:induction false} TicksConserve(y: Yard, rs: seq<Round>)
    ensures forall t :: Holdings(Ticks(y, rs), t) == Holdings(y, t)
    decreases |rs|
  {
    if rs != [] {
      TickHolds(y, rs[0]);
      TicksConserve(Tick(y, rs[0]), rs[1..]);
      forall t ensures Holdings(Ticks(y, rs), t) == Holdings(y, t) {
        assert Holdings(y, t) == Holdings(Tick(y, rs[0]), t);
      }
    }
  }

  // ---------- full stacks ----------

  /** Each slot holds a full stack at most, or no more than it held. */
  ghost predicate NotRaised(a: seq<Stack>, b: seq<Stack>) {
    |a| == |b| && forall k | 0 <= k < |a| :: b[k].count <= STACK_LIMIT || b[k].count <= a[k].count
  }

  function HopperAt(y: Yard, p: Pos): Hopper { if p in y.hoppers then y.hoppers[p] else NEW_HOPPER }

  function ChestAt(y: Yard, p: Pos): seq<Stack> { if p in y.chests then y.chests[p] else NewChest() }

  ghost predicate NoSlotRaised(a: Yard, b: Yard) {
    && (forall p :: NotRaised(HopperAt(a, p).slots, HopperAt(b, p).slots))
    && (forall p :: NotRaised(ChestAt(a, p), ChestAt(b, p)))
  }

  lemma RaisedOn(a: seq<Stack>, b: seq<Stack>, c: seq<Stack>)
    requires NotRaised(a, b) && NotRaised(b, c)
    ensures NotRaised(a, c)
  {
  }

  lemma NoSlotRaisedOn(a: Yard, b: Yard, c: Yard)
    requires NoSlotRaised(a, b) && NoSlotRaised(b, c)
    ensures NoSlotRaised(a, c)
  {
    forall p ensures NotRaised(HopperAt(a, p).slots, HopperAt(c, p).slots) {
      RaisedOn(HopperAt(a, p).slots, HopperAt(b, p).slots, HopperAt(c, p).slots);
    }
    forall p ensures NotRaised(ChestAt(a, p), ChestAt(c, p)) {
      RaisedOn(ChestAt(a, p), ChestAt(b, p), ChestAt(c, p));
    }
  }

  lemma CarryRaises(y: Yard, w: World, p: Pos)
    requires p in y.hoppers
    ensures NoSlotRaised(y, Carry(y, w, p).yard)
  {
    PullRaises(y, w, p);
    var a := Pull(y, w, p);
    if !a.ok {
      PushRaises(a.yard, w, p);
      NoSlotRaisedOn(y, a.yard, Push(a.yard, w, p).yard);
    }
  }

  lemma RaisedSelf(a: seq<Stack>)
    ensures NotRaised(a, a)
  {
  }

  /** Yards that differ in cooldowns, the log, and hoppers created empty. */
  lemma SameSlotsRaise(a: Yard, b: Yard)
    requires forall p :: HopperAt(a, p).slots == HopperAt(b, p).slots && ChestAt(a, p) == ChestAt(b, p)
    ensures NoSlotRaised(a, b)
  {
    forall p ensures NotRaised(HopperAt(a, p).slots, HopperAt(b, p).slots) && NotRaised(ChestAt(a, p), ChestAt(b, p)) {
      RaisedSelf(HopperAt(a, p).slots);
      RaisedSelf(ChestAt(a, p));
    }
  }

  lemma PutSlotsRaises(y: Yard, p: Pos, slots: seq<Stack>)
    requires p in y.hoppers && NotRaised(y.hoppers[p].slots, slots)
    ensures NoSlotRaised(y, PutSlots(y, p, slots))
  {
    var r := PutSlots(y, p, slots);
    forall x ensures NotRaised(HopperAt(y, x).slots, HopperAt(r, x).slots) {
      if x != p { RaisedSelf(HopperAt(y, x).slots); }
    }
  }

  lemma PutChestRaises(y: Yard, c: Pos, slots: seq<Stack>)
    requires NotRaised(ChestAt(y, c), slots)
    ensures NoSlotRaised(y, y.(chests := y.chests[c := slots]))
  {
    var r := y.(chests := y.chests[c := slots]);
    forall x ensures NotRaised(ChestAt(y, x), ChestAt(r, x)) {
      if x != c { RaisedSelf(ChestAt(y, x)); }
    }
  }

  lemma FromChestRaises(y: Yard, c: Pos, p: Pos)
    requires p in y.hoppers
    ensures NoSlotRaised(y, FromChest(y, c, p).yard)
  {
    var y1 := WithChest(y, c);
    var m := MoveOne(y1.chests[c], y1.hoppers[p].slots);
    MoveOneMoves(y1.chests[c], y1.hoppers[p].slots);
    SameSlotsRaise(y, y1);
    PutSlotsRaises(y1, p, m.dst);
    PutChestRaises(PutSlots(y1, p, m.dst), c, m.src);
    NoSlotRaisedOn(y, y1, PutSlots(y1, p, m.dst));
    NoSlotRaisedOn(y, PutSlots(y1, p, m.dst), FromChest(y, c, p).yard);
  }

  lemma IntoChestRaises(y: Yard, p: Pos, c: Pos)
    requires p in y.hoppers
    ensures NoSlotRaised(y, IntoChest(y, p, c).yard)
  {
    var y1 := WithChest(y, c);
    var m := MoveOne(y1.hoppers[p].slots, y1.chests[c]);
    MoveOneMoves(y1.hoppers[p].slots, y1.chests[c]);
    SameSlotsRaise(y, y1);
    PutSlotsRaises(y1, p, m.src);
    PutChestRaises(PutSlots(y1, p, m.src), c, m.dst);
    NoSlotRaisedOn(y, y1, PutSlots(y1, p, m.src));
    NoSlotRaisedOn(y, PutSlots(y1, p, m.src), IntoChest(y, p, c).yard);
  }

  lemma BetweenRaises(y: Yard, from: Pos, to: Pos)
    requires from != to && (from in y.hoppers || to in y.hoppers)
    ensures NoSlotRaised(y, BetweenHoppers(y, from, to).yard)
  {
    var y1 := WithHopper(WithHopper(y, from), to);
    var m := MoveOne(y1.hoppers[from].slots, y1.hoppers[to].slots);
    MoveOneMoves(y1.hoppers[from].slots, y1.hoppers[to].slots);
    SameSlotsRaise(y, y1);
    var y2 := PutSlots(y1, from, m.src);
    PutSlotsRaises(y1, from, m.src);
    PutSlotsRaises(y2, to, m.dst);
    NoSlotRaisedOn(y, y1, y2);
    NoSlotRaisedOn(y, y2, PutSlots(y2, to, m.dst));
  }

  lemma SameYardRaises(y: Yard)
    ensures NoSlotRaised(y, y)
  {
  }

  lemma PullRaises(y: Yard, w: World, p: Pos)
    requires p in y.hoppers
    ensures NoSlotRaised(y, Pull(y, w, p).yard)
  {
    var q := Above(p);
    SameYardRaises(y);
    FromChestRaises(y, q, p);
    BetweenRaises(y, q, p);
  }

  lemma PushRaises(y: Yard, w: World, p: Pos)
    requires p in y.hoppers
    ensures NoSlotRaised(y, Push(y, w, p).yard)
  {
    var q := Faced(p, At(w, p).meta);
    SameYardRaises(y);
    IntoChestRaises(y, p, q);
    BetweenRaises(y, p, q);
  }

  lemma {:induction false} SuckRaises(y: Yard, p: Pos, i: nat)
    requires p in y.hoppers && i <= |y.drops|
    ensures NoSlotRaised(y, Suck(y, p, i).yard)
    decreases |y.drops| - i
  {
    if i < |y.drops| {
      AbsorbTrades(y.drops[i].stack, y.hoppers[p].slots);
      SuckRaises(y, p, i + 1);
    }
  }

  /** The yard after suction and, where the cooldown allows, a transfer. */
  ghost function Worked(y: Yard, w: World, p: Pos, cooldown: nat): Yard
    requires p in y.hoppers
  {
    var sucked := Suck(y, p, 0);
    if cooldown == 0 && !sucked.ok then Carry(sucked.yard, w, p).yard else sucked.yard
  }

  lemma WorkedRaises(y: Yard, w: World, p: Pos, cooldown: nat)
    requires p in y.hoppers
    ensures NoSlotRaised(y, Worked(y, w, p, cooldown))
  {
    var sucked := Suck(y, p, 0);
    SuckRaises(y, p, 0);
    CarryRaises(sucked.yard, w, p);
    NoSlotRaisedOn(y, sucked.yard, Worked(y, w, p, cooldown));
    SameYardRaises(sucked.yard);
  }

  lemma HopperTickRaises(y: Yard, w: World, p: Pos)
    ensures NoSlotRaised(y, HopperTick(y, w, p))
  {
    if At(w, p).id != HOPPER || At(w, p).meta >= 8 {
      SameSlotsRaise(y, HopperTick(y, w, p));
    } else {
      var y1, cooldown := TickWorks(y, w, p);
      var worked := Worked(y1, w, p, cooldown);
      SameSlotsRaise(y, y1);
      WorkedRaises(y1, w, p, cooldown);
      NoSlotRaisedOn(y, y1, worked);
      SameSlotsRaise(worked, HopperTick(y, w, p));
      NoSlotRaisedOn(y, worked, HopperTick(y, w, p));
    }
  }

  lemma {:induction false} HopperTicksRaise(y: Yard, w: World, order: seq<Pos>)
    ensures NoSlotRaised(y, HopperTicks(y, w, order))
    decreases |order|
  {
    if order != [] {
      HopperTickRaises(y, w, order[0]);
      HopperTicksRaise(HopperTick(y, w, order[0]), w, order[1..]);
      NoSlotRaisedOn(y, HopperTick(y, w, order[0]), HopperTicks(y, w, order));
    }
  }

  /** Over any number of ticks no slot of a hopper or chest is lifted above 64. */
  lemma {:induction false} TicksRaiseNothing(y: Yard, rs: seq<Round>)
    ensures NoSlotRaised(y, Ticks(y, rs))
    decreases |rs|
  {
    if rs != [] {
      HopperTicksRaise(y, rs[0].world, rs[0].order);
      assert NoSlotRaised(HopperTicks(y, rs[0].world, rs[0].order), Tick(y, rs[0]));
      NoSlotRaisedOn(y, HopperTicks(y, rs[0].world, rs[0].order), Tick(y, rs[0]));
      TicksRaiseNothing(Tick(y, rs[0]), rs[1..]);
      NoSlotRaisedOn(y, Tick(y, rs[0]), Ticks(y, rs));
    }
  }

  // ---------- the pace of transfers ----------

  /** Before tick `n`, the cooldown of a hopper still covers what is left of the eight ticks after
      each of its transfers. */
  ghost predicate Rested(y: Yard, p: Pos, n: nat) {
    forall r | r in y.transfers && r.hopper == p ::
      p in y.hoppers && r.tick < n && y.hoppers[p].cooldown >= COOLDOWN + 1 + r.tick - n
  }

  ghost predicate Spaced(rs: seq<Transfer>) {
    forall i, j | 0 <= i < j < |rs| && rs[i].hopper == rs[j].hopper :: rs[j].tick - rs[i].tick >= 8
  }

  ghost predicate OnlyHopper(a: Yard, b: Yard, p: Pos) {
    && a.now == b.now && a.hoppers.Keys <= b.hoppers.Keys
    && (forall q | q in a.hoppers && q != p :: b.hoppers[q].cooldown == a.hoppers[q].cooldown)
  }

  lemma {:induction false} SuckOnly(y: Yard, p: Pos, i: nat)
    requires p in y.hoppers && i <= |y.drops|
    ensures var r := Suck(y, p, i).yard;
            OnlyHopper(y, r, p) && r.hoppers[p].cooldown == y.hoppers[p].cooldown && r.transfers == y.transfers
    decreases |y.drops| - i
  {
    if i < |y.drops| { SuckOnly(y, p, i + 1); }
  }

  lemma CarryOnly(y: Yard, w: World, p: Pos)
    requires p in y.hoppers
    ensures var r := Carry(y, w, p).yard;
            OnlyHopper(y, r, p) && r.hoppers[p].cooldown == y.hoppers[p].cooldown && r.transfers == y.transfers
  {
    PullOnly(y, w, p);
    PushOnly(Pull(y, w, p).yard, w, p);
  }

  lemma PullOnly(y: Yard, w: World, p: Pos)
    requires p in y.hoppers
    ensures var r := Pull(y, w, p).yard;
            OnlyHopper(y, r, p) && r.hoppers[p].cooldown == y.hoppers[p].cooldown && r.transfers == y.transfers
  {
  }

  lemma PushOnly(y: Yard, w: World, p: Pos)
    requires p in y.hoppers
    ensures var r := Push(y, w, p).yard;
            OnlyHopper(y, r, p) && r.hoppers[p].cooldown == y.hoppers[p].cooldown && r.transfers == y.transfers
  {
  }

  /** What one hopper's tick does to cooldowns and to the log of transfers. */
  lemma HopperTickPace(y: Yard, w: World, p: Pos)
    requires p in y.hoppers
    ensures var r := HopperTick(y, w, p);
            && OnlyHopper(y, r, p)
            && (r.transfers == y.transfers || (r.transfers == y.transfers + [Transfer(p, y.now)]
                                               && y.hoppers[p].cooldown <= 1 && r.hoppers[p].cooldown == COOLDOWN))
            && (r.hoppers[p].cooldown >= y.hoppers[p].cooldown - 1 || r.hoppers[p].cooldown == COOLDOWN)
  {
    if At(w, p).id == HOPPER && At(w, p).meta < 8 {
      var before := y.hoppers[p].cooldown;
      var cooldown := if before > 0 then before - 1 else 0;
      var y1 := PutCooldown(y, p, cooldown);
      SuckOnly(y1, p, 0);
      CarryOnly(Suck(y1, p, 0).yard, w, p);
    }
  }

  lemma SpacedMore(rs: seq<Transfer>, p: Pos, n: nat)
    requires Spaced(rs) && forall r | r in rs && r.hopper == p :: n - r.tick >= COOLDOWN
    ensures Spaced(rs + [Transfer(p, n)])
  {
    var all := rs + [Transfer(p, n)];
    forall i, j | 0 <= i < j < |all| && all[i].hopper == all[j].hopper ensures all[j].tick - all[i].tick >= COOLDOWN {
      assert all[i] == rs[i] && rs[i] in rs;
    }
  }

  /** The hoppers still to be visited this tick are rested for it, the others for the next one. */
  ghost predicate Pacing(y: Yard, left: seq<Pos>) {
    && Spaced(y.transfers)
    && (forall p | p in left :: Rested(y, p, y.now))
    && var next := y.now + 1; (forall p | p !in left :: Rested(y, p, next))
  }

  lemma HopperTickKeepsPace(y: Yard, w: World, left: seq<Pos>)
    requires left != [] && left[0] in y.hoppers && left[0] !in left[1..] && Pacing(y, left)
    ensures Pacing(HopperTick(y, w, left[0]), left[1..])
  {
    var p := left[0];
    var r := HopperTick(y, w, p);
    HopperTickPace(y, w, p);
    assert p in left && Rested(y, p, y.now);
    if r.transfers != y.transfers { SpacedMore(y.transfers, p, y.now); }
    assert forall q :: q in left <==> q == p || q in left[1..];
    forall q | q in left[1..] ensures Rested(r, q, r.now) {
      assert Rested(y, q, y.now);
    }
    var next := y.now + 1;
    forall q | q !in left[1..] ensures Rested(r, q, next) {
      assert q != p ==> Rested(y, q, next);
    }
  }

  lemma {:induction false} HopperTicksKeepPace(y: Yard, w: World, left: seq<Pos>)
    requires Pacing(y, left)
    requires forall p | p in left :: p in y.hoppers
    requires forall i, j | 0 <= i < j < |left| :: left[i] != left[j]
    ensures Pacing(HopperTicks(y, w, left), []) && HopperTicks(y, w, left).now == y.now
    decreases |left|
  {
    if left != [] {
      HopperTickPace(y, w, left[0]);
      HopperTickKeepsPace(y, w, left);
      HopperTicksKeepPace(HopperTick(y, w, left[0]), w, left[1..]);
    } else {
      assert left == [];
    }
  }

  ghost predicate AllRested(y: Yard) {
    Spaced(y.transfers) && forall p :: Rested(y, p, y.now)
  }

  /** Every round goes over hoppers that exist, each once. */
  ghost predicate ProperAll(y: Yard, rs: seq<Round>)
    decreases |rs|
  {
    rs == [] || (Proper(y, rs[0]) && ProperAll(Tick(y, rs[0]), rs[1..]))
  }

  lemma TickKeepsPace(y: Yard, r: Round)
    requires AllRested(y) && Proper(y, r)
    ensures AllRested(Tick(y, r))
  {
    var next := y.now + 1;
    forall p ensures Rested(y, p, next) {
      assert Rested(y, p, y.now);
    }
    HopperTicksKeepPace(y, r.world, r.order);
    var y1 := HopperTicks(y, r.world, r.order);
    forall p ensures Rested(Tick(y, r), p, next) {
      assert p !in [];
      assert Rested(y1, p, next);
    }
  }

  /** Over any run of ticks, two container transfers of one hopper are at least eight ticks apart,
      whatever it sucks in from the ground meanwhile and whenever it is switched off. */
  lemma {:induction false} TransfersAreSpaced(y: Yard, rs: seq<Round>)
    requires AllRested(y) && ProperAll(y, rs)
    ensures Spaced(Ticks(y, rs).transfers)
    decreases |rs|
  {
    if rs != [] {
      TickKeepsPace(y, rs[0]);
      TransfersAreSpaced(Tick(y, rs[0]), rs[1..]);
    }
  }

  lemma FreshYardIsRested(y: Yard)
    requires y.transfers == []
    ensures AllRested(y)
  {
  }
}
