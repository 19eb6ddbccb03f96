/** What the tick of one hopper does, in coordinates: which drop it takes in, when and from where an
    item moves, and into what. Chests and hoppers that have no slots yet count as empty ones. */
module HopperTransfers {
  import opened RedstoneWorld
  import opened Items
  import opened Hoppers
  import opened HopperRuns

  // ---------- rows of slots ----------

  /** The slots at a place: 27 of a chest, 5 of a hopper, none elsewhere. */
  function SlotsAt(y: Yard, w: World, q: Pos): seq<Stack> {
    if At(w, q).id == 54 then (if q in y.chests then y.chests[q] else seq(27, _ => Stack(0, 0, 0)))
    else if At(w, q).id == 154 then (if q in y.hoppers then y.hoppers[q].slots else seq(5, _ => Stack(0, 0, 0)))
    else []
  }

  function CooldownAt(y: Yard, q: Pos): nat { if q in y.hoppers then y.hoppers[q].cooldown else 0 }

  predicate Blank(s: Stack) { s.id <= 0 || s.count == 0 }

  /** Slot `d` takes one more item of `s`. */
  predicate Takes(d: Stack, s: Stack) { Blank(d) || (d.id == s.id && d.damage == s.damage && d.count < 64) }

  predicate FitsIn(s: Stack, to: seq<Stack>) { !Blank(s) && exists j | 0 <= j < |to| :: Takes(to[j], s) }

  /** Some item of the one row fits the other. */
  predicate Fits(from: seq<Stack>, to: seq<Stack>) { exists i | 0 <= i < |from| :: FitsIn(from[i], to) }

  /** An item has gone from slot `i`, the first with one that fits, to slot `j`, the first that takes it. */
  ghost predicate WentAt(from: seq<Stack>, to: seq<Stack>, fromNow: seq<Stack>, toNow: seq<Stack>, i: nat, j: nat) {
    && i < |from| && j < |to| && !Blank(from[i]) && Takes(to[j], from[i])
    && (forall k | 0 <= k < i :: !FitsIn(from[k], to)) && (forall k | 0 <= k < j :: !Takes(to[k], from[i]))
    && fromNow == from[i := if from[i].count == 1 then Stack(0, 0, 0)
                            else Stack(from[i].id, from[i].count - 1, from[i].damage)]
    && toNow == to[j := Stack(from[i].id, (if Blank(to[j]) then 0 else to[j].count) + 1, from[i].damage)]
  }

  ghost predicate OneWent(from: seq<Stack>, to: seq<Stack>, fromNow: seq<Stack>, toNow: seq<Stack>) {
    exists i, j :: WentAt(from, to, fromNow, toNow, i, j)
  }

  lemma MoveOneIs(from: seq<Stack>, to: seq<Stack>)
    ensures var m := MoveOne(from, to);
            && (m.ok <==> Fits(from, to))
            && (m.ok ==> OneWent(from, to, m.src, m.dst))
            && (!m.ok ==> m.src == from && m.dst == to)
  {
    var i := FirstMovable(from, to, 0);
    forall k | 0 <= k < |from| ensures FitsIn(from[k], to) <==> Movable(from, to, k) {
      FitsIsMovable(from, to, k);
    }
    if i < |from| { MovedAt(from, to, i, FirstFit(to, from[i], 0)); }
  }

  lemma {:induction false} MovedAt(from: seq<Stack>, to: seq<Stack>, i: nat, j: nat)
    requires i == FirstMovable(from, to, 0) < |from| && j == FirstFit(to, from[i], 0)
    requires forall k | 0 <= k < |from| :: FitsIn(from[k], to) <==> Movable(from, to, k)
    ensures var m := MoveOne(from, to); WentAt(from, to, m.src, m.dst, i, j)
  {
    assert forall k | 0 <= k < j :: !Accepts(to[k], from[i]);
    assert forall k | 0 <= k < i :: !FitsIn(from[k], to);
  }

  lemma FitsIsMovable(from: seq<Stack>, to: seq<Stack>, k: nat)
    requires k < |from|
    ensures FitsIn(from[k], to) <==> Movable(from, to, k)
  {
    var j := FirstFit(to, from[k], 0);
    assert j < |to| ==> Takes(to[j], from[k]);
    if FitsIn(from[k], to) {
      var i :| 0 <= i < |to| && Takes(to[i], from[k]);
      assert Accepts(to[i], from[k]);
    }
  }

  // ---------- between containers ----------

  /** Slots and drops are as they were. */
  ghost predicate SameItems(y: Yard, r: Yard, w: World) {
    (forall q :: SlotsAt(r, w, q) == SlotsAt(y, w, q)) && r.drops == y.drops
  }

  /** One item has gone from the slots at `a` to those at `b`; other slots and drops are as they were. */
  ghost predicate OneItem(y: Yard, r: Yard, w: World, a: Pos, b: Pos) {
    && OneWent(SlotsAt(y, w, a), SlotsAt(y, w, b), SlotsAt(r, w, a), SlotsAt(r, w, b))
    && (forall q | q != a && q != b :: SlotsAt(r, w, q) == SlotsAt(y, w, q))
    && r.drops == y.drops
  }

  /** Countdowns and the record are as they were. */
  ghost predicate SameRecord(y: Yard, r: Yard) {
    (forall q :: CooldownAt(r, q) == CooldownAt(y, q)) && r.transfers == y.transfers && r.now == y.now
  }

  lemma WithHopperSame(y: Yard, w: World, p: Pos)
    ensures SameItems(y, WithHopper(y, p), w) && SameRecord(y, WithHopper(y, p))
    ensures At(w, p).id == 154 ==> WithHopper(y, p).hoppers[p].slots == SlotsAt(y, w, p)
  {
    assert NEW_HOPPER.slots == seq(5, _ => Stack(0, 0, 0));
  }

  lemma WithChestSame(y: Yard, w: World, p: Pos)
    ensures SameItems(y, WithChest(y, p), w) && SameRecord(y, WithChest(y, p))
    ensures At(w, p).id == 54 ==> WithChest(y, p).chests[p] == SlotsAt(y, w, p)
  {
    assert NewChest() == seq(27, _ => Stack(0, 0, 0));
  }

  lemma PutSlotsAt(y: Yard, w: World, p: Pos, slots: seq<Stack>)
    requires p in y.hoppers && At(w, p).id == 154
    ensures var r := PutSlots(y, p, slots);
            && SlotsAt(r, w, p) == slots && (forall q | q != p :: SlotsAt(r, w, q) == SlotsAt(y, w, q))
            && r.drops == y.drops && SameRecord(y, r)
  {
  }

  lemma PutChestAt(y: Yard, w: World, p: Pos, slots: seq<Stack>)
    requires At(w, p).id == 54
    ensures var r := y.(chests := y.chests[p := slots]);
            && SlotsAt(r, w, p) == slots && (forall q | q != p :: SlotsAt(r, w, q) == SlotsAt(y, w, q))
            && r.drops == y.drops && SameRecord(y, r)
  {
  }

  /** What an attempt to move an item from `a` to `b` comes to. */
  ghost predicate Tried(y: Yard, t: Attempt, w: World, a: Pos, b: Pos) {
    && (t.ok <==> Fits(SlotsAt(y, w, a), SlotsAt(y, w, b)))
    && (if t.ok then OneItem(y, t.yard, w, a, b) else SameItems(y, t.yard, w))
    && SameRecord(y, t.yard)
  }

  lemma IntoChestIs(y: Yard, w: World, p: Pos, q: Pos)
    requires p in y.hoppers && At(w, p).id == 154 && At(w, q).id == 54
    ensures Tried(y, IntoChest(y, p, q), w, p, q)
  {
    var y1, m := WithChest(y, q), MoveOne(SlotsAt(y, w, p), SlotsAt(y, w, q));
    WithChestSame(y, w, q);
    MoveOneIs(SlotsAt(y, w, p), SlotsAt(y, w, q));
    PutSlotsAt(y1, w, p, m.src);
    PutChestAt(PutSlots(y1, p, m.src), w, q, m.dst);
  }

  lemma FromChestIs(y: Yard, w: World, q: Pos, p: Pos)
    requires p in y.hoppers && At(w, p).id == 154 && At(w, q).id == 54
    ensures Tried(y, FromChest(y, q, p), w, q, p)
  {
    var y1, m := WithChest(y, q), MoveOne(SlotsAt(y, w, q), SlotsAt(y, w, p));
    WithChestSame(y, w, q);
    MoveOneIs(SlotsAt(y, w, q), SlotsAt(y, w, p));
    PutSlotsAt(y1, w, p, m.dst);
    PutChestAt(PutSlots(y1, p, m.dst), w, q, m.src);
  }

  lemma BetweenIs(y: Yard, w: World, a: Pos, b: Pos)
    requires a != b && (a in y.hoppers || b in y.hoppers) && At(w, a).id == 154 && At(w, b).id == 154
    ensures Tried(y, BetweenHoppers(y, a, b), w, a, b)
  {
    var y1, m := WithHopper(WithHopper(y, a), b), MoveOne(SlotsAt(y, w, a), SlotsAt(y, w, b));
    WithHopperSame(y, w, a);
    WithHopperSame(WithHopper(y, a), w, b);
    MoveOneIs(SlotsAt(y, w, a), SlotsAt(y, w, b));
    PutSlotsAt(y1, w, a, m.src);
    PutSlotsAt(PutSlots(y1, a, m.src), w, b, m.dst);
  }

  /** The place a hopper pushes into: beside it for four settings, else below. */
  function Mouth(p: Pos, meta: nibble): Pos {
    if meta % 8 == 2 then Pos(p.x, p.y, p.z - 1)
    else if meta % 8 == 3 then Pos(p.x, p.y, p.z + 1)
    else if meta % 8 == 4 then Pos(p.x - 1, p.y, p.z)
    else if meta % 8 == 5 then Pos(p.x + 1, p.y, p.z)
    else Pos(p.x, p.y - 1, p.z)
  }

  function Over(p: Pos): Pos { Pos(p.x, p.y + 1, p.z) }

  lemma PullIs(y: Yard, w: World, p: Pos)
    requires p in y.hoppers && At(w, p).id == 154
    ensures Tried(y, Pull(y, w, p), w, Over(p), p)
  {
    var q := Over(p);
    if At(w, q).id == 54 { FromChestIs(y, w, q, p); }
    if At(w, q).id == 154 { BetweenIs(y, w, q, p); }
  }

  lemma PushIs(y: Yard, w: World, p: Pos)
    requires p in y.hoppers && At(w, p).id == 154
    ensures Tried(y, Push(y, w, p), w, p, Mouth(p, At(w, p).meta))
  {
    var q := Mouth(p, At(w, p).meta);
    if At(w, q).id == 54 { IntoChestIs(y, w, p, q); }
    if At(w, q).id == 154 { BetweenIs(y, w, p, q); }
  }

  /** Something fits from above, or into what the hopper points at. */
  ghost predicate CanCarry(y: Yard, w: World, p: Pos) {
    Fits(SlotsAt(y, w, Over(p)), SlotsAt(y, w, p)) || Fits(SlotsAt(y, w, p), SlotsAt(y, w, Mouth(p, At(w, p).meta)))
  }

  /** One item has come from above if one fits, or else gone into what the hopper points at if one fits. */
  ghost predicate Carries(y: Yard, r: Yard, w: World, p: Pos) {
    var q := Mouth(p, At(w, p).meta);
    if Fits(SlotsAt(y, w, Over(p)), SlotsAt(y, w, p)) then OneItem(y, r, w, Over(p), p)
    else if Fits(SlotsAt(y, w, p), SlotsAt(y, w, q)) then OneItem(y, r, w, p, q)
    else SameItems(y, r, w)
  }

  /** What a hopper does that neither counts down nor takes in a drop. */
  ghost predicate Carried(y: Yard, t: Attempt, w: World, p: Pos) {
    && (t.ok <==> CanCarry(y, w, p))
    && Carries(y, t.yard, w, p) && SameRecord(y, t.yard)
  }

  lemma CarryIs(y: Yard, w: World, p: Pos)
    requires p in y.hoppers && At(w, p).id == 154
    ensures Carried(y, Carry(y, w, p), w, p)
  {
    PullIs(y, w, p);
    PushIs(Pull(y, w, p).yard, w, p);
  }

  // ---------- suction ----------

  /** An item on the ground that the hopper can reach, and something of which fits it. */
  ghost predicate Suckable(y: Yard, w: World, p: Pos, d: Drop) {
    && !d.closed && d.delay <= 0 && FitsIn(d.stack, SlotsAt(y, w, p))
    && (p.x as real) - 0.25 <= d.x <= (p.x as real) + 1.25
    && (p.y as real) + 0.25 <= d.y <= (p.y as real) + 1.6
    && (p.z as real) - 0.25 <= d.z <= (p.z as real) + 1.25
  }

  lemma {:induction false} AbsorbIs(s: Stack, slots: seq<Stack>)
    ensures var (rest, taken) := Absorb(s, slots);
            && (rest != s <==> FitsIn(s, slots)) && !FitsIn(rest, taken)
            && (rest == s ==> taken == slots) && (rest != s && !Blank(s) ==> Blank(rest) || rest.count < s.count)
    decreases s.count
  {
    if !Empty(s) {
      var m := MoveOne([s], slots);
      MoveOneIs([s], slots);
      assert Fits([s], slots) <==> FitsIn(s, slots) by {
        assert [s][0] == s;
      }
      if m.ok {
        assert m.src == [OneLess(s)];
        AbsorbIs(m.src[0], m.dst);
      }
    }
  }

  /** The first drop that is suckable has gone in, as far as it fits. */
  ghost predicate Sucked(y: Yard, r: Yard, w: World, p: Pos) {
    exists i | 0 <= i < |y.drops| && Suckable(y, w, p, y.drops[i]) ::
      && (forall k | 0 <= k < i :: !Suckable(y, w, p, y.drops[k]))
      && TakenIn(y, r, w, p, i)
  }

  /** Drop `i` has lost as many items as fit, and is gone if none is left. */
  ghost predicate TakenIn(y: Yard, r: Yard, w: World, p: Pos, i: nat)
    requires i < |y.drops|
  {
    && |r.drops| == |y.drops| && (forall k | 0 <= k < |y.drops| && k != i :: r.drops[k] == y.drops[k])
    && (|| r.drops[i] == y.drops[i].(closed := true)
        || (r.drops[i] == y.drops[i].(stack := r.drops[i].stack) && r.drops[i].stack.count < y.drops[i].stack.count
            && !FitsIn(r.drops[i].stack, SlotsAt(r, w, p))))
    && (forall q | q != p :: SlotsAt(r, w, q) == SlotsAt(y, w, q))
  }

  lemma {:induction false} SuckIs(y: Yard, w: World, p: Pos, i: nat)
    requires p in y.hoppers && At(w, p).id == 154 && i <= |y.drops|
    requires forall k | 0 <= k < i :: !Suckable(y, w, p, y.drops[k])
    ensures var a := Suck(y, p, i);
            && (a.ok <==> exists k | 0 <= k < |y.drops| :: Suckable(y, w, p, y.drops[k]))
            && (if a.ok then Sucked(y, a.yard, w, p) else SameItems(y, a.yard, w))
            && SameRecord(y, a.yard)
    decreases |y.drops| - i
  {
    if i < |y.drops| {
      var d := y.drops[i];
      var (rest, slots) := Absorb(d.stack, y.hoppers[p].slots);
      AbsorbIs(d.stack, y.hoppers[p].slots);
      assert Suckable(y, w, p, d) <==> Takeable(p, d) && rest != d.stack;
      if Takeable(p, d) && rest != d.stack {
        SuckTakes(y, w, p, i);
      } else {
        SuckIs(y, w, p, i + 1);
      }
    }
  }

  lemma {:induction false} SuckTakes(y: Yard, w: World, p: Pos, i: nat)
    requires p in y.hoppers && At(w, p).id == 154 && i < |y.drops| && Takeable(p, y.drops[i])
    requires Absorb(y.drops[i].stack, y.hoppers[p].slots).0 != y.drops[i].stack
    ensures Suck(y, p, i).ok && TakenIn(y, Suck(y, p, i).yard, w, p, i) && SameRecord(y, Suck(y, p, i).yard)
  {
    AbsorbIs(y.drops[i].stack, y.hoppers[p].slots);
    AbsorbTrades(y.drops[i].stack, y.hoppers[p].slots);
  }

  // ---------- a tick ----------

  /** The countdown of the hopper at `p` stands at `n`, the others are as they were, and the record is
      `transfers`. */
  ghost predicate Noted(y: Yard, r: Yard, p: Pos, n: nat, transfers: seq<Transfer>) {
    && CooldownAt(r, p) == n && (forall q | q != p :: CooldownAt(r, q) == CooldownAt(y, q))
    && r.transfers == transfers && r.now == y.now
  }

  lemma PutCooldownAt(y: Yard, w: World, p: Pos, n: nat)
    requires p in y.hoppers
    ensures var r := PutCooldown(y, p, n); SameItems(y, r, w) && Noted(y, r, p, n, y.transfers)
  {
  }

  ghost predicate AnySuckable(y: Yard, w: World, p: Pos) {
    exists k | 0 <= k < |y.drops| :: Suckable(y, w, p, y.drops[k])
  }

  /** The tick of a hopper that is on. A drop in reach that fits, the first such, is taken in. Else, when
      the countdown has run out, one item comes from the chest or hopper above if one fits, or else goes
      into the chest or hopper it points at if one fits; and this is put on record. After either, the
      countdown starts at eight. Nothing else changes. */
  ghost predicate Works(y: Yard, r: Yard, w: World, p: Pos) {
    var left := if CooldownAt(y, p) > 0 then CooldownAt(y, p) - 1 else 0;
    var note := y.transfers + [Transfer(p, y.now)];
    if AnySuckable(y, w, p) then Sucked(y, r, w, p) && Noted(y, r, p, 8, y.transfers)
    else if left > 0 then SameItems(y, r, w) && Noted(y, r, p, left, y.transfers)
    else if CanCarry(y, w, p) then Carries(y, r, w, p) && Noted(y, r, p, 8, note)
    else SameItems(y, r, w) && Noted(y, r, p, 0, y.transfers)
  }

  /** The yard once the countdown has gone down by one. */
  function Counted(y: Yard, p: Pos): Yard {
    PutCooldown(WithHopper(y, p), p, if CooldownAt(y, p) > 0 then CooldownAt(y, p) - 1 else 0)
  }

  lemma CountedAt(y: Yard, w: World, p: Pos)
    ensures var left := if CooldownAt(y, p) > 0 then CooldownAt(y, p) - 1 else 0;
            SameItems(y, Counted(y, p), w) && Noted(y, Counted(y, p), p, left, y.transfers)
  {
    WithHopperSame(y, w, p);
    PutCooldownAt(WithHopper(y, p), w, p, if CooldownAt(y, p) > 0 then CooldownAt(y, p) - 1 else 0);
  }

  function Recorded(y: Yard, p: Pos): Yard { y.(transfers := y.transfers + [Transfer(p, y.now)]) }

  lemma {:induction false} TickIs(y: Yard, w: World, p: Pos)
    requires At(w, p).id == 154 && At(w, p).meta < 8
    ensures var sucked := Suck(Counted(y, p), p, 0);
            var carried := Carry(sucked.yard, w, p);
            HopperTick(y, w, p) ==
              if sucked.ok then PutCooldown(sucked.yard, p, 8)
              else if CooldownAt(y, p) > 1 then sucked.yard
              else if carried.ok then PutCooldown(Recorded(carried.yard, p), p, 8)
              else carried.yard
  {
  }

  /** The items of `a` and of `b` are the same, so what is true of the one is true of the other. */
  lemma SameBefore(a: Yard, b: Yard, r: Yard, w: World, p: Pos)
    requires SameItems(a, b, w)
    ensures AnySuckable(a, w, p) <==> AnySuckable(b, w, p)
    ensures Sucked(b, r, w, p) ==> Sucked(a, r, w, p)
    ensures SameItems(b, r, w) ==> SameItems(a, r, w)
  {
    assert forall k | 0 <= k < |a.drops| :: Suckable(a, w, p, a.drops[k]) <==> Suckable(b, w, p, b.drops[k]);
  }

  lemma SuckedAfter(y: Yard, a: Yard, b: Yard, w: World, p: Pos)
    requires Sucked(y, a, w, p) && SameItems(a, b, w)
    ensures Sucked(y, b, w, p)
  {
    var i :| 0 <= i < |y.drops| && Suckable(y, w, p, y.drops[i])
             && (forall k | 0 <= k < i :: !Suckable(y, w, p, y.drops[k])) && TakenIn(y, a, w, p, i);
    assert TakenIn(y, b, w, p, i);
  }

  lemma WorksSucking(y: Yard, w: World, p: Pos, sucked: Yard)
    requires p in sucked.hoppers && AnySuckable(y, w, p)
    requires Sucked(Counted(y, p), sucked, w, p) && SameRecord(Counted(y, p), sucked)
    ensures Works(y, PutCooldown(sucked, p, 8), w, p)
  {
    CountedAt(y, w, p);
    SameBefore(y, Counted(y, p), sucked, w, p);
    PutCooldownAt(sucked, w, p, 8);
    SuckedAfter(y, sucked, PutCooldown(sucked, p, 8), w, p);
  }

  lemma OneItemSame(a: Yard, b: Yard, c: Yard, d: Yard, w: World, from: Pos, to: Pos)
    requires SameItems(a, b, w) && OneItem(b, c, w, from, to) && SameItems(c, d, w)
    ensures OneItem(a, d, w, from, to)
  {
    var i, j :| WentAt(SlotsAt(b, w, from), SlotsAt(b, w, to), SlotsAt(c, w, from), SlotsAt(c, w, to), i, j);
    assert WentAt(SlotsAt(a, w, from), SlotsAt(a, w, to), SlotsAt(d, w, from), SlotsAt(d, w, to), i, j);
  }

  lemma CarriesSame(y: Yard, y1: Yard, t: Yard, r: Yard, w: World, p: Pos)
    requires SameItems(y, y1, w) && Carries(y1, t, w, p) && SameItems(t, r, w)
    ensures Carries(y, r, w, p)
  {
    var q := Mouth(p, At(w, p).meta);
    assert SlotsAt(y1, w, Over(p)) == SlotsAt(y, w, Over(p)) && SlotsAt(y1, w, p) == SlotsAt(y, w, p)
        && SlotsAt(y1, w, q) == SlotsAt(y, w, q);
    if Fits(SlotsAt(y, w, Over(p)), SlotsAt(y, w, p)) {
      OneItemSame(y, y1, t, r, w, Over(p), p);
    } else if Fits(SlotsAt(y, w, p), SlotsAt(y, w, q)) {
      OneItemSame(y, y1, t, r, w, p, q);
    }
  }

  lemma NotedCarrying(y: Yard, w: World, p: Pos, y1: Yard, t: Attempt)
    requires CooldownAt(y, p) <= 1 && p in t.yard.hoppers
    requires SameRecord(Counted(y, p), y1) && SameRecord(y1, t.yard)
    ensures var r := if t.ok then PutCooldown(Recorded(t.yard, p), p, 8) else t.yard;
            if t.ok then Noted(y, r, p, 8, y.transfers + [Transfer(p, y.now)]) else Noted(y, r, p, 0, y.transfers)
  {
    CountedAt(y, w, p);
    PutCooldownAt(Recorded(t.yard, p), w, p, 8);
  }

  lemma SameOn(y: Yard, y1: Yard, w: World, p: Pos)
    requires SameItems(Counted(y, p), y1, w)
    ensures SameItems(y, y1, w)
  {
    CountedAt(y, w, p);
  }

  lemma FitsSame(y: Yard, y1: Yard, w: World, a: Pos, b: Pos)
    requires SameItems(y, y1, w)
    ensures Fits(SlotsAt(y1, w, a), SlotsAt(y1, w, b)) <==> Fits(SlotsAt(y, w, a), SlotsAt(y, w, b))
  {
  }

  lemma CanCarrySame(y: Yard, y1: Yard, w: World, p: Pos)
    requires SameItems(y, y1, w)
    ensures CanCarry(y1, w, p) <==> CanCarry(y, w, p)
  {
    FitsSame(y, y1, w, Over(p), p);
    FitsSame(y, y1, w, p, Mouth(p, At(w, p).meta));
  }

  lemma ItemsCarried(y: Yard, w: World, p: Pos, y1: Yard, t: Attempt)
    requires p in t.yard.hoppers && SameItems(y, y1, w) && Carried(y1, t, w, p)
    ensures Carries(y, if t.ok then PutCooldown(Recorded(t.yard, p), p, 8) else t.yard, w, p)
    ensures t.ok <==> CanCarry(y, w, p)
  {
    CanCarrySame(y, y1, w, p);
    PutCooldownAt(Recorded(t.yard, p), w, p, 8);
    CarriesSame(y, y1, t.yard, if t.ok then PutCooldown(Recorded(t.yard, p), p, 8) else t.yard, w, p);
  }

  lemma WorksIf(y: Yard, r: Yard, w: World, p: Pos, ok: bool)
    requires !AnySuckable(y, w, p) && CooldownAt(y, p) <= 1 && Carries(y, r, w, p) && (ok <==> CanCarry(y, w, p))
    requires if ok then Noted(y, r, p, 8, y.transfers + [Transfer(p, y.now)]) else Noted(y, r, p, 0, y.transfers)
    ensures Works(y, r, w, p)
  {
  }

  lemma WorksCarrying(y: Yard, w: World, p: Pos, y1: Yard, t: Attempt)
    requires !AnySuckable(y, w, p) && CooldownAt(y, p) <= 1 && p in t.yard.hoppers
    requires SameItems(Counted(y, p), y1, w) && SameRecord(Counted(y, p), y1) && Carried(y1, t, w, p)
    ensures Works(y, if t.ok then PutCooldown(Recorded(t.yard, p), p, 8) else t.yard, w, p)
  {
    SameOn(y, y1, w, p);
    ItemsCarried(y, w, p, y1, t);
    NotedCarrying(y, w, p, y1, t);
    WorksIf(y, if t.ok then PutCooldown(Recorded(t.yard, p), p, 8) else t.yard, w, p, t.ok);
  }

  lemma HopperWorks(y: Yard, w: World, p: Pos)
    requires At(w, p).id == 154 && At(w, p).meta < 8
    ensures Works(y, HopperTick(y, w, p), w, p)
  {
    var y1 := Counted(y, p);
    CountedAt(y, w, p);
    TickIs(y, w, p);
    var sucked := Suck(y1, p, 0);
    SuckIs(y1, w, p, 0);
    SameBefore(y, y1, sucked.yard, w, p);
    if sucked.ok {
      WorksSucking(y, w, p, sucked.yard);
    } else if CooldownAt(y, p) <= 1 {
      CarryIs(sucked.yard, w, p);
      WorksCarrying(y, w, p, sucked.yard, Carry(sucked.yard, w, p));
    }
  }

  /** A hopper that is off rests, countdown and all. */
  lemma HopperRests(y: Yard, w: World, p: Pos)
    requires At(w, p).id != 154 || At(w, p).meta >= 8
    ensures SameItems(y, HopperTick(y, w, p), w) && SameRecord(y, HopperTick(y, w, p))
  {
    WithHopperSame(y, w, p);
  }
}
