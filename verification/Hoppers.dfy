/** Hoppers: items move one at a time between containers, and whole stacks are sucked in from the
    ground, at most every eight ticks. */
module Hoppers {
  import opened RedstoneWorld
  import opened Items

  const COOLDOWN := 8
  const STACK_LIMIT := 64

  datatype Hopper = Hopper(slots: seq<Stack>, cooldown: nat)

  /** An item lying in the world. */
  datatype Drop = Drop(x: real, y: real, z: real, delay: int, closed: bool, stack: Stack)

  /** One container transfer made by a hopper. */
  datatype Transfer = Transfer(hopper: Pos, tick: nat)

  datatype Yard = Yard(
    hoppers: map<Pos, Hopper>,
    chests: map<Pos, seq<Stack>>,
    drops: seq<Drop>,
    // number of the current tick, and the container transfers made so far
    now: nat,
    transfers: seq<Transfer>)

  // ---------- one item from one row of slots to another ----------

  predicate Accepts(d: Stack, s: Stack) { Empty(d) || (SameType(d, s) && d.count < STACK_LIMIT) }

  /** The first slot from `j` on that takes one more of `s`. */
  function FirstFit(dst: seq<Stack>, s: Stack, j: nat): (k: nat)
    requires j <= |dst|
    ensures j <= k <= |dst|
    ensures forall i | j <= i < k :: !Accepts(dst[i], s)
    ensures k < |dst| ==> Accepts(dst[k], s)
    decreases |dst| - j
  {
    if j == |dst| || Accepts(dst[j], s) then j else FirstFit(dst, s, j + 1)
  }

  predicate Movable(src: seq<Stack>, dst: seq<Stack>, i: nat)
    requires i < |src|
  {
    !Empty(src[i]) && FirstFit(dst, src[i], 0) < |dst|
  }

  /** The first slot from `i` on with an item that fits somewhere. */
  function FirstMovable(src: seq<Stack>, dst: seq<Stack>, i: nat): (k: nat)
    requires i <= |src|
    ensures i <= k <= |src|
    ensures forall j | i <= j < k :: !Movable(src, dst, j)
    ensures k < |src| ==> Movable(src, dst, k)
    decreases |src| - i
  {
    if i == |src| || Movable(src, dst, i) then i else FirstMovable(src, dst, i + 1)
  }

  function OneLess(s: Stack): Stack { if s.count <= 1 then AIR else s.(count := s.count - 1) }

  function OneMore(d: Stack, s: Stack): Stack {
    if Empty(d) then Stack(s.id, 1, s.damage) else d.(count := d.count + 1)
  }

  datatype Moved = Moved(src: seq<Stack>, dst: seq<Stack>, ok: bool)

  function MoveOne(src: seq<Stack>, dst: seq<Stack>): Moved {
    var i := FirstMovable(src, dst, 0);
    if i == |src| then Moved(src, dst, false)
    else
      var j := FirstFit(dst, src[i], 0);
      Moved(src[i := OneLess(src[i])], dst[j := OneMore(dst[j], src[i])], true)
  }

  method TryMoveOneItem(src: seq<Stack>, dst: seq<Stack>) returns (m: Moved)
    ensures m == MoveOne(src, dst)
  {
    for i := 0 to |src|
      invariant FirstMovable(src, dst, 0) == FirstMovable(src, dst, i)
    {
      var s := src[i];
      if !Empty(s) {
        for j := 0 to |dst|
          invariant FirstFit(dst, s, 0) == FirstFit(dst, s, j)
        {
          var d := dst[j];
          if Empty(d) {
            return Moved(src[i := OneLess(s)], dst[j := Stack(s.id, 1, s.damage)], true);
          }
          if SameType(d, s) && d.count < STACK_LIMIT {
            return Moved(src[i := OneLess(s)], dst[j := d.(count := d.count + 1)], true);
          }
        }
      }
    }
    m := Moved(src, dst, false);
  }

  function ItemCount(slots: seq<Stack>): nat {
    if slots == [] then 0
    else ItemCount(slots[..|slots| - 1]) + (if Empty(slots[|slots| - 1]) then 0 else slots[|slots| - 1].count)
  }

  lemma {:induction false} ItemsUpdate(slots: seq<Stack>, i: nat, s: Stack)
    requires i < |slots|
    ensures ItemCount(slots[i := s]) + (if Empty(slots[i]) then 0 else slots[i].count)
            == ItemCount(slots) + (if Empty(s) then 0 else s.count)
  {
    var n := |slots| - 1;
    if i == n {
      assert slots[i := s][..n] == slots[..n];
    } else {
      ItemsUpdate(slots[..n], i, s);
      assert slots[i := s][..n] == slots[..n][i := s];
    }
  }

  /** A move takes exactly one item over, of the type it was, and never lifts a slot above 64. */
  lemma {:induction false} MoveOneMoves(src: seq<Stack>, dst: seq<Stack>)
    ensures var m := MoveOne(src, dst);
            && |m.src| == |src| && |m.dst| == |dst|
            && (forall t :: Total(m.src, t) + Total(m.dst, t) == Total(src, t) + Total(dst, t))
            && (m.ok ==> ItemCount(m.dst) == ItemCount(dst) + 1 && ItemCount(m.src) + 1 == ItemCount(src))
            && (!m.ok ==> m.src == src && m.dst == dst)
            && (forall k | 0 <= k < |dst| :: m.dst[k] == dst[k] || m.dst[k].count <= STACK_LIMIT)
            && (forall k | 0 <= k < |src| :: m.src[k] == src[k] || m.src[k].count < src[k].count)
  {
    var m := MoveOne(src, dst);
    if m.ok {
      var i := FirstMovable(src, dst, 0);
      var j := FirstFit(dst, src[i], 0);
      ItemsUpdate(src, i, OneLess(src[i]));
      ItemsUpdate(dst, j, OneMore(dst[j], src[i]));
      forall t ensures Total(m.src, t) + Total(m.dst, t) == Total(src, t) + Total(dst, t) {
        TotalUpdate(src, i, OneLess(src[i]), t);
        TotalUpdate(dst, j, OneMore(dst[j], src[i]), t);
      }
    }
  }

  /** Nothing moves only when no item fits anywhere. */
  lemma MoveOneTries(src: seq<Stack>, dst: seq<Stack>)
    ensures MoveOne(src, dst).ok <==>
              exists i, j :: 0 <= i < |src| && 0 <= j < |dst| && !Empty(src[i]) && Accepts(dst[j], src[i])
  {
    if exists i, j :: 0 <= i < |src| && 0 <= j < |dst| && !Empty(src[i]) && Accepts(dst[j], src[i]) {
      var i, j :| 0 <= i < |src| && 0 <= j < |dst| && !Empty(src[i]) && Accepts(dst[j], src[i]);
      assert FirstFit(dst, src[i], 0) <= j;
      assert Movable(src, dst, i);
    }
  }

  // ---------- what the ground and the containers hold ----------

  ghost function SumSlots(m: map<Pos, seq<Stack>>, t: Type): nat
    decreases m.Keys
  {
    if m == map[] then 0
    else
      assert m.Keys != {};
      var k :| k in m;
      Total(m[k], t) + SumSlots(m - {k}, t)
  }

  lemma {:induction false} SumRemove(m: map<Pos, seq<Stack>>, k: Pos, t: Type)
    requires k in m
    ensures SumSlots(m, t) == Total(m[k], t) + SumSlots(m - {k}, t)
    decreases m.Keys
  {
    var x :| x in m && SumSlots(m, t) == Total(m[x], t) + SumSlots(m - {x}, t);
    if x != k {
      SumRemove(m - {x}, k, t);
      SumRemove(m - {k}, x, t);
      assert (m - {x}) - {k} == (m - {k}) - {x};
    }
  }

  lemma {:induction false} SumPut(m: map<Pos, seq<Stack>>, k: Pos, slots: seq<Stack>, t: Type)
    ensures SumSlots(m[k := slots], t) + (if k in m then Total(m[k], t) else 0) == SumSlots(m, t) + Total(slots, t)
  {
    var n := m[k := slots];
    SumRemove(n, k, t);
    if k in m {
      SumRemove(m, k, t);
      assert n - {k} == m - {k};
    } else {
      assert n - {k} == m;
    }
  }

  ghost function HopperSlots(m: map<Pos, Hopper>): map<Pos, seq<Stack>> { map k | k in m :: m[k].slots }

  function OnGround(drops: seq<Drop>, t: Type): nat {
    if drops == [] then 0
    else
      var last := drops[|drops| - 1];
      OnGround(drops[..|drops| - 1], t) + (if last.closed then 0 else Count(last.stack, t))
  }

  /** Items of a type in hoppers, in chests and on the ground. */
  ghost function Holdings(y: Yard, t: Type): nat {
    SumSlots(HopperSlots(y.hoppers), t) + SumSlots(y.chests, t) + OnGround(y.drops, t)
  }

  ghost predicate SameHoldings(a: Yard, b: Yard) {
    forall t :: Holdings(a, t) == Holdings(b, t)
  }

  const NEW_HOPPER: Hopper := Hopper([AIR, AIR, AIR, AIR, AIR], 0)

  function NewChest(): seq<Stack> { seq(27, _ => AIR) }

  function WithHopper(y: Yard, p: Pos): Yard {
    if p in y.hoppers then y else y.(hoppers := y.hoppers[p := NEW_HOPPER])
  }

  function WithChest(y: Yard, p: Pos): Yard {
    if p in y.chests then y else y.(chests := y.chests[p := NewChest()])
  }

  function PutSlots(y: Yard, p: Pos, slots: seq<Stack>): Yard
    requires p in y.hoppers
  {
    y.(hoppers := y.hoppers[p := y.hoppers[p].(slots := slots)])
  }

  function PutCooldown(y: Yard, p: Pos, cooldown: nat): Yard
    requires p in y.hoppers
  {
    y.(hoppers := y.hoppers[p := y.hoppers[p].(cooldown := cooldown)])
  }

  lemma {:induction false} PutSlotsHolds(y: Yard, p: Pos, slots: seq<Stack>, t: Type)
    requires p in y.hoppers
    ensures Holdings(PutSlots(y, p, slots), t) + Total(y.hoppers[p].slots, t) == Holdings(y, t) + Total(slots, t)
  {
    SumPut(HopperSlots(y.hoppers), p, slots, t);
    assert HopperSlots(PutSlots(y, p, slots).hoppers) == HopperSlots(y.hoppers)[p := slots];
  }

  lemma PutCooldownHolds(y: Yard, p: Pos, cooldown: nat)
    requires p in y.hoppers
    ensures SameHoldings(y, PutCooldown(y, p, cooldown))
  {
    assert HopperSlots(PutCooldown(y, p, cooldown).hoppers) == HopperSlots(y.hoppers);
  }

  lemma WithHopperHolds(y: Yard, p: Pos)
    ensures SameHoldings(y, WithHopper(y, p))
  {
    if p !in y.hoppers {
      forall t ensures Holdings(WithHopper(y, p), t) == Holdings(y, t) {
        SumPut(HopperSlots(y.hoppers), p, NEW_HOPPER.slots, t);
        TotalZero(NEW_HOPPER.slots, t);
        assert HopperSlots(WithHopper(y, p).hoppers) == HopperSlots(y.hoppers)[p := NEW_HOPPER.slots];
      }
    }
  }

  lemma WithChestHolds(y: Yard, p: Pos)
    ensures SameHoldings(y, WithChest(y, p))
  {
    if p !in y.chests {
      forall t ensures Holdings(WithChest(y, p), t) == Holdings(y, t) {
        SumPut(y.chests, p, NewChest(), t);
        TotalZero(NewChest(), t);
      }
    }
  }

  // ---------- container transfers ----------

  /** A yard after an attempt, and whether an item moved. */
  datatype Attempt = Attempt(yard: Yard, ok: bool)

  function FromChest(y: Yard, chest: Pos, p: Pos): Attempt
    requires p in y.hoppers
  {
    var y1 := WithChest(y, chest);
    var m := MoveOne(y1.chests[chest], y1.hoppers[p].slots);
    Attempt(PutSlots(y1, p, m.dst).(chests := y1.chests[chest := m.src]), m.ok)
  }

  function IntoChest(y: Yard, p: Pos, chest: Pos): Attempt
    requires p in y.hoppers
  {
    var y1 := WithChest(y, chest);
    var m := MoveOne(y1.hoppers[p].slots, y1.chests[chest]);
    Attempt(PutSlots(y1, p, m.src).(chests := y1.chests[chest := m.dst]), m.ok)
  }

  function BetweenHoppers(y: Yard, from: Pos, to: Pos): Attempt
    requires from != to && (from in y.hoppers || to in y.hoppers)
  {
    var y1 := WithHopper(WithHopper(y, from), to);
    var m := MoveOne(y1.hoppers[from].slots, y1.hoppers[to].slots);
    Attempt(PutSlots(PutSlots(y1, from, m.src), to, m.dst), m.ok)
  }

  function Above(p: Pos): Pos { p.(y := p.y + 1) }

  /** The cell a hopper pushes into. */
  function Faced(p: Pos, meta: nibble): Pos {
    match meta % 8
    case 2 => p.(z := p.z - 1)
    case 3 => p.(z := p.z + 1)
    case 4 => p.(x := p.x - 1)
    case 5 => p.(x := p.x + 1)
    case _ => p.(y := p.y - 1)
  }

  function Pull(y: Yard, w: World, p: Pos): (a: Attempt)
    requires p in y.hoppers
    ensures y.hoppers.Keys <= a.yard.hoppers.Keys
  {
    var q := Above(p);
    if q.y >= HEIGHT then Attempt(y, false)
    else if At(w, q).id == CHEST then FromChest(y, q, p)
    else if At(w, q).id == HOPPER then BetweenHoppers(y, q, p)
    else Attempt(y, false)
  }

  function Push(y: Yard, w: World, p: Pos): (a: Attempt)
    requires p in y.hoppers
    ensures y.hoppers.Keys <= a.yard.hoppers.Keys
  {
    var q := Faced(p, At(w, p).meta);
    if !(0 <= q.y < HEIGHT) then Attempt(y, false)
    else if At(w, q).id == CHEST then IntoChest(y, p, q)
    else if At(w, q).id == HOPPER then BetweenHoppers(y, p, q)
    else Attempt(y, false)
  }

  function Carry(y: Yard, w: World, p: Pos): (a: Attempt)
    requires p in y.hoppers
    ensures y.hoppers.Keys <= a.yard.hoppers.Keys
  {
    var a := Pull(y, w, p);
    if a.ok then a else Push(a.yard, w, p)
  }

  // ---------- suction ----------

  /** Within reach: three quarters of a block to each side, a little below to well above the block. */
  predicate InReach(p: Pos, d: Drop) {
    var x, y, z := p.x as real, p.y as real, p.z as real;
    && x + 0.5 - 0.75 <= d.x <= x + 0.5 + 0.75
    && y + 0.25 <= d.y <= y + 1.6
    && z + 0.5 - 0.75 <= d.z <= z + 0.5 + 0.75
  }

  predicate Takeable(p: Pos, d: Drop) { !d.closed && d.delay <= 0 && !Empty(d.stack) && InReach(p, d) }

  /** As many items of a stack as the slots take. */
  function Absorb(s: Stack, slots: seq<Stack>): (r: (Stack, seq<Stack>))
    decreases s.count
  {
    if Empty(s) then (s, slots)
    else
      var m := MoveOne([s], slots);
      if !m.ok then (s, slots) else Absorb(m.src[0], m.dst)
  }

  function AfterAbsorbing(d: Drop, rest: Stack): Drop {
    if Empty(rest) then d.(closed := true) else d.(stack := rest)
  }

  /** The first drop in reach that the hopper takes something of. */
  function Suck(y: Yard, p: Pos, i: nat): (a: Attempt)
    requires p in y.hoppers && i <= |y.drops|
    ensures a.yard.hoppers.Keys == y.hoppers.Keys
    decreases |y.drops| - i
  {
    if i == |y.drops| then Attempt(y, false)
    else if !Takeable(p, y.drops[i]) then Suck(y, p, i + 1)
    else
      var (rest, slots) := Absorb(y.drops[i].stack, y.hoppers[p].slots);
      if rest == y.drops[i].stack then Suck(y, p, i + 1)
      else Attempt(PutSlots(y, p, slots).(drops := y.drops[i := AfterAbsorbing(y.drops[i], rest)]), true)
  }

  // ---------- ticks ----------

  function HopperTick(y: Yard, w: World, p: Pos): Yard {
    if At(w, p).id != HOPPER then y
    else
      var y0 := WithHopper(y, p);
      if At(w, p).meta >= 8 then y0
      else
        var before := y0.hoppers[p].cooldown;
        var cooldown := if before > 0 then before - 1 else 0;
        var sucked := Suck(PutCooldown(y0, p, cooldown), p, 0);
        var carried := if cooldown == 0 && !sucked.ok then Carry(sucked.yard, w, p) else Attempt(sucked.yard, false);
        var y1 := carried.yard;
        var y2 := if carried.ok then y1.(transfers := y1.transfers + [Transfer(p, y1.now)]) else y1;
        if sucked.ok || carried.ok then PutCooldown(y2, p, COOLDOWN) else y2
  }

  function HopperTicks(y: Yard, w: World, order: seq<Pos>): Yard
    decreases |order|
  {
    if order == [] then y else HopperTicks(HopperTick(y, w, order[0]), w, order[1..])
  }

  /** One round over the hoppers there are, in any order. */
  datatype Round = Round(world: World, order: seq<Pos>)

  ghost predicate Proper(y: Yard, r: Round) {
    && (forall i, j | 0 <= i < j < |r.order| :: r.order[i] != r.order[j])
    && (forall p | p in r.order :: p in y.hoppers)
  }

  function Tick(y: Yard, r: Round): Yard {
    var y1 := HopperTicks(y, r.world, r.order);
    y1.(now := y1.now + 1)
  }

  function Ticks(y: Yard, rs: seq<Round>): Yard
    decreases |rs|
  {
    if rs == [] then y else Ticks(Tick(y, rs[0]), rs[1..])
  }
}
