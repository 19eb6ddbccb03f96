/** Where redstone power goes, in coordinates: what feeds a wire, which cell a repeater or comparator
    listens at and which it feeds, and which cells decide over a lamp, a rail and a hopper. */
module RedstoneDirections {
  import opened RedstoneWorld
  import opened RedstoneWires
  import opened RedstoneUpdate
  import opened RedstoneResults

  /** The cell a diode listens at: south, west, north or east of it. */
  function Behind(p: Pos, meta: nibble): Pos {
    if meta % 4 == 0 then Pos(p.x, p.y, p.z + 1)
    else if meta % 4 == 1 then Pos(p.x - 1, p.y, p.z)
    else if meta % 4 == 2 then Pos(p.x, p.y, p.z - 1)
    else Pos(p.x + 1, p.y, p.z)
  }

  /** The cell a diode feeds, on its other side. */
  function Ahead(p: Pos, meta: nibble): Pos {
    if meta % 4 == 0 then Pos(p.x, p.y, p.z - 1)
    else if meta % 4 == 1 then Pos(p.x + 1, p.y, p.z)
    else if meta % 4 == 2 then Pos(p.x, p.y, p.z + 1)
    else Pos(p.x - 1, p.y, p.z)
  }

  function Shifted(p: Pos, dx: int, dy: int, dz: int): Pos { Pos(p.x + dx, p.y + dy, p.z + dz) }

  lemma FacesAre(p: Pos, meta: nibble)
    ensures Beside(p, InSide(meta)) == Behind(p, meta) && Beside(p, OutSide(meta)) == Ahead(p, meta)
  {
  }

  /** A block placed takes its cell, unless the cell lies outside the world, or would be emptied and is
      bedrock or at the bottom; no other cell changes. */
  lemma PlacedWhere(w: World, p: Pos, c: Cell, q: Pos)
    ensures At(SetBlock(w, p, c), q) ==
              if q == p && 0 <= p.y < 128 && !(c.id == 0 && (p.y == 0 || At(w, p).id == 7)) then c else At(w, q)
  {
  }

  // ---------- sources ----------

  /** A block of redstone, a lit torch, a lever thrown, a detector rail under a cart, a plate pressed. */
  predicate Strong(c: Cell) {
    || c.id == 152 || c.id == 76 || (c.id == 69 && c.meta >= 8) || (c.id == 28 && c.meta >= 8)
    || ((c.id == 70 || c.id == 72 || c.id == 147 || c.id == 148) && c.meta % 2 == 1)
  }

  /** A daylight sensor, a repeater or a comparator that is on. */
  predicate Active(w: World, c: Cell) { (c.id == 151 && !w.nether) || c.id == 94 || c.id == 150 }

  lemma SourcesAre(w: World, p: Pos)
    requires 0 <= p.y < 128
    ensures SourcePower(w, p) > 0 <==> Strong(At(w, p)) || Active(w, At(w, p))
    ensures Strong(At(w, p)) || At(w, p).id == 94 ==> SourcePower(w, p) == 15
    ensures At(w, p).id == 151 && !w.nether ==> SourcePower(w, p) == 5 + p.y / 16
  {
  }

  /** What the block at `q` gives the wire at `p`, one of its six neighbours, is something exactly if it
      is a source, and, for a repeater or comparator, if `p` lies ahead of it. */
  lemma GivesWhere(w: World, q: Pos, p: Pos)
    requires 0 <= q.y < 128
    ensures var c := At(w, q);
            Given(w, q, p) > 0
            <==> Strong(c) || (c.id == 151 && !w.nether) || ((c.id == 94 || c.id == 150) && p == Ahead(q, c.meta))
    ensures Strong(At(w, q)) || (At(w, q).id == 94 && p == Ahead(q, At(w, q).meta)) ==> Given(w, q, p) == 15
  {
    FacesAre(q, At(w, q).meta);
    SourcesAre(w, q);
  }

  /** What a comparator reads in a cell: how full a chest is, the power of wire, 15 from a source. */
  function Reading(w: World, q: Pos): int {
    var c := At(w, q);
    if c.id == 54 then (if q in w.chests then Fullness(ItemsIn(w.chests[q]), |w.chests[q]|) else 0)
    else if c.id == 55 then c.meta
    else if c.id == 152 || c.id == 76 || (c.id == 69 && c.meta >= 8) || c.id == 94 then 15
    else 0
  }

  function Fullness(items: nat, slots: nat): int {
    if items == 0 || slots == 0 then 0
    else if 1 + items * 14 / (slots * 64) > 15 then 15
    else 1 + items * 14 / (slots * 64)
  }

  /** What the block at `q` gives the wire at `p`. */
  function Gift(w: World, q: Pos, p: Pos): int {
    var c := At(w, q);
    if !(0 <= q.y < 128) then 0
    else if Strong(c) then 15
    else if c.id == 151 then (if w.nether then 0 else 5 + q.y / 16)
    else if c.id == 94 then (if p == Ahead(q, c.meta) then 15 else 0)
    else if c.id == 150 && p == Ahead(q, c.meta) then
      (if Reading(w, Behind(q, c.meta)) < 1 then 1 else Reading(w, Behind(q, c.meta)))
    else 0
  }

  lemma ReadingIs(w: World, p: Pos, meta: nibble)
    ensures ComparatorInput(w, p, meta) == Reading(w, Behind(p, meta))
  {
    FacesAre(p, meta);
  }

  lemma GiftIs(w: World, q: Pos, p: Pos)
    ensures Given(w, q, p) == Gift(w, q, p)
  {
    FacesAre(q, At(w, q).meta);
    ReadingIs(w, q, At(w, q).meta);
  }

  ghost predicate Feeds(w: World, q: Pos, p: Pos) {
    && 0 <= q.y < 128
    && (var c := At(w, q);
        Strong(c) || (c.id == 151 && !w.nether) || ((c.id == 94 || c.id == 150) && p == Ahead(q, c.meta)))
  }

  ghost predicate FedFromBeside(w: World, p: Pos) {
    || Feeds(w, Shifted(p, 1, 0, 0), p) || Feeds(w, Shifted(p, -1, 0, 0), p) || Feeds(w, Shifted(p, 0, 1, 0), p)
    || Feeds(w, Shifted(p, 0, -1, 0), p) || Feeds(w, Shifted(p, 0, 0, 1), p) || Feeds(w, Shifted(p, 0, 0, -1), p)
  }

  lemma SidesAre(p: Pos, q: Pos)
    ensures q in Sides(p) <==>
      || q == Shifted(p, 1, 0, 0) || q == Shifted(p, -1, 0, 0) || q == Shifted(p, 0, 1, 0)
      || q == Shifted(p, 0, -1, 0) || q == Shifted(p, 0, 0, 1) || q == Shifted(p, 0, 0, -1)
  {
    var s := Sides(p);
    assert s[0] == Shifted(p, 1, 0, 0) && s[1] == Shifted(p, -1, 0, 0) && s[2] == Shifted(p, 0, 1, 0)
        && s[3] == Shifted(p, 0, -1, 0) && s[4] == Shifted(p, 0, 0, 1) && s[5] == Shifted(p, 0, 0, -1);
  }

  lemma FeedsIsGiven(w: World, q: Pos, p: Pos)
    ensures Feeds(w, q, p) <==> Given(w, q, p) > 0
  {
    if 0 <= q.y < 128 { GivesWhere(w, q, p); }
  }

  lemma SeedsAre(w: World, b: Box, p: Pos)
    requires Inside(b, p) && Wire(w, p)
    ensures Seed(w, b, p) > 0 <==> FedFromBeside(w, p)
  {
    var s := Sides(p);
    MostGivenIsMaximum(w, s, p);
    forall q ensures q in s && Feeds(w, q, p) ==> FedFromBeside(w, p)
      ensures Feeds(w, q, p) <==> Given(w, q, p) > 0 {
      SidesAre(p, q);
      FeedsIsGiven(w, q, p);
    }
    assert s[0] == Shifted(p, 1, 0, 0) && s[1] == Shifted(p, -1, 0, 0) && s[2] == Shifted(p, 0, 1, 0)
        && s[3] == Shifted(p, 0, -1, 0) && s[4] == Shifted(p, 0, 0, 1) && s[5] == Shifted(p, 0, 0, -1);
  }

  /** After a recompute a wire of the box next to a strong source, or ahead of a repeater that is on,
      carries 15. */
  lemma WireAtSource(w: World, b: Box, p: Pos, dx: int, dy: int, dz: int)
    requires Inside(b, p) && At(w, p).id == 55
    requires (dx, dy, dz) in {(1, 0, 0), (-1, 0, 0), (0, 1, 0), (0, -1, 0), (0, 0, 1), (0, 0, -1)}
    requires var q := Shifted(p, dx, dy, dz);
             0 <= q.y < 128 && (Strong(At(w, q)) || (At(w, q).id == 94 && p == Ahead(q, At(w, q).meta)))
    ensures At(Recomputed(w, b, true).world, p) == Cell(55, 15)
  {
    var q := Shifted(p, dx, dy, dz);
    WiresAndRepeaters(w, b);
    SidesAre(p, q);
    MostGivenIsMaximum(w, Sides(p), p);
    GivesWhere(w, q, p);
    PowerIsCarried(w, b, p);
    assert Carries(w, b, 15, p);
  }

  /** The twelve cells from which wire leads to `p`. */
  ghost predicate LoneWire(w: World, p: Pos) {
    forall dy | -1 <= dy <= 1 ::
      && At(w, Shifted(p, 1, dy, 0)).id != 55 && At(w, Shifted(p, -1, dy, 0)).id != 55
      && At(w, Shifted(p, 0, dy, 1)).id != 55 && At(w, Shifted(p, 0, dy, -1)).id != 55
  }

  /** A wire to which no wire leads carries power exactly if one of its six neighbours feeds it. */
  lemma LoneWireIsFed(w: World, b: Box, p: Pos)
    requires Inside(b, p) && At(w, p).id == 55 && LoneWire(w, p)
    ensures var c := At(Recomputed(w, b, true).world, p); c.id == 55 && (c.meta > 0 <==> FedFromBeside(w, p))
  {
    WiresAndRepeaters(w, b);
    SeedsAre(w, b, p);
    PowerIsCarried(w, b, p);
    forall q, v | Leads(q, p) && Carries(w, b, v, q) ensures false {
      NotLed(w, q, p);
    }
    assert Carries(w, b, 1, p) <==> Seed(w, b, p) >= 1;
  }

  lemma NotLed(w: World, q: Pos, p: Pos)
    requires LoneWire(w, p) && Leads(q, p)
    ensures !Wire(w, q)
  {
    var dy := q.y - p.y;
    assert q == Shifted(p, 1, dy, 0) || q == Shifted(p, -1, dy, 0)
        || q == Shifted(p, 0, dy, 1) || q == Shifted(p, 0, dy, -1);
  }

  predicate OneBeside(dx: int, dy: int, dz: int) {
    (dx, dy, dz) in {(1, 0, 0), (-1, 0, 0), (0, 1, 0), (0, -1, 0), (0, 0, 1), (0, 0, -1)}
  }

  /** After a recompute a wire of the box carries at least what any of its six neighbours gives it. */
  lemma WireTakes(w: World, b: Box, p: Pos, dx: int, dy: int, dz: int)
    requires Inside(b, p) && At(w, p).id == 55 && OneBeside(dx, dy, dz)
    ensures At(Recomputed(w, b, true).world, p).meta >= Gift(w, Shifted(p, dx, dy, dz), p)
  {
    var q := Shifted(p, dx, dy, dz);
    WiresAndRepeaters(w, b);
    SidesAre(p, q);
    MostGivenIsMaximum(w, Sides(p), p);
    GiftIs(w, q, p);
    PowerIsCarried(w, b, p);
    assert Gift(w, q, p) > 0 ==> Carries(w, b, Gift(w, q, p), p);
  }

  lemma LonePower(w: World, b: Box, p: Pos)
    requires Inside(b, p) && Wire(w, p) && LoneWire(w, p)
    ensures Power(w, b, p) == Seed(w, b, p)
  {
    PowerIsCarried(w, b, p);
    SeedRange(w, b, p);
    var v := Power(w, b, p);
    forall q, u | Leads(q, p) && Carries(w, b, u, q) ensures false {
      NotLed(w, q, p);
    }
    assert v > 0 ==> Carries(w, b, v, p);
    assert Seed(w, b, p) > 0 ==> Carries(w, b, Seed(w, b, p), p);
  }

  lemma {:induction false} SideAt(p: Pos, q: Pos) returns (dx: int, dy: int, dz: int)
    requires q in Sides(p)
    ensures OneBeside(dx, dy, dz) && q == Shifted(p, dx, dy, dz)
  {
    SidesAre(p, q);
    dx, dy, dz := q.x - p.x, q.y - p.y, q.z - p.z;
  }

  lemma {:induction false} BestGiver(w: World, p: Pos) returns (dx: int, dy: int, dz: int)
    requires AdjacentPower(w, p) > 0
    ensures OneBeside(dx, dy, dz) && Gift(w, Shifted(p, dx, dy, dz), p) == AdjacentPower(w, p)
  {
    var q := TheGiver(w, Sides(p), p);
    GiftIs(w, q, p);
    dx, dy, dz := SideAt(p, q);
  }

  lemma {:induction false} TheGiver(w: World, qs: seq<Pos>, p: Pos) returns (q: Pos)
    requires MostGiven(w, qs, p) > 0
    ensures q in qs && Given(w, q, p) == MostGiven(w, qs, p)
  {
    MostGivenIsMaximum(w, qs, p);
    q :| q in qs && Given(w, q, p) == MostGiven(w, qs, p);
  }

  lemma WireMetaIs(w: World, b: Box, p: Pos)
    requires Inside(b, p) && Wire(w, p)
    ensures At(Recomputed(w, b, true).world, p).meta == Power(w, b, p)
  {
    WiresAndRepeaters(w, b);
  }

  /** And if no wire leads to it, it carries exactly what one of them gives, or nothing. */
  lemma {:induction false} LoneWireTakes(w: World, b: Box, p: Pos) returns (dx: int, dy: int, dz: int)
    requires Inside(b, p) && At(w, p).id == 55 && LoneWire(w, p)
    ensures var v := At(Recomputed(w, b, true).world, p).meta;
            v > 0 ==> OneBeside(dx, dy, dz) && v == Gift(w, Shifted(p, dx, dy, dz), p)
  {
    WireMetaIs(w, b, p);
    LonePower(w, b, p);
    dx, dy, dz := 0, 0, 0;
    if AdjacentPower(w, p) > 0 { dx, dy, dz := BestGiver(w, p); }
  }

  /** One block sideways, on the same level or one up or down. */
  predicate OneStep(dx: int, dy: int, dz: int) {
    (dx, dz) in {(1, 0), (-1, 0), (0, 1), (0, -1)} && -1 <= dy <= 1
  }

  lemma StepsLead(p: Pos, q: Pos)
    ensures Leads(p, q) <==> OneStep(q.x - p.x, q.y - p.y, q.z - p.z)
  {
  }

  /** Between two wires of the box one step apart, power falls by one at most; and a wire that carries
      power and is fed by no neighbour has a wire one step away that carries one more, or lies outside. */
  lemma PowerFallsByOne(w: World, b: Box, p: Pos, dx: int, dy: int, dz: int)
    requires OneStep(dx, dy, dz) && Inside(b, p) && Inside(b, Shifted(p, dx, dy, dz))
    requires At(w, p).id == 55 && At(w, Shifted(p, dx, dy, dz)).id == 55
    ensures var t := Recomputed(w, b, true).world; At(t, Shifted(p, dx, dy, dz)).meta >= At(t, p).meta - 1
  {
    StepsLead(p, Shifted(p, dx, dy, dz));
    WiresAndRepeaters(w, b);
    PowerStep(w, b, p, Shifted(p, dx, dy, dz));
  }

  lemma {:induction false} PowerComesFrom(w: World, b: Box, p: Pos) returns (dx: int, dy: int, dz: int)
    requires Inside(b, p) && At(w, p).id == 55 && At(Recomputed(w, b, true).world, p).meta > 0 && !FedFromBeside(w, p)
    ensures OneStep(dx, dy, dz) && At(w, Shifted(p, dx, dy, dz)).id == 55
    ensures var t := Recomputed(w, b, true).world;
            Inside(b, Shifted(p, dx, dy, dz)) ==> At(t, Shifted(p, dx, dy, dz)).meta == At(t, p).meta + 1
  {
    WiresAndRepeaters(w, b);
    SeedsAre(w, b, p);
    PowerIsCarried(w, b, p);
    var s := Power(w, b, p);
    assert Carries(w, b, s, p);
    var q :| Leads(q, p) && Carries(w, b, s + 1, q);
    PowerIsCarried(w, b, q);
    PowerStep(w, b, q, p);
    StepsLead(q, p);
    dx, dy, dz := q.x - p.x, q.y - p.y, q.z - p.z;
    assert q == Shifted(p, dx, dy, dz);
  }

  // ---------- what powers a cell ----------

  ghost predicate LiveWire(w: World, p: Pos) { At(w, p).id == 55 && At(w, p).meta > 0 }

  ghost predicate LiveAtLevel(w: World, p: Pos, dy: int) {
    || LiveWire(w, Shifted(p, 0, dy, 0)) || LiveWire(w, Shifted(p, 1, dy, 0)) || LiveWire(w, Shifted(p, -1, dy, 0))
    || LiveWire(w, Shifted(p, 0, dy, 1)) || LiveWire(w, Shifted(p, 0, dy, -1))
  }

  /** A cell has power: a source stands in it, or wire carries power in it, above, below, or beside it on
      one of three levels. */
  ghost predicate HasPower(w: World, p: Pos) {
    || (0 <= p.y < 128 && (Strong(At(w, p)) || Active(w, At(w, p))))
    || LiveAtLevel(w, p, -1) || LiveAtLevel(w, p, 0) || LiveAtLevel(w, p, 1)
  }

  lemma {:induction false} LoudestIsLive(w: World, qs: seq<Pos>)
    ensures Loudest(w, qs) > 0 <==> exists i | 0 <= i < |qs| :: LiveWire(w, qs[i])
  {
    if qs != [] {
      var front := qs[..|qs| - 1];
      LoudestIsLive(w, front);
      LoudestIsNatural(w, front);
      assert forall i | 0 <= i < |front| :: front[i] == qs[i];
    }
  }

  lemma AroundIsNear(w: World, p: Pos, i: nat)
    requires i < |Around(p)| && LiveWire(w, Around(p)[i])
    ensures LiveAtLevel(w, p, -1) || LiveAtLevel(w, p, 0) || LiveAtLevel(w, p, 1)
  {
    var q := Around(p)[i];
    var dy := q.y - p.y;
    assert q == Shifted(p, 0, dy, 0) || q == Shifted(p, 1, dy, 0) || q == Shifted(p, -1, dy, 0)
        || q == Shifted(p, 0, dy, 1) || q == Shifted(p, 0, dy, -1);
  }

  lemma {:induction false} NearIsAround(w: World, p: Pos, dy: int) returns (i: nat)
    requires -1 <= dy <= 1 && LiveAtLevel(w, p, dy)
    ensures i < |Around(p)| && LiveWire(w, Around(p)[i])
  {
    var up := if dy == 0 then 0 else if dy == 1 then 1 else 2;
    if LiveWire(w, Shifted(p, 0, dy, 0)) {
      i := if dy == 0 then 0 else if dy == 1 then 13 else 14;
    } else if LiveWire(w, Shifted(p, 1, dy, 0)) {
      i := 1 + up;
    } else if LiveWire(w, Shifted(p, -1, dy, 0)) {
      i := 4 + up;
    } else if LiveWire(w, Shifted(p, 0, dy, 1)) {
      i := 7 + up;
    } else {
      i := 10 + up;
    }
  }

  lemma PoweredWhere(w: World, p: Pos)
    ensures PoweredAt(w, p) > 0 <==> HasPower(w, p)
  {
    LoudestIsLive(w, Around(p));
    LoudestIsNatural(w, Around(p));
    if 0 <= p.y < 128 { SourcesAre(w, p); }
    if i :| 0 <= i < |Around(p)| && LiveWire(w, Around(p)[i]) { AroundIsNear(w, p, i); }
    if LiveAtLevel(w, p, -1) { var i := NearIsAround(w, p, -1); }
    if LiveAtLevel(w, p, 0) { var i := NearIsAround(w, p, 0); }
    if LiveAtLevel(w, p, 1) { var i := NearIsAround(w, p, 1); }
  }

  // ---------- repeaters ----------

  /** With a schedule list and no comparator in or next to the box, the flip of a repeater is put off
      exactly when its state disagrees with the power, in the new world, of the cell behind it; and then
      to the other state, with its own setting, for two to eight ticks. */
  lemma RepeaterListens(w: World, b: Box, p: Pos)
    requires NoComparators(w, b) && Inside(b, p) && (At(w, p).id == 93 || At(w, p).id == 94)
    ensures var s, c := Recomputed(w, b, true), At(w, p);
            var on := HasPower(s.world, Behind(p, c.meta));
            && ((exists e :: e in s.due && e.pos == p) <==> (c.id == 94) != on)
            && (forall e | e in s.due && e.pos == p ::
                  e == Schedule(p, if on then 94 else 93, c.meta, 2 * (c.meta / 4 + 1)))
  {
    var v, s, c := WiresWritten(w, b).world, Recomputed(w, b, true), At(w, p);
    SchedulesAreRight(w, b);
    WrittenWires(w, b);
    FirstPassSettles(w, b);
    PowerAgrees(v, s.world);
    FacesAre(p, c.meta);
    PoweredWhere(s.world, Behind(p, c.meta));
    DiodeFaces(p, c.meta);
    assert At(v, p) == c;
  }

  // ---------- comparators ----------

  /** The cell is a chest with an item, wire that carries power, a block of redstone, a lit torch, a lever
      thrown, or a repeater that is on. */
  ghost predicate Readable(w: World, q: Pos) {
    var c := At(w, q);
    || (c.id == 54 && q in w.chests && exists i | 0 <= i < |w.chests[q]| :: w.chests[q][i] > 0)
    || (c.id == 55 && c.meta > 0)
    || c.id == 152 || c.id == 76 || (c.id == 69 && c.meta >= 8) || c.id == 94
  }

  lemma {:induction false} SomeItem(counts: seq<nat>)
    ensures ItemsIn(counts) > 0 <==> exists i | 0 <= i < |counts| :: counts[i] > 0
  {
    if counts != [] {
      var front := counts[..|counts| - 1];
      SomeItem(front);
      assert forall i | 0 <= i < |front| :: front[i] == counts[i];
    }
  }

  lemma InputIsReadable(w: World, p: Pos, meta: nibble)
    ensures ComparatorInput(w, p, meta) > 0 <==> Readable(w, Behind(p, meta))
  {
    var q := Behind(p, meta);
    FacesAre(p, meta);
    if q in w.chests {
      ChestRange(w.chests[q]);
      SomeItem(w.chests[q]);
    }
  }

  /** The blocks the second pass writes. */
  predicate Written(id: int) { id in {27, 123, 124, 126, 149, 150, 154} }

  ghost predicate ReadsSame(a: World, b: World) {
    && a.chests == b.chests
    && forall p :: At(a, p) == At(b, p) || (Written(At(a, p).id as int) && Written(At(b, p).id as int))
  }

  lemma ReadableSame(a: World, b: World, q: Pos)
    requires ReadsSame(a, b)
    ensures Readable(a, q) <==> Readable(b, q)
  {
  }

  /** The comparator at `p`, if any, is on exactly when there is something to read behind it. */
  ghost predicate Reads(w: World, p: Pos) {
    var c := At(w, p);
    c.id == 149 || c.id == 150 ==> (c.id == 150 <==> Readable(w, Behind(p, c.meta)))
  }

  lemma VisitReads(s: Pass, p: Pos)
    requires 0 <= p.y < 128
    ensures var t := Visit(s, p, true).world;
            && ReadsSame(s.world, t)
            && (forall q | q != p :: At(t, q) == At(s.world, q))
            && (IsComparator(At(s.world, p).id) <==> IsComparator(At(t, p).id))
            && (IsComparator(At(t, p).id) ==> At(t, p).meta == At(s.world, p).meta)
            && Reads(t, p)
  {
    var c, t := At(s.world, p), Visit(s, p, true).world;
    InputIsReadable(s.world, p, c.meta);
    assert ReadsSame(s.world, t);
    ReadableSame(s.world, t, Behind(p, c.meta));
  }

  lemma {:induction false} VisitAllReads(s: Pass, ps: seq<Pos>)
    requires forall p | p in ps :: 0 <= p.y < 128
    ensures var t := VisitAll(s, ps, true).world;
            && ReadsSame(s.world, t)
            && (forall q | IsComparator(At(s.world, q).id) ::
                  IsComparator(At(t, q).id) && At(t, q).meta == At(s.world, q).meta)
            && (forall q | q in ps || Reads(s.world, q) :: Reads(t, q))
    decreases |ps|
  {
    if ps != [] {
      var p, next := ps[0], Visit(s, ps[0], true);
      assert p in ps && forall q | q in ps[1..] :: q in ps;
      VisitReads(s, p);
      VisitAllReads(next, ps[1..]);
      forall q | q in ps || Reads(s.world, q) ensures q in ps[1..] || Reads(next.world, q) {
        if q != p { ReadableSame(s.world, next.world, Behind(q, At(s.world, q).meta)); }
      }
    }
  }

  /** After a recompute every comparator of the box, with its setting as before, is on exactly when there
      is something to read in the cell behind it. */
  lemma ComparatorsRead(w: World, b: Box)
    ensures var t := Recomputed(w, b, true).world;
            forall p | Inside(b, p) && (At(w, p).id == 149 || At(w, p).id == 150) ::
              At(t, p) == Cell(if Readable(t, Behind(p, At(w, p).meta)) then 150 else 149, At(w, p).meta)
  {
    CellsAreInside(b);
    WrittenWires(w, b);
    VisitAllReads(WiresWritten(w, b), Cells(b));
  }

  // ---------- lamps, rails, hoppers ----------

  lemma SidesNamed(on: Pos -> bool, p: Pos)
    ensures var beside := || on(Shifted(p, 1, 0, 0)) || on(Shifted(p, -1, 0, 0))
                          || on(Shifted(p, 0, 0, 1)) || on(Shifted(p, 0, 0, -1));
            var above, below := on(Shifted(p, 0, 1, 0)), on(Shifted(p, 0, -1, 0));
            && ((exists q | q in LampSides(p) :: on(q)) <==> on(p) || above || below || beside)
            && ((exists q | q in RailSides(p) :: on(q)) <==> on(p) || below || beside)
            && ((exists q | q in HopperSides(p) :: on(q)) <==> on(p) || above || beside)
  {
    var a, r, h := LampSides(p), RailSides(p), HopperSides(p);
    assert a[0] == p && a[1] == Shifted(p, 0, 1, 0) && a[2] == Shifted(p, 0, -1, 0) && a[3] == Shifted(p, 1, 0, 0)
        && a[4] == Shifted(p, -1, 0, 0) && a[5] == Shifted(p, 0, 0, 1) && a[6] == Shifted(p, 0, 0, -1);
    assert r[0] == p && r[1] == Shifted(p, 0, -1, 0) && r[2] == Shifted(p, 1, 0, 0)
        && r[3] == Shifted(p, -1, 0, 0) && r[4] == Shifted(p, 0, 0, 1) && r[5] == Shifted(p, 0, 0, -1);
    assert h[0] == p && h[1] == Shifted(p, 0, 1, 0) && h[2] == Shifted(p, 1, 0, 0)
        && h[3] == Shifted(p, -1, 0, 0) && h[4] == Shifted(p, 0, 0, 1) && h[5] == Shifted(p, 0, 0, -1);
  }

  ghost predicate PowerBeside(w: World, p: Pos) {
    || HasPower(w, Shifted(p, 1, 0, 0)) || HasPower(w, Shifted(p, -1, 0, 0))
    || HasPower(w, Shifted(p, 0, 0, 1)) || HasPower(w, Shifted(p, 0, 0, -1))
  }

  ghost predicate PowerAbove(w: World, p: Pos) { HasPower(w, Shifted(p, 0, 1, 0)) }

  ghost predicate PowerBelow(w: World, p: Pos) { HasPower(w, Shifted(p, 0, -1, 0)) }

  lemma PowersNamed(w: World, p: Pos)
    ensures PoweredAt(w, p) > 0 <==> HasPower(w, p)
    ensures PoweredAt(w, Shifted(p, 0, 1, 0)) > 0 <==> PowerAbove(w, p)
    ensures PoweredAt(w, Shifted(p, 0, -1, 0)) > 0 <==> PowerBelow(w, p)
    ensures (|| PoweredAt(w, Shifted(p, 1, 0, 0)) > 0 || PoweredAt(w, Shifted(p, -1, 0, 0)) > 0
             || PoweredAt(w, Shifted(p, 0, 0, 1)) > 0 || PoweredAt(w, Shifted(p, 0, 0, -1)) > 0) <==> PowerBeside(w, p)
  {
    PoweredWhere(w, p);
    PoweredWhere(w, Shifted(p, 0, 1, 0));
    PoweredWhere(w, Shifted(p, 0, -1, 0));
    PoweredWhere(w, Shifted(p, 1, 0, 0));
    PoweredWhere(w, Shifted(p, -1, 0, 0));
    PoweredWhere(w, Shifted(p, 0, 0, 1));
    PoweredWhere(w, Shifted(p, 0, 0, -1));
  }

  lemma AnyNamed(w: World, p: Pos)
    ensures AnyPowered(w, LampSides(p)) <==> HasPower(w, p) || PowerAbove(w, p) || PowerBelow(w, p) || PowerBeside(w, p)
    ensures AnyPowered(w, RailSides(p)) <==> HasPower(w, p) || PowerBelow(w, p) || PowerBeside(w, p)
    ensures AnyPowered(w, HopperSides(p)) <==> HasPower(w, p) || PowerAbove(w, p) || PowerBeside(w, p)
  {
    PowersNamed(w, p);
    AnyBeside(w, p);
  }

  lemma AnyBeside(w: World, p: Pos)
    ensures var here, above := PoweredAt(w, p) > 0, PoweredAt(w, Shifted(p, 0, 1, 0)) > 0;
            var below := PoweredAt(w, Shifted(p, 0, -1, 0)) > 0;
            var beside := || PoweredAt(w, Shifted(p, 1, 0, 0)) > 0 || PoweredAt(w, Shifted(p, -1, 0, 0)) > 0
                          || PoweredAt(w, Shifted(p, 0, 0, 1)) > 0 || PoweredAt(w, Shifted(p, 0, 0, -1)) > 0;
            && (AnyPowered(w, LampSides(p)) <==> here || above || below || beside)
            && (AnyPowered(w, RailSides(p)) <==> here || below || beside)
            && (AnyPowered(w, HopperSides(p)) <==> here || above || beside)
  {
    SidesNamed(q => PoweredAt(w, q) > 0, p);
  }

  lemma HighBit(m: nibble)
    ensures m == m % 8 + if m >= 8 then 8 else 0
  {
  }

  lemma ConsumersKeep(w: World, b: Box, p: Pos)
    requires NoComparators(w, b) && Inside(b, p)
    ensures var t := Recomputed(w, b, true).world;
            && Obeys(t, p) && (IsLamp(At(w, p).id) ==> IsLamp(At(t, p).id))
            && (IsRail(At(w, p).id) || At(w, p).id == HOPPER ==>
                  At(t, p) == Cell(At(w, p).id, At(w, p).meta % 8 + if At(t, p).meta >= 8 then 8 else 0))
  {
    HighBit(At(Recomputed(w, b, true).world, p).meta);
    ConsumersObey(w, b);
    WrittenWires(w, b);
    VisitAllKinds(WiresWritten(w, b), Cells(b));
  }

  /** After a recompute, with no comparator in or next to the box: a lamp is lit exactly when there is
      power in it or in one of its six neighbours; a powered or activator rail is on exactly when there
      is power in it, below it or beside it; a hopper is off exactly when there is power in it, above it
      or beside it. Rails and hoppers keep their direction. */
  lemma ConsumersWhere(w: World, b: Box, p: Pos)
    requires NoComparators(w, b) && Inside(b, p)
    ensures var t := Recomputed(w, b, true).world;
            var c, d := At(w, p), At(t, p);
            && (c.id == 123 || c.id == 124 ==>
                  d.id == if HasPower(t, p) || PowerAbove(t, p) || PowerBelow(t, p) || PowerBeside(t, p) then 124 else 123)
            && (c.id == 27 || c.id == 126 ==>
                  d == Cell(c.id, c.meta % 8 + if HasPower(t, p) || PowerBelow(t, p) || PowerBeside(t, p) then 8 else 0))
            && (c.id == 154 ==>
                  d == Cell(154, c.meta % 8 + if HasPower(t, p) || PowerAbove(t, p) || PowerBeside(t, p) then 8 else 0))
  {
    var t := Recomputed(w, b, true).world;
    ConsumersKeep(w, b, p);
    AnyNamed(t, p);
  }
}
