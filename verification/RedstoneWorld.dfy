/** The blocks redstone reads and writes, and the power a cell gets from everything but wire. */
module RedstoneWorld {
  import opened Binary

  datatype Pos = Pos(x: int, y: int, z: int)

  /** Block metadata is stored in half a byte. */
  type nibble = m: int | 0 <= m < 16

  datatype Cell = Cell(id: byte, meta: nibble)

  const NO_BLOCK := Cell(0, 0)
  const HEIGHT := 128

  /** The blocks that are not air, the item counts of the slots of each chest, and the dimension. */
  datatype World = World(cells: map<Pos, Cell>, chests: map<Pos, seq<nat>>, nether: bool)

  const BEDROCK: byte := 7
  const POWERED_RAIL: byte := 27
  const DETECTOR_RAIL: byte := 28
  const CHEST: byte := 54
  const WIRE: byte := 55
  const LEVER: byte := 69
  const STONE_PLATE: byte := 70
  const WOODEN_PLATE: byte := 72
  const TORCH: byte := 76
  const REPEATER_OFF: byte := 93
  const REPEATER_ON: byte := 94
  const LAMP_OFF: byte := 123
  const LAMP_ON: byte := 124
  const ACTIVATOR_RAIL: byte := 126
  const LIGHT_PLATE: byte := 147
  const HEAVY_PLATE: byte := 148
  const COMPARATOR_OFF: byte := 149
  const COMPARATOR_ON: byte := 150
  const DAYLIGHT_SENSOR: byte := 151
  const REDSTONE_BLOCK: byte := 152
  const HOPPER: byte := 154

  predicate IsRepeater(id: byte) { id == REPEATER_OFF || id == REPEATER_ON }
  predicate IsLamp(id: byte) { id == LAMP_OFF || id == LAMP_ON }
  predicate IsComparator(id: byte) { id == COMPARATOR_OFF || id == COMPARATOR_ON }
  predicate IsPlate(id: byte) { id == STONE_PLATE || id == WOODEN_PLATE || id == LIGHT_PLATE || id == HEAVY_PLATE }

  function At(w: World, p: Pos): Cell {
    if 0 <= p.y < HEIGHT && p in w.cells then w.cells[p] else NO_BLOCK
  }

  predicate Wire(w: World, p: Pos) { At(w, p).id == WIRE }

  /** Bedrock cannot be replaced by air, nor anything at the bottom. */
  function SetBlock(w: World, p: Pos, c: Cell): World {
    if !(0 <= p.y < HEIGHT) || (p.y == 0 && c.id == 0) || (At(w, p).id == BEDROCK && c.id == 0) then w
    else w.(cells := w.cells[p := c])
  }

  // ---------- sides ----------

  function Opposite(side: int): int {
    if !(0 <= side < 6) then 0 else if side % 2 == 0 then side + 1 else side - 1
  }

  function Beside(p: Pos, side: int): Pos {
    match side
    case 0 => p.(y := p.y - 1)
    case 1 => p.(y := p.y + 1)
    case 2 => p.(z := p.z - 1)
    case 3 => p.(z := p.z + 1)
    case 4 => p.(x := p.x - 1)
    case 5 => p.(x := p.x + 1)
    case _ => p
  }

  /** The face a repeater or comparator listens at. */
  function InSide(meta: nibble): int {
    match meta % 4
    case 0 => 3
    case 1 => 4
    case 2 => 2
    case _ => 5
  }

  function OutSide(meta: nibble): int { Opposite(InSide(meta)) }

  function DelayTicks(meta: nibble): int { ((meta - meta % 4) / 4 + 1) * 2 }

  /** A diode listens and speaks at opposite faces, and waits two ticks for each delay level. */
  lemma DiodeFaces(p: Pos, meta: nibble)
    ensures Beside(Beside(p, InSide(meta)), OutSide(meta)) == p
    ensures InSide(meta) != OutSide(meta) && Beside(p, InSide(meta)) != p
    ensures DelayTicks(meta) == 2 * (meta / 4 + 1) && DelayTicks(meta) in {2, 4, 6, 8}
  {
  }

  // ---------- sources ----------

  function ItemsIn(counts: seq<nat>): nat {
    if counts == [] then 0 else ItemsIn(counts[..|counts| - 1]) + counts[|counts| - 1]
  }

  function ChestStrength(counts: seq<nat>): int {
    if |counts| == 0 || ItemsIn(counts) == 0 then 0
    else
      var s := 1 + (ItemsIn(counts) * 14) / (|counts| * 64);
      if s > 15 then 15 else s
  }

  /** Sources that do not depend on anything else. */
  predicate PlainSource(c: Cell) {
    c.id == REDSTONE_BLOCK || c.id == TORCH || (c.id == LEVER && c.meta >= 8) || c.id == REPEATER_ON
  }

  function ComparatorInput(w: World, p: Pos, meta: nibble): int {
    var q := Beside(p, InSide(meta));
    var c := At(w, q);
    if c.id == CHEST then (if q in w.chests then ChestStrength(w.chests[q]) else 0)
    else if c.id == WIRE then c.meta
    else if PlainSource(c) then 15
    else 0
  }

  function SourcePower(w: World, p: Pos): int {
    var c := At(w, p);
    if PlainSource(c) then 15
    else if c.id == DETECTOR_RAIL && c.meta >= 8 then 15
    else if c.id == DAYLIGHT_SENSOR then
      var s := 5 + p.y / 16;
      if w.nether then 0 else if s > 15 then 15 else s
    else if c.id == COMPARATOR_ON then
      var s := ComparatorInput(w, p, c.meta);
      if s <= 0 then 1 else s
    else if IsPlate(c.id) && c.meta % 2 == 1 then 15
    else 0
  }

  lemma SourcePowerRange(w: World, p: Pos)
    ensures 0 <= SourcePower(w, p) <= 15
  {
    var c := At(w, p);
    if c.id == COMPARATOR_ON {
      var q := Beside(p, InSide(c.meta));
      if q in w.chests { ChestRange(w.chests[q]); }
    }
  }

  lemma NaturalQuotient(a: nat, b: nat)
    requires b > 0
    ensures a / b >= 0
  {
  }

  lemma {:induction false} ChestRange(counts: seq<nat>)
    ensures 0 <= ChestStrength(counts) <= 15
    ensures ChestStrength(counts) == 0 <==> ItemsIn(counts) == 0
  {
    if |counts| > 0 { NaturalQuotient(ItemsIn(counts) * 14, |counts| * 64); }
  }

  /** What the cell `q` gives to its neighbour `p`: diodes give at their output face only. */
  function Given(w: World, q: Pos, p: Pos): int {
    var c := At(w, q);
    if !(0 <= q.y < HEIGHT) then 0
    else if (c.id == REPEATER_ON || c.id == COMPARATOR_ON) && Beside(q, OutSide(c.meta)) != p then 0
    else SourcePower(w, q)
  }

  /** A diode that is on gives to one of its six neighbours only, the one opposite to its input. */
  lemma DiodeGivesOneWay(w: World, q: Pos, p: Pos)
    requires 0 <= q.y < HEIGHT && p in Sides(q)
    requires At(w, q).id == REPEATER_ON || At(w, q).id == COMPARATOR_ON
    ensures Given(w, q, p) > 0 <==> p == Beside(q, OutSide(At(w, q).meta))
    ensures Given(w, q, Beside(q, InSide(At(w, q).meta))) == 0
  {
    SourcePowerRange(w, q);
    DiodeFaces(q, At(w, q).meta);
  }

  function Sides(p: Pos): seq<Pos> {
    [p.(x := p.x + 1), p.(x := p.x - 1), p.(y := p.y + 1), p.(y := p.y - 1), p.(z := p.z + 1), p.(z := p.z - 1)]
  }

  function MostGiven(w: World, qs: seq<Pos>, p: Pos): int {
    if qs == [] then 0
    else
      var rest := MostGiven(w, qs[..|qs| - 1], p);
      var last := Given(w, qs[|qs| - 1], p);
      if last > rest then last else rest
  }

  /** The strongest of the six neighbours. */
  function AdjacentPower(w: World, p: Pos): int { MostGiven(w, Sides(p), p) }

  /** The largest value given, or 0: no side gives more, and a positive value is given by some side. */
  lemma {:induction false} MostGivenIsMaximum(w: World, qs: seq<Pos>, p: Pos)
    ensures 0 <= MostGiven(w, qs, p) <= 15
    ensures forall q | q in qs :: Given(w, q, p) <= MostGiven(w, qs, p)
    ensures MostGiven(w, qs, p) > 0 ==> exists q :: q in qs && Given(w, q, p) == MostGiven(w, qs, p)
  {
    if qs != [] {
      var front, last := qs[..|qs| - 1], qs[|qs| - 1];
      MostGivenIsMaximum(w, front, p);
      SourcePowerRange(w, last);
      assert forall q :: q in qs <==> q in front || q == last;
    }
  }

  method SourceAround(w: World, p: Pos) returns (best: int)
    ensures best == AdjacentPower(w, p)
  {
    best := 0;
    var sides := Sides(p);
    for i := 0 to 6
      invariant best == MostGiven(w, sides[..i], p)
    {
      assert sides[..i + 1][..i] == sides[..i];
      var q := sides[i];
      if 0 <= q.y < HEIGHT {
        var s := SourcePower(w, q);
        var c := At(w, q);
        if c.id == REPEATER_ON && Beside(q, OutSide(c.meta)) != p { s := 0; }
        if c.id == COMPARATOR_ON && Beside(q, OutSide(c.meta)) != p { s := 0; }
        SourcePowerRange(w, q);
        if s > best { best := s; }
      }
    }
    assert sides[..6] == sides;
  }

  // ---------- the key of a position ----------

  /** A position packed into 64 bits: 32 for x, 16 for y, and only 16 for z. */
  function Key(p: Pos): int {
    (p.x % 0x1_0000_0000) * 0x1_0000_0000 + (p.y % 0x1_0000) * 0x1_0000 + p.z % 0x1_0000
  }

  lemma Digits(a: int, b: int, c: int, d: int)
    requires 0 <= b < 0x1_0000 && 0 <= d < 0x1_0000
    requires a * 0x1_0000 + b == c * 0x1_0000 + d
    ensures a == c && b == d
  {
  }

  lemma SameResidue(a: int, b: int)
    ensures a % 0x1_0000 == b % 0x1_0000 && -0x1_0000 < a - b < 0x1_0000 ==> a == b
    ensures a % 0x1_0000_0000 == b % 0x1_0000_0000 && -0x1_0000_0000 < a - b < 0x1_0000_0000 ==> a == b
  {
  }

  lemma SameLowHalf(a: int, b: int)
    ensures a % 0x1_0000 == b % 0x1_0000 <==> (a - b) % 0x1_0000 == 0
  {
  }

  /** Two cells of a world share a key exactly when they lie in one line along z, a multiple of 65536
      apart. */
  lemma KeysDistinct(p: Pos, q: Pos)
    requires 0 <= p.y < HEIGHT && 0 <= q.y < HEIGHT
    requires -0x8000_0000 <= p.x < 0x8000_0000 && -0x8000_0000 <= q.x < 0x8000_0000
    ensures Key(p) == Key(q) <==> p.x == q.x && p.y == q.y && (p.z - q.z) % 0x1_0000 == 0
  {
    SameLowHalf(p.z, q.z);
    if Key(p) == Key(q) {
      var a, b := p.x % 0x1_0000_0000, q.x % 0x1_0000_0000;
      Digits(a * 0x1_0000 + p.y, p.z % 0x1_0000, b * 0x1_0000 + q.y, q.z % 0x1_0000);
      Digits(a, p.y, b, q.y);
      SameResidue(p.x, q.x);
    }
  }

  /** Two columns of wire 65536 apart share their keys. */
  lemma KeysCollide(p: Pos)
    ensures Key(p) == Key(p.(z := p.z + 0x1_0000))
  {
  }
}
