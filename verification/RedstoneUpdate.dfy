/** A whole recompute: wire strengths, then every lamp, rail, hopper, repeater and comparator of the
    box, with a log of the blocks changed. Repeaters flip later, through a list of schedules. */
module RedstoneUpdate {
  import opened Binary
  import opened Collections
  import opened RedstoneWorld
  import opened RedstoneWires

  datatype Update = Update(pos: Pos, cell: Cell)

  datatype Schedule = Schedule(pos: Pos, id: byte, meta: nibble, delay: int)

  /** A recompute under way: the world, the log of changes, the flips put off. */
  datatype Pass = Pass(world: World, out: seq<Update>, due: seq<Schedule>)

  function Put(s: Pass, p: Pos, c: Cell): Pass {
    s.(world := SetBlock(s.world, p, c), out := s.out + [Update(p, c)])
  }

  // ---------- the cells of the box ----------

  // The cells still to come in a row, in a layer and in the box.

  function RowFrom(b: Box, y: int, x: int, z: int): seq<Pos>
    decreases b.centre.z + b.radius + 1 - z
  {
    if z > b.centre.z + b.radius then [] else [Pos(x, y, z)] + RowFrom(b, y, x, z + 1)
  }

  function LayerFrom(b: Box, y: int, x: int): seq<Pos>
    decreases b.centre.x + b.radius + 1 - x
  {
    if x > b.centre.x + b.radius then [] else RowFrom(b, y, x, b.centre.z - b.radius) + LayerFrom(b, y, x + 1)
  }

  function CellsFrom(b: Box, y: int): seq<Pos>
    decreases Top(b) + 1 - y
  {
    if y > Top(b) then [] else LayerFrom(b, y, b.centre.x - b.radius) + CellsFrom(b, y + 1)
  }

  function Cells(b: Box): seq<Pos> { CellsFrom(b, Bottom(b)) }

  lemma {:induction false} RowHas(b: Box, y: int, x: int, z: int, p: Pos)
    ensures p in RowFrom(b, y, x, z) <==> p.y == y && p.x == x && z <= p.z <= b.centre.z + b.radius
    decreases b.centre.z + b.radius + 1 - z
  {
    if z <= b.centre.z + b.radius {
      RowHas(b, y, x, z + 1, p);
      assert p in RowFrom(b, y, x, z) <==> p == Pos(x, y, z) || p in RowFrom(b, y, x, z + 1);
    }
  }

  lemma {:induction false} LayerHas(b: Box, y: int, x: int, p: Pos)
    ensures p in LayerFrom(b, y, x) <==>
              p.y == y && x <= p.x <= b.centre.x + b.radius && b.centre.z - b.radius <= p.z <= b.centre.z + b.radius
    decreases b.centre.x + b.radius + 1 - x
  {
    if x <= b.centre.x + b.radius {
      var row, rest := RowFrom(b, y, x, b.centre.z - b.radius), LayerFrom(b, y, x + 1);
      RowHas(b, y, x, b.centre.z - b.radius, p);
      LayerHas(b, y, x + 1, p);
      assert p in LayerFrom(b, y, x) <==> p in row || p in rest;
    }
  }

  lemma {:induction false} CellsHave(b: Box, y: int, p: Pos)
    requires y >= Bottom(b)
    ensures p in CellsFrom(b, y) <==> Inside(b, p) && y <= p.y
    decreases Top(b) + 1 - y
  {
    if y <= Top(b) {
      var layer, rest := LayerFrom(b, y, b.centre.x - b.radius), CellsFrom(b, y + 1);
      LayerHas(b, y, b.centre.x - b.radius, p);
      CellsHave(b, y + 1, p);
      assert p in CellsFrom(b, y) <==> p in layer || p in rest;
    }
  }

  lemma CellsAreInside(b: Box)
    ensures forall p :: p in Cells(b) <==> Inside(b, p)
  {
    forall p ensures p in Cells(b) <==> Inside(b, p) { CellsHave(b, Bottom(b), p); }
  }

  function WiresIn(w: World, ps: seq<Pos>): seq<Pos> {
    if ps == [] then [] else (if Wire(w, ps[0]) then [ps[0]] else []) + WiresIn(w, ps[1..])
  }

  lemma {:induction false} WiresInAre(w: World, ps: seq<Pos>)
    ensures forall p :: p in WiresIn(w, ps) <==> p in ps && Wire(w, p)
  {
    if ps != [] {
      WiresInAre(w, ps[1..]);
      assert forall p :: p in ps <==> p == ps[0] || p in ps[1..];
    }
  }

  lemma {:induction false} WiresInAppend(w: World, ps: seq<Pos>, qs: seq<Pos>)
    ensures WiresIn(w, ps + qs) == WiresIn(w, ps) + WiresIn(w, qs)
  {
    if ps == [] {
      assert [] + qs == qs;
    } else {
      WiresInAppend(w, ps[1..], qs);
      assert (ps + qs)[1..] == ps[1..] + qs && (ps + qs)[0] == ps[0];
    }
  }

  // ---------- what powers a consumer ----------

  function WireMeta(w: World, p: Pos): int { if Wire(w, p) then At(w, p).meta else 0 }

  function Loudest(w: World, qs: seq<Pos>): int {
    if qs == [] then 0
    else
      var rest := Loudest(w, qs[..|qs| - 1]);
      var last := WireMeta(w, qs[|qs| - 1]);
      if last > rest then last else rest
  }

  /** The wires a cell takes power from: in it, beside it on three levels, above and below. */
  function Around(p: Pos): seq<Pos> { [p] + Steps(p) + [p.(y := p.y + 1), p.(y := p.y - 1)] }

  function PoweredAt(w: World, p: Pos): int {
    var a, c := SourcePower(w, p), Loudest(w, Around(p));
    if c > a then c else a
  }

  predicate AnyPowered(w: World, ps: seq<Pos>) {
    exists p | p in ps :: PoweredAt(w, p) > 0
  }

  method MeasurePower(w: World, p: Pos) returns (best: int)
    ensures best == PoweredAt(w, p)
  {
    var qs := Around(p);
    var wires := 0;
    for i := 0 to |qs|
      invariant wires == Loudest(w, qs[..i])
    {
      assert qs[..i + 1][..i] == qs[..i];
      if Wire(w, qs[i]) && At(w, qs[i]).meta > wires { wires := At(w, qs[i]).meta; }
      LoudestIsNatural(w, qs[..i]);
    }
    assert qs[..|qs|] == qs;
    best := SourcePower(w, p);
    if wires > best { best := wires; }
  }

  lemma {:induction false} LoudestIsNatural(w: World, qs: seq<Pos>)
    ensures Loudest(w, qs) >= 0
  {
    if qs != [] { LoudestIsNatural(w, qs[..|qs| - 1]); }
  }

  method FindPower(w: World, ps: seq<Pos>) returns (on: bool)
    ensures on <==> AnyPowered(w, ps)
  {
    on := false;
    for i := 0 to |ps|
      invariant on <==> exists j | 0 <= j < i :: PoweredAt(w, ps[j]) > 0
    {
      var s := MeasurePower(w, ps[i]);
      if s > 0 { on := true; }
    }
  }

  // ---------- the consumers ----------

  predicate IsRail(id: byte) { id == POWERED_RAIL || id == ACTIVATOR_RAIL }

  function LampSides(p: Pos): seq<Pos> {
    [p, p.(y := p.y + 1), p.(y := p.y - 1), p.(x := p.x + 1), p.(x := p.x - 1), p.(z := p.z + 1), p.(z := p.z - 1)]
  }

  function RailSides(p: Pos): seq<Pos> {
    [p, p.(y := p.y - 1), p.(x := p.x + 1), p.(x := p.x - 1), p.(z := p.z + 1), p.(z := p.z - 1)]
  }

  function HopperSides(p: Pos): seq<Pos> {
    [p, p.(y := p.y + 1), p.(x := p.x + 1), p.(x := p.x - 1), p.(z := p.z + 1), p.(z := p.z - 1)]
  }

  function WithBit8(meta: nibble, on: bool): nibble { meta % 8 + (if on then 8 else 0) }

  /** The state of a lamp, rail or hopper for what powers it; other cells stay as they are. */
  function Driven(c: Cell, lamp: bool, rail: bool, hopper: bool): Cell {
    if IsLamp(c.id) then
      var id := if lamp then LAMP_ON else LAMP_OFF;
      if id == c.id then c else Cell(id, 0)
    else if IsRail(c.id) then Cell(c.id, WithBit8(c.meta, rail))
    else if c.id == HOPPER then Cell(c.id, WithBit8(c.meta, hopper))
    else c
  }

  function Target(w: World, p: Pos): Cell {
    Driven(At(w, p), AnyPowered(w, LampSides(p)), AnyPowered(w, RailSides(p)), AnyPowered(w, HopperSides(p)))
  }

  function WantedRepeater(w: World, p: Pos): byte {
    if PoweredAt(w, Beside(p, InSide(At(w, p).meta))) > 0 then REPEATER_ON else REPEATER_OFF
  }

  function WantedComparator(w: World, p: Pos): byte {
    if ComparatorInput(w, p, At(w, p).meta) > 0 then COMPARATOR_ON else COMPARATOR_OFF
  }

  function Visit(s: Pass, p: Pos, queueing: bool): Pass {
    var c := At(s.world, p);
    if IsRepeater(c.id) then
      var id := WantedRepeater(s.world, p);
      if id == c.id then s
      else if queueing then s.(due := s.due + [Schedule(p, id, c.meta, DelayTicks(c.meta))])
      else Put(s, p, Cell(id, c.meta))
    else if IsComparator(c.id) then
      var id := WantedComparator(s.world, p);
      if id == c.id then s else Put(s, p, Cell(id, c.meta))
    else if Target(s.world, p) == c then s
    else Put(s, p, Target(s.world, p))
  }

  function VisitAll(s: Pass, ps: seq<Pos>, queueing: bool): Pass
    decreases |ps|
  {
    if ps == [] then s else VisitAll(Visit(s, ps[0], queueing), ps[1..], queueing)
  }

  ghost function WriteAll(s: Pass, ps: seq<Pos>, w: World, b: Box): Pass
    decreases |ps|
  {
    if ps == [] then s
    else
      var c := Cell(WIRE, Power(w, b, ps[0]));
      WriteAll(if At(s.world, ps[0]).meta == c.meta then s else Put(s, ps[0], c), ps[1..], w, b)
  }

  ghost function WiresWritten(w: World, b: Box): Pass {
    WriteAll(Pass(w, [], []), WiresIn(w, Cells(b)), w, b)
  }

  /** The whole recompute as a function of the world. */
  ghost function Recomputed(w: World, b: Box, queueing: bool): Pass {
    VisitAll(WiresWritten(w, b), Cells(b), queueing)
  }

  // ---------- the code ----------

  method ListRow(b: Box, y: int, x: int, before: seq<Pos>) returns (cells: seq<Pos>)
    ensures cells == before + RowFrom(b, y, x, b.centre.z - b.radius)
  {
    cells := before;
    var z := b.centre.z - b.radius;
    while z <= b.centre.z + b.radius
      invariant cells + RowFrom(b, y, x, z) == before + RowFrom(b, y, x, b.centre.z - b.radius)
      decreases b.centre.z + b.radius - z
    {
      Append(cells, [Pos(x, y, z)], RowFrom(b, y, x, z + 1));
      cells := cells + [Pos(x, y, z)];
      z := z + 1;
    }
  }

  method ListLayer(b: Box, y: int, before: seq<Pos>) returns (cells: seq<Pos>)
    ensures cells == before + LayerFrom(b, y, b.centre.x - b.radius)
  {
    cells := before;
    var x := b.centre.x - b.radius;
    ghost var layer := before + LayerFrom(b, y, x);
    while x <= b.centre.x + b.radius
      invariant cells + LayerFrom(b, y, x) == layer
      decreases b.centre.x + b.radius - x
    {
      ghost var front := cells;
      cells := ListRow(b, y, x, cells);
      LayerStep(b, y, x, front);
      x := x + 1;
    }
  }

  lemma {:induction false} LayerStep(b: Box, y: int, x: int, front: seq<Pos>)
    requires x <= b.centre.x + b.radius
    ensures front + LayerFrom(b, y, x) == (front + RowFrom(b, y, x, b.centre.z - b.radius)) + LayerFrom(b, y, x + 1)
  {
    Append(front, RowFrom(b, y, x, b.centre.z - b.radius), LayerFrom(b, y, x + 1));
  }

  /** The cells of the box in the order in which both passes go over it. */
  method ListCells(b: Box) returns (cells: seq<Pos>)
    ensures cells == Cells(b)
  {
    cells := [];
    var y := Bottom(b);
    ghost var all := Cells(b);
    assert cells + all == all;
    while y <= Top(b)
      invariant cells + CellsFrom(b, y) == all
      decreases Top(b) - y
    {
      ghost var front := cells;
      cells := ListLayer(b, y, cells);
      CellsStep(b, y, front);
      y := y + 1;
    }
  }

  lemma {:induction false} CellsStep(b: Box, y: int, front: seq<Pos>)
    requires y <= Top(b)
    ensures front + CellsFrom(b, y) == (front + LayerFrom(b, y, b.centre.x - b.radius)) + CellsFrom(b, y + 1)
  {
    Append(front, LayerFrom(b, y, b.centre.x - b.radius), CellsFrom(b, y + 1));
  }

  class Level {
    var world: World

    constructor (w: World)
      ensures world == w
    {
      world := w;
    }

    /** False where the block may not be placed. */
    method Place(p: Pos, c: Cell) returns (ok: bool)
      modifies this
      ensures world == SetBlock(old(world), p, c)
      ensures ok ==> At(world, p) == c
      ensures !ok ==> world == old(world)
    {
      if !(0 <= p.y < HEIGHT) { return false; }
      if p.y == 0 && c.id == 0 { return false; }
      if At(world, p).id == BEDROCK && c.id == 0 { return false; }
      world := world.(cells := world.cells[p := c]);
      ok := true;
    }

    method CollectWires(cells: seq<Pos>) returns (wires: seq<Pos>)
      ensures wires == WiresIn(world, cells)
    {
      wires := [];
      for i := 0 to |cells|
        invariant wires == WiresIn(world, cells[..i])
      {
        assert cells[..i + 1] == cells[..i] + [cells[i]];
        WiresInAppend(world, cells[..i], [cells[i]]);
        assert [cells[i]][1..] == [];
        if Wire(world, cells[i]) { wires := wires + [cells[i]]; }
      }
      assert cells[..|cells|] == cells;
    }

    method WriteWires(b: Box, wires: seq<Pos>, strength: map<Pos, int>, before: seq<Update>)
      returns (out: seq<Update>)
      requires forall p | p in wires :: Strength(strength, p) == Power(world, b, p)
      requires forall p | p in wires :: Wire(world, p)
      modifies this
      ensures Pass(world, out, []) == WriteAll(Pass(old(world), before, []), wires, old(world), b)
    {
      out := before;
      for i := 0 to |wires|
        invariant WriteAll(Pass(world, out, []), wires[i..], old(world), b)
                  == WriteAll(Pass(old(world), before, []), wires, old(world), b)
      {
        var p := wires[i];
        var s := Strength(strength, p);
        if s < 0 { s := 0; }
        if s > 15 { s := 15; }
        assert wires[i..][1..] == wires[i + 1..] && wires[i..][0] == p;
        if At(world, p).meta != s {
          var _ := Place(p, Cell(WIRE, s));
          out := out + [Update(p, Cell(WIRE, s))];
        }
      }
    }

    method VisitCell(p: Pos, queueing: bool, before: seq<Update>, waiting: seq<Schedule>)
      returns (out: seq<Update>, due: seq<Schedule>)
      modifies this
      ensures Pass(world, out, due) == Visit(Pass(old(world), before, waiting), p, queueing)
    {
      out, due := before, waiting;
      var c := At(world, p);
      var next := c;
      if IsLamp(c.id) {
        var on := FindPower(world, LampSides(p));
        var id := if on then LAMP_ON else LAMP_OFF;
        if id != c.id { next := Cell(id, 0); }
      } else if IsRail(c.id) {
        var on := FindPower(world, RailSides(p));
        next := Cell(c.id, WithBit8(c.meta, on));
      } else if c.id == HOPPER {
        var on := FindPower(world, HopperSides(p));
        next := Cell(c.id, WithBit8(c.meta, on));
      } else if IsRepeater(c.id) {
        var s := MeasurePower(world, Beside(p, InSide(c.meta)));
        var id := if s > 0 then REPEATER_ON else REPEATER_OFF;
        if id != c.id {
          if queueing {
            due := due + [Schedule(p, id, c.meta, DelayTicks(c.meta))];
          } else {
            next := Cell(id, c.meta);
          }
        }
      } else if IsComparator(c.id) {
        var s := ComparatorInput(world, p, c.meta);
        next := Cell(if s > 0 then COMPARATOR_ON else COMPARATOR_OFF, c.meta);
      }
      if next != c {
        var _ := Place(p, next);
        out := out + [Update(p, next)];
      }
    }

    method VisitBox(cells: seq<Pos>, queueing: bool, before: seq<Update>) returns (out: seq<Update>, due: seq<Schedule>)
      modifies this
      ensures Pass(world, out, due) == VisitAll(Pass(old(world), before, []), cells, queueing)
    {
      out, due := before, [];
      for i := 0 to |cells|
        invariant VisitAll(Pass(world, out, due), cells[i..], queueing)
                  == VisitAll(Pass(old(world), before, []), cells, queueing)
      {
        assert cells[i..][1..] == cells[i + 1..] && cells[i..][0] == cells[i];
        out, due := VisitCell(cells[i], queueing, out, due);
      }
    }

    /** The recompute does what `Recomputed` says, with the radius kept between 1 and 32. */
    method Recompute(centre: Pos, radius: int, queueing: bool) returns (out: seq<Update>, due: seq<Schedule>)
      modifies this
      ensures Pass(world, out, due) == Recomputed(old(world), Box(centre, Clamp(radius)), queueing)
    {
      var b := Box(centre, Clamp(radius));
      var cells := ListCells(b);
      var wires := CollectWires(cells);
      CellsAreInside(b);
      WiresInAre(world, Cells(b));
      var seeds, queue := FeedWires(world, b, wires);
      var strength := Relax(world, b, seeds, queue);
      out := WriteWires(b, wires, strength, []);
      out, due := VisitBox(cells, queueing, out);
    }
  }

  function Clamp(radius: int): nat { if radius < 1 then 1 else if radius > 32 then 32 else radius }

}
