/** What a recompute guarantees: its log replays to the new world, repeaters wait for their schedule,
    wires carry the worth of their best walk, and a second recompute has nothing left to change. */
module RedstoneResults {
  import opened Binary
  import opened RedstoneWorld
  import opened RedstoneWires
  import opened RedstoneUpdate

  // ---------- the log ----------

  function Replay(w: World, out: seq<Update>): World
    decreases |out|
  {
    if out == [] then w
    else
      var last := out[|out| - 1];
      SetBlock(Replay(w, out[..|out| - 1]), last.pos, last.cell)
  }

  /** Each entry changed the cell it names to what it names. */
  ghost predicate RealChanges(w: World, out: seq<Update>) {
    forall i | 0 <= i < |out| ::
      && At(Replay(w, out[..i]), out[i].pos) != out[i].cell
      && At(Replay(w, out[..i + 1]), out[i].pos) == out[i].cell
  }

  ghost predicate Faithful(w: World, s: Pass) {
    s.world == Replay(w, s.out) && RealChanges(w, s.out)
  }

  lemma PutFaithful(w: World, s: Pass, p: Pos, c: Cell)
    requires Faithful(w, s) && At(s.world, p) != c && 0 <= p.y < HEIGHT && c.id != 0
    ensures Faithful(w, Put(s, p, c))
  {
    var out := s.out + [Update(p, c)];
    assert out[..|s.out|] == s.out;
    forall i | 0 <= i < |out|
      ensures At(Replay(w, out[..i]), out[i].pos) != out[i].cell
      ensures At(Replay(w, out[..i + 1]), out[i].pos) == out[i].cell
    {
      assert i < |s.out| ==> out[..i] == s.out[..i] && out[..i + 1] == s.out[..i + 1];
      assert i == |s.out| ==> out[..i + 1] == out;
    }
  }

  lemma VisitFaithful(w: World, s: Pass, p: Pos, queueing: bool)
    requires Faithful(w, s) && 0 <= p.y < HEIGHT
    ensures Faithful(w, Visit(s, p, queueing))
  {
    var c := At(s.world, p);
    if IsRepeater(c.id) {
      if WantedRepeater(s.world, p) != c.id && !queueing {
        PutFaithful(w, s, p, Cell(WantedRepeater(s.world, p), c.meta));
      }
    } else if IsComparator(c.id) {
      if WantedComparator(s.world, p) != c.id { PutFaithful(w, s, p, Cell(WantedComparator(s.world, p), c.meta)); }
    } else if Target(s.world, p) != c {
      PutFaithful(w, s, p, Target(s.world, p));
    }
  }

  lemma {:induction false} VisitAllFaithful(w: World, s: Pass, ps: seq<Pos>, queueing: bool)
    requires Faithful(w, s) && forall p | p in ps :: 0 <= p.y < HEIGHT
    ensures Faithful(w, VisitAll(s, ps, queueing))
    decreases |ps|
  {
    if ps != [] {
      assert ps[0] in ps;
      VisitFaithful(w, s, ps[0], queueing);
      VisitAllFaithful(w, Visit(s, ps[0], queueing), ps[1..], queueing);
    }
  }

  lemma {:induction false} WriteAllFaithful(v: World, s: Pass, ps: seq<Pos>, w: World, b: Box)
    requires Faithful(v, s) && forall p | p in ps :: 0 <= p.y < HEIGHT
    ensures Faithful(v, WriteAll(s, ps, w, b))
    decreases |ps|
  {
    if ps != [] {
      var p, c := ps[0], Cell(WIRE, Power(w, b, ps[0]));
      assert p in ps;
      if At(s.world, p).meta != c.meta { PutFaithful(v, s, p, c); }
      WriteAllFaithful(v, if At(s.world, p).meta == c.meta then s else Put(s, p, c), ps[1..], w, b);
    }
  }

  /** Replaying the log in order on the old world gives exactly the new one, and every entry is a
      real change at its turn. */
  lemma {:induction false} LogIsFaithful(w: World, b: Box, queueing: bool)
    ensures var s := Recomputed(w, b, queueing);
            s.world == Replay(w, s.out) && RealChanges(w, s.out)
  {
    CellsAreInside(b);
    WiresInAre(w, Cells(b));
    WriteAllFaithful(w, Pass(w, [], []), WiresIn(w, Cells(b)), w, b);
    VisitAllFaithful(w, WiresWritten(w, b), Cells(b), queueing);
  }

  // ---------- the wires ----------

  lemma {:induction false} WriteAllWrites(s: Pass, ps: seq<Pos>, w: World, b: Box)
    requires forall p | p in ps :: Wire(s.world, p) && 0 <= p.y < HEIGHT
    ensures var t := WriteAll(s, ps, w, b).world;
            && t.chests == s.world.chests && t.nether == s.world.nether
            && forall p :: At(t, p) == if p in ps then Cell(WIRE, Power(w, b, p)) else At(s.world, p)
    decreases |ps|
  {
    if ps != [] {
      var p, c := ps[0], Cell(WIRE, Power(w, b, ps[0]));
      assert p in ps;
      var next := if At(s.world, p).meta == c.meta then s else Put(s, p, c);
      assert forall q :: At(next.world, q) == if q == p then c else At(s.world, q);
      WriteAllWrites(next, ps[1..], w, b);
      assert forall q :: q in ps <==> q == p || q in ps[1..];
    }
  }

  lemma WrittenWires(w: World, b: Box)
    ensures var t := WiresWritten(w, b).world;
            && t.chests == w.chests && t.nether == w.nether
            && forall p :: At(t, p) == if Inside(b, p) && Wire(w, p) then Cell(WIRE, Power(w, b, p)) else At(w, p)
  {
    CellsAreInside(b);
    WiresInAre(w, Cells(b));
    WriteAllWrites(Pass(w, [], []), WiresIn(w, Cells(b)), w, b);
  }

  /** The cell of one kind of block: the passes never turn one kind into another. */
  predicate SameKind(a: Cell, b: Cell) {
    || a == b
    || (IsLamp(a.id) && IsLamp(b.id)) || (IsRail(a.id) && IsRail(b.id)) || (a.id == HOPPER && b.id == HOPPER)
    || (IsComparator(a.id) && IsComparator(b.id))
  }

  lemma {:induction false} VisitAllKinds(s: Pass, ps: seq<Pos>)
    ensures forall p :: SameKind(At(s.world, p), At(VisitAll(s, ps, true).world, p))
    decreases |ps|
  {
    if ps != [] {
      var next := Visit(s, ps[0], true);
      forall p ensures SameKind(At(s.world, p), At(next.world, p)) {
      }
      VisitAllKinds(next, ps[1..]);
    }
  }

  /** With a list for schedules, no repeater changes or appears; and every wire of the box ends with
      the strength of its best walk in the old world, while wires outside keep what they had. */
  lemma WiresAndRepeaters(w: World, b: Box)
    ensures var t := Recomputed(w, b, true).world;
            && (forall p | IsRepeater(At(w, p).id) || IsRepeater(At(t, p).id) :: At(t, p) == At(w, p))
            && (forall p | Inside(b, p) && Wire(w, p) :: At(t, p) == Cell(WIRE, Power(w, b, p)))
            && (forall p | !Inside(b, p) && Wire(w, p) :: At(t, p) == At(w, p))
            && (forall p :: Wire(t, p) <==> Wire(w, p))
  {
    WrittenWires(w, b);
    VisitAllKinds(WiresWritten(w, b), Cells(b));
  }

  // ---------- readings that the second pass does not disturb ----------

  /** Blocks that redstone drives and never reads. */
  predicate Passive(id: byte) { IsLamp(id) || IsRail(id) || id == HOPPER }

  ghost predicate Agree(a: World, b: World) {
    && a.chests == b.chests && a.nether == b.nether
    && forall p :: At(a, p) == At(b, p) || (Passive(At(a, p).id) && Passive(At(b, p).id))
  }

  lemma SourceAgrees(a: World, b: World, p: Pos)
    requires Agree(a, b)
    ensures SourcePower(a, p) == SourcePower(b, p)
    ensures WireMeta(a, p) == WireMeta(b, p)
  {
    var q := Beside(p, InSide(At(a, p).meta));
    assert At(a, q) == At(b, q) || (Passive(At(a, q).id) && Passive(At(b, q).id));
  }

  lemma {:induction false} LoudestAgrees(a: World, b: World, qs: seq<Pos>)
    requires Agree(a, b)
    ensures Loudest(a, qs) == Loudest(b, qs)
  {
    if qs != [] {
      LoudestAgrees(a, b, qs[..|qs| - 1]);
      SourceAgrees(a, b, qs[|qs| - 1]);
    }
  }

  lemma PowerAgrees(a: World, b: World)
    requires Agree(a, b)
    ensures forall p :: PoweredAt(a, p) == PoweredAt(b, p)
  {
    forall p ensures PoweredAt(a, p) == PoweredAt(b, p) {
      SourceAgrees(a, b, p);
      LoudestAgrees(a, b, Around(p));
    }
  }

  lemma AnyAgrees(a: World, b: World, ps: seq<Pos>)
    requires Agree(a, b)
    ensures AnyPowered(a, ps) == AnyPowered(b, ps)
  {
    PowerAgrees(a, b);
  }

  /** Visited cells have their target, the others have it or are untouched. */
  ghost predicate Settling(w: World, t: World) {
    && Agree(w, t)
    && forall p :: At(t, p) == At(w, p) || At(t, p) == Target(w, p)
  }

  lemma DrivenTwice(c: Cell, lamp: bool, rail: bool, hopper: bool)
    ensures var d := Driven(c, lamp, rail, hopper); Driven(d, lamp, rail, hopper) == d
  {
  }

  lemma TargetAgrees(w: World, t: World, p: Pos)
    requires Settling(w, t)
    ensures Target(t, p) == Target(w, p)
  {
    AnyAgrees(w, t, LampSides(p));
    AnyAgrees(w, t, RailSides(p));
    AnyAgrees(w, t, HopperSides(p));
    DrivenTwice(At(w, p), AnyPowered(w, LampSides(p)), AnyPowered(w, RailSides(p)), AnyPowered(w, HopperSides(p)));
  }

  lemma DrivenKind(c: Cell, lamp: bool, rail: bool, hopper: bool)
    ensures var d := Driven(c, lamp, rail, hopper); d == c || (Passive(c.id) && Passive(d.id))
  {
  }

  lemma PutSettles(w: World, world: World, p: Pos)
    requires Settling(w, world) && 0 <= p.y < HEIGHT
    requires Passive(At(w, p).id) && Passive(Target(w, p).id)
    ensures var t := SetBlock(world, p, Target(w, p));
            && Settling(w, t) && At(t, p) == Target(w, p)
            && forall q :: q != p ==> At(t, q) == At(world, q)
  {
    var t := SetBlock(world, p, Target(w, p));
    assert forall q :: At(t, q) == if q == p then Target(w, p) else At(world, q);
  }

  lemma TargetKind(w: World, p: Pos)
    ensures Target(w, p) == At(w, p) || (Passive(At(w, p).id) && Passive(Target(w, p).id))
    ensures IsRepeater(At(w, p).id) ==> Target(w, p) == At(w, p)
    ensures IsComparator(Target(w, p).id) ==> IsComparator(At(w, p).id)
  {
    DrivenKind(At(w, p), AnyPowered(w, LampSides(p)), AnyPowered(w, RailSides(p)), AnyPowered(w, HopperSides(p)));
  }

  /** What a visit writes. */
  lemma VisitWrites(s: Pass, p: Pos)
    requires !IsComparator(At(s.world, p).id)
    ensures Visit(s, p, true).world ==
              if Target(s.world, p) == At(s.world, p) then s.world else SetBlock(s.world, p, Target(s.world, p))
  {
    TargetKind(s.world, p);
  }

  lemma VisitSettles(w: World, s: Pass, p: Pos)
    requires Settling(w, s.world) && 0 <= p.y < HEIGHT && !IsComparator(At(w, p).id)
    ensures var t := Visit(s, p, true).world;
            && Settling(w, t) && At(t, p) == Target(w, p)
            && forall q :: q != p ==> At(t, q) == At(s.world, q)
  {
    TargetAgrees(w, s.world, p);
    TargetKind(w, p);
    VisitWrites(s, p);
    if Passive(At(w, p).id) && Passive(Target(w, p).id) { PutSettles(w, s.world, p); }
  }

  lemma {:induction false} VisitAllSettles(w: World, s: Pass, ps: seq<Pos>)
    requires Settling(w, s.world)
    requires forall p | p in ps :: 0 <= p.y < HEIGHT && !IsComparator(At(w, p).id)
    ensures var t := VisitAll(s, ps, true).world;
            && Settling(w, t)
            && (forall p | p in ps || At(s.world, p) == Target(w, p) :: At(t, p) == Target(w, p))
    decreases |ps|
  {
    if ps != [] {
      assert ps[0] in ps;
      VisitSettles(w, s, ps[0]);
      VisitAllSettles(w, Visit(s, ps[0], true), ps[1..]);
      assert forall q :: q in ps <==> q == ps[0] || q in ps[1..];
    }
  }

  // ---------- a second recompute ----------

  /** No comparator in the box or next to it. */
  ghost predicate NoComparators(w: World, b: Box) {
    forall p | NextTo(b, p) :: !IsComparator(At(w, p).id)
  }

  predicate NextTo(b: Box, p: Pos) {
    && b.centre.x - b.radius - 1 <= p.x <= b.centre.x + b.radius + 1
    && b.centre.z - b.radius - 1 <= p.z <= b.centre.z + b.radius + 1
    && b.centre.y - b.radius - 1 <= p.y <= b.centre.y + b.radius + 1
  }

  /** Worlds that differ in the strength of wires and in driven blocks only. */
  ghost predicate SameSources(a: World, b: World) {
    && a.nether == b.nether
    && forall p :: At(a, p) == At(b, p) || (Wire(a, p) && Wire(b, p)) || (Passive(At(a, p).id) && Passive(At(b, p).id))
  }

  lemma GivenSame(a: World, b: World, q: Pos, p: Pos)
    requires SameSources(a, b) && !IsComparator(At(a, q).id)
    ensures Given(a, q, p) == Given(b, q, p)
  {
  }

  lemma {:induction false} MostGivenSame(a: World, b: World, qs: seq<Pos>, p: Pos)
    requires SameSources(a, b) && forall q | q in qs :: !IsComparator(At(a, q).id)
    ensures MostGiven(a, qs, p) == MostGiven(b, qs, p)
  {
    if qs != [] {
      assert qs[|qs| - 1] in qs;
      MostGivenSame(a, b, qs[..|qs| - 1], p);
      GivenSame(a, b, qs[|qs| - 1], p);
    }
  }

  lemma SeedSame(a: World, b: World, box: Box, p: Pos)
    requires SameSources(a, b) && NoComparators(a, box)
    ensures Seed(a, box, p) == Seed(b, box, p)
  {
    if Inside(box, p) {
      assert forall q | q in Sides(p) :: NextTo(box, q);
      MostGivenSame(a, b, Sides(p), p);
    }
  }

  lemma {:induction false} CarriesSame(a: World, b: World, box: Box, v: int, p: Pos)
    requires SameSources(a, b) && NoComparators(a, box) && Carries(a, box, v, p)
    ensures Carries(b, box, v, p)
    decreases 16 - v
  {
    SeedSame(a, b, box, p);
    if Seed(a, box, p) < v {
      var q :| Leads(q, p) && Carries(a, box, v + 1, q);
      CarriesSame(a, b, box, v + 1, q);
    }
  }

  lemma PowerSame(a: World, b: World, box: Box, p: Pos)
    requires SameSources(a, b) && NoComparators(a, box) && NoComparators(b, box)
    ensures Power(a, box, p) == Power(b, box, p)
  {
    PowerIsCarried(a, box, p);
    PowerIsCarried(b, box, p);
    if Power(a, box, p) > 0 { CarriesSame(a, b, box, Power(a, box, p), p); }
    if Power(b, box, p) > 0 { CarriesSame(b, a, box, Power(b, box, p), p); }
  }

  /** Nothing left to do: wires carry their strength and consumers have their target. */
  ghost predicate Stable(w: World, b: Box) {
    && (forall p | Inside(b, p) && Wire(w, p) :: At(w, p).meta == Power(w, b, p))
    && (forall p | Inside(b, p) :: Target(w, p) == At(w, p) && !IsComparator(At(w, p).id))
  }

  lemma {:induction false} WriteAllIdle(s: Pass, ps: seq<Pos>, b: Box)
    requires forall p | p in ps :: At(s.world, p).meta == Power(s.world, b, p)
    ensures WriteAll(s, ps, s.world, b) == s
    decreases |ps|
  {
    if ps != [] {
      assert ps[0] in ps;
      WriteAllIdle(s, ps[1..], b);
    }
  }

  lemma {:induction false} VisitAllIdle(s: Pass, ps: seq<Pos>)
    requires forall p | p in ps :: Target(s.world, p) == At(s.world, p) && !IsComparator(At(s.world, p).id)
    ensures var t := VisitAll(s, ps, true); t.world == s.world && t.out == s.out
    decreases |ps|
  {
    if ps != [] {
      assert ps[0] in ps;
      VisitAllIdle(Visit(s, ps[0], true), ps[1..]);
    }
  }

  lemma StableIsIdle(w: World, b: Box)
    requires Stable(w, b)
    ensures WiresWritten(w, b).world == w
    ensures Recomputed(w, b, true).world == w && Recomputed(w, b, true).out == []
  {
    CellsAreInside(b);
    WiresInAre(w, Cells(b));
    WriteAllIdle(Pass(w, [], []), WiresIn(w, Cells(b)), b);
    VisitAllIdle(Pass(w, [], []), Cells(b));
  }

  lemma FirstPassSettles(w: World, b: Box)
    requires NoComparators(w, b)
    ensures var v, t := WiresWritten(w, b).world, Recomputed(w, b, true).world;
            && Settling(v, t) && (forall p | Inside(b, p) :: At(t, p) == Target(v, p))
  {
    var v := WiresWritten(w, b).world;
    WrittenWires(w, b);
    CellsAreInside(b);
    assert forall p | Inside(b, p) :: NextTo(b, p);
    VisitAllSettles(v, WiresWritten(w, b), Cells(b));
  }

  /** The first recompute changes no source, and no comparator appears. */
  lemma SourcesStay(w: World, b: Box)
    requires NoComparators(w, b)
    ensures var t := Recomputed(w, b, true).world; SameSources(w, t) && NoComparators(t, b)
  {
    var v, t := WiresWritten(w, b).world, Recomputed(w, b, true).world;
    WrittenWires(w, b);
    FirstPassSettles(w, b);
    forall p | NextTo(b, p) ensures !IsComparator(At(t, p).id) {
      assert !IsComparator(At(w, p).id);
    }
  }

  lemma WiresStay(w: World, b: Box)
    requires NoComparators(w, b)
    ensures var t := Recomputed(w, b, true).world;
            forall p | Inside(b, p) && Wire(t, p) :: At(t, p).meta == Power(t, b, p)
  {
    var t := Recomputed(w, b, true).world;
    SourcesStay(w, b);
    WiresAndRepeaters(w, b);
    forall p | Inside(b, p) && Wire(t, p) ensures At(t, p).meta == Power(t, b, p) {
      PowerSame(w, t, b, p);
    }
  }

  lemma RecomputeSettles(w: World, b: Box)
    requires NoComparators(w, b)
    ensures Stable(Recomputed(w, b, true).world, b)
  {
    var v, t := WiresWritten(w, b).world, Recomputed(w, b, true).world;
    FirstPassSettles(w, b);
    SourcesStay(w, b);
    WiresStay(w, b);
    forall p | Inside(b, p) ensures Target(t, p) == At(t, p) && !IsComparator(At(t, p).id) {
      TargetAgrees(v, t, p);
      assert NextTo(b, p);
    }
  }

  /** A consumer is on exactly when something around it is powered; rails and hoppers keep their
      direction bits. */
  ghost predicate Obeys(w: World, p: Pos) {
    var c := At(w, p);
    && (IsLamp(c.id) ==> (c.id == LAMP_ON <==> AnyPowered(w, LampSides(p))))
    && (IsRail(c.id) ==> (c.meta >= 8 <==> AnyPowered(w, RailSides(p))))
    && (c.id == HOPPER ==> (c.meta >= 8 <==> AnyPowered(w, HopperSides(p))))
  }

  lemma TargetObeys(w: World, p: Pos)
    requires Target(w, p) == At(w, p)
    ensures Obeys(w, p)
  {
  }

  lemma DrivenDirection(c: Cell, lamp: bool, rail: bool, hopper: bool)
    ensures IsRail(c.id) || c.id == HOPPER ==> Driven(c, lamp, rail, hopper).meta % 8 == c.meta % 8
  {
  }

  /** After a recompute every lamp, rail and hopper of the box agrees with the power of the new world,
      including the power of the wires just written, and points where it did. */
  lemma ConsumersObey(w: World, b: Box)
    requires NoComparators(w, b)
    ensures var t := Recomputed(w, b, true).world;
            && (forall p | Inside(b, p) :: Obeys(t, p))
            && (forall p | Inside(b, p) && (IsRail(At(w, p).id) || At(w, p).id == HOPPER) ::
                  At(t, p).id == At(w, p).id && At(t, p).meta % 8 == At(w, p).meta % 8)
  {
    var v, t := WiresWritten(w, b).world, Recomputed(w, b, true).world;
    RecomputeSettles(w, b);
    FirstPassSettles(w, b);
    WrittenWires(w, b);
    forall p | Inside(b, p) ensures Obeys(t, p) {
      TargetObeys(t, p);
    }
    forall p | Inside(b, p) && (IsRail(At(w, p).id) || At(w, p).id == HOPPER)
      ensures At(t, p).id == At(w, p).id && At(t, p).meta % 8 == At(w, p).meta % 8
    {
      DrivenDirection(At(v, p), AnyPowered(v, LampSides(p)), AnyPowered(v, RailSides(p)), AnyPowered(v, HopperSides(p)));
    }
  }

  /** With a list for schedules and no comparator in or next to the box, recomputing again changes
      nothing and logs nothing. */
  lemma RecomputeIsIdempotent(w: World, b: Box)
    requires NoComparators(w, b)
    ensures var t := Recomputed(w, b, true).world;
            Recomputed(t, b, true).world == t && Recomputed(t, b, true).out == []
  {
    RecomputeSettles(w, b);
    StableIsIdle(Recomputed(w, b, true).world, b);
  }

  // ---------- the schedules ----------

  /** The repeaters to flip, each against the power at its input face. */
  ghost predicate RightSchedule(w: World, e: Schedule) {
    var c := At(w, e.pos);
    && IsRepeater(c.id) && IsRepeater(e.id) && e.id != c.id && e.meta == c.meta && e.delay == DelayTicks(c.meta)
    && (e.id == REPEATER_ON <==> PoweredAt(w, Beside(e.pos, InSide(c.meta))) > 0)
  }

  lemma VisitSchedules(w: World, s: Pass, p: Pos)
    requires Settling(w, s.world) && forall e | e in s.due :: RightSchedule(w, e)
    ensures forall e | e in Visit(s, p, true).due :: RightSchedule(w, e)
    ensures s.due <= Visit(s, p, true).due
    ensures IsRepeater(At(w, p).id) && WantedRepeater(w, p) != At(w, p).id ==>
              exists e :: e in Visit(s, p, true).due && e.pos == p
  {
    RepeaterAgrees(w, s.world, p);
    VisitPutsOff(s, p);
    var due := Visit(s, p, true).due;
    if IsRepeater(At(w, p).id) && WantedRepeater(w, p) != At(w, p).id {
      assert due[|due| - 1].pos == p;
    }
  }

  lemma RepeaterAgrees(w: World, t: World, p: Pos)
    requires Settling(w, t)
    ensures IsRepeater(At(t, p).id) <==> IsRepeater(At(w, p).id)
    ensures IsRepeater(At(w, p).id) ==> At(t, p) == At(w, p) && WantedRepeater(t, p) == WantedRepeater(w, p)
  {
    TargetKind(w, p);
    PowerAgrees(w, t);
  }

  /** The flip a visit puts off. */
  lemma VisitPutsOff(s: Pass, p: Pos)
    ensures var c, id := At(s.world, p), WantedRepeater(s.world, p);
            Visit(s, p, true).due ==
              if IsRepeater(c.id) && id != c.id then s.due + [Schedule(p, id, c.meta, DelayTicks(c.meta))] else s.due
  {
  }

  lemma {:induction false} VisitAllSchedules(w: World, s: Pass, ps: seq<Pos>)
    requires Settling(w, s.world) && forall e | e in s.due :: RightSchedule(w, e)
    requires forall p | p in ps :: 0 <= p.y < HEIGHT && !IsComparator(At(w, p).id)
    ensures var due := VisitAll(s, ps, true).due;
            && s.due <= due
            && (forall e | e in due :: RightSchedule(w, e))
            && (forall p | p in ps && IsRepeater(At(w, p).id) && WantedRepeater(w, p) != At(w, p).id ::
                  exists e :: e in due && e.pos == p)
    decreases |ps|
  {
    if ps != [] {
      var p := ps[0];
      assert p in ps;
      VisitSettles(w, s, p);
      VisitSchedules(w, s, p);
      VisitAllSchedules(w, Visit(s, p, true), ps[1..]);
      assert forall q :: q in ps <==> q == p || q in ps[1..];
    }
  }

  /** The flips put off are exactly those of the repeaters of the box whose input face disagrees with
      them once the wires are written, each after its own delay. */
  lemma SchedulesAreRight(w: World, b: Box)
    requires NoComparators(w, b)
    ensures var v, due := WiresWritten(w, b).world, Recomputed(w, b, true).due;
            && (forall e | e in due :: RightSchedule(v, e))
            && (forall p | Inside(b, p) && IsRepeater(At(v, p).id) && WantedRepeater(v, p) != At(v, p).id ::
                  exists e :: e in due && e.pos == p)
  {
    WrittenWires(w, b);
    CellsAreInside(b);
    assert forall p | Inside(b, p) :: NextTo(b, p);
    var s := WiresWritten(w, b);
    WriteAllPutsOffNothing(Pass(w, [], []), WiresIn(w, Cells(b)), w, b);
    VisitAllSchedules(s.world, s, Cells(b));
  }

  lemma {:induction false} WriteAllPutsOffNothing(s: Pass, ps: seq<Pos>, w: World, b: Box)
    ensures WriteAll(s, ps, w, b).due == s.due
    decreases |ps|
  {
    if ps != [] {
      var c := Cell(WIRE, Power(w, b, ps[0]));
      WriteAllPutsOffNothing(if At(s.world, ps[0]).meta == c.meta then s else Put(s, ps[0], c), ps[1..], w, b);
    }
  }

  // ---------- keys of the strength table ----------

  /** The table of strengths is keyed by packed positions; no two positions it can hold collide. */
  lemma TableKeysDistinct(b: Box, f: map<Pos, int>, p: Pos, q: Pos)
    requires Near(b, f) && p in f && q in f && b.radius <= 32
    requires forall k | k in f :: f[k] >= 0 && -0x8000_0000 <= k.x < 0x8000_0000
    ensures Key(p) == Key(q) <==> p == q
  {
    KeysDistinct(p, q);
  }
}
