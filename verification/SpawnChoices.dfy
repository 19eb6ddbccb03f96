/** Where the spawn is, in numbers: how high and how far out in each kind of world, and when it has to
    be a platform. */
module SpawnChoices {
  import opened Planes
  import opened SpawnPlane

  /** There is one grid of surfaces. */
  lemma DescribesUnique(columns: (int, int) -> Column, lim: nat, radius: int, band: Band, a: Heights, b: Heights)
    requires Describes(columns, lim, radius, band, a) && Describes(columns, lim, radius, band, b)
    ensures a == b
  {
    forall c ensures (c in a <==> c in b) && (c in a ==> a[c] == b[c]) {
      if c in a || c in b {
        var y, k := if c in a then a[c] else -1, if c in b then b[c] else -1;
        assert HasSurface(columns, radius, band, c, y) && HasSurface(columns, radius, band, c, k);
        if InDisc(c, radius) { SurfaceUnique(columns(c.x, c.z), band, y, k); }
      }
    }
  }

  predicate Solid(id: int) {
    id !in {0, 6, 7, 8, 9, 10, 11, 18, 31, 37, 38, 39, 40, 51, 78, 90, 106, 111, 175}
  }

  predicate Open(id: int) { id in {0, 6, 18, 31, 37, 38, 39, 40, 78, 106, 111, 175} }

  /** A floor at `y`, which is at least `lo` and at most `hi`, with `air` open cells above it. */
  ghost predicate Floor(column: Column, y: int, lo: int, hi: int, air: int) {
    && lo <= y <= hi && 0 <= y < 128 && y + air < 128 && Solid(column[y])
    && forall k | y < k <= y + air :: 0 <= k < 128 && Open(column[k])
  }

  /** The floors of a kind of world: flat, nether, end, void, and any other. */
  ghost predicate FloorOf(g: Generator, column: Column, y: int) {
    match g
    case Flat => Floor(column, y, 1, 20, 4)
    case Nether => Floor(column, y, 34, 90, 12)
    case End => Floor(column, y, 40, 90, 10)
    case Void => Floor(column, y, 1, 123, 4)
    case Normal => Floor(column, y, 40, 110, 8)
  }

  lemma FloorIsStandable(g: Generator, column: Column, y: int)
    ensures var band := BandFor(g);
            FloorOf(g, column, y) <==> Lowest(band) <= y <= Highest(band) && Standable(column, y, Air(band))
  {
  }

  lemma StandableIsFloor(g: Generator, column: Column, y: int)
    requires y >= 1 && IsSurface(column, BandFor(g), y)
    ensures FloorOf(g, column, y)
  {
    FloorIsStandable(g, column, y);
  }

  lemma SurfaceIsFloor(g: Generator, column: Column, y: int)
    requires IsSurface(column, BandFor(g), y)
    ensures y != -1 ==> y >= 1 && FloorOf(g, column, y)
    ensures forall k | k > y :: !FloorOf(g, column, k)
  {
    forall k ensures var band := BandFor(g);
                     FloorOf(g, column, k) <==> Lowest(band) <= k <= Highest(band) && Standable(column, k, Air(band)) {
      FloorIsStandable(g, column, k);
    }
  }

  /** The grid of surfaces: every column on it that is no farther from the origin than the radius shows its
      highest floor, if it has one. */
  lemma SurfacesAre(columns: (int, int) -> Column, g: Generator, lim: nat, radius: int, plane: Heights, c: Cell)
    requires Describes(columns, lim, radius, BandFor(g), plane)
    ensures var near := 0 - lim <= c.x <= lim && 0 - lim <= c.z <= lim && c.x * c.x + c.z * c.z <= radius * radius;
            && (c in plane <==> near && exists y :: FloorOf(g, columns(c.x, c.z), y))
            && (c in plane ==> FloorOf(g, columns(c.x, c.z), plane[c])
                               && forall y | y > plane[c] :: !FloorOf(g, columns(c.x, c.z), y))
  {
    var y := if c in plane then plane[c] else -1;
    if OnGrid(lim, c) {
      assert HasSurface(columns, radius, BandFor(g), c, y);
      if InDisc(c, radius) { SurfaceIsFloor(g, columns(c.x, c.z), y); }
      FloorsAreHigh(g, columns(c.x, c.z));
    }
  }

  lemma FloorsAreHigh(g: Generator, column: Column)
    ensures forall y | FloorOf(g, column, y) :: y > -1
  {
  }

  /** Within the distance asked for, and within the chunks that are loaded. */
  predicate Near(x: int, z: int, chunkRadius: int, maxDist: int) {
    var dist, far := if maxDist < 1 then 1 else maxDist, 16 * (if chunkRadius < 0 then 0 else chunkRadius) + 15;
    && 0 - far <= x <= far && 0 - far <= z <= far && x * x + z * z <= dist * dist
  }

  lemma GridIsNear(c: Cell, chunkRadius: int, maxDist: int)
    requires OnGrid(Reach(chunkRadius, maxDist), c) && InDisc(c, if maxDist < 1 then 1 else maxDist)
    ensures Near(c.x, c.z, chunkRadius, maxDist)
  {
  }

  /** A plane at the height `y` with nine cells or more, and none with more. */
  ghost predicate OnLargest(plane: Heights, y: int) {
    exists d :: d in plane && plane[d] == y && |Component(plane, d)| >= 9
                && forall e | e in plane :: |Component(plane, e)| <= |Component(plane, d)|
  }

  lemma AreaDecides(plane: Heights, best: Best)
    requires IsBest(plane, best)
    ensures SpawnFor(best).Platform? <==> forall c | c in plane :: |Component(plane, c)| < 9
  {
    BestAreas(plane, best);
  }

  lemma BestPlace(plane: Heights, best: Best)
    requires IsBest(plane, best) && best.area >= 9
    ensures best.centre in plane && plane[best.centre] == best.y && OnLargest(plane, best.y)
  {
    var d := BestStands(plane, best);
  }

  /** A cell of the grid has a floor within the bounds of the kind of world, with as much air as that asks
      for, and lies within the distances asked for. */
  lemma SurfacePlaced(columns: (int, int) -> Column, g: Generator, chunkRadius: int, maxDist: int, plane: Heights,
                      x: int, z: int, y: int)
    requires var lim, radius := Reach(chunkRadius, maxDist), if maxDist < 1 then 1 else maxDist;
             Describes(columns, lim, radius, BandFor(g), plane) && Cell(x, z) in plane && plane[Cell(x, z)] == y
    ensures FloorOf(g, columns(x, z), y) && Near(x, z, chunkRadius, maxDist)
  {
    assert HasSurface(columns, if maxDist < 1 then 1 else maxDist, BandFor(g), Cell(x, z), y);
    StandableIsFloor(g, columns(x, z), y);
    GridIsNear(Cell(x, z), chunkRadius, maxDist);
  }

  /** The spawn is a platform exactly when every plane of the grid has fewer than nine cells. Otherwise
      it is on a cell of the grid, feet one above its surface, at the height of a plane of nine cells or
      more than which none is larger. */
  lemma SpawnDecides(columns: (int, int) -> Column, g: Generator, chunkRadius: int, maxDist: int,
                     spawn: Spawn, plane: Heights)
    requires var lim, radius := Reach(chunkRadius, maxDist), if maxDist < 1 then 1 else maxDist;
             Chosen(columns, lim, radius, BandFor(g), spawn) && Describes(columns, lim, radius, BandFor(g), plane)
    ensures spawn.Platform? <==> forall c | c in plane :: |Component(plane, c)| < 9
    ensures spawn.OnPlane? ==>
              && Cell(spawn.x, spawn.z) in plane && plane[Cell(spawn.x, spawn.z)] == spawn.y - 1
              && OnLargest(plane, spawn.y - 1)
  {
    var lim, radius := Reach(chunkRadius, maxDist), if maxDist < 1 then 1 else maxDist;
    var best := ChosenBest(columns, lim, radius, BandFor(g), spawn, plane);
    AreaDecides(plane, best);
    if spawn.OnPlane? { BestPlace(plane, best); }
  }

  lemma {:induction false} ChosenBest(columns: (int, int) -> Column, lim: nat, radius: int, band: Band,
                                      spawn: Spawn, plane: Heights)
    returns (best: Best)
    requires Chosen(columns, lim, radius, band, spawn) && Describes(columns, lim, radius, band, plane)
    ensures IsBest(plane, best) && spawn == SpawnFor(best)
  {
    var p, b :| Describes(columns, lim, radius, band, p) && IsBest(p, b) && spawn == SpawnFor(b);
    DescribesUnique(columns, lim, radius, band, p, plane);
    best := b;
  }

  lemma BestAreas(plane: Heights, best: Best)
    requires IsBest(plane, best)
    ensures forall c | c in plane :: |Component(plane, c)| <= best.area
    ensures best.area > 0 ==> exists c :: c in plane && |Component(plane, c)| == best.area
  {
    var found: seq<Found> :| Largest(plane, found, best);
    if best.area > 0 {
      var i :| 0 <= i < |found| && Holds(best, found[i]);
      assert Good(plane, found[i]);
      HolderStands(plane, found[i], best);
    }
  }
}
