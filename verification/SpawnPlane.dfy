/** Choosing the spawn: the standable surface of each column, a flood fill of every flat plane, and
    the largest plane with the centre nearest to the origin. */
module SpawnPlane {
  import opened Binary
  import opened Planes

  // ---------- the surface of one column ----------

  const HEIGHT := 128

  type Column = s: seq<byte> | |s| == HEIGHT witness seq(HEIGHT, _ => 0)

  predicate IsFluid(id: byte) { id == 8 || id == 9 || id == 10 || id == 11 }

  predicate IsPlant(id: byte) {
    id in {6, 31, 37, 38, 39, 40, 78, 106, 111, 175}
  }

  /** Nothing to stand on: air, fluid, leaves, plants, fire, portal. */
  predicate IsNonSolid(id: byte) {
    id == 0 || IsFluid(id) || id == 18 || IsPlant(id) || id == 51 || id == 90
  }

  predicate IsClear(id: byte) { id == 0 || id == 18 || IsPlant(id) }

  const BEDROCK: byte := 7

  /** A floor with `air` clear cells above it. */
  predicate Standable(column: Column, y: int, air: nat) {
    && 0 <= y && y + air < HEIGHT
    && !IsNonSolid(column[y]) && column[y] != BEDROCK
    && forall k | y < k <= y + air :: IsClear(column[k])
  }

  datatype Band = Band(lo: int, hi: int, air: nat)

  function Air(band: Band): nat { if band.air < 3 then 3 else band.air }
  function Lowest(band: Band): int { if band.lo < 1 then 1 else band.lo }
  function Highest(band: Band): int {
    if band.hi < HEIGHT - 1 - Air(band) then band.hi else HEIGHT - 1 - Air(band)
  }

  /** The highest standable floor of the band, or -1 if there is none. */
  ghost predicate IsSurface(column: Column, band: Band, y: int) {
    if y == -1 then forall k | Lowest(band) <= k <= Highest(band) :: !Standable(column, k, Air(band))
    else
      && Lowest(band) <= y <= Highest(band) && Standable(column, y, Air(band))
      && forall k | y < k <= Highest(band) :: !Standable(column, k, Air(band))
  }

  method SurfaceY(column: Column, band: Band) returns (y: int)
    ensures IsSurface(column, band, y)
  {
    var air, min, max := Air(band), Lowest(band), Highest(band);
    if max < min { return -1; }
    y := max;
    while y >= min
      invariant min - 1 <= y <= max
      invariant forall k | y < k <= max :: !Standable(column, k, air)
    {
      var id := column[y];
      if !(IsNonSolid(id) || IsFluid(id)) && id != BEDROCK {
        var open, d := true, 1;
        while d <= air && open
          invariant 1 <= d <= air + 1
          invariant open ==> forall k | y < k < y + d :: IsClear(column[k])
          invariant !open ==> exists k | y < k <= y + air :: !IsClear(column[k])
          decreases open, air + 1 - d
        {
          var a := column[y + d];
          if !IsClear(a) || IsFluid(a) {
            open := false;
          } else {
            d := d + 1;
          }
        }
        if open { return y; }
      }
      y := y - 1;
    }
    y := -1;
  }

  lemma SurfaceUnique(column: Column, band: Band, y: int, k: int)
    requires IsSurface(column, band, y) && IsSurface(column, band, k)
    ensures y == k
  {
  }

  // ---------- the grid ----------

  predicate OnGrid(lim: nat, c: Cell) { 0 <= c.x + lim <= 2 * lim && 0 <= c.z + lim <= 2 * lim }

  predicate Fits<T>(a: array2<T>, lim: nat) { a.Length0 == 2 * lim + 1 && a.Length1 == 2 * lim + 1 }

  /** The array holds the heights; cells without a surface hold less than 1. */
  ghost predicate Shows(surf: array2<int>, lim: nat, plane: Heights)
    requires Fits(surf, lim)
    reads surf
  {
    && (forall c | c in plane :: OnGrid(lim, c) && plane[c] >= 1 && surf[c.x + lim, c.z + lim] == plane[c])
    && (forall c | OnGrid(lim, c) && surf[c.x + lim, c.z + lim] >= 1 :: c in plane)
  }

  ghost predicate Marks(seen: array2<bool>, lim: nat, marked: set<Cell>)
    requires Fits(seen, lim)
    reads seen
  {
    forall c | OnGrid(lim, c) :: seen[c.x + lim, c.z + lim] <==> c in marked
  }

  ghost function SetOf(cells: seq<Cell>): set<Cell> { set c | c in cells }

  function Neighbour(c: Cell, d: int): Cell {
    match d
    case 0 => c.(x := c.x + 1)
    case 1 => c.(x := c.x - 1)
    case 2 => c.(z := c.z + 1)
    case _ => c.(z := c.z - 1)
  }

  // ---------- the flood fill ----------

  /** A neighbour of the same height that was not seen joins the queue. */
  method PushOne(surf: array2<int>, seen: array2<bool>, lim: nat, c: Cell, d: Cell, ghost plane: Heights, ghost marked: set<Cell>)
    returns (push: bool)
    requires Fits(surf, lim) && Fits(seen, lim)
    requires Shows(surf, lim, plane) && Marks(seen, lim, marked) && c in plane && Touches(c, d)
    modifies seen
    ensures push <==> Level(plane, c, d) && d !in marked
    ensures Marks(seen, lim, if push then marked + {d} else marked)
  {
    push := OnGrid(lim, d) && !seen[d.x + lim, d.z + lim] && surf[d.x + lim, d.z + lim] == surf[c.x + lim, c.z + lim];
    if push { seen[d.x + lim, d.z + lim] := true; }
  }

  method PushNeighbours(surf: array2<int>, seen: array2<bool>, lim: nat, c: Cell, queue: seq<Cell>,
                        ghost plane: Heights, ghost marked: set<Cell>)
    returns (next: seq<Cell>, ghost added: seq<Cell>)
    requires Fits(surf, lim) && Fits(seen, lim)
    requires Shows(surf, lim, plane) && Marks(seen, lim, marked) && c in plane
    modifies seen
    ensures next == queue + added && Distinct(added)
    ensures forall d | d in added :: d !in marked && Level(plane, c, d)
    ensures forall d | Level(plane, c, d) :: d in marked || d in added
    ensures Marks(seen, lim, marked + SetOf(added))
  {
    next, added := queue, [];
    assert marked + SetOf([]) == marked;
    for k := 0 to 4
      invariant next == queue + added && Distinct(added)
      invariant forall d | d in added :: d !in marked && Level(plane, c, d)
      invariant forall j | 0 <= j < k && Level(plane, c, Neighbour(c, j)) :: Neighbour(c, j) in marked || Neighbour(c, j) in added
      invariant Marks(seen, lim, marked + SetOf(added))
    {
      var d := Neighbour(c, k);
      ghost var now := marked + SetOf(added);
      var push := PushOne(surf, seen, lim, c, d, plane, now);
      if push {
        assert now + {d} == marked + SetOf(added + [d]);
        next, added := next + [d], added + [d];
      }
    }
    forall d | Level(plane, c, d) ensures d in marked || d in added {
      var k := if d.x > c.x then 0 else if d.x < c.x then 1 else if d.z > c.z then 2 else 3;
      assert d == Neighbour(c, k);
    }
  }

  /** What one fill adds up. */
  datatype Flood = Flood(area: nat, sumX: int, sumZ: int, bounds: Bounds, hasOrigin: bool)

  ghost predicate Tallies(f: Flood, cells: seq<Cell>) {
    && f.area == |cells| && f.sumX == SumX(cells) && f.sumZ == SumZ(cells)
    && (f.hasOrigin <==> Cell(0, 0) in cells)
    && (cells != [] ==> f.bounds == BoundsOf(cells))
  }

  lemma TallyMore(f: Flood, cells: seq<Cell>, c: Cell)
    requires Tallies(f, cells) && (cells == [] ==> f.bounds == Point(c))
    ensures Tallies(Flood(f.area + 1, f.sumX + c.x, f.sumZ + c.z, Widen(f.bounds, c), f.hasOrigin || c == Cell(0, 0)),
                    cells + [c])
  {
    SumSnoc(cells, c);
    assert (cells + [c])[..|cells|] == cells;
  }

  /** The fill so far: cells done, cells waiting, all of one plane and none marked before. */
  ghost predicate Filling(plane: Heights, c0: Cell, marked: set<Cell>, cells: seq<Cell>, queue: seq<Cell>) {
    && Distinct(cells + queue) && c0 in cells + queue && c0 in plane
    && (forall c | c in cells + queue :: c !in marked && c in plane && plane[c] == plane[c0] && Linked(plane, c0, c))
    && (forall c, d | c in cells && Level(plane, c, d) :: d in marked || d in cells + queue)
  }

  lemma DistinctAppend(a: seq<Cell>, b: seq<Cell>)
    requires Distinct(a) && Distinct(b) && forall d | d in b :: d !in a
    ensures Distinct(a + b)
  {
    forall i, j | 0 <= i < j < |a + b| ensures (a + b)[i] != (a + b)[j] {
      assert j >= |a| ==> b[j - |a|] in b;
      assert i < |a| ==> a[i] in a;
    }
  }

  lemma FillOne(plane: Heights, c0: Cell, marked: set<Cell>, cells: seq<Cell>, queue: seq<Cell>, more: seq<Cell>)
    requires queue != [] && Filling(plane, c0, marked, cells, queue) && Distinct(more)
    requires forall d | d in more :: d !in marked && d !in cells + queue && Level(plane, queue[0], d)
    requires forall d | Level(plane, queue[0], d) :: d in marked || d in cells + queue || d in more
    ensures Filling(plane, c0, marked, cells + [queue[0]], queue[1..] + more)
  {
    var c := queue[0];
    var all := (cells + [c]) + (queue[1..] + more);
    assert all == (cells + queue) + more;
    DistinctAppend(cells + queue, more);
    assert c in cells + queue;
    forall d | d in more ensures Linked(plane, c0, d) {
      LinkedStep(plane, c0, c, d);
    }
    assert forall d :: d in all <==> d in cells + queue || d in more;
    assert forall d :: d in cells + [c] <==> d in cells || d == c;
  }

  lemma Filled(plane: Heights, c0: Cell, marked: set<Cell>, cells: seq<Cell>)
    requires Closed(plane, marked) && Filling(plane, c0, marked, cells, [])
    ensures Lists(cells, Component(plane, c0)) && SetOf(cells + []) == Component(plane, c0)
  {
    assert cells + [] == cells;
    var s := SetOf(cells);
    forall c, d | c in s && Level(plane, c, d) ensures d in s {
      assert Level(plane, d, c);
      assert d in marked ==> c in marked;
    }
    ComponentWithin(plane, s, c0);
  }

  lemma ClosedWith(plane: Heights, marked: set<Cell>, c: Cell)
    requires Closed(plane, marked) && c in plane
    ensures Closed(plane, marked + Component(plane, c))
  {
    forall d, e | d in marked + Component(plane, c) && Level(plane, d, e) ensures e in marked + Component(plane, c) {
      if d in Component(plane, c) { LinkedStep(plane, c, d, e); }
    }
  }

  lemma Fewer(all: set<Cell>, done: seq<Cell>, c: Cell)
    requires c in all && c !in done
    ensures all - SetOf(done + [c]) < all - SetOf(done)
  {
    var s, t := SetOf(done), SetOf(done + [c]);
    assert c in t && c in all - s && c !in all - t;
    forall d | d in all - t ensures d in all - s {
      assert d in s ==> d in done + [c];
    }
  }

  lemma TookSets(marked: set<Cell>, done: seq<Cell>, waiting: seq<Cell>, more: seq<Cell>)
    requires waiting != []
    ensures marked + SetOf(done + waiting) + SetOf(more) == marked + SetOf((done + [waiting[0]]) + (waiting[1..] + more))
  {
    assert (done + [waiting[0]]) + (waiting[1..] + more) == (done + waiting) + more;
    assert forall d :: d in (done + waiting) + more <==> d in done + waiting || d in more;
  }

  lemma FirstWaiting(plane: Heights, c0: Cell, marked: set<Cell>, done: seq<Cell>, waiting: seq<Cell>)
    requires waiting != [] && Filling(plane, c0, marked, done, waiting)
    ensures waiting[0] in plane && plane[waiting[0]] == plane[c0] && waiting[0] !in done
  {
    assert (done + waiting)[|done|] == waiting[0];
    assert waiting[0] in done + waiting;
    forall i | 0 <= i < |done| ensures done[i] != waiting[0] {
      assert (done + waiting)[i] == done[i];
    }
  }

  lemma Took(plane: Heights, c0: Cell, marked: set<Cell>, already: set<Cell>, done: seq<Cell>, waiting: seq<Cell>, more: seq<Cell>)
    requires waiting != [] && Filling(plane, c0, marked, done, waiting) && Distinct(more)
    requires already == marked + SetOf(done + waiting)
    requires forall d | d in more :: d !in already && Level(plane, waiting[0], d)
    requires forall d | Level(plane, waiting[0], d) :: d in already || d in more
    ensures Filling(plane, c0, marked, done + [waiting[0]], waiting[1..] + more)
  {
    forall d | d in more ensures d !in marked && d !in done + waiting {
      assert d in done + waiting ==> d in already;
    }
    FillOne(plane, c0, marked, done, waiting, more);
  }

  /** The neighbours of the first cell waiting join the queue. */
  method TakeOne(surf: array2<int>, seen: array2<bool>, lim: nat, waiting: seq<Cell>,
                 ghost c0: Cell, ghost plane: Heights, ghost marked: set<Cell>, ghost done: seq<Cell>)
    returns (queue: seq<Cell>)
    requires Fits(surf, lim) && Fits(seen, lim) && Shows(surf, lim, plane)
    requires waiting != [] && waiting[0] in plane && Filling(plane, c0, marked, done, waiting)
    requires Marks(seen, lim, marked + SetOf(done + waiting))
    modifies seen
    ensures Filling(plane, c0, marked, done + [waiting[0]], queue)
    ensures Marks(seen, lim, marked + SetOf((done + [waiting[0]]) + queue))
  {
    ghost var already := marked + SetOf(done + waiting);
    ghost var more: seq<Cell>;
    queue, more := PushNeighbours(surf, seen, lim, waiting[0], waiting[1..], plane, already);
    Took(plane, c0, marked, already, done, waiting, more);
    TookSets(marked, done, waiting, more);
  }

  method Tally(f: Flood, c: Cell, ghost cells: seq<Cell>) returns (g: Flood)
    requires Tallies(f, cells) && (cells == [] ==> f.bounds == Point(c))
    ensures Tallies(g, cells + [c])
  {
    TallyMore(f, cells, c);
    g := Flood(f.area + 1, f.sumX + c.x, f.sumZ + c.z, Widen(f.bounds, c), f.hasOrigin || (c.x == 0 && c.z == 0));
  }

  method MarkSeen(seen: array2<bool>, lim: nat, c: Cell, ghost marked: set<Cell>)
    requires Fits(seen, lim) && OnGrid(lim, c) && Marks(seen, lim, marked)
    modifies seen
    ensures Marks(seen, lim, marked + {c})
  {
    seen[c.x + lim, c.z + lim] := true;
  }

  lemma FillStart(plane: Heights, c0: Cell, marked: set<Cell>)
    requires c0 in plane && c0 !in marked
    ensures Filling(plane, c0, marked, [], [c0]) && SetOf([] + [c0]) == {c0}
  {
    LinkedSelf(plane, c0);
    assert [] + [c0] == [c0];
  }

  /** The first cell waiting is tallied and its neighbours join the queue. */
  method FillNext(surf: array2<int>, seen: array2<bool>, lim: nat, f: Flood, waiting: seq<Cell>,
                  ghost c0: Cell, ghost plane: Heights, ghost marked: set<Cell>, ghost done: seq<Cell>)
    returns (g: Flood, queue: seq<Cell>)
    requires Fits(surf, lim) && Fits(seen, lim) && Shows(surf, lim, plane)
    requires waiting != [] && Filling(plane, c0, marked, done, waiting)
    requires Tallies(f, done) && (done == [] ==> waiting == [c0] && f.bounds == Point(c0))
    requires Marks(seen, lim, marked + SetOf(done + waiting))
    modifies seen
    ensures Filling(plane, c0, marked, done + [waiting[0]], queue) && Tallies(g, done + [waiting[0]])
    ensures Marks(seen, lim, marked + SetOf((done + [waiting[0]]) + queue))
    ensures plane.Keys - SetOf(done + [waiting[0]]) < plane.Keys - SetOf(done)
  {
    FirstWaiting(plane, c0, marked, done, waiting);
    Fewer(plane.Keys, done, waiting[0]);
    g := Tally(f, waiting[0], done);
    queue := TakeOne(surf, seen, lim, waiting, c0, plane, marked, done);
  }

  /** One fill marks exactly the plane of its start, enters each of its cells once, and so tallies
      the plane. */
  method Fill(surf: array2<int>, seen: array2<bool>, lim: nat, c0: Cell, ghost plane: Heights, ghost marked: set<Cell>)
    returns (f: Flood, ghost cells: seq<Cell>)
    requires Fits(surf, lim) && Fits(seen, lim)
    requires Shows(surf, lim, plane) && Marks(seen, lim, marked) && Closed(plane, marked)
    requires c0 in plane && c0 !in marked
    modifies seen
    ensures Lists(cells, Component(plane, c0)) && Tallies(f, cells)
    ensures Marks(seen, lim, marked + Component(plane, c0))
  {
    var y0 := surf[c0.x + lim, c0.z + lim];
    var queue := [c0];
    f, cells := Flood(0, 0, 0, Point(c0), false), [];
    MarkSeen(seen, lim, c0, marked);
    FillStart(plane, c0, marked);
    while queue != []
      invariant Filling(plane, c0, marked, cells, queue)
      invariant Tallies(f, cells) && (cells == [] ==> queue == [c0] && f.bounds == Point(c0))
      invariant Marks(seen, lim, marked + SetOf(cells + queue))
      decreases plane.Keys - SetOf(cells)
    {
      var c := queue[0];
      FirstWaiting(plane, c0, marked, cells, queue);
      if surf[c.x + lim, c.z + lim] == y0 {
        f, queue := FillNext(surf, seen, lim, f, queue, c0, plane, marked, cells);
        cells := cells + [c];
      }
    }
    Filled(plane, c0, marked, cells);
  }

  // ---------- the centre of a plane ----------

  lemma Square(a: int, m: int)
    requires -m <= a <= m
    ensures a * a <= m * m
  {
    assert m * m - a * a == (m - a) * (m + a);
    Grows(m - a, m + a);
  }

  /** Distances on a grid of this size stay below the value the search starts from. */
  lemma DistanceFits(lim: nat, c: Cell, d: Cell)
    requires OnGrid(lim, c) && OnGrid(lim, d) && lim <= 16383
    ensures DistanceSquared(c, d) < 0x7fff_ffff
  {
    Square(c.x - d.x, 32766);
    Square(c.z - d.z, 32766);
  }

  /** The cells of the rectangle already searched. */
  predicate Searched(b: Bounds, x: int, z: int, c: Cell) {
    In(b, c) && (c.z < z || (c.z == z && c.x < x))
  }

  /** The preferred cell of the height among those searched. */
  ghost predicate Nearest(plane: Heights, y: int, b: Bounds, mid: Cell, x: int, z: int, ok: bool, use: Cell, best: int) {
    && (ok ==> use in plane && plane[use] == y && Searched(b, x, z, use) && DistanceSquared(use, mid) == best)
    && (!ok ==> best == 0x7fff_ffff)
    && forall c | Searched(b, x, z, c) && c in plane && plane[c] == y && !(ok && c == use) :: ok && Preferred(use, c, mid)
  }

  lemma NearestNext(plane: Heights, y: int, b: Bounds, mid: Cell, x: int, z: int, ok: bool, use: Cell, best: int)
    requires Nearest(plane, y, b, mid, x, z, ok, use, best)
    requires In(b, Cell(x, z)) && DistanceSquared(Cell(x, z), mid) < 0x7fff_ffff
    ensures var c := Cell(x, z);
            var d := DistanceSquared(c, mid);
            if c in plane && plane[c] == y && d < best then Nearest(plane, y, b, mid, x + 1, z, true, c, d)
            else Nearest(plane, y, b, mid, x + 1, z, ok, use, best)
  {
    var c := Cell(x, z);
    assert forall d :: Searched(b, x + 1, z, d) ==> Searched(b, x, z, d) || d == Cell(d.x, d.z) == c;
  }

  method FindNearest(surf: array2<int>, lim: nat, y: int, b: Bounds, mid: Cell, ghost plane: Heights, ghost some: Cell)
    returns (ok: bool, use: Cell)
    requires Fits(surf, lim) && Shows(surf, lim, plane) && lim <= 16383 && y >= 1
    requires OnGrid(lim, Cell(b.minX, b.minZ)) && OnGrid(lim, Cell(b.maxX, b.maxZ)) && OnGrid(lim, mid)
    requires some in plane && plane[some] == y && In(b, some)
    ensures ok && use in plane && plane[use] == y && In(b, use)
    ensures forall c | c in plane && plane[c] == y && In(b, c) && c != use :: Preferred(use, c, mid)
  {
    var best := 0x7fff_ffff;
    ok, use := false, mid;
    for z := b.minZ to b.maxZ + 1
      invariant Nearest(plane, y, b, mid, b.minX, z, ok, use, best)
    {
      for x := b.minX to b.maxX + 1
        invariant Nearest(plane, y, b, mid, x, z, ok, use, best)
      {
        var c := Cell(x, z);
        DistanceFits(lim, c, mid);
        NearestNext(plane, y, b, mid, x, z, ok, use, best);
        if surf[x + lim, z + lim] == y {
          var d := DistanceSquared(c, mid);
          if d < best { best, use, ok := d, c, true; }
        }
      }
    }
    assert Searched(b, b.minX, b.maxZ + 1, some);
  }

  /** The centre is always found on a grid of this size: no plane goes unused. */
  method FindCentre(surf: array2<int>, lim: nat, y: int, f: Flood, ghost plane: Heights, ghost cells: seq<Cell>)
    returns (ok: bool, use: Cell)
    requires Fits(surf, lim) && Shows(surf, lim, plane) && lim <= 16383 && y >= 1
    requires cells != [] && Tallies(f, cells) && forall c | c in cells :: c in plane && plane[c] == y
    ensures ok && Centre(plane, cells, y, use)
  {
    ok, use := true, Cell(0, 0);
    if !f.hasOrigin {
      var b := f.bounds;
      BoundsOnGrid(lim, plane, cells);
      MiddleInside(cells, b);
      var mid := Cell(Quotient(f.sumX, f.area), Quotient(f.sumZ, f.area));
      use := mid;
      ok := OnGrid(lim, mid) && surf[mid.x + lim, mid.z + lim] == y;
      if !ok {
        ok, use := FindNearest(surf, lim, y, b, mid, plane, cells[0]);
      } else {
        forall c | c != mid ensures Preferred(mid, c, mid) { MiddlePreferred(mid, c); }
      }
    }
  }

  lemma {:induction false} BoundsOnGrid(lim: nat, plane: Heights, cells: seq<Cell>)
    requires cells != []
    requires forall c | c in plane :: OnGrid(lim, c)
    requires forall c | c in cells :: c in plane
    ensures var b := BoundsOf(cells); OnGrid(lim, Cell(b.minX, b.minZ)) && OnGrid(lim, Cell(b.maxX, b.maxZ))
    ensures forall c | In(BoundsOf(cells), c) :: OnGrid(lim, c)
    ensures forall c | c in cells :: In(BoundsOf(cells), c)
  {
    var x0, x1, z0, z1 := BoundsTight(cells);
  }

  // ---------- the survey of the grid ----------

  /** A plane that was filled, with its centre. */
  datatype Found = Found(start: Cell, cells: seq<Cell>, y: int, centre: Cell)

  ghost predicate Good(plane: Heights, p: Found) {
    && p.start in plane && p.y == plane[p.start] && Lists(p.cells, Component(plane, p.start))
    && Centre(plane, p.cells, p.y, p.centre)
  }

  datatype Best = Best(area: nat, distance: int, centre: Cell, y: int)

  function Origin(c: Cell): int { c.x * c.x + c.z * c.z }

  predicate Beats(area: nat, distance: int, best: Best) {
    area > best.area || (area == best.area && distance < best.distance)
  }

  ghost predicate Holds(best: Best, p: Found) {
    best.area == |p.cells| && best.distance == Origin(p.centre) && best.centre == p.centre && best.y == p.y
  }

  /** The best so far is one of the planes found, and none beats it. */
  ghost predicate BestOf(found: seq<Found>, best: Best) {
    && (found == [] <==> best.area == 0)
    && (found != [] ==> exists i :: 0 <= i < |found| && Holds(best, found[i]))
    && forall i | 0 <= i < |found| :: !Beats(|found[i].cells|, Origin(found[i].centre), best)
  }

  lemma BestMore(found: seq<Found>, best: Best, p: Found)
    requires BestOf(found, best) && p.cells != []
    ensures var next := if Beats(|p.cells|, Origin(p.centre), best) then Best(|p.cells|, Origin(p.centre), p.centre, p.y) else best;
            BestOf(found + [p], next)
  {
    var all := found + [p];
    assert all[|found|] == p;
    if found != [] {
      var i :| 0 <= i < |found| && Holds(best, found[i]);
      assert all[i] == found[i];
    }
  }

  /** Every marked cell lies on a plane that was found. */
  ghost predicate Accounted(plane: Heights, marked: set<Cell>, found: seq<Found>) {
    && (forall i | 0 <= i < |found| :: Good(plane, found[i]))
    && Closed(plane, marked)
    && forall c {:trigger OnFound(found, c)} | c in marked && c in plane :: OnFound(found, c)
  }

  ghost predicate OnFound(found: seq<Found>, c: Cell) {
    exists i :: 0 <= i < |found| && c in found[i].cells
  }

  lemma AccountedMore(plane: Heights, marked: set<Cell>, found: seq<Found>, p: Found)
    requires Accounted(plane, marked, found) && Good(plane, p)
    ensures Accounted(plane, marked + Component(plane, p.start), found + [p])
  {
    var all := found + [p];
    ClosedWith(plane, marked, p.start);
    forall i | 0 <= i < |all| ensures Good(plane, all[i]) {
      assert i < |found| ==> all[i] == found[i];
    }
    forall c | c in marked + Component(plane, p.start) && c in plane ensures OnFound(all, c) {
      FoundMore(found, p, c);
    }
  }

  lemma FoundMore(found: seq<Found>, p: Found, c: Cell)
    ensures OnFound(found, c) || c in p.cells ==> OnFound(found + [p], c)
  {
    var all := found + [p];
    assert all[|found|] == p;
    if OnFound(found, c) {
      var i :| 0 <= i < |found| && c in found[i].cells;
      assert all[i] == found[i];
    }
  }

  lemma AccountedSkip(plane: Heights, marked: set<Cell>, found: seq<Found>, c: Cell)
    requires Accounted(plane, marked, found) && c !in plane
    ensures Accounted(plane, marked + {c}, found)
  {
  }

  /** Planes of the grid, and none missing. */
  ghost predicate AllFound(plane: Heights, found: seq<Found>) {
    && (forall i | 0 <= i < |found| :: Good(plane, found[i]))
    && (forall c {:trigger OnFound(found, c)} | c in plane :: OnFound(found, c))
  }

  /** The best is the largest: no plane of the grid is larger, and of the planes of its size none
      has its centre nearer to the origin. */
  ghost predicate Largest(plane: Heights, found: seq<Found>, best: Best) {
    && AllFound(plane, found)
    && (forall c | c in plane :: 0 < |Component(plane, c)| <= best.area)
    && (best.area > 0 ==> exists i :: 0 <= i < |found| && Holds(best, found[i]))
    && (forall i | 0 <= i < |found| && |found[i].cells| == best.area :: best.distance <= Origin(found[i].centre))
  }

  lemma AreaBound(plane: Heights, found: seq<Found>, best: Best, c: Cell)
    requires BestOf(found, best) && OnFound(found, c)
    requires forall i | 0 <= i < |found| :: Good(plane, found[i])
    ensures 0 < |Component(plane, c)| <= best.area
  {
    var i :| 0 <= i < |found| && c in found[i].cells;
    AreaOfFound(plane, found[i], c);
  }

  lemma Attained(found: seq<Found>, best: Best)
    requires BestOf(found, best)
    ensures best.area > 0 ==> exists i :: 0 <= i < |found| && Holds(best, found[i])
    ensures forall i | 0 <= i < |found| && |found[i].cells| == best.area :: best.distance <= Origin(found[i].centre)
  {
  }

  lemma AllAreas(plane: Heights, found: seq<Found>, best: Best)
    requires BestOf(found, best) && AllFound(plane, found)
    ensures forall c | c in plane :: 0 < |Component(plane, c)| <= best.area
  {
    forall c | c in plane ensures 0 < |Component(plane, c)| <= best.area {
      assert OnFound(found, c);
      AreaBound(plane, found, best, c);
    }
  }

  lemma BestIsLargest(plane: Heights, marked: set<Cell>, found: seq<Found>, best: Best)
    requires Accounted(plane, marked, found) && BestOf(found, best) && plane.Keys <= marked
    ensures Largest(plane, found, best)
  {
    assert AllFound(plane, found);
    Attained(found, best);
    AllAreas(plane, found, best);
  }

  /** The best of the planes that a survey of the whole grid finds. */
  ghost predicate IsBest(plane: Heights, best: Best) {
    exists found :: Largest(plane, found, best)
  }

  lemma BestAmongFound(plane: Heights, marked: set<Cell>, found: seq<Found>, best: Best)
    requires Accounted(plane, marked, found) && BestOf(found, best)
    requires forall c | c in plane :: c in marked
    ensures IsBest(plane, best)
  {
    assert plane.Keys <= marked;
    BestIsLargest(plane, marked, found, best);
  }

  lemma AreaOfFound(plane: Heights, p: Found, c: Cell)
    requires Good(plane, p) && c in p.cells
    ensures |Component(plane, c)| == |p.cells| > 0
  {
    SameComponent(plane, p.start, c);
    ListedSize(p.cells, Component(plane, c));
  }

  /** One cell of the survey: an unseen standable cell starts a new plane. */
  method SurveyCell(surf: array2<int>, seen: array2<bool>, lim: nat, c: Cell, before: Best,
                    ghost plane: Heights, ghost marked: set<Cell>, ghost found: seq<Found>)
    returns (best: Best, ghost now: set<Cell>, ghost all: seq<Found>)
    requires Fits(surf, lim) && Fits(seen, lim) && lim <= 16383 && OnGrid(lim, c)
    requires Shows(surf, lim, plane) && Marks(seen, lim, marked)
    requires Accounted(plane, marked, found) && BestOf(found, before)
    modifies seen
    ensures Marks(seen, lim, now) && marked <= now && c in now
    ensures Accounted(plane, now, all) && BestOf(all, best)
  {
    best, now, all := before, marked, found;
    if seen[c.x + lim, c.z + lim] { return; }
    var y0 := surf[c.x + lim, c.z + lim];
    if y0 < 1 {
      MarkSeen(seen, lim, c, marked);
      now := marked + {c};
      AccountedSkip(plane, marked, found, c);
      return;
    }
    var f, cells := Fill(surf, seen, lim, c, plane, marked);
    now := marked + Component(plane, c);
    LinkedSelf(plane, c);
    SameHeight(plane, c);
    if f.area <= 0 { return; }
    var ok, use := FindCentre(surf, lim, y0, f, plane, cells);
    if !ok { return; }
    ghost var p := Found(c, cells, y0, use);
    AccountedMore(plane, marked, found, p);
    BestMore(found, before, p);
    all := found + [p];
    var distance := Origin(use);
    if f.area > best.area || (f.area == best.area && distance < best.distance) {
      best := Best(f.area, distance, use, y0);
    }
  }

  /** One row of the survey. */
  method SurveyRow(surf: array2<int>, seen: array2<bool>, lim: nat, z: int, before: Best,
                   ghost plane: Heights, ghost marked: set<Cell>, ghost found: seq<Found>)
    returns (best: Best, ghost now: set<Cell>, ghost all: seq<Found>)
    requires Fits(surf, lim) && Fits(seen, lim) && lim <= 16383 && 0 <= z + lim <= 2 * lim
    requires Shows(surf, lim, plane) && Marks(seen, lim, marked)
    requires Accounted(plane, marked, found) && BestOf(found, before)
    modifies seen
    ensures Marks(seen, lim, now) && marked <= now
    ensures forall c | OnGrid(lim, c) && c.z == z :: c in now
    ensures Accounted(plane, now, all) && BestOf(all, best)
  {
    best, now, all := before, marked, found;
    for x := 0 to 2 * lim + 1
      invariant Marks(seen, lim, now) && marked <= now && Accounted(plane, now, all) && BestOf(all, best)
      invariant forall c | OnGrid(lim, c) && c.z == z && c.x + lim < x :: c in now
    {
      best, now, all := SurveyCell(surf, seen, lim, Cell(x - lim, z), best, plane, now, all);
    }
  }

  /** The survey finds a largest plane of the grid, whatever the shapes of the planes. */
  method Survey(surf: array2<int>, lim: nat, ghost plane: Heights) returns (best: Best)
    requires Fits(surf, lim) && lim <= 16383 && Shows(surf, lim, plane)
    ensures IsBest(plane, best)
  {
    ghost var found: seq<Found>;
    var n := 2 * lim + 1;
    var seen := new bool[n, n]((_, _) => false);
    ghost var marked: set<Cell> := {};
    best, found := Best(0, 0x7fff_ffff_ffff_ffff, Cell(0, 0), 0), [];
    for z := 0 to n
      invariant Marks(seen, lim, marked) && Accounted(plane, marked, found) && BestOf(found, best)
      invariant forall c | OnGrid(lim, c) && c.z + lim < z :: c in marked
    {
      best, marked, found := SurveyRow(surf, seen, lim, z - lim, best, plane, marked, found);
    }
    BestAmongFound(plane, marked, found, best);
  }

  // ---------- the whole choice ----------

  predicate InDisc(c: Cell, radius: int) { c.x * c.x + c.z * c.z <= radius * radius }

  /** The surface of the column at `c`, -1 outside the disc. */
  ghost predicate HasSurface(columns: (int, int) -> Column, radius: int, band: Band, c: Cell, y: int) {
    if InDisc(c, radius) then IsSurface(columns(c.x, c.z), band, y) else y == -1
  }

  /** The standable surfaces of the columns of the grid. */
  ghost predicate Describes(columns: (int, int) -> Column, lim: nat, radius: int, band: Band, plane: Heights) {
    && (forall c | c in plane :: OnGrid(lim, c) && plane[c] >= 1 && HasSurface(columns, radius, band, c, plane[c]))
    && (forall c | OnGrid(lim, c) && c !in plane :: HasSurface(columns, radius, band, c, -1))
  }

  predicate Before(c: Cell, x: int, z: int) { c.z < z || (c.z == z && c.x < x) }

  /** A partial scan: the cells before (x, z) were looked at. */
  ghost predicate Scanned(columns: (int, int) -> Column, lim: nat, radius: int, band: Band, plane: Heights, x: int, z: int) {
    && (forall c | c in plane ::
          OnGrid(lim, c) && Before(c, x, z) && plane[c] >= 1 && HasSurface(columns, radius, band, c, plane[c]))
    && (forall c | OnGrid(lim, c) && Before(c, x, z) && c !in plane :: HasSurface(columns, radius, band, c, -1))
  }

  method ColumnSurface(columns: (int, int) -> Column, radius: int, band: Band, c: Cell) returns (y: int)
    ensures HasSurface(columns, radius, band, c, y) && (y == -1 || y >= 1)
  {
    if !InDisc(c, radius) { return -1; }
    y := SurfaceY(columns(c.x, c.z), band);
  }

  method ScanCell(columns: (int, int) -> Column, lim: nat, radius: int, band: Band, surf: array2<int>, c: Cell, ghost before: Heights)
    returns (ghost plane: Heights)
    requires Fits(surf, lim) && OnGrid(lim, c) && Shows(surf, lim, before)
    requires Scanned(columns, lim, radius, band, before, c.x, c.z)
    modifies surf
    ensures Shows(surf, lim, plane) && Scanned(columns, lim, radius, band, plane, c.x + 1, c.z)
  {
    var y := ColumnSurface(columns, radius, band, c);
    ScanOne(columns, lim, radius, band, before, c, y);
    plane := before;
    if y >= 1 {
      PutHeight(surf, lim, c, y, before);
      plane := before[c := y];
    }
  }

  method PutHeight(surf: array2<int>, lim: nat, c: Cell, y: int, ghost plane: Heights)
    requires Fits(surf, lim) && OnGrid(lim, c) && Shows(surf, lim, plane) && y >= 1
    modifies surf
    ensures Shows(surf, lim, plane[c := y])
  {
    surf[c.x + lim, c.z + lim] := y;
  }

  method ScanRow(columns: (int, int) -> Column, lim: nat, radius: int, band: Band, surf: array2<int>, z: int, ghost before: Heights)
    returns (ghost plane: Heights)
    requires Fits(surf, lim) && Shows(surf, lim, before) && 0 <= z + lim <= 2 * lim
    requires Scanned(columns, lim, radius, band, before, 0 - lim, z)
    modifies surf
    ensures Shows(surf, lim, plane) && Scanned(columns, lim, radius, band, plane, lim + 1, z)
  {
    plane := before;
    for x := 0 to 2 * lim + 1
      invariant Shows(surf, lim, plane) && Scanned(columns, lim, radius, band, plane, x - lim, z)
    {
      plane := ScanCell(columns, lim, radius, band, surf, Cell(x - lim, z), plane);
    }
  }

  method EmptyGrid(lim: nat) returns (surf: array2<int>)
    ensures fresh(surf) && Fits(surf, lim) && Shows(surf, lim, map[])
  {
    surf := new int[2 * lim + 1, 2 * lim + 1]((_, _) => -1);
  }

  method ScanSurface(columns: (int, int) -> Column, lim: nat, radius: int, band: Band)
    returns (surf: array2<int>, ghost plane: Heights)
    ensures fresh(surf) && Fits(surf, lim) && Shows(surf, lim, plane)
    ensures Describes(columns, lim, radius, band, plane)
  {
    surf := EmptyGrid(lim);
    plane := map[];
    for z := 0 to 2 * lim + 1
      invariant Shows(surf, lim, plane) && Scanned(columns, lim, radius, band, plane, 0 - lim, z - lim)
    {
      plane := ScanRow(columns, lim, radius, band, surf, z - lim, plane);
      NextRow(columns, lim, radius, band, plane, z - lim);
    }
    ScanEnd(columns, lim, radius, band, plane);
  }

  lemma ScanEnd(columns: (int, int) -> Column, lim: nat, radius: int, band: Band, plane: Heights)
    requires Scanned(columns, lim, radius, band, plane, 0 - lim, lim + 1)
    ensures Describes(columns, lim, radius, band, plane)
  {
    assert forall d | OnGrid(lim, d) :: Before(d, 0 - lim, lim + 1);
  }

  lemma ScanOne(columns: (int, int) -> Column, lim: nat, radius: int, band: Band, plane: Heights, c: Cell, y: int)
    requires OnGrid(lim, c) && Scanned(columns, lim, radius, band, plane, c.x, c.z)
    requires HasSurface(columns, radius, band, c, y) && (y == -1 || y >= 1)
    ensures Scanned(columns, lim, radius, band, if y >= 1 then plane[c := y] else plane, c.x + 1, c.z)
    ensures c !in plane
  {
    assert forall d | Before(d, c.x + 1, c.z) :: Before(d, c.x, c.z) || d == c;
  }

  lemma NextRow(columns: (int, int) -> Column, lim: nat, radius: int, band: Band, plane: Heights, z: int)
    requires Scanned(columns, lim, radius, band, plane, lim + 1, z)
    ensures Scanned(columns, lim, radius, band, plane, 0 - lim, z + 1)
  {
    assert forall d | OnGrid(lim, d) :: Before(d, lim + 1, z) <==> Before(d, 0 - lim, z + 1);
  }

  datatype Generator = Flat | Nether | End | Void | Normal

  function BandFor(g: Generator): Band {
    match g
    case Flat => Band(1, 20, 4)
    case Nether => Band(34, 90, 12)
    case End => Band(40, 90, 10)
    case Void => Band(1, 125, 4)
    case Normal => Band(40, 110, 8)
  }

  function Reach(chunkRadius: int, maxDist: int): nat {
    var chunks := if chunkRadius < 0 then 0 else chunkRadius;
    var dist := if maxDist < 1 then 1 else maxDist;
    if dist < chunks * 16 + 15 then dist else chunks * 16 + 15
  }

  /** On a plane, at the given feet position, or on a platform that has to be built. */
  datatype Spawn = OnPlane(x: int, y: int, z: int) | Platform

  const MIN_PLANE_AREA := 9

  /** The centre of a plane of nine cells or more, feet on its surface, else a platform. */
  function SpawnFor(best: Best): Spawn {
    if best.area >= MIN_PLANE_AREA then OnPlane(best.centre.x, best.y + 1, best.centre.z) else Platform
  }

  /** The spawn that belongs to a best plane of the surfaces. */
  ghost predicate Chosen(columns: (int, int) -> Column, lim: nat, radius: int, band: Band, spawn: Spawn) {
    exists plane, best :: Describes(columns, lim, radius, band, plane) && IsBest(plane, best) && spawn == SpawnFor(best)
  }

  /** The spawn is the centre of a largest plane of nine cells or more, feet on its surface; without
      such a plane a platform is built. */
  method FindSpawn(columns: (int, int) -> Column, generator: Generator, chunkRadius: int, maxDist: int)
    returns (spawn: Spawn)
    requires Reach(chunkRadius, maxDist) <= 16383
    ensures Chosen(columns, Reach(chunkRadius, maxDist), if maxDist < 1 then 1 else maxDist, BandFor(generator), spawn)
  {
    var lim, radius := Reach(chunkRadius, maxDist), if maxDist < 1 then 1 else maxDist;
    var surf, plane := ScanSurface(columns, lim, radius, BandFor(generator));
    var best := Survey(surf, lim, plane);
    spawn := SpawnFor(best);
  }

  /** Some largest plane of the surfaces has this height. */
  ghost predicate LargestHeight(columns: (int, int) -> Column, lim: nat, radius: int, band: Band, y: int) {
    exists plane, d :: Describes(columns, lim, radius, band, plane) && LargestAt(plane, d, y)
  }

  lemma BestIsSafe(columns: (int, int) -> Column, lim: nat, radius: int, band: Band, plane: Heights, best: Best)
    requires Describes(columns, lim, radius, band, plane) && IsBest(plane, best) && best.area >= MIN_PLANE_AREA
    ensures Standable(columns(best.centre.x, best.centre.z), best.y, Air(band))
    ensures LargestHeight(columns, lim, radius, band, best.y)
  {
    var d := BestStands(plane, best);
    SurfaceStands(columns, lim, radius, band, plane, best.centre);
  }

  /** Wherever the spawn is put on a plane, there is a floor under its feet and clear air above, at the
      height of a plane of nine cells or more than which none of the grid is larger. */
  lemma SpawnIsSafe(columns: (int, int) -> Column, lim: nat, radius: int, band: Band, spawn: Spawn)
    requires Chosen(columns, lim, radius, band, spawn) && spawn.OnPlane?
    ensures Standable(columns(spawn.x, spawn.z), spawn.y - 1, Air(band))
    ensures LargestHeight(columns, lim, radius, band, spawn.y - 1)
  {
    var plane, best :| Describes(columns, lim, radius, band, plane) && IsBest(plane, best) && spawn == SpawnFor(best);
    BestIsSafe(columns, lim, radius, band, plane, best);
  }

  lemma SurfaceStands(columns: (int, int) -> Column, lim: nat, radius: int, band: Band, plane: Heights, c: Cell)
    requires Describes(columns, lim, radius, band, plane) && c in plane
    ensures Standable(columns(c.x, c.z), plane[c], Air(band))
  {
    assert HasSurface(columns, radius, band, c, plane[c]);
  }

  /** A plane of the height that is large enough, and none is larger. */
  ghost predicate LargestAt(plane: Heights, d: Cell, y: int) {
    && d in plane && plane[d] == y && |Component(plane, d)| >= MIN_PLANE_AREA
    && forall c | c in plane :: |Component(plane, c)| <= |Component(plane, d)|
  }

  lemma HolderStands(plane: Heights, p: Found, best: Best)
    requires Good(plane, p) && Holds(best, p)
    ensures best.area == |Component(plane, p.start)| && plane[p.start] == best.y
    ensures best.centre in plane && plane[best.centre] == best.y
  {
    ListedSize(p.cells, Component(plane, p.start));
    SameHeight(plane, p.start);
  }

  lemma {:induction false} BestStands(plane: Heights, best: Best) returns (d: Cell)
    requires IsBest(plane, best) && best.area >= MIN_PLANE_AREA
    ensures best.centre in plane && plane[best.centre] == best.y && LargestAt(plane, d, best.y)
  {
    var found: seq<Found> :| Largest(plane, found, best);
    var i :| 0 <= i < |found| && Holds(best, found[i]);
    assert Good(plane, found[i]);
    HolderStands(plane, found[i], best);
    d := found[i].start;
  }
}
