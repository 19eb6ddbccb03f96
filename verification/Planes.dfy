/** Flat planes of a height grid: which cells belong together, what a listing of a plane adds up to,
    and where its centre is. */
module Planes {

  datatype Cell = Cell(x: int, z: int)

  /** The standable cells of the grid and the height of their surface. */
  type Heights = map<Cell, int>

  predicate Touches(c: Cell, d: Cell) {
    (c.z == d.z && (d.x == c.x + 1 || d.x == c.x - 1)) || (c.x == d.x && (d.z == c.z + 1 || d.z == c.z - 1))
  }

  /** Two neighbouring cells of the same height. */
  predicate Level(plane: Heights, c: Cell, d: Cell) {
    c in plane && d in plane && plane[c] == plane[d] && Touches(c, d)
  }

  ghost predicate Path(plane: Heights, path: seq<Cell>) {
    && path != [] && path[0] in plane
    && forall i | 0 < i < |path| :: Level(plane, path[i - 1], path[i])
  }

  ghost predicate Linked(plane: Heights, c: Cell, d: Cell) {
    exists path :: Path(plane, path) && path[0] == c && path[|path| - 1] == d
  }

  /** The whole plane a cell lies on. */
  ghost function Component(plane: Heights, c: Cell): set<Cell> {
    set d | d in plane && Linked(plane, c, d)
  }

  // ---------- linked is an equivalence ----------

  lemma LinkedSelf(plane: Heights, c: Cell)
    requires c in plane
    ensures Linked(plane, c, c)
  {
    assert Path(plane, [c]);
  }

  lemma LinkedStep(plane: Heights, c: Cell, d: Cell, e: Cell)
    requires Linked(plane, c, d) && Level(plane, d, e)
    ensures Linked(plane, c, e)
  {
    var path :| Path(plane, path) && path[0] == c && path[|path| - 1] == d;
    var longer := path + [e];
    assert Path(plane, longer) && longer[0] == c && longer[|longer| - 1] == e;
  }

  lemma LinkedBack(plane: Heights, c: Cell, d: Cell)
    requires Linked(plane, c, d)
    ensures Linked(plane, d, c)
  {
    var path :| Path(plane, path) && path[0] == c && path[|path| - 1] == d;
    var n := |path|;
    var back := seq(n, i requires 0 <= i < n => path[n - 1 - i]);
    forall i | 0 < i < n ensures Level(plane, back[i - 1], back[i]) {
      assert Level(plane, path[n - 1 - i], path[n - i]);
    }
    assert n > 1 ==> Level(plane, path[n - 2], path[n - 1]);
    assert Path(plane, back) && back[0] == d && back[n - 1] == c;
  }

  lemma LinkedOn(plane: Heights, c: Cell, d: Cell, e: Cell)
    requires Linked(plane, c, d) && Linked(plane, d, e)
    ensures Linked(plane, c, e)
  {
    var p :| Path(plane, p) && p[0] == c && p[|p| - 1] == d;
    var q :| Path(plane, q) && q[0] == d && q[|q| - 1] == e;
    var all := p + q[1..];
    forall i | 0 < i < |all| ensures Level(plane, all[i - 1], all[i]) {
      if i >= |p| { assert Level(plane, q[i - |p|], q[i - |p| + 1]); }
    }
    assert Path(plane, all) && all[0] == c && all[|all| - 1] == e;
  }

  /** Cells of one plane have the same plane. */
  lemma SameComponent(plane: Heights, c: Cell, d: Cell)
    requires Linked(plane, c, d)
    ensures Component(plane, c) == Component(plane, d)
  {
    LinkedBack(plane, c, d);
    forall e | e in plane ensures Linked(plane, c, e) <==> Linked(plane, d, e) {
      if Linked(plane, c, e) { LinkedOn(plane, d, c, e); }
      if Linked(plane, d, e) { LinkedOn(plane, c, d, e); }
    }
  }

  /** A set of cells with all their neighbours of the same height. */
  ghost predicate Closed(plane: Heights, s: set<Cell>) {
    forall c, d | c in s && Level(plane, c, d) :: d in s
  }

  lemma {:induction false} PathStays(plane: Heights, s: set<Cell>, path: seq<Cell>, i: nat)
    requires Closed(plane, s) && Path(plane, path) && path[0] in s && i < |path|
    ensures path[i] in s && path[i] in plane && plane[path[i]] == plane[path[0]]
  {
    if i > 0 {
      PathStays(plane, s, path, i - 1);
      assert Level(plane, path[i - 1], path[i]);
    }
  }

  lemma ComponentWithin(plane: Heights, s: set<Cell>, c: Cell)
    requires Closed(plane, s) && c in s
    ensures Component(plane, c) <= s
    ensures forall d | d in Component(plane, c) :: plane[d] == plane[c]
  {
    forall d | d in Component(plane, c) ensures d in s && plane[d] == plane[c] {
      var path :| Path(plane, path) && path[0] == c && path[|path| - 1] == d;
      PathStays(plane, s, path, |path| - 1);
    }
  }

  lemma SameHeight(plane: Heights, c: Cell)
    requires c in plane
    ensures forall d | d in Component(plane, c) :: plane[d] == plane[c]
  {
    ComponentWithin(plane, plane.Keys, c);
  }

  // ---------- listings ----------

  ghost predicate Distinct(cells: seq<Cell>) {
    forall i, j | 0 <= i < j < |cells| :: cells[i] != cells[j]
  }

  /** The cells of the set, each once. */
  ghost predicate Lists(cells: seq<Cell>, s: set<Cell>) {
    Distinct(cells) && forall c :: c in cells <==> c in s
  }

  lemma {:induction false} ListedSize(cells: seq<Cell>, s: set<Cell>)
    requires Lists(cells, s)
    ensures |cells| == |s|
    decreases |cells|
  {
    if cells == [] {
      assert s == {};
    } else {
      var c, rest := cells[0], cells[1..];
      assert c in cells;
      forall d ensures d in rest <==> d in s - {c} {
        assert d in cells <==> d == c || d in rest;
      }
      ListedSize(rest, s - {c});
    }
  }

  function SumX(cells: seq<Cell>): int {
    if cells == [] then 0 else SumX(cells[..|cells| - 1]) + cells[|cells| - 1].x
  }

  function SumZ(cells: seq<Cell>): int {
    if cells == [] then 0 else SumZ(cells[..|cells| - 1]) + cells[|cells| - 1].z
  }

  lemma {:induction false} SumSnoc(cells: seq<Cell>, c: Cell)
    ensures SumX(cells + [c]) == SumX(cells) + c.x && SumZ(cells + [c]) == SumZ(cells) + c.z
  {
    assert (cells + [c])[..|cells|] == cells;
  }

  /** The smallest rectangle around the listed cells. */
  datatype Bounds = Bounds(minX: int, maxX: int, minZ: int, maxZ: int)

  predicate In(b: Bounds, c: Cell) { b.minX <= c.x <= b.maxX && b.minZ <= c.z <= b.maxZ }

  function Widen(b: Bounds, c: Cell): Bounds {
    Bounds(if c.x < b.minX then c.x else b.minX, if c.x > b.maxX then c.x else b.maxX,
           if c.z < b.minZ then c.z else b.minZ, if c.z > b.maxZ then c.z else b.maxZ)
  }

  function Point(c: Cell): Bounds { Bounds(c.x, c.x, c.z, c.z) }

  function BoundsOf(cells: seq<Cell>): Bounds
    requires cells != []
  {
    var last := cells[|cells| - 1];
    if |cells| == 1 then Point(last) else Widen(BoundsOf(cells[..|cells| - 1]), last)
  }

  /** All cells are within the bounds, and each bound is met by one of them. */
  lemma {:induction false} BoundsTight(cells: seq<Cell>) returns (x0: Cell, x1: Cell, z0: Cell, z1: Cell)
    requires cells != []
    ensures forall c | c in cells :: In(BoundsOf(cells), c)
    ensures x0 in cells && x1 in cells && z0 in cells && z1 in cells
    ensures BoundsOf(cells) == Bounds(x0.x, x1.x, z0.z, z1.z)
    decreases |cells|
  {
    var last := cells[|cells| - 1];
    x0, x1, z0, z1 := last, last, last, last;
    if |cells| > 1 {
      var front := cells[..|cells| - 1];
      assert forall c :: c in cells <==> c in front || c == last;
      var a0, a1, b0, b1 := BoundsTight(front);
      if last.x >= a0.x { x0 := a0; }
      if last.x <= a1.x { x1 := a1; }
      if last.z >= b0.z { z0 := b0; }
      if last.z <= b1.z { z1 := b1; }
    }
  }

  // ---------- centres ----------

  /** Division that drops the fraction, as the machine does for negative numbers too. */
  function Quotient(a: int, b: int): int
    requires b > 0
  {
    if a >= 0 then a / b else -((-a) / b)
  }

  lemma OneMore(n: int, a: int)
    ensures (n + 1) * a == n * a + a
  {
  }

  lemma {:induction false} SumBetween(cells: seq<Cell>, b: Bounds)
    requires forall c | c in cells :: In(b, c)
    ensures |cells| * b.minX <= SumX(cells) <= |cells| * b.maxX
    ensures |cells| * b.minZ <= SumZ(cells) <= |cells| * b.maxZ
  {
    if cells != [] {
      var front, last := cells[..|cells| - 1], cells[|cells| - 1];
      assert last in cells;
      SumBetween(front, b);
      OneMore(|front|, b.minX);
      OneMore(|front|, b.maxX);
      OneMore(|front|, b.minZ);
      OneMore(|front|, b.maxZ);
    }
  }

  lemma Scaled(n: int, a: int, q: int)
    requires n > 0
    ensures n * a <= n * q + (n - 1) <==> a <= q
  {
    if a <= q {
      Grows(n, q - a);
      assert n * q - n * a == n * (q - a);
    } else {
      Grows(n, a - q - 1);
      assert n * a - n * q - n == n * (a - q - 1);
    }
  }

  lemma Grows(n: int, k: int)
    requires n >= 0 && k >= 0
    ensures n * k >= 0
  {
  }

  lemma Remainder(s: int, n: int)
    requires n > 0 && s >= 0
    ensures n * (s / n) <= s <= n * (s / n) + (n - 1)
  {
  }

  /** The truncated mean of numbers between two integers lies between them. */
  lemma QuotientBetween(s: int, n: int, lo: int, hi: int)
    requires n > 0 && n * lo <= s <= n * hi
    ensures lo <= Quotient(s, n) <= hi
  {
    if s >= 0 {
      Remainder(s, n);
      Scaled(n, lo, s / n);
      Scaled(n, s / n, hi);
    } else {
      Remainder(-s, n);
      var q := (-s) / n;
      assert n * -hi == -(n * hi) && n * -lo == -(n * lo);
      Scaled(n, -hi, q);
      Scaled(n, q, -lo);
    }
  }

  function DistanceSquared(c: Cell, d: Cell): int { (c.x - d.x) * (c.x - d.x) + (c.z - d.z) * (c.z - d.z) }

  /** The mean of the listed cells, fractions dropped. */
  function Middle(cells: seq<Cell>): Cell
    requires cells != []
  {
    Cell(Quotient(SumX(cells), |cells|), Quotient(SumZ(cells), |cells|))
  }

  lemma MiddleInside(cells: seq<Cell>, b: Bounds)
    requires cells != [] && forall c | c in cells :: In(b, c)
    ensures In(b, Middle(cells))
  {
    SumBetween(cells, b);
    QuotientBetween(SumX(cells), |cells|, b.minX, b.maxX);
    QuotientBetween(SumZ(cells), |cells|, b.minZ, b.maxZ);
  }

  /** The search for a centre takes the cell nearest to the middle, and of several the first in the
      order of rows and, within a row, of columns. */
  predicate Preferred(c: Cell, d: Cell, mid: Cell) {
    var a, b := DistanceSquared(c, mid), DistanceSquared(d, mid);
    a < b || (a == b && (c.z < d.z || (c.z == d.z && c.x < d.x)))
  }

  /** Where the centre of a plane is put: the origin if the plane has it, else the preferred one of
      all cells of the plane's height in the rectangle. A cell at the middle is always preferred. */
  ghost predicate Centre(plane: Heights, cells: seq<Cell>, y: int, use: Cell) {
    cells != [] &&
    var b, mid := BoundsOf(cells), Middle(cells);
    if Cell(0, 0) in cells then use == Cell(0, 0)
    else
      && use in plane && plane[use] == y && In(b, use)
      && forall c | c in plane && plane[c] == y && In(b, c) && c != use :: Preferred(use, c, mid)
  }

  lemma {:induction false} Squares(a: int)
    ensures a * a >= 0 && (a * a == 0 <==> a == 0)
  {
    if a > 0 { Grows(a, a - 1); } else if a < 0 { Grows(-a, -a - 1); }
  }

  lemma MiddlePreferred(mid: Cell, c: Cell)
    requires c != mid
    ensures Preferred(mid, c, mid)
  {
    Squares(c.x - mid.x);
    Squares(c.z - mid.z);
  }

  /** There is one place for the centre of a plane, however its cells are listed. */
  lemma CentreUnique(plane: Heights, cells: seq<Cell>, y: int, use: Cell, other: Cell)
    requires Centre(plane, cells, y, use) && Centre(plane, cells, y, other)
    ensures use == other
  {
  }

  /** A cell of the rectangle that has the height of the plane and is not on it. */
  ghost predicate Stranger(plane: Heights, cells: seq<Cell>, y: int, e: Cell) {
    cells != [] && e in plane && plane[e] == y && In(BoundsOf(cells), e) && e !in cells
  }

  lemma OnlyOnePreferred(c: Cell, d: Cell, mid: Cell)
    requires Preferred(c, d, mid)
    ensures !Preferred(d, c, mid)
  {
  }

  /** If the centre is not on the plane, no cell of the plane is preferred to it. */
  lemma {:induction false} StrangerWins(plane: Heights, cells: seq<Cell>, y: int, use: Cell, d: Cell)
    requires Centre(plane, cells, y, use) && Cell(0, 0) !in cells && use !in cells
    requires d in cells && d in plane && plane[d] == y && In(BoundsOf(cells), d)
    ensures Stranger(plane, cells, y, use) && !Preferred(d, use, Middle(cells))
  {
    OnlyOnePreferred(use, d, Middle(cells));
  }

  lemma MemberWins(plane: Heights, cells: seq<Cell>, y: int, use: Cell, e: Cell)
    requires Centre(plane, cells, y, use) && Cell(0, 0) !in cells && use in cells && Stranger(plane, cells, y, e)
    ensures Preferred(use, e, Middle(cells))
  {
  }

  /** Some cell of the plane is preferred to every stranger. */
  ghost predicate Prevails(plane: Heights, cells: seq<Cell>, y: int) {
    cells != [] && exists d :: d in cells && PreferredToAll(plane, cells, y, d)
  }

  ghost predicate PreferredToAll(plane: Heights, cells: seq<Cell>, y: int, d: Cell)
    requires cells != []
  {
    forall e | Stranger(plane, cells, y, e) :: Preferred(d, e, Middle(cells))
  }

  /** The centre stands on the plane itself exactly when the plane has the origin, or one of its cells
      is preferred to every cell of another plane of the same height in the rectangle. */
  lemma CentreOnPlane(plane: Heights, cells: seq<Cell>, c: Cell, use: Cell)
    requires c in plane && Lists(cells, Component(plane, c)) && Centre(plane, cells, plane[c], use)
    ensures use in Component(plane, c) <==> Cell(0, 0) in cells || Prevails(plane, cells, plane[c])
  {
    var y := plane[c];
    var x0, x1, z0, z1 := BoundsTight(cells);
    SameHeight(plane, c);
    if Cell(0, 0) !in cells {
      if use in cells {
        forall e | Stranger(plane, cells, y, e) ensures Preferred(use, e, Middle(cells)) {
          MemberWins(plane, cells, y, use, e);
        }
        assert PreferredToAll(plane, cells, y, use);
      } else {
        forall d | d in cells ensures !PreferredToAll(plane, cells, y, d) {
          StrangerWins(plane, cells, y, use, d);
        }
      }
    }
  }

  // ---------- a plane whose centre is on another ----------

  /** The border of the square 5..9 by 5..9, walked around. */
  function RingAt(i: nat): Cell {
    if i < 4 then Cell(5 + i, 5) else if i < 8 then Cell(9, 1 + i) else if i < 12 then Cell(17 - i, 9) else Cell(5, 21 - i)
  }

  predicate OnRing(c: Cell) {
    5 <= c.x <= 9 && 5 <= c.z <= 9 && (c.x == 5 || c.x == 9 || c.z == 5 || c.z == 9)
  }

  const POST: Cell := Cell(7, 7)

  function Ring(): seq<Cell> { seq(16, i requires 0 <= i < 16 => RingAt(i)) }

  /** The ring and the post within it, all at one height. */
  function RingPlane(): Heights {
    map x, z | 5 <= x <= 9 && 5 <= z <= 9 && (OnRing(Cell(x, z)) || Cell(x, z) == POST) :: Cell(x, z) := 64
  }

  lemma {:induction false} RingLinked(i: nat)
    requires i < 16
    ensures Linked(RingPlane(), RingAt(0), RingAt(i))
  {
    assert OnRing(RingAt(i));
    if i == 0 {
      LinkedSelf(RingPlane(), RingAt(0));
    } else {
      RingLinked(i - 1);
      assert OnRing(RingAt(i - 1)) && Touches(RingAt(i - 1), RingAt(i));
      LinkedStep(RingPlane(), RingAt(0), RingAt(i - 1), RingAt(i));
    }
  }

  lemma {:induction false} RingWhere(c: Cell) returns (i: nat)
    requires OnRing(c)
    ensures i < 16 && RingAt(i) == c
  {
    i := if c.z == 5 && c.x < 9 then c.x - 5 else if c.x == 9 && c.z < 9 then c.z - 1
         else if c.z == 9 && c.x > 5 then 17 - c.x else 21 - c.z;
  }

  lemma RingComponent()
    ensures Lists(Ring(), Component(RingPlane(), RingAt(0)))
  {
    var ring := set c | c in RingPlane() && OnRing(c);
    assert Closed(RingPlane(), ring);
    assert RingAt(0) in ring;
    ComponentWithin(RingPlane(), ring, RingAt(0));
    forall c | c in Ring() ensures c in Component(RingPlane(), RingAt(0)) {
      var i :| 0 <= i < 16 && Ring()[i] == c;
      RingLinked(i);
      assert OnRing(c);
    }
    forall c | c in ring ensures c in Ring() {
      var i := RingWhere(c);
      assert Ring()[i] == c;
    }
  }

  // Sums over the first `n` cells of the ring.

  function RingSumX(n: nat): int { if n == 0 then 0 else RingSumX(n - 1) + RingAt(n - 1).x }

  function RingSumZ(n: nat): int { if n == 0 then 0 else RingSumZ(n - 1) + RingAt(n - 1).z }

  lemma {:induction false} RingSums(n: nat)
    requires n <= 16
    ensures SumX(Ring()[..n]) == RingSumX(n) && SumZ(Ring()[..n]) == RingSumZ(n)
  {
    if n > 0 {
      RingSums(n - 1);
      assert Ring()[..n] == Ring()[..n - 1] + [RingAt(n - 1)];
      SumSnoc(Ring()[..n - 1], RingAt(n - 1));
    }
  }

  lemma RingMiddle()
    ensures Middle(Ring()) == POST
  {
    RingSums(16);
    assert Ring()[..16] == Ring();
    assert RingSumX(2) == 11 && RingSumX(4) == 26 && RingSumX(6) == 44 && RingSumX(8) == 62;
    assert RingSumX(10) == 79 && RingSumX(12) == 92 && RingSumX(14) == 102 && RingSumX(16) == 112;
    assert RingSumZ(2) == 10 && RingSumZ(4) == 20 && RingSumZ(6) == 31 && RingSumZ(8) == 46;
    assert RingSumZ(10) == 64 && RingSumZ(12) == 82 && RingSumZ(14) == 99 && RingSumZ(16) == 112;
  }

  lemma RingInBounds()
    ensures In(BoundsOf(Ring()), RingAt(0)) && In(BoundsOf(Ring()), RingAt(8))
  {
    var x0, x1, z0, z1 := BoundsTight(Ring());
    assert Ring()[0] in Ring() && Ring()[8] in Ring();
  }

  /** The check that a centre stands on the plane compares heights only: a ring of sixteen cells
      around a lone cell of the same height takes that cell, which is not on the ring, for its centre. */
  lemma CentreOffPlane(use: Cell)
    requires Centre(RingPlane(), Ring(), 64, use)
    ensures Lists(Ring(), Component(RingPlane(), RingAt(0))) && use !in Component(RingPlane(), RingAt(0))
  {
    RingComponent();
    RingMiddle();
    RingInBounds();
    assert POST in RingPlane() && In(BoundsOf(Ring()), POST);
    if use != POST { MiddlePreferred(POST, use); }
    assert forall i | 0 <= i < 16 :: Ring()[i] == RingAt(i) && RingAt(i) != Cell(0, 0) && RingAt(i) != POST;
  }
}
