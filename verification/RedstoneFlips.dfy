/** What a tick does to the world: each repeater ends in the state of its last flip that is due, all
    others stay, and around a flip the wires, the consumers and further flips follow. */
module RedstoneFlips {
  import opened RedstoneWorld
  import opened RedstoneWires
  import opened RedstoneUpdate
  import opened RedstoneResults
  import opened RedstoneSchedules
  import opened RedstoneDirections

  predicate Repeater(c: Cell) { c.id == 93 || c.id == 94 }

  /** A flip of the repeater at `p` that has at most `left` ticks to go. */
  predicate DueAt(s: Schedule, p: Pos, left: int) { s.pos == p && s.delay <= left }

  /** The cell at `p` after those flips in turn: each happens if it finds the other state. */
  function Lands(c: Cell, p: Pos, flips: seq<Schedule>, left: int): Cell {
    if flips == [] then c
    else
      var before, s := Lands(c, p, flips[..|flips| - 1], left), flips[|flips| - 1];
      if DueAt(s, p, left) && s.id != before.id then Cell(s.id, s.meta) else before
  }

  lemma {:induction false} FiredAllSnoc(c: Circuit, due: seq<Schedule>, s: Schedule)
    ensures FiredAll(c, due + [s]) == Fired(FiredAll(c, due), s)
    decreases |due|
  {
    if due == [] {
      assert [s][1..] == [] && [] + [s] == [s];
    } else {
      assert (due + [s])[0] == due[0] && (due + [s])[1..] == due[1..] + [s];
      FiredAllSnoc(Fired(c, due[0]), due[1..], s);
    }
  }

  lemma FiredRepeater(c: Circuit, s: Schedule, p: Pos)
    requires IsRepeater(s.id) && s.delay <= 0
    ensures var a, d := At(c.world, p), At(Fired(c, s).world, p);
            && (IsRepeater(a.id) <==> IsRepeater(d.id))
            && (IsRepeater(a.id) ==> d == if DueAt(s, p, 0) && s.id != a.id then Cell(s.id, s.meta) else a)
  {
    var v := SetBlock(c.world, s.pos, Cell(s.id, s.meta));
    WiresAndRepeaters(v, Box(s.pos, Clamp(FLIP_RADIUS)));
  }

  lemma {:induction false} FiredAllRepeaters(c: Circuit, due: seq<Schedule>, p: Pos)
    requires forall s | s in due :: IsRepeater(s.id) && s.delay <= 0
    ensures var a, d := At(c.world, p), At(FiredAll(c, due).world, p);
            && (IsRepeater(a.id) <==> IsRepeater(d.id))
            && (IsRepeater(a.id) ==> d == Lands(a, p, due, 0))
    decreases |due|
  {
    if due != [] {
      var front, s := due[..|due| - 1], due[|due| - 1];
      assert s in due && due == front + [s];
      FiredAllRepeaters(c, front, p);
      FiredAllSnoc(c, front, s);
      FiredRepeater(FiredAll(c, front), s, p);
    }
  }

  /** A tick later the same flips are due. */
  lemma {:induction false} LandsLater(c: Cell, p: Pos, flips: seq<Schedule>)
    ensures Lands(c, p, Later(flips, true), 0) == Lands(c, p, flips, 1)
  {
    if flips != [] {
      var front, last := flips[..|flips| - 1], flips[|flips| - 1];
      var kept, s := Later(front, true), last.(delay := last.delay - 1);
      LandsLater(c, p, front);
      assert (kept + [s])[..|kept|] == kept && kept + [] == kept;
    }
  }

  lemma {:induction false} LandsLast(c: Cell, p: Pos, flips: seq<Schedule>, left: int)
    requires IsRepeater(c.id) && Distinct(flips) && forall s | s in flips :: IsRepeater(s.id)
    ensures var d := Lands(c, p, flips, left);
            && ((forall i | 0 <= i < |flips| :: !DueAt(flips[i], p, left)) ==> d == c)
            && (forall i | LastDue(flips, i, p, left) ::
                  && d.id == flips[i].id
                  && (d == Cell(flips[i].id, flips[i].meta)
                      || (d == c && forall j | 0 <= j < i :: !DueAt(flips[j], p, left))))
  {
    if flips != [] {
      var front, n := flips[..|flips| - 1], |flips| - 1;
      var before := Lands(c, p, front, left);
      LandsLast(c, p, front, left);
      forall i | LastDue(flips, i, p, left) && i < n ensures LastDue(front, i, p, left) {
        assert !DueAt(flips[n], p, left);
      }
      if DueAt(flips[n], p, left) && before.id == flips[n].id {
        NoneBefore(c, p, flips, left, n);
      }
    }
  }

  lemma {:induction false} NoneBefore(c: Cell, p: Pos, flips: seq<Schedule>, left: int, n: nat)
    requires n == |flips| - 1 && Distinct(flips) && DueAt(flips[n], p, left)
    requires var front := flips[..n];
             forall i | LastDue(front, i, p, left) :: flips[n].id == front[i].id
    ensures forall j | 0 <= j < n :: !DueAt(flips[j], p, left)
  {
    var front := flips[..n];
    if j :| 0 <= j < n && DueAt(flips[j], p, left) {
      var i := TheLast(front, j, p, left);
      assert SameFlip(flips[i], flips[n]);
    }
  }

  /** The last flip of the repeater at `p` that is due. */
  ghost predicate LastDue(flips: seq<Schedule>, i: int, p: Pos, left: int) {
    0 <= i < |flips| && DueAt(flips[i], p, left) && forall j | i < j < |flips| :: !DueAt(flips[j], p, left)
  }

  lemma {:induction false} TheLast(flips: seq<Schedule>, j: nat, p: Pos, left: int) returns (i: nat)
    requires j < |flips| && DueAt(flips[j], p, left)
    ensures LastDue(flips, i, p, left)
    decreases |flips| - j
  {
    if k :| j < k < |flips| && DueAt(flips[k], p, left) {
      i := TheLast(flips, k, p, left);
    } else {
      i := j;
    }
  }

  /** After a tick a repeater is in the state of its last flip with one tick to go, with the setting of
      that flip unless it was in that state and had no other due; a repeater with none stays as it was,
      and no repeater appears or goes. */
  lemma TickFlips(c: Circuit, p: Pos)
    requires Waiting(c.pending)
    ensures var a, d := At(c.world, p), At(Ticked(c).world, p);
            && (Repeater(a) <==> Repeater(d))
            && (Repeater(a) && (forall s | s in c.pending && s.pos == p :: s.delay > 1) ==> d == a)
            && (Repeater(a) ==> forall i | LastDue(c.pending, i, p, 1) ::
                  && d.id == c.pending[i].id
                  && (d == Cell(c.pending[i].id, c.pending[i].meta)
                      || (d == a && forall j | 0 <= j < i :: !DueAt(c.pending[j], p, 1))))
  {
    var a := At(c.world, p);
    LaterCounts(c.pending, true);
    FiredAllRepeaters(c.(pending := Later(c.pending, false)), Later(c.pending, true), p);
    LandsLater(a, p, c.pending);
    if Repeater(a) { LandsLast(a, p, c.pending, 1); }
  }

  // ---------- around a flip ----------

  lemma {:induction false} LaterOnly(pending: seq<Schedule>, i: nat)
    requires i < |pending| && pending[i].delay <= 1
    requires forall j | 0 <= j < |pending| && j != i :: pending[j].delay > 1
    ensures Later(pending, true) == [pending[i].(delay := pending[i].delay - 1)]
  {
    var n := |pending| - 1;
    if i == n {
      LaterNone(pending[..n]);
    } else {
      assert pending[n].delay > 1;
      LaterOnly(pending[..n], i);
    }
  }

  lemma {:induction false} LaterNone(pending: seq<Schedule>)
    requires forall j | 0 <= j < |pending| :: pending[j].delay > 1
    ensures Later(pending, true) == []
  {
    if pending != [] {
      assert pending[|pending| - 1].delay > 1;
      LaterNone(pending[..|pending| - 1]);
    }
  }

  /** `s` is the one flip with a tick to go, and finds its repeater in the other state. */
  ghost predicate OneFlip(c: Circuit, i: nat) {
    && i < |c.pending| && Waiting(c.pending) && c.pending[i].delay == 1
    && (forall j | 0 <= j < |c.pending| && j != i :: c.pending[j].delay > 1)
    && Repeater(At(c.world, c.pending[i].pos)) && At(c.world, c.pending[i].pos).id != c.pending[i].id
  }

  lemma TickIsRecompute(c: Circuit, i: nat)
    requires OneFlip(c, i)
    ensures var s := c.pending[i];
            var r := Recomputed(SetBlock(c.world, s.pos, Cell(s.id, s.meta)), Box(s.pos, 16), true);
            Ticked(c) == Circuit(r.world, EnqueuedAll(Later(c.pending, false), r.due))
  {
    LaterOnly(c.pending, i);
    var s := c.pending[i].(delay := c.pending[i].delay - 1);
    var start := c.(pending := Later(c.pending, false));
    assert [s][1..] == [];
    assert FiredAll(start, [s]) == FiredAll(Fired(start, s), []);
  }

  predicate InReach(p: Pos, q: Pos, reach: nat) {
    && p.x - reach <= q.x <= p.x + reach && p.z - reach <= q.z <= p.z + reach
    && p.y - reach <= q.y <= p.y + reach && 0 <= q.y <= 127
  }

  lemma {:induction false} VisitAllElsewhere(s: Pass, ps: seq<Pos>, q: Pos)
    requires q !in ps
    ensures At(VisitAll(s, ps, true).world, q) == At(s.world, q)
    decreases |ps|
  {
    if ps != [] { VisitAllElsewhere(Visit(s, ps[0], true), ps[1..], q); }
  }

  /** A recompute reaches as far as its radius, but at least 1 and at most 32 blocks, within the world:
      there every wire takes the worth of its best walk; farther away nothing changes. */
  lemma RecomputeReaches(c: Circuit, centre: Pos, radius: int, q: Pos)
    ensures var reach := if radius < 1 then 1 else if radius > 32 then 32 else radius;
            var d := At(Recompute(c, centre, radius).world, q);
            && (InReach(centre, q, reach) && At(c.world, q).id == 55 ==>
                  d == Cell(55, Power(c.world, Box(centre, reach), q)))
            && (!InReach(centre, q, reach) ==> d == At(c.world, q))
  {
    var b := Box(centre, Clamp(radius));
    CellsAreInside(b);
    WiresAndRepeaters(c.world, b);
    WrittenWires(c.world, b);
    assert InReach(centre, q, Clamp(radius)) <==> Inside(b, q);
    if !Inside(b, q) { VisitAllElsewhere(WiresWritten(c.world, b), Cells(b), q); }
  }

  /** When one flip is due, the tick turns its repeater over, and every wire within 16 blocks of it
      carries the worth of its best walk in the world with the repeater turned over; other wires keep
      what they had. */
  lemma {:induction false} FlipPowersWires(c: Circuit, i: nat) returns (v: World)
    requires OneFlip(c, i)
    ensures var s := c.pending[i];
            && v.chests == c.world.chests && v.nether == c.world.nether
            && (forall q :: At(v, q) == if q == s.pos then Cell(s.id, s.meta) else At(c.world, q))
            && (forall q | At(c.world, q).id == 55 ::
                  At(Ticked(c).world, q) == if InReach(s.pos, q, 16) then Cell(55, Power(v, Box(s.pos, 16), q))
                                            else At(c.world, q))
            && At(Ticked(c).world, s.pos) == Cell(s.id, s.meta)
  {
    var s := c.pending[i];
    assert s in c.pending;
    v := SetBlock(c.world, s.pos, Cell(s.id, s.meta));
    TickIsRecompute(c, i);
    WiresAndRepeaters(v, Box(s.pos, 16));
  }

  /** In particular, wire ahead of a repeater that is switched on carries 15 after the tick. */
  lemma SwitchedOnFeeds(c: Circuit, i: nat)
    requires OneFlip(c, i) && c.pending[i].id == 94
    ensures var q := Ahead(c.pending[i].pos, c.pending[i].meta);
            At(c.world, q).id == 55 ==> At(Ticked(c).world, q) == Cell(55, 15)
  {
    var s := c.pending[i];
    assert s in c.pending;
    var v, q := SetBlock(c.world, s.pos, Cell(s.id, s.meta)), Ahead(s.pos, s.meta);
    TickIsRecompute(c, i);
    if At(c.world, q).id == 55 {
      assert s.pos == Shifted(q, s.pos.x - q.x, s.pos.y - q.y, s.pos.z - q.z);
      WireAtSource(v, Box(s.pos, 16), q, s.pos.x - q.x, s.pos.y - q.y, s.pos.z - q.z);
    }
  }
}
