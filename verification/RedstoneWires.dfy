/** Wire strength. The reference is the best path from a powered wire of the box; the relaxation over
    an unsorted queue reaches exactly that, and it is the one solution of the local equation. */
module RedstoneWires {
  import opened RedstoneWorld

  /** The cells recomputed around `centre`. */
  datatype Box = Box(centre: Pos, radius: nat)

  predicate Inside(b: Box, p: Pos) {
    && b.centre.x - b.radius <= p.x <= b.centre.x + b.radius
    && b.centre.z - b.radius <= p.z <= b.centre.z + b.radius
    && Bottom(b) <= p.y <= Top(b)
  }

  function Bottom(b: Box): int { if b.centre.y - b.radius < 0 then 0 else b.centre.y - b.radius }

  function Top(b: Box): int { if b.centre.y + b.radius > 127 then 127 else b.centre.y + b.radius }

  // ---------- the graph of wires ----------

  /** Wire leads one block sideways, level or one step up or down. */
  predicate Leads(p: Pos, q: Pos) {
    && (((q.x == p.x + 1 || q.x == p.x - 1) && q.z == p.z) || (q.x == p.x && (q.z == p.z + 1 || q.z == p.z - 1)))
    && p.y - 1 <= q.y <= p.y + 1
  }

  function Steps(p: Pos): seq<Pos> {
    var a, b, c, d := p.(x := p.x + 1), p.(x := p.x - 1), p.(z := p.z + 1), p.(z := p.z - 1);
    [a, a.(y := p.y + 1), a.(y := p.y - 1), b, b.(y := p.y + 1), b.(y := p.y - 1),
     c, c.(y := p.y + 1), c.(y := p.y - 1), d, d.(y := p.y + 1), d.(y := p.y - 1)]
  }

  lemma StepsAreLeads(p: Pos, q: Pos)
    ensures q in Steps(p) <==> Leads(p, q)
  {
    if Leads(p, q) {
      var i := if q.z == p.z then (if q.x > p.x then 0 else 3) else if q.z > p.z then 6 else 9;
      var j := if q.y == p.y then 0 else if q.y > p.y then 1 else 2;
      assert Steps(p)[i + j] == q;
    }
  }

  /** What the blocks around a wire of the box feed into it. */
  function Seed(w: World, b: Box, p: Pos): int {
    if Inside(b, p) && Wire(w, p) then AdjacentPower(w, p) else 0
  }

  lemma SeedRange(w: World, b: Box, p: Pos)
    ensures 0 <= Seed(w, b, p) <= 15
  {
    MostGivenIsMaximum(w, Sides(p), p);
  }

  // ---------- the reference ----------

  /** The wire carries `v` or more: fed so, or led to by a wire that carries more than `v`. */
  ghost predicate Carries(w: World, b: Box, v: int, p: Pos)
    decreases 16 - v
  {
    v <= 15 && Wire(w, p) && (Seed(w, b, p) >= v || exists q :: Leads(q, p) && Carries(w, b, v + 1, q))
  }

  /** The most a wire carries, 0 for one that carries nothing. */
  ghost function Power(w: World, b: Box, p: Pos): (s: int)
    ensures 0 <= s <= 15
  {
    PowerUpTo(w, b, 15, p)
  }

  ghost function PowerUpTo(w: World, b: Box, v: nat, p: Pos): (s: int)
    ensures 0 <= s <= v
  {
    if v == 0 then 0 else if Carries(w, b, v, p) then v else PowerUpTo(w, b, v - 1, p)
  }

  lemma {:induction false} CarriesLess(w: World, b: Box, v: int, u: int, p: Pos)
    requires u <= v && Carries(w, b, v, p)
    ensures Carries(w, b, u, p)
    decreases 16 - u
  {
    if u < v && Seed(w, b, p) < v {
      var q :| Leads(q, p) && Carries(w, b, v + 1, q);
      CarriesLess(w, b, v + 1, u + 1, q);
    }
  }

  lemma {:induction false} PowerReached(w: World, b: Box, v: nat, p: Pos)
    ensures PowerUpTo(w, b, v, p) > 0 ==> Carries(w, b, PowerUpTo(w, b, v, p), p)
    ensures forall u | 0 < u <= v && Carries(w, b, u, p) :: u <= PowerUpTo(w, b, v, p)
  {
    if v > 0 && !Carries(w, b, v, p) { PowerReached(w, b, v - 1, p); }
  }

  /** `Power` and `Carries` say the same. */
  lemma {:induction false} PowerIsCarried(w: World, b: Box, p: Pos)
    ensures forall v | v > 0 :: Carries(w, b, v, p) <==> v <= Power(w, b, p)
  {
    PowerReached(w, b, 15, p);
    forall v | 0 < v <= Power(w, b, p) ensures Carries(w, b, v, p) {
      CarriesLess(w, b, Power(w, b, p), v, p);
    }
  }

  // ---------- paths ----------

  /** A walk over wires, each leading to the next. */
  ghost predicate Walk(w: World, path: seq<Pos>) {
    && path != []
    && (forall i | 0 <= i < |path| :: Wire(w, path[i]))
    && (forall i | 0 < i < |path| :: Leads(path[i - 1], path[i]))
  }

  /** What the first wire of the walk is fed, less the length of the walk. */
  function Worth(w: World, b: Box, path: seq<Pos>): int
    requires path != []
  {
    Seed(w, b, path[0]) - (|path| - 1)
  }

  lemma {:induction false} WalkCarries(w: World, b: Box, path: seq<Pos>)
    requires Walk(w, path) && Worth(w, b, path) > 0
    ensures Carries(w, b, Worth(w, b, path), path[|path| - 1])
    decreases |path|
  {
    SeedRange(w, b, path[0]);
    if |path| > 1 {
      var front := path[..|path| - 1];
      WalkCarries(w, b, front);
      assert Leads(front[|front| - 1], path[|path| - 1]);
    }
  }

  lemma {:induction false} CarriedByWalk(w: World, b: Box, v: int, p: Pos) returns (path: seq<Pos>)
    requires v > 0 && Carries(w, b, v, p)
    ensures Walk(w, path) && path[|path| - 1] == p && Worth(w, b, path) >= v
    decreases 16 - v
  {
    if Seed(w, b, p) >= v {
      path := [p];
    } else {
      var q :| Leads(q, p) && Carries(w, b, v + 1, q);
      var front := CarriedByWalk(w, b, v + 1, q);
      path := front + [p];
      assert path[|path| - 2] == q;
    }
  }

  /** The strength of a wire is the greatest worth of a walk to it, over all walks that start in the
      box and may leave it, or 0 when no walk is worth more. */
  lemma PowerIsBestWalk(w: World, b: Box, p: Pos)
    ensures forall path | Walk(w, path) && path[|path| - 1] == p :: Worth(w, b, path) <= Power(w, b, p)
    ensures Power(w, b, p) > 0 ==>
              exists path :: Walk(w, path) && path[|path| - 1] == p && Worth(w, b, path) == Power(w, b, p)
  {
    PowerIsCarried(w, b, p);
    forall path | Walk(w, path) && path[|path| - 1] == p ensures Worth(w, b, path) <= Power(w, b, p) {
      if Worth(w, b, path) > 0 { WalkCarries(w, b, path); }
    }
    if Power(w, b, p) > 0 {
      var path := CarriedByWalk(w, b, Power(w, b, p), p);
    }
  }

  // ---------- the local equation ----------

  function Strength(f: map<Pos, int>, p: Pos): int { if p in f then f[p] else 0 }

  /** Each wire has the maximum of 0, its seed, and one less than any wire that leads to it. */
  ghost predicate Solves(w: World, b: Box, f: map<Pos, int>) {
    forall p | Wire(w, p) ::
      && Strength(f, p) >= 0 && Strength(f, p) >= Seed(w, b, p)
      && (forall q | Leads(q, p) && Wire(w, q) :: Strength(f, p) >= Strength(f, q) - 1)
      && (Strength(f, p) == 0 || Strength(f, p) == Seed(w, b, p)
          || exists q :: Leads(q, p) && Wire(w, q) && Strength(f, p) == Strength(f, q) - 1)
  }

  /** A strongest wire. */
  lemma {:induction false} Strongest(f: map<Pos, int>, ps: set<Pos>) returns (p: Pos)
    requires ps != {}
    ensures p in ps && forall q | q in ps :: Strength(f, q) <= Strength(f, p)
    decreases ps
  {
    p :| p in ps;
    if ps != {p} {
      var best := Strongest(f, ps - {p});
      if Strength(f, best) > Strength(f, p) { p := best; }
    }
  }

  /** No solution exceeds 15: a strongest wire can only take its strength from its seed. */
  lemma SolutionBound(w: World, b: Box, f: map<Pos, int>, p: Pos)
    requires Solves(w, b, f) && Wire(w, p)
    ensures Strength(f, p) <= 15
  {
    var wires := set q | q in w.cells && Wire(w, q);
    assert p in wires;
    var top := Strongest(f, wires);
    SeedRange(w, b, top);
    forall q | Leads(q, top) && Wire(w, q) ensures Strength(f, top) != Strength(f, q) - 1 {
      assert q in wires;
    }
  }

  lemma {:induction false} SolutionCarries(w: World, b: Box, f: map<Pos, int>, p: Pos)
    requires Solves(w, b, f) && Wire(w, p) && Strength(f, p) > 0
    ensures Carries(w, b, Strength(f, p), p)
    decreases 16 - Strength(f, p)
  {
    SolutionBound(w, b, f, p);
    if Strength(f, p) != Seed(w, b, p) {
      var q :| Leads(q, p) && Wire(w, q) && Strength(f, p) == Strength(f, q) - 1;
      SolutionBound(w, b, f, q);
      SolutionCarries(w, b, f, q);
    }
  }

  lemma {:induction false} CarriedInSolution(w: World, b: Box, f: map<Pos, int>, v: int, p: Pos)
    requires Closed(w, b, f) && Carries(w, b, v, p)
    ensures Strength(f, p) >= v
    decreases 16 - v
  {
    if Seed(w, b, p) < v {
      var q :| Leads(q, p) && Carries(w, b, v + 1, q);
      CarriedInSolution(w, b, f, v + 1, q);
    }
  }

  /** Fed and spread: no wire could still pass anything on. */
  ghost predicate Closed(w: World, b: Box, f: map<Pos, int>) {
    && (forall p | Wire(w, p) :: Strength(f, p) >= Seed(w, b, p))
    && (forall q, p | Leads(q, p) && Wire(w, q) && Wire(w, p) :: Strength(f, p) >= Strength(f, q) - 1)
  }

  /** The equation has one solution, whatever order it was found in: the best walks. */
  lemma OneSolution(w: World, b: Box, f: map<Pos, int>)
    ensures Solves(w, b, f) <==> forall p | Wire(w, p) :: Strength(f, p) == Power(w, b, p)
  {
    if Solves(w, b, f) {
      forall p | Wire(w, p) ensures Strength(f, p) == Power(w, b, p) {
        PowerIsCarried(w, b, p);
        SolutionBound(w, b, f, p);
        if Strength(f, p) > 0 { SolutionCarries(w, b, f, p); }
        if Power(w, b, p) > 0 { CarriedInSolution(w, b, f, Power(w, b, p), p); }
      }
    }
    if forall p | Wire(w, p) :: Strength(f, p) == Power(w, b, p) {
      PowerSolves(w, b, f);
    }
  }

  lemma PowerStep(w: World, b: Box, q: Pos, p: Pos)
    requires Leads(q, p) && Wire(w, p)
    ensures Power(w, b, p) >= Power(w, b, q) - 1
  {
    PowerIsCarried(w, b, p);
    PowerIsCarried(w, b, q);
    var v := Power(w, b, q) - 1;
    if v > 0 {
      assert Carries(w, b, v + 1, q);
      assert Carries(w, b, v, p);
    }
  }

  lemma PowerSolves(w: World, b: Box, f: map<Pos, int>)
    requires forall p | Wire(w, p) :: Strength(f, p) == Power(w, b, p)
    ensures Solves(w, b, f)
  {
    forall p | Wire(w, p)
      ensures Strength(f, p) >= Seed(w, b, p)
      ensures forall q | Leads(q, p) && Wire(w, q) :: Strength(f, p) >= Strength(f, q) - 1
      ensures Strength(f, p) == 0 || Strength(f, p) == Seed(w, b, p)
              || exists q :: Leads(q, p) && Wire(w, q) && Strength(f, p) == Strength(f, q) - 1
    {
      PowerIsCarried(w, b, p);
      SeedRange(w, b, p);
      var s, seed := Power(w, b, p), Seed(w, b, p);
      assert seed > 0 ==> Carries(w, b, seed, p);
      forall q | Leads(q, p) && Wire(w, q) ensures Strength(f, p) >= Strength(f, q) - 1 {
        PowerStep(w, b, q, p);
      }
      if s > 0 && seed < s {
        assert Carries(w, b, s, p);
        var q :| Leads(q, p) && Carries(w, b, s + 1, q);
        PowerIsCarried(w, b, q);
        PowerStep(w, b, q, p);
      }
    }
  }

  // ---------- the relaxation ----------

  datatype Entry = Entry(pos: Pos, s: int)

  /** A strength that was earned: 0, or carried by the wire. */
  ghost predicate Earned(w: World, b: Box, f: map<Pos, int>) {
    forall p | p in f :: f[p] >= 0 && (f[p] > 0 ==> Carries(w, b, f[p], p))
  }

  ghost predicate Queued(w: World, b: Box, f: map<Pos, int>, queue: seq<Entry>) {
    forall e | e in queue ::
      0 < e.s <= Strength(f, e.pos) && Carries(w, b, e.s, e.pos) && Within(b, e.pos, b.radius + 15 - e.s)
  }

  ghost predicate Fed(w: World, b: Box, f: map<Pos, int>) {
    forall p | Wire(w, p) :: Strength(f, p) >= Seed(w, b, p)
  }

  ghost predicate SpreadFrom(w: World, f: map<Pos, int>, q: Pos) {
    forall p | Leads(q, p) && Wire(w, p) :: Strength(f, p) >= Strength(f, q) - 1
  }

  /** Every strength was spread or its entry still waits; stale entries may wait as well. */
  ghost predicate SpreadOrQueued(w: World, f: map<Pos, int>, queue: seq<Entry>, except: Entry) {
    forall q | Strength(f, q) > 0 && Entry(q, Strength(f, q)) != except ::
      Entry(q, Strength(f, q)) in queue || SpreadFrom(w, f, q)
  }

  const NO_ENTRY: Entry := Entry(Pos(0, 0, 0), 0)

  /** Pairs of a wire and a strength it has not reached: the measure that raising a strength lowers. */
  ghost function Unreached(w: World, f: map<Pos, int>): set<(Pos, int)> {
    set p, v | p in w.cells && Wire(w, p) && 0 < v <= 15 && v > Strength(f, p) :: (p, v)
  }

  /** Everything that has a strength lies where 15 steps out of the box can reach. */
  ghost predicate Near(b: Box, f: map<Pos, int>) {
    forall p | p in f :: f[p] <= 15 && Within(b, p, b.radius + 15 - f[p])
  }

  predicate Within(b: Box, p: Pos, d: int) {
    && b.centre.x - d <= p.x <= b.centre.x + d && b.centre.z - d <= p.z <= b.centre.z + d && 0 <= p.y < HEIGHT
  }

  lemma RaiseLowers(w: World, b: Box, f: map<Pos, int>, p: Pos, s: int)
    requires Wire(w, p) && Strength(f, p) < s <= 15
    requires s > 0
    ensures Unreached(w, f[p := s]) < Unreached(w, f)
  {
    var g := f[p := s];
    assert (p, s) in Unreached(w, f) && (p, s) !in Unreached(w, g);
    forall e | e in Unreached(w, g) ensures e in Unreached(w, f) {
    }
  }

  lemma RaiseKeeps(w: World, f: map<Pos, int>, queue: seq<Entry>, except: Entry, p: Pos, s: int)
    requires SpreadOrQueued(w, f, queue, except) && Strength(f, p) < s
    ensures SpreadOrQueued(w, f[p := s], queue + [Entry(p, s)], except)
  {
    var g := f[p := s];
    forall q | Strength(g, q) > 0 && Entry(q, Strength(g, q)) != except
      ensures Entry(q, Strength(g, q)) in queue + [Entry(p, s)] || SpreadFrom(w, g, q)
    {
      if q != p { assert Strength(g, q) == Strength(f, q); }
    }
  }

  ghost predicate Sofar(w: World, b: Box, f: map<Pos, int>, queue: seq<Entry>, except: Entry) {
    Earned(w, b, f) && Queued(w, b, f, queue) && Fed(w, b, f) && Near(b, f) && SpreadOrQueued(w, f, queue, except)
  }

  /** Nothing happened, or some wire gained strength. */
  ghost predicate Progress(w: World, f: map<Pos, int>, queue: seq<Entry>, g: map<Pos, int>, next: seq<Entry>) {
    && (forall q :: Strength(g, q) >= Strength(f, q))
    && ((g == f && next == queue) || Unreached(w, g) < Unreached(w, f))
  }

  lemma {:induction false} RaisedSofar(w: World, b: Box, f: map<Pos, int>, queue: seq<Entry>, from: Entry, p: Pos)
    requires Leads(from.pos, p) && from.s > 1 && Wire(w, p) && from.s - 1 > Strength(f, p)
    requires Carries(w, b, from.s, from.pos) && Within(b, from.pos, b.radius + 15 - from.s)
    requires Sofar(w, b, f, queue, from)
    ensures Sofar(w, b, f[p := from.s - 1], queue + [Entry(p, from.s - 1)], from)
  {
    var s := from.s - 1;
    assert Carries(w, b, s, p);
    assert Within(b, p, b.radius + 15 - s);
    RaiseKeeps(w, f, queue, from, p, s);
    var g, next := f[p := s], queue + [Entry(p, s)];
    assert Earned(w, b, g) && Near(b, g) && Fed(w, b, g);
    forall e | e in next ensures 0 < e.s <= Strength(g, e.pos) && Carries(w, b, e.s, e.pos)
      ensures Within(b, e.pos, b.radius + 15 - e.s) {
      assert e in queue || e == Entry(p, s);
    }
  }

  lemma RaisedProgress(w: World, b: Box, f: map<Pos, int>, queue: seq<Entry>, p: Pos, s: int)
    requires Wire(w, p) && Strength(f, p) < s <= 15 && s > 0
    ensures Progress(w, f, queue, f[p := s], queue + [Entry(p, s)])
    ensures Strength(f[p := s], p) == s
  {
    RaiseLowers(w, b, f, p, s);
  }

  method TryWire(w: World, ghost b: Box, f: map<Pos, int>, queue: seq<Entry>, from: Entry, p: Pos)
    returns (g: map<Pos, int>, next: seq<Entry>)
    requires Leads(from.pos, p) && from.s > 1
    requires Carries(w, b, from.s, from.pos) && Within(b, from.pos, b.radius + 15 - from.s)
    requires Sofar(w, b, f, queue, from)
    ensures Sofar(w, b, g, next, from)
    ensures Wire(w, p) ==> Strength(g, p) >= from.s - 1
    ensures Progress(w, f, queue, g, next)
  {
    g, next := f, queue;
    if 0 <= p.y < HEIGHT && Wire(w, p) && from.s - 1 > Strength(f, p) {
      var s := from.s - 1;
      RaisedProgress(w, b, f, queue, p, s);
      RaisedSofar(w, b, f, queue, from, p);
      g, next := f[p := s], queue + [Entry(p, s)];
    }
  }

  lemma ProgressOn(w: World, f: map<Pos, int>, queue: seq<Entry>, g: map<Pos, int>, next: seq<Entry>,
                   h: map<Pos, int>, last: seq<Entry>)
    requires Progress(w, f, queue, g, next) && Progress(w, g, next, h, last)
    ensures Progress(w, f, queue, h, last) && forall q :: Strength(h, q) >= Strength(g, q)
  {
  }

  /** Passing one entry on to the twelve cells around it. */
  method Spread(w: World, ghost b: Box, f: map<Pos, int>, queue: seq<Entry>, from: Entry)
    returns (g: map<Pos, int>, next: seq<Entry>)
    requires from.s > 1 && Carries(w, b, from.s, from.pos) && Within(b, from.pos, b.radius + 15 - from.s)
    requires Sofar(w, b, f, queue, from)
    ensures Sofar(w, b, g, next, NO_ENTRY)
    ensures Progress(w, f, queue, g, next)
  {
    g, next := f, queue;
    var steps := Steps(from.pos);
    for i := 0 to 12
      invariant Sofar(w, b, g, next, from) && Progress(w, f, queue, g, next)
      invariant forall j | 0 <= j < i && Wire(w, steps[j]) :: Strength(g, steps[j]) >= from.s - 1
    {
      ghost var g0, next0 := g, next;
      assert steps[i] in steps;
      StepsAreLeads(from.pos, steps[i]);
      g, next := TryWire(w, b, g, next, from, steps[i]);
      ProgressOn(w, f, queue, g0, next0, g, next);
    }
    AllSpread(w, b, g, next, from);
  }

  /** An entry passed on to every cell around it is done with. */
  lemma AllSpread(w: World, b: Box, g: map<Pos, int>, queue: seq<Entry>, from: Entry)
    requires Sofar(w, b, g, queue, from)
    requires var steps := Steps(from.pos);
             forall j | 0 <= j < |steps| && Wire(w, steps[j]) :: Strength(g, steps[j]) >= from.s - 1
    ensures Sofar(w, b, g, queue, NO_ENTRY)
  {
    forall p | Leads(from.pos, p) && Wire(w, p) ensures Strength(g, p) >= from.s - 1 {
      StepsAreLeads(from.pos, p);
    }
  }

  /** An entry of strength one has nothing to pass on. */
  lemma WeakestSpreads(w: World, b: Box, f: map<Pos, int>, queue: seq<Entry>, e: Entry)
    requires Sofar(w, b, f, queue, e) && e.s <= 1
    ensures Sofar(w, b, f, queue, NO_ENTRY)
  {
    forall q | Strength(f, q) > 0 ensures Entry(q, Strength(f, q)) in queue || SpreadFrom(w, f, q) {
      assert forall p :: Strength(f, p) >= 0;
    }
  }

  lemma Popped(w: World, b: Box, f: map<Pos, int>, queue: seq<Entry>)
    requires queue != [] && Sofar(w, b, f, queue, NO_ENTRY)
    ensures Sofar(w, b, f, queue[1..], queue[0])
  {
    assert forall e :: e in queue <==> e == queue[0] || e in queue[1..];
  }

  lemma Finished(w: World, b: Box, f: map<Pos, int>)
    requires Sofar(w, b, f, [], NO_ENTRY)
    ensures forall p | Wire(w, p) :: Strength(f, p) == Power(w, b, p)
  {
    assert Closed(w, b, f) by {
      forall q, p | Leads(q, p) && Wire(w, q) && Wire(w, p) ensures Strength(f, p) >= Strength(f, q) - 1 {
        assert SpreadFrom(w, f, q) || Strength(f, q) <= 0;
        assert Strength(f, p) >= 0;
      }
    }
    forall p | Wire(w, p) ensures Strength(f, p) == Power(w, b, p) {
      PowerIsCarried(w, b, p);
      SeedRange(w, b, p);
      if Power(w, b, p) > 0 { CarriedInSolution(w, b, f, Power(w, b, p), p); }
    }
  }

  /** The loop over the queue: it ends, with every wire at the worth of its best walk, whatever the
      order of the seeds and however many stale entries are left behind. */
  method Relax(w: World, ghost b: Box, seeds: map<Pos, int>, first: seq<Entry>) returns (f: map<Pos, int>)
    requires Sofar(w, b, seeds, first, NO_ENTRY)
    ensures forall p | Wire(w, p) :: Strength(f, p) == Power(w, b, p)
    ensures Near(b, f) && Earned(w, b, f)
  {
    var queue := first;
    f := seeds;
    while queue != []
      invariant Sofar(w, b, f, queue, NO_ENTRY)
      decreases Unreached(w, f), |queue|
    {
      var e := queue[0];
      Popped(w, b, f, queue);
      assert e in queue;
      queue := queue[1..];
      if e.s > 1 {
        f, queue := Spread(w, b, f, queue, e);
      } else {
        WeakestSpreads(w, b, f, queue, e);
      }
    }
    Finished(w, b, f);
  }

  // ---------- the seeds ----------

  /** A block of redstone or a lit torch on one of the six sides. */
  predicate StrongBeside(w: World, p: Pos) {
    exists q | q in Sides(p) :: At(w, q).id == REDSTONE_BLOCK || At(w, q).id == TORCH
  }

  /** The strongest sources already give 15, so the special case for them changes nothing. */
  lemma StrongGives15(w: World, p: Pos)
    requires StrongBeside(w, p)
    ensures AdjacentPower(w, p) == 15
  {
    var q :| q in Sides(p) && (At(w, q).id == REDSTONE_BLOCK || At(w, q).id == TORCH);
    MostGivenIsMaximum(w, Sides(p), p);
    assert Given(w, q, p) == 15;
  }

  /** What has been fed so far, before the loop over the queue. */
  ghost predicate SeedsSofar(w: World, b: Box, wires: seq<Pos>, n: nat, f: map<Pos, int>, queue: seq<Entry>)
    requires n <= |wires|
  {
    && (forall p | p in f :: p in wires[..n] && f[p] == AdjacentPower(w, p))
    && (forall p | p in wires[..n] :: Strength(f, p) == AdjacentPower(w, p))
    && (forall e | e in queue :: e.pos in f && e.s == f[e.pos] > 0)
    && (forall p | p in f && f[p] > 0 :: Entry(p, f[p]) in queue)
  }

  lemma SeedsStart(w: World, b: Box, wires: seq<Pos>, f: map<Pos, int>, queue: seq<Entry>)
    requires forall p :: p in wires <==> Inside(b, p) && Wire(w, p)
    requires SeedsSofar(w, b, wires, |wires|, f, queue)
    ensures Sofar(w, b, f, queue, NO_ENTRY)
  {
    assert wires[..|wires|] == wires;
    forall p | p in f ensures 0 <= f[p] <= 15 && (f[p] > 0 ==> Carries(w, b, f[p], p)) && Within(b, p, b.radius + 15 - f[p]) {
      SeedRange(w, b, p);
    }
    forall p | Wire(w, p) ensures Strength(f, p) >= Seed(w, b, p) {
      if !Inside(b, p) { assert p !in f; }
    }
  }

  method FeedWires(w: World, ghost b: Box, wires: seq<Pos>) returns (f: map<Pos, int>, queue: seq<Entry>)
    requires forall p :: p in wires <==> Inside(b, p) && Wire(w, p)
    ensures Sofar(w, b, f, queue, NO_ENTRY)
  {
    f, queue := map[], [];
    for i := 0 to |wires|
      invariant SeedsSofar(w, b, wires, i, f, queue)
    {
      var p := wires[i];
      assert wires[..i + 1] == wires[..i] + [p];
      var s := SourceAround(w, p);
      MostGivenIsMaximum(w, Sides(p), p);
      if s > 0 {
        var ws := s - 1;
        if s == 15 { ws := 15; }
        if StrongBeside(w, p) {
          StrongGives15(w, p);
          ws := 15;
        } else if s > 0 {
          ws := s;
        }
        assert ws == s;
        if ws > Strength(f, p) {
          f, queue := f[p := ws], queue + [Entry(p, ws)];
        }
      } else {
        f := f[p := 0];
      }
    }
    SeedsStart(w, b, wires, f, queue);
  }
}
