/** Repeater flips that wait for their delay: at most one for each repeater and direction, counted
    down once a tick, started again when it is asked for again, and applied to a repeater only. */
module RedstoneSchedules {
  import opened Collections
  import opened RedstoneWorld
  import opened RedstoneWires
  import opened RedstoneUpdate
  import opened RedstoneResults

  const FLIP_RADIUS := 16

  predicate SameFlip(a: Schedule, b: Schedule) { a.pos == b.pos && a.id == b.id }

  /** A flip of the same repeater to the same state is replaced, else the flip is added. */
  function Enqueued(pending: seq<Schedule>, s: Schedule): seq<Schedule> {
    if s.delay < 0 then pending
    else if pending == [] then [s]
    else if SameFlip(pending[0], s) then [pending[0].(meta := s.meta, delay := s.delay)] + pending[1..]
    else [pending[0]] + Enqueued(pending[1..], s)
  }

  function EnqueuedAll(pending: seq<Schedule>, due: seq<Schedule>): seq<Schedule>
    decreases |due|
  {
    if due == [] then pending else EnqueuedAll(Enqueued(pending, due[0]), due[1..])
  }

  /** The flips of `pending`, one tick later, that are due or not. */
  function Later(pending: seq<Schedule>, due: bool): seq<Schedule> {
    if pending == [] then []
    else
      var last := pending[|pending| - 1];
      var s := last.(delay := last.delay - 1);
      Later(pending[..|pending| - 1], due) + (if (s.delay <= 0) == due then [s] else [])
  }

  datatype Circuit = Circuit(world: World, pending: seq<Schedule>)

  ghost function Recompute(c: Circuit, centre: Pos, radius: int): Circuit {
    var s := Recomputed(c.world, Box(centre, Clamp(radius)), true);
    Circuit(s.world, EnqueuedAll(c.pending, s.due))
  }

  /** A due flip happens if the cell still holds a repeater in the other state. */
  ghost function Fired(c: Circuit, s: Schedule): Circuit {
    var id := At(c.world, s.pos).id;
    if !IsRepeater(id) || id == s.id then c
    else Recompute(c.(world := SetBlock(c.world, s.pos, Cell(s.id, s.meta))), s.pos, FLIP_RADIUS)
  }

  ghost function FiredAll(c: Circuit, due: seq<Schedule>): Circuit
    decreases |due|
  {
    if due == [] then c else FiredAll(Fired(c, due[0]), due[1..])
  }

  ghost function Ticked(c: Circuit): Circuit {
    FiredAll(c.(pending := Later(c.pending, false)), Later(c.pending, true))
  }

  // ---------- invariants ----------

  /** No repeater has two flips to the same state. */
  ghost predicate Distinct(pending: seq<Schedule>) {
    forall i, j | 0 <= i < j < |pending| :: !SameFlip(pending[i], pending[j])
  }

  /** One flip for each repeater and state, waiting between one and eight ticks. */
  ghost predicate Waiting(pending: seq<Schedule>) {
    && Distinct(pending)
    && (forall s | s in pending :: IsRepeater(s.id) && 1 <= s.delay <= 8)
  }

  ghost predicate Proper(s: Schedule) { IsRepeater(s.id) && s.delay in {2, 4, 6, 8} }

  lemma {:induction false} EnqueuedWaits(pending: seq<Schedule>, s: Schedule)
    requires Waiting(pending) && Proper(s)
    ensures var r := Enqueued(pending, s);
            && Waiting(r)
            && (exists e :: e in r && SameFlip(e, s) && e.delay == s.delay && e.meta == s.meta)
            && (forall e | e in r :: e in pending || SameFlip(e, s))
            && (forall e | e in pending && !SameFlip(e, s) :: e in r)
  {
    EnqueuedHolds(pending, s);
    EnqueuedDistinct(pending, s);
  }

  /** What the list holds afterwards. */
  lemma {:induction false} EnqueuedHolds(pending: seq<Schedule>, s: Schedule)
    requires s.delay >= 0 && Distinct(pending)
    ensures var r := Enqueued(pending, s);
            && (exists e :: e in r && SameFlip(e, s) && e.delay == s.delay && e.meta == s.meta)
            && (forall e | e in r :: e in pending || (SameFlip(e, s) && e.delay == s.delay))
            && (forall e | e in pending && !SameFlip(e, s) :: e in r)
  {
    var r := Enqueued(pending, s);
    if pending == [] {
      assert s in r;
    } else if SameFlip(pending[0], s) {
      var e := pending[0].(meta := s.meta, delay := s.delay);
      assert r[0] == e;
      assert forall x :: x in r <==> x == e || x in pending[1..];
      assert forall x :: x in pending <==> x == pending[0] || x in pending[1..];
    } else {
      var rest := Enqueued(pending[1..], s);
      assert forall x :: x in pending <==> x == pending[0] || x in pending[1..];
      EnqueuedHolds(pending[1..], s);
      assert forall x :: x in r <==> x == pending[0] || x in rest;
    }
  }

  lemma {:induction false} EnqueuedDistinct(pending: seq<Schedule>, s: Schedule)
    requires s.delay >= 0 && Distinct(pending)
    ensures Distinct(Enqueued(pending, s))
  {
    var r := Enqueued(pending, s);
    if pending == [] {
    } else if SameFlip(pending[0], s) {
      assert forall i | 0 < i < |r| :: r[i] == pending[i];
    } else {
      var rest := Enqueued(pending[1..], s);
      EnqueuedDistinct(pending[1..], s);
      EnqueuedHolds(pending[1..], s);
      forall j | 0 < j < |r| ensures !SameFlip(r[0], r[j]) {
        assert r[j] == rest[j - 1] && rest[j - 1] in rest;
        if rest[j - 1] in pending[1..] {
          var k :| 0 <= k < |pending[1..]| && pending[1..][k] == rest[j - 1];
          assert pending[k + 1] == r[j];
        }
      }
    }
  }

  lemma {:induction false} EnqueuedAllWaits(pending: seq<Schedule>, due: seq<Schedule>)
    requires Waiting(pending) && forall s | s in due :: Proper(s)
    ensures Waiting(EnqueuedAll(pending, due))
    decreases |due|
  {
    if due != [] {
      assert due[0] in due;
      EnqueuedWaits(pending, due[0]);
      EnqueuedAllWaits(Enqueued(pending, due[0]), due[1..]);
    }
  }

  lemma VisitProper(s: Pass, p: Pos)
    requires forall e | e in s.due :: Proper(e)
    ensures forall e | e in Visit(s, p, true).due :: Proper(e)
  {
    DiodeFaces(p, At(s.world, p).meta);
  }

  lemma {:induction false} VisitAllProper(s: Pass, ps: seq<Pos>)
    requires forall e | e in s.due :: Proper(e)
    ensures forall e | e in VisitAll(s, ps, true).due :: Proper(e)
    decreases |ps|
  {
    if ps != [] {
      VisitProper(s, ps[0]);
      VisitAllProper(Visit(s, ps[0], true), ps[1..]);
    }
  }

  lemma RecomputedProper(w: World, b: Box)
    ensures forall e | e in Recomputed(w, b, true).due :: Proper(e)
  {
    WriteAllPutsOffNothing(Pass(w, [], []), WiresIn(w, Cells(b)), w, b);
    VisitAllProper(WiresWritten(w, b), Cells(b));
  }

  lemma RecomputeWaits(c: Circuit, centre: Pos, radius: int)
    requires Waiting(c.pending)
    ensures Waiting(Recompute(c, centre, radius).pending)
  {
    var b := Box(centre, Clamp(radius));
    RecomputedProper(c.world, b);
    EnqueuedAllWaits(c.pending, Recomputed(c.world, b, true).due);
  }

  /** A tick brings each waiting flip one closer: due exactly when its delay has run out. */
  lemma {:induction false} LaterCounts(pending: seq<Schedule>, due: bool)
    ensures forall s :: s in Later(pending, due) <==> s.(delay := s.delay + 1) in pending && (s.delay <= 0) == due
    ensures |Later(pending, true)| + |Later(pending, false)| == |pending|
  {
    if pending != [] {
      var front, last := pending[..|pending| - 1], pending[|pending| - 1];
      LaterCounts(front, due);
      assert forall s :: s in pending <==> s in front || s == last;
      forall s ensures s in Later(pending, due) <==> s.(delay := s.delay + 1) in pending && (s.delay <= 0) == due {
        assert s.(delay := s.delay + 1) == last <==> s == last.(delay := last.delay - 1);
      }
    }
  }

  lemma DistinctSnoc(pending: seq<Schedule>, s: Schedule)
    requires Distinct(pending) && forall i | 0 <= i < |pending| :: !SameFlip(pending[i], s)
    ensures Distinct(pending + [s])
  {
  }

  lemma {:induction false} LaterDistinct(pending: seq<Schedule>, due: bool)
    requires Distinct(pending)
    ensures Distinct(Later(pending, due))
  {
    if pending != [] {
      var front, last := pending[..|pending| - 1], pending[|pending| - 1];
      var kept, s := Later(front, due), last.(delay := last.delay - 1);
      LaterDistinct(front, due);
      forall i | 0 <= i < |kept| ensures !SameFlip(kept[i], s) {
        var k := LaterFrom(front, due, i);
        assert front[k] == pending[k] && !SameFlip(pending[k], pending[|front|]);
      }
      DistinctSnoc(kept, s);
      assert kept + [] == kept;
    }
  }

  lemma {:induction false} LaterFrom(pending: seq<Schedule>, due: bool, i: nat) returns (k: nat)
    requires i < |Later(pending, due)|
    ensures k < |pending| && SameFlip(pending[k], Later(pending, due)[i])
  {
    var s := Later(pending, due)[i];
    LaterCounts(pending, due);
    assert s in Later(pending, due);
    k :| k < |pending| && pending[k] == s.(delay := s.delay + 1);
  }

  lemma {:induction false} LaterWaits(pending: seq<Schedule>)
    requires Waiting(pending)
    ensures Waiting(Later(pending, false))
  {
    LaterCounts(pending, false);
    LaterDistinct(pending, false);
  }

  lemma FiredWaits(c: Circuit, s: Schedule)
    requires Waiting(c.pending)
    ensures Waiting(Fired(c, s).pending)
  {
    RecomputeWaits(c.(world := SetBlock(c.world, s.pos, Cell(s.id, s.meta))), s.pos, FLIP_RADIUS);
  }

  lemma {:induction false} FiredAllWaits(c: Circuit, due: seq<Schedule>)
    requires Waiting(c.pending)
    ensures Waiting(FiredAll(c, due).pending)
    decreases |due|
  {
    if due != [] {
      FiredWaits(c, due[0]);
      FiredAllWaits(Fired(c, due[0]), due[1..]);
    }
  }

  /** A tick, with flips setting off recomputes that put off further flips, leaves no repeater with
      two flips to one state, and between one and eight ticks on each. */
  lemma TickWaits(c: Circuit)
    requires Waiting(c.pending)
    ensures Waiting(Ticked(c).pending)
  {
    LaterWaits(c.pending);
    FiredAllWaits(c.(pending := Later(c.pending, false)), Later(c.pending, true));
  }

  lemma {:induction false} EnqueueStep(pending: seq<Schedule>, i: nat, s: Schedule)
    requires i < |pending| && s.delay >= 0
    ensures var p := pending[i];
            pending[..i] + Enqueued(pending[i..], s) ==
              if SameFlip(p, s) then pending[i := p.(meta := s.meta, delay := s.delay)]
              else pending[..i + 1] + Enqueued(pending[i + 1..], s)
  {
    var p, rest := pending[i], pending[i + 1..];
    assert pending[i..][1..] == rest;
    if SameFlip(p, s) {
      var q := p.(meta := s.meta, delay := s.delay);
      assert pending[..i] + ([q] + rest) == pending[i := q];
    } else {
      assert pending[..i + 1] == pending[..i] + [p];
      Append(pending[..i], [p], Enqueued(rest, s));
    }
  }

  // ---------- the code ----------

  class Scheduler {
    const level: Level
    var pending: seq<Schedule>

    constructor (level: Level)
      ensures this.level == level && pending == []
    {
      this.level, this.pending := level, [];
    }

    ghost function Here(): Circuit
      reads this, level
    {
      Circuit(level.world, pending)
    }

    method Enqueue(s: Schedule)
      modifies this
      ensures pending == Enqueued(old(pending), s)
    {
      if s.delay < 0 { return; }
      for i := 0 to |pending|
        invariant pending == old(pending)
        invariant pending[..i] + Enqueued(pending[i..], s) == Enqueued(pending, s)
      {
        var p := pending[i];
        EnqueueStep(pending, i, s);
        if SameFlip(p, s) {
          pending := pending[i := p.(meta := s.meta, delay := s.delay)];
          return;
        }
      }
      assert pending[|pending|..] == [];
      pending := pending + [s];
    }

    method RecomputeAt(centre: Pos, radius: int)
      modifies this, level
      ensures Here() == Recompute(old(Here()), centre, radius)
    {
      var out, due := level.Recompute(centre, radius, true);
      ghost var all := EnqueuedAll(pending, due);
      ghost var world := level.world;
      for i := 0 to |due|
        invariant EnqueuedAll(pending, due[i..]) == all && level.world == world
      {
        assert due[i..][1..] == due[i + 1..] && due[i..][0] == due[i];
        Enqueue(due[i]);
      }
    }

    method Tick()
      modifies this, level
      ensures Here() == Ticked(old(Here()))
    {
      if pending == [] { return; }
      var due, keep: seq<Schedule> := [], [];
      for i := 0 to |pending|
        invariant due == Later(pending[..i], true) && keep == Later(pending[..i], false)
      {
        assert pending[..i + 1][..i] == pending[..i];
        var s := pending[i].(delay := pending[i].delay - 1);
        if s.delay <= 0 { due := due + [s]; } else { keep := keep + [s]; }
      }
      assert pending[..|pending|] == pending;
      pending := keep;
      ghost var all := FiredAll(Here(), due);
      for i := 0 to |due|
        invariant FiredAll(Here(), due[i..]) == all
      {
        assert due[i..][1..] == due[i + 1..] && due[i..][0] == due[i];
        Fire(due[i]);
      }
    }

    method Fire(s: Schedule)
      modifies this, level
      ensures Here() == Fired(old(Here()), s)
    {
      var id := At(level.world, s.pos).id;
      if id != REPEATER_OFF && id != REPEATER_ON { return; }
      if id == s.id { return; }
      var _ := level.Place(s.pos, Cell(s.id, s.meta));
      RecomputeAt(s.pos, FLIP_RADIUS);
    }
  }
}
