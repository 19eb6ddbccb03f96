/** When a repeater flips. Over any run of ticks, recomputes and changes to the world, a flip comes due
    exactly as many ticks after it was last asked for as it was then given: asking again starts its
    delay again, and recomputes that come often enough put it off for ever. */
module RedstoneTiming {
  import opened RedstoneWorld
  import opened RedstoneWires
  import opened RedstoneUpdate
  import opened RedstoneResults
  import opened RedstoneSchedules

  /** A tick, a recompute around a place, or any other change to the world. */
  datatype Happening = Tick | Near(centre: Pos, radius: int) | Changed(world: World)

  ghost function Next(c: Circuit, h: Happening): Circuit {
    match h
    case Tick => Ticked(c)
    case Near(centre, radius) => Recompute(c, centre, radius)
    case Changed(world) => c.(world := world)
  }

  ghost function Happened(c: Circuit, hs: seq<Happening>): Circuit
    decreases |hs|
  {
    if hs == [] then c else Happened(Next(c, hs[0]), hs[1..])
  }

  // ---------- what a run asks for ----------

  ghost function FireAsks(c: Circuit, s: Schedule): seq<Schedule> {
    var id := At(c.world, s.pos).id;
    if !IsRepeater(id) || id == s.id then []
    else Recomputed(SetBlock(c.world, s.pos, Cell(s.id, s.meta)), Box(s.pos, Clamp(FLIP_RADIUS)), true).due
  }

  ghost function FireAllAsks(c: Circuit, due: seq<Schedule>): seq<Schedule>
    decreases |due|
  {
    if due == [] then [] else FireAsks(c, due[0]) + FireAllAsks(Fired(c, due[0]), due[1..])
  }

  /** The flips put off in one step, in order. */
  ghost function Asks(c: Circuit, h: Happening): seq<Schedule> {
    match h
    case Tick => FireAllAsks(c.(pending := Later(c.pending, false)), Later(c.pending, true))
    case Near(centre, radius) => Recomputed(c.world, Box(centre, Clamp(radius)), true).due
    case Changed(_) => []
  }

  lemma {:induction false} EnqueuedAllAppend(pending: seq<Schedule>, a: seq<Schedule>, b: seq<Schedule>)
    ensures EnqueuedAll(pending, a + b) == EnqueuedAll(EnqueuedAll(pending, a), b)
    decreases |a|
  {
    if a == [] {
      assert [] + b == b;
    } else {
      assert (a + b)[0] == a[0] && (a + b)[1..] == a[1..] + b;
      EnqueuedAllAppend(Enqueued(pending, a[0]), a[1..], b);
    }
  }

  lemma {:induction false} FiredAllPending(c: Circuit, due: seq<Schedule>)
    ensures FiredAll(c, due).pending == EnqueuedAll(c.pending, FireAllAsks(c, due))
    decreases |due|
  {
    if due != [] {
      FiredAllPending(Fired(c, due[0]), due[1..]);
      EnqueuedAllAppend(c.pending, FireAsks(c, due[0]), FireAllAsks(Fired(c, due[0]), due[1..]));
    }
  }

  lemma NextPending(c: Circuit, h: Happening)
    ensures Next(c, h).pending == EnqueuedAll(if h.Tick? then Later(c.pending, false) else c.pending, Asks(c, h))
  {
    if h.Tick? { FiredAllPending(c.(pending := Later(c.pending, false)), Later(c.pending, true)); }
  }

  lemma {:induction false} FireAllProper(c: Circuit, due: seq<Schedule>)
    ensures forall e | e in FireAllAsks(c, due) :: Proper(e)
    decreases |due|
  {
    if due != [] {
      RecomputedProper(SetBlock(c.world, due[0].pos, Cell(due[0].id, due[0].meta)), Box(due[0].pos, Clamp(FLIP_RADIUS)));
      FireAllProper(Fired(c, due[0]), due[1..]);
    }
  }

  lemma AsksProper(c: Circuit, h: Happening)
    ensures forall e | e in Asks(c, h) :: Proper(e)
  {
    match h
    case Tick => FireAllProper(c.(pending := Later(c.pending, false)), Later(c.pending, true));
    case Near(centre, radius) => RecomputedProper(c.world, Box(centre, Clamp(radius)));
    case Changed(_) =>
  }

  // ---------- at most once ----------

  lemma NextWaits(c: Circuit, h: Happening)
    requires Waiting(c.pending)
    ensures Waiting(Next(c, h).pending)
  {
    match h
    case Tick => TickWaits(c);
    case Near(centre, radius) => RecomputeWaits(c, centre, radius);
    case Changed(_) =>
  }

  /** Over any run of ticks, recomputes and changes, no repeater has two flips to one state waiting,
      and each has between one and eight ticks to go. */
  lemma {:induction false} RunWaits(c: Circuit, hs: seq<Happening>)
    requires Waiting(c.pending)
    ensures Waiting(Happened(c, hs).pending)
    decreases |hs|
  {
    if hs != [] {
      NextWaits(c, hs[0]);
      RunWaits(Next(c, hs[0]), hs[1..]);
    }
  }

  // ---------- the ticks one flip has to go ----------

  /** The ticks the flip `f` has to go; 0 if it does not wait. */
  function Left(pending: seq<Schedule>, f: Schedule): int {
    if pending == [] then 0 else if SameFlip(pending[0], f) then pending[0].delay else Left(pending[1..], f)
  }

  /** The delay with which `f` is asked for last; 0 if it is not asked for. */
  function AskedFor(asks: seq<Schedule>, f: Schedule): int {
    if asks == [] then 0
    else
      var rest := AskedFor(asks[1..], f);
      if rest == 0 && SameFlip(asks[0], f) then asks[0].delay else rest
  }

  ghost predicate Due(pending: seq<Schedule>, f: Schedule) {
    exists s :: s in Later(pending, true) && SameFlip(s, f)
  }

  lemma {:induction false} LeftEnqueued(pending: seq<Schedule>, s: Schedule, f: Schedule)
    requires s.delay >= 0
    ensures Left(Enqueued(pending, s), f) == if SameFlip(s, f) then s.delay else Left(pending, f)
  {
    if pending == [] {
      assert Left([s][1..], f) == 0;
    } else if SameFlip(pending[0], s) {
      var q := pending[0].(meta := s.meta, delay := s.delay);
      assert ([q] + pending[1..])[1..] == pending[1..];
    } else {
      var rest := Enqueued(pending[1..], s);
      assert ([pending[0]] + rest)[1..] == rest;
      LeftEnqueued(pending[1..], s, f);
    }
  }

  lemma {:induction false} LeftEnqueuedAll(pending: seq<Schedule>, asks: seq<Schedule>, f: Schedule)
    requires forall e | e in asks :: Proper(e)
    ensures Left(EnqueuedAll(pending, asks), f) == if AskedFor(asks, f) != 0 then AskedFor(asks, f) else Left(pending, f)
    ensures AskedFor(asks, f) >= 0
    decreases |asks|
  {
    if asks != [] {
      assert asks[0] in asks;
      LeftEnqueued(pending, asks[0], f);
      LeftEnqueuedAll(Enqueued(pending, asks[0]), asks[1..], f);
    }
  }

  lemma {:induction false} LeftOf(pending: seq<Schedule>, f: Schedule)
    requires Waiting(pending)
    ensures forall s | s in pending && SameFlip(s, f) :: Left(pending, f) == s.delay
    ensures (forall s | s in pending :: !SameFlip(s, f)) ==> Left(pending, f) == 0
    ensures 0 <= Left(pending, f) <= 8
  {
    if pending != [] {
      var first, rest := pending[0], pending[1..];
      assert forall s :: s in pending <==> s == first || s in rest;
      LeftOf(rest, f);
      if SameFlip(first, f) {
        forall s | s in rest ensures !SameFlip(s, f) {
          var k :| 0 <= k < |rest| && rest[k] == s;
          assert pending[k + 1] == s && !SameFlip(pending[0], pending[k + 1]);
        }
      }
    }
  }

  /** A tick takes one from what a flip has to go, and the flip is due when it had one to go. */
  lemma {:induction false} LeftLater(pending: seq<Schedule>, f: Schedule)
    requires Waiting(pending)
    ensures Left(Later(pending, false), f) == if Left(pending, f) > 0 then Left(pending, f) - 1 else 0
    ensures Due(pending, f) <==> Left(pending, f) == 1
  {
    var keep, due := Later(pending, false), Later(pending, true);
    LaterWaits(pending);
    LaterCounts(pending, false);
    LaterCounts(pending, true);
    LeftOf(pending, f);
    LeftOf(keep, f);
    if s :| s in pending && SameFlip(s, f) {
      var t := s.(delay := s.delay - 1);
      assert t.(delay := t.delay + 1) == s;
      assert t in keep || t in due;
      assert SameFlip(t, f);
    }
  }

  // ---------- the run ----------

  /** A flip asked for with a delay, and the ticks since then. */
  datatype Clock = Clock(delay: nat, ticks: nat)

  function Remaining(k: Clock): nat { if k.ticks < k.delay then k.delay - k.ticks else 0 }

  ghost function ClockNext(c: Circuit, h: Happening, f: Schedule, k: Clock): Clock {
    var asked := AskedFor(Asks(c, h), f);
    if asked > 0 then Clock(asked, 0) else if h.Tick? then k.(ticks := k.ticks + 1) else k
  }

  /** The delay with which `f` was asked for last, and the ticks since then. */
  ghost function LastAsk(c: Circuit, hs: seq<Happening>, f: Schedule, k: Clock): Clock
    decreases |hs|
  {
    if hs == [] then k else LastAsk(Next(c, hs[0]), hs[1..], f, ClockNext(c, hs[0], f, k))
  }

  lemma {:induction false} ClockStep(c: Circuit, h: Happening, f: Schedule, k: Clock)
    requires Waiting(c.pending) && Left(c.pending, f) == Remaining(k)
    ensures Left(Next(c, h).pending, f) == Remaining(ClockNext(c, h, f, k))
  {
    NextPending(c, h);
    AsksProper(c, h);
    LeftEnqueuedAll(if h.Tick? then Later(c.pending, false) else c.pending, Asks(c, h), f);
    LeftLater(c.pending, f);
  }

  lemma {:induction false} ClockRuns(c: Circuit, hs: seq<Happening>, f: Schedule, k: Clock)
    requires Waiting(c.pending) && Left(c.pending, f) == Remaining(k)
    ensures Left(Happened(c, hs).pending, f) == Remaining(LastAsk(c, hs, f, k))
    decreases |hs|
  {
    if hs != [] {
      ClockStep(c, hs[0], f, k);
      NextWaits(c, hs[0]);
      ClockRuns(Next(c, hs[0]), hs[1..], f, ClockNext(c, hs[0], f, k));
    }
  }

  ghost function Started(c: Circuit, f: Schedule): Clock
    requires Waiting(c.pending)
  {
    LeftOf(c.pending, f);
    Clock(Left(c.pending, f), 0)
  }

  /** Over any run: a flip waits for what is left of the delay it was last asked for with, and the
      next tick makes it due exactly when it completes that delay. */
  lemma {:induction false} DueAfterLastAsk(c: Circuit, hs: seq<Happening>, f: Schedule)
    requires Waiting(c.pending)
    ensures var k, r := LastAsk(c, hs, f, Started(c, f)), Happened(c, hs);
            && Left(r.pending, f) == (if k.ticks < k.delay then k.delay - k.ticks else 0)
            && (Due(r.pending, f) <==> k.ticks + 1 == k.delay)
  {
    ClockRuns(c, hs, f, Started(c, f));
    RunWaits(c, hs);
    LeftLater(Happened(c, hs).pending, f);
  }

  // ---------- on time ----------

  function Ticks(hs: seq<Happening>): nat {
    if hs == [] then 0 else (if hs[0].Tick? then 1 else 0) + Ticks(hs[1..])
  }

  ghost predicate Asked(c: Circuit, hs: seq<Happening>, f: Schedule)
    decreases |hs|
  {
    hs != [] && (AskedFor(Asks(c, hs[0]), f) > 0 || Asked(Next(c, hs[0]), hs[1..], f))
  }

  /** Whenever `f` is asked for, it is with this delay: the repeater keeps its setting. */
  ghost predicate SameDelay(c: Circuit, hs: seq<Happening>, f: Schedule, delay: int)
    decreases |hs|
  {
    hs != [] ==>
      AskedFor(Asks(c, hs[0]), f) in {0, delay} && SameDelay(Next(c, hs[0]), hs[1..], f, delay)
  }

  lemma {:induction false} LastAskTicks(c: Circuit, hs: seq<Happening>, f: Schedule, k: Clock, delay: nat)
    requires delay > 0 && SameDelay(c, hs, f, delay)
    ensures var r := LastAsk(c, hs, f, k);
            if Asked(c, hs, f) then r.delay == delay && r.ticks <= Ticks(hs)
            else r == Clock(k.delay, k.ticks + Ticks(hs))
    decreases |hs|
  {
    if hs != [] { LastAskTicks(Next(c, hs[0]), hs[1..], f, ClockNext(c, hs[0], f, k), delay); }
  }

  /** A flip that waits with `s.delay` ticks to go is due at exactly that tick if and only if nothing
      asks for it from the next tick on. */
  lemma {:induction false} OnTimeUnlessAsked(c: Circuit, hs: seq<Happening>, s: Schedule)
    requires Waiting(c.pending) && s in c.pending && Ticks(hs) + 1 == s.delay
    requires hs != [] ==> hs[0].Tick?
    requires SameDelay(c, hs, s, s.delay)
    ensures Due(Happened(c, hs).pending, s) <==> !Asked(c, hs, s)
  {
    LeftOf(c.pending, s);
    DueAfterLastAsk(c, hs, s);
    var k := Started(c, s);
    if hs != [] { LastAskTicks(Next(c, Tick), hs[1..], s, ClockNext(c, Tick, s, k), s.delay); }
  }

  // ---------- put off for ever ----------

  /** Asked for again before it is due, a flip waits as long as it did at first. */
  lemma {:induction false} Restarted(s: Schedule)
    requires s.delay >= 2
    ensures Later([s], true) == [] && Enqueued(Later([s], false), s) == [s]
  {
    assert [s][..0] == [];
  }

  ghost function Rounds(centre: Pos, radius: int, n: nat): seq<Happening> {
    if n == 0 then [] else [Tick] + ([Near(centre, radius)] + Rounds(centre, radius, n - 1))
  }

  lemma {:induction false} HappenedFirst(c: Circuit, h: Happening, hs: seq<Happening>)
    ensures Happened(c, [h] + hs) == Happened(Next(c, h), hs)
  {
    assert ([h] + hs)[1..] == hs;
  }

  /** Each flip waits with the delay `asks` gives it, and no other flip waits. */
  ghost predicate WaitsAsAsked(pending: seq<Schedule>, asks: seq<Schedule>) {
    Waiting(pending) && forall f :: Left(pending, f) == AskedFor(asks, f)
  }

  lemma {:induction false} AskedForProper(asks: seq<Schedule>, f: Schedule)
    requires forall e | e in asks :: Proper(e)
    ensures AskedFor(asks, f) == 0 || AskedFor(asks, f) >= 2
  {
    if asks != [] {
      assert asks[0] in asks;
      AskedForProper(asks[1..], f);
    }
  }

  lemma {:induction false} NothingDue(pending: seq<Schedule>, asks: seq<Schedule>)
    requires WaitsAsAsked(pending, asks) && forall e | e in asks :: Proper(e)
    ensures Later(pending, true) == []
    ensures forall f :: !Due(pending, f)
  {
    forall f ensures !Due(pending, f) {
      AskedForProper(asks, f);
      LeftLater(pending, f);
    }
    var due := Later(pending, true);
    assert due != [] ==> due[0] in due && Due(pending, due[0]);
  }

  lemma {:induction false} AskedAgain(pending: seq<Schedule>, asks: seq<Schedule>)
    requires WaitsAsAsked(pending, asks) && forall e | e in asks :: Proper(e)
    ensures WaitsAsAsked(EnqueuedAll(Later(pending, false), asks), asks)
  {
    LaterWaits(pending);
    EnqueuedAllWaits(Later(pending, false), asks);
    forall f ensures Left(EnqueuedAll(Later(pending, false), asks), f) == AskedFor(asks, f) {
      LeftLater(pending, f);
      LeftEnqueuedAll(Later(pending, false), asks, f);
    }
  }

  /** One tick and one recompute that changes nothing lead back to the same delays. */
  lemma OneRound(c: Circuit, centre: Pos, radius: int, asks: seq<Schedule>)
    requires WaitsAsAsked(c.pending, asks) && forall e | e in asks :: Proper(e)
    requires var r := Recomputed(c.world, Box(centre, Clamp(radius)), true); r.world == c.world && r.due == asks
    ensures var r := Next(Next(c, Tick), Near(centre, radius)); r.world == c.world && WaitsAsAsked(r.pending, asks)
  {
    NothingDue(c.pending, asks);
    AskedAgain(c.pending, asks);
    assert Next(c, Tick) == c.(pending := Later(c.pending, false));
  }

  lemma {:induction false} ManyRounds(c: Circuit, centre: Pos, radius: int, asks: seq<Schedule>, n: nat)
    requires WaitsAsAsked(c.pending, asks) && forall e | e in asks :: Proper(e)
    requires var r := Recomputed(c.world, Box(centre, Clamp(radius)), true); r.world == c.world && r.due == asks
    ensures var r := Happened(c, Rounds(centre, radius, n)); r.world == c.world && WaitsAsAsked(r.pending, asks)
    decreases n
  {
    if n > 0 {
      var rest := Rounds(centre, radius, n - 1);
      OneRound(c, centre, radius, asks);
      HappenedFirst(c, Tick, [Near(centre, radius)] + rest);
      HappenedFirst(Next(c, Tick), Near(centre, radius), rest);
      ManyRounds(Next(Next(c, Tick), Near(centre, radius)), centre, radius, asks, n - 1);
    }
  }

  lemma AskedForFirst(c: Circuit, centre: Pos, radius: int)
    requires c.pending == []
    ensures WaitsAsAsked(Recompute(c, centre, radius).pending, Recomputed(c.world, Box(centre, Clamp(radius)), true).due)
  {
    var asks := Recomputed(c.world, Box(centre, Clamp(radius)), true).due;
    RecomputedProper(c.world, Box(centre, Clamp(radius)));
    RecomputeWaits(c, centre, radius);
    forall f ensures Left(EnqueuedAll([], asks), f) == AskedFor(asks, f) {
      LeftEnqueuedAll([], asks, f);
    }
  }

  lemma {:induction false} AskedForIs(asks: seq<Schedule>, f: Schedule)
    requires f.delay > 0 && forall e | e in asks && SameFlip(e, f) :: e.delay == f.delay
    ensures AskedFor(asks, f) == if exists e :: e in asks && SameFlip(e, f) then f.delay else 0
  {
    if asks != [] {
      assert forall e :: e in asks <==> e == asks[0] || e in asks[1..];
      AskedForIs(asks[1..], f);
    }
  }

  /** The flip of a repeater that disagrees with its input. */
  function FlipOf(w: World, p: Pos): Schedule {
    Schedule(p, WantedRepeater(w, p), At(w, p).meta, DelayTicks(At(w, p).meta))
  }

  lemma AskedToFlip(t: World, b: Box, p: Pos)
    requires NoComparators(t, b) && Stable(t, b)
    requires Inside(b, p) && IsRepeater(At(t, p).id) && WantedRepeater(t, p) != At(t, p).id
    ensures AskedFor(Recomputed(t, b, true).due, FlipOf(t, p)) == DelayTicks(At(t, p).meta)
  {
    var f, asks := FlipOf(t, p), Recomputed(t, b, true).due;
    StableIsIdle(t, b);
    SchedulesAreRight(t, b);
    DiodeFaces(p, At(t, p).meta);
    var e :| e in asks && e.pos == p;
    assert RightSchedule(t, e) && SameFlip(e, f);
    AskedForIs(asks, f);
  }

  /** A recompute of the same box after every tick puts its repeaters off for ever: with no comparator
      in or next to the box, however many ticks pass, no repeater flips, and each that disagrees with
      its input still has its whole delay to go. */
  lemma {:induction false} PutOffForEver(w: World, centre: Pos, radius: int, n: nat)
    requires NoComparators(w, Box(centre, Clamp(radius)))
    ensures var b := Box(centre, Clamp(radius));
            var t := Recomputed(w, b, true).world;
            var r := Happened(Recompute(Circuit(t, []), centre, radius), Rounds(centre, radius, n));
            && r.world == t && (forall f :: !Due(r.pending, f))
            && forall p | Inside(b, p) && IsRepeater(At(t, p).id) && WantedRepeater(t, p) != At(t, p).id ::
                 Left(r.pending, FlipOf(t, p)) == DelayTicks(At(t, p).meta)
  {
    var b := Box(centre, Clamp(radius));
    var t := Recomputed(w, b, true).world;
    var asks := Recomputed(t, b, true).due;
    SourcesStay(w, b);
    RecomputeSettles(w, b);
    RecomputeIsIdempotent(w, b);
    RecomputedProper(t, b);
    AskedForFirst(Circuit(t, []), centre, radius);
    var c := Recompute(Circuit(t, []), centre, radius);
    ManyRounds(c, centre, radius, asks, n);
    NothingDue(Happened(c, Rounds(centre, radius, n)).pending, asks);
    forall p | Inside(b, p) && IsRepeater(At(t, p).id) && WantedRepeater(t, p) != At(t, p).id
      ensures AskedFor(asks, FlipOf(t, p)) == DelayTicks(At(t, p).meta)
    {
      AskedToFlip(t, b, p);
    }
  }

  /** A repeater that is off, with a block of redstone behind it. */
  function Lit(p: Pos, meta: nibble): World {
    World(map[p := Cell(REPEATER_OFF, meta), Beside(p, InSide(meta)) := Cell(REDSTONE_BLOCK, 0)], map[], false)
  }

  lemma LitIsStable(p: Pos, meta: nibble, b: Box)
    ensures NoComparators(Lit(p, meta), b) && Stable(Lit(p, meta), b)
  {
    DiodeFaces(p, meta);
  }

  lemma LitWants(p: Pos, meta: nibble)
    requires 0 <= p.y < HEIGHT
    ensures At(Lit(p, meta), p) == Cell(REPEATER_OFF, meta) && WantedRepeater(Lit(p, meta), p) == REPEATER_ON
  {
    DiodeFaces(p, meta);
    assert SourcePower(Lit(p, meta), Beside(p, InSide(meta))) == 15;
  }

  /** On a settled world the first recompute asks for the flip, and the world stays as it is. */
  lemma {:induction false} SettledStays(w: World, p: Pos, radius: int, n: nat)
    requires var b := Box(p, Clamp(radius)); NoComparators(w, b) && Stable(w, b) && Inside(b, p)
    requires IsRepeater(At(w, p).id) && WantedRepeater(w, p) != At(w, p).id
    ensures var c := Recompute(Circuit(w, []), p, radius);
            && Left(c.pending, FlipOf(w, p)) == DelayTicks(At(w, p).meta)
            && Happened(c, Rounds(p, radius, n)).world == w
  {
    StableIsIdle(w, Box(p, Clamp(radius)));
    PutOffForEver(w, p, radius, n);
    PutOffForEver(w, p, radius, 0);
    assert Rounds(p, radius, 0) == [];
  }

  /** For example, that repeater never comes on while its surroundings are recomputed after every
      tick. */
  lemma {:induction false} LitStaysOff(p: Pos, meta: nibble, n: nat)
    requires 0 <= p.y < HEIGHT
    ensures var c := Recompute(Circuit(Lit(p, meta), []), p, FLIP_RADIUS);
            && Left(c.pending, Schedule(p, REPEATER_ON, meta, DelayTicks(meta))) == DelayTicks(meta)
            && At(Happened(c, Rounds(p, FLIP_RADIUS, n)).world, p).id == REPEATER_OFF
  {
    LitWants(p, meta);
    LitIsStable(p, meta, Box(p, Clamp(FLIP_RADIUS)));
    SettledStays(Lit(p, meta), p, FLIP_RADIUS, n);
  }
}
