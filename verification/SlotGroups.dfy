/** When a survival player's slot changes take effect: up to eight requests that come within eight
    seconds and balance as a group, and not before, are applied together. */
module SlotGroups {
  import opened Items
  import opened SlotTransactions

  /** A slot of the inventory, or one of the four of the armor. */
  predicate IsSlot(d: Desk, window: int, slot: int) {
    (window == 0 && 0 <= slot < |d.inventory|) || (window == 120 && 0 <= slot < 4)
  }

  function Content(d: Desk, window: int, slot: int): Stack
    requires IsSlot(d, window, slot)
  {
    if window == 0 then d.inventory[slot] else if |d.armor| >= 4 then d.armor[slot] else Stack(0, 0, 0)
  }

  /** Requests for distinct slots, each for something else than the slot holds, the last at most eight
      seconds after the first. */
  ghost predicate Group(d: Desk, rs: seq<Request>) {
    && (forall r | r in rs :: IsSlot(d, r.window, r.slot) && !EqualsStack(Content(d, r.window, r.slot), Sanitize(r.item)))
    && (forall i, j | 0 <= i < j < |rs| :: !(rs[i].window == rs[j].window && rs[i].slot == rs[j].slot))
    && (forall i | 0 <= i < |rs| :: rs[i].now - rs[0].now <= 8.0)
  }

  /** Items of a type asked for by the requests, and held in their slots. */
  function Asked(rs: seq<Request>, t: Type): nat {
    if rs == [] then 0 else Asked(rs[..|rs| - 1], t) + Count(Sanitize(rs[|rs| - 1].item), t)
  }

  function InSlots(d: Desk, rs: seq<Request>, t: Type): nat
    requires forall r | r in rs :: IsSlot(d, r.window, r.slot)
  {
    if rs == [] then 0
    else
      var last := rs[|rs| - 1];
      InSlots(d, rs[..|rs| - 1], t) + Count(Content(d, last.window, last.slot), t)
  }

  ghost predicate Even(d: Desk, rs: seq<Request>)
    requires forall r | r in rs :: IsSlot(d, r.window, r.slot)
  {
    forall t :: Asked(rs, t) == InSlots(d, rs, t)
  }

  // ---------- the pending entries of a group ----------

  function Entry(d: Desk, r: Request): SlotTx
    requires IsSlot(d, r.window, r.slot)
  {
    SlotTx(r.window, r.slot, Content(d, r.window, r.slot), Sanitize(r.item))
  }

  function Entries(d: Desk, rs: seq<Request>): (txs: seq<SlotTx>)
    requires forall r | r in rs :: IsSlot(d, r.window, r.slot)
    ensures |txs| == |rs|
  {
    seq(|rs|, i requires 0 <= i < |rs| => Entry(d, rs[i]))
  }

  lemma ContentIs(d: Desk, window: int, slot: int)
    requires IsSlot(d, window, slot)
    ensures GetSlot(d, window, slot) == Content(d, window, slot) && Addresses(d, window, slot)
  {
  }

  lemma EntriesSnoc(d: Desk, rs: seq<Request>, r: Request)
    requires forall x | x in rs + [r] :: IsSlot(d, x.window, x.slot)
    ensures forall x | x in rs :: x in rs + [r]
    ensures IsSlot(d, r.window, r.slot) && Entries(d, rs + [r]) == Entries(d, rs) + [Entry(d, r)]
  {
    assert r in rs + [r];
    assert forall i | 0 <= i < |rs| :: rs[i] in rs + [r];
  }

  lemma {:induction false} RecordNew(txs: seq<SlotTx>, tx: SlotTx)
    requires forall x | x in txs :: !(x.window == tx.window && x.slot == tx.slot)
    ensures Record(txs, tx) == txs + [tx]
  {
    if txs != [] {
      assert txs[0] in txs;
      RecordNew(txs[1..], tx);
      assert [txs[0]] + (txs[1..] + [tx]) == txs + [tx];
    }
  }

  lemma {:induction false} EntriesTotals(d: Desk, rs: seq<Request>, t: Type)
    requires forall r | r in rs :: IsSlot(d, r.window, r.slot)
    ensures Total(Targets(Entries(d, rs)), t) == Asked(rs, t)
    ensures Total(Sources(Entries(d, rs)), t) == InSlots(d, rs, t)
  {
    if rs != [] {
      var front, last := rs[..|rs| - 1], rs[|rs| - 1];
      assert rs == front + [last] && last in rs;
      EntriesSnoc(d, front, last);
      EntriesTotals(d, front, t);
      LastCounts(Entries(d, rs), t);
      assert Entries(d, rs)[..|rs| - 1] == Entries(d, front);
    }
  }

  lemma EntriesBalance(d: Desk, rs: seq<Request>)
    requires forall r | r in rs :: IsSlot(d, r.window, r.slot)
    ensures Balances(Targets(Entries(d, rs)), Sources(Entries(d, rs))) <==> Even(d, rs)
  {
    forall t ensures Total(Targets(Entries(d, rs)), t) == Asked(rs, t)
      ensures Total(Sources(Entries(d, rs)), t) == InSlots(d, rs, t) {
      EntriesTotals(d, rs, t);
    }
  }

  lemma EntriesMatch(d: Desk, e: Desk, rs: seq<Request>)
    requires forall r | r in rs :: IsSlot(d, r.window, r.slot)
    requires e.inventory == d.inventory && e.armor == d.armor
    ensures SourcesMatch(e, Entries(d, rs))
  {
    forall tx | tx in Entries(d, rs) ensures EqualsStack(GetSlot(e, tx.window, tx.slot), tx.source) {
      var i :| 0 <= i < |rs| && Entries(d, rs)[i] == tx;
      ContentIs(d, rs[i].window, rs[i].slot);
    }
  }

  // ---------- waiting ----------

  /** The desk with the requests waiting. */
  function Waits(d: Desk, rs: seq<Request>): Desk
    requires forall r | r in rs :: IsSlot(d, r.window, r.slot)
  {
    if rs == [] then d else d.(pending := Entries(d, rs), since := rs[0].now)
  }

  lemma GroupFront(d: Desk, rs: seq<Request>, r: Request)
    requires Group(d, rs + [r])
    ensures Group(d, rs) && r in rs + [r]
  {
    var all := rs + [r];
    assert forall i | 0 <= i < |rs| :: all[i] == rs[i];
    assert forall x | x in rs :: x in all;
    assert all[|rs|] == r;
  }

  /** The next request of a group joins those that wait. */
  lemma OneMoreWaits(d: Desk, rs: seq<Request>, r: Request)
    requires d.pending == [] && Group(d, rs + [r]) && Group(d, rs)
    ensures !Ignored(Waits(d, rs), r) && Gathered(Waits(d, rs), r) == Waits(d, rs + [r])
  {
    var all := rs + [r];
    assert r in all && all[|rs|] == r && all[0] == if rs == [] then r else rs[0];
    var e := Waits(d, rs);
    ContentIs(d, r.window, r.slot);
    SanitizeCleans(r.item);
    EntriesSnoc(d, rs, r);
    forall x | x in Entries(d, rs) ensures !(x.window == r.window && x.slot == r.slot) {
      var i :| 0 <= i < |rs| && Entries(d, rs)[i] == x;
      assert all[i] == rs[i];
    }
    RecordNew(Entries(d, rs), Entry(d, r));
  }

  lemma WaitsAccepted(d: Desk, rs: seq<Request>)
    requires d.pending == [] && Group(d, rs) && rs != []
    ensures Acceptable(Waits(d, rs), false) <==> Even(d, rs)
  {
    EntriesBalance(d, rs);
    EntriesMatch(d, Waits(d, rs), rs);
  }

  /** What the next request of a group leads to. */
  lemma NextRequest(d: Desk, rs: seq<Request>, r: Request)
    requires d.pending == [] && Group(d, rs + [r]) && Group(d, rs)
    ensures var e := Waits(d, rs + [r]);
            Handled(Waits(d, rs), false, r) ==
              if Even(d, rs + [r]) then Applied(e, e.pending).(pending := [], since := 0.0)
              else if |rs| >= 7 then e.(pending := [], since := 0.0)
              else e
  {
    OneMoreWaits(d, rs, r);
    WaitsAccepted(d, rs + [r]);
  }

  lemma {:induction false} HandledSnoc(d: Desk, rs: seq<Request>, r: Request)
    ensures HandledAll(d, rs + [r]) == Handled(HandledAll(d, rs), false, r)
    decreases |rs|
  {
    if rs == [] {
      assert [r][1..] == [] && [] + [r] == [r];
    } else {
      assert (rs + [r])[0] == rs[0] && (rs + [r])[1..] == rs[1..] + [r];
      HandledSnoc(Handled(d, false, rs[0]), rs[1..], r);
    }
  }

  /** As long as no first part of it balances, a group of fewer than eight requests waits, and no slot
      changes. */
  lemma {:induction false} GroupWaits(d: Desk, rs: seq<Request>)
    requires d.pending == [] && Group(d, rs) && |rs| < 8
    requires forall n | 0 < n <= |rs| :: !EvenUpTo(d, rs, n)
    ensures HandledAll(d, rs) == Waits(d, rs)
    decreases |rs|
  {
    if rs != [] {
      var front, r := rs[..|rs| - 1], rs[|rs| - 1];
      assert rs == front + [r];
      GroupFront(d, front, r);
      forall n | 0 < n <= |front| ensures !EvenUpTo(d, front, n) {
        assert front[..n] == rs[..n] && !EvenUpTo(d, rs, n);
      }
      GroupWaits(d, front);
      HandledSnoc(d, front, r);
      NextRequest(d, front, r);
      assert rs[..|rs|] == rs && !EvenUpTo(d, rs, |rs|);
    }
  }

  /** The first `n` requests balance. */
  ghost predicate EvenUpTo(d: Desk, rs: seq<Request>, n: int)
    requires forall r | r in rs :: IsSlot(d, r.window, r.slot)
  {
    0 <= n <= |rs| && Even(d, rs[..n])
  }

  // ---------- taking effect ----------

  lemma SetSlotSets(d: Desk, window: int, slot: nat, item: Stack)
    requires IsSlot(d, window, slot) && Clean(item)
    ensures GetSlot(SetSlot(d, window, slot, item), window, slot) == item
  {
    SanitizeCleans(item);
  }

  lemma OtherSlotStays(d: Desk, tx: SlotTx, window: int, slot: nat)
    requires Addresses(d, tx.window, tx.slot) && Clean(tx.target) && (d.armor == [] || |d.armor| >= 4)
    requires Addresses(d, window, slot) && !(window == tx.window && slot == tx.slot)
    ensures GetSlot(SetSlot(d, tx.window, tx.slot, tx.target), window, slot) == GetSlot(d, window, slot)
  {
    SetSlotHolds(d, tx.window, tx.slot, tx.target, Type(0, 0));
  }

  lemma {:induction false} AppliedSets(d: Desk, txs: seq<SlotTx>, i: nat)
    requires i < |txs| && DistinctSlots(txs) && (d.armor == [] || |d.armor| >= 4)
    requires forall tx | tx in txs :: Addresses(d, tx.window, tx.slot) && Clean(tx.target)
    ensures GetSlot(Applied(d, txs), txs[i].window, txs[i].slot) == txs[i].target
  {
    var n := |txs| - 1;
    assert forall x | x in txs[..n] :: x in txs;
    assert txs[n] in txs && txs[i] in txs;
    LastUntouched(d, txs);
    if i == n {
      SetSlotSets(Applied(d, txs[..n]), txs[n].window, txs[n].slot, txs[n].target);
    } else {
      AppliedSets(d, txs[..n], i);
      AppliedOver(d, txs, txs[i].window, txs[i].slot);
    }
  }

  /** The last entry leaves other slots as the entries before it left them. */
  lemma {:induction false} AppliedOver(d: Desk, txs: seq<SlotTx>, window: int, slot: nat)
    requires txs != [] && DistinctSlots(txs) && (d.armor == [] || |d.armor| >= 4)
    requires forall tx | tx in txs :: Addresses(d, tx.window, tx.slot) && Clean(tx.target)
    requires var tx := txs[|txs| - 1]; Addresses(d, window, slot) && !(window == tx.window && slot == tx.slot)
    ensures GetSlot(Applied(d, txs), window, slot) == GetSlot(Applied(d, txs[..|txs| - 1]), window, slot)
  {
    var n := |txs| - 1;
    assert forall x | x in txs[..n] :: x in txs;
    assert txs[n] in txs;
    LastUntouched(d, txs);
    AppliedShape(d, txs[..n], window, slot);
    OtherSlotStays(Applied(d, txs[..n]), txs[n], window, slot);
  }

  /** Every slot asked for holds what was asked for, every other slot what it held, and nothing waits. */
  ghost predicate TookEffect(d: Desk, e: Desk, rs: seq<Request>) {
    && e.pending == [] && |e.inventory| == |d.inventory|
    && (forall r | r in rs && IsSlot(e, r.window, r.slot) :: Content(e, r.window, r.slot) == Sanitize(r.item))
    && (forall w, s | IsSlot(d, w, s) && (forall r | r in rs :: !(r.window == w && r.slot == s)) ::
          Content(e, w, s) == Content(d, w, s))
  }

  /** The entries of a group name distinct slots and ask for clean stacks. */
  lemma EntriesProper(d: Desk, rs: seq<Request>)
    requires Group(d, rs)
    ensures DistinctSlots(Entries(d, rs))
    ensures forall tx | tx in Entries(d, rs) :: Addresses(Waits(d, rs), tx.window, tx.slot) && Clean(tx.target)
  {
    var txs := Entries(d, rs);
    forall tx | tx in txs ensures Addresses(Waits(d, rs), tx.window, tx.slot) && Clean(tx.target) {
      var i :| 0 <= i < |rs| && txs[i] == tx;
      SanitizeCleans(rs[i].item);
    }
  }

  lemma AskedFor(d: Desk, rs: seq<Request>, i: nat)
    requires i < |rs| && (d.armor == [] || |d.armor| >= 4) && Group(d, rs)
    ensures var f := Applied(Waits(d, rs), Entries(d, rs));
            && |f.inventory| == |d.inventory| && (f.armor == [] || |f.armor| >= 4)
            && IsSlot(f, rs[i].window, rs[i].slot) && Content(f, rs[i].window, rs[i].slot) == Sanitize(rs[i].item)
  {
    var e, txs := Waits(d, rs), Entries(d, rs);
    EntriesProper(d, rs);
    ContentIs(d, rs[i].window, rs[i].slot);
    AppliedShape(e, txs, rs[i].window, rs[i].slot);
    AppliedSets(e, txs, i);
    ContentIs(Applied(e, txs), rs[i].window, rs[i].slot);
  }

  lemma NotAskedFor(d: Desk, rs: seq<Request>, w: int, s: int)
    requires (d.armor == [] || |d.armor| >= 4) && Group(d, rs) && IsSlot(d, w, s)
    requires forall r | r in rs :: !(r.window == w && r.slot == s)
    ensures var f := Applied(Waits(d, rs), Entries(d, rs)); IsSlot(f, w, s) && Content(f, w, s) == Content(d, w, s)
  {
    var e, txs := Waits(d, rs), Entries(d, rs);
    EntriesProper(d, rs);
    forall tx | tx in txs ensures !(tx.window == w && tx.slot == s) {
      var i :| 0 <= i < |rs| && txs[i] == tx;
      assert rs[i] in rs;
    }
    AppliedShape(e, txs, w, s);
    ContentIs(Applied(e, txs), w, s);
    ContentIs(d, w, s);
  }

  lemma GroupApplied(d: Desk, rs: seq<Request>)
    requires d.pending == [] && (d.armor == [] || |d.armor| >= 4) && Group(d, rs) && rs != []
    ensures var e := Waits(d, rs); TookEffect(d, Applied(e, e.pending).(pending := [], since := 0.0), rs)
  {
    var f := Applied(Waits(d, rs), Entries(d, rs));
    forall r | r in rs && IsSlot(f, r.window, r.slot) ensures Content(f, r.window, r.slot) == Sanitize(r.item) {
      var i :| 0 <= i < |rs| && rs[i] == r;
      AskedFor(d, rs, i);
    }
    forall w, s | IsSlot(d, w, s) && (forall r | r in rs :: !(r.window == w && r.slot == s))
      ensures IsSlot(f, w, s) && Content(f, w, s) == Content(d, w, s)
    {
      NotAskedFor(d, rs, w, s);
    }
    AskedFor(d, rs, 0);
  }

  /** A group of at most eight requests, no first part of which balances, comes to this: if it balances
      it takes effect with its last request. If not, no slot changes; fewer than eight go on waiting,
      eight are forgotten. */
  lemma {:induction false} GroupDecides(d: Desk, rs: seq<Request>)
    requires d.pending == [] && (d.armor == [] || |d.armor| >= 4) && Group(d, rs) && 0 < |rs| <= 8
    requires forall n | 0 < n < |rs| :: !EvenUpTo(d, rs, n)
    ensures var e := HandledAll(d, rs);
            if Even(d, rs) then TookEffect(d, e, rs)
            else e.inventory == d.inventory && e.armor == d.armor && |e.pending| == (if |rs| < 8 then |rs| else 0)
  {
    var front, r := rs[..|rs| - 1], rs[|rs| - 1];
    assert rs == front + [r];
    GroupFront(d, front, r);
    forall n | 0 < n <= |front| ensures !EvenUpTo(d, front, n) {
      assert front[..n] == rs[..n] && !EvenUpTo(d, rs, n);
    }
    GroupWaits(d, front);
    HandledSnoc(d, front, r);
    NextRequest(d, front, r);
    GroupApplied(d, rs);
  }

  /** A request that comes more than eight seconds after the first that waits starts anew. */
  lemma LateStartsAnew(d: Desk, r: Request)
    requires IsSlot(d, r.window, r.slot) && !EqualsStack(Content(d, r.window, r.slot), Sanitize(r.item))
    requires d.since > 0.0 && r.now > d.since + 8.0
    ensures Handled(d, false, r) == Handled(d.(pending := []), false, r)
  {
    ContentIs(d, r.window, r.slot);
    SanitizeCleans(r.item);
  }

  /** A request for a slot that does not exist, or for what the slot already holds, has no effect. */
  lemma RequestIgnored(d: Desk, creative: bool, r: Request)
    requires !IsSlot(d, r.window, r.slot) || EqualsStack(Content(d, r.window, r.slot), Sanitize(r.item))
    ensures Handled(d, creative, r) == d
  {
    SanitizeCleans(r.item);
    if IsSlot(d, r.window, r.slot) { ContentIs(d, r.window, r.slot); }
  }

  /** A creative player gets what is asked for, with nothing given up. */
  lemma CreativeTakesEffect(d: Desk, r: Request)
    requires d.pending == [] && (d.armor == [] || |d.armor| >= 4) && Group(d, [r])
    ensures TookEffect(d, Handled(d, true, r), [r])
  {
    assert [] + [r] == [r];
    OneMoreWaits(d, [], r);
    GroupApplied(d, [r]);
    CreativeApplies(d, r);
  }

  // ---------- a swap ----------

  /** Two clean stacks of which one has as many items of every type as the other are the same. */
  lemma SameCounts(a: Stack, b: Stack)
    requires Clean(a) && Clean(b) && forall t :: Count(a, t) == Count(b, t)
    ensures a == b
  {
    assert Count(a, TypeOf(a)) == Count(b, TypeOf(a)) && Count(a, TypeOf(b)) == Count(b, TypeOf(b));
  }

  lemma {:induction false} OneAsked(d: Desk, r: Request)
    requires IsSlot(d, r.window, r.slot) && Clean(r.item) && Clean(Content(d, r.window, r.slot))
    ensures forall t :: Asked([r], t) == Count(r.item, t) && InSlots(d, [r], t) == Count(Content(d, r.window, r.slot), t)
    ensures Even(d, [r]) ==> r.item == Content(d, r.window, r.slot)
  {
    SanitizeCleans(r.item);
    assert [r][..0] == [];
    forall t ensures Asked([r], t) == Count(r.item, t) && InSlots(d, [r], t) == Count(Content(d, r.window, r.slot), t) {
      assert Asked([], t) == 0 && InSlots(d, [], t) == 0;
    }
    if Even(d, [r]) {
      forall t ensures Count(r.item, t) == Count(Content(d, r.window, r.slot), t) {
        assert Asked([r], t) == InSlots(d, [r], t);
      }
      SameCounts(r.item, Content(d, r.window, r.slot));
    }
  }

  lemma {:induction false} TwoAreEven(d: Desk, a: Request, b: Request)
    requires IsSlot(d, a.window, a.slot) && IsSlot(d, b.window, b.slot)
    requires a.item == Content(d, b.window, b.slot) && b.item == Content(d, a.window, a.slot)
    requires Clean(a.item) && Clean(b.item)
    ensures Even(d, [a, b])
  {
    OneAsked(d, a);
    SanitizeCleans(b.item);
    assert [a, b][..1] == [a];
    forall t ensures Asked([a, b], t) == InSlots(d, [a, b], t) {
      assert Asked([a], t) == Count(a.item, t) && InSlots(d, [a], t) == Count(b.item, t);
    }
  }

  /** Two requests that exchange what two slots hold, or move it when one is empty, leave it exchanged
      when the second comes within eight seconds of the first, and leave nothing waiting. */
  lemma {:induction false} SwapTakesEffect(d: Desk, a: Request, b: Request)
    requires d.pending == [] && (d.armor == [] || |d.armor| >= 4)
    requires IsSlot(d, a.window, a.slot) && IsSlot(d, b.window, b.slot) && !(a.window == b.window && a.slot == b.slot)
    requires a.item == Content(d, b.window, b.slot) && b.item == Content(d, a.window, a.slot)
    requires Clean(a.item) && Clean(b.item) && b.now - a.now <= 8.0
    ensures var e := HandledAll(d, [a, b]);
            && e.pending == [] && |e.inventory| == |d.inventory|
            && Content(e, a.window, a.slot) == Content(d, b.window, b.slot)
            && Content(e, b.window, b.slot) == Content(d, a.window, a.slot)
            && (forall w, s | IsSlot(d, w, s) && !(w == a.window && s == a.slot) && !(w == b.window && s == b.slot) ::
                  Content(e, w, s) == Content(d, w, s))
  {
    var rs := [a, b];
    SanitizeCleans(a.item);
    SanitizeCleans(b.item);
    ContentIs(d, a.window, a.slot);
    ContentIs(d, b.window, b.slot);
    if EqualsStack(a.item, b.item) {
      EchoIgnored(d, a, b);
    } else {
      OneAsked(d, a);
      TwoAreEven(d, a, b);
      assert forall n | 0 < n < 2 :: rs[..n] == [a];
      GroupDecides(d, rs);
      var e := HandledAll(d, rs);
      assert a in rs && b in rs;
    }
  }

  lemma {:induction false} EchoIgnored(d: Desk, a: Request, b: Request)
    requires a.slot >= 0 && b.slot >= 0 && Ignored(d, a) && Ignored(d, b)
    ensures HandledAll(d, [a, b]) == d
  {
    assert [a, b][1..] == [b] && [b][1..] == [];
    assert HandledAll(Handled(d, false, a), [b]) == HandledAll(Handled(d, false, b), []);
  }
}
