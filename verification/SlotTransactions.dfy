/** Survival inventory transactions: slot changes are gathered and applied together once what they
    give equals, type by type, what they take. */
module SlotTransactions {
  import opened Items

  const WINDOW_INVENTORY := 0
  const WINDOW_ARMOR := 0x78
  const MAX_PENDING := 8
  const EXPIRY := 8.0

  /** A change asked for: what the server had in the slot, and what the client wants there. */
  datatype SlotTx = SlotTx(window: int, slot: nat, source: Stack, target: Stack)

  /** The part of a player that transactions touch. */
  datatype Desk = Desk(inventory: seq<Stack>, armor: seq<Stack>, pending: seq<SlotTx>, since: real)

  datatype Request = Request(window: int, slot: int, item: Stack, now: real)

  function GetSlot(d: Desk, window: int, slot: nat): Stack {
    if window == WINDOW_INVENTORY then (if slot >= |d.inventory| then AIR else d.inventory[slot])
    else if window == WINDOW_ARMOR then (if slot >= 4 || |d.armor| < 4 then AIR else d.armor[slot])
    else AIR
  }

  const NO_ARMOR: seq<Stack> := [AIR, AIR, AIR, AIR]

  function SetSlot(d: Desk, window: int, slot: nat, item: Stack): Desk {
    var clean := if Empty(item) then AIR else Sanitize(item);
    if window == WINDOW_INVENTORY then
      (if slot >= |d.inventory| then d else d.(inventory := d.inventory[slot := clean]))
    else if window == WINDOW_ARMOR then
      var armor := if |d.armor| < 4 then NO_ARMOR else d.armor;
      d.(armor := if slot >= 4 then armor else armor[slot := clean])
    else d
  }

  /** Items of a type held, on the person and worn. */
  function Held(d: Desk, t: Type): nat { Total(d.inventory, t) + Total(d.armor, t) }

  // ---------- when a group may be applied ----------

  predicate SourcesMatch(d: Desk, txs: seq<SlotTx>) {
    forall tx | tx in txs :: EqualsStack(GetSlot(d, tx.window, tx.slot), tx.source)
  }

  function Sources(txs: seq<SlotTx>): seq<Stack> {
    if txs == [] then []
    else
      var last := txs[|txs| - 1].source;
      Sources(txs[..|txs| - 1]) + (if Empty(last) then [] else [last])
  }

  function Targets(txs: seq<SlotTx>): seq<Stack> {
    if txs == [] then []
    else
      var last := txs[|txs| - 1].target;
      Targets(txs[..|txs| - 1]) + (if Empty(last) then [] else [last])
  }

  /** What is wanted equals what is given up, for every type of item. */
  ghost predicate Balances(need: seq<Stack>, have: seq<Stack>) {
    forall t :: Total(need, t) == Total(have, t)
  }

  ghost predicate Acceptable(d: Desk, creative: bool) {
    && d.pending != []
    && (creative || (SourcesMatch(d, d.pending) && Balances(Targets(d.pending), Sources(d.pending))))
  }

  function Applied(d: Desk, txs: seq<SlotTx>): Desk {
    if txs == [] then d
    else
      var tx := txs[|txs| - 1];
      SetSlot(Applied(d, txs[..|txs| - 1]), tx.window, tx.slot, tx.target)
  }

  ghost function Executed(d: Desk, creative: bool): Desk {
    if Acceptable(d, creative) then Applied(d, d.pending).(pending := [], since := 0.0) else d
  }

  // ---------- one request ----------

  function Record(txs: seq<SlotTx>, tx: SlotTx): seq<SlotTx> {
    if txs == [] then [tx]
    else if txs[0].window == tx.window && txs[0].slot == tx.slot then [tx] + txs[1..]
    else [txs[0]] + Record(txs[1..], tx)
  }

  /** The slot exists. */
  predicate Addresses(d: Desk, window: int, slot: nat) {
    (window == WINDOW_INVENTORY && slot < |d.inventory|) || (window == WINDOW_ARMOR && slot < 4)
  }

  /** The pending list with the request in it. */
  function Gathered(d: Desk, r: Request): Desk
    requires r.slot >= 0
  {
    var item := Sanitize(r.item);
    var source := GetSlot(d, r.window, r.slot);
    var d1 := if d.pending != [] && d.since > 0.0 && r.now - d.since > EXPIRY then d.(pending := []) else d;
    var d2 := if d1.pending == [] then d1.(since := r.now) else d1;
    d2.(pending := Record(d2.pending, SlotTx(r.window, r.slot, source, if Empty(item) then AIR else item)))
  }

  predicate Ignored(d: Desk, r: Request) {
    || r.slot < 0 || !Addresses(d, r.window, r.slot)
    || EqualsStack(GetSlot(d, r.window, r.slot), if Empty(Sanitize(r.item)) then AIR else Sanitize(r.item))
  }

  ghost function Handled(d: Desk, creative: bool, r: Request): Desk {
    if Ignored(d, r) then d
    else
      var d1 := Gathered(d, r);
      if Acceptable(d1, creative) then Executed(d1, creative)
      else if |d1.pending| >= MAX_PENDING then d1.(pending := [], since := 0.0)
      else d1
  }

  ghost function HandledAll(d: Desk, rs: seq<Request>): Desk
    decreases |rs|
  {
    if rs == [] then d else HandledAll(Handled(d, false, rs[0]), rs[1..])
  }

  // ---------- the greedy matcher ----------

  /** Wanted stacks before `i` are met or cannot be met from what is left. */
  ghost predicate Met(need: seq<Stack>, have: seq<Stack>, i: nat)
    requires i <= |need|
  {
    forall k | 0 <= k < i :: need[k].count == 0 || NoneLeft(have, need[k], |have|)
  }

  ghost predicate NoneLeft(have: seq<Stack>, n: Stack, j: nat)
    requires j <= |have|
  {
    forall k | 0 <= k < j && SameType(have[k], n) :: Empty(have[k])
  }

  /** Types stay and counts only fall. */
  ghost predicate Reduced(a: seq<Stack>, b: seq<Stack>) {
    |a| == |b| && forall k | 0 <= k < |a| :: SameType(a[k], b[k]) && b[k].count <= a[k].count
  }

  /** The two totals of each type differ by as much as before. */
  ghost predicate SameGap(need: seq<Stack>, have: seq<Stack>, need1: seq<Stack>, have1: seq<Stack>) {
    forall t :: Total(need1, t) + Total(have, t) == Total(need, t) + Total(have1, t)
  }

  lemma GapChain(n0: seq<Stack>, h0: seq<Stack>, n1: seq<Stack>, h1: seq<Stack>, n2: seq<Stack>, h2: seq<Stack>)
    requires SameGap(n0, h0, n1, h1) && SameGap(n1, h1, n2, h2)
    ensures SameGap(n0, h0, n2, h2)
  {
    forall t ensures Total(n2, t) + Total(h0, t) == Total(n0, t) + Total(h2, t) {
      assert Total(n1, t) + Total(h0, t) == Total(n0, t) + Total(h1, t);
      assert Total(n2, t) + Total(h1, t) == Total(n1, t) + Total(h2, t);
    }
  }

  lemma TakeKeepsGap(need: seq<Stack>, have: seq<Stack>, i: nat, j: nat, amount: nat)
    requires i < |need| && j < |have| && SameType(need[i], have[j]) && need[i].id > 0
    requires amount <= need[i].count && amount <= have[j].count
    ensures SameGap(need, have, need[i := need[i].(count := need[i].count - amount)],
                                have[j := have[j].(count := have[j].count - amount)])
  {
    var n, h := need[i].(count := need[i].count - amount), have[j].(count := have[j].count - amount);
    forall t ensures Total(need[i := n], t) + Total(have, t) == Total(need, t) + Total(have[j := h], t) {
      TotalUpdate(need, i, n, t);
      TotalUpdate(have, j, h, t);
      assert Count(need[i], t) + Count(h, t) == Count(n, t) + Count(have[j], t);
    }
  }

  /** Meets one wanted stack from the given ones, in order, until it is met. */
  method MeetOne(need: seq<Stack>, have: seq<Stack>, i: nat) returns (n: seq<Stack>, h: seq<Stack>)
    requires i < |need| && need[i].id > 0
    ensures Reduced(need, n) && Reduced(have, h) && SameGap(need, have, n, h)
    ensures forall k | 0 <= k < |need| && k != i :: n[k] == need[k]
    ensures n[i].count == 0 || NoneLeft(h, n[i], |h|)
  {
    n, h := need, have;
    for j := 0 to |have|
      invariant Reduced(need, n) && Reduced(have, h) && SameGap(need, have, n, h)
      invariant forall k | 0 <= k < |need| && k != i :: n[k] == need[k]
      invariant NoneLeft(h, n[i], j)
    {
      if !Empty(h[j]) && SameType(n[i], h[j]) {
        var amount := if n[i].count < h[j].count then n[i].count else h[j].count;
        TakeKeepsGap(n, h, i, j, amount);
        ghost var n0, h0 := n, h;
        n, h := n[i := n[i].(count := n[i].count - amount)], h[j := h[j].(count := h[j].count - amount)];
        GapChain(need, have, n0, h0, n, h);
        if n[i].count == 0 { return; }
      }
    }
  }

  lemma MetKept(need: seq<Stack>, have: seq<Stack>, n: seq<Stack>, h: seq<Stack>, i: nat)
    requires i <= |need| && Met(need, have, i) && Reduced(have, h) && |n| == |need|
    requires forall k | 0 <= k < i :: n[k] == need[k]
    ensures Met(n, h, i)
  {
    forall k | 0 <= k < i && n[k].count != 0 ensures NoneLeft(h, n[k], |h|) {
      assert NoneLeft(have, need[k], |have|);
    }
  }

  lemma {:induction false} NoneLeftTotal(have: seq<Stack>, n: Stack)
    requires NoneLeft(have, n, |have|)
    ensures Total(have, TypeOf(n)) == 0
  {
    TotalZero(have, TypeOf(n));
    forall s | s in have ensures Count(s, TypeOf(n)) == 0 {
      var j :| 0 <= j < |have| && have[j] == s;
    }
  }

  /** Nothing wanted is unmet and nothing given is left over exactly when the totals agree. */
  lemma LeftoversDecide(need: seq<Stack>, have: seq<Stack>, n: seq<Stack>, h: seq<Stack>)
    requires SameGap(need, have, n, h) && Met(n, h, |n|)
    requires forall k | 0 <= k < |n| :: n[k].id > 0
    ensures (forall s | s in n :: Empty(s)) && (forall s | s in h :: Empty(s)) <==> Balances(need, have)
  {
    TotalsEmpty(n);
    TotalsEmpty(h);
    if Balances(need, have) {
      forall k | 0 <= k < |n| ensures Empty(n[k]) {
        var t := TypeOf(n[k]);
        assert n[k] in n;
        assert Total(n, t) == Total(h, t) by { assert Total(need, t) == Total(have, t); }
        TotalZero(n, t);
        if n[k].count > 0 { NoneLeftTotal(h, n[k]); }
      }
      assert forall s | s in n :: Empty(s);
      forall t ensures Total(h, t) == 0 {
        assert Total(need, t) == Total(have, t);
        assert Total(n, t) == 0;
      }
    }
    if (forall s | s in n :: Empty(s)) && (forall s | s in h :: Empty(s)) {
      forall t ensures Total(need, t) == Total(have, t) {
        assert Total(n, t) == 0 && Total(h, t) == 0;
      }
    }
  }

  /** The greedy matcher accepts exactly the groups whose totals agree for every type. */
  method MatchItems(need: seq<Stack>, have: seq<Stack>) returns (ok: bool)
    requires forall s | s in need :: !Empty(s)
    ensures ok <==> Balances(need, have)
  {
    var n, h := need, have;
    for i := 0 to |need|
      invariant Reduced(need, n) && Reduced(have, h) && SameGap(need, have, n, h) && Met(n, h, i)
      invariant forall k | i <= k < |need| :: n[k] == need[k]
    {
      assert need[i] in need;
      ghost var n0, h0 := n, h;
      n, h := MeetOne(n, h, i);
      GapChain(need, have, n0, h0, n, h);
      MetKept(n0, h0, n, h, i);
    }
    assert forall k | 0 <= k < |n| :: need[k] in need;
    LeftoversDecide(need, have, n, h);
    ok := (forall s | s in n :: Empty(s)) && (forall s | s in h :: Empty(s));
  }

  // ---------- conservation ----------

  ghost predicate DistinctSlots(txs: seq<SlotTx>) {
    forall i, j | 0 <= i < j < |txs| :: !(txs[i].window == txs[j].window && txs[i].slot == txs[j].slot)
  }

  /** A desk as the handler keeps it: pending entries name distinct slots that exist, and ask for
      clean stacks; armor is absent or complete. */
  ghost predicate Orderly(d: Desk) {
    && DistinctSlots(d.pending)
    && (forall tx | tx in d.pending :: Addresses(d, tx.window, tx.slot) && Clean(tx.target))
    && (d.armor == [] || |d.armor| >= 4)
  }

  lemma SetSlotHolds(d: Desk, window: int, slot: nat, item: Stack, t: Type)
    requires Addresses(d, window, slot) && Clean(item) && (d.armor == [] || |d.armor| >= 4)
    ensures var e := SetSlot(d, window, slot, item);
            && Held(e, t) + Count(GetSlot(d, window, slot), t) == Held(d, t) + Count(item, t)
            && (e.armor == [] || |e.armor| >= 4) && |e.inventory| == |d.inventory|
            && (forall w, s: nat | Addresses(d, w, s) && !(w == window && s == slot) :: GetSlot(e, w, s) == GetSlot(d, w, s))
  {
    SanitizeCleans(item);
    if window == WINDOW_INVENTORY {
      TotalUpdate(d.inventory, slot, item, t);
    } else {
      var armor := if |d.armor| < 4 then NO_ARMOR else d.armor;
      TotalZero(NO_ARMOR, t);
      TotalUpdate(armor, slot, item, t);
      assert d.armor == [] ==> Total(armor, t) == 0;
    }
  }

  lemma {:induction false} AppliedShape(d: Desk, txs: seq<SlotTx>, w: int, s: nat)
    requires DistinctSlots(txs) && (d.armor == [] || |d.armor| >= 4) && Addresses(d, w, s)
    requires forall tx | tx in txs :: Addresses(d, tx.window, tx.slot) && Clean(tx.target)
    ensures var e := Applied(d, txs);
            && (e.armor == [] || |e.armor| >= 4) && |e.inventory| == |d.inventory|
            && ((forall tx | tx in txs :: !(tx.window == w && tx.slot == s)) ==> GetSlot(e, w, s) == GetSlot(d, w, s))
  {
    if txs != [] {
      var front, tx := txs[..|txs| - 1], txs[|txs| - 1];
      assert forall x :: x in front ==> x in txs;
      assert tx in txs;
      AppliedShape(d, front, w, s);
      SetSlotHolds(Applied(d, front), tx.window, tx.slot, tx.target, Type(0, 0));
    }
  }

  lemma {:induction false} LastCounts(txs: seq<SlotTx>, t: Type)
    requires txs != []
    ensures var front, tx := txs[..|txs| - 1], txs[|txs| - 1];
            && Total(Sources(txs), t) == Total(Sources(front), t) + Count(tx.source, t)
            && Total(Targets(txs), t) == Total(Targets(front), t) + Count(tx.target, t)
  {
    var front, tx := txs[..|txs| - 1], txs[|txs| - 1];
    TotalSnoc(Sources(front), tx.source, t);
    TotalSnoc(Targets(front), tx.target, t);
    assert Sources(front) + [] == Sources(front) && Targets(front) + [] == Targets(front);
  }

  /** The slot of the last entry is untouched by the entries before it. */
  lemma {:induction false} LastUntouched(d: Desk, txs: seq<SlotTx>)
    requires txs != [] && DistinctSlots(txs) && (d.armor == [] || |d.armor| >= 4)
    requires forall tx | tx in txs :: Addresses(d, tx.window, tx.slot) && Clean(tx.target)
    ensures var tx, e := txs[|txs| - 1], Applied(d, txs[..|txs| - 1]);
            && GetSlot(e, tx.window, tx.slot) == GetSlot(d, tx.window, tx.slot)
            && Addresses(e, tx.window, tx.slot) && (e.armor == [] || |e.armor| >= 4)
  {
    var front, tx := txs[..|txs| - 1], txs[|txs| - 1];
    assert tx in txs;
    forall x | x in front ensures x in txs && !(x.window == tx.window && x.slot == tx.slot) {
      var i :| 0 <= i < |front| && front[i] == x;
      assert txs[i] == x;
    }
    AppliedShape(d, front, tx.window, tx.slot);
  }

  /** Applying a group whose sources match trades what it gives up for what it wants. */
  lemma {:induction false} AppliedTrades(d: Desk, txs: seq<SlotTx>, t: Type)
    requires DistinctSlots(txs) && SourcesMatch(d, txs) && (d.armor == [] || |d.armor| >= 4)
    requires forall tx | tx in txs :: Addresses(d, tx.window, tx.slot) && Clean(tx.target)
    ensures Held(Applied(d, txs), t) + Total(Sources(txs), t) == Held(d, t) + Total(Targets(txs), t)
  {
    if txs != [] {
      var front, tx := txs[..|txs| - 1], txs[|txs| - 1];
      assert tx in txs;
      LastUntouched(d, txs);
      assert forall x :: x in front ==> x in txs;
      AppliedTrades(d, front, t);
      LastCounts(txs, t);
      SetSlotHolds(Applied(d, front), tx.window, tx.slot, tx.target, t);
    }
  }

  lemma {:induction false} RecordKeeps(d: Desk, txs: seq<SlotTx>, tx: SlotTx)
    requires DistinctSlots(txs)
    ensures DistinctSlots(Record(txs, tx))
    ensures forall x | x in Record(txs, tx) :: x == tx || x in txs
    ensures forall x | x in Record(txs, tx) && x != tx :: !(x.window == tx.window && x.slot == tx.slot)
    ensures tx in Record(txs, tx)
    ensures |txs| <= |Record(txs, tx)| <= |txs| + 1
  {
    if txs != [] && !(txs[0].window == tx.window && txs[0].slot == tx.slot) {
      RecordKeeps(d, txs[1..], tx);
      var rest := Record(txs[1..], tx);
      forall i | 0 <= i < |rest| ensures !(txs[0].window == rest[i].window && txs[0].slot == rest[i].slot) {
        assert rest[i] in rest;
        if rest[i] != tx {
          var j :| 0 <= j < |txs[1..]| && txs[1..][j] == rest[i];
          assert txs[j + 1] == rest[i];
        }
      }
    } else if txs != [] {
      assert forall i | 0 < i < |txs| :: !(txs[i].window == tx.window && txs[i].slot == tx.slot);
    }
  }

  lemma GatheredOrderly(d: Desk, r: Request)
    requires Orderly(d) && !Ignored(d, r)
    ensures Orderly(Gathered(d, r)) && Gathered(d, r).inventory == d.inventory && Gathered(d, r).armor == d.armor
  {
    SanitizeCleans(r.item);
    var item := Sanitize(r.item);
    var tx := SlotTx(r.window, r.slot, GetSlot(d, r.window, r.slot), if Empty(item) then AIR else item);
    var txs := if d.pending != [] && d.since > 0.0 && r.now - d.since > EXPIRY then [] else d.pending;
    RecordKeeps(d, txs, tx);
    assert Gathered(d, r).pending == Record(txs, tx);
  }

  lemma ExecutedConserves(d: Desk)
    requires Orderly(d)
    ensures Orderly(Executed(d, false)) && forall t :: Held(Executed(d, false), t) == Held(d, t)
  {
    if Acceptable(d, false) {
      forall t ensures Held(Applied(d, d.pending), t) == Held(d, t) {
        AppliedTrades(d, d.pending, t);
        assert Total(Targets(d.pending), t) == Total(Sources(d.pending), t);
      }
      var tx := d.pending[0];
      assert tx in d.pending;
      AppliedShape(d, d.pending, tx.window, tx.slot);
    }
  }

  /** One request of a survival player keeps the desk orderly and every total. */
  lemma RequestConserves(d: Desk, r: Request)
    requires Orderly(d)
    ensures Orderly(Handled(d, false, r)) && forall t :: Held(Handled(d, false, r), t) == Held(d, t)
    ensures |d.pending| < MAX_PENDING ==> |Handled(d, false, r).pending| < MAX_PENDING
  {
    if !Ignored(d, r) {
      GatheredOrderly(d, r);
      ExecutedConserves(Gathered(d, r));
    }
  }

  /** Over any sequence of requests, whatever they ask for and whenever they come, a survival player
      neither gains nor loses an item of any type, and the pending entries, fewer than eight between
      requests, keep distinct slots. */
  lemma {:induction false} SurvivalConserves(d: Desk, rs: seq<Request>)
    requires Orderly(d) && |d.pending| < 8
    ensures Orderly(HandledAll(d, rs)) && |HandledAll(d, rs).pending| < 8
    ensures forall t :: Held(HandledAll(d, rs), t) == Held(d, t)
    decreases |rs|
  {
    if rs != [] {
      RequestConserves(d, rs[0]);
      SurvivalConserves(Handled(d, false, rs[0]), rs[1..]);
    }
  }

  // ---------- the player ----------

  class Player {
    var inventory: seq<Stack>
    var armor: seq<Stack>
    var pending: seq<SlotTx>
    var since: real
    var creative: bool

    constructor (inventory: seq<Stack>, armor: seq<Stack>, creative: bool)
      ensures Here() == Desk(inventory, armor, [], 0.0) && this.creative == creative
    {
      this.inventory, this.armor, this.pending, this.since, this.creative := inventory, armor, [], 0.0, creative;
    }

    ghost function Here(): Desk
      reads this
    {
      Desk(inventory, armor, pending, since)
    }

    method Write(window: int, slot: nat, item: Stack)
      modifies this`inventory, this`armor
      ensures Here() == SetSlot(old(Here()), window, slot, item)
    {
      var clean := if Empty(item) then AIR else Sanitize(item);
      if window == WINDOW_INVENTORY {
        if slot >= |inventory| { return; }
        inventory := inventory[slot := clean];
      } else if window == WINDOW_ARMOR {
        if |armor| < 4 { armor := NO_ARMOR; }
        if slot >= 4 { return; }
        armor := armor[slot := clean];
      }
    }

    method TryExecute() returns (done: bool)
      modifies this`inventory, this`armor, this`pending, this`since
      ensures done <==> Acceptable(old(Here()), creative)
      ensures Here() == Executed(old(Here()), creative)
    {
      if pending == [] { return false; }
      var need, have: seq<Stack> := [], [];
      for i := 0 to |pending|
        invariant Here() == old(Here())
        invariant need == Targets(pending[..i]) && have == Sources(pending[..i])
        invariant creative || SourcesMatch(Here(), pending[..i])
      {
        var tx := pending[i];
        NextTx(pending, i);
        var check := GetSlot(Desk(inventory, armor, pending, since), tx.window, tx.slot);
        if !EqualsStack(check, tx.source) && !creative {
          assert tx in pending;
          return false;
        }
        if !Empty(tx.target) { need := need + [tx.target]; }
        if !Empty(tx.source) { have := have + [tx.source]; }
      }
      assert pending[..|pending|] == pending;
      TargetsAreStacks(pending);
      var balanced := MatchItems(need, have);
      if !creative && !balanced { return false; }
      ghost var before := Here();
      for i := 0 to |pending|
        invariant pending == before.pending && since == before.since
        invariant Here() == Applied(before, pending[..i])
      {
        NextTx(pending, i);
        Write(pending[i].window, pending[i].slot, pending[i].target);
      }
      assert pending[..|pending|] == pending;
      pending, since := [], 0.0;
      done := true;
    }

    /** The part of the handler that serves the inventory and armor windows. Its last branch for a
        creative player, a single write without a group, is never reached: see CreativeApplies. */
    method HandleSetSlot(r: Request)
      modifies this`inventory, this`armor, this`pending, this`since
      ensures Here() == Handled(old(Here()), creative, r)
    {
      if r.slot < 0 { return; }
      var item := Sanitize(r.item);
      if r.window != WINDOW_INVENTORY && r.window != WINDOW_ARMOR { return; }
      if r.window == WINDOW_INVENTORY && r.slot >= |inventory| { return; }
      if r.window == WINDOW_ARMOR && r.slot >= 4 { return; }
      var source := GetSlot(Desk(inventory, armor, pending, since), r.window, r.slot);
      var target := if Empty(item) then AIR else item;
      if EqualsStack(source, target) { return; }
      if pending != [] && since > 0.0 && r.now - since > EXPIRY { pending := []; }
      if pending == [] { since := r.now; }
      pending := PutPending(pending, SlotTx(r.window, r.slot, source, target));
      assert Here() == Gathered(old(Here()), r);
      var done := TryExecute();
      if done { return; }
      if |pending| >= MAX_PENDING { pending, since := [], 0.0; }
    }
  }

  lemma NextTx(txs: seq<SlotTx>, i: nat)
    requires i < |txs|
    ensures txs[..i + 1][..i] == txs[..i] && txs[..i + 1] == txs[..i] + [txs[i]]
    ensures Targets(txs[..i + 1]) == Targets(txs[..i]) + (if Empty(txs[i].target) then [] else [txs[i].target])
    ensures Sources(txs[..i + 1]) == Sources(txs[..i]) + (if Empty(txs[i].source) then [] else [txs[i].source])
  {
    assert txs[..i + 1][..i] == txs[..i];
  }

  /** A creative player's request is applied with whatever waits, balanced or not. */
  lemma CreativeApplies(d: Desk, r: Request)
    requires !Ignored(d, r)
    ensures Handled(d, true, r) == Applied(Gathered(d, r), Gathered(d, r).pending).(pending := [], since := 0.0)
    ensures Handled(d, true, r).pending == []
  {
  }

  lemma {:induction false} TargetsAreStacks(txs: seq<SlotTx>)
    ensures forall s | s in Targets(txs) :: !Empty(s)
  {
    if txs != [] { TargetsAreStacks(txs[..|txs| - 1]); }
  }

  /** The entry of the slot is replaced, or a new one is added at the end. */
  method PutPending(pending: seq<SlotTx>, tx: SlotTx) returns (txs: seq<SlotTx>)
    ensures txs == Record(pending, tx)
  {
    for i := 0 to |pending|
      invariant pending[..i] + Record(pending[i..], tx) == Record(pending, tx)
    {
      var rest := pending[i + 1..];
      assert pending[i..][1..] == rest;
      if pending[i].window == tx.window && pending[i].slot == tx.slot {
        assert pending[..i] + ([tx] + rest) == pending[i := tx];
        return pending[i := tx];
      }
      assert pending[..i] + ([pending[i]] + Record(rest, tx)) == pending[..i + 1] + Record(rest, tx);
    }
    assert pending[|pending|..] == [];
    txs := pending + [tx];
  }
}
