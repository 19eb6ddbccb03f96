/** Item stacks and how many items of a type a row of slots holds. */
module Items {

  /** A stack without its tag data. */
  datatype Stack = Stack(id: int, count: nat, damage: int)

  const AIR := Stack(0, 0, 0)

  /** Items are of one type when identifier and damage agree. */
  datatype Type = Type(id: int, damage: int)

  predicate Empty(s: Stack) { s.id <= 0 || s.count == 0 }

  predicate SameType(s: Stack, o: Stack) { s.id == o.id && s.damage == o.damage }

  predicate EqualsStack(s: Stack, o: Stack) { SameType(s, o) && s.count == o.count }

  function TypeOf(s: Stack): Type { Type(s.id, s.damage) }

  /** Clamps a stack to what clients can show. */
  function Sanitize(s: Stack): Stack {
    if s.id <= 0 || s.count == 0 then AIR
    else if s.id > 511 then AIR
    else
      Stack(if s.id == 154 then 410 else if s.id == 149 then 404 else s.id,
            if s.count > 64 then 64 else s.count,
            if s.damage < 0 then 0 else s.damage)
  }

  /** A stack that clamping leaves alone. */
  predicate Clean(s: Stack) {
    s == AIR || (0 < s.id <= 511 && s.id != 154 && s.id != 149 && 0 < s.count <= 64 && s.damage >= 0)
  }

  /** The clean stacks are exactly those that clamping leaves alone, and clamping always yields one. */
  lemma SanitizeCleans(s: Stack)
    ensures Clean(Sanitize(s))
    ensures Sanitize(s) == s <==> Clean(s)
    ensures 0 < s.id <= 511 && s.count > 0 ==>
              && Sanitize(s).count == (if s.count < 64 then s.count else 64)
              && Sanitize(s).damage == (if s.damage > 0 then s.damage else 0)
              && (s.id != 154 && s.id != 149 ==> Sanitize(s).id == s.id)
  {
  }

  // ---------- totals ----------

  function Count(s: Stack, t: Type): nat { if !Empty(s) && TypeOf(s) == t then s.count else 0 }

  function Total(slots: seq<Stack>, t: Type): nat {
    if slots == [] then 0 else Total(slots[..|slots| - 1], t) + Count(slots[|slots| - 1], t)
  }

  lemma {:induction false} TotalSnoc(slots: seq<Stack>, s: Stack, t: Type)
    ensures Total(slots + [s], t) == Total(slots, t) + Count(s, t)
  {
    assert (slots + [s])[..|slots|] == slots;
  }

  lemma {:induction false} TotalUpdate(slots: seq<Stack>, i: nat, s: Stack, t: Type)
    requires i < |slots|
    ensures Total(slots[i := s], t) + Count(slots[i], t) == Total(slots, t) + Count(s, t)
  {
    var n := |slots| - 1;
    if i == n {
      assert slots[i := s][..n] == slots[..n];
    } else {
      TotalUpdate(slots[..n], i, s, t);
      assert slots[i := s][..n] == slots[..n][i := s];
    }
  }

  lemma {:induction false} TotalZero(slots: seq<Stack>, t: Type)
    ensures Total(slots, t) == 0 <==> forall s | s in slots :: Count(s, t) == 0
  {
    if slots != [] {
      var front, last := slots[..|slots| - 1], slots[|slots| - 1];
      TotalZero(front, t);
      assert forall s :: s in slots <==> s in front || s == last;
    }
  }

  lemma {:induction false} TotalsEmpty(slots: seq<Stack>)
    ensures (forall t :: Total(slots, t) == 0) <==> forall s | s in slots :: Empty(s)
  {
    if forall t :: Total(slots, t) == 0 {
      forall s | s in slots ensures Empty(s) {
        assert Total(slots, TypeOf(s)) == 0;
        TotalZero(slots, TypeOf(s));
        assert Count(s, TypeOf(s)) == 0;
      }
    } else {
      var t :| Total(slots, t) != 0;
      TotalZero(slots, t);
      var s :| s in slots && Count(s, t) != 0;
      assert !Empty(s);
    }
    if forall s | s in slots :: Empty(s) {
      forall t ensures Total(slots, t) == 0 {
        TotalZero(slots, t);
      }
    }
  }
}
