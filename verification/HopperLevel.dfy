/** The tick loop over hoppers as it changes the level, proved against the functions of Hoppers. */
module HopperLevels {
  import opened RedstoneWorld
  import opened Items
  import opened Hoppers

  class HopperLevel {
    var hoppers: map<Pos, Hopper>
    var chests: map<Pos, seq<Stack>>
    var drops: seq<Drop>
    // history: the current tick and the container transfers so far
    var now: nat
    var transfers: seq<Transfer>

    constructor (hoppers: map<Pos, Hopper>, chests: map<Pos, seq<Stack>>, drops: seq<Drop>)
      ensures Here() == Yard(hoppers, chests, drops, 0, [])
    {
      this.hoppers, this.chests, this.drops, this.now, this.transfers := hoppers, chests, drops, 0, [];
    }

    ghost function Here(): Yard
      reads this
    {
      Yard(hoppers, chests, drops, now, transfers)
    }

    method GetOrCreateHopper(p: Pos) returns (h: Hopper)
      modifies this`hoppers
      ensures Here() == WithHopper(old(Here()), p) && p in hoppers && h == hoppers[p]
    {
      if p !in hoppers { hoppers := hoppers[p := NEW_HOPPER]; }
      h := hoppers[p];
    }

    method GetOrCreateChest(p: Pos) returns (slots: seq<Stack>)
      modifies this`chests
      ensures Here() == WithChest(old(Here()), p) && p in chests && slots == chests[p]
    {
      if p !in chests { chests := chests[p := NewChest()]; }
      slots := chests[p];
    }

    /** One drop is taken in per tick, as far as it fits. */
    method SuckDrops(p: Pos) returns (moved: bool)
      requires p in hoppers
      modifies this`hoppers, this`drops
      ensures Attempt(Here(), moved) == Suck(old(Here()), p, 0)
    {
      for i := 0 to |drops|
        invariant Here() == old(Here()) && p in hoppers
        invariant Suck(Here(), p, 0) == Suck(Here(), p, i)
      {
        var d := drops[i];
        if Takeable(p, d) {
          var rest, slots := AbsorbItems(d.stack, hoppers[p].slots);
          if rest != d.stack {
            hoppers := hoppers[p := hoppers[p].(slots := slots)];
            drops := drops[i := if Empty(rest) then d.(closed := true) else d.(stack := rest)];
            return true;
          }
        }
      }
      moved := false;
    }

    method PullFromAbove(w: World, p: Pos) returns (moved: bool)
      requires p in hoppers
      modifies this`hoppers, this`chests
      ensures Attempt(Here(), moved) == Pull(old(Here()), w, p)
    {
      moved := false;
      var q := p.(y := p.y + 1);
      if p.y + 1 < HEIGHT {
        var above := At(w, q).id;
        if above == CHEST {
          var chest := GetOrCreateChest(q);
          var m := TryMoveOneItem(chest, hoppers[p].slots);
          hoppers := hoppers[p := hoppers[p].(slots := m.dst)];
          chests := chests[q := m.src];
          moved := m.ok;
        } else if above == HOPPER {
          var src := GetOrCreateHopper(q);
          var m := TryMoveOneItem(src.slots, hoppers[p].slots);
          hoppers := hoppers[q := hoppers[q].(slots := m.src)];
          hoppers := hoppers[p := hoppers[p].(slots := m.dst)];
          moved := m.ok;
        }
      }
    }

    method PushIntoFaced(w: World, p: Pos) returns (moved: bool)
      requires p in hoppers
      modifies this`hoppers, this`chests
      ensures Attempt(Here(), moved) == Push(old(Here()), w, p)
    {
      moved := false;
      var q := Faced(p, At(w, p).meta);
      if 0 <= q.y < HEIGHT {
        var target := At(w, q).id;
        if target == CHEST {
          var chest := GetOrCreateChest(q);
          var m := TryMoveOneItem(hoppers[p].slots, chest);
          hoppers := hoppers[p := hoppers[p].(slots := m.src)];
          chests := chests[q := m.dst];
          moved := m.ok;
        } else if target == HOPPER {
          var dst := GetOrCreateHopper(q);
          var m := TryMoveOneItem(hoppers[p].slots, dst.slots);
          hoppers := hoppers[p := hoppers[p].(slots := m.src)];
          hoppers := hoppers[q := hoppers[q].(slots := m.dst)];
          moved := m.ok;
        }
      }
    }

    method TickOne(w: World, p: Pos)
      modifies this`hoppers, this`chests, this`drops, this`transfers
      ensures Here() == HopperTick(old(Here()), w, p)
    {
      if At(w, p).id != HOPPER { return; }
      var hop := GetOrCreateHopper(p);
      if At(w, p).meta >= 8 { return; }
      if hop.cooldown > 0 { hop := hop.(cooldown := hop.cooldown - 1); }
      hoppers := hoppers[p := hop];
      assert Here() == PutCooldown(WithHopper(old(Here()), p), p, hop.cooldown);
      var moved := SuckDrops(p);
      if hop.cooldown == 0 && !moved {
        var carried := PullFromAbove(w, p);
        if !carried { carried := PushIntoFaced(w, p); }
        if carried {
          transfers := transfers + [Transfer(p, now)];
          moved := true;
        }
      }
      if moved { hoppers := hoppers[p := hoppers[p].(cooldown := COOLDOWN)]; }
    }

    method TickHoppers(w: World, order: seq<Pos>)
      modifies this
      ensures Here() == Tick(old(Here()), Round(w, order))
    {
      for i := 0 to |order|
        invariant HopperTicks(Here(), w, order[i..]) == HopperTicks(old(Here()), w, order)
      {
        assert order[i..][1..] == order[i + 1..] && order[i..][0] == order[i];
        TickOne(w, order[i]);
      }
      now := now + 1;
    }
  }

  method AbsorbItems(s: Stack, slots: seq<Stack>) returns (rest: Stack, taken: seq<Stack>)
    ensures (rest, taken) == Absorb(s, slots)
  {
    rest, taken := s, slots;
    while !Empty(rest)
      invariant Absorb(rest, taken) == Absorb(s, slots)
      decreases rest.count
    {
      var m := TryMoveOneItem([rest], taken);
      if !m.ok { return; }
      rest, taken := m.src[0], m.dst;
    }
  }
}
