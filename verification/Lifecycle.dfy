/** The life of a connection over arbitrary inputs: phases, callbacks, reassemblies. */
module Lifecycle {
  import opened Collections
  import opened Binary
  import opened Packets
  import opened SessionModel
  import opened Runs
  import Mtu

  // ---------- callbacks ----------

  /** on_open_ and on_close_ are called at most once, and no payload is delivered before on_open_. */
  ghost predicate Orderly(events: seq<Event>) {
    && (forall i, j | 0 <= i < j < |events| :: !(events[i].Opened? && events[j].Opened?))
    && (forall i, j | 0 <= i < j < |events| :: !(events[i].Closed? && events[j].Closed?))
    && (forall i | 0 <= i < |events| && events[i].Delivered? :: exists j :: 0 <= j < i && events[j].Opened?)
  }

  ghost predicate WasOpened(events: seq<Event>) {
    exists i :: 0 <= i < |events| && events[i].Opened?
  }

  ghost predicate WasClosed(events: seq<Event>) {
    exists i :: 0 <= i < |events| && events[i].Closed?
  }

  ghost predicate CallbacksMatch(a: App) {
    && Orderly(a.events)
    && (WasOpened(a.events) <==> a.phase == Connected)
    && (WasClosed(a.events) <==> a.closed)
  }

  lemma OpenedOnce(events: seq<Event>, e: Event)
    requires Orderly(events)
    requires e.Opened? ==> !WasOpened(events)
    requires e.Closed? ==> !WasClosed(events)
    requires e.Delivered? ==> WasOpened(events)
    ensures Orderly(events + [e])
    ensures WasOpened(events + [e]) <==> WasOpened(events) || e.Opened?
    ensures WasClosed(events + [e]) <==> WasClosed(events) || e.Closed?
  {
    var all := events + [e];
    assert all[|events|] == e;
    assert forall i | 0 <= i < |events| :: all[i] == events[i];
    forall i | 0 <= i < |all| && all[i].Delivered? ensures exists j :: 0 <= j < i && all[j].Opened? {
      if i < |events| {
        var j :| 0 <= j < i && events[j].Opened?;
        assert all[j].Opened?;
      } else {
        var j :| 0 <= j < |events| && events[j].Opened?;
        assert all[j].Opened?;
      }
    }
    if WasOpened(events) {
      var j :| 0 <= j < |events| && events[j].Opened?;
      assert all[j].Opened?;
    }
    if WasClosed(events) {
      var j :| 0 <= j < |events| && events[j].Closed?;
      assert all[j].Closed?;
    }
  }

  lemma DisconnectMatches(a: App)
    requires CallbacksMatch(a)
    ensures CallbacksMatch(Disconnect(a))
  {
    if !a.closed { OpenedOnce(a.events, Closed); }
  }

  // ---------- reassemblies ----------

  /** The split identifiers with at least one part stored. */
  function Open(splits: Splits): set<nat> {
    set sid | sid in splits && splits[sid] != map[]
  }

  ghost predicate FewReassemblies(splits: Splits) {
    && |Open(splits)| <= 4
    && forall sid | sid in splits :: forall i | i in splits[sid] :: i < 128
  }

  lemma {:induction false} SubsetSize(a: set<nat>, b: set<nat>)
    requires a <= b
    ensures |a| <= |b|
    decreases a
  {
    if a != {} {
      var x := MinKey(a);
      SubsetSize(a - {x}, b - {x});
    }
  }

  lemma EmptyEntryKeeps(splits: Splits, sid: nat)
    requires FewReassemblies(splits) && sid !in Open(splits)
    ensures FewReassemblies(splits[sid := map[]])
  {
    assert Open(splits[sid := map[]]) == Open(splits);
  }

  lemma NewEntryKeeps(splits: Splits, sid: nat, parts: map<nat, Packet>)
    requires FewReassemblies(splits) && |splits[sid := map[]]| <= MAX_SPLIT_COUNT
    requires forall i | i in parts :: i < MAX_SPLIT_SIZE
    ensures FewReassemblies(splits[sid := parts])
  {
    assert splits[sid := parts].Keys == splits[sid := map[]].Keys;
    SubsetSize(Open(splits[sid := parts]), splits[sid := parts].Keys);
  }

  lemma OldEntryKeeps(splits: Splits, sid: nat, parts: map<nat, Packet>)
    requires FewReassemblies(splits) && sid in Open(splits)
    requires forall i | i in parts :: i < MAX_SPLIT_SIZE
    ensures FewReassemblies(splits[sid := parts])
  {
    SubsetSize(Open(splits[sid := parts]), Open(splits));
  }

  lemma ErasedEntryKeeps(splits: Splits, sid: nat)
    requires FewReassemblies(splits)
    ensures FewReassemblies(splits - {sid})
  {
    SubsetSize(Open(splits - {sid}), Open(splits));
  }

  lemma StorePartKeeps(splits: Splits, sid: nat, index: nat, p: Packet)
    requires FewReassemblies(splits) && index < MAX_SPLIT_SIZE
    ensures FewReassemblies(StorePart(splits, sid, index, p).splits)
  {
    var parts := if sid in splits then splits[sid] else map[];
    if parts != map[] {
      assert sid in Open(splits);
      OldEntryKeeps(splits, sid, parts[index := p]);
      assert splits[sid := parts] == splits;
    } else {
      EmptyEntryKeeps(splits, sid);
      var touched: Splits := splits[sid := map[]];
      if |touched| <= MAX_SPLIT_COUNT { NewEntryKeeps(touched, sid, parts[index := p]); }
    }
  }

  lemma CompleteKeeps(splits: Splits, sid: nat, parts: map<nat, Packet>, count: int)
    requires FewReassemblies(splits)
    ensures FewReassemblies(Complete(splits, sid, parts, count).0)
  {
    ErasedEntryKeeps(splits, sid);
  }

  lemma SplitKeeps(splits: Splits, p: Packet)
    requires FewReassemblies(splits)
    ensures FewReassemblies(TakePart(splits, p).0)
  {
    if p.splitCount.Some? && p.splitIndex.Some? && p.splitId.Some? {
      var index, sid := p.splitIndex.value, p.splitId.value;
      if 0 <= index < MAX_SPLIT_SIZE {
        StorePartKeeps(splits, sid, index, p);
        var stored := StorePart(splits, sid, index, p);
        if stored.Filled? { CompleteKeeps(stored.splits, sid, stored.parts, p.splitCount.value); }
      }
    }
  }

  // ---------- steps ----------

  ghost predicate Healthy(a: App) {
    CallbacksMatch(a) && FewReassemblies(a.splits)
  }

  lemma InternalHealthy(h: Host, config: Config, payload: seq<byte>, now: real)
    requires payload != [] && Healthy(h.app)
    ensures Healthy(HandleInternal(h, config, payload, now).app)
  {
    var id := payload[0];
    if h.app.phase == Connecting2 && id == 0x13 {
      OpenedOnce(h.app.events, Opened(h.app.clientId));
    } else if !(h.app.phase == Connecting2 && id == 0x09) && id == 0x15 {
      DisconnectMatches(h.app);
    }
  }

  lemma RouteWholeHealthy(h: Host, config: Config, p: Packet, now: real)
    requires Healthy(h.app)
    ensures Healthy(RouteWhole(h, config, p, now).app)
  {
    if p.buffer != [] {
      if p.buffer[0] < 0x80 {
        InternalHealthy(h, config, p.buffer, now);
      } else if h.app.phase == Connected {
        OpenedOnce(h.app.events, Delivered(p));
      }
    }
  }

  lemma RouteHealthy(h: Host, config: Config, p: Packet, now: real)
    requires Healthy(h.app)
    ensures Healthy(Route(h, config, p, now).app)
  {
    if !p.hasSplit {
      RouteWholeHealthy(h, config, p, now);
    } else if h.app.phase == Connected {
      var (app, whole) := HandleSplit(h.app, p);
      SplitPhase(h.app, p);
      SplitKeeps(h.app.splits, p);
      if whole.Some? { RouteWholeHealthy(h.(app := app), config, whole.value, now); }
    }
  }

  lemma {:induction false} RouteAllHealthy(h: Host, config: Config, ps: seq<Packet>, now: real)
    requires Healthy(h.app)
    ensures Healthy(RouteAll(h, config, ps, now).app)
    decreases |ps|
  {
    if ps != [] {
      RouteHealthy(h, config, ps[0], now);
      RouteAllHealthy(Route(h, config, ps[0], now), config, ps[1..], now);
    }
  }

  lemma ArriveHealthy(s: Session, raw: seq<byte>, now: real)
    requires raw != [] && Healthy(s.host.app)
    ensures Healthy(HandleRaw(s, raw, now).host.app)
  {
    var h := s.host.(app := s.host.app.(active := true, lastUpdate := now));
    if Online(h.app.phase) && 0x80 <= raw[0] <= 0x8f {
      var d := DecodeDatagram(raw);
      if d.Some? && Admits(s.window, d.value.seqNumber) {
        var passed := AcceptPackets(AcceptNumber(s.window, d.value.seqNumber), d.value.packets);
        RouteAllHealthy(h, s.config, passed.packets, now);
      }
    }
  }

  lemma StepHealthy(s: Session, i: Input)
    requires Healthy(s.host.app)
    ensures Healthy(Step(s, i).host.app)
  {
    DisconnectMatches(s.host.app);
    if i.Arrive? && i.raw != [] { ArriveHealthy(s, i.raw, i.now); }
  }

  lemma {:induction false} RunHealthy(s: Session, inputs: seq<Input>)
    requires Healthy(s.host.app)
    ensures Healthy(Run(s, inputs).host.app)
    decreases |inputs|
  {
    if inputs != [] {
      StepHealthy(s, inputs[0]);
      RunHealthy(Step(s, inputs[0]), inputs[1..]);
    }
  }

  // ---------- phases and the packet size ----------

  lemma StepOnward(s: Session, i: Input)
    ensures Rank(Step(s, i).host.app.phase) >= Rank(s.host.app.phase)
    ensures Online(s.host.app.phase) ==>
              && Step(s, i).host.out.mtu == s.host.out.mtu
              && Step(s, i).host.app.clientId == s.host.app.clientId
  {
    if Online(s.host.app.phase) {
      StaysOnline(s, i);
      var ms := StepMoves(s, i);
      Mtu.MovesKeepMtu(s.host.out, ms);
    }
  }

  lemma {:induction false} RunOnward(s: Session, inputs: seq<Input>)
    ensures var r := Run(s, inputs);
            && Rank(r.host.app.phase) >= Rank(s.host.app.phase)
            && (Online(s.host.app.phase) ==> r.host.out.mtu == s.host.out.mtu && r.host.app.clientId == s.host.app.clientId)
    decreases |inputs|
  {
    if inputs != [] {
      StepOnward(s, inputs[0]);
      RunOnward(Step(s, inputs[0]), inputs[1..]);
    }
  }

  /** Over every run of a session: the phase never goes back between any two moments, the packet
      size and the client identifier are fixed once the offline handshake is done, on_open_ and
      on_close_ are called at most once with no delivery before on_open_, and at most four
      reassemblies hold parts, each with indexes below 128. */
  lemma {:induction false} LifeOfASession(config: Config, before: seq<Input>, after: seq<Input>)
    ensures var s := Run(FreshSession(config), before);
            var t := Run(s, after);
            && Rank(t.host.app.phase) >= Rank(s.host.app.phase)
            && (Online(s.host.app.phase) ==> t.host.out.mtu == s.host.out.mtu && t.host.app.clientId == s.host.app.clientId)
            && Orderly(t.host.app.events)
            && (WasOpened(t.host.app.events) <==> t.host.app.phase == Connected)
            && (WasClosed(t.host.app.events) <==> t.host.app.closed)
            && FewReassemblies(t.host.app.splits)
  {
    var s := Run(FreshSession(config), before);
    RunOnward(s, after);
    RunHealthy(FreshSession(config), before);
    RunHealthy(s, after);
  }
}
