/**
 What the routing API holds over whole runs of the handler, when emissions may fail at any step: raw
 mappings, without the routing keys that the keyed sets carry.
 */
module RemoteRuns {
  import opened Events
  import opened TableSpec
  import opened Downstream
  import opened Agreement
  import opened SwapDelta
  import opened SyncProtocol
  import opened Runs
  import opened Emitter
  import opened RawMappings
  import opened Handlers

  // ---------------------------------------------------------------- the whole remote set

  /** What the contracts of the handler say about the routing API, whatever fails: it holds exactly the raw form of
      what the handler's batches made of the keyed set at the start, each as far as it got. */
  lemma RemoteFollowsHandler(handler: RoutingTableHandler, d: set<Mapping>)
    requires handler.Valid() && handler.emitter.baseline == RawSet(d, handler.emitter.ttl)
    requires UniqueThroughout(d, handler.emitter.batches, handler.emitter.reaches)
    ensures var emitter := handler.emitter;
            emitter.remote.mappings == RawSet(KeyedReach(d, emitter.batches, emitter.reaches), emitter.ttl)
  {
    hide RawSet, ReachAll, UniqueThroughout, KeyedReach;
    var emitter := handler.emitter;
    UniqueRunLifts(d, emitter.batches, emitter.reaches, emitter.ttl);
  }

  /** When in addition every emission ends well, that is what the run of the protocol makes of an empty API. */
  lemma RemoteFollowsRun(handler: RoutingTableHandler, phase: Phase, labels: seq<Label>)
    requires handler.Valid() && handler.StateWith(phase) == Run(FIRST, labels) && handler.emitter.baseline == {}
    requires AllComplete(handler.emitter.reaches)
    requires UniqueThroughout({}, handler.emitter.batches, handler.emitter.reaches)
    ensures handler.routingTable.value == WorldOf(labels).table
    ensures handler.emitter.remote.mappings == RawSet(WorldOf(labels).downstream, handler.emitter.ttl)
  {
    hide Run, RawSet, ReachAll, AllComplete, UniqueThroughout, WorldOf, CoveredWhereNonZero, DeliverAll, KeyedReach;
    var emitter := handler.emitter;
    NothingGoesMissing(labels);
    EmptyRawSet(emitter.ttl);
    RemoteFollowsHandler(handler, {});
    CompleteRun({}, emitter.batches, emitter.reaches);
  }

  /** For every run and whatever fails: the API holds exactly the raw form of what the table asks for, if and only
      if the keyed set of the emissions that went through is what the table asks for. */
  lemma RawAgreesIff(labels: seq<Label>, reaches: seq<Reach>, ttl: int)
    requires var batches := Run(FIRST, labels).batches;
             |reaches| == |batches| && UniqueThroughout({}, batches, reaches)
    requires var w := WorldOf(labels);
             var all := KeyedReach({}, Run(FIRST, labels).batches, reaches) + Projection(w.table, w.withheld);
             UniqueBackends(all) && PortsFit(all)
    ensures var w := WorldOf(labels);
            var batches := Run(FIRST, labels).batches;
            && (ReachAll({}, batches, reaches, ttl) == RawSet(Projection(w.table, w.withheld), ttl)
                <==> KeyedReach({}, batches, reaches) == Projection(w.table, w.withheld))
            && (AllComplete(reaches) ==> KeyedReach({}, batches, reaches) == w.downstream)
  {
    hide Run, RawSet, ReachAll, AllComplete, UniqueThroughout, WorldOf, UniqueBackends, PortsFit, Projection;
    hide KeyedReach, DeliverAll, CoveredWhereNonZero;
    var w, batches := WorldOf(labels), Run(FIRST, labels).batches;
    NothingGoesMissing(labels);
    EmptyRawSet(ttl);
    UniqueRunLifts({}, batches, reaches, ttl);
    SameRawSetIff(KeyedReach({}, batches, reaches), Projection(w.table, w.withheld), ttl);
    if AllComplete(reaches) {
      CompleteRun({}, batches, reaches);
    }
  }

  // ---------------------------------------------------------------- coverage, with failures

  /** Every port that is asked for in an entry without a zero port is there for every backend of the entry. */
  ghost predicate RawCovers(raw: set<TcpRouteMapping>, w: World, ttl: int) {
    forall m :: Live(w.table, w.withheld, m) && NonZero(Lookup(w.table, m.key).externalEndpoints) ==> Raw(m, ttl) in raw
  }

  lemma CoveredRaw(w: World, raw: set<TcpRouteMapping>, ttl: int)
    requires CoveredWhereNonZero(w) && RawSet(w.downstream, ttl) <= raw
    ensures RawCovers(raw, w, ttl)
  {
    hide Raw, NonZero, Live;
    forall m | Live(w.table, w.withheld, m) && NonZero(Lookup(w.table, m.key).externalEndpoints)
      ensures Raw(m, ttl) in raw
    {
      assert CoversAt(w, m.key);
      assert Raw(m, ttl) in RawSet(w.downstream, ttl);
    }
  }

  /** A world made of batches is covered in the API, from any raw set, when every upsert went through. */
  lemma BatchesCover(w: World, batches: seq<seq<Event>>, raw: set<TcpRouteMapping>, reaches: seq<Reach>, ttl: int)
    requires CoveredWhereNonZero(w) && w.downstream == DeliverAll({}, batches)
    requires UniqueThroughout({}, batches, Completes(|batches|))
    requires |reaches| == |batches| && forall i :: 0 <= i < |reaches| ==> reaches[i] != Untouched
    ensures RawCovers(ReachAll(raw, batches, reaches, ttl), w, ttl)
  {
    hide CoveredWhereNonZero, RawSet, ReachAll, UniqueThroughout, DeliverAll, KeyedReach, RawCovers;
    EmptyRawSet(ttl);
    RegisteredRun({}, raw, batches, reaches, ttl);
    UniqueRunLifts({}, batches, Completes(|batches|), ttl);
    CompleteRun({}, batches, Completes(|batches|));
    CoveredRaw(w, ReachAll(raw, batches, reaches, ttl), ttl);
  }

  /** For every run, from any contents of the API and even with failed deletes: as long as every upsert went
      through, everything asked for beside no zero port is there. */
  lemma RawNothingGoesMissing(labels: seq<Label>, raw: set<TcpRouteMapping>, reaches: seq<Reach>, ttl: int)
    requires var batches := Run(FIRST, labels).batches;
             && UniqueThroughout({}, batches, Completes(|batches|))
             && |reaches| == |batches| && forall i :: 0 <= i < |reaches| ==> reaches[i] != Untouched
    ensures RawCovers(ReachAll(raw, Run(FIRST, labels).batches, reaches, ttl), WorldOf(labels), ttl)
  {
    hide Run, ReachAll, UniqueThroughout, WorldOf, RawCovers, CoveredWhereNonZero, DeliverAll;
    NothingGoesMissing(labels);
    BatchesCover(WorldOf(labels), Run(FIRST, labels).batches, raw, reaches, ttl);
  }

  // ---------------------------------------------------------------- a swap makes up for failures

  /** Two worlds that differ in the remote set at most. */
  predicate SameTables(a: World, b: World) {
    a.table == b.table && a.withheld == b.withheld
  }

  lemma {:induction false} EditsIgnoreRemote(a: World, b: World, edits: seq<Edit>)
    requires SameTables(a, b)
    ensures SameTables(RunEdits(a, edits), RunEdits(b, edits))
  {
    if edits != [] {
      hide ApplyEdit, Withhold, Replay;
      EditsIgnoreRemote(a, b, edits[..|edits| - 1]);
    }
  }

  lemma {:induction false} ActionsIgnoreRemote(a: World, b: World, actions: seq<Action>)
    requires SameTables(a, b)
    ensures SameTables(ActAll(a, actions), ActAll(b, actions))
  {
    if actions != [] {
      var n := |actions| - 1;
      ActionsIgnoreRemote(a, b, actions[..n]);
      hide ActAll, RunEdits, Handle, EditsOf, SwapEvents, Deliver, Enumerates;
      if actions[n].Handling? {
        EditsIgnoreRemote(ActAll(a, actions[..n]), ActAll(b, actions[..n]), EditsOf(actions[n].event));
      }
      ActPrefix(a, actions, n);
      ActPrefix(b, actions, n);
      assert actions[..n + 1] == actions;
    }
  }

  /** The state with other batches emitted before. */
  function After(pre: seq<seq<Event>>, s: State): State {
    s.(batches := pre + s.batches)
  }

  lemma NextKeepsEarlier(pre: seq<seq<Event>>, s: State, l: Label)
    ensures Next(After(pre, s), l) == After(pre, Next(s, l)) && ActionsAt(After(pre, s), l) == ActionsAt(s, l)
  {
    hide HandleAll, Emissions, Temporary, SwapEvents, Enumerates, Handle;
    forall added: seq<seq<Event>> ensures pre + (s.batches + added) == (pre + s.batches) + added {
    }
  }

  lemma {:induction false} RunKeepsEarlier(pre: seq<seq<Event>>, s: State, labels: seq<Label>)
    ensures Run(After(pre, s), labels) == After(pre, Run(s, labels))
    ensures ActionsOf(After(pre, s), labels) == ActionsOf(s, labels)
  {
    if labels != [] {
      var n := |labels| - 1;
      RunKeepsEarlier(pre, s, labels[..n]);
      hide Next, ActionsAt, After;
      NextKeepsEarlier(pre, Run(s, labels[..n]), labels[n]);
    }
  }

  lemma SwapCovers(before: Table, after: Table, events: seq<Event>)
    requires IsSwap(before, after, events)
    ensures CoveredWhereNonZero(Swapped(after, {}, events))
  {
    hide IsSwap, CoversAt, NonZero;
    NoZeroMappedSwap(before, after, events, {});
    forall k | NonZero(Lookup(after, k).externalEndpoints) ensures CoversAt(Swapped(after, {}, events), k) {
      SwapHeals(before, after, events, {}, k);
    }
  }

  /** The state that a sync leaves when it takes over, without the batches before it. */
  ghost function TakenOver(s: State, end: Label): State
    requires TakesOver(s, end)
  {
    var next := HandleAll(Temporary(s.phase), s.cache);
    State(next, Idle, [], AsBatch(SwapEvents(s.table, next, end.newOrder, end.oldOrder)))
  }

  lemma TakenOverIsNext(s: State, end: Label)
    requires TakesOver(s, end)
    ensures Next(s, end) == After(s.batches, TakenOver(s, end))
  {
    hide HandleAll, Temporary, SwapEvents;
  }

  /** The keyed world that the swap alone makes, from nothing. */
  lemma SwapWorld(s: State, end: Label) returns (w: World)
    requires TakesOver(s, end)
    ensures CoveredWhereNonZero(w) && Describes(w, TakenOver(s, end)) && w.withheld == {}
  {
    hide HandleAll, Temporary, RegisterAll, UnregisterMissing, IsSwap, Deliver, CoveredWhereNonZero;
    var next := HandleAll(Temporary(s.phase), s.cache);
    var events := SwapEvents(s.table, next, end.newOrder, end.oldOrder);
    IsSwapTo(s.table, next, end.newOrder, end.oldOrder);
    SwapCovers(s.table, next, events);
    w := Swapped(next, {}, events);
    DeliverAllBatch({}, [], events);
    assert [] + AsBatch(events) == AsBatch(events);
  }

  /** In the full world too, the take-over leaves the new table with nothing withheld. */
  lemma TakeOverWorld(labels: seq<Label>, end: Label, w: World)
    requires TakesOver(Run(FIRST, labels), end)
    requires Describes(w, TakenOver(Run(FIRST, labels), end)) && w.withheld == {}
    ensures SameTables(WorldOf(labels + [end]), w)
  {
    hide Run, HandleAll, Temporary, SwapEvents, DeliverAll, ActAll, ActionsOf, CoveredWhereNonZero, Deliver;
    var s := Run(FIRST, labels);
    var swap := SwapTo(HandleAll(Temporary(s.phase), s.cache), end.newOrder, end.oldOrder);
    NothingGoesMissing(labels);
    ActionsSnoc(FIRST, labels, end);
    ActSnoc(NOTHING, ActionsOf(FIRST, labels), swap);
    assert ActionsAt(s, end) == [swap];
  }

  /** A sync that takes over makes up for every failure before it: whatever the API holds and however far earlier
      emissions got, once the swap and the upserts since have gone through, everything asked for beside no zero
      port is there. */
  lemma SwapMakesUp(labels: seq<Label>, end: Label, more: seq<Label>, raw: set<TcpRouteMapping>,
                    early: seq<Reach>, late: seq<Reach>, ttl: int)
    requires TakesOver(Run(FIRST, labels), end)
    requires var before := Run(FIRST, labels).batches;
             var since := Run(TakenOver(Run(FIRST, labels), end), more).batches;
             && |early| == |before| && |late| == |since| && (forall i :: 0 <= i < |late| ==> late[i] != Untouched)
             && UniqueThroughout({}, since, Completes(|since|))
    ensures var before := Run(FIRST, labels).batches;
            var since := Run(TakenOver(Run(FIRST, labels), end), more).batches;
            && Run(FIRST, labels + [end] + more).batches == before + since
            && RawCovers(ReachAll(raw, before + since, early + late, ttl), WorldOf(labels + [end] + more), ttl)
  {
    hide *;
    var s := Run(FIRST, labels);
    var t := TakenOver(s, end);
    var w := SwapWorld(s, end);
    var actions := ActionsOf(t, more);
    SinceTakeOver(labels, end, more);
    RunIsActions(w, t, more);
    ActAllCovers(w, actions);
    MadeOfBatches(ActAll(w, actions), Run(t, more));
    BatchesCover(ActAll(w, actions), Run(t, more).batches, ReachAll(raw, s.batches, early, ttl), late, ttl);
    ReachConcat(raw, s.batches, Run(t, more).batches, early, late, ttl);
    TakeOverWorld(labels, end, w);
    ActionsIgnoreRemote(WorldOf(labels + [end]), w, actions);
    CoversSameTables(ReachAll(raw, s.batches + Run(t, more).batches, early + late, ttl),
                     WorldOf(labels + [end] + more), ActAll(w, actions), ttl);
  }

  lemma SinceTakeOver(labels: seq<Label>, end: Label, more: seq<Label>)
    requires TakesOver(Run(FIRST, labels), end)
    ensures var s := Run(FIRST, labels);
            var t := TakenOver(s, end);
            && Run(FIRST, labels + [end] + more).batches == s.batches + Run(t, more).batches
            && WorldOf(labels + [end] + more) == ActAll(WorldOf(labels + [end]), ActionsOf(t, more))
  {
    hide Run, TakesOver, TakenOver, ActAll, ActionsOf, WorldOf;
    var s := Run(FIRST, labels);
    TakenOverIsNext(s, end);
    RunKeepsEarlier(s.batches, TakenOver(s, end), more);
    ActionsSnoc(FIRST, labels, end);
    RunConcat(FIRST, labels + [end], more);
    WorldOfConcat(labels + [end], more);
  }

  lemma MadeOfBatches(w: World, s: State)
    requires Describes(w, s)
    ensures w.downstream == DeliverAll({}, s.batches)
  {
  }

  lemma CoversSameTables(raw: set<TcpRouteMapping>, a: World, b: World, ttl: int)
    requires SameTables(a, b) && RawCovers(raw, b, ttl)
    ensures RawCovers(raw, a, ttl)
  {
  }
}
