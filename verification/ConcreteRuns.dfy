/**
 Concrete protocol runs at one routing key: events that arrive one after the other, with or
 without a sync at the end, and what the key holds after them.
 */
module ConcreteRuns {
  import opened Sequences
  import opened Endpoints
  import opened Lrps
  import opened Events
  import opened TableSpec
  import opened Downstream
  import opened Agreement
  import opened Operations
  import opened OperationAgreement
  import opened SwapDelta
  import opened Convergence
  import opened Snapshot
  import opened SyncProtocol
  import opened Runs

  const KEY := RoutingKey("process", 8080)
  const INSTANCE := EndpointKey("instance", false)

  function TagOf(index: uint32): ModificationTag {
    Tag("epoch", index)
  }

  function RoutesTo(external: ExternalEndpoints): (routes: seq<TcpRoute>)
    ensures |routes| == |external|
    ensures forall i :: 0 <= i < |external| ==>
              routes[i] == TcpRoute(external[i].routerGroupGuid, external[i].port, 8080)
  {
    seq(|external|, i requires 0 <= i < |external| => TcpRoute(external[i].routerGroupGuid, external[i].port, 8080))
  }

  /** A desired LRP that asks for exactly these external endpoints at the key. */
  function Desired(external: ExternalEndpoints, index: uint32): DesiredLrp {
    DesiredLrp("process", "log", TagOf(index), RoutesTo(external))
  }

  /** A running actual LRP with the endpoint as its only one. */
  function Actual(e: Endpoint): ActualLrp {
    ActualLrp("process", e.instanceGuid, e.evacuating, e.host, [PortMapping(8080, e.port)], e.modificationTag, Running)
  }

  function Asks(external: ExternalEndpoints, index: uint32): Edit {
    Merge(KEY, Desired(external, index))
  }

  function Backend(host: string, index: uint32): Endpoint {
    Endpoint("instance", false, host, 5222, 8080, TagOf(index))
  }

  function Port(port: uint32): ExternalEndpointInfo {
    ExternalEndpointInfo("group", port)
  }

  lemma {:induction false} RoutesForAll(external: ExternalEndpoints)
    ensures RoutesFor(RoutesTo(external), 8080) == external
  {
    if external != [] {
      var n := |external| - 1;
      RoutesForAll(external[..n]);
      assert RoutesTo(external)[..n] == RoutesTo(external[..n]);
      assert external == external[..n] + [external[n]];
    }
  }

  // ---------------------------------------------------------------- runs of events

  /** The event that makes an edit at the key. */
  function EventFor(edit: Edit): LrpEvent {
    match edit
    case Merge(_, d) => DesiredCreated(d)
    case Drop(_, tag) => DesiredRemoved(DesiredLrp("process", "log", tag, RoutesTo([Port(80)])))
    case Put(_, e) => ActualCreated(Actual(e))
    case Take(_, e) => ActualRemoved(Actual(e))
  }

  ghost predicate Native(edit: Edit) {
    && edit.key == KEY
    && match edit
       case Merge(_, d) => exists external, index :: external != [] && d == Desired(external, index)
       case Drop(_, _) => true
       case Put(_, e) => e.containerPort == 8080
       case Take(_, e) => e.containerPort == 8080
  }

  function EventsFor(edits: seq<Edit>): seq<LrpEvent> {
    if edits == [] then [] else EventsFor(edits[..|edits| - 1]) + [EventFor(edits[|edits| - 1])]
  }

  /** The world after the events of these edits have arrived, one after the other, with no sync. */
  ghost function After(edits: seq<Edit>): World {
    WorldOf(Arrivals(EventsFor(edits)))
  }

  lemma EventMakes(edit: Edit)
    requires Native(edit)
    ensures edit in EditsOf(EventFor(edit)) && forall other :: other in EditsOf(EventFor(edit)) ==> other.key == KEY
  {
    match edit
    case Merge(_, d) =>
      assert DesiredKeys(d)[0] == KEY;
      assert AddRoutes(d)[0] == edit;
    case Drop(_, tag) =>
      assert EditsOf(EventFor(edit))[0] == edit;
    case Put(_, e) => OneEndpoint(e);
    case Take(_, e) => OneEndpoint(e);
  }

  lemma OneEndpoint(e: Endpoint)
    requires e.containerPort == 8080
    ensures AddEndpoint(Actual(e)) == [Put(KEY, e)] && RemoveEndpoint(Actual(e)) == [Take(KEY, e)]
  {
    LastMappingWins(Actual(e), Actual(e).ports, 0);
  }

  lemma EventsForSnoc(edits: seq<Edit>, edit: Edit)
    ensures EventsFor(edits + [edit]) == EventsFor(edits) + [EventFor(edit)]
  {
    hide EventFor;
    assert (edits + [edit])[..|edits|] == edits;
  }

  lemma AfterIsHandled(edits: seq<Edit>, edit: Edit)
    ensures After(edits + [edit]) == HandleWorld(After(edits), EventFor(edit))
  {
    hide EventFor, EventsFor, Arrivals, ActionsOf, ActAll, HandleWorld, Handlings;
    EventsForSnoc(edits, edit);
    IdleActions(FIRST, EventsFor(edits));
    IdleActions(FIRST, EventsFor(edits + [edit]));
    HandlingsOfSnoc(EventsFor(edits), EventFor(edit));
    ActSnoc(NOTHING, Handlings(EventsFor(edits)), Handling(EventFor(edit)));
  }

  /** One more event does at the key what its one edit there does alone, and nothing at any other key. */
  lemma AfterSnoc(edits: seq<Edit>, edit: Edit)
    requires Native(edit)
    ensures SameAt(After(edits + [edit]), Step(After(edits), edit), KEY)
    ensures forall k :: k != KEY ==> SameAt(After(edits + [edit]), After(edits), k)
  {
    hide After, EditsOf, EventFor, RunEdits, Step, SameAt, HandleWorld, OneEditPerKey, Native;
    var w, e := After(edits), EventFor(edit);
    AfterIsHandled(edits, edit);
    HandleIsRun(w, e);
    EventsEditEachKeyOnce(e);
    EventMakes(edit);
    KeyOfNative(edit);
    RunAtKey(w, EditsOf(e), edit);
    forall k | k != KEY ensures SameAt(After(edits + [edit]), w, k) {
      RunLeavesKey(w, EditsOf(e), k);
    }
  }

  lemma KeyOfNative(edit: Edit)
    requires Native(edit)
    ensures edit.key == KEY
  {
  }

  lemma AfterNothing()
    ensures After([]) == NOTHING
  {
    NoLabels(FIRST);
    NoAction(NOTHING);
    hide ActAll, ActionsOf;
  }

  /** The key agrees before the last event of the run, and not after it. */
  ghost predicate BreaksAtLast(edits: seq<Edit>) {
    && edits != []
    && AgreesAt(After(edits[..|edits| - 1]), KEY)
    && !AgreesAt(After(edits), KEY)
  }

  /** The key agrees after the run, and this is what the table and the withheld ports are there. */
  ghost predicate Reaches(edits: seq<Edit>, external: ExternalEndpoints, endpoints: Backends, index: uint32,
                          withheld: set<uint32>)
  {
    var w := After(edits);
    && AgreesAt(w, KEY)
    && KEY in w.table && w.table[KEY] == RoutableEndpoints(external, endpoints, "log", TagOf(index))
    && forall p: uint32 :: (KEY, p) in w.withheld <==> p in withheld
  }

  /** The same of a world in which the last edit is still to be taken. */
  ghost predicate ReachesBy(w: World, edit: Edit, external: ExternalEndpoints, endpoints: Backends, index: uint32,
                            withheld: set<uint32>)
  {
    var s' := Step(w, edit);
    && KeepsInStep(w, edit)
    && KEY in s'.table && s'.table[KEY] == RoutableEndpoints(external, endpoints, "log", TagOf(index))
    && forall p: uint32 :: (KEY, p) in s'.withheld <==> p in withheld
  }

  lemma ReachesSnoc(edits: seq<Edit>, edit: Edit, external: ExternalEndpoints, endpoints: Backends, index: uint32,
                    withheld: set<uint32>)
    requires Native(edit) && AgreesAt(After(edits), KEY)
    requires ReachesBy(After(edits), edit, external, endpoints, index, withheld)
    ensures Reaches(edits + [edit], external, endpoints, index, withheld)
  {
    hide After, Step, AgreesAt, KeepsInStep, Native;
    AfterSnoc(edits, edit);
    KeyOfNative(edit);
    AgreementKeptIff(After(edits), edit);
    SameAtAgreesAt(After(edits + [edit]), Step(After(edits), edit), KEY);
  }

  lemma AsksIsNative(external: ExternalEndpoints, index: uint32)
    requires external != []
    ensures Native(Asks(external, index))
  {
  }

  lemma DropIsNative(tag: ModificationTag)
    ensures Native(Drop(KEY, tag))
  {
  }

  lemma BeginsWith(external: ExternalEndpoints)
    requires external != []
    ensures Reaches([Asks(external, 1)], external, map[], 1, {})
  {
    var edit := Asks(external, 1);
    RoutesForAll(external);
    AfterNothing();
    AsksIsNative(external, 1);
    AgreesEverywhere(NOTHING);
    assert Projection(map[], {}) == {};
    assert BringsNewPort(map[], edit) by {
      assert external[0] in Wanted(edit);
    }
    hide RoutesFor, CreateEvent, Subtract, Replay, AgreesAt, After, Reaches;
    ReachesSnoc([], edit, external, map[], 1, {});
    assert [] + [edit] == [edit];
  }

  lemma PutReaches(edits: seq<Edit>, external: ExternalEndpoints, endpoints: Backends, index: uint32,
                   withheld: set<uint32>, e: Endpoint)
    requires Reaches(edits, external, endpoints, index, withheld) && NonZero(external)
    requires e.Key() !in endpoints && e.containerPort == 8080
    ensures Reaches(edits + [Put(KEY, e)], external, endpoints[e.Key() := e], index, {})
  {
    hide CreateEvent, Replay, AgreesAt, After, NonZero;
    ReachesSnoc(edits, Put(KEY, e), external, endpoints[e.Key() := e], index, {});
  }

  lemma AskBy(w: World, external: ExternalEndpoints, endpoints: Backends, index: uint32, withheld: set<uint32>,
              wanted: ExternalEndpoints, newer: uint32)
    requires KEY in w.table && w.table[KEY] == RoutableEndpoints(external, endpoints, "log", TagOf(index))
    requires forall p: uint32 :: (KEY, p) in w.withheld <==> p in withheld
    requires NonZero(external) && index < newer
    requires forall x :: x in wanted ==> ContainsExternalPort(external, x.port)
    ensures ReachesBy(w, Asks(wanted, newer), external, endpoints, index, withheld + (Ports(external) - Ports(wanted)))
  {
    var edit := Asks(wanted, newer);
    RoutesForAll(wanted);
    hide CreateEvent, Replay, RoutesFor, Subtract, RoutesTo, Ports;
    assert !BringsNewPort(w.table, edit);
    assert NonZero(Gone(w.table, edit));
  }

  /** An accepted update that brings no new port only adds to what is withheld. */
  lemma AskReaches(edits: seq<Edit>, external: ExternalEndpoints, endpoints: Backends, index: uint32,
                   withheld: set<uint32>, wanted: ExternalEndpoints, newer: uint32)
    requires Reaches(edits, external, endpoints, index, withheld) && NonZero(external) && index < newer && wanted != []
    requires forall x :: x in wanted ==> ContainsExternalPort(external, x.port)
    ensures Reaches(edits + [Asks(wanted, newer)], external, endpoints, index,
                    withheld + (Ports(external) - Ports(wanted)))
  {
    hide After, AgreesAt, Native, ReachesBy, NonZero, Ports, Asks;
    AsksIsNative(wanted, newer);
    AskBy(After(edits), external, endpoints, index, withheld, wanted, newer);
    ReachesSnoc(edits, Asks(wanted, newer), external, endpoints, index, withheld + (Ports(external) - Ports(wanted)));
  }

  lemma BreaksWith(edits: seq<Edit>, last: Edit)
    requires AgreesAt(After(edits), KEY) && Native(last) && !KeepsInStep(After(edits), last)
    ensures BreaksAtLast(edits + [last])
  {
    hide After, AgreesAt, KeepsInStep, Native, Step;
    assert (edits + [last])[..|edits|] == edits;
    AfterSnoc(edits, last);
    KeyOfNative(last);
    AgreementKeptIff(After(edits), last);
    SameAtAgreesAt(After(edits + [last]), Step(After(edits), last), KEY);
  }

  // ---------------------------------------------------------------- runs with a sync

  /** The events, then a sync whose fetches answer with one desired and one actual LRP, and more events before it
      ends. */
  function IntoSync(edits: seq<Edit>, d: DesiredLrp, a: ActualLrp, cached: seq<Edit>): seq<Label> {
    Arrivals(EventsFor(edits)) + [Begin, ActualsAnswer(Fetched([a])), DesiredsAnswer(Fetched([d]))]
    + Arrivals(EventsFor(cached))
  }

  lemma AfterIsIdle(edits: seq<Edit>)
    ensures var s := Run(FIRST, Arrivals(EventsFor(edits)));
            s.phase.Idle? && s.cache == [] && s.table == After(edits).table == HandleAll(map[], EventsFor(edits))
  {
    hide Run, Arrivals, HandleAll, Emissions, EventsFor, CoveredWhereNonZero, WorldOf, DeliverAll;
    DirectHandling(FIRST, EventsFor(edits));
    NothingGoesMissing(Arrivals(EventsFor(edits)));
  }

  lemma SyncedState(edits: seq<Edit>, d: DesiredLrp, a: ActualLrp, cached: seq<Edit>)
    ensures var s := Run(FIRST, IntoSync(edits, d, a, cached));
            && s.phase == Syncing(Fetched([a]), Fetched([d])) && s.cache == EventsFor(cached)
            && s.table == After(edits).table && WorldOf(IntoSync(edits, d, a, cached)) == After(edits)
  {
    hide Run, Arrivals, EventsFor, ActionsOf, ActAll, HandleAll;
    var arrivals, later := Arrivals(EventsFor(edits)), Arrivals(EventsFor(cached));
    var answers := [Begin, ActualsAnswer(Fetched([a])), DesiredsAnswer(Fetched([d]))];
    var s := Run(FIRST, arrivals);
    AfterIsIdle(edits);
    SyncBegins(s, [a], [d]);
    RunConcat(FIRST, arrivals, answers);
    ArrivalsAreCached(Run(s, answers), EventsFor(cached));
    RunConcat(FIRST, arrivals + answers, later);
    assert [] + EventsFor(cached) == EventsFor(cached);
    assert ActionsOf(FIRST, arrivals) + [] + [] == ActionsOf(FIRST, arrivals);
  }

  /** The table that the sync builds and replays on is that of the answers handled as events, and the cached ones. */
  lemma ReplayedTable(external: ExternalEndpoints, index: uint32, e: Endpoint, cached: seq<Edit>)
    requires e.containerPort == 8080
    ensures HandleAll(Build([Desired(external, index)], [Actual(e)]), EventsFor(cached))
         == After([Asks(external, index), Put(KEY, e)] + cached).table
  {
    hide After, HandleAll, Build, EventsFor, Asks, Desired, Actual;
    var ask, put := Asks(external, index), Put(KEY, e);
    AfterIsIdle([ask, put] + cached);
    EventsForConcat([ask, put], cached);
    HandleAllConcat(map[], EventsFor([ask, put]), EventsFor(cached));
    BuiltBy(external, index, e);
  }

  lemma BuiltBy(external: ExternalEndpoints, index: uint32, e: Endpoint)
    ensures Build([Desired(external, index)], [Actual(e)])
         == HandleAll(map[], EventsFor([Asks(external, index), Put(KEY, e)]))
  {
    hide HandleAll, Build;
    EventsForTwo(Asks(external, index), Put(KEY, e));
    BuildIsHandled(Desired(external, index), Actual(e));
  }

  lemma EventsForTwo(a: Edit, b: Edit)
    ensures EventsFor([a, b]) == [EventFor(a), EventFor(b)]
  {
    hide EventFor;
    EventsForSnoc([], a);
    EventsForSnoc([a], b);
    assert [] + [a] == [a] && [a] + [b] == [a, b];
  }

  lemma BuildIsHandled(d: DesiredLrp, a: ActualLrp)
    requires a.state == Running
    ensures Build([d], [a]) == HandleAll(map[], [DesiredCreated(d), ActualCreated(a)])
  {
    hide ApplyEdits, AddRoutes, AddEndpoint;
    var one, two := DesiredCreated(d), ActualCreated(a);
    assert [one, two][..1] == [one] && [one][..0] == [];
    assert [d][..0] == [] && RouteEdits([d]) == [] + AddRoutes(d) == AddRoutes(d);
    assert [a][..0] == [] && Deliveries([a]) == [] + AddEndpoint(a) == AddEndpoint(a);
    assert HandleAll(map[], [one]) == Handle(map[], one).table;
  }

  lemma {:induction false} EventsForConcat(a: seq<Edit>, b: seq<Edit>)
    ensures EventsFor(a + b) == EventsFor(a) + EventsFor(b)
  {
    if b == [] {
      assert a + b == a && EventsFor(a) + [] == EventsFor(a);
    } else {
      var prefix, last := b[..|b| - 1], b[|b| - 1];
      EventsForConcat(a, prefix);
      assert b == prefix + [last] && a + b == (a + prefix) + [last];
      hide EventFor;
      EventsForSnoc(a + prefix, last);
      EventsForSnoc(prefix, last);
      Associative(EventsFor(a), EventsFor(prefix), [EventFor(last)]);
    }
  }

  /** However the sync ends, the world is that of a swap to this table. */
  lemma SyncEnds(edits: seq<Edit>, external: ExternalEndpoints, index: uint32, e: Endpoint, cached: seq<Edit>,
                 end: Label)
    returns (events: seq<Event>)
    requires e.containerPort == 8080
    requires TakesOver(Run(FIRST, IntoSync(edits, Desired(external, index), Actual(e), cached)), end)
    ensures var w, after := After(edits), After([Asks(external, index), Put(KEY, e)] + cached).table;
            && IsSwap(w.table, after, events)
            && WorldOf(IntoSync(edits, Desired(external, index), Actual(e), cached) + [end])
            == Swapped(after, w.downstream, events)
  {
    var labels := IntoSync(edits, Desired(external, index), Actual(e), cached);
    var s, w := Run(FIRST, labels), After(edits);
    SyncedState(edits, Desired(external, index), Actual(e), cached);
    ReplayedTable(external, index, e, cached);
    assert RunningOnly([Actual(e)]) == [Actual(e)] by {
      assert [Actual(e)][..0] == [];
    }
    hide IntoSync, After, Run, ActionsOf, ActAll, HandleAll, Build, EventsFor, RunningOnly, Actual, Desired;
    hide RegisterAll, UnregisterMissing, IsSwap, Deliver;
    var after := After([Asks(external, index), Put(KEY, e)] + cached).table;
    ActionsSnoc(FIRST, labels, end);
    ActSnoc(NOTHING, ActionsOf(FIRST, labels), SwapTo(after, end.newOrder, end.oldOrder));
    IsSwapTo(w.table, after, end.newOrder, end.oldOrder);
    events := SwapEvents(w.table, after, end.newOrder, end.oldOrder);
  }

  lemma SyncCanTakeOver(edits: seq<Edit>, external: ExternalEndpoints, index: uint32, e: Endpoint, cached: seq<Edit>)
    returns (end: Label)
    requires external != []
    ensures TakesOver(Run(FIRST, IntoSync(edits, Desired(external, index), Actual(e), cached)), end)
  {
    hide Run, HandleAll, EventsFor, Temporary, After, IntoSync, Arrivals;
    var d := Desired(external, index);
    SyncedState(edits, d, Actual(e), cached);
    var s := Run(FIRST, IntoSync(edits, d, Actual(e), cached));
    FindsNothingIff(s.phase);
    assert d in s.phase.desireds.list && d.routes != [];
    end := SyncCanEnd(s);
  }

  /** The usual beginning: the routes are there, and then a backend. */
  lemma Serving(external: ExternalEndpoints, e: Endpoint)
    requires external != [] && NonZero(external) && e.containerPort == 8080
    ensures Reaches([Asks(external, 1), Put(KEY, e)], external, map[e.Key() := e], 1, {})
  {
    hide Reaches, Asks, NonZero;
    BeginsWith(external);
    PutReaches([Asks(external, 1)], external, map[], 1, {}, e);
    assert [Asks(external, 1)] + [Put(KEY, e)] == [Asks(external, 1), Put(KEY, e)];
  }

  lemma IsServed(edits: seq<Edit>, external: ExternalEndpoints, endpoints: Backends, index: uint32,
               x: ExternalEndpointInfo, b: EndpointKey)
    requires Reaches(edits, external, endpoints, index, {}) && x in external && b in endpoints
    ensures Mapping(KEY, x, b, endpoints[b].host, endpoints[b].port) in After(edits).downstream
  {
    var w := After(edits);
    var m := Mapping(KEY, x, b, endpoints[b].host, endpoints[b].port);
    hide After;
    assert Live(w.table, w.withheld, m);
  }

  lemma HasEntry(edits: seq<Edit>, external: ExternalEndpoints, endpoints: Backends, index: uint32,
                 withheld: set<uint32>)
    requires Reaches(edits, external, endpoints, index, withheld)
    ensures KEY in After(edits).table
    ensures After(edits).table[KEY] == RoutableEndpoints(external, endpoints, "log", TagOf(index))
  {
    hide After;
  }

  lemma IsAbsent(edits: seq<Edit>, external: ExternalEndpoints, endpoints: Backends, index: uint32,
                 withheld: set<uint32>, p: uint32)
    requires Reaches(edits, external, endpoints, index, withheld) && p in withheld
    ensures AbsentAt(After(edits), KEY, p)
  {
    hide After;
  }
}
