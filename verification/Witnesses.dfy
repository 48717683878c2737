/**
 Protocol runs from nothing on which agreement is lost, a request goes unserved, or a mapping is
 stranded: each of the exact conditions proved elsewhere fails on inputs that the program can receive.
 */
module Witnesses {
  import opened Sequences
  import opened Endpoints
  import opened Lrps
  import opened Events
  import opened TableSpec
  import opened Downstream
  import opened Agreement
  import opened OperationAgreement
  import opened SwapDelta
  import opened SyncProtocol
  import opened Runs
  import opened RawMappings
  import opened ConcreteRuns

  // ---------------------------------------------------------------- agreement lost

  lemma MoveBreaks(edits: seq<Edit>, external: ExternalEndpoints, endpoints: Backends, index: uint32, e: Endpoint)
    requires Reaches(edits, external, endpoints, index, {}) && external != [] && NonZero(external)
    requires e.Key() in endpoints && endpoints[e.Key()].modificationTag.SucceededBy(e.modificationTag)
    requires endpoints[e.Key()].host != e.host && e.containerPort == 8080
    ensures BreaksAtLast(edits + [Put(KEY, e)])
  {
    var w := After(edits);
    hide After, AgreesAt, NonZero, BreaksAtLast;
    assert external[0] in LiveExternals(w, KEY);
    BreaksWith(edits, Put(KEY, e));
  }

  /** A backend that moves to another host: its previous address stays registered. */
  lemma ChangedAddress()
    ensures BreaksAtLast([Asks([Port(80)], 1), Put(KEY, Backend("old", 1)), Put(KEY, Backend("new", 2))])
  {
    hide Reaches, Asks, BreaksAtLast;
    Serving([Port(80)], Backend("old", 1));
    var edits := [Asks([Port(80)], 1), Put(KEY, Backend("old", 1))];
    MoveBreaks(edits, [Port(80)], map[INSTANCE := Backend("old", 1)], 1, Backend("new", 2));
    assert edits + [Put(KEY, Backend("new", 2))]
        == [Asks([Port(80)], 1), Put(KEY, Backend("old", 1)), Put(KEY, Backend("new", 2))];
  }

  lemma RegroupFails(w: World, wanted: ExternalEndpoints, newer: uint32, x: ExternalEndpointInfo,
                     brought: ExternalEndpointInfo, b: EndpointKey)
    requires KEY in w.table && w.table[KEY].modificationTag == TagOf(1) && 1 < newer && b in w.table[KEY].endpoints
    requires x in w.table[KEY].externalEndpoints && (KEY, x.port) !in w.withheld
    requires x !in wanted && x.port in Ports(wanted)
    requires brought in wanted && brought.port !in Ports(w.table[KEY].externalEndpoints)
    ensures !KeepsInStep(w, Asks(wanted, newer))
  {
    RoutesForAll(wanted);
    hide RoutesFor, RoutesTo, NonZero, Subtract;
    assert x in LiveExternals(w, KEY);
    assert BringsNewPort(w.table, Asks(wanted, newer));
  }

  lemma RegroupBreaks(edits: seq<Edit>, external: ExternalEndpoints, endpoints: Backends,
                      wanted: ExternalEndpoints, x: ExternalEndpointInfo, brought: ExternalEndpointInfo, b: EndpointKey)
    requires Reaches(edits, external, endpoints, 1, {}) && b in endpoints
    requires x in external && x !in wanted && x.port in Ports(wanted)
    requires brought in wanted && brought.port !in Ports(external)
    ensures BreaksAtLast(edits + [Asks(wanted, 2)])
  {
    hide After, AgreesAt, BreaksAtLast, Native, KeepsInStep, Asks;
    RegroupFails(After(edits), wanted, 2, x, brought, b);
    AsksIsNative(wanted, 2);
    BreaksWith(edits, Asks(wanted, 2));
  }

  /** A port that moves to another router group, in an update that brings another port: the previous group keeps it. */
  lemma ChangedRouterGroup()
    ensures BreaksAtLast([Asks([Port(80)], 1), Put(KEY, Backend("host", 1)),
                          Asks([ExternalEndpointInfo("other", 80), Port(81)], 2)])
  {
    hide Reaches, Asks, BreaksAtLast;
    Serving([Port(80)], Backend("host", 1));
    var edits := [Asks([Port(80)], 1), Put(KEY, Backend("host", 1))];
    var wanted := [ExternalEndpointInfo("other", 80), Port(81)];
    assert wanted[0].port == 80 && Port(80) !in wanted && wanted[1] == Port(81);
    assert 81 !in Ports([Port(80)]);
    RegroupBreaks(edits, [Port(80)], map[INSTANCE := Backend("host", 1)], wanted, Port(80), Port(81), INSTANCE);
    assert edits + [Asks(wanted, 2)] == [Asks([Port(80)], 1), Put(KEY, Backend("host", 1)), Asks(wanted, 2)];
  }

  // ---------------------------------------------------------------- zero ports

  /** An update that keeps all ports and adds a zero port changes the table and nothing else. */
  lemma ZeroAsk(w: World, external: ExternalEndpoints, wanted: ExternalEndpoints)
    requires KEY in w.table && w.table[KEY].externalEndpoints == external && w.table[KEY].modificationTag == TagOf(1)
    requires Ports(external) <= Ports(wanted) && Port(0) in wanted && 0 !in Ports(external)
    ensures var asked := Step(w, Asks(wanted, 2));
            && KEY in asked.table && asked.table[KEY].modificationTag == TagOf(2)
            && asked.table[KEY].externalEndpoints == wanted && asked.downstream == w.downstream
  {
    var ask := Asks(wanted, 2);
    RoutesForAll(wanted);
    assert BringsNewPort(w.table, ask);
    StepEffect(w, ask);
    SubtractCovered(external, wanted);
    hide RoutesFor, CreateEvent, Replay, Subtract, Ports, RoutesTo;
    assert Gone(w.table, ask) == [];
  }

  /** Dropping the key then changes the table and nothing else either. */
  lemma ZeroDrop(w: World)
    requires KEY in w.table && w.table[KEY].modificationTag == TagOf(2) && Port(0) in w.table[KEY].externalEndpoints
    ensures var dropped := Step(w, Drop(KEY, TagOf(3)));
            KEY !in dropped.table && dropped.downstream == w.downstream
  {
    ZeroPortSilencesEntry(w, Drop(KEY, TagOf(3)));
    hide CreateEvent, Replay;
  }

  lemma AfterAsk(edits: seq<Edit>, external: ExternalEndpoints, wanted: ExternalEndpoints, m: Mapping)
    requires var w := After(edits);
             && KEY in w.table && w.table[KEY].externalEndpoints == external && w.table[KEY].modificationTag == TagOf(1)
             && m.key == KEY && m in w.downstream
    requires Ports(external) <= Ports(wanted) && Port(0) in wanted && 0 !in Ports(external)
    ensures var w := After(edits + [Asks(wanted, 2)]);
            && KEY in w.table && w.table[KEY].modificationTag == TagOf(2) && w.table[KEY].externalEndpoints == wanted
            && m in w.downstream
  {
    hide After, Step, Asks, Native, Ports;
    AsksIsNative(wanted, 2);
    ZeroAsk(After(edits), external, wanted);
    AfterSnoc(edits, Asks(wanted, 2));
  }

  lemma AfterDrop(edits: seq<Edit>, m: Mapping)
    requires var w := After(edits);
             && KEY in w.table && w.table[KEY].modificationTag == TagOf(2) && Port(0) in w.table[KEY].externalEndpoints
             && m.key == KEY && m in w.downstream
    ensures var w := After(edits + [Drop(KEY, TagOf(3))]);
            KEY !in w.table && m in w.downstream
  {
    hide After, Step, Native;
    DropIsNative(TagOf(3));
    ZeroDrop(After(edits));
    AfterSnoc(edits, Drop(KEY, TagOf(3)));
  }

  lemma ZeroStrands(edits: seq<Edit>, external: ExternalEndpoints, endpoints: Backends,
                    wanted: ExternalEndpoints, x: ExternalEndpointInfo, b: EndpointKey)
    requires Reaches(edits, external, endpoints, 1, {}) && x in external && b in endpoints
    requires Ports(external) <= Ports(wanted) && Port(0) in wanted && 0 !in Ports(external)
    ensures var w := After(edits + [Asks(wanted, 2), Drop(KEY, TagOf(3))]);
            KEY !in w.table && Mapping(KEY, x, b, endpoints[b].host, endpoints[b].port) in w.downstream
  {
    var ask, drop := Asks(wanted, 2), Drop(KEY, TagOf(3));
    var m := Mapping(KEY, x, b, endpoints[b].host, endpoints[b].port);
    hide *;
    IsServed(edits, external, endpoints, 1, x, b);
    HasEntry(edits, external, endpoints, 1, {});
    AfterAsk(edits, external, wanted, m);
    AfterDrop(edits + [ask], m);
    AppendTwo(edits, ask, drop);
  }

  /** A port is served, an update adds a zero port beside it, the key is dropped: the table forgets the key and the
      remote set keeps the mapping. */
  lemma ZeroPortStrandsMapping()
    ensures var w := After([Asks([Port(80)], 1), Put(KEY, Backend("host", 1)),
                            Asks([Port(80), Port(0)], 2), Drop(KEY, TagOf(3))]);
            KEY !in w.table && Mapping(KEY, Port(80), INSTANCE, "host", 5222) in w.downstream
  {
    hide Reaches, Asks, After;
    Serving([Port(80)], Backend("host", 1));
    var edits, wanted := [Asks([Port(80)], 1), Put(KEY, Backend("host", 1))], [Port(80), Port(0)];
    assert wanted[0] == Port(80) && wanted[1] == Port(0);
    ZeroStrands(edits, [Port(80)], map[INSTANCE := Backend("host", 1)], wanted, Port(80), INSTANCE);
    assert edits + [Asks(wanted, 2), Drop(KEY, TagOf(3))]
        == [Asks([Port(80)], 1), Put(KEY, Backend("host", 1)), Asks(wanted, 2), Drop(KEY, TagOf(3))];
  }

  // ---------------------------------------------------------------- withheld ports and stale entries

  /** Two ports are served, and an update keeps the first only. */
  lemma Withheld81(newer: uint32)
    requires 1 < newer
    ensures Reaches([Asks([Port(80), Port(81)], 1), Put(KEY, Backend("host", 1)), Asks([Port(80)], newer)],
                    [Port(80), Port(81)], map[INSTANCE := Backend("host", 1)], 1, {81})
  {
    hide Reaches, Asks;
    var both, one := [Port(80), Port(81)], [Port(80)];
    assert both[0] == Port(80) && both[1] == Port(81) && one[0] == Port(80);
    assert NonZero(both);
    Serving(both, Backend("host", 1));
    var edits := [Asks(both, 1), Put(KEY, Backend("host", 1))];
    AskReaches(edits, both, map[INSTANCE := Backend("host", 1)], 1, {}, one, newer);
    assert {} + (Ports(both) - Ports(one)) == {81};
    assert edits + [Asks(one, newer)] == [Asks(both, 1), Put(KEY, Backend("host", 1)), Asks(one, newer)];
  }

  lemma NotServedAgain(edits: seq<Edit>, external: ExternalEndpoints, endpoints: Backends, withheld: set<uint32>,
                       x: ExternalEndpointInfo, b: EndpointKey)
    requires Reaches(edits, external, endpoints, 1, withheld) && b in endpoints
    requires x in external && x.port in withheld
    ensures var again := Asks(external, 3);
            again.Accepted(After(edits).table)
            && Mapping(KEY, x, b, endpoints[b].host, endpoints[b].port) !in After(edits + [again]).downstream
  {
    var w, again := After(edits), Asks(external, 3);
    var m := Mapping(KEY, x, b, endpoints[b].host, endpoints[b].port);
    RoutesForAll(external);
    AsksIsNative(external, 3);
    hide After, Native;
    assert !Live(w.table, w.withheld, m);
    hide AgreesAt, RoutesFor, Step, Live, RoutesTo;
    assert !BringsNewPort(w.table, again);
    EffectOfMerge(w, again);
    StepEffect(w, again);
    AfterSnoc(edits, again);
  }

  /** When the second port is asked for again, the update is accepted and nothing happens: it is not served. */
  lemma WithheldPortIsNotServed()
    ensures var edits := [Asks([Port(80), Port(81)], 1), Put(KEY, Backend("host", 1)), Asks([Port(80)], 2)];
            var again := Asks([Port(80), Port(81)], 3);
            again.Accepted(After(edits).table)
            && Mapping(KEY, Port(81), INSTANCE, "host", 5222) !in After(edits + [again]).downstream
  {
    Withheld81(2);
    hide After, Reaches, Asks;
    var both := [Port(80), Port(81)];
    assert both[1] == Port(81);
    NotServedAgain([Asks(both, 1), Put(KEY, Backend("host", 1)), Asks([Port(80)], 2)],
                   both, map[INSTANCE := Backend("host", 1)], {81}, Port(81), INSTANCE);
  }

  lemma ComesBack(edits: seq<Edit>, external: ExternalEndpoints, endpoints: Backends, withheld: set<uint32>,
                  x: ExternalEndpointInfo, e: Endpoint)
    requires Reaches(edits, external, endpoints, 1, withheld) && e.Key() !in endpoints && e.containerPort == 8080
    requires x in external && x.port in withheld && NonZero(external)
    ensures AbsentAt(After(edits), KEY, x.port) && !AbsentAt(After(edits + [Put(KEY, e)]), KEY, x.port)
  {
    var w, put := After(edits), Put(KEY, e);
    IsAbsent(edits, external, endpoints, 1, withheld, x.port);
    hide After, AgreesAt, AbsentAt, Step, NonZero, SameAt;
    PortStaysRemovedIff(w, put, KEY, x.port);
    AfterSnoc(edits, put);
    SameAtAbsentAt(After(edits + [put]), Step(w, put), KEY, x.port);
  }

  /** When another backend arrives instead, the removed port comes back although nobody asks for it. */
  lemma RemovedPortComesBack()
    ensures var edits := [Asks([Port(80), Port(81)], 1), Put(KEY, Backend("host", 1)), Asks([Port(80)], 2)];
            var arrival := Put(KEY, Backend("host", 1).(instanceGuid := "another"));
            AbsentAt(After(edits), KEY, 81) && !AbsentAt(After(edits + [arrival]), KEY, 81)
  {
    Withheld81(2);
    hide After, Reaches, Asks, AbsentAt;
    var both, another := [Port(80), Port(81)], Backend("host", 1).(instanceGuid := "another");
    assert both[0] == Port(80) && both[1] == Port(81);
    ComesBack([Asks(both, 1), Put(KEY, Backend("host", 1)), Asks([Port(80)], 2)],
              both, map[INSTANCE := Backend("host", 1)], {81}, Port(81), another);
  }

  lemma StaleTakesOver(edits: seq<Edit>, external: ExternalEndpoints, endpoints: Backends, withheld: set<uint32>,
                       wanted: ExternalEndpoints, brought: ExternalEndpointInfo)
    requires Reaches(edits, external, endpoints, 1, withheld)
    requires brought in wanted && brought.port !in Ports(external)
    ensures var stale := Asks(wanted, 2);
            && stale.Accepted(After(edits).table)
            && KEY in After(edits + [stale]).table && After(edits + [stale]).table[KEY].externalEndpoints == wanted
  {
    var w, stale := After(edits), Asks(wanted, 2);
    RoutesForAll(wanted);
    AsksIsNative(wanted, 2);
    hide After, AgreesAt, RoutesFor, RoutesTo, Native, CreateEvent, Replay, Subtract;
    assert BringsNewPort(w.table, stale);
    AfterSnoc(edits, stale);
  }

  /** An older version overrides a newer one: version 3 takes a port away, which leaves the entry with the tag of
      version 1, and then version 2 is let in and replaces it. */
  lemma StaleUpdateOverrides()
    ensures var edits := [Asks([Port(80), Port(81)], 1), Put(KEY, Backend("host", 1)), Asks([Port(80)], 3)];
            var stale := Asks([Port(80), Port(82)], 2);
            && stale.Accepted(After(edits).table)
            && KEY in After(edits + [stale]).table
            && After(edits + [stale]).table[KEY].externalEndpoints == [Port(80), Port(82)]
  {
    Withheld81(3);
    hide After, Reaches, Asks;
    var both, wanted := [Port(80), Port(81)], [Port(80), Port(82)];
    assert wanted[1] == Port(82) && 82 !in Ports(both);
    StaleTakesOver([Asks(both, 1), Put(KEY, Backend("host", 1)), Asks([Port(80)], 3)],
                   both, map[INSTANCE := Backend("host", 1)], {81}, wanted, Port(82));
  }

  // ---------------------------------------------------------------- swaps

  lemma SwapBreaks(edits: seq<Edit>, newer: seq<Edit>, external: ExternalEndpoints, endpoints: Backends,
                   moved: Backends, x: ExternalEndpointInfo, b: EndpointKey, events: seq<Event>)
    requires Reaches(edits, external, endpoints, 1, {}) && Reaches(newer, external, moved, 1, {})
    requires x in external && b in endpoints && b in moved && endpoints[b].host != moved[b].host
    requires IsSwap(After(edits).table, After(newer).table, events)
    ensures !AgreesAt(Swapped(After(newer).table, After(edits).downstream, events), KEY)
  {
    var w, after := After(edits), After(newer).table;
    hide After, AgreesAt, IsSwap, Swapped;
    assert x in LiveExternals(w, KEY) && !KeepsPair(w, after, KEY, x, b);
    assert !SwapKeepsInStep(w, after, KEY);
    SwapAgreesIff(w, after, events, KEY);
  }

  /** A sync finds the backend elsewhere. It can take over, and however it ends the key no longer agrees: the swap
      leaves the previous address registered. */
  lemma SwapLeavesOldAddress()
    ensures var edits := [Asks([Port(80)], 1), Put(KEY, Backend("old", 1))];
            var labels := IntoSync(edits, Desired([Port(80)], 1), Actual(Backend("new", 2)), []);
            && AgreesAt(After(edits), KEY)
            && (exists end :: TakesOver(Run(FIRST, labels), end))
            && forall end :: TakesOver(Run(FIRST, labels), end) ==> !AgreesAt(WorldOf(labels + [end]), KEY)
  {
    Serving([Port(80)], Backend("old", 1));
    Serving([Port(80)], Backend("new", 2));
    hide After, Asks, Desired, Actual, IntoSync, AgreesAt, TakesOver, Run, WorldOf, IsSwap, Swapped;
    var edits := [Asks([Port(80)], 1), Put(KEY, Backend("old", 1))];
    var found := [Asks([Port(80)], 1), Put(KEY, Backend("new", 2))];
    var labels := IntoSync(edits, Desired([Port(80)], 1), Actual(Backend("new", 2)), []);
    var _ := SyncCanTakeOver(edits, [Port(80)], 1, Backend("new", 2), []);
    assert found + [] == found;
    forall end | TakesOver(Run(FIRST, labels), end) ensures !AgreesAt(WorldOf(labels + [end]), KEY) {
      var events := SyncEnds(edits, [Port(80)], 1, Backend("new", 2), [], end);
      SwapBreaks(edits, found, [Port(80)], map[INSTANCE := Backend("old", 1)], map[INSTANCE := Backend("new", 2)],
                 Port(80), INSTANCE, events);
    }
  }

  lemma Stranded(edits: seq<Edit>, external: ExternalEndpoints, endpoints: Backends,
                 x: ExternalEndpointInfo, e: Endpoint)
    requires Reaches(edits, external, endpoints, 1, {}) && x in external
    requires e.Key() in endpoints && endpoints[e.Key()].modificationTag.SucceededBy(e.modificationTag)
    requires endpoints[e.Key()].host != e.host && e.containerPort == 8080
    ensures var before := endpoints[e.Key()];
            Mapping(KEY, x, e.Key(), before.host, before.port) in After(edits + [Put(KEY, e)]).downstream
    ensures var w := After(edits + [Put(KEY, e)]);
            KEY in w.table && w.table[KEY].externalEndpoints == external
  {
    var w, put := After(edits), Put(KEY, e);
    var before := endpoints[e.Key()];
    var m := Mapping(KEY, x, e.Key(), before.host, before.port);
    IsServed(edits, external, endpoints, 1, x, e.Key());
    StepEffect(w, put);
    hide After, AgreesAt, CreateEvent, Replay;
    AfterSnoc(edits, put);
    assert m in Effect(w, put);
  }

  lemma SwapKeepsStrandedAt(before: Table, after: Table, d: set<Mapping>, events: seq<Event>, m: Mapping)
    requires IsSwap(before, after, events) && m in d && m.key in before && m.key in after
    requires m.external.port in Ports(after[m.key].externalEndpoints)
    requires m.endpointKey in after[m.key].endpoints && after[m.key].endpoints[m.endpointKey].host != m.host
    ensures var w := Swapped(after, d, events);
            m in w.downstream && !Live(w.table, w.withheld, m)
  {
    hide IsSwap, Deliver;
    SwapEffect(before, after, events, d, m);
  }

  /** Nor does a sync repair what was lost: after the move of `ChangedAddress`, a sync that finds the backend where
      it is takes over, and however it ends the previous address stays registered. */
  lemma SwapDoesNotRepair()
    ensures var edits := [Asks([Port(80)], 1), Put(KEY, Backend("old", 1)), Put(KEY, Backend("new", 2))];
            var labels := IntoSync(edits, Desired([Port(80)], 1), Actual(Backend("new", 2)), []);
            var m := Mapping(KEY, Port(80), INSTANCE, "old", 5222);
            && (exists end :: TakesOver(Run(FIRST, labels), end))
            && forall end :: TakesOver(Run(FIRST, labels), end) ==>
                 var w := WorldOf(labels + [end]);
                 m in w.downstream && !Live(w.table, w.withheld, m)
  {
    Serving([Port(80)], Backend("old", 1));
    Serving([Port(80)], Backend("new", 2));
    hide After, Asks, Desired, Actual, IntoSync, AgreesAt, TakesOver, Run, WorldOf, IsSwap, Swapped, Live;
    var two := [Asks([Port(80)], 1), Put(KEY, Backend("old", 1))];
    var edits := [Asks([Port(80)], 1), Put(KEY, Backend("old", 1)), Put(KEY, Backend("new", 2))];
    var found := [Asks([Port(80)], 1), Put(KEY, Backend("new", 2))];
    var labels := IntoSync(edits, Desired([Port(80)], 1), Actual(Backend("new", 2)), []);
    var m := Mapping(KEY, Port(80), INSTANCE, "old", 5222);
    assert [Port(80)][0] == Port(80) && found + [] == found;
    assert two + [Put(KEY, Backend("new", 2))] == edits;
    Stranded(two, [Port(80)], map[INSTANCE := Backend("old", 1)], Port(80), Backend("new", 2));
    var _ := SyncCanTakeOver(edits, [Port(80)], 1, Backend("new", 2), []);
    forall end | TakesOver(Run(FIRST, labels), end)
      ensures var w := WorldOf(labels + [end]);
              m in w.downstream && !Live(w.table, w.withheld, m)
    {
      var events := SyncEnds(edits, [Port(80)], 1, Backend("new", 2), [], end);
      SwapKeepsStrandedAt(After(edits).table, After(found).table, After(edits).downstream, events, m);
    }
  }

  lemma SwapBrings(edits: seq<Edit>, newer: seq<Edit>, external: ExternalEndpoints, endpoints: Backends,
                   withheld: set<uint32>, x: ExternalEndpointInfo, b: EndpointKey, events: seq<Event>)
    requires Reaches(newer, external, endpoints, 1, withheld) && NonZero(external) && x in external && b in endpoints
    requires IsSwap(After(edits).table, After(newer).table, events)
    ensures !AbsentAt(Swapped(After(newer).table, After(edits).downstream, events), KEY, x.port)
  {
    var after := After(newer).table;
    hide After, IsSwap, Deliver, AgreesAt;
    var m := Mapping(KEY, x, b, endpoints[b].host, endpoints[b].port);
    assert Exposes(KEY, after[KEY], m);
    SwapEffect(After(edits).table, after, events, After(edits).downstream, m);
  }

  lemma LostInSync(external: ExternalEndpoints, e: Endpoint, removal: Edit, withheld: set<uint32>,
                   x: ExternalEndpointInfo, end: Label)
    requires e.containerPort == 8080 && x in external && NonZero(external)
    requires Reaches([Asks(external, 1), Put(KEY, e)] + [removal], external, map[e.Key() := e], 1, withheld)
    requires var labels := IntoSync([Asks(external, 1), Put(KEY, e)], Desired(external, 1), Actual(e), [removal]);
             TakesOver(Run(FIRST, labels), end)
    ensures var labels := IntoSync([Asks(external, 1), Put(KEY, e)], Desired(external, 1), Actual(e), [removal]);
            !AbsentAt(WorldOf(labels + [end]), KEY, x.port)
  {
    hide *;
    var edits := [Asks(external, 1), Put(KEY, e)];
    var events := SyncEnds(edits, external, 1, e, [removal], end);
    SwapBrings(edits, edits + [removal], external, map[e.Key() := e], withheld, x, e.Key(), events);
  }

  lemma SyncLoses(external: ExternalEndpoints, e: Endpoint, removal: Edit, withheld: set<uint32>,
                  x: ExternalEndpointInfo)
    requires e.containerPort == 8080 && x in external && x.port in withheld && NonZero(external)
    requires Reaches([Asks(external, 1), Put(KEY, e)] + [removal], external, map[e.Key() := e], 1, withheld)
    ensures var edits := [Asks(external, 1), Put(KEY, e)];
            var labels := IntoSync(edits, Desired(external, 1), Actual(e), [removal]);
            && AbsentAt(After(edits + [removal]), KEY, x.port)
            && (exists end :: TakesOver(Run(FIRST, labels), end))
            && forall end :: TakesOver(Run(FIRST, labels), end) ==> !AbsentAt(WorldOf(labels + [end]), KEY, x.port)
  {
    hide *;
    var edits := [Asks(external, 1), Put(KEY, e)];
    var labels := IntoSync(edits, Desired(external, 1), Actual(e), [removal]);
    IsAbsent(edits + [removal], external, map[e.Key() := e], 1, withheld, x.port);
    var _ := SyncCanTakeOver(edits, external, 1, e, [removal]);
    forall end | TakesOver(Run(FIRST, labels), end) ensures !AbsentAt(WorldOf(labels + [end]), KEY, x.port) {
      LostInSync(external, e, removal, withheld, x, end);
    }
  }

  /** A removal that arrives during a sync is lost. Handled directly it takes the port away; cached, it leaves the
      new table as it was, and however the sync ends the port is served. */
  lemma RemovalDuringSyncIsLost()
    ensures var edits := [Asks([Port(80), Port(81)], 1), Put(KEY, Backend("host", 1))];
            var removal := Asks([Port(80)], 2);
            var labels := IntoSync(edits, Desired([Port(80), Port(81)], 1), Actual(Backend("host", 1)), [removal]);
            && AbsentAt(After(edits + [removal]), KEY, 81)
            && (exists end :: TakesOver(Run(FIRST, labels), end))
            && forall end :: TakesOver(Run(FIRST, labels), end) ==> !AbsentAt(WorldOf(labels + [end]), KEY, 81)
  {
    Withheld81(2);
    hide After, Asks, Desired, Actual, IntoSync, AbsentAt, TakesOver, Run, WorldOf, Reaches;
    var both, e, removal := [Port(80), Port(81)], Backend("host", 1), Asks([Port(80)], 2);
    assert both[0] == Port(80) && both[1] == Port(81);
    assert [Asks(both, 1), Put(KEY, e)] + [removal] == [Asks(both, 1), Put(KEY, e), removal];
    SyncLoses(both, e, removal, {81}, Port(81));
  }

  // ---------------------------------------------------------------- aliases

  lemma HandledAlone(t: Table, e: Endpoint)
    requires e.containerPort == 8080
    ensures Handle(t, EventFor(Take(KEY, e))).events == ApplyEdit(t, Take(KEY, e)).events
  {
    hide ApplyEdit, ApplyEdits, AddEndpoint, RemoveEndpoint;
    var take := Take(KEY, e);
    OneEndpoint(e);
    NoEdits(t);
    ApplyEditsSnoc(t, [], take);
    assert [] + [take] == [take];
    assert [] + ApplyEdit(t, take).events == ApplyEdit(t, take).events;
  }

  lemma SelectOne(event: Event)
    requires Valid(event) && event.kind == Unregistration
    ensures Select([event], Registration) == [] && Select([event], Unregistration) == [event]
  {
    hide Valid;
    SelectNone();
    SelectNext([event], 0, Registration);
    SelectNext([event], 0, Unregistration);
    hide Select;
    assert [event][..1] == [event] && [event][..0] == [];
  }

  /** The only event of a removal. */
  lemma TakeEvents(t: Table, e: Endpoint)
    requires KEY in t && e.Key() in t[KEY].endpoints && t[KEY].endpoints[e.Key()] == e && e.containerPort == 8080
    requires t[KEY].externalEndpoints != [] && NonZero(t[KEY].externalEndpoints)
    ensures var batch := Handle(t, EventFor(Take(KEY, e))).events;
            var only := t[KEY].(endpoints := map[e.Key() := e]);
            && Select(batch, Registration) == []
            && Select(batch, Unregistration) == [RoutingEvent(Unregistration, KEY, only)]
  {
    HandledAlone(t, e);
    var only := t[KEY].(endpoints := map[e.Key() := e]);
    var event := RoutingEvent(Unregistration, KEY, only);
    hide Select, Handle, EventFor;
    assert Valid(event);
    SelectOne(event);
    assert ApplyEdit(t, Take(KEY, e)).events == [event];
  }

  lemma OneEvent(e: Event, ttl: int)
    ensures Products([e]) == Product(e.key, e.entry) && Requests([e], ttl) == EntryRequests(e.entry, ttl)
    ensures Products([]) == {} && Requests([], ttl) == {}
  {
    hide Product, EntryRequests;
    assert [e][..0] == [];
  }

  lemma TakeDelivered(t: Table, e: Endpoint, raw: set<TcpRouteMapping>, ttl: int)
    requires KEY in t && e.Key() in t[KEY].endpoints && t[KEY].endpoints[e.Key()] == e && e.containerPort == 8080
    requires t[KEY].externalEndpoints != [] && NonZero(t[KEY].externalEndpoints)
    ensures var only := t[KEY].(endpoints := map[e.Key() := e]);
            RawDeliver(raw, Handle(t, EventFor(Take(KEY, e))).events, ttl) == raw - EntryRequests(only, ttl)
  {
    TakeEvents(t, e);
    var only := t[KEY].(endpoints := map[e.Key() := e]);
    OneEvent(RoutingEvent(Unregistration, KEY, only), ttl);
    hide Product, EntryRequests, Handle, EventFor, Select, Products, Requests, NonZero;
  }

  lemma Aliases(edits: seq<Edit>, external: ExternalEndpoints, endpoints: Backends,
                x: ExternalEndpointInfo, e: Endpoint, twin: Endpoint, ttl: int)
    requires Reaches(edits, external, endpoints, 1, {}) && x in external && NonZero(external)
    requires e.Key() != twin.Key() && e.Key() in endpoints && twin.Key() in endpoints && e.containerPort == 8080
    requires endpoints[e.Key()] == e && endpoints[twin.Key()] == twin && e.host == twin.host && e.port == twin.port
    ensures var w, after := After(edits), After(edits + [Take(KEY, e)]);
            var batch := Handle(w.table, EventFor(Take(KEY, e))).events;
            var m := Mapping(KEY, x, twin.Key(), twin.host, twin.port);
            && AgreesAt(after, KEY) && m in after.downstream
            && Raw(m, ttl) in RawSet(w.downstream, ttl)
            && Raw(m, ttl) !in RawDeliver(RawSet(w.downstream, ttl), batch, ttl)
  {
    var w, take := After(edits), Take(KEY, e);
    var m := Mapping(KEY, x, twin.Key(), twin.host, twin.port);
    IsServed(edits, external, endpoints, 1, x, twin.Key());
    TakeDelivered(w.table, e, RawSet(w.downstream, ttl), ttl);
    TwinStays(edits, external, endpoints, x, e, twin);
    hide After, AgreesAt, RawDeliver, Handle, EventFor, NonZero;
    var only := w.table[KEY].(endpoints := map[e.Key() := e]);
    assert Raw(m, ttl) == Request(x, only.endpoints[e.Key()], ttl);
    assert Raw(m, ttl) in EntryRequests(only, ttl);
  }

  lemma TwinStays(edits: seq<Edit>, external: ExternalEndpoints, endpoints: Backends,
                  x: ExternalEndpointInfo, e: Endpoint, twin: Endpoint)
    requires Reaches(edits, external, endpoints, 1, {}) && x in external && NonZero(external)
    requires e.Key() != twin.Key() && e.Key() in endpoints && twin.Key() in endpoints && e.containerPort == 8080
    requires endpoints[e.Key()] == e && endpoints[twin.Key()] == twin
    ensures AgreesAt(After(edits + [Take(KEY, e)]), KEY)
    ensures Mapping(KEY, x, twin.Key(), twin.host, twin.port) in After(edits + [Take(KEY, e)]).downstream
  {
    var w, take := After(edits), Take(KEY, e);
    var m := Mapping(KEY, x, twin.Key(), twin.host, twin.port);
    IsServed(edits, external, endpoints, 1, x, twin.Key());
    AgreementKeptIff(w, take);
    StepEffect(w, take);
    AfterSnoc(edits, take);
    SameAtAgreesAt(After(edits + [take]), Step(w, take), KEY);
    hide After, AgreesAt, Step, NonZero;
    assert m in Effect(w, take);
  }

  /** An instance and its evacuating twin share an address. Removing one of them keeps the keyed sets in agreement,
      and takes the only request of the other away from the API. */
  lemma EvacuationAliases(ttl: int)
    ensures var e := Backend("host", 1);
            var edits := [Asks([Port(80)], 1), Put(KEY, e), Put(KEY, e.(evacuating := true))];
            var w, after := After(edits), After(edits + [Take(KEY, e)]);
            var batch := Handle(w.table, EventFor(Take(KEY, e))).events;
            var m := Mapping(KEY, Port(80), EndpointKey("instance", true), "host", 5222);
            && AgreesAt(after, KEY) && m in after.downstream
            && Raw(m, ttl) in RawSet(w.downstream, ttl)
            && Raw(m, ttl) !in RawDeliver(RawSet(w.downstream, ttl), batch, ttl)
  {
    hide After, Asks, Reaches, AgreesAt, Handle, RawDeliver, EventFor;
    var e := Backend("host", 1);
    var twin := e.(evacuating := true);
    Serving([Port(80)], e);
    PutReaches([Asks([Port(80)], 1), Put(KEY, e)], [Port(80)], map[INSTANCE := e], 1, {}, twin);
    var edits := [Asks([Port(80)], 1), Put(KEY, e), Put(KEY, twin)];
    assert [Asks([Port(80)], 1), Put(KEY, e)] + [Put(KEY, twin)] == edits;
    Aliases(edits, [Port(80)], map[INSTANCE := e][twin.Key() := twin], Port(80), e, twin, ttl);
  }
}
