/**
 The events of a swap as a delta: whatever the iteration orders, they install the new table
 downstream, and what they leave behind is known exactly.
 */
module SwapDelta {
  import opened Endpoints
  import opened Events
  import opened TableSpec
  import opened Sequences
  import opened Downstream
  import opened Agreement
  import opened Operations
  import opened OperationAgreement

  lemma {:induction false} RegisterAllEvent(before: Table, after: Table, order: seq<RoutingKey>, e: Event)
    requires forall k :: k in order ==> k in after
    ensures e in RegisterAll(before, after, order) <==> e.key in order && e in SwapAt(before, e.key, after[e.key])
  {
    hide Subtract;
    if order != [] {
      RegisterAllEvent(before, after, order[..|order| - 1], e);
      assert order == order[..|order| - 1] + [order[|order| - 1]];
    }
  }

  lemma {:induction false} UnregisterMissingEvent(before: Table, after: Table, order: seq<RoutingKey>, e: Event)
    requires forall k :: k in order ==> k in before
    ensures e in UnregisterMissing(before, after, order) <==>
              e.key in order && e.key !in after && e in CreateEvent(Unregistration, e.key, before[e.key])
  {
    if order != [] {
      UnregisterMissingEvent(before, after, order[..|order| - 1], e);
      assert order == order[..|order| - 1] + [order[|order| - 1]];
    }
  }

  /** The events of a swap at one key; the orders only affect their position. */
  function SwapEventsAt(before: Table, after: Table, key: RoutingKey): seq<Event> {
    if key in after then SwapAt(before, key, after[key])
    else if key in before then CreateEvent(Unregistration, key, before[key])
    else []
  }

  lemma SwapEvent(before: Table, after: Table, events: seq<Event>, e: Event)
    requires IsSwap(before, after, events)
    ensures e in events <==> e in SwapEventsAt(before, after, e.key)
  {
    hide RegisterAll, UnregisterMissing;
    var newOrder, oldOrder :|
      && Enumerates(newOrder, after) && Enumerates(oldOrder, before)
      && events == SwapEvents(before, after, newOrder, oldOrder);
    RegisterAllEvent(before, after, newOrder, e);
    UnregisterMissingEvent(before, after, oldOrder, e);
  }

  lemma MultisetOfConcat<T>(a: seq<T>, b: seq<T>, x: T)
    ensures multiset(a + b)[x] == multiset(a)[x] + multiset(b)[x]
  {
  }

  /** In a list without repetition, the last element does not occur before. */
  lemma InLast<T>(s: seq<T>, x: T)
    requires s != [] && forall i, j :: 0 <= i < j < |s| ==> s[i] != s[j]
    ensures x in s <==> x in s[..|s| - 1] || x == s[|s| - 1]
    ensures s[|s| - 1] !in s[..|s| - 1]
  {
    InSnoc(s[..|s| - 1], s[|s| - 1], x);
    assert s == s[..|s| - 1] + [s[|s| - 1]];
  }

  lemma {:induction false} RegisterAllCount(before: Table, after: Table, order: seq<RoutingKey>, e: Event)
    requires forall k :: k in order ==> k in after
    requires forall i, j :: 0 <= i < j < |order| ==> order[i] != order[j]
    ensures multiset(RegisterAll(before, after, order))[e]
         == if e.key in order then multiset(SwapAt(before, e.key, after[e.key]))[e] else 0
  {
    if order != [] {
      var n := |order| - 1;
      var prefix, key := order[..n], order[n];
      RegisterAllCount(before, after, prefix, e);
      InLast(order, e.key);
      SwapAtKey(before, key, after[key]);
      hide SwapAt;
      MultisetOfConcat(RegisterAll(before, after, prefix), SwapAt(before, key, after[key]), e);
      if e.key != key {
        EventsAtOtherKey(SwapAt(before, key, after[key]), key, e);
      }
    }
  }

  lemma SwapAtKey(before: Table, key: RoutingKey, entry: Entry)
    ensures forall e :: e in SwapAt(before, key, entry) ==> e.key == key
  {
  }

  lemma UnregisterAtKey(before: Table, after: Table, key: RoutingKey)
    requires key in before
    ensures forall e :: e in UnregisterAt(before, after, key) ==> e.key == key
  {
  }

  lemma EventsAtOtherKey(events: seq<Event>, key: RoutingKey, e: Event)
    requires (forall f :: f in events ==> f.key == key) && e.key != key
    ensures multiset(events)[e] == 0
  {
    assert e !in events;
  }

  lemma {:induction false} UnregisterMissingCount(before: Table, after: Table, order: seq<RoutingKey>, e: Event)
    requires forall k :: k in order ==> k in before
    requires forall i, j :: 0 <= i < j < |order| ==> order[i] != order[j]
    ensures multiset(UnregisterMissing(before, after, order))[e]
         == if e.key in order then multiset(UnregisterAt(before, after, e.key))[e] else 0
  {
    if order != [] {
      var n := |order| - 1;
      var prefix, key := order[..n], order[n];
      UnregisterMissingCount(before, after, prefix, e);
      InLast(order, e.key);
      UnregisterAtKey(before, after, key);
      hide UnregisterAt;
      MultisetOfConcat(UnregisterMissing(before, after, prefix), UnregisterAt(before, after, key), e);
      if e.key != key {
        EventsAtOtherKey(UnregisterAt(before, after, key), key, e);
      }
    }
  }

  lemma SwapEventCount(before: Table, after: Table, events: seq<Event>, e: Event)
    requires IsSwap(before, after, events)
    ensures multiset(events)[e] == multiset(SwapEventsAt(before, after, e.key))[e]
  {
    hide RegisterAll, UnregisterMissing, CreateEvent;
    var newOrder, oldOrder :|
      && Enumerates(newOrder, after) && Enumerates(oldOrder, before)
      && events == SwapEvents(before, after, newOrder, oldOrder);
    RegisterAllCount(before, after, newOrder, e);
    UnregisterMissingCount(before, after, oldOrder, e);
    MultisetOfConcat(RegisterAll(before, after, newOrder), UnregisterMissing(before, after, oldOrder), e);
  }

  /** Any two iteration orders give the same events, each as often, in other positions. */
  lemma SwapOrderDoesNotMatter(before: Table, after: Table, a: seq<Event>, b: seq<Event>)
    requires IsSwap(before, after, a) && IsSwap(before, after, b)
    ensures multiset(a) == multiset(b)
  {
    hide IsSwap;
    forall e: Event ensures multiset(a)[e] == multiset(b)[e] {
      SwapEventCount(before, after, a, e);
      SwapEventCount(before, after, b, e);
    }
  }

  lemma SwapIsFaithful(before: Table, after: Table, events: seq<Event>, e: Event)
    requires IsSwap(before, after, events) && e in events
    ensures Faithful(e, before, after)
  {
    SwapEvent(before, after, events, e);
    hide IsSwap, Product, CreateEvent, Subtract;
    forall kind, key, entry ensures e in CreateEvent(kind, key, entry) ==> e == RoutingEvent(kind, key, entry) {
      CreatedEvent(kind, key, entry);
    }
  }

  /** A swap never registers and unregisters the same mapping, so its batch too may be reordered. */
  lemma SwapReorders(before: Table, after: Table, events: seq<Event>, d: set<Mapping>)
    requires IsSwap(before, after, events)
    ensures Disjoint(events) && Deliver(d, events) == Replay(d, events)
  {
    hide IsSwap, Deliver, Replay, SwapEventsAt, Exposes;
    forall i, j, m | 0 <= i < |events| && events[i].kind == Registration && Exposes(events[i].key, events[i].entry, m)
                  && 0 <= j < |events| && events[j].kind == Unregistration
      ensures !Exposes(events[j].key, events[j].entry, m)
    {
      SwapEvent(before, after, events, events[i]);
      SwapEvent(before, after, events, events[j]);
      SwapSeparatesKinds(before, after, events[i], events[j], m);
    }
    ReorderingPreservesMeaning(d, events);
  }

  lemma SwapSeparatesKinds(before: Table, after: Table, e: Event, f: Event, m: Mapping)
    requires e in SwapEventsAt(before, after, e.key) && f in SwapEventsAt(before, after, f.key)
    requires e.kind == Registration && f.kind == Unregistration && Exposes(e.key, e.entry, m)
    ensures !Exposes(f.key, f.entry, m)
  {
  }

  /** What a swap registers downstream: the entry at the mapping's key exposes it and has no zero port. */
  predicate Registered(after: Table, m: Mapping) {
    m.key in after && m in Sent(m.key, after[m.key])
  }

  /** The external endpoints of the old entry whose port the new entry lacks. */
  function GoneAt(before: Table, after: Table, k: RoutingKey): ExternalEndpoints
    requires k in before
  {
    if k in after then Subtract(before[k].externalEndpoints, after[k].externalEndpoints)
    else before[k].externalEndpoints
  }

  /** What a swap takes away: the key or the port is gone, and nothing that goes with it has a zero port. */
  predicate Dropped(before: Table, after: Table, m: Mapping) {
    && m.key in before
    && m in Sent(m.key, before[m.key].(externalEndpoints := GoneAt(before, after, m.key)))
  }

  lemma CreatedSent(kind: EventKind, key: RoutingKey, entry: Entry, m: Mapping)
    ensures (exists e :: e in CreateEvent(kind, key, entry) && Valid(e) && Exposes(e.key, e.entry, m))
        <==> m in Sent(key, entry)
  {
    if m in Sent(key, entry) {
      var e := RoutingEvent(kind, key, entry);
      assert entry.endpoints != map[];
      assert e in CreateEvent(kind, key, entry) && Valid(e);
    }
    if e :| e in CreateEvent(kind, key, entry) && Valid(e) && Exposes(e.key, e.entry, m) {
      assert e.entry == entry;
      forall x | x in entry.externalEndpoints ensures x.port != 0 {
        var i :| 0 <= i < |entry.externalEndpoints| && entry.externalEndpoints[i] == x;
      }
    }
  }

  lemma SwapRegisters(before: Table, after: Table, m: Mapping)
    ensures (exists e ::
               && e in SwapEventsAt(before, after, m.key) && e.kind == Registration
               && Valid(e) && Exposes(e.key, e.entry, m))
        <==> Registered(after, m)
  {
    hide Subtract, Valid, Exposes, Sent;
    if m.key in after {
      CreatedSent(Registration, m.key, after[m.key], m);
      assert forall e :: e in SwapEventsAt(before, after, m.key) && e.kind == Registration <==>
               e in CreateEvent(Registration, m.key, after[m.key]);
    }
  }

  lemma SwapUnregisters(before: Table, after: Table, m: Mapping)
    ensures (exists e ::
               && e in SwapEventsAt(before, after, m.key) && e.kind == Unregistration
               && Valid(e) && Exposes(e.key, e.entry, m))
        <==> Dropped(before, after, m)
  {
    hide Valid, Exposes, Sent, Subtract;
    if m.key in before {
      var gone := before[m.key].(externalEndpoints := GoneAt(before, after, m.key));
      CreatedSent(Unregistration, m.key, gone, m);
      assert gone == before[m.key] || m.key in after;
      assert forall e :: e in SwapEventsAt(before, after, m.key) && e.kind == Unregistration <==>
               e in CreateEvent(Unregistration, m.key, gone);
    } else if m.key in after {
      NothingToUnregister(before, after, m.key);
    }
  }

  lemma NothingToUnregister(before: Table, after: Table, key: RoutingKey)
    requires key !in before
    ensures forall e :: e in SwapEventsAt(before, after, key) ==> e.kind == Registration
  {
  }

  lemma {:induction false} ProductsAre(events: seq<Event>, m: Mapping)
    ensures m in Products(events) <==> exists e :: e in events && Exposes(e.key, e.entry, m)
  {
    if events != [] {
      hide Exposes;
      ProductsAre(events[..|events| - 1], m);
      assert events == events[..|events| - 1] + [events[|events| - 1]];
    }
  }

  lemma SelectedProducts(before: Table, after: Table, events: seq<Event>, kind: EventKind, m: Mapping)
    requires IsSwap(before, after, events)
    ensures m in Products(Select(events, kind)) <==>
              exists e ::
                && e in SwapEventsAt(before, after, m.key) && e.kind == kind
                && Valid(e) && Exposes(e.key, e.entry, m)
  {
    hide Valid, IsSwap, SwapEventsAt, Products, Select;
    ProductsAre(Select(events, kind), m);
    forall e: Event | e.key == m.key
      ensures e in Select(events, kind) <==> e in SwapEventsAt(before, after, m.key) && e.kind == kind && Valid(e)
    {
      SwapEvent(before, after, events, e);
    }
    if e :| e in SwapEventsAt(before, after, m.key) && e.kind == kind && Valid(e) && Exposes(e.key, e.entry, m) {
      assert e.key == m.key;
      assert e in Select(events, kind);
    }
  }

  /** Downstream after a swap, from any downstream state, for any tables and any iteration orders. */
  lemma SwapEffect(before: Table, after: Table, events: seq<Event>, d: set<Mapping>, m: Mapping)
    requires IsSwap(before, after, events)
    ensures m in Deliver(d, events) <==> Registered(after, m) || (m in d && !Dropped(before, after, m))
  {
    hide IsSwap, SwapEventsAt, Products, Select, Registered, Dropped, Valid, Exposes;
    SelectedProducts(before, after, events, Registration, m);
    SelectedProducts(before, after, events, Unregistration, m);
    SwapRegisters(before, after, m);
    SwapUnregisters(before, after, m);
    hide *;
    NeverBoth(before, after, m);
  }

  lemma NeverBoth(before: Table, after: Table, m: Mapping)
    ensures !(Registered(after, m) && Dropped(before, after, m))
  {
  }

  /** The world after a swap: the new table, nothing withheld, and the batch delivered. */
  function Swapped(after: Table, d: set<Mapping>, events: seq<Event>): World {
    World(after, {}, Deliver(d, events))
  }

  lemma NoZeroMappedSwap(before: Table, after: Table, events: seq<Event>, d: set<Mapping>)
    requires IsSwap(before, after, events) && NoZeroMapped(d)
    ensures NoZeroMapped(Deliver(d, events))
  {
    hide IsSwap, Deliver, Dropped;
    forall m | m in Deliver(d, events) ensures m.external.port != 0 {
      SwapEffect(before, after, events, d, m);
    }
  }

  /** From any downstream state, a swap covers every key whose new entry has no zero port. */
  lemma SwapHeals(before: Table, after: Table, events: seq<Event>, d: set<Mapping>, k: RoutingKey)
    requires IsSwap(before, after, events) && NonZero(Lookup(after, k).externalEndpoints)
    ensures CoversAt(Swapped(after, d, events), k)
  {
    hide IsSwap, Deliver, Dropped;
    forall m: Mapping | m.key == k && Live(after, {}, m) ensures m in Deliver(d, events) {
      SwapEffect(before, after, events, d, m);
    }
  }

  /** Where no zero port is mapped yet, a swap covers a key exactly when the new entry there has no zero port
      or no backend. */
  lemma SwapHealsIff(before: Table, after: Table, events: seq<Event>, d: set<Mapping>, k: RoutingKey)
    requires IsSwap(before, after, events) && NoZeroMapped(d)
    ensures CoversAt(Swapped(after, d, events), k) <==>
              NonZero(Lookup(after, k).externalEndpoints) || Lookup(after, k).endpoints == map[]
  {
    hide IsSwap, Deliver;
    var entry := Lookup(after, k);
    if NonZero(entry.externalEndpoints) {
      SwapHeals(before, after, events, d, k);
    } else if entry.endpoints != map[] {
      NoZeroMappedSwap(before, after, events, d);
      var x :| x in entry.externalEndpoints && x.port == 0;
      var b :| b in entry.endpoints;
      assert Live(after, {}, MappingOf(k, x, entry, b));
    }
  }

  // ---------------------------------------------------------------- from any remote set

  /** An event of a swap is dropped exactly when its entry has a zero port. */
  lemma SwapEventIsDroppedIff(before: Table, after: Table, events: seq<Event>, e: Event)
    requires IsSwap(before, after, events) && e in events
    ensures Valid(e) <==> NonZero(e.entry.externalEndpoints)
  {
    SwapEvent(before, after, events, e);
    hide IsSwap, CreateEvent, Valid, NonZero, Subtract;
    forall kind, key, entry
      ensures e in CreateEvent(kind, key, entry) ==> (Valid(e) <==> NonZero(e.entry.externalEndpoints))
    {
      CreatedAreValid(kind, key, entry);
    }
  }

  /** Without a zero port in either entry at its key, an event of a swap is not dropped. */
  lemma NoSwapEventIsDropped(before: Table, after: Table, events: seq<Event>, e: Event)
    requires IsSwap(before, after, events) && e in events
    requires NonZero(Lookup(before, e.key).externalEndpoints) && NonZero(Lookup(after, e.key).externalEndpoints)
    ensures Valid(e)
  {
    SwapEventIsDroppedIff(before, after, events, e);
    SwapEvent(before, after, events, e);
    hide IsSwap, CreateEvent, Valid;
    forall kind, key, entry ensures e in CreateEvent(kind, key, entry) ==> e.entry == entry {
      CreatedEvent(kind, key, entry);
    }
  }

  /** Whatever was lost before: a key agrees after a swap exactly when everything there beyond the new table is
      dropped, and what a zero port silences is there already. */
  lemma SwapRegainsIff(before: Table, after: Table, events: seq<Event>, d: set<Mapping>, k: RoutingKey)
    requires IsSwap(before, after, events)
    ensures AgreesAt(Swapped(after, d, events), k) <==>
              && (forall m: Mapping :: m.key == k && m in d && !Live(after, {}, m) ==> Dropped(before, after, m))
              && (NonZero(Lookup(after, k).externalEndpoints) ||
                  forall m: Mapping :: m.key == k && Live(after, {}, m) ==> m in d)
  {
    hide IsSwap, Deliver;
    forall m: Mapping | m.key == k
      ensures (m in Deliver(d, events) <==> Live(after, {}, m)) <==>
                if Live(after, {}, m) then NonZero(Lookup(after, k).externalEndpoints) || m in d
                else m in d ==> Dropped(before, after, m)
    {
      SwapEffect(before, after, events, d, m);
    }
  }

  /** The new table brings the port to the key. */
  predicate SwapRestores(after: Table, k: RoutingKey, p: uint32) {
    var entry := Lookup(after, k);
    p in Ports(entry.externalEndpoints) && NonZero(entry.externalEndpoints) && entry.endpoints != map[]
  }

  /** A port absent at a key stays absent through a swap exactly when the new table does not bring it. */
  lemma SwapRestoresIff(before: Table, after: Table, events: seq<Event>, w: World, k: RoutingKey, p: uint32)
    requires IsSwap(before, after, events) && AbsentAt(w, k, p)
    ensures AbsentAt(Swapped(after, w.downstream, events), k, p) <==> !SwapRestores(after, k, p)
  {
    hide IsSwap, Deliver, Dropped;
    var entry := Lookup(after, k);
    if SwapRestores(after, k, p) {
      var x :| x in entry.externalEndpoints && x.port == p;
      var b :| b in entry.endpoints;
      var m := MappingOf(k, x, entry, b);
      SwapEffect(before, after, events, w.downstream, m);
    } else {
      forall m: Mapping | m.key == k && m.external.port == p ensures m !in Deliver(w.downstream, events) {
        SwapEffect(before, after, events, w.downstream, m);
      }
    }
  }

  // ---------------------------------------------------------------- from agreement

  /** Mappings that a swap leaves beyond the new table: pairs that were live, are not asked for any more, and
      whose port survives or is silenced by a zero port. */
  predicate SwapLeaves(before: Table, withheld: Withheld, after: Table, m: Mapping) {
    Live(before, withheld, m) && !Dropped(before, after, m) && !Live(after, {}, m)
  }

  /** Mappings of the new table that do not appear: silenced by a zero port, and not there before. */
  predicate SwapMisses(before: Table, withheld: Withheld, after: Table, m: Mapping) {
    Live(after, {}, m) && !NonZero(after[m.key].externalEndpoints) && !Live(before, withheld, m)
  }

  /** From agreement at a key, what is there after the swap is the new table less what it misses, with what it
      leaves. */
  lemma SwapLeavesResidue(w: World, after: Table, events: seq<Event>, m: Mapping)
    requires IsSwap(w.table, after, events) && AgreesAt(w, m.key)
    ensures m in Deliver(w.downstream, events) <==>
              || SwapLeaves(w.table, w.withheld, after, m)
              || (Live(after, {}, m) && !SwapMisses(w.table, w.withheld, after, m))
  {
    SwapEffect(w.table, after, events, w.downstream, m);
    hide IsSwap, Deliver, Product;
  }

  predicate SameBackend(entry: Entry, other: Entry, b: EndpointKey) {
    && b in entry.endpoints && b in other.endpoints
    && entry.endpoints[b].host == other.endpoints[b].host
    && entry.endpoints[b].port == other.endpoints[b].port
  }

  /** A live pair of the old table either survives as it is or can be taken away. */
  predicate KeepsPair(w: World, after: Table, k: RoutingKey, x: ExternalEndpointInfo, b: EndpointKey) {
    var old', new' := Lookup(w.table, k), Lookup(after, k);
    if k in after && x.port in Ports(new'.externalEndpoints)
    then x in new'.externalEndpoints && SameBackend(old', new', b)
    else k in w.table && NonZero(GoneAt(w.table, after, k))
  }

  /** What can be checked on the two entries of a key before a swap: a live port that survives keeps its router
      group and its backends their addresses; what goes is not silenced by a zero port; and a new entry with a
      zero port asks for nothing that is not there. */
  predicate SwapKeepsInStep(w: World, after: Table, k: RoutingKey) {
    var old', new' := Lookup(w.table, k), Lookup(after, k);
    && (forall x, b :: x in LiveExternals(w, k) && b in old'.endpoints ==> KeepsPair(w, after, k, x, b))
    && (!NonZero(new'.externalEndpoints) ==>
          forall x, b :: x in new'.externalEndpoints && b in new'.endpoints ==>
            x in LiveExternals(w, k) && SameBackend(old', new', b))
  }

  lemma SwapKeepsMapping(w: World, after: Table, m: Mapping)
    requires SwapKeepsInStep(w, after, m.key)
    ensures !SwapLeaves(w.table, w.withheld, after, m) && !SwapMisses(w.table, w.withheld, after, m)
  {
    var old', new' := Lookup(w.table, m.key), Lookup(after, m.key);
    if Live(w.table, w.withheld, m) {
      assert m.external in LiveExternals(w, m.key) && m.endpointKey in old'.endpoints;
    }
    if Live(after, {}, m) && !NonZero(new'.externalEndpoints) {
      assert m.external in new'.externalEndpoints && m.endpointKey in new'.endpoints;
    }
  }

  lemma SwapResidueWitness(w: World, after: Table, k: RoutingKey) returns (m: Mapping)
    requires !SwapKeepsInStep(w, after, k)
    ensures m.key == k && (SwapLeaves(w.table, w.withheld, after, m) || SwapMisses(w.table, w.withheld, after, m))
  {
    var old', new' := Lookup(w.table, k), Lookup(after, k);
    if !(forall x, b :: x in LiveExternals(w, k) && b in old'.endpoints ==> KeepsPair(w, after, k, x, b)) {
      var x, b :| x in LiveExternals(w, k) && b in old'.endpoints && !KeepsPair(w, after, k, x, b);
      m := MappingOf(k, x, old', b);
      assert Live(w.table, w.withheld, m);
    } else {
      var x, b :| x in new'.externalEndpoints && b in new'.endpoints
               && !(x in LiveExternals(w, k) && SameBackend(old', new', b));
      m := MappingOf(k, x, new', b);
      assert Live(after, {}, m);
    }
  }

  /** A swap keeps a key in agreement exactly under that condition, whatever the other keys hold. */
  lemma SwapAgreesIff(w: World, after: Table, events: seq<Event>, k: RoutingKey)
    requires IsSwap(w.table, after, events) && AgreesAt(w, k)
    ensures AgreesAt(Swapped(after, w.downstream, events), k) <==> SwapKeepsInStep(w, after, k)
  {
    hide IsSwap, Deliver, SwapKeepsInStep;
    forall m: Mapping | m.key == k
      ensures m in Deliver(w.downstream, events) <==>
                || SwapLeaves(w.table, w.withheld, after, m)
                || (Live(after, {}, m) && !SwapMisses(w.table, w.withheld, after, m))
    {
      SwapLeavesResidue(w, after, events, m);
    }
    if SwapKeepsInStep(w, after, k) {
      forall m: Mapping | m.key == k
        ensures !SwapLeaves(w.table, w.withheld, after, m) && !SwapMisses(w.table, w.withheld, after, m)
      {
        SwapKeepsMapping(w, after, m);
      }
    } else {
      var m := SwapResidueWitness(w, after, k);
    }
  }
}
