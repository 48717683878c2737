/**
 Routing events and the mapping requests made from them. An event carries an entry, either as
 the program holds it (`HeapEvent`) or as a value (`Event`).
 */
module Events {
  import opened Endpoints
  import opened Sequences

  datatype EventKind = Registration | Unregistration

  datatype RoutingEvent<E> = RoutingEvent(kind: EventKind, key: RoutingKey, entry: E)

  type Event = RoutingEvent<Entry>

  type HeapEvent = RoutingEvent<HeapEntry>

  function EventView(e: HeapEvent): Event
    reads e.entry.endpoints
  {
    RoutingEvent(e.kind, e.key, View(e.entry))
  }

  function EventViews(events: seq<HeapEvent>): (values: seq<Event>)
    reads set e | e in events :: e.entry.endpoints
    ensures |values| == |events| && (events == [] ==> values == [])
    ensures forall i :: 0 <= i < |events| ==> values[i] == EventView(events[i])
  {
    if events == [] then []
    else EventViews(events[..|events| - 1]) + [EventView(events[|events| - 1])]
  }

  lemma EventViewsAppend(a: seq<HeapEvent>, b: seq<HeapEvent>)
    ensures EventViews(a + b) == EventViews(a) + EventViews(b)
  {
    hide EventViews;
  }

  lemma EventViewsSnoc(events: seq<HeapEvent>, last: HeapEvent)
    ensures EventViews(events + [last]) == EventViews(events) + [EventView(last)]
  {
    hide EventViews, EventView;
    EventViewsAppend(events, [last]);
    assert EventViews([last]) == [EventView(last)];
  }

  /** An event with a zero external port, or with nothing to map, is dropped whole. */
  predicate Valid(e: Event) {
    && |e.entry.endpoints| != 0
    && |e.entry.externalEndpoints| != 0
    && forall i :: 0 <= i < |e.entry.externalEndpoints| ==> e.entry.externalEndpoints[i].port != 0
  }

  /** The valid events of one kind, in order. */
  function Select(events: seq<Event>, kind: EventKind): (selected: seq<Event>)
    ensures forall e :: e in selected <==> e in events && e.kind == kind && Valid(e)
  {
    if events == [] then []
    else
      var last := events[|events| - 1];
      Select(events[..|events| - 1], kind) + if Valid(last) && last.kind == kind then [last] else []
  }

  lemma SelectNone()
    ensures Select([], Registration) == [] && Select([], Unregistration) == []
  {
  }

  lemma SelectNext(events: seq<Event>, i: nat, kind: EventKind)
    requires i < |events|
    ensures Select(events[..i + 1], kind)
         == Select(events[..i], kind) + if Valid(events[i]) && events[i].kind == kind then [events[i]] else []
  {
    hide Valid;
    assert events[..i + 1][..i] == events[..i];
  }

  // ---------------------------------------------------------------- mapping requests

  type uint16 = x: int | 0 <= x < 0x1_0000

  datatype TcpRouteMapping = TcpRouteMapping(
    routerGroupGuid: string,
    externalPort: uint16,
    hostIp: string,
    hostPort: uint16,
    ttl: int)

  /** Ports are 32 bits wide in the table and 16 bits wide in a request; the high bits are lost. */
  function Truncate(port: uint32): uint16 {
    port % 0x1_0000
  }

  function Request(x: ExternalEndpointInfo, e: Endpoint, ttl: int): TcpRouteMapping {
    TcpRouteMapping(x.routerGroupGuid, Truncate(x.port), e.host, Truncate(e.port), ttl)
  }

  /** One request per backend of one external endpoint. */
  function BackendRequests(x: ExternalEndpointInfo, endpoints: Backends, ttl: int): set<TcpRouteMapping> {
    set k | k in endpoints :: Request(x, endpoints[k], ttl)
  }

  /** One request per external endpoint and backend. */
  function EntryRequests(entry: Entry, ttl: int): set<TcpRouteMapping> {
    set x, k | x in entry.externalEndpoints && k in entry.endpoints :: Request(x, entry.endpoints[k], ttl)
  }

  lemma EntryRequestsSnoc(entry: Entry, external: ExternalEndpoints, x: ExternalEndpointInfo, ttl: int)
    ensures EntryRequests(entry.(externalEndpoints := external + [x]), ttl)
         == EntryRequests(entry.(externalEndpoints := external), ttl) + BackendRequests(x, entry.endpoints, ttl)
  {
    hide Request;
    var all := EntryRequests(entry.(externalEndpoints := external + [x]), ttl);
    var last := BackendRequests(x, entry.endpoints, ttl);
    forall r | r in all ensures r in EntryRequests(entry.(externalEndpoints := external), ttl) + last {
      var y, k :| y in external + [x] && k in entry.endpoints && r == Request(y, entry.endpoints[k], ttl);
      if y != x {
        assert y in external;
      }
    }
    assert x in external + [x] && forall y :: y in external ==> y in external + [x];
  }

  function Requests(events: seq<Event>, ttl: int): (requests: set<TcpRouteMapping>)
    ensures forall r :: r in requests <==> exists e :: e in events && r in EntryRequests(e.entry, ttl)
  {
    if events == [] then {}
    else Requests(events[..|events| - 1], ttl) + EntryRequests(events[|events| - 1].entry, ttl)
  }

  /** The number of (external endpoint, backend) pairs over all events. */
  function PairCount(events: seq<Event>): nat {
    if events == [] then 0
    else
      var last := events[|events| - 1].entry;
      PairCount(events[..|events| - 1]) + |last.externalEndpoints| * |last.endpoints|
  }

  /** One request per backend of an external endpoint, in some iteration order. */
  ghost predicate ListsBackends(part: seq<TcpRouteMapping>, x: ExternalEndpointInfo, endpoints: Backends, ttl: int) {
    exists order: seq<EndpointKey> :: Lists(part, x, endpoints, ttl, order)
  }

  ghost predicate Lists(part: seq<TcpRouteMapping>, x: ExternalEndpointInfo, endpoints: Backends, ttl: int,
                        order: seq<EndpointKey>)
  {
    && |order| == |part|
    && (forall k :: k in order <==> k in endpoints)
    && (forall i, j :: 0 <= i < j < |order| ==> order[i] != order[j])
    && forall i :: 0 <= i < |order| ==> order[i] in endpoints && part[i] == Request(x, endpoints[order[i]], ttl)
  }

  /** The requests of an entry: external endpoint after external endpoint, each in an order of its own. */
  ghost predicate ListsEntry(block: seq<TcpRouteMapping>, entry: Entry, ttl: int) {
    exists parts: seq<seq<TcpRouteMapping>> :: AreParts(block, entry, ttl, parts)
  }

  ghost predicate AreParts(block: seq<TcpRouteMapping>, entry: Entry, ttl: int, parts: seq<seq<TcpRouteMapping>>) {
    && block == Flatten(parts) && |parts| == |entry.externalEndpoints|
    && forall j :: 0 <= j < |parts| ==> ListsBackends(parts[j], entry.externalEndpoints[j], entry.endpoints, ttl)
  }

  /** The requests of a list of events: event after event. With the two predicates above this leaves nothing
      open but the iteration order of each endpoint map. */
  ghost predicate ListsEvents(requests: seq<TcpRouteMapping>, events: seq<Event>, ttl: int) {
    exists blocks: seq<seq<TcpRouteMapping>> :: AreBlocks(requests, events, ttl, blocks)
  }

  ghost predicate AreBlocks(requests: seq<TcpRouteMapping>, events: seq<Event>, ttl: int,
                            blocks: seq<seq<TcpRouteMapping>>)
  {
    && requests == Flatten(blocks) && |blocks| == |events|
    && forall i :: 0 <= i < |blocks| ==> ListsEntry(blocks[i], events[i].entry, ttl)
  }

  /** The inner loop: one request per backend, in any order. */
  method MapExternalEndpoint(x: ExternalEndpointInfo, endpoints: Backends, ttl: int)
    returns (requests: seq<TcpRouteMapping>)
    ensures ListsBackends(requests, x, endpoints, ttl)
    ensures Elements(requests) == BackendRequests(x, endpoints, ttl)
    ensures |requests| == |endpoints|
  {
    hide Request;
    requests := [];
    ghost var order: seq<EndpointKey> := [];
    var rest := endpoints.Keys;
    while rest != {}
      invariant rest <= endpoints.Keys
      invariant |requests| + |rest| == |endpoints|
      invariant |order| == |requests| && (forall k :: k in order <==> k in endpoints && k !in rest)
      invariant forall i, j :: 0 <= i < j < |order| ==> order[i] != order[j]
      invariant forall i :: 0 <= i < |order| ==> requests[i] == Request(x, endpoints[order[i]], ttl)
    {
      var k :| k in rest;
      rest := rest - {k};
      requests := requests + [Request(x, endpoints[k], ttl)];
      order := order + [k];
    }
    ListedElements(requests, x, endpoints, ttl, order);
  }

  lemma ListedElements(part: seq<TcpRouteMapping>, x: ExternalEndpointInfo, endpoints: Backends, ttl: int,
                       order: seq<EndpointKey>)
    requires Lists(part, x, endpoints, ttl, order)
    ensures Elements(part) == BackendRequests(x, endpoints, ttl)
  {
    hide Request;
    forall r | r in Elements(part) ensures r in BackendRequests(x, endpoints, ttl) {
      var i :| 0 <= i < |part| && part[i] == r;
      assert order[i] in endpoints;
    }
    forall r | r in BackendRequests(x, endpoints, ttl) ensures r in Elements(part) {
      var k :| k in endpoints && r == Request(x, endpoints[k], ttl);
      var i :| 0 <= i < |order| && order[i] == k;
      assert part[i] == r;
    }
  }

  method MapRoutingEvent(e: HeapEvent, ttl: int) returns (requests: seq<TcpRouteMapping>)
    ensures ListsEntry(requests, View(e.entry), ttl)
    ensures Elements(requests) == EntryRequests(View(e.entry), ttl)
    ensures |requests| == |e.entry.externalEndpoints| * |View(e.entry).endpoints|
  {
    hide Request, ListsBackends, Flatten, EntryRequests, BackendRequests, Elements;
    requests := [];
    ghost var parts: seq<seq<TcpRouteMapping>> := [];
    var external := e.entry.externalEndpoints;
    ghost var entry := View(e.entry);
    NoRequests(entry, ttl);
    for i := 0 to |external|
      invariant View(e.entry) == entry
      invariant Elements(requests) == EntryRequests(entry.(externalEndpoints := external[..i]), ttl)
      invariant |requests| == i * |entry.endpoints|
      invariant requests == Flatten(parts) && |parts| == i
      invariant forall j :: 0 <= j < i ==> ListsBackends(parts[j], external[j], entry.endpoints, ttl)
    {
      var mapped := MapExternalEndpoint(external[i], Contents(e.entry.endpoints), ttl);
      NextExternal(entry, external, i, requests, mapped, ttl);
      FlattenSnoc(parts, mapped);
      requests := requests + mapped;
      parts := parts + [mapped];
    }
    assert external[..|external|] == external;
    assert AreParts(requests, entry, ttl, parts);
  }

  lemma NextExternal(entry: Entry, external: ExternalEndpoints, i: nat,
                     requests: seq<TcpRouteMapping>, mapped: seq<TcpRouteMapping>, ttl: int)
    requires i < |external| && Elements(mapped) == BackendRequests(external[i], entry.endpoints, ttl)
    requires Elements(requests) == EntryRequests(entry.(externalEndpoints := external[..i]), ttl)
    ensures Elements(requests + mapped) == EntryRequests(entry.(externalEndpoints := external[..i + 1]), ttl)
    ensures (i + 1) * |entry.endpoints| == i * |entry.endpoints| + |entry.endpoints|
  {
    hide EntryRequests, BackendRequests;
    assert external[..i + 1] == external[..i] + [external[i]];
    EntryRequestsSnoc(entry, external[..i], external[i], ttl);
    ElementsConcat(requests, mapped);
  }

  lemma NoRequests(entry: Entry, ttl: int)
    ensures EntryRequests(entry.(externalEndpoints := entry.externalEndpoints[..0]), ttl) == {}
    ensures Flatten<TcpRouteMapping>([]) == [] && Elements<TcpRouteMapping>([]) == {}
  {
  }

  lemma NoEventRequests(events: seq<Event>, ttl: int)
    ensures Requests(events[..0], ttl) == {} && PairCount(events[..0]) == 0 && Flatten<TcpRouteMapping>([]) == []
  {
  }

  lemma RequestsNext(events: seq<Event>, i: nat, ttl: int)
    requires i < |events|
    ensures Requests(events[..i + 1], ttl) == Requests(events[..i], ttl) + EntryRequests(events[i].entry, ttl)
    ensures PairCount(events[..i + 1])
         == PairCount(events[..i]) + |events[i].entry.externalEndpoints| * |events[i].entry.endpoints|
  {
    hide EntryRequests;
    assert events[..i + 1][..i] == events[..i];
  }

  method BuildMappingRequests(events: seq<HeapEvent>, ttl: int) returns (requests: seq<TcpRouteMapping>)
    ensures ListsEvents(requests, EventViews(events), ttl)
    ensures Elements(requests) == Requests(EventViews(events), ttl)
    ensures |requests| == PairCount(EventViews(events))
  {
    hide EventViews, ListsEntry, Flatten, Requests, PairCount, EntryRequests;
    ghost var views := EventViews(events);
    requests := [];
    NoEventRequests(views, ttl);
    ghost var blocks: seq<seq<TcpRouteMapping>> := [];
    for i := 0 to |events|
      invariant EventViews(events) == views
      invariant Elements(requests) == Requests(views[..i], ttl)
      invariant |requests| == PairCount(views[..i])
      invariant requests == Flatten(blocks) && |blocks| == i
      invariant forall j :: 0 <= j < i ==> ListsEntry(blocks[j], views[j].entry, ttl)
    {
      var mapped := MapRoutingEvent(events[i], ttl);
      RequestsNext(views, i, ttl);
      ElementsConcat(requests, mapped);
      FlattenSnoc(blocks, mapped);
      requests := requests + mapped;
      blocks := blocks + [mapped];
    }
    assert views[..|events|] == views;
    assert AreBlocks(requests, views, ttl, blocks);
  }

  method SeparateByKind(events: seq<HeapEvent>)
    returns (registrations: seq<HeapEvent>, unregistrations: seq<HeapEvent>)
    ensures EventViews(registrations) == Select(EventViews(events), Registration)
    ensures EventViews(unregistrations) == Select(EventViews(events), Unregistration)
  {
    hide EventViews, Valid, Select;
    ghost var views := EventViews(events);
    registrations, unregistrations := [], [];
    assert views[..0] == [];
    SelectNone();
    for i := 0 to |events|
      invariant EventViews(registrations) == Select(views[..i], Registration)
      invariant EventViews(unregistrations) == Select(views[..i], Unregistration)
    {
      assert EventView(events[i]) == views[i];
      SelectNext(views, i, Registration);
      SelectNext(views, i, Unregistration);
      assert forall kind :: Select(views[..i], kind) + [] == Select(views[..i], kind);
      if Valid(EventView(events[i])) {
        if events[i].kind == Registration {
          EventViewsSnoc(registrations, events[i]);
          registrations := registrations + [events[i]];
        } else if events[i].kind == Unregistration {
          EventViewsSnoc(unregistrations, events[i]);
          unregistrations := unregistrations + [events[i]];
        }
      }
    }
    assert views[..|events|] == views;
  }

  method ToMappingRequests(events: seq<HeapEvent>, ttl: int)
    returns (registrations: seq<TcpRouteMapping>, unregistrations: seq<TcpRouteMapping>)
    ensures ListsEvents(registrations, Select(EventViews(events), Registration), ttl)
    ensures ListsEvents(unregistrations, Select(EventViews(events), Unregistration), ttl)
    ensures Elements(registrations) == Requests(Select(EventViews(events), Registration), ttl)
    ensures |registrations| == PairCount(Select(EventViews(events), Registration))
    ensures Elements(unregistrations) == Requests(Select(EventViews(events), Unregistration), ttl)
    ensures |unregistrations| == PairCount(Select(EventViews(events), Unregistration))
  {
    hide EventViews, Requests, PairCount, Select, ListsEvents;
    var registrationEvents, unregistrationEvents := SeparateByKind(events);
    ghost var unregistrationViews := EventViews(unregistrationEvents);
    registrations := BuildMappingRequests(registrationEvents, ttl);
    assert EventViews(unregistrationEvents) == unregistrationViews;
    unregistrations := BuildMappingRequests(unregistrationEvents, ttl);
  }

  /** What the API holds after the registrations and then the unregistrations of a batch. */
  function RawDeliver(raw: set<TcpRouteMapping>, batch: seq<Event>, ttl: int): set<TcpRouteMapping> {
    raw + Requests(Select(batch, Registration), ttl) - Requests(Select(batch, Unregistration), ttl)
  }
}
