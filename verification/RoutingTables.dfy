/**
 The routing table as the program keeps it: a mutable map of entries whose endpoint maps are
 objects on the heap. Every method is proved against the table specification. None lists an
 `EndpointMap` in its `modifies` clause, so no method ever writes to a map that an entry or an
 already returned event refers to: all writes go to freshly copied maps.
 */
module RoutingTables {
  import opened Endpoints
  import opened Lrps
  import opened Events
  import opened TableSpec

  method CreateRoutingEvent(key: RoutingKey, entry: HeapEntry, kind: EventKind) returns (events: seq<HeapEvent>)
    ensures EventViews(events) == CreateEvent(kind, key, View(entry))
  {
    if |entry.externalEndpoints| == 0 {
      return [];
    }
    if |Contents(entry.endpoints)| > 0 {
      return [RoutingEvent(kind, key, entry)];
    }
    return [];
  }

  /** Both early exits leave the result that the specification gives. */
  method GetRegistrationEvents(key: RoutingKey, existing: HeapEntry, updated: HeapEntry)
    returns (events: seq<HeapEvent>)
    requires EndpointsChanged(View(existing).endpoints, View(updated).endpoints)
    ensures EventViews(events) == CreateEvent(Registration, key, View(updated))
  {
    if |updated.externalEndpoints| == 0 {
      return [];
    }
    var external := HaveExternalEndpointsChanged(existing, updated);
    var changed := HaveEndpointsChanged(existing, updated);
    if !external && !changed {
      assert false;
      return [];
    }
    events := [];
    if |Contents(updated.endpoints)| > 0 {
      events := events + [RoutingEvent(Registration, key, updated)];
    }
  }

  /** What `existing` has and `remaining` lacks. */
  method GetDeletedEntry(existing: HeapEntry, remaining: HeapEntry) returns (gap: HeapEntry)
    ensures gap.endpoints != null && fresh(gap.endpoints)
    ensures View(gap) == View(existing).(endpoints := View(existing).endpoints - View(remaining).endpoints.Keys)
  {
    gap := Copy(existing);
    ghost var cleared := gap.endpoints;
    var source, kept := Contents(existing.endpoints), Contents(remaining.endpoints);
    var rest := source.Keys;
    while rest != {}
      invariant rest <= source.Keys
      invariant gap.endpoints == cleared && cleared.contents == source - (kept.Keys - rest)
    {
      var k :| k in rest;
      if k in kept {
        gap.endpoints.contents := gap.endpoints.contents - {k};
      }
      rest := rest - {k};
    }
    assert kept.Keys - {} == kept.Keys;
  }

  /** The external endpoints asked for on `containerPort`, and whether one of their ports is new. */
  method SelectRoutes(existing: ExternalEndpoints, routes: seq<TcpRoute>, containerPort: uint32)
    returns (external: ExternalEndpoints, registrationNeeded: bool)
    ensures external == RoutesFor(routes, containerPort)
    ensures registrationNeeded <==> exists x :: x in external && !ContainsExternalPort(existing, x.port)
  {
    registrationNeeded := false;
    external := [];
    for i := 0 to |routes|
      invariant external == RoutesFor(routes[..i], containerPort)
      invariant registrationNeeded <==> exists x :: x in external && !ContainsExternalPort(existing, x.port)
    {
      assert routes[..i + 1][..i] == routes[..i];
      if containerPort == routes[i].containerPort {
        var x := ExternalEndpointInfo(routes[i].routerGroupGuid, routes[i].externalPort);
        external := external + [x];
        assert x in external;
        if !ContainsExternalPort(existing, routes[i].externalPort) {
          registrationNeeded := true;
        }
      }
    }
    assert routes[..|routes|] == routes;
  }

  /** The early exit is never taken, because removing an endpoint is a change. */
  method GetUnregistrationEvents(key: RoutingKey, current: HeapEntry, remaining: HeapEntry)
    returns (events: seq<HeapEvent>)
    requires EndpointsChanged(View(current).endpoints, View(remaining).endpoints)
    ensures EventViews(events) == CreateEvent(Unregistration, key,
              View(current).(endpoints := View(current).endpoints - View(remaining).endpoints.Keys))
  {
    hide EndpointsChanged, ExternalEndpointsChanged;
    var external := HaveExternalEndpointsChanged(current, remaining);
    var changed := HaveEndpointsChanged(current, remaining);
    if !external && !changed {
      assert false;
      return [];
    }
    var deleted := GetDeletedEntry(current, remaining);
    events := CreateRoutingEvent(key, deleted, Unregistration);
  }

  /** The unregistration of the ports that are not wanted any more. */
  method UnregisterExternal(existing: HeapEntry, key: RoutingKey, wanted: ExternalEndpoints)
    returns (events: seq<HeapEvent>)
    ensures var gone := View(existing).(externalEndpoints := Subtract(existing.externalEndpoints, wanted));
            EventViews(events) == CreateEvent(Unregistration, key, gone)
  {
    hide CreateEvent, EventViews, Subtract;
    var gone := RemoveExternalEndpoints(existing, wanted);
    events := CreateRoutingEvent(key, gone, Unregistration);
  }

  class RoutingTable {
    var entries: map<RoutingKey, HeapEntry>

    /** The table as a value; `Valid` ties it to the entries and their maps. */
    ghost var value: Table

    ghost predicate Valid()
      reads this, set k | k in entries :: entries[k].endpoints
    {
      && entries.Keys == value.Keys
      && forall k :: k in entries ==> View(entries[k]) == value[k]
    }

    constructor ()
      ensures Valid() && value == map[]
    {
      entries := map[];
      value := map[];
    }

    function Get(key: RoutingKey): (entry: HeapEntry)
      requires Valid()
      reads this, set k | k in entries :: entries[k].endpoints
      ensures View(entry) == Lookup(value, key)
    {
      if key in entries then entries[key] else RoutableEndpoints([], null, "", Absent)
    }

    method RouteCount() returns (count: nat)
      requires Valid()
      ensures count == |value|
    {
      assert |value| == |value.Keys| == |entries|;
      count := |entries|;
    }

    method Store(key: RoutingKey, entry: HeapEntry)
      requires Valid()
      modifies this
      ensures Valid() && value == old(value)[key := View(entry)]
    {
      entries := entries[key := entry];
      value := value[key := View(entry)];
    }

    // -------------------------------------------------------------- routes

    method MergeRoutes(existing: HeapEntry, key: RoutingKey, desired: DesiredLrp) returns (events: seq<HeapEvent>)
      requires Valid() && existing == Get(key)
      modifies this
      ensures Valid()
      ensures Outcome(value, EventViews(events)) == ApplyMerge(old(value), Merge(key, desired))
    {
      hide CreateEvent, EventViews, Subtract, RoutesFor;
      var external, registrationNeeded := SelectRoutes(existing.externalEndpoints, desired.routes, key.containerPort);
      events := StoreRoutes(existing, key, desired, external, registrationNeeded);
      var unregistrations := UnregisterExternal(existing, key, external);
      EventViewsAppend(events, unregistrations);
      events := events + unregistrations;
    }

    /** Replaces the entry and registers it, when a new port makes that necessary. */
    method StoreRoutes(existing: HeapEntry, key: RoutingKey, desired: DesiredLrp,
                       external: ExternalEndpoints, registrationNeeded: bool)
      returns (events: seq<HeapEvent>)
      requires Valid()
      modifies this
      ensures Valid()
      ensures var updated :=
                RoutableEndpoints(external, View(existing).endpoints, desired.logGuid, desired.modificationTag);
              && value == (if registrationNeeded then old(value)[key := updated] else old(value))
              && EventViews(events) == if registrationNeeded then CreateEvent(Registration, key, updated) else []
    {
      hide CreateEvent, EventViews;
      events := [];
      if registrationNeeded {
        var updated := Copy(existing);
        updated := updated.(externalEndpoints := external, logGuid := desired.logGuid,
                            modificationTag := desired.modificationTag);
        Store(key, updated);
        events := CreateRoutingEvent(key, updated, Registration);
      }
    }

    method AddRoute(key: RoutingKey, desired: DesiredLrp) returns (events: seq<HeapEvent>)
      requires Valid()
      modifies this
      ensures Valid()
      ensures Outcome(value, EventViews(events)) == ApplyEdit(old(value), Merge(key, desired))
    {
      hide ApplyMerge, EventViews;
      var existing := Get(key);
      if !existing.modificationTag.SucceededBy(desired.modificationTag) {
        return [];
      }
      events := MergeRoutes(existing, key, desired);
    }

    method AddRoutesAt(keys: seq<RoutingKey>, desired: DesiredLrp) returns (events: seq<HeapEvent>)
      requires Valid()
      modifies this
      ensures Valid()
      ensures Outcome(value, EventViews(events)) == ApplyEdits(old(value), Merges(keys, desired))
    {
      hide ApplyEdit, ApplyEdits, EventViews;
      ghost var edits := Merges(keys, desired);
      events := [];
      NoEdits(value);
      assert edits[..0] == [];
      for i := 0 to |keys|
        invariant Valid()
        invariant Outcome(value, EventViews(events)) == ApplyEdits(old(value), edits[..i])
      {
        ApplyEditsPrefix(old(value), edits, i);
        var added := AddRoute(keys[i], desired);
        EventViewsAppend(events, added);
        events := events + added;
      }
      assert edits[..|edits|] == edits;
    }

    method AddRoutes(desired: DesiredLrp) returns (events: seq<HeapEvent>)
      requires Valid()
      modifies this
      ensures Valid()
      ensures Outcome(value, EventViews(events)) == ApplyEdits(old(value), TableSpec.AddRoutes(desired))
    {
      hide ApplyEdit, ApplyEdits, EventViews;
      var keys := NewRoutingKeysFromDesired(desired);
      events := AddRoutesAt(keys, desired);
    }

    method RemoveRoutingKey(key: RoutingKey, tag: ModificationTag) returns (events: seq<HeapEvent>)
      requires Valid()
      modifies this
      ensures Valid()
      ensures Outcome(value, EventViews(events)) == ApplyEdit(old(value), Drop(key, tag))
    {
      hide ApplyMerge;
      events := [];
      if key in entries {
        var existing := entries[key];
        if !existing.modificationTag.SucceededBy(tag) {
          return;
        }
        if |Contents(existing.endpoints)| > 0 && |existing.externalEndpoints| > 0 {
          events := [RoutingEvent(Unregistration, key, existing)];
        }
        entries := entries - {key};
        value := value - {key};
      }
    }

    method RemoveRoutingKeys(keys: seq<RoutingKey>, tag: ModificationTag) returns (events: seq<HeapEvent>)
      requires Valid()
      modifies this
      ensures Valid()
      ensures Outcome(value, EventViews(events)) == ApplyEdits(old(value), Drops(keys, tag))
    {
      hide ApplyEdit, ApplyEdits, EventViews;
      ghost var edits := Drops(keys, tag);
      events := [];
      NoEdits(value);
      assert edits[..0] == [];
      for i := 0 to |keys|
        invariant Valid()
        invariant Outcome(value, EventViews(events)) == ApplyEdits(old(value), edits[..i])
      {
        ApplyEditsPrefix(old(value), edits, i);
        var removed := RemoveRoutingKey(keys[i], tag);
        EventViewsAppend(events, removed);
        events := events + removed;
      }
      assert edits[..|edits|] == edits;
    }

    method UpdateRoutes(before: DesiredLrp, after: DesiredLrp) returns (events: seq<HeapEvent>)
      requires Valid()
      modifies this
      ensures Valid()
      ensures Outcome(value, EventViews(events)) == ApplyEdits(old(value), TableSpec.UpdateRoutes(before, after))
    {
      hide ApplyEdit, ApplyEdits, EventViews;
      var beforeKeys := NewRoutingKeysFromDesired(before);
      var afterKeys := NewRoutingKeysFromDesired(after);
      var deleted := RemoveKeys(beforeKeys, afterKeys);

      events := AddRoutes(after);
      var removed := RemoveRoutingKeys(deleted, after.modificationTag);
      EventViewsAppend(events, removed);
      events := events + removed;
      ApplyEditsConcat(old(value), TableSpec.AddRoutes(after), Drops(deleted, after.modificationTag));
    }

    method RemoveRoutes(desired: DesiredLrp) returns (events: seq<HeapEvent>)
      requires Valid()
      modifies this
      ensures Valid()
      ensures Outcome(value, EventViews(events)) == ApplyEdits(old(value), TableSpec.RemoveRoutes(desired))
    {
      var keys := NewRoutingKeysFromDesired(desired);
      events := RemoveRoutingKeys(keys, desired.modificationTag);
    }

    // -------------------------------------------------------------- endpoints

    method AddOneEndpoint(key: RoutingKey, endpoint: Endpoint) returns (events: seq<HeapEvent>)
      requires Valid()
      modifies this
      ensures Valid()
      ensures Outcome(value, EventViews(events)) == ApplyEdit(old(value), Put(key, endpoint))
    {
      hide ApplyMerge, CreateEvent, EventViews, EndpointsChanged;
      var current := Get(key);
      var known := Contents(current.endpoints);
      if endpoint.Key() in known {
        if !known[endpoint.Key()].modificationTag.SucceededBy(endpoint.modificationTag) {
          return [];
        }
      }
      var updated := Copy(current);
      updated.endpoints.contents := updated.endpoints.contents[endpoint.Key() := endpoint];
      Store(key, updated);
      PutChanges(known, endpoint);
      events := GetRegistrationEvents(key, current, updated);
    }

    /** An accepted endpoint always counts as a change. */
    static lemma PutChanges(known: Backends, endpoint: Endpoint)
      requires endpoint.Key() in known ==>
                 known[endpoint.Key()].modificationTag.SucceededBy(endpoint.modificationTag)
      ensures EndpointsChanged(known, known[endpoint.Key() := endpoint])
    {
      assert endpoint.Key() in known[endpoint.Key() := endpoint];
    }

    /** The inner loop meets the endpoints in any order and acts on exactly one of them. */
    method AddEndpointAt(key: RoutingKey, endpoints: map<uint32, Endpoint>) returns (events: seq<HeapEvent>)
      requires key.containerPort in endpoints
      requires forall p :: p in endpoints ==> endpoints[p].containerPort == p
      requires Valid()
      modifies this
      ensures Valid()
      ensures Outcome(value, EventViews(events)) == ApplyEdit(old(value), Put(key, endpoints[key.containerPort]))
    {
      hide ApplyEdit, EventViews;
      events := [];
      var rest := endpoints.Keys;
      while rest != {}
        invariant rest <= endpoints.Keys
        invariant Valid()
        invariant key.containerPort in rest ==> events == [] && value == old(value)
        invariant key.containerPort !in rest ==>
                    Outcome(value, EventViews(events))
                    == ApplyEdit(old(value), Put(key, endpoints[key.containerPort]))
      {
        var port :| port in rest;
        rest := rest - {port};
        if key.containerPort == endpoints[port].containerPort {
          var added := AddOneEndpoint(key, endpoints[port]);
          EventViewsAppend(events, added);
          events := events + added;
        }
      }
    }

    method AddEndpoint(actual: ActualLrp) returns (events: seq<HeapEvent>)
      requires Valid()
      modifies this
      ensures Valid()
      ensures Outcome(value, EventViews(events)) == ApplyEdits(old(value), TableSpec.AddEndpoint(actual))
    {
      hide ApplyEdit, ApplyEdits, EventViews;
      var endpoints := NewEndpointsFromActual(actual);
      var keys := NewRoutingKeysFromActual(actual);
      events := AddEndpointKeys(keys, endpoints, TableSpec.AddEndpoint(actual));
    }

    method AddEndpointKeys(keys: seq<RoutingKey>, endpoints: map<uint32, Endpoint>, ghost edits: seq<Edit>)
      returns (events: seq<HeapEvent>)
      requires forall p :: p in endpoints ==> endpoints[p].containerPort == p
      requires |edits| == |keys|
      requires forall i :: 0 <= i < |keys| ==>
                 keys[i].containerPort in endpoints && edits[i] == Put(keys[i], endpoints[keys[i].containerPort])
      requires Valid()
      modifies this
      ensures Valid()
      ensures Outcome(value, EventViews(events)) == ApplyEdits(old(value), edits)
    {
      hide ApplyEdit, ApplyEdits, EventViews;
      events := [];
      NoEdits(value);
      assert edits[..0] == [];
      for i := 0 to |keys|
        invariant Valid()
        invariant Outcome(value, EventViews(events)) == ApplyEdits(old(value), edits[..i])
      {
        ApplyEditsPrefix(old(value), edits, i);
        var added := AddEndpointAt(keys[i], endpoints);
        EventViewsAppend(events, added);
        events := events + added;
      }
      assert edits[..|edits|] == edits;
    }

    method RemoveOneEndpoint(key: RoutingKey, endpoint: Endpoint) returns (events: seq<HeapEvent>)
      requires Valid()
      modifies this
      ensures Valid()
      ensures Outcome(value, EventViews(events)) == ApplyEdit(old(value), Take(key, endpoint))
    {
      hide ApplyMerge, CreateEvent, EventViews, EndpointsChanged, ExternalEndpointsChanged;
      var current := Get(key);
      var known := Contents(current.endpoints);
      var endpointKey := endpoint.Key();
      if endpointKey !in known {
        return [];
      }
      var tag := known[endpointKey].modificationTag;
      if !(tag == endpoint.modificationTag || tag.SucceededBy(endpoint.modificationTag)) {
        return [];
      }
      var remaining := Copy(current);
      remaining.endpoints.contents := remaining.endpoints.contents - {endpointKey};
      Store(key, remaining);
      TakeChanges(known, endpointKey);
      TakeDeletes(known, endpointKey);
      events := GetUnregistrationEvents(key, current, remaining);
    }

    static lemma TakeDeletes(known: Backends, key: EndpointKey)
      requires key in known
      ensures known - (known - {key}).Keys == map[key := known[key]]
    {
    }

    /** Removing a known endpoint always counts as a change. */
    static lemma TakeChanges(known: Backends, key: EndpointKey)
      requires key in known
      ensures EndpointsChanged(known, known - {key})
    {
      assert (known - {key}).Keys == known.Keys - {key};
      assert |known - {key}| == |known.Keys - {key}|;
    }

    method RemoveEndpointAt(key: RoutingKey, endpoints: map<uint32, Endpoint>) returns (events: seq<HeapEvent>)
      requires key.containerPort in endpoints
      requires forall p :: p in endpoints ==> endpoints[p].containerPort == p
      requires Valid()
      modifies this
      ensures Valid()
      ensures Outcome(value, EventViews(events)) == ApplyEdit(old(value), Take(key, endpoints[key.containerPort]))
    {
      hide ApplyEdit, EventViews;
      events := [];
      var rest := endpoints.Keys;
      while rest != {}
        invariant rest <= endpoints.Keys
        invariant Valid()
        invariant key.containerPort in rest ==> events == [] && value == old(value)
        invariant key.containerPort !in rest ==>
                    Outcome(value, EventViews(events))
                    == ApplyEdit(old(value), Take(key, endpoints[key.containerPort]))
      {
        var port :| port in rest;
        rest := rest - {port};
        if key.containerPort == endpoints[port].containerPort {
          var removed := RemoveOneEndpoint(key, endpoints[port]);
          EventViewsAppend(events, removed);
          events := events + removed;
        }
      }
    }

    method RemoveEndpoint(actual: ActualLrp) returns (events: seq<HeapEvent>)
      requires Valid()
      modifies this
      ensures Valid()
      ensures Outcome(value, EventViews(events)) == ApplyEdits(old(value), TableSpec.RemoveEndpoint(actual))
    {
      hide ApplyEdit, ApplyEdits, EventViews;
      var endpoints := NewEndpointsFromActual(actual);
      var keys := NewRoutingKeysFromActual(actual);
      events := RemoveEndpointKeys(keys, endpoints, TableSpec.RemoveEndpoint(actual));
    }

    method RemoveEndpointKeys(keys: seq<RoutingKey>, endpoints: map<uint32, Endpoint>, ghost edits: seq<Edit>)
      returns (events: seq<HeapEvent>)
      requires forall p :: p in endpoints ==> endpoints[p].containerPort == p
      requires |edits| == |keys|
      requires forall i :: 0 <= i < |keys| ==>
                 keys[i].containerPort in endpoints && edits[i] == Take(keys[i], endpoints[keys[i].containerPort])
      requires Valid()
      modifies this
      ensures Valid()
      ensures Outcome(value, EventViews(events)) == ApplyEdits(old(value), edits)
    {
      hide ApplyEdit, ApplyEdits, EventViews;
      events := [];
      NoEdits(value);
      assert edits[..0] == [];
      for i := 0 to |keys|
        invariant Valid()
        invariant Outcome(value, EventViews(events)) == ApplyEdits(old(value), edits[..i])
      {
        ApplyEditsPrefix(old(value), edits, i);
        var removed := RemoveEndpointAt(keys[i], endpoints);
        EventViewsAppend(events, removed);
        events := events + removed;
      }
      assert edits[..|edits|] == edits;
    }

    // -------------------------------------------------------------- swap

    method SwapOne(key: RoutingKey, newEntry: HeapEntry) returns (events: seq<HeapEvent>)
      requires Valid()
      ensures EventViews(events) == SwapAt(value, key, View(newEntry))
    {
      hide CreateEvent, EventViews, Subtract;
      var registrations := CreateRoutingEvent(key, newEntry, Registration);
      var unregistrations := UnregisterExternal(Get(key), key, newEntry.externalEndpoints);
      EventViewsAppend(registrations, unregistrations);
      events := registrations + unregistrations;
    }

    /** Registers every entry of the new table and unregisters the ports it drops. */
    method RegisterNew(newEntries: map<RoutingKey, HeapEntry>, ghost after: Table)
      returns (events: seq<HeapEvent>, ghost order: seq<RoutingKey>)
      requires Valid()
      requires after.Keys == newEntries.Keys && forall k :: k in newEntries ==> View(newEntries[k]) == after[k]
      ensures Enumerates(order, after) && EventViews(events) == RegisterAll(value, after, order)
    {
      hide SwapAt, EventViews;
      events, order := [], [];
      var rest := newEntries.Keys;
      while rest != {}
        invariant rest <= newEntries.Keys && Valid()
        invariant forall k :: k in newEntries ==> View(newEntries[k]) == after[k]
        invariant forall k :: k in order <==> k in newEntries && k !in rest
        invariant forall i, j :: 0 <= i < j < |order| ==> order[i] != order[j]
        invariant EventViews(events) == RegisterAll(value, after, order)
      {
        var key :| key in rest;
        rest := rest - {key};
        var swapped := SwapOne(key, newEntries[key]);
        EventViewsAppend(events, swapped);
        events := events + swapped;
        assert (order + [key])[..|order|] == order;
        order := order + [key];
      }
    }

    method UnregisterOne(key: RoutingKey, newEntries: map<RoutingKey, HeapEntry>, ghost after: Table)
      returns (events: seq<HeapEvent>)
      requires Valid() && key in entries && after.Keys == newEntries.Keys
      ensures EventViews(events) == UnregisterAt(value, after, key)
    {
      hide CreateEvent, EventViews;
      events := [];
      if key !in newEntries {
        events := CreateRoutingEvent(key, entries[key], Unregistration);
      }
    }

    /** Unregisters the entries whose key the new table lacks. */
    method UnregisterOld(newEntries: map<RoutingKey, HeapEntry>, ghost after: Table)
      returns (events: seq<HeapEvent>, ghost order: seq<RoutingKey>)
      requires Valid() && after.Keys == newEntries.Keys
      ensures Enumerates(order, value) && EventViews(events) == UnregisterMissing(value, after, order)
    {
      hide UnregisterAt, EventViews;
      events, order := [], [];
      var rest := entries.Keys;
      while rest != {}
        invariant rest <= entries.Keys && Valid()
        invariant forall k :: k in order <==> k in entries && k !in rest
        invariant forall i, j :: 0 <= i < j < |order| ==> order[i] != order[j]
        invariant EventViews(events) == UnregisterMissing(value, after, order)
      {
        var key :| key in rest;
        rest := rest - {key};
        var unregistrations := UnregisterOne(key, newEntries, after);
        EventViewsAppend(events, unregistrations);
        events := events + unregistrations;
        assert (order + [key])[..|order|] == order;
        order := order + [key];
      }
    }

    method EventsOfSwap(other: RoutingTable) returns (events: seq<HeapEvent>)
      requires Valid() && other.Valid()
      ensures IsSwap(value, other.value, EventViews(events))
    {
      hide EventViews, RegisterAll, UnregisterMissing, Enumerates, SwapEvents, IsSwap;
      var registered, newOrder := RegisterNew(other.entries, other.value);
      ghost var views := EventViews(registered);
      var unregistered, oldOrder := UnregisterOld(other.entries, other.value);
      assert EventViews(registered) == views;
      EventViewsAppend(registered, unregistered);
      events := registered + unregistered;
      SwapWitness(value, other.value, newOrder, oldOrder);
    }

    method Swap(other: RoutingTable) returns (events: seq<HeapEvent>)
      requires Valid() && other.Valid()
      modifies this
      ensures Valid() && other.Valid()
      ensures value == old(other.value)
      ensures IsSwap(old(value), old(other.value), EventViews(events))
    {
      hide EventViews, IsSwap;
      events := EventsOfSwap(other);
      entries := other.entries;
      value := other.value;
    }
  }
}
