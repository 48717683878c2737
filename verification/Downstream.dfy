/**
 The remote set of mappings, and what the event stream makes of it. A mapping is kept with the
 routing key and endpoint key it came from, so that two backends never coincide by accident.
 */
module Downstream {
  import opened Endpoints
  import opened Events

  datatype Mapping = Mapping(
    key: RoutingKey,
    external: ExternalEndpointInfo,
    endpointKey: EndpointKey,
    host: string,
    port: uint32)

  predicate Exposes(key: RoutingKey, entry: Entry, m: Mapping) {
    && m.key == key
    && m.external in entry.externalEndpoints
    && m.endpointKey in entry.endpoints
    && entry.endpoints[m.endpointKey].host == m.host
    && entry.endpoints[m.endpointKey].port == m.port
  }

  /** External endpoints times backends. */
  function Product(key: RoutingKey, entry: Entry): (mappings: set<Mapping>)
    ensures forall m :: m in mappings <==> Exposes(key, entry, m)
  {
    set x, k | x in entry.externalEndpoints && k in entry.endpoints ::
      Mapping(key, x, k, entry.endpoints[k].host, entry.endpoints[k].port)
  }

  function Products(events: seq<Event>): set<Mapping> {
    if events == [] then {}
    else Products(events[..|events| - 1]) + Product(events[|events| - 1].key, events[|events| - 1].entry)
  }

  lemma {:induction false} InProducts(events: seq<Event>, m: Mapping) returns (e: Event)
    requires m in Products(events)
    ensures e in events && Exposes(e.key, e.entry, m)
  {
    e := events[|events| - 1];
    if m !in Product(e.key, e.entry) {
      e := InProducts(events[..|events| - 1], m);
    }
  }

  /** What a fully successful emission does: all registrations first, then all unregistrations. */
  function Deliver(d: set<Mapping>, batch: seq<Event>): set<Mapping> {
    d + Products(Select(batch, Registration)) - Products(Select(batch, Unregistration))
  }

  /** The same events taken one by one, in list order. */
  function Replay(d: set<Mapping>, events: seq<Event>): set<Mapping> {
    if events == [] then d
    else
      var before := Replay(d, events[..|events| - 1]);
      var last := events[|events| - 1];
      if !Valid(last) then before
      else if last.kind == Registration then before + Product(last.key, last.entry)
      else before - Product(last.key, last.entry)
  }

  /** The remote set after a list of batches. */
  function DeliverAll(d: set<Mapping>, batches: seq<seq<Event>>): set<Mapping> {
    if batches == [] then d
    else Deliver(DeliverAll(d, batches[..|batches| - 1]), batches[|batches| - 1])
  }

  lemma {:induction false} ReplayConcat(d: set<Mapping>, a: seq<Event>, b: seq<Event>)
    ensures Replay(d, a + b) == Replay(Replay(d, a), b)
  {
    hide Valid;
    if b == [] {
      assert a + b == a;
    } else {
      var n := |b| - 1;
      ReplayConcat(d, a, b[..n]);
      assert (a + b)[..|a + b| - 1] == a + b[..n];
    }
  }

  // ---------------------------------------------------------------- reordering

  /** No mapping is both registered and unregistered by the batch. */
  ghost predicate Disjoint(events: seq<Event>) {
    forall i, j, m ::
      && 0 <= i < |events| && events[i].kind == Registration && Exposes(events[i].key, events[i].entry, m)
      && 0 <= j < |events| && events[j].kind == Unregistration ==>
        !Exposes(events[j].key, events[j].entry, m)
  }

  lemma SelectSnoc(events: seq<Event>, last: Event, kind: EventKind)
    ensures Products(Select(events + [last], kind))
         == Products(Select(events, kind))
          + if Valid(last) && last.kind == kind then Product(last.key, last.entry) else {}
  {
    hide Valid, Exposes;
    assert (events + [last])[..|events|] == events;
    var selected := Select(events, kind);
    if Valid(last) && last.kind == kind {
      assert Select(events + [last], kind) == selected + [last];
      assert (selected + [last])[..|selected|] == selected;
    } else {
      assert Select(events + [last], kind) == selected + [] == selected;
    }
  }

  lemma ReplaySnoc(d: set<Mapping>, events: seq<Event>, last: Event)
    ensures var before := Replay(d, events);
            Replay(d, events + [last])
            == if !Valid(last) then before
               else if last.kind == Registration then before + Product(last.key, last.entry)
               else before - Product(last.key, last.entry)
  {
    assert (events + [last])[..|events|] == events;
  }

  lemma WithdrawnBy(events: seq<Event>, n: nat, m: Mapping) returns (j: nat)
    requires n <= |events| && m in Products(Select(events[..n], Unregistration))
    ensures j < |events| && events[j].kind == Unregistration && Exposes(events[j].key, events[j].entry, m)
  {
    hide Valid, Exposes;
    var e := InProducts(Select(events[..n], Unregistration), m);
    assert e in events[..n];
    j :| 0 <= j < n && events[j] == e;
  }

  /** Sending registrations before unregistrations means the same as the events in list order. */
  lemma ReorderingPreservesMeaning(d: set<Mapping>, events: seq<Event>)
    requires Disjoint(events)
    ensures Deliver(d, events) == Replay(d, events)
  {
    PrefixReordering(d, events, |events|);
    assert events[..|events|] == events;
  }

  /** One more event, when a registration brings nothing that was unregistered before. */
  lemma DeliverSnoc(d: set<Mapping>, events: seq<Event>, last: Event)
    requires Valid(last) && last.kind == Registration ==>
               Product(last.key, last.entry) !! Products(Select(events, Unregistration))
    ensures Deliver(d, events) == Replay(d, events) ==> Deliver(d, events + [last]) == Replay(d, events + [last])
  {
    hide Valid, Exposes, Products, Select, Replay, Product;
    SelectSnoc(events, last, Registration);
    SelectSnoc(events, last, Unregistration);
    ReplaySnoc(d, events, last);
  }

  lemma {:induction false} PrefixReordering(d: set<Mapping>, events: seq<Event>, n: nat)
    requires Disjoint(events) && n <= |events|
    ensures Deliver(d, events[..n]) == Replay(d, events[..n])
  {
    if n != 0 {
      var prefix, last := events[..n - 1], events[n - 1];
      PrefixReordering(d, events, n - 1);
      assert events[..n] == prefix + [last];
      if Valid(last) && last.kind == Registration {
        NotWithdrawn(events, n);
      }
      DeliverSnoc(d, prefix, last);
    }
  }

  lemma NotWithdrawn(events: seq<Event>, n: nat)
    requires Disjoint(events) && 0 < n <= |events| && events[n - 1].kind == Registration
    ensures Product(events[n - 1].key, events[n - 1].entry) !! Products(Select(events[..n - 1], Unregistration))
  {
    hide Valid, Exposes, Products, Select;
    var last := events[n - 1];
    forall m | m in Product(last.key, last.entry)
      ensures m !in Products(Select(events[..n - 1], Unregistration))
    {
      if m in Products(Select(events[..n - 1], Unregistration)) {
        var j := WithdrawnBy(events, n - 1, m);
        assert false;
      }
    }
  }
}
