/**
 From keyed mappings to what the routing API stores: router group, external port, host and host
 port, the ports cut to 16 bits. Lifting the keyed results needs that nothing kept looks like
 something removed.
 */
module RawMappings {
  import opened Sequences
  import opened Endpoints
  import opened Events
  import opened Downstream
  import opened Emitter

  function Raw(m: Mapping, ttl: int): TcpRouteMapping {
    TcpRouteMapping(m.external.routerGroupGuid, Truncate(m.external.port), m.host, Truncate(m.port), ttl)
  }

  function RawSet(mappings: set<Mapping>, ttl: int): (raw: set<TcpRouteMapping>)
    ensures forall r :: r in raw <==> exists m :: m in mappings && Raw(m, ttl) == r
  {
    set m | m in mappings :: Raw(m, ttl)
  }

  lemma RawSetUnion(a: set<Mapping>, b: set<Mapping>, ttl: int)
    ensures RawSet(a + b, ttl) == RawSet(a, ttl) + RawSet(b, ttl)
  {
    hide Raw;
    forall m | m in a || m in b ensures Raw(m, ttl) in RawSet(a + b, ttl) {
      assert m in a + b;
    }
  }

  lemma EntryRequestsAreProduct(key: RoutingKey, entry: Entry, ttl: int)
    ensures EntryRequests(entry, ttl) == RawSet(Product(key, entry), ttl)
  {
    forall r | r in EntryRequests(entry, ttl) ensures r in RawSet(Product(key, entry), ttl) {
      var x, k :| x in entry.externalEndpoints && k in entry.endpoints && r == Request(x, entry.endpoints[k], ttl);
      var m := Mapping(key, x, k, entry.endpoints[k].host, entry.endpoints[k].port);
      assert m in Product(key, entry) && Raw(m, ttl) == r;
    }
    forall r | r in RawSet(Product(key, entry), ttl) ensures r in EntryRequests(entry, ttl) {
      var m :| m in Product(key, entry) && Raw(m, ttl) == r;
      assert r == Request(m.external, entry.endpoints[m.endpointKey], ttl);
    }
  }

  /** The request lists hold exactly the products of the selected events. */
  lemma {:induction false} RequestsAreProducts(events: seq<Event>, ttl: int)
    ensures Requests(events, ttl) == RawSet(Products(events), ttl)
  {
    if events != [] {
      var n := |events| - 1;
      RequestsAreProducts(events[..n], ttl);
      EntryRequestsAreProduct(events[n].key, events[n].entry, ttl);
      hide EntryRequests, Product, RawSet;
      RawSetUnion(Products(events[..n]), Product(events[n].key, events[n].entry), ttl);
    }
  }

  /** Sixteen-bit ports lose nothing, and then a request tells its external endpoint and backend address. */
  lemma RequestIdentifies(x: ExternalEndpointInfo, e: Endpoint, y: ExternalEndpointInfo, f: Endpoint, ttl: int)
    requires x.port < 0x1_0000 && e.port < 0x1_0000 && y.port < 0x1_0000 && f.port < 0x1_0000
    ensures Request(x, e, ttl) == Request(y, f, ttl) <==> x == y && e.host == f.host && e.port == f.port
  {
    assert x == y <==> x.routerGroupGuid == y.routerGroupGuid && x.port == y.port;
  }

  /** Wider ports can collide. */
  lemma WidePortsCollide(e: Endpoint, ttl: int)
    ensures exists x: ExternalEndpointInfo, y: ExternalEndpointInfo ::
              x != y && Request(x, e, ttl) == Request(y, e, ttl)
  {
    var x, y := ExternalEndpointInfo("group", 80), ExternalEndpointInfo("group", 0x1_0000 + 80);
    assert x != y && Request(x, e, ttl) == Request(y, e, ttl);
  }

  /** No event with a zero port is sent, and still a request carries port zero exactly when an event of the batch
      has an external port that is a multiple of 65536. */
  lemma ZeroPortIsSentIff(batch: seq<Event>, kind: EventKind, ttl: int)
    ensures (exists r :: r in Requests(Select(batch, kind), ttl) && r.externalPort == 0)
        <==> (exists e, x :: e in Select(batch, kind) && x in e.entry.externalEndpoints && x.port % 0x1_0000 == 0)
    ensures forall e, x :: e in Select(batch, kind) && x in e.entry.externalEndpoints ==> x.port != 0
  {
    hide Select;
    if e, x :| e in Select(batch, kind) && x in e.entry.externalEndpoints && x.port % 0x1_0000 == 0 {
      assert e.entry.endpoints.Keys != {} by {
        assert |e.entry.endpoints| == |e.entry.endpoints.Keys|;
      }
      var k :| k in e.entry.endpoints.Keys;
      assert Request(x, e.entry.endpoints[k], ttl) in EntryRequests(e.entry, ttl);
    }
    if r :| r in Requests(Select(batch, kind), ttl) && r.externalPort == 0 {
      var e :| e in Select(batch, kind) && r in EntryRequests(e.entry, ttl);
      var x, k :|
        x in e.entry.externalEndpoints && k in e.entry.endpoints && r == Request(x, e.entry.endpoints[k], ttl);
    }
  }

  // ---------------------------------------------------------------- lifting a delivery

  /** Nothing that stays has the raw form of something that goes. */
  ghost predicate NoAliasing(d: set<Mapping>, batch: seq<Event>, ttl: int) {
    forall kept, gone ::
      kept in Deliver(d, batch) && gone in Products(Select(batch, Unregistration)) ==> Raw(kept, ttl) != Raw(gone, ttl)
  }

  lemma RawDifference(a: set<Mapping>, u: set<Mapping>, ttl: int)
    ensures RawSet(a, ttl) - RawSet(u, ttl) == RawSet(a - u, ttl) <==>
              forall kept, gone :: kept in a - u && gone in u ==> Raw(kept, ttl) != Raw(gone, ttl)
  {
    hide Raw;
    if kept, gone :| kept in a - u && gone in u && Raw(kept, ttl) == Raw(gone, ttl) {
      assert Raw(kept, ttl) in RawSet(a - u, ttl) && Raw(gone, ttl) in RawSet(u, ttl);
    } else {
      forall r | r in RawSet(a - u, ttl) ensures r in RawSet(a, ttl) && r !in RawSet(u, ttl) {
        var m :| m in a - u && Raw(m, ttl) == r;
        assert m in a;
      }
      forall r | r in RawSet(a, ttl) && r !in RawSet(u, ttl) ensures r in RawSet(a - u, ttl) {
        var m :| m in a && Raw(m, ttl) == r;
        assert m !in u;
      }
    }
  }

  /** The raw set keeps in step with the keyed set exactly when nothing aliases. */
  lemma DeliveryLiftsIff(d: set<Mapping>, batch: seq<Event>, ttl: int)
    ensures RawDeliver(RawSet(d, ttl), batch, ttl) == RawSet(Deliver(d, batch), ttl) <==> NoAliasing(d, batch, ttl)
  {
    RequestsAreProducts(Select(batch, Registration), ttl);
    RequestsAreProducts(Select(batch, Unregistration), ttl);
    hide Raw, RawSet, Products, Select, Requests;
    var r, u := Products(Select(batch, Registration)), Products(Select(batch, Unregistration));
    RawSetUnion(d, r, ttl);
    RawDifference(d + r, u, ttl);
    assert Deliver(d, batch) == d + r - u;
  }

  /** A backend address belongs to one backend only. */
  ghost predicate UniqueBackends(mappings: set<Mapping>) {
    forall m, n ::
      m in mappings && n in mappings && m.host == n.host && m.port == n.port ==>
        m.key == n.key && m.endpointKey == n.endpointKey
  }

  predicate PortsFit(mappings: set<Mapping>) {
    forall m :: m in mappings ==> m.external.port < 0x1_0000 && m.port < 0x1_0000
  }

  lemma RawIsInjective(mappings: set<Mapping>, m: Mapping, n: Mapping, ttl: int)
    requires UniqueBackends(mappings) && PortsFit(mappings) && m in mappings && n in mappings
    ensures Raw(m, ttl) == Raw(n, ttl) <==> m == n
  {
  }

  /** While a batch is delivered, every live address belongs to one backend, and every port fits. */
  ghost predicate UniqueDuring(d: set<Mapping>, batch: seq<Event>) {
    var all := d + Products(Select(batch, Registration)) + Products(Select(batch, Unregistration));
    UniqueBackends(all) && PortsFit(all)
  }

  /** With unique live addresses and 16-bit ports nothing aliases. */
  lemma UniqueBackendsDoNotAlias(d: set<Mapping>, batch: seq<Event>, ttl: int)
    requires UniqueDuring(d, batch)
    ensures NoAliasing(d, batch, ttl)
  {
    hide Products, Select;
    var u := Products(Select(batch, Unregistration));
    var all := d + Products(Select(batch, Registration)) + u;
    forall kept, gone | kept in Deliver(d, batch) && gone in u ensures Raw(kept, ttl) != Raw(gone, ttl) {
      assert kept in all && gone in all && kept !in u;
      RawIsInjective(all, kept, gone, ttl);
    }
  }

  /** Then two keyed sets with one raw form are one set. */
  lemma SameRawSetIff(a: set<Mapping>, b: set<Mapping>, ttl: int)
    requires UniqueBackends(a + b) && PortsFit(a + b)
    ensures RawSet(a, ttl) == RawSet(b, ttl) <==> a == b
  {
    if RawSet(a, ttl) == RawSet(b, ttl) {
      RawSubset(a, b, ttl);
      assert b + a == a + b;
      RawSubset(b, a, ttl);
    }
  }

  lemma RawSubset(a: set<Mapping>, b: set<Mapping>, ttl: int)
    requires UniqueBackends(a + b) && PortsFit(a + b) && RawSet(a, ttl) <= RawSet(b, ttl)
    ensures a <= b
  {
    hide Raw, UniqueBackends, PortsFit;
    forall m | m in a ensures m in b {
      assert Raw(m, ttl) in RawSet(a, ttl);
      var n :| n in b && Raw(n, ttl) == Raw(m, ttl);
      RawIsInjective(a + b, m, n, ttl);
    }
  }

  // ---------------------------------------------------------------- lifting a run

  /** The keyed set after one emission, as far as it got. */
  function DeliverReached(d: set<Mapping>, batch: seq<Event>, reach: Reach): set<Mapping> {
    match reach
    case Untouched => d
    case Registered => d + Products(Select(batch, Registration))
    case Complete => Deliver(d, batch)
  }

  /** The keyed set after a list of batches, each emitted as far as it got. */
  function KeyedReach(d: set<Mapping>, batches: seq<seq<Event>>, reaches: seq<Reach>): set<Mapping>
    requires |reaches| == |batches|
  {
    if batches == [] then d
    else
      var n := |batches| - 1;
      DeliverReached(KeyedReach(d, batches[..n], reaches[..n]), batches[n], reaches[n])
  }

  /** One emission keeps the raw set in step with the keyed set exactly when it deletes nothing or nothing aliases. */
  lemma EmissionLiftsIff(d: set<Mapping>, batch: seq<Event>, ttl: int, reach: Reach)
    ensures Reached(RawSet(d, ttl), batch, ttl, reach) == RawSet(DeliverReached(d, batch, reach), ttl)
        <==> (reach == Complete ==> NoAliasing(d, batch, ttl))
  {
    DeliveryLiftsIff(d, batch, ttl);
    RequestsAreProducts(Select(batch, Registration), ttl);
    RawSetUnion(d, Products(Select(batch, Registration)), ttl);
    hide Raw, RawSet, Products, Select, Requests, NoAliasing, Deliver, RawDeliver;
  }

  lemma ReachNext(d: set<Mapping>, batches: seq<seq<Event>>, reaches: seq<Reach>, i: nat, ttl: int)
    requires |reaches| == |batches| && i < |batches|
    ensures KeyedReach(d, batches[..i + 1], reaches[..i + 1])
         == DeliverReached(KeyedReach(d, batches[..i], reaches[..i]), batches[i], reaches[i])
    ensures ReachAll(RawSet(d, ttl), batches[..i + 1], reaches[..i + 1], ttl)
         == Reached(ReachAll(RawSet(d, ttl), batches[..i], reaches[..i], ttl), batches[i], ttl, reaches[i])
  {
    hide DeliverReached, Reached, RawSet;
    assert batches[..i + 1][..i] == batches[..i] && reaches[..i + 1][..i] == reaches[..i];
  }

  /** After the first `n` batches, the raw set is the raw form of the keyed one. */
  ghost predicate InStep(d: set<Mapping>, batches: seq<seq<Event>>, reaches: seq<Reach>, ttl: int, n: nat)
    requires |reaches| == |batches| && n <= |batches|
  {
    ReachAll(RawSet(d, ttl), batches[..n], reaches[..n], ttl) == RawSet(KeyedReach(d, batches[..n], reaches[..n]), ttl)
  }

  /** The batch at `i` is not delivered to the end, or does not alias on the keyed set that it meets. */
  ghost predicate CleanAt(d: set<Mapping>, batches: seq<seq<Event>>, reaches: seq<Reach>, ttl: int, i: nat)
    requires |reaches| == |batches| && i < |batches|
  {
    reaches[i] == Complete ==> NoAliasing(KeyedReach(d, batches[..i], reaches[..i]), batches[i], ttl)
  }

  lemma {:induction false} LiftsUpTo(d: set<Mapping>, batches: seq<seq<Event>>, reaches: seq<Reach>, ttl: int, n: nat)
    requires |reaches| == |batches| && n <= |batches|
    requires forall i :: 0 <= i < n ==> CleanAt(d, batches, reaches, ttl, i)
    ensures InStep(d, batches, reaches, ttl, n)
  {
    hide NoAliasing, DeliverReached, Reached, RawSet;
    if n == 0 {
      assert batches[..0] == [] && reaches[..0] == [];
    } else {
      LiftsUpTo(d, batches, reaches, ttl, n - 1);
      assert CleanAt(d, batches, reaches, ttl, n - 1);
      ReachNext(d, batches, reaches, n - 1, ttl);
      EmissionLiftsIff(KeyedReach(d, batches[..n - 1], reaches[..n - 1]), batches[n - 1], ttl, reaches[n - 1]);
    }
  }

  /** Over every list of emissions, whatever fails: the raw set keeps in step with the keyed set exactly when no
      batch that is delivered to the end aliases on the set it meets. */
  lemma RunLiftsIff(d: set<Mapping>, batches: seq<seq<Event>>, reaches: seq<Reach>, ttl: int)
    requires |reaches| == |batches|
    ensures (forall i :: 0 <= i <= |batches| ==> InStep(d, batches, reaches, ttl, i))
        <==> (forall i :: 0 <= i < |batches| ==> CleanAt(d, batches, reaches, ttl, i))
  {
    hide NoAliasing, DeliverReached, Reached, RawSet, KeyedReach, ReachAll;
    if forall i :: 0 <= i < |batches| ==> CleanAt(d, batches, reaches, ttl, i) {
      forall i | 0 <= i <= |batches| ensures InStep(d, batches, reaches, ttl, i) {
        LiftsUpTo(d, batches, reaches, ttl, i);
      }
    }
    if forall i :: 0 <= i <= |batches| ==> InStep(d, batches, reaches, ttl, i) {
      forall i | 0 <= i < |batches| ensures CleanAt(d, batches, reaches, ttl, i) {
        assert InStep(d, batches, reaches, ttl, i) && InStep(d, batches, reaches, ttl, i + 1);
        ReachNext(d, batches, reaches, i, ttl);
        EmissionLiftsIff(KeyedReach(d, batches[..i], reaches[..i]), batches[i], ttl, reaches[i]);
      }
    }
  }

  /** At every emission of the run, live addresses are unique and ports fit. */
  ghost predicate UniqueThroughout(d: set<Mapping>, batches: seq<seq<Event>>, reaches: seq<Reach>)
    requires |reaches| == |batches|
  {
    forall i :: 0 <= i < |batches| ==> UniqueDuring(KeyedReach(d, batches[..i], reaches[..i]), batches[i])
  }

  lemma UniqueRunLifts(d: set<Mapping>, batches: seq<seq<Event>>, reaches: seq<Reach>, ttl: int)
    requires |reaches| == |batches| && UniqueThroughout(d, batches, reaches)
    ensures ReachAll(RawSet(d, ttl), batches, reaches, ttl) == RawSet(KeyedReach(d, batches, reaches), ttl)
  {
    hide NoAliasing, UniqueDuring, RawSet, KeyedReach, ReachAll;
    forall i | 0 <= i < |batches| ensures CleanAt(d, batches, reaches, ttl, i) {
      UniqueBackendsDoNotAlias(KeyedReach(d, batches[..i], reaches[..i]), batches[i], ttl);
    }
    LiftsUpTo(d, batches, reaches, ttl, |batches|);
    assert batches[..|batches|] == batches && reaches[..|batches|] == reaches;
  }

  // ---------------------------------------------------------------- full deliveries and failed deletes

  /** The last attempt of every emission ended well. */
  predicate AllComplete(reaches: seq<Reach>) {
    forall i :: 0 <= i < |reaches| ==> reaches[i] == Complete
  }

  function Completes(n: nat): (reaches: seq<Reach>)
    ensures |reaches| == n && AllComplete(reaches)
  {
    seq(n, _ => Complete)
  }

  /** When every emission of a run ends well, the keyed set is that of the delivered batches. */
  lemma {:induction false} CompleteRun(d: set<Mapping>, batches: seq<seq<Event>>, reaches: seq<Reach>)
    requires |reaches| == |batches| && AllComplete(reaches)
    ensures KeyedReach(d, batches, reaches) == DeliverAll(d, batches)
  {
    if batches != [] {
      var n := |batches| - 1;
      CompleteRun(d, batches[..n], reaches[..n]);
      hide Deliver;
    }
  }

  /** From any raw set that holds at least as much, when every emission at least registers, nothing that full
      deliveries would leave is missing: a failed delete only leaves mappings behind. */
  lemma {:induction false} RegisteredRun(raw: set<TcpRouteMapping>, more: set<TcpRouteMapping>,
                                         batches: seq<seq<Event>>, reaches: seq<Reach>, ttl: int)
    requires |reaches| == |batches| && raw <= more && forall i :: 0 <= i < |reaches| ==> reaches[i] != Untouched
    ensures ReachAll(raw, batches, Completes(|batches|), ttl) <= ReachAll(more, batches, reaches, ttl)
  {
    if batches != [] {
      var n := |batches| - 1;
      assert Completes(n + 1)[..n] == Completes(n);
      RegisteredRun(raw, more, batches[..n], reaches[..n], ttl);
      hide Requests, Select;
    }
  }

  lemma {:induction false} ReachConcat(raw: set<TcpRouteMapping>, a: seq<seq<Event>>, b: seq<seq<Event>>,
                                       r: seq<Reach>, q: seq<Reach>, ttl: int)
    requires |r| == |a| && |q| == |b|
    ensures ReachAll(raw, a + b, r + q, ttl) == ReachAll(ReachAll(raw, a, r, ttl), b, q, ttl)
  {
    if b == [] {
      assert a + b == a && r + q == r;
    } else {
      var n := |b| - 1;
      ReachConcat(raw, a, b[..n], r, q[..n], ttl);
      hide Reached;
      assert (a + b)[..|a + b| - 1] == a + b[..n] && (r + q)[..|a + b| - 1] == r + q[..n];
    }
  }

  lemma EmptyRawSet(ttl: int)
    ensures RawSet({}, ttl) == {}
  {
  }

  /** An emission that succeeds leaves the API with the raw form of the delivered batch, whatever went wrong before
      the retry. */
  lemma EmissionDelivers(d: set<Mapping>, batch: seq<Event>, ttl: int,
                         registrations: seq<TcpRouteMapping>, unregistrations: seq<TcpRouteMapping>,
                         first: Answers, second: Answers)
    requires Elements(registrations) == Requests(Select(batch, Registration), ttl)
    requires Elements(unregistrations) == Requests(Select(batch, Unregistration), ttl)
    requires NoAliasing(d, batch, ttl)
    requires EmitTrace(RawSet(d, ttl), registrations, unregistrations, first, second).result == Ok
    ensures EmitTrace(RawSet(d, ttl), registrations, unregistrations, first, second).mappings
         == RawSet(Deliver(d, batch), ttl)
  {
    EmitOutcomes(RawSet(d, ttl), registrations, unregistrations, first, second);
    DeliveryLiftsIff(d, batch, ttl);
    hide EmitTrace, RawSet, Requests, Select, Deliver, NoAliasing;
  }
}
