/**
 The table that a sync builds from the fetched lists: what it must hold, stated without any
 order, and the proof that building it edit by edit gives exactly that.
 */
module Snapshot {
  import opened Endpoints
  import opened Lrps
  import opened TableSpec
  import opened Operations
  import opened Convergence

  function RouteEdits(desireds: seq<DesiredLrp>): (edits: seq<Edit>) {
    if desireds == [] then []
    else RouteEdits(desireds[..|desireds| - 1]) + AddRoutes(desireds[|desireds| - 1])
  }

  /** All routes first, then all running endpoints, onto an empty table. */
  function Build(desireds: seq<DesiredLrp>, actuals: seq<ActualLrp>): Table {
    ApplyEdits(ApplyEdits(map[], RouteEdits(desireds)).table, Deliveries(actuals)).table
  }

  ghost predicate DistinctProcesses(desireds: seq<DesiredLrp>) {
    forall d, e :: d in desireds && e in desireds && d.processGuid == e.processGuid ==> d == e
  }

  ghost predicate DistinctInstances(actuals: seq<ActualLrp>) {
    forall a, b ::
      (&& a in actuals && b in actuals && a.processGuid == b.processGuid
       && a.instanceGuid == b.instanceGuid && a.evacuating == b.evacuating)
      ==> a == b
  }

  function BackendAt(a: ActualLrp, k: RoutingKey): Endpoint
    requires Backs(a, k)
  {
    EndpointsOf(a, a.ports)[k.containerPort]
  }

  /** The routing part of an entry: that of the desired LRP, or nothing. */
  ghost predicate HasRoutes(entry: Entry, desireds: seq<DesiredLrp>, k: RoutingKey) {
    && (forall d :: d in desireds && Routes(d, k) ==>
          && entry.externalEndpoints == RoutesFor(d.routes, k.containerPort)
          && entry.logGuid == d.logGuid
          && entry.modificationTag == d.modificationTag)
    && ((forall d :: d in desireds ==> !Routes(d, k)) ==>
          entry.(endpoints := map[]) == NO_ENTRY)
  }

  /** The endpoints of an entry: exactly those of the actual LRPs behind the key. */
  ghost predicate HasBackends(entry: Entry, actuals: seq<ActualLrp>, k: RoutingKey) {
    && (forall a :: a in actuals && Backs(a, k) ==>
          BackendAt(a, k).Key() in entry.endpoints && entry.endpoints[BackendAt(a, k).Key()] == BackendAt(a, k))
    && (forall b :: b in entry.endpoints ==>
          exists a :: a in actuals && Backs(a, k) && BackendAt(a, k).Key() == b)
  }

  ghost predicate Appears(desireds: seq<DesiredLrp>, actuals: seq<ActualLrp>, k: RoutingKey) {
    || (exists d :: d in desireds && Routes(d, k))
    || (exists a :: a in actuals && Backs(a, k))
  }

  /** What a snapshot of the fetched lists must hold. */
  ghost predicate IsSnapshot(t: Table, desireds: seq<DesiredLrp>, actuals: seq<ActualLrp>) {
    && (forall k :: k in t <==> Appears(desireds, actuals, k))
    && (forall k :: k in t ==> HasRoutes(t[k], desireds, k))
    && (forall k :: k in t ==> HasBackends(t[k], actuals, k))
  }

  // ---------------------------------------------------------------- the routes phase

  lemma {:induction false} RouteEdit(desireds: seq<DesiredLrp>, e: Edit)
    ensures e in RouteEdits(desireds) <==> exists d :: d in desireds && Routes(d, e.key) && e == Merge(e.key, d)
  {
    if desireds != [] {
      var n := |desireds| - 1;
      RouteEdit(desireds[..n], e);
      AddRoutesEdit(desireds[n], e);
      assert desireds == desireds[..n] + [desireds[n]];
    }
  }

  lemma AddRoutesEdit(d: DesiredLrp, e: Edit)
    ensures e in AddRoutes(d) <==> Routes(d, e.key) && e == Merge(e.key, d)
  {
    if Routes(d, e.key) && e == Merge(e.key, d) {
      var i :| 0 <= i < |d.routes| && d.routes[i].containerPort == e.key.containerPort;
      assert AddRoutes(d)[i] == e;
    }
  }

  lemma RouteEditsAgree(desireds: seq<DesiredLrp>)
    requires DistinctProcesses(desireds)
    ensures OneEditPerKey(RouteEdits(desireds))
  {
    var edits := RouteEdits(desireds);
    forall i, j | 0 <= i < |edits| && 0 <= j < |edits| && edits[i].key == edits[j].key ensures edits[i] == edits[j] {
      RouteEdit(desireds, edits[i]);
      RouteEdit(desireds, edits[j]);
    }
  }

  lemma RoutesPhase(desireds: seq<DesiredLrp>, k: RoutingKey)
    requires DistinctProcesses(desireds)
    ensures var t := ApplyEdits(map[], RouteEdits(desireds)).table;
            && (k in t <==> exists d :: d in desireds && Routes(d, k))
            && HasRoutes(Lookup(t, k), desireds, k)
            && Lookup(t, k).endpoints == map[]
  {
    hide ApplyEdits, ApplyEdit, RoutesFor;
    var edits := RouteEdits(desireds);
    RouteEditsAgree(desireds);
    if d :| d in desireds && Routes(d, k) {
      RouteEdit(desireds, Merge(k, d));
      EditedKey(map[], edits, Merge(k, d));
      FirstMerge(k, d);
    } else {
      forall i | 0 <= i < |edits| ensures edits[i].key != k {
        RouteEdit(desireds, edits[i]);
      }
      UntouchedKey(map[], edits, k);
    }
  }

  lemma FirstMerge(k: RoutingKey, d: DesiredLrp)
    requires Routes(d, k)
    ensures At(ApplyEdit(map[], Merge(k, d)).table, k)
         == Present(RoutableEndpoints(RoutesFor(d.routes, k.containerPort), map[], d.logGuid, d.modificationTag))
  {
    hide CreateEvent, Subtract;
    var r :| r in d.routes && r.containerPort == k.containerPort;
    assert ExternalEndpointInfo(r.routerGroupGuid, r.externalPort) in RoutesFor(d.routes, k.containerPort);
  }

  // ---------------------------------------------------------------- the endpoints phase

  lemma AddEndpointEdit(a: ActualLrp, e: Edit)
    ensures Delivers(a, e) <==> Backs(a, e.key) && e == Put(e.key, BackendAt(a, e.key))
  {
    hide EndpointsOf;
    if Backs(a, e.key) && e == Put(e.key, BackendAt(a, e.key)) {
      var i :| 0 <= i < |a.ports| && a.ports[i].containerPort == e.key.containerPort;
      assert AddEndpoint(a)[i] == e;
    }
  }

  lemma BackendKey(a: ActualLrp, k: RoutingKey)
    requires Backs(a, k)
    ensures BackendAt(a, k).Key() == EndpointKey(a.instanceGuid, a.evacuating)
  {
  }

  /** Puts at the same routing key and endpoint key are the same put. */
  ghost predicate OnePutPerEndpoint(edits: seq<Edit>) {
    && AllPuts(edits)
    && forall p, q :: p in edits && q in edits && p.key == q.key && p.endpoint.Key() == q.endpoint.Key() ==> p == q
  }

  lemma DeliveriesAgree(actuals: seq<ActualLrp>)
    requires DistinctInstances(actuals)
    ensures OnePutPerEndpoint(Deliveries(actuals))
  {
    hide EndpointsOf, Deliveries, Delivers, BackendAt;
    DeliveriesArePuts(actuals);
    var edits := Deliveries(actuals);
    forall p, q | p in edits && q in edits && p.key == q.key && p.endpoint.Key() == q.endpoint.Key() ensures p == q {
      var a := DeliverySource(actuals, p);
      var b := DeliverySource(actuals, q);
      BackendKey(a, p.key);
      BackendKey(b, q.key);
    }
  }

  lemma DeliverySource(actuals: seq<ActualLrp>, p: Edit) returns (a: ActualLrp)
    requires p in Deliveries(actuals)
    ensures a in actuals && Backs(a, p.key) && p == Put(p.key, BackendAt(a, p.key))
  {
    hide Delivers, Deliveries;
    DeliveryEdit(actuals, p);
    a :| a in actuals && Delivers(a, p);
    AddEndpointEdit(a, p);
  }

  /** The entry at `k` after the puts, when it had no endpoints before: exactly the endpoints put there. */
  ghost predicate Collected(t: Table, puts: seq<Edit>, result: Table, k: RoutingKey) {
    && (k in result <==> k in t || exists p :: p in puts && p.key == k)
    && Lookup(result, k).(endpoints := map[]) == Lookup(t, k).(endpoints := map[])
    && (forall p :: p in puts && p.Put? && p.key == k ==>
          && p.endpoint.Key() in Lookup(result, k).endpoints
          && Lookup(result, k).endpoints[p.endpoint.Key()] == p.endpoint)
    && (forall b :: b in Lookup(result, k).endpoints ==>
          exists p :: p in puts && p.Put? && p.key == k && p.endpoint.Key() == b)
  }

  lemma {:induction false} PutsCollect(t: Table, puts: seq<Edit>, k: RoutingKey)
    requires OnePutPerEndpoint(puts) && Lookup(t, k).endpoints == map[]
    ensures Collected(t, puts, ApplyEdits(t, puts).table, k)
  {
    if puts != [] {
      var n := |puts| - 1;
      var prefix, last := puts[..n], puts[n];
      assert puts == prefix + [last];
      assert last in puts && forall p :: p in prefix ==> p in puts;
      assert OnePutPerEndpoint(prefix);
      hide ApplyEdit;
      PutsCollect(t, prefix, k);
      CollectStep(t, prefix, last, ApplyEdits(t, prefix).table, k);
    } else {
      hide ApplyEdit;
    }
  }

  lemma CollectStored(t: Table, puts: seq<Edit>, put: Edit, before: Table, k: RoutingKey)
    requires put.Put? && OnePutPerEndpoint(puts + [put]) && Collected(t, puts, before, k)
    ensures Collected(t, puts + [put], Stored(before, put), k)
  {
    assert (puts + [put])[|puts|] == put;
    assert forall p :: p in puts + [put] <==> p in puts || p == put;
    var entry := Lookup(Stored(before, put), k);
    if put.key == k {
      forall b | b in entry.endpoints
        ensures exists p :: p in puts + [put] && p.Put? && p.key == k && p.endpoint.Key() == b
      {
        if b != put.endpoint.Key() {
          var p :| p in puts && p.Put? && p.key == k && p.endpoint.Key() == b;
          assert p in puts + [put];
        }
      }
    } else {
      assert entry == Lookup(before, k);
    }
  }

  /** A refused put was there already. */
  lemma CollectRefused(t: Table, puts: seq<Edit>, put: Edit, before: Table, k: RoutingKey)
    requires put.Put? && OnePutPerEndpoint(puts + [put]) && Collected(t, puts, before, k)
    requires put.key == k ==> put.endpoint.Key() in Lookup(before, k).endpoints
    ensures put.key == k ==> put in puts
    ensures Collected(t, puts + [put], before, k)
  {
    assert (puts + [put])[|puts|] == put;
    assert forall p :: p in puts + [put] <==> p in puts || p == put;
    if put.key == k {
      var p :| p in puts && p.Put? && p.key == k && p.endpoint.Key() == put.endpoint.Key();
      assert p == put;
    }
  }

  lemma CollectStep(t: Table, puts: seq<Edit>, put: Edit, before: Table, k: RoutingKey)
    requires OnePutPerEndpoint(puts + [put]) && Collected(t, puts, before, k)
    ensures Collected(t, puts + [put], ApplyEdit(before, put).table, k)
  {
    assert (puts + [put])[|puts|] == put;
    PutOutcome(before, put);
    hide ApplyEdit, Collected, Stored;
    if put.Accepted(before) {
      CollectStored(t, puts, put, before, k);
    } else {
      CollectRefused(t, puts, put, before, k);
    }
  }

  // ---------------------------------------------------------------- the whole build

  lemma BuildAtKey(desireds: seq<DesiredLrp>, actuals: seq<ActualLrp>, k: RoutingKey)
    requires DistinctProcesses(desireds) && DistinctInstances(actuals)
    ensures var t := Build(desireds, actuals);
            && (k in t <==> Appears(desireds, actuals, k))
            && HasRoutes(Lookup(t, k), desireds, k)
            && HasBackends(Lookup(t, k), actuals, k)
  {
    hide ApplyEdits, EndpointsOf, RoutesFor, Deliveries, RouteEdits, BackendAt, OnePutPerEndpoint, Delivers;
    var routed := ApplyEdits(map[], RouteEdits(desireds)).table;
    var puts := Deliveries(actuals);
    RoutesPhase(desireds, k);
    DeliveriesAgree(actuals);
    PutsCollect(routed, puts, k);
    forall a | a in actuals && Backs(a, k) ensures Put(k, BackendAt(a, k)) in puts {
      AddEndpointEdit(a, Put(k, BackendAt(a, k)));
      DeliveryEdit(actuals, Put(k, BackendAt(a, k)));
    }
    forall p | p in puts && p.key == k
      ensures exists a :: a in actuals && Backs(a, k) && p == Put(k, BackendAt(a, k))
    {
      var a := DeliverySource(actuals, p);
    }
  }

  /** Building edit by edit meets the declarative specification. */
  lemma BuildIsSnapshot(desireds: seq<DesiredLrp>, actuals: seq<ActualLrp>)
    requires DistinctProcesses(desireds) && DistinctInstances(actuals)
    ensures IsSnapshot(Build(desireds, actuals), desireds, actuals)
  {
    hide Build, HasRoutes, HasBackends, Appears;
    forall k
      ensures k in Build(desireds, actuals) <==> Appears(desireds, actuals, k)
      ensures HasRoutes(Lookup(Build(desireds, actuals), k), desireds, k)
      ensures HasBackends(Lookup(Build(desireds, actuals), k), actuals, k)
    {
      BuildAtKey(desireds, actuals, k);
    }
  }

  /** Lists with the same members have at most one snapshot. */
  lemma SnapshotIsUnique(s: Table, t: Table, desireds: seq<DesiredLrp>, actuals: seq<ActualLrp>,
                         desireds': seq<DesiredLrp>, actuals': seq<ActualLrp>)
    requires IsSnapshot(s, desireds, actuals) && IsSnapshot(t, desireds', actuals')
    requires (forall d :: d in desireds <==> d in desireds') && (forall a :: a in actuals <==> a in actuals')
    ensures s == t
  {
    hide Routes, Backs, HasRoutes, HasBackends;
    assert s.Keys == t.Keys;
    forall k | k in s ensures s[k] == t[k] {
      SameEntry(s[k], t[k], desireds, actuals, desireds', actuals', k);
    }
  }

  lemma SameEntry(s: Entry, t: Entry, desireds: seq<DesiredLrp>, actuals: seq<ActualLrp>,
                  desireds': seq<DesiredLrp>, actuals': seq<ActualLrp>, k: RoutingKey)
    requires HasRoutes(s, desireds, k) && HasBackends(s, actuals, k)
    requires HasRoutes(t, desireds', k) && HasBackends(t, actuals', k)
    requires (forall d :: d in desireds <==> d in desireds') && (forall a :: a in actuals <==> a in actuals')
    ensures s == t
  {
    hide HasRoutes, HasBackends;
    SameBackends(s, t, actuals, actuals', k);
    SameBackends(t, s, actuals', actuals, k);
    assert s.endpoints == t.endpoints;
    SameRoutes(s, t, desireds, desireds', k);
    assert s == s.(endpoints := map[]).(endpoints := t.endpoints);
  }

  lemma SameRoutes(s: Entry, t: Entry, desireds: seq<DesiredLrp>, desireds': seq<DesiredLrp>, k: RoutingKey)
    requires HasRoutes(s, desireds, k) && HasRoutes(t, desireds', k)
    requires forall d :: d in desireds <==> d in desireds'
    ensures s.(endpoints := map[]) == t.(endpoints := map[])
  {
    hide Routes, RoutesFor;
    if d :| d in desireds && Routes(d, k) {
      assert d in desireds';
    }
  }

  lemma SameBackends(s: Entry, t: Entry, actuals: seq<ActualLrp>, actuals': seq<ActualLrp>, k: RoutingKey)
    requires HasBackends(s, actuals, k) && HasBackends(t, actuals', k)
    requires forall a :: a in actuals <==> a in actuals'
    ensures forall b :: b in s.endpoints ==> b in t.endpoints && s.endpoints[b] == t.endpoints[b]
  {
    hide Backs, BackendAt;
    forall b | b in s.endpoints ensures b in t.endpoints && s.endpoints[b] == t.endpoints[b] {
      var a :| a in actuals && Backs(a, k) && BackendAt(a, k).Key() == b;
      assert a in actuals';
    }
  }

  /** Any order and repetition of the fetched lists gives the same table. */
  lemma BuildIgnoresOrder(desireds: seq<DesiredLrp>, actuals: seq<ActualLrp>,
                          desireds': seq<DesiredLrp>, actuals': seq<ActualLrp>)
    requires DistinctProcesses(desireds) && DistinctInstances(actuals)
    requires (forall d :: d in desireds <==> d in desireds') && (forall a :: a in actuals <==> a in actuals')
    ensures Build(desireds, actuals) == Build(desireds', actuals')
  {
    hide Build, IsSnapshot;
    BuildIsSnapshot(desireds, actuals);
    BuildIsSnapshot(desireds', actuals');
    SnapshotIsUnique(Build(desireds, actuals), Build(desireds', actuals'), desireds, actuals, desireds', actuals');
  }

  // ---------------------------------------------------------------- when a build is empty

  /** A put, or a merge that asks for something: its key is in the table afterwards. */
  predicate Arrives(edit: Edit) {
    edit.Put? || (edit.Merge? && Wanted(edit) != [])
  }

  lemma ArrivesStep(t: Table, edit: Edit)
    requires Arrives(edit)
    ensures t.Keys + {edit.key} <= ApplyEdit(t, edit).table.Keys
  {
    hide CreateEvent, Subtract, RoutesFor;
    if edit.Merge? && edit.key !in t {
      assert Wanted(edit)[0] in Wanted(edit);
    }
  }

  lemma {:induction false} KeysArrive(t: Table, edits: seq<Edit>)
    requires forall i :: 0 <= i < |edits| ==> Arrives(edits[i])
    ensures t.Keys <= ApplyEdits(t, edits).table.Keys
    ensures forall i :: 0 <= i < |edits| ==> edits[i].key in ApplyEdits(t, edits).table
  {
    hide ApplyEdit, ApplyEdits, Arrives;
    if edits == [] {
      NoEdits(t);
    } else {
      var n := |edits| - 1;
      var prefix, last := edits[..n], edits[n];
      KeysArrive(t, prefix);
      ApplyEditsSnoc(t, prefix, last);
      assert edits == prefix + [last];
      ArrivesStep(ApplyEdits(t, prefix).table, last);
      forall i | 0 <= i < |edits| ensures edits[i].key in ApplyEdits(t, edits).table {
        assert i < n ==> edits[i] == prefix[i];
      }
    }
  }

  lemma {:induction false} NothingToBuild(desireds: seq<DesiredLrp>, actuals: seq<ActualLrp>)
    ensures (forall d :: d in desireds ==> d.routes == []) ==> RouteEdits(desireds) == []
    ensures (forall a :: a in actuals ==> a.ports == []) ==> Deliveries(actuals) == []
    decreases |desireds| + |actuals|
  {
    if desireds != [] {
      NothingToBuild(desireds[..|desireds| - 1], actuals);
    } else if actuals != [] {
      NothingToBuild(desireds, actuals[..|actuals| - 1]);
    }
  }

  lemma RouteEditsArrive(desireds: seq<DesiredLrp>)
    ensures forall i :: 0 <= i < |RouteEdits(desireds)| ==> Arrives(RouteEdits(desireds)[i])
    ensures RouteEdits(desireds) == [] <==> forall d :: d in desireds ==> d.routes == []
  {
    NothingToBuild(desireds, []);
    hide RouteEdits, RoutesFor;
    var edits := RouteEdits(desireds);
    forall i | 0 <= i < |edits| ensures Arrives(edits[i]) {
      RouteEdit(desireds, edits[i]);
      var d :| d in desireds && Routes(d, edits[i].key) && edits[i] == Merge(edits[i].key, d);
      var r :| r in d.routes && r.containerPort == edits[i].key.containerPort;
      assert ExternalEndpointInfo(r.routerGroupGuid, r.externalPort) in Wanted(edits[i]);
    }
    forall d | d in desireds && d.routes != [] ensures edits != [] {
      var k := RoutingKey(d.processGuid, d.routes[0].containerPort);
      assert Routes(d, k);
      RouteEdit(desireds, Merge(k, d));
    }
  }

  lemma DeliveriesArrive(actuals: seq<ActualLrp>)
    ensures forall i :: 0 <= i < |Deliveries(actuals)| ==> Arrives(Deliveries(actuals)[i])
    ensures Deliveries(actuals) == [] <==> forall a :: a in actuals ==> a.ports == []
  {
    NothingToBuild([], actuals);
    hide Deliveries, EndpointsOf;
    DeliveriesArePuts(actuals);
    forall a | a in actuals && a.ports != [] ensures Deliveries(actuals) != [] {
      assert Delivers(a, AddEndpoint(a)[0]);
      DeliveryEdit(actuals, AddEndpoint(a)[0]);
    }
  }

  /** A build is empty exactly when no list asks for anything; an endpoint without any route is enough to fill it. */
  lemma BuildIsEmptyIff(desireds: seq<DesiredLrp>, actuals: seq<ActualLrp>)
    ensures Build(desireds, actuals) == map[] <==>
              && (forall d :: d in desireds ==> d.routes == [])
              && (forall a :: a in actuals ==> a.ports == [])
  {
    RouteEditsArrive(desireds);
    DeliveriesArrive(actuals);
    hide RouteEdits, Deliveries, Arrives;
    var routes, puts := RouteEdits(desireds), Deliveries(actuals);
    var routed := ApplyEdits(map[], routes).table;
    KeysArrive(map[], routes);
    KeysArrive(routed, puts);
    NoEdits(map[]);
    hide ApplyEdits;
    if routes != [] {
      assert routes[0].key in routed;
      assert routes[0].key in Build(desireds, actuals);
    } else if puts != [] {
      assert puts[0].key in Build(desireds, actuals);
    }
  }
}
