/**
 What each table operation and each BBS event does to one routing key, in terms of what was
 stored and served there before: a reference for the operations that mentions neither the edits
 they are made of nor the tests the program makes on the way.
 */
module Outcomes {
  import opened Endpoints
  import opened Lrps
  import opened Events
  import opened TableSpec
  import opened Downstream
  import opened Agreement
  import opened Operations
  import opened OperationAgreement

  /** A table and a remote set. */
  datatype Site = Site(table: Table, remote: set<Mapping>)

  /** The site after an operation, with its batch delivered. */
  function Perform(s: Site, outcome: Outcome): Site {
    Site(outcome.table, Deliver(s.remote, outcome.events))
  }

  // ---------------------------------------------------------------- the order of tags

  /** An unknown order counts as older: no tag, no epoch, or another epoch. */
  predicate Incomparable(stored: ModificationTag, given: ModificationTag) {
    stored.Absent? || given.Absent? || stored.epoch == "" || given.epoch == "" || stored.epoch != given.epoch
  }

  predicate Older(stored: ModificationTag, given: ModificationTag) {
    Incomparable(stored, given) || stored.index < given.index
  }

  predicate NotNewer(stored: ModificationTag, given: ModificationTag) {
    Incomparable(stored, given) || stored.index <= given.index
  }

  // ---------------------------------------------------------------- what can happen at a key

  ghost predicate SameEntry(s: Site, after: Site, k: RoutingKey) {
    (k in s.table <==> k in after.table) && Lookup(s.table, k) == Lookup(after.table, k)
  }

  ghost predicate SameRemote(s: Site, after: Site, k: RoutingKey) {
    forall m: Mapping :: m.key == k ==> (m in after.remote <==> m in s.remote)
  }

  ghost predicate Unchanged(s: Site, after: Site, k: RoutingKey) {
    SameEntry(s, after, k) && SameRemote(s, after, k)
  }

  /** The desired LRP has a route on the key's container port with an external port that the entry lacks. */
  ghost predicate Brings(d: DesiredLrp, k: RoutingKey, entry: Entry) {
    exists r :: r in d.routes && r.containerPort == k.containerPort && r.externalPort !in Ports(entry.externalEndpoints)
  }

  /** Something the entry exposes under a port that the desired LRP does not route, none of these ports being zero. */
  ghost predicate Withdrawn(k: RoutingKey, entry: Entry, wanted: ExternalEndpoints, m: Mapping) {
    && Exposes(k, entry, m) && m.external.port !in Ports(wanted)
    && forall x :: x in entry.externalEndpoints && x.port !in Ports(wanted) ==> x.port != 0
  }

  /** The routes of a desired LRP come to a key. An older entry that lacks one of the ports is replaced, keeping its
      backends, and everything the new one asks for is served; of an older entry, what is not routed is taken away. */
  ghost predicate Routed(s: Site, after: Site, d: DesiredLrp, k: RoutingKey) {
    var entry, wanted := Lookup(s.table, k), RoutesFor(d.routes, k.containerPort);
    var updated := RoutableEndpoints(wanted, entry.endpoints, d.logGuid, d.modificationTag);
    if !Older(entry.modificationTag, d.modificationTag) then Unchanged(s, after, k)
    else
      && (if Brings(d, k, entry) then k in after.table && after.table[k] == updated else SameEntry(s, after, k))
      && forall m: Mapping :: m.key == k ==>
           (m in after.remote <==>
              || (Brings(d, k, entry) && NonZero(wanted) && Exposes(k, updated, m))
              || (m in s.remote && !Withdrawn(k, entry, wanted, m)))
  }

  /** A key is removed under a tag: an older entry goes, with everything it exposes unless a port is zero. */
  ghost predicate Removed(s: Site, after: Site, tag: ModificationTag, k: RoutingKey) {
    var entry := Lookup(s.table, k);
    if k !in s.table || !Older(entry.modificationTag, tag) then Unchanged(s, after, k)
    else
      && k !in after.table
      && forall m: Mapping :: m.key == k ==>
           (m in after.remote <==> m in s.remote && !(NonZero(entry.externalEndpoints) && Exposes(k, entry, m)))
  }

  /** A backend comes to a key: unless the entry has it in a version that is not older, it is stored beside the others
      and the whole entry is served, unless a port is zero. */
  ghost predicate Backed(s: Site, after: Site, e: Endpoint, k: RoutingKey) {
    var entry := Lookup(s.table, k);
    var updated := entry.(endpoints := entry.endpoints[e.Key() := e]);
    if e.Key() in entry.endpoints && !Older(entry.endpoints[e.Key()].modificationTag, e.modificationTag)
    then Unchanged(s, after, k)
    else
      && k in after.table && after.table[k] == updated
      && forall m: Mapping :: m.key == k ==>
           (m in after.remote <==> m in s.remote || (NonZero(updated.externalEndpoints) && Exposes(k, updated, m)))
  }

  /** A backend leaves a key: if the entry has it in a version that is not newer, it goes, the rest of the entry
      stays, and what the entry exposed of it is taken away, unless a port is zero. */
  ghost predicate Unbacked(s: Site, after: Site, e: Endpoint, k: RoutingKey) {
    var entry := Lookup(s.table, k);
    if e.Key() !in entry.endpoints || !NotNewer(entry.endpoints[e.Key()].modificationTag, e.modificationTag)
    then Unchanged(s, after, k)
    else
      && k in after.table && after.table[k] == entry.(endpoints := entry.endpoints - {e.Key()})
      && forall m: Mapping :: m.key == k ==>
           (m in after.remote <==>
              m in s.remote
              && !(NonZero(entry.externalEndpoints) && Exposes(k, entry, m) && m.endpointKey == e.Key()))
  }

  /** The backend of an actual LRP at a key: of several mappings of the container port, the last gives the host port. */
  ghost predicate IsBackend(a: ActualLrp, k: RoutingKey, e: Endpoint) {
    && e.instanceGuid == a.instanceGuid && e.evacuating == a.evacuating && e.host == a.address
    && e.containerPort == k.containerPort && e.modificationTag == a.modificationTag
    && exists i :: IsLast(a.ports, i, PortMapping(k.containerPort, e.port))
  }

  predicate IsLast(ports: seq<PortMapping>, i: int, p: PortMapping) {
    && 0 <= i < |ports| && ports[i] == p
    && forall j :: i < j < |ports| ==> ports[j].containerPort != p.containerPort
  }

  // ---------------------------------------------------------------- single edits

  lemma TagsDecide(stored: ModificationTag, given: ModificationTag)
    ensures stored.SucceededBy(given) <==> Older(stored, given)
    ensures stored == given || stored.SucceededBy(given) <==> NotNewer(stored, given)
  {
  }

  function SiteOf(w: World): Site {
    Site(w.table, w.downstream)
  }

  lemma MergeMeans(w: World, k: RoutingKey, d: DesiredLrp)
    ensures Routed(SiteOf(w), SiteOf(Step(w, Merge(k, d))), d, k)
  {
    var edit, entry := Merge(k, d), Lookup(w.table, k);
    StepEffect(w, edit);
    TagsDecide(entry.modificationTag, d.modificationTag);
    BringsMeans(w.table, k, d);
    hide Older, Brings, RoutesFor, Replay, CreateEvent, BringsNewPort, Product;
    assert NonZero(Gone(w.table, edit)) <==>
             forall x :: x in entry.externalEndpoints && x.port !in Ports(Wanted(edit)) ==> x.port != 0;
  }

  lemma BringsMeans(t: Table, k: RoutingKey, d: DesiredLrp)
    ensures BringsNewPort(t, Merge(k, d)) <==> Brings(d, k, Lookup(t, k))
  {
    var entry, wanted := Lookup(t, k), Wanted(Merge(k, d));
    if x :| x in wanted && !ContainsExternalPort(entry.externalEndpoints, x.port) {
      var r :| r in d.routes && r.containerPort == k.containerPort
               && x == ExternalEndpointInfo(r.routerGroupGuid, r.externalPort);
      assert r.externalPort !in Ports(entry.externalEndpoints);
    }
    if r :| r in d.routes && r.containerPort == k.containerPort && r.externalPort !in Ports(entry.externalEndpoints) {
      var x := ExternalEndpointInfo(r.routerGroupGuid, r.externalPort);
      assert x in wanted && !ContainsExternalPort(entry.externalEndpoints, x.port);
    }
  }

  lemma DropMeans(w: World, k: RoutingKey, tag: ModificationTag)
    ensures Removed(SiteOf(w), SiteOf(Step(w, Drop(k, tag))), tag, k)
  {
    StepEffect(w, Drop(k, tag));
    TagsDecide(Lookup(w.table, k).modificationTag, tag);
    hide Older, Replay, CreateEvent, Product;
  }

  lemma PutMeans(w: World, k: RoutingKey, e: Endpoint)
    ensures Backed(SiteOf(w), SiteOf(Step(w, Put(k, e))), e, k)
  {
    StepEffect(w, Put(k, e));
    var entry := Lookup(w.table, k);
    if e.Key() in entry.endpoints {
      TagsDecide(entry.endpoints[e.Key()].modificationTag, e.modificationTag);
    }
    hide Older, Replay, CreateEvent, Product;
  }

  lemma TakeMeans(w: World, k: RoutingKey, e: Endpoint)
    ensures Unbacked(SiteOf(w), SiteOf(Step(w, Take(k, e))), e, k)
  {
    StepEffect(w, Take(k, e));
    var entry := Lookup(w.table, k);
    if e.Key() in entry.endpoints {
      TagsDecide(entry.endpoints[e.Key()].modificationTag, e.modificationTag);
    }
    hide NotNewer, Replay, CreateEvent, Product;
  }

  // ---------------------------------------------------------------- from one edit to an operation

  /** Two sites look the same at one routing key. */
  ghost predicate SameSite(a: Site, b: Site, k: RoutingKey) {
    SameEntry(a, b, k) && SameRemote(a, b, k)
  }

  lemma MeansAlike(s: Site, a: Site, b: Site, k: RoutingKey)
    requires SameSite(a, b, k)
    ensures Unchanged(s, a, k) <==> Unchanged(s, b, k)
    ensures forall d :: Routed(s, a, d, k) <==> Routed(s, b, d, k)
    ensures forall tag :: Removed(s, a, tag, k) <==> Removed(s, b, tag, k)
    ensures forall e :: Backed(s, a, e, k) <==> Backed(s, b, e, k)
    ensures forall e :: Unbacked(s, a, e, k) <==> Unbacked(s, b, e, k)
  {
    hide Exposes, Brings, Withdrawn, NonZero, RoutesFor, Older, NotNewer;
  }

  /** An operation with its batch delivered looks at every key like its edits taken one after the other. */
  lemma PerformIsRun(s: Site, edits: seq<Edit>)
    requires OneEditPerKey(edits)
    ensures Perform(s, ApplyEdits(s.table, edits)) == SiteOf(RunEdits(World(s.table, {}, s.remote), edits))
  {
    hide ApplyEdits, Deliver, Replay, RunEdits;
    BatchIsDisjoint(s.table, edits);
    ReorderingPreservesMeaning(s.remote, ApplyEdits(s.table, edits).events);
    RunIsFold(World(s.table, {}, s.remote), edits);
  }

  /** At the key of an edit, the operation does what that edit alone does. */
  lemma AtEditedKey(s: Site, edits: seq<Edit>, edit: Edit)
    requires OneEditPerKey(edits) && edit in edits
    ensures SameSite(Perform(s, ApplyEdits(s.table, edits)), SiteOf(Step(World(s.table, {}, s.remote), edit)), edit.key)
  {
    hide ApplyEdits, Deliver, RunEdits, Step, Perform;
    PerformIsRun(s, edits);
    RunAtKey(World(s.table, {}, s.remote), edits, edit);
  }

  lemma AtOtherKey(s: Site, edits: seq<Edit>, k: RoutingKey)
    requires OneEditPerKey(edits) && forall i :: 0 <= i < |edits| ==> edits[i].key != k
    ensures Unchanged(s, Perform(s, ApplyEdits(s.table, edits)), k)
  {
    hide ApplyEdits, Deliver, RunEdits, Step, Perform;
    PerformIsRun(s, edits);
    RunLeavesKey(World(s.table, {}, s.remote), edits, k);
  }

  lemma MergeInOperation(s: Site, edits: seq<Edit>, k: RoutingKey, d: DesiredLrp)
    requires OneEditPerKey(edits) && Merge(k, d) in edits
    ensures Routed(s, Perform(s, ApplyEdits(s.table, edits)), d, k)
  {
    hide Routed, Removed, Backed, Unbacked, Unchanged, Perform, ApplyEdits, Step;
    var w := World(s.table, {}, s.remote);
    AtEditedKey(s, edits, Merge(k, d));
    MergeMeans(w, k, d);
    MeansAlike(s, Perform(s, ApplyEdits(s.table, edits)), SiteOf(Step(w, Merge(k, d))), k);
  }

  lemma DropInOperation(s: Site, edits: seq<Edit>, k: RoutingKey, tag: ModificationTag)
    requires OneEditPerKey(edits) && Drop(k, tag) in edits
    ensures Removed(s, Perform(s, ApplyEdits(s.table, edits)), tag, k)
  {
    hide Routed, Removed, Backed, Unbacked, Unchanged, Perform, ApplyEdits, Step;
    var w := World(s.table, {}, s.remote);
    AtEditedKey(s, edits, Drop(k, tag));
    DropMeans(w, k, tag);
    MeansAlike(s, Perform(s, ApplyEdits(s.table, edits)), SiteOf(Step(w, Drop(k, tag))), k);
  }

  lemma PutInOperation(s: Site, edits: seq<Edit>, k: RoutingKey, e: Endpoint)
    requires OneEditPerKey(edits) && Put(k, e) in edits
    ensures Backed(s, Perform(s, ApplyEdits(s.table, edits)), e, k)
  {
    hide Routed, Removed, Backed, Unbacked, Unchanged, Perform, ApplyEdits, Step;
    var w := World(s.table, {}, s.remote);
    AtEditedKey(s, edits, Put(k, e));
    PutMeans(w, k, e);
    MeansAlike(s, Perform(s, ApplyEdits(s.table, edits)), SiteOf(Step(w, Put(k, e))), k);
  }

  lemma TakeInOperation(s: Site, edits: seq<Edit>, k: RoutingKey, e: Endpoint)
    requires OneEditPerKey(edits) && Take(k, e) in edits
    ensures Unbacked(s, Perform(s, ApplyEdits(s.table, edits)), e, k)
  {
    hide Routed, Removed, Backed, Unbacked, Unchanged, Perform, ApplyEdits, Step;
    var w := World(s.table, {}, s.remote);
    AtEditedKey(s, edits, Take(k, e));
    TakeMeans(w, k, e);
    MeansAlike(s, Perform(s, ApplyEdits(s.table, edits)), SiteOf(Step(w, Take(k, e))), k);
  }

  // ---------------------------------------------------------------- the operations

  lemma KeyOfRoute(d: DesiredLrp, k: RoutingKey)
    ensures Routes(d, k) <==> k in DesiredKeys(d)
  {
    if r :| Routes(d, k) && r in d.routes && r.containerPort == k.containerPort {
      var i :| 0 <= i < |d.routes| && d.routes[i] == r;
      assert DesiredKeys(d)[i] == k;
    }
  }

  lemma KeyOfPort(a: ActualLrp, k: RoutingKey)
    ensures Backs(a, k) <==> k in ActualKeys(a)
  {
    if m :| Backs(a, k) && m in a.ports && m.containerPort == k.containerPort {
      var i :| 0 <= i < |a.ports| && a.ports[i] == m;
      assert ActualKeys(a)[i] == k;
    }
  }

  /** Adding routes: they come to every key that the desired LRP routes, and nothing else changes. */
  lemma RoutesAreAdded(s: Site, d: DesiredLrp, k: RoutingKey)
    ensures var after := Perform(s, ApplyEdits(s.table, AddRoutes(d)));
            if Routes(d, k) then Routed(s, after, d, k) else Unchanged(s, after, k)
  {
    hide Routes, Routed, Unchanged, Perform, ApplyEdits;
    KeyOfRoute(d, k);
    if Routes(d, k) {
      var i :| 0 <= i < |d.routes| && DesiredKeys(d)[i] == k;
      assert AddRoutes(d)[i] == Merge(k, d);
      MergeInOperation(s, AddRoutes(d), k, d);
    } else {
      AtOtherKey(s, AddRoutes(d), k);
    }
  }

  /** Removing routes: every key that the desired LRP routes is removed under its tag, and nothing else changes. */
  lemma RoutesAreRemoved(s: Site, d: DesiredLrp, k: RoutingKey)
    ensures var after := Perform(s, ApplyEdits(s.table, RemoveRoutes(d)));
            if Routes(d, k) then Removed(s, after, d.modificationTag, k) else Unchanged(s, after, k)
  {
    hide Routes, Removed, Unchanged, Perform, ApplyEdits;
    KeyOfRoute(d, k);
    if Routes(d, k) {
      var i :| 0 <= i < |d.routes| && DesiredKeys(d)[i] == k;
      assert RemoveRoutes(d)[i] == Drop(k, d.modificationTag);
      DropInOperation(s, RemoveRoutes(d), k, d.modificationTag);
    } else {
      AtOtherKey(s, RemoveRoutes(d), k);
    }
  }

  /** Updating routes: the new version's routes come to its keys, and the keys only the old version routes are removed
      under the new version's tag. */
  lemma RoutesAreUpdated(s: Site, before: DesiredLrp, after: DesiredLrp, k: RoutingKey)
    ensures var site := Perform(s, ApplyEdits(s.table, UpdateRoutes(before, after)));
            if Routes(after, k) then Routed(s, site, after, k)
            else if Routes(before, k) then Removed(s, site, after.modificationTag, k)
            else Unchanged(s, site, k)
  {
    hide Routes, Routed, Removed, Unchanged, Perform, ApplyEdits, OneEditPerKey;
    var edits := UpdateRoutes(before, after);
    var dropped := KeysWithout(DesiredKeys(before), DesiredKeys(after));
    EventsEditEachKeyOnce(DesiredChanged(before, after));
    KeyOfRoute(before, k);
    KeyOfRoute(after, k);
    if Routes(after, k) {
      var i :| 0 <= i < |after.routes| && DesiredKeys(after)[i] == k;
      assert edits[i] == Merge(k, after);
      MergeInOperation(s, edits, k, after);
    } else if Routes(before, k) {
      var i :| 0 <= i < |dropped| && dropped[i] == k;
      assert edits[|after.routes| + i] == Drop(k, after.modificationTag);
      DropInOperation(s, edits, k, after.modificationTag);
    } else {
      forall i | 0 <= i < |edits| ensures edits[i].key != k {
        if i >= |after.routes| {
          assert edits[i].key == dropped[i - |after.routes|];
        }
      }
      AtOtherKey(s, edits, k);
    }
  }

  /** The port mappings of an actual LRP give one backend per key. */
  lemma BackendIs(a: ActualLrp, k: RoutingKey)
    requires Backs(a, k)
    ensures k.containerPort in EndpointsOf(a, a.ports)
    ensures forall e :: IsBackend(a, k, e) <==> e == EndpointsOf(a, a.ports)[k.containerPort]
  {
    var i := LastPort(a.ports, k.containerPort);
    LastMappingWins(a, a.ports, i);
    hide EndpointsOf;
    forall e | IsBackend(a, k, e) ensures e == EndpointsOf(a, a.ports)[k.containerPort] {
      var j :| IsLast(a.ports, j, PortMapping(k.containerPort, e.port));
      assert j == i;
    }
    assert IsLast(a.ports, i, a.ports[i]);
  }

  lemma LastPort(ports: seq<PortMapping>, containerPort: uint32) returns (i: nat)
    requires exists m :: m in ports && m.containerPort == containerPort
    ensures i < |ports| && ports[i].containerPort == containerPort
    ensures forall j :: i < j < |ports| ==> ports[j].containerPort != containerPort
  {
    i := |ports| - 1;
    while ports[i].containerPort != containerPort
      invariant 0 <= i < |ports| && forall j :: i < j < |ports| ==> ports[j].containerPort != containerPort
      invariant exists j :: 0 <= j <= i && ports[j].containerPort == containerPort
      decreases i
    {
      i := i - 1;
    }
  }

  /** The backend of an actual LRP comes to every key it listens on, and nothing else changes. */
  ghost predicate ActualAdded(s: Site, after: Site, a: ActualLrp, k: RoutingKey) {
    if Backs(a, k) then exists e :: IsBackend(a, k, e) && Backed(s, after, e, k) else Unchanged(s, after, k)
  }

  /** It leaves every key it listens on, and nothing else changes. */
  ghost predicate ActualTaken(s: Site, after: Site, a: ActualLrp, k: RoutingKey) {
    if Backs(a, k) then exists e :: IsBackend(a, k, e) && Unbacked(s, after, e, k) else Unchanged(s, after, k)
  }

  lemma EndpointsAreAdded(s: Site, a: ActualLrp, k: RoutingKey)
    ensures ActualAdded(s, Perform(s, ApplyEdits(s.table, AddEndpoint(a))), a, k)
  {
    hide Backs, IsBackend, Backed, Unchanged, Perform, ApplyEdits, EndpointsOf;
    KeyOfPort(a, k);
    if Backs(a, k) {
      BackendIs(a, k);
      var e := EndpointsOf(a, a.ports)[k.containerPort];
      var i :| 0 <= i < |a.ports| && ActualKeys(a)[i] == k;
      assert AddEndpoint(a)[i] == Put(k, e);
      PutInOperation(s, AddEndpoint(a), k, e);
      assert IsBackend(a, k, e);
    } else {
      AtOtherKey(s, AddEndpoint(a), k);
    }
  }

  lemma EndpointsAreRemoved(s: Site, a: ActualLrp, k: RoutingKey)
    ensures ActualTaken(s, Perform(s, ApplyEdits(s.table, RemoveEndpoint(a))), a, k)
  {
    hide Backs, IsBackend, Unbacked, Unchanged, Perform, ApplyEdits, EndpointsOf;
    KeyOfPort(a, k);
    if Backs(a, k) {
      BackendIs(a, k);
      var e := EndpointsOf(a, a.ports)[k.containerPort];
      var i :| 0 <= i < |a.ports| && ActualKeys(a)[i] == k;
      assert RemoveEndpoint(a)[i] == Take(k, e);
      TakeInOperation(s, RemoveEndpoint(a), k, e);
      assert IsBackend(a, k, e);
    } else {
      AtOtherKey(s, RemoveEndpoint(a), k);
    }
  }

  // ---------------------------------------------------------------- the events

  /** The site after an event is handled, with its batch delivered. */
  function AfterEvent(s: Site, e: LrpEvent): Site {
    Perform(s, Handle(s.table, e))
  }

  lemma DesiredCreatedMeans(s: Site, d: DesiredLrp, k: RoutingKey)
    ensures var after := AfterEvent(s, DesiredCreated(d));
            if Routes(d, k) then Routed(s, after, d, k) else Unchanged(s, after, k)
  {
    hide Perform, ApplyEdits, Routed, Removed, Backed, Unbacked, Unchanged, Routes, Backs, IsBackend;
    hide AddRoutes, RemoveRoutes, UpdateRoutes, AddEndpoint, RemoveEndpoint;
    RoutesAreAdded(s, d, k);
  }

  lemma DesiredChangedMeans(s: Site, before: DesiredLrp, after: DesiredLrp, k: RoutingKey)
    ensures var site := AfterEvent(s, DesiredChanged(before, after));
            if Routes(after, k) then Routed(s, site, after, k)
            else if Routes(before, k) then Removed(s, site, after.modificationTag, k)
            else Unchanged(s, site, k)
  {
    hide Perform, ApplyEdits, Routed, Removed, Backed, Unbacked, Unchanged, Routes, Backs, IsBackend;
    hide AddRoutes, RemoveRoutes, UpdateRoutes, AddEndpoint, RemoveEndpoint;
    RoutesAreUpdated(s, before, after, k);
  }

  lemma DesiredRemovedMeans(s: Site, d: DesiredLrp, k: RoutingKey)
    ensures var after := AfterEvent(s, DesiredRemoved(d));
            if Routes(d, k) then Removed(s, after, d.modificationTag, k) else Unchanged(s, after, k)
  {
    hide Perform, ApplyEdits, Routed, Removed, Backed, Unbacked, Unchanged, Routes, Backs, IsBackend;
    hide AddRoutes, RemoveRoutes, UpdateRoutes, AddEndpoint, RemoveEndpoint;
    RoutesAreRemoved(s, d, k);
  }

  /** An actual LRP that appears, appears only when it runs. */
  lemma ActualCreatedMeans(s: Site, a: ActualLrp, k: RoutingKey)
    ensures var after := AfterEvent(s, ActualCreated(a));
            if a.state.Running? then ActualAdded(s, after, a, k) else Unchanged(s, after, k)
  {
    NothingHappens(s, k);
    hide Perform, ApplyEdits, Routed, Removed, Backed, Unbacked, Unchanged, Routes, Backs, IsBackend;
    hide AddRoutes, RemoveRoutes, UpdateRoutes, AddEndpoint, RemoveEndpoint;
    EndpointsAreAdded(s, a, k);
  }

  /** One that runs after a change is added as it is then; one that ran only before is taken away as it was. */
  lemma ActualChangedMeans(s: Site, before: ActualLrp, after: ActualLrp, k: RoutingKey)
    ensures var site := AfterEvent(s, ActualChanged(before, after));
            if after.state.Running? then ActualAdded(s, site, after, k)
            else if before.state.Running? then ActualTaken(s, site, before, k)
            else Unchanged(s, site, k)
  {
    NothingHappens(s, k);
    hide Perform, ApplyEdits, Routed, Removed, Backed, Unbacked, Unchanged, Routes, Backs, IsBackend;
    hide AddRoutes, RemoveRoutes, UpdateRoutes, AddEndpoint, RemoveEndpoint;
    EndpointsAreAdded(s, after, k);
    EndpointsAreRemoved(s, before, k);
  }

  /** One that goes while it runs is taken away. */
  lemma ActualRemovedMeans(s: Site, a: ActualLrp, k: RoutingKey)
    ensures var after := AfterEvent(s, ActualRemoved(a));
            if a.state.Running? then ActualTaken(s, after, a, k) else Unchanged(s, after, k)
  {
    NothingHappens(s, k);
    hide Perform, ApplyEdits, Routed, Removed, Backed, Unbacked, Unchanged, Routes, Backs, IsBackend;
    hide AddRoutes, RemoveRoutes, UpdateRoutes, AddEndpoint, RemoveEndpoint;
    EndpointsAreRemoved(s, a, k);
  }

  lemma UnrecognizedMeans(s: Site, k: RoutingKey)
    ensures Unchanged(s, AfterEvent(s, Unrecognized), k)
  {
    hide Perform, Unchanged, ApplyEdits;
    NothingHappens(s, k);
  }

  lemma NothingHappens(s: Site, k: RoutingKey)
    ensures Unchanged(s, Perform(s, ApplyEdits(s.table, [])), k)
  {
    SelectNone();
  }
}
