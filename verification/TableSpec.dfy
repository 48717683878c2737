/**
 The meaning of every routing-table operation, as a function from a table value to the
 next table and the emitted events. An operation is a list of edits, one per pass of the
 program's loop, so that what one edit keeps is kept by every operation and every run.
 */
module TableSpec {
  import opened Endpoints
  import opened Lrps
  import opened Events
  import opened Sequences

  type Table = map<RoutingKey, Entry>

  datatype Outcome = Outcome(table: Table, events: seq<Event>)

  /** Reading an absent key yields the zero entry. */
  function Lookup(t: Table, key: RoutingKey): Entry {
    if key in t then t[key] else NO_ENTRY
  }

  /** No event for an entry without external endpoints or without endpoints. */
  function CreateEvent(kind: EventKind, key: RoutingKey, entry: Entry): seq<Event> {
    if entry.externalEndpoints == [] || |entry.endpoints| == 0 then []
    else [RoutingEvent(kind, key, entry)]
  }

  // ---------------------------------------------------------------- edits

  datatype Edit =
    | Merge(key: RoutingKey, desired: DesiredLrp)
    | Drop(key: RoutingKey, tag: ModificationTag)
    | Put(key: RoutingKey, endpoint: Endpoint)
    | Take(key: RoutingKey, endpoint: Endpoint)
  {
    /** Whether the stored tags let the edit through. */
    predicate Accepted(t: Table) {
      var entry := Lookup(t, key);
      match this
      case Merge(_, d) => entry.modificationTag.SucceededBy(d.modificationTag)
      case Drop(_, tag) => key in t && entry.modificationTag.SucceededBy(tag)
      case Put(_, e) =>
        e.Key() in entry.endpoints ==> entry.endpoints[e.Key()].modificationTag.SucceededBy(e.modificationTag)
      case Take(_, e) =>
        && e.Key() in entry.endpoints
        && var current := entry.endpoints[e.Key()].modificationTag;
           current == e.modificationTag || current.SucceededBy(e.modificationTag)
    }
  }

  /** The external endpoints a merge asks for at its key. */
  function Wanted(edit: Edit): ExternalEndpoints
    requires edit.Merge?
  {
    RoutesFor(edit.desired.routes, edit.key.containerPort)
  }

  /** A merge replaces the entry only when it brings a port that the entry lacks. */
  predicate BringsNewPort(t: Table, edit: Edit)
    requires edit.Merge?
  {
    exists x :: x in Wanted(edit) && !ContainsExternalPort(Lookup(t, edit.key).externalEndpoints, x.port)
  }

  function ApplyMerge(t: Table, edit: Edit): Outcome
    requires edit.Merge?
  {
    var entry := Lookup(t, edit.key);
    var updated := RoutableEndpoints(Wanted(edit), entry.endpoints, edit.desired.logGuid, edit.desired.modificationTag);
    var gone := entry.(externalEndpoints := Subtract(entry.externalEndpoints, Wanted(edit)));
    var unregistrations := CreateEvent(Unregistration, edit.key, gone);
    if BringsNewPort(t, edit)
    then Outcome(t[edit.key := updated], CreateEvent(Registration, edit.key, updated) + unregistrations)
    else Outcome(t, unregistrations)
  }

  function ApplyEdit(t: Table, edit: Edit): Outcome {
    var entry := Lookup(t, edit.key);
    if !edit.Accepted(t) then Outcome(t, [])
    else match edit
      case Merge(_, _) => ApplyMerge(t, edit)
      case Drop(k, _) => Outcome(t - {k}, CreateEvent(Unregistration, k, entry))
      case Put(k, e) =>
        var updated := entry.(endpoints := entry.endpoints[e.Key() := e]);
        Outcome(t[k := updated], CreateEvent(Registration, k, updated))
      case Take(k, e) =>
        var only := map[e.Key() := entry.endpoints[e.Key()]];
        Outcome(t[k := entry.(endpoints := entry.endpoints - {e.Key()})],
                CreateEvent(Unregistration, k, entry.(endpoints := only)))
  }

  function ApplyEdits(t: Table, edits: seq<Edit>): Outcome {
    if edits == [] then Outcome(t, [])
    else
      var before := ApplyEdits(t, edits[..|edits| - 1]);
      var step := ApplyEdit(before.table, edits[|edits| - 1]);
      Outcome(step.table, before.events + step.events)
  }

  lemma NoEdits(t: Table)
    ensures ApplyEdits(t, []) == Outcome(t, [])
  {
  }

  lemma ApplyEditsSnoc(t: Table, edits: seq<Edit>, edit: Edit)
    ensures var before := ApplyEdits(t, edits);
            var step := ApplyEdit(before.table, edit);
            ApplyEdits(t, edits + [edit]) == Outcome(step.table, before.events + step.events)
  {
    assert (edits + [edit])[..|edits|] == edits;
  }

  lemma ApplyEditsPrefix(t: Table, edits: seq<Edit>, i: nat)
    requires i < |edits|
    ensures var before := ApplyEdits(t, edits[..i]);
            var step := ApplyEdit(before.table, edits[i]);
            ApplyEdits(t, edits[..i + 1]) == Outcome(step.table, before.events + step.events)
  {
    assert edits[..i + 1] == edits[..i] + [edits[i]];
    ApplyEditsSnoc(t, edits[..i], edits[i]);
  }

  lemma ApplyEditsConcatSnoc(t: Table, a: seq<Edit>, b: seq<Edit>, edit: Edit)
    requires var first := ApplyEdits(t, a);
             var second := ApplyEdits(first.table, b);
             ApplyEdits(t, a + b) == Outcome(second.table, first.events + second.events)
    ensures var first := ApplyEdits(t, a);
            var second := ApplyEdits(first.table, b + [edit]);
            ApplyEdits(t, (a + b) + [edit]) == Outcome(second.table, first.events + second.events)
  {
    var first := ApplyEdits(t, a);
    var second := ApplyEdits(first.table, b);
    ApplyEditsSnoc(first.table, b, edit);
    ApplyEditsSnoc(t, a + b, edit);
    Associative(first.events, second.events, ApplyEdit(second.table, edit).events);
  }

  /** Applying a concatenation is applying the parts one after the other. */
  lemma {:induction false} ApplyEditsConcat(t: Table, a: seq<Edit>, b: seq<Edit>)
    ensures var first := ApplyEdits(t, a);
            var second := ApplyEdits(first.table, b);
            ApplyEdits(t, a + b) == Outcome(second.table, first.events + second.events)
  {
    if b == [] {
      assert a + b == a;
    } else {
      var n := |b| - 1;
      ApplyEditsConcat(t, a, b[..n]);
      ApplyEditsConcatSnoc(t, a, b[..n], b[n]);
      assert b == b[..n] + [b[n]];
      assert a + b == (a + b[..n]) + [b[n]];
    }
  }

  // ---------------------------------------------------------------- operations

  function Merges(keys: seq<RoutingKey>, d: DesiredLrp): (edits: seq<Edit>)
    ensures |edits| == |keys| && forall i :: 0 <= i < |edits| ==> edits[i] == Merge(keys[i], d)
  {
    seq(|keys|, i requires 0 <= i < |keys| => Merge(keys[i], d))
  }

  function Drops(keys: seq<RoutingKey>, tag: ModificationTag): (edits: seq<Edit>)
    ensures |edits| == |keys| && forall i :: 0 <= i < |edits| ==> edits[i] == Drop(keys[i], tag)
  {
    seq(|keys|, i requires 0 <= i < |keys| => Drop(keys[i], tag))
  }

  function AddRoutes(d: DesiredLrp): seq<Edit> {
    Merges(DesiredKeys(d), d)
  }

  function RemoveRoutes(d: DesiredLrp): seq<Edit> {
    Drops(DesiredKeys(d), d.modificationTag)
  }

  /** First merge everything the new version asks for, then drop the keys only the old one had. */
  function UpdateRoutes(before: DesiredLrp, after: DesiredLrp): seq<Edit> {
    AddRoutes(after) + Drops(KeysWithout(DesiredKeys(before), DesiredKeys(after)), after.modificationTag)
  }

  /** One edit per port mapping, each with the endpoint of its container port. */
  function AddEndpoint(a: ActualLrp): (edits: seq<Edit>)
    ensures |edits| == |a.ports|
    ensures forall i :: 0 <= i < |edits| ==>
              edits[i] == Put(ActualKeys(a)[i], EndpointsOf(a, a.ports)[a.ports[i].containerPort])
  {
    seq(|a.ports|, i requires 0 <= i < |a.ports| =>
          Put(ActualKeys(a)[i], EndpointsOf(a, a.ports)[a.ports[i].containerPort]))
  }

  function RemoveEndpoint(a: ActualLrp): (edits: seq<Edit>)
    ensures |edits| == |a.ports|
    ensures forall i :: 0 <= i < |edits| ==>
              edits[i] == Take(ActualKeys(a)[i], EndpointsOf(a, a.ports)[a.ports[i].containerPort])
  {
    seq(|a.ports|, i requires 0 <= i < |a.ports| =>
          Take(ActualKeys(a)[i], EndpointsOf(a, a.ports)[a.ports[i].containerPort]))
  }

  /** What the handler does with each kind of event. */
  function EditsOf(e: LrpEvent): seq<Edit> {
    match e
    case DesiredCreated(d) => AddRoutes(d)
    case DesiredChanged(before, after) => UpdateRoutes(before, after)
    case DesiredRemoved(d) => RemoveRoutes(d)
    case ActualCreated(a) => if a.state.Running? then AddEndpoint(a) else []
    case ActualChanged(before, after) =>
      if after.state.Running? then AddEndpoint(after)
      else if before.state.Running? then RemoveEndpoint(before)
      else []
    case ActualRemoved(a) => if a.state.Running? then RemoveEndpoint(a) else []
    case Unrecognized => []
  }

  function Handle(t: Table, e: LrpEvent): Outcome {
    ApplyEdits(t, EditsOf(e))
  }

  // ---------------------------------------------------------------- swap

  /** `order` lists the keys of `t`, each once: one possible map iteration. */
  ghost predicate Enumerates<K(!new), V>(order: seq<K>, m: map<K, V>) {
    && (forall k :: k in order <==> k in m)
    && forall i, j :: 0 <= i < j < |order| ==> order[i] != order[j]
  }

  /** At a key of the new table: register its entry, unregister the old ports it does not have. */
  function SwapAt(before: Table, key: RoutingKey, entry: Entry): seq<Event> {
    var old' := Lookup(before, key);
    var gone := old'.(externalEndpoints := Subtract(old'.externalEndpoints, entry.externalEndpoints));
    CreateEvent(Registration, key, entry) + CreateEvent(Unregistration, key, gone)
  }

  function RegisterAll(before: Table, after: Table, order: seq<RoutingKey>): seq<Event>
    requires forall k :: k in order ==> k in after
  {
    if order == [] then []
    else
      var key := order[|order| - 1];
      RegisterAll(before, after, order[..|order| - 1]) + SwapAt(before, key, after[key])
  }

  /** At a key of the old table: unregister its entry when the new table lacks the key. */
  function UnregisterAt(before: Table, after: Table, key: RoutingKey): seq<Event>
    requires key in before
  {
    if key in after then [] else CreateEvent(Unregistration, key, before[key])
  }

  function UnregisterMissing(before: Table, after: Table, order: seq<RoutingKey>): seq<Event>
    requires forall k :: k in order ==> k in before
  {
    if order == [] then []
    else
      var key := order[|order| - 1];
      UnregisterMissing(before, after, order[..|order| - 1]) + UnregisterAt(before, after, key)
  }

  /** The events of replacing `before` by `after`, for one iteration order of each. */
  function SwapEvents(before: Table, after: Table, newOrder: seq<RoutingKey>, oldOrder: seq<RoutingKey>): seq<Event>
    requires forall k :: k in newOrder ==> k in after
    requires forall k :: k in oldOrder ==> k in before
  {
    RegisterAll(before, after, newOrder) + UnregisterMissing(before, after, oldOrder)
  }

  ghost predicate IsSwap(before: Table, after: Table, events: seq<Event>) {
    exists newOrder, oldOrder ::
      && Enumerates(newOrder, after) && Enumerates(oldOrder, before)
      && events == SwapEvents(before, after, newOrder, oldOrder)
  }

  lemma SwapWitness(before: Table, after: Table, newOrder: seq<RoutingKey>, oldOrder: seq<RoutingKey>)
    requires Enumerates(newOrder, after) && Enumerates(oldOrder, before)
    ensures IsSwap(before, after,
                   RegisterAll(before, after, newOrder) + UnregisterMissing(before, after, oldOrder))
  {
    assert SwapEvents(before, after, newOrder, oldOrder)
        == RegisterAll(before, after, newOrder) + UnregisterMissing(before, after, oldOrder);
  }
}
