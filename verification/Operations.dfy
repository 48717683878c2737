/**
 What holds of a whole operation: its edits never disagree about a key, so its table does not
 depend on their order, its events report what is stored, and one batch means the same as the
 events in order.
 */
module Operations {
  import opened Endpoints
  import opened Lrps
  import opened Events
  import opened TableSpec
  import opened Downstream
  import opened Agreement

  /** Edits at the same key are the same edit. */
  ghost predicate OneEditPerKey(edits: seq<Edit>) {
    forall i, j :: 0 <= i < |edits| && 0 <= j < |edits| && edits[i].key == edits[j].key ==> edits[i] == edits[j]
  }

  /** Repeated keys in the lists of routes or port mappings only repeat an edit. */
  lemma EventsEditEachKeyOnce(e: LrpEvent)
    ensures OneEditPerKey(EditsOf(e))
  {
    hide RoutesFor, EndpointsOf, KeysWithout;
    match e
    case DesiredChanged(before, after) =>
      var merged := DesiredKeys(after);
      var dropped := KeysWithout(DesiredKeys(before), merged);
      forall i, j | 0 <= i < |merged| && 0 <= j < |dropped| ensures merged[i] != dropped[j] {
        assert merged[i] in merged && dropped[j] in dropped;
      }
    case _ =>
  }

  // ---------------------------------------------------------------- locality

  datatype Slot = Missing | Present(entry: Entry)

  function At(t: Table, key: RoutingKey): Slot {
    if key in t then Present(t[key]) else Missing
  }

  /** An edit reads and writes its own key only. */
  lemma EditIsLocal(t: Table, u: Table, edit: Edit)
    ensures forall k :: k != edit.key ==> At(ApplyEdit(t, edit).table, k) == At(t, k)
    ensures At(t, edit.key) == At(u, edit.key) ==>
              && At(ApplyEdit(t, edit).table, edit.key) == At(ApplyEdit(u, edit).table, edit.key)
              && ApplyEdit(t, edit).events == ApplyEdit(u, edit).events
  {
    hide CreateEvent, Subtract, RoutesFor;
  }

  /** Applying an edit twice changes the table no further. */
  lemma EditIsIdempotent(t: Table, edit: Edit)
    ensures var once := ApplyEdit(t, edit).table;
            ApplyEdit(once, edit).table == once
  {
    hide CreateEvent, Subtract, RoutesFor;
    var once := ApplyEdit(t, edit).table;
    var entry := Lookup(t, edit.key);
    if edit.Accepted(t) {
      match edit
      case Merge(_, _) =>
        if BringsNewPort(t, edit) {
          assert Lookup(once, edit.key).externalEndpoints == Wanted(edit);
          assert !BringsNewPort(once, edit);
        }
      case Put(k, e) =>
        var updated := entry.endpoints[e.Key() := e];
        assert updated[e.Key() := e] == updated;
      case _ =>
    }
  }

  lemma {:induction false} UntouchedKey(t: Table, edits: seq<Edit>, key: RoutingKey)
    requires forall i :: 0 <= i < |edits| ==> edits[i].key != key
    ensures At(ApplyEdits(t, edits).table, key) == At(t, key)
  {
    if edits != [] {
      var n := |edits| - 1;
      hide ApplyEdit;
      UntouchedKey(t, edits[..n], key);
      EditIsLocal(ApplyEdits(t, edits[..n]).table, t, edits[n]);
    }
  }

  /** An edited key ends up as if its one edit had been the only one. */
  lemma {:induction false} EditedKey(t: Table, edits: seq<Edit>, edit: Edit)
    requires OneEditPerKey(edits) && edit in edits
    ensures At(ApplyEdits(t, edits).table, edit.key) == At(ApplyEdit(t, edit).table, edit.key)
  {
    var n := |edits| - 1;
    var prefix, last := edits[..n], edits[n];
    var before := ApplyEdits(t, prefix).table;
    assert edits == prefix + [last];
    hide ApplyEdit, ApplyEdits, At;
    ApplyEditsSnoc(t, prefix, last);
    if edit in prefix {
      EditedKey(t, prefix, edit);
      if last.key == edit.key {
        EditIsLocal(before, ApplyEdit(t, edit).table, edit);
        EditIsIdempotent(t, edit);
      } else {
        EditIsLocal(before, t, last);
      }
    } else {
      forall i | 0 <= i < n ensures prefix[i].key != edit.key {
        assert prefix[i] == edits[i] && prefix[i] in prefix;
      }
      UntouchedKey(t, prefix, edit.key);
      EditIsLocal(before, t, edit);
    }
  }

  lemma SameSlots(t: Table, u: Table)
    requires forall k :: At(t, k) == At(u, k)
    ensures t == u
  {
    forall k | k in t ensures k in u && t[k] == u[k] { assert At(t, k) == At(u, k); }
    forall k | k in u ensures k in t { assert At(t, k) == At(u, k); }
  }

  /** The table depends on which edits an operation has, not on their order or repetition. */
  lemma OrderDoesNotMatter(t: Table, a: seq<Edit>, b: seq<Edit>)
    requires OneEditPerKey(a) && forall e :: e in a <==> e in b
    ensures ApplyEdits(t, a).table == ApplyEdits(t, b).table
  {
    assert OneEditPerKey(b) by {
      forall i, j | 0 <= i < |b| && 0 <= j < |b| && b[i].key == b[j].key ensures b[i] == b[j] {
        assert b[i] in a && b[j] in a;
      }
    }
    forall k ensures At(ApplyEdits(t, a).table, k) == At(ApplyEdits(t, b).table, k) {
      if e :| e in a && e.key == k {
        EditedKey(t, a, e);
        EditedKey(t, b, e);
      } else {
        UntouchedKey(t, a, k);
        UntouchedKey(t, b, k);
      }
    }
    SameSlots(ApplyEdits(t, a).table, ApplyEdits(t, b).table);
  }

  /** The add and delete phases of an update commute, and keys of neither version stay as they were. */
  lemma UpdatePhasesCommute(t: Table, before: DesiredLrp, after: DesiredLrp)
    ensures var merges := AddRoutes(after);
            var drops := Drops(KeysWithout(DesiredKeys(before), DesiredKeys(after)), after.modificationTag);
            && ApplyEdits(t, merges + drops).table == ApplyEdits(t, drops + merges).table
            && ApplyEdits(t, merges + drops).table == ApplyEdits(t, UpdateRoutes(before, after)).table
            && forall k :: k !in DesiredKeys(before) && k !in DesiredKeys(after) ==>
                 At(ApplyEdits(t, merges + drops).table, k) == At(t, k)
  {
    EventsEditEachKeyOnce(DesiredChanged(before, after));
    hide RoutesFor, ApplyEdits, KeysWithout;
    var merges := AddRoutes(after);
    var drops := Drops(KeysWithout(DesiredKeys(before), DesiredKeys(after)), after.modificationTag);
    OrderDoesNotMatter(t, merges + drops, drops + merges);
    forall k | k !in DesiredKeys(before) && k !in DesiredKeys(after)
      ensures At(ApplyEdits(t, merges + drops).table, k) == At(t, k)
    {
      forall i | 0 <= i < |merges + drops| ensures (merges + drops)[i].key != k {
        if i < |merges| {
          assert merges[i].key in DesiredKeys(after);
        } else {
          assert drops[i - |merges|].key in KeysWithout(DesiredKeys(before), DesiredKeys(after));
        }
      }
      UntouchedKey(t, merges + drops, k);
    }
  }

  /** Within one epoch, an accepted update shuts out the versions up to its own exactly when it brings a
      new port; otherwise the stored tag stays behind and a stale version is still let in. */
  lemma RouteGuardAdvancesIff(t: Table, newer: Edit, older: Edit)
    requires newer.Merge? && older.Merge? && newer.key == older.key
    requires newer.desired.modificationTag.Tag? && older.desired.modificationTag.Tag?
    requires newer.desired.modificationTag.epoch == older.desired.modificationTag.epoch != ""
    requires older.desired.modificationTag.index <= newer.desired.modificationTag.index
    requires newer.Accepted(t) && older.Accepted(t)
    ensures !older.Accepted(ApplyEdit(t, newer).table) <==> BringsNewPort(t, newer)
  {
    hide CreateEvent, Subtract, RoutesFor;
    assert ApplyEdit(t, newer) == ApplyMerge(t, newer);
  }

  // ---------------------------------------------------------------- faithful events

  /** A registration carries the entry stored afterwards; an unregistration only names what was stored before. */
  ghost predicate Faithful(e: Event, before: Table, after: Table) {
    match e.kind
    case Registration => e.key in after && after[e.key] == e.entry
    case Unregistration => Product(e.key, e.entry) <= Product(e.key, Lookup(before, e.key))
  }

  lemma EditIsFaithful(t: Table, edit: Edit, e: Event)
    requires e in ApplyEdit(t, edit).events
    ensures e.key == edit.key && Faithful(e, t, ApplyEdit(t, edit).table)
  {
    hide RoutesFor, Product, CreateEvent;
    var k, entry := edit.key, Lookup(t, edit.key);
    match edit
    case Merge(_, d) =>
      var updated := RoutableEndpoints(Wanted(edit), entry.endpoints, d.logGuid, d.modificationTag);
      var gone := entry.(externalEndpoints := Subtract(entry.externalEndpoints, Wanted(edit)));
      CreatedEvent(Registration, k, updated);
      CreatedEvent(Unregistration, k, gone);
      assert Product(k, gone) <= Product(k, entry);
    case Drop(_, _) => CreatedEvent(Unregistration, k, entry);
    case Put(_, b) => CreatedEvent(Registration, k, entry.(endpoints := entry.endpoints[b.Key() := b]));
    case Take(_, b) =>
      var only := entry.(endpoints := map[b.Key() := entry.endpoints[b.Key()]]);
      CreatedEvent(Unregistration, k, only);
      assert Product(k, only) <= Product(k, entry);
  }

  lemma CreatedEvent(kind: EventKind, key: RoutingKey, entry: Entry)
    ensures forall e :: e in CreateEvent(kind, key, entry) ==> e == RoutingEvent(kind, key, entry)
  {
  }

  /** The second pass over a repeated key still reports nothing beyond the table before the first. */
  lemma RepeatIsFaithful(t: Table, edit: Edit, e: Event)
    requires e in ApplyEdit(ApplyEdit(t, edit).table, edit).events
    ensures Faithful(e, t, ApplyEdit(t, edit).table)
  {
    var once := ApplyEdit(t, edit).table;
    EditIsIdempotent(t, edit);
    EditIsFaithful(once, edit, e);
    if edit.Merge? && once != t {
      NothingLeftToWithdraw(t, edit);
    }
    hide RoutesFor, Product, Subtract;
  }

  lemma NothingLeftToWithdraw(t: Table, edit: Edit)
    requires edit.Merge? && edit.Accepted(t) && BringsNewPort(t, edit)
    ensures ApplyEdit(ApplyEdit(t, edit).table, edit).events == []
  {
    hide RoutesFor;
    var once := ApplyEdit(t, edit).table;
    assert !BringsNewPort(once, edit);
    SubtractCovered(Wanted(edit), Wanted(edit));
  }

  lemma {:induction false} EventOrigin(t: Table, edits: seq<Edit>, e: Event) returns (i: nat)
    requires e in ApplyEdits(t, edits).events
    ensures i < |edits| && e in ApplyEdit(ApplyEdits(t, edits[..i]).table, edits[i]).events
  {
    i := |edits| - 1;
    hide ApplyEdit;
    if e !in ApplyEdit(ApplyEdits(t, edits[..i]).table, edits[i]).events {
      var n := i;
      i := EventOrigin(t, edits[..n], e);
      assert edits[..n][..i] == edits[..i];
    }
  }

  /** When the edit at `i` runs, its key is as at the start or as left by the same edit. */
  lemma BeforeEdit(t: Table, edits: seq<Edit>, i: nat)
    requires OneEditPerKey(edits) && i < |edits|
    ensures var now := At(ApplyEdits(t, edits[..i]).table, edits[i].key);
            now == At(t, edits[i].key) || now == At(ApplyEdit(t, edits[i]).table, edits[i].key)
  {
    hide ApplyEdit, ApplyEdits, At;
    var prefix := edits[..i];
    if edits[i] in prefix {
      EditedKey(t, prefix, edits[i]);
    } else {
      forall j | 0 <= j < |prefix| ensures prefix[j].key != edits[i].key {
        assert prefix[j] == edits[j] && prefix[j] in prefix;
      }
      UntouchedKey(t, prefix, edits[i].key);
    }
  }

  lemma EventsAreFaithful(t: Table, edits: seq<Edit>, e: Event)
    requires OneEditPerKey(edits) && e in ApplyEdits(t, edits).events
    ensures Faithful(e, t, ApplyEdits(t, edits).table)
  {
    hide ApplyEdit, ApplyEdits, Product;
    var i := EventOrigin(t, edits, e);
    var edit, now := edits[i], ApplyEdits(t, edits[..i]).table;
    var once := ApplyEdit(t, edit).table;
    BeforeEdit(t, edits, i);
    EditedKey(t, edits, edit);
    EditIsFaithful(now, edit, e);
    if At(now, edit.key) == At(t, edit.key) {
      EditIsLocal(now, t, edit);
      EditIsFaithful(t, edit, e);
    } else {
      EditIsLocal(now, once, edit);
      RepeatIsFaithful(t, edit, e);
    }
  }

  // ---------------------------------------------------------------- one batch per operation

  /** A merge registers exactly the ports it wants and unregisters only others; no other edit does both. */
  lemma EditSeparatesKinds(t: Table, edit: Edit, e: Event)
    requires e in ApplyEdit(t, edit).events
    ensures e.key == edit.key
    ensures e.kind == Registration ==> edit.Put? || (edit.Merge? && e.entry.externalEndpoints == Wanted(edit))
    ensures e.kind == Unregistration ==>
              !edit.Put? && (edit.Merge? ==> forall x :: x in e.entry.externalEndpoints ==> x !in Wanted(edit))
  {
    hide RoutesFor, CreateEvent;
    var k, entry := edit.key, Lookup(t, edit.key);
    match edit
    case Merge(_, d) =>
      CreatedEvent(Registration, k, RoutableEndpoints(Wanted(edit), entry.endpoints, d.logGuid, d.modificationTag));
      CreatedEvent(Unregistration, k, entry.(externalEndpoints := Subtract(entry.externalEndpoints, Wanted(edit))));
    case Drop(_, _) => CreatedEvent(Unregistration, k, entry);
    case Put(_, b) => CreatedEvent(Registration, k, entry.(endpoints := entry.endpoints[b.Key() := b]));
    case Take(_, b) =>
      CreatedEvent(Unregistration, k, entry.(endpoints := map[b.Key() := entry.endpoints[b.Key()]]));
  }

  lemma BatchIsDisjoint(t: Table, edits: seq<Edit>)
    requires OneEditPerKey(edits)
    ensures Disjoint(ApplyEdits(t, edits).events)
  {
    hide ApplyEdit, ApplyEdits, Wanted;
    var events := ApplyEdits(t, edits).events;
    forall i, j, m | 0 <= i < |events| && events[i].kind == Registration && Exposes(events[i].key, events[i].entry, m)
                  && 0 <= j < |events| && events[j].kind == Unregistration
      ensures !Exposes(events[j].key, events[j].entry, m)
    {
      if events[j].key == events[i].key {
        var a := EventOrigin(t, edits, events[i]);
        var b := EventOrigin(t, edits, events[j]);
        EditSeparatesKinds(ApplyEdits(t, edits[..a]).table, edits[a], events[i]);
        EditSeparatesKinds(ApplyEdits(t, edits[..b]).table, edits[b], events[j]);
      }
    }
  }

  /** A run of edits is the table fold and the replay of all its events. */
  lemma {:induction false} RunIsFold(s: World, edits: seq<Edit>)
    ensures var result := ApplyEdits(s.table, edits);
            && RunEdits(s, edits).table == result.table
            && RunEdits(s, edits).downstream == Replay(s.downstream, result.events)
  {
    if edits != [] {
      var n := |edits| - 1;
      hide ApplyEdit, Withhold, Replay;
      RunIsFold(s, edits[..n]);
      var before := ApplyEdits(s.table, edits[..n]);
      ReplayConcat(s.downstream, before.events, ApplyEdit(before.table, edits[n]).events);
    }
  }

  /** Handling one event with its batch fully delivered. */
  function HandleWorld(s: World, e: LrpEvent): World {
    var result := Handle(s.table, e);
    World(result.table, RunEdits(s, EditsOf(e)).withheld, Deliver(s.downstream, result.events))
  }

  lemma HandleIsRun(s: World, e: LrpEvent)
    ensures HandleWorld(s, e) == RunEdits(s, EditsOf(e))
  {
    hide EditsOf, ApplyEdits, Deliver, Replay, RunEdits;
    EventsEditEachKeyOnce(e);
    BatchIsDisjoint(s.table, EditsOf(e));
    ReorderingPreservesMeaning(s.downstream, ApplyEdits(s.table, EditsOf(e)).events);
    RunIsFold(s, EditsOf(e));
  }
}
