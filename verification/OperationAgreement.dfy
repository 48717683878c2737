/**
 Agreement for whole operations, key by key: one delivered batch keeps a key in agreement exactly
 when the operation's one edit there keeps in step, judged on the state before the call.
 */
module OperationAgreement {
  import opened Endpoints
  import opened Lrps
  import opened Events
  import opened TableSpec
  import opened Downstream
  import opened Agreement
  import opened Operations

  lemma StepReadsItsKey(a: World, b: World, edit: Edit)
    requires SameAt(a, b, edit.key)
    ensures SameAt(Step(a, edit), Step(b, edit), edit.key)
  {
    StepEffect(a, edit);
    StepEffect(b, edit);
    assert At(a.table, edit.key) == At(b.table, edit.key);
    EditIsLocal(a.table, b.table, edit);
    forall m: Mapping | m.key == edit.key ensures m in Effect(a, edit) <==> m in Effect(b, edit) {
      EffectReadsItsKey(a, b, edit, m);
    }
    WithholdReadsItsKey(a, b, edit);
    hide Effect, Withhold, ApplyEdit, Replay;
  }

  lemma EffectReadsItsKey(a: World, b: World, edit: Edit, m: Mapping)
    requires SameAt(a, b, edit.key) && m.key == edit.key
    ensures m in Effect(a, edit) <==> m in Effect(b, edit)
  {
    hide RoutesFor, Product, Subtract;
    assert edit.Accepted(a.table) == edit.Accepted(b.table);
  }

  lemma WithholdReadsItsKey(a: World, b: World, edit: Edit)
    requires SameAt(a, b, edit.key)
    ensures forall p: uint32 ::
              (edit.key, p) in Withhold(a.table, a.withheld, edit) <==>
                (edit.key, p) in Withhold(b.table, b.withheld, edit)
  {
    hide RoutesFor, Product;
    assert edit.Accepted(a.table) == edit.Accepted(b.table);
  }

  lemma StepIsIdempotent(s: World, edit: Edit)
    ensures SameAt(Step(Step(s, edit), edit), Step(s, edit), edit.key)
  {
    var once := Step(s, edit);
    StepEffect(s, edit);
    StepEffect(once, edit);
    EditIsIdempotent(s.table, edit);
    forall m: Mapping | m.key == edit.key ensures m in Effect(once, edit) <==> m in Effect(s, edit) {
      EffectIsIdempotent(s, edit, m);
    }
    WithholdIsIdempotent(s, edit);
    hide ApplyEdit, Effect, Withhold, Replay;
  }

  lemma EffectIsIdempotent(s: World, edit: Edit, m: Mapping)
    requires Step(s, edit).downstream == Effect(s, edit)
    ensures m in Effect(Step(s, edit), edit) <==> m in Effect(s, edit)
  {
    hide CreateEvent, RoutesFor, Product, Replay, Subtract;
    if edit.Merge? {
      NothingGoneTwice(s, edit);
    }
  }

  /** A second pass of a merge that replaced the entry finds nothing to take away. */
  lemma NothingGoneTwice(s: World, edit: Edit)
    requires edit.Merge?
    ensures edit.Accepted(s.table) && BringsNewPort(s.table, edit) ==> Gone(Step(s, edit).table, edit) == []
  {
    hide CreateEvent, RoutesFor, Replay;
    SubtractCovered(Wanted(edit), Wanted(edit));
  }

  lemma WithholdIsIdempotent(s: World, edit: Edit)
    ensures var once := Step(s, edit);
            Withhold(once.table, once.withheld, edit) == once.withheld
  {
    hide CreateEvent, RoutesFor, Replay, Subtract;
  }

  lemma {:induction false} RunLeavesKey(s: World, edits: seq<Edit>, k: RoutingKey)
    requires forall i :: 0 <= i < |edits| ==> edits[i].key != k
    ensures SameAt(RunEdits(s, edits), s, k)
  {
    if edits != [] {
      var n := |edits| - 1;
      hide Step;
      RunLeavesKey(s, edits[..n], k);
      StepIsLocal(RunEdits(s, edits[..n]), edits[n], k);
    }
  }

  /** At the key of an edit, the operation does what that edit alone would do. */
  lemma {:induction false} RunAtKey(s: World, edits: seq<Edit>, edit: Edit)
    requires OneEditPerKey(edits) && edit in edits
    ensures SameAt(RunEdits(s, edits), Step(s, edit), edit.key)
  {
    var n := |edits| - 1;
    var prefix, last := edits[..n], edits[n];
    assert edits == prefix + [last];
    RunSnoc(s, prefix, last);
    hide RunEdits, Step, SameAt;
    var before := RunEdits(s, prefix);
    if edit in prefix {
      RunAtKey(s, prefix, edit);
      if last.key == edit.key {
        StepReadsItsKey(before, Step(s, edit), edit);
        StepIsIdempotent(s, edit);
        SameAtTransitive(Step(before, edit), Step(Step(s, edit), edit), Step(s, edit), edit.key);
      } else {
        StepIsLocal(before, last, edit.key);
        SameAtTransitive(Step(before, last), before, Step(s, edit), edit.key);
      }
    } else {
      forall i | 0 <= i < n ensures prefix[i].key != edit.key {
        assert prefix[i] == edits[i] && prefix[i] in prefix;
      }
      RunLeavesKey(s, prefix, edit.key);
      StepReadsItsKey(before, s, edit);
    }
  }

  lemma SameAtTransitive(a: World, b: World, c: World, k: RoutingKey)
    requires SameAt(a, b, k) && SameAt(b, c, k)
    ensures SameAt(a, c, k)
  {
  }

  // ---------------------------------------------------------------- operations

  /** Every edit at the key keeps in step, judged before the call. */
  ghost predicate AllKeepInStep(s: World, edits: seq<Edit>, k: RoutingKey) {
    forall edit :: edit in edits && edit.key == k ==> KeepsInStep(s, edit)
  }

  lemma OperationAgreesIff(s: World, edits: seq<Edit>, k: RoutingKey)
    requires OneEditPerKey(edits) && AgreesAt(s, k)
    ensures AgreesAt(RunEdits(s, edits), k) <==> AllKeepInStep(s, edits, k)
  {
    hide RunEdits, Step, KeepsInStep, AgreesAt, SameAt;
    if edit :| edit in edits && edit.key == k {
      RunAtKey(s, edits, edit);
      SameAtAgreesAt(RunEdits(s, edits), Step(s, edit), k);
      AgreementKeptIff(s, edit);
    } else {
      RunLeavesKey(s, edits, k);
      SameAtAgreesAt(RunEdits(s, edits), s, k);
    }
  }

  ghost predicate AllKeepCovered(s: World, edits: seq<Edit>, k: RoutingKey) {
    forall edit :: edit in edits && edit.key == k ==> KeepsCovered(s, edit)
  }

  lemma OperationCoversIff(s: World, edits: seq<Edit>, k: RoutingKey)
    requires OneEditPerKey(edits) && NoZeroMapped(s.downstream) && CoversAt(s, k)
    ensures CoversAt(RunEdits(s, edits), k) <==> AllKeepCovered(s, edits, k)
  {
    hide RunEdits, Step, KeepsCovered, CoversAt, SameAt;
    if edit :| edit in edits && edit.key == k {
      RunAtKey(s, edits, edit);
      SameAtAgreesAt(RunEdits(s, edits), Step(s, edit), k);
      CoverageKeptIff(s, edit);
    } else {
      RunLeavesKey(s, edits, k);
      SameAtAgreesAt(RunEdits(s, edits), s, k);
    }
  }

  /** Handling an event and delivering its one batch keeps a key in agreement exactly when every edit it makes
      there keeps in step, whatever it does elsewhere. */
  lemma EventAgreesIff(s: World, e: LrpEvent, k: RoutingKey)
    requires AgreesAt(s, k)
    ensures AgreesAt(HandleWorld(s, e), k) <==> AllKeepInStep(s, EditsOf(e), k)
  {
    hide EditsOf, AllKeepInStep, AgreesAt, HandleWorld, OneEditPerKey;
    EventsEditEachKeyOnce(e);
    OperationAgreesIff(s, EditsOf(e), k);
    HandleIsRun(s, e);
  }

  /** The same for coverage. */
  lemma EventCoversIff(s: World, e: LrpEvent, k: RoutingKey)
    requires NoZeroMapped(s.downstream) && CoversAt(s, k)
    ensures CoversAt(HandleWorld(s, e), k) <==> AllKeepCovered(s, EditsOf(e), k)
  {
    hide EditsOf, AllKeepCovered, CoversAt, NoZeroMapped, HandleWorld, OneEditPerKey;
    EventsEditEachKeyOnce(e);
    OperationCoversIff(s, EditsOf(e), k);
    HandleIsRun(s, e);
  }

  /** Some edit at the key restores the port, judged before the call. */
  ghost predicate SomeRestores(t: Table, edits: seq<Edit>, k: RoutingKey, p: uint32) {
    exists edit :: edit in edits && edit.key == k && Restores(t, edit, p)
  }

  lemma SameAtAbsentAt(a: World, b: World, k: RoutingKey, p: uint32)
    requires SameAt(a, b, k)
    ensures AbsentAt(a, k, p) <==> AbsentAt(b, k, p)
  {
  }

  /** A port absent at a key stays absent through an operation exactly when none of its edits there restores it. */
  lemma OperationRestoresIff(s: World, edits: seq<Edit>, k: RoutingKey, p: uint32)
    requires OneEditPerKey(edits) && AbsentAt(s, k, p)
    ensures AbsentAt(RunEdits(s, edits), k, p) <==> !SomeRestores(s.table, edits, k, p)
  {
    hide RunEdits, Step, Restores, AbsentAt, SameAt;
    if edit :| edit in edits && edit.key == k {
      RunAtKey(s, edits, edit);
      SameAtAbsentAt(RunEdits(s, edits), Step(s, edit), k, p);
      PortStaysRemovedIff(s, edit, k, p);
    } else {
      RunLeavesKey(s, edits, k);
      SameAtAbsentAt(RunEdits(s, edits), s, k, p);
    }
  }

  /** The same for a handled event. */
  lemma EventRestoresIff(s: World, e: LrpEvent, k: RoutingKey, p: uint32)
    requires AbsentAt(s, k, p)
    ensures AbsentAt(HandleWorld(s, e), k, p) <==> !SomeRestores(s.table, EditsOf(e), k, p)
  {
    hide EditsOf, SomeRestores, AbsentAt, HandleWorld, OneEditPerKey;
    EventsEditEachKeyOnce(e);
    OperationRestoresIff(s, EditsOf(e), k, p);
    HandleIsRun(s, e);
  }

  // ---------------------------------------------------------------- which events are dropped

  /** An event that a table operation emits is dropped exactly when its entry has a zero port. */
  lemma EventIsDroppedIff(t: Table, edits: seq<Edit>, e: Event)
    requires e in ApplyEdits(t, edits).events
    ensures Valid(e) <==> NonZero(e.entry.externalEndpoints)
  {
    hide Valid, ApplyEdits, ApplyEdit;
    var i := EventOrigin(t, edits, e);
    CreatedIsValid(ApplyEdits(t, edits[..i]).table, edits[i], e);
  }

  lemma CreatedIsValid(t: Table, edit: Edit, e: Event)
    requires e in ApplyEdit(t, edit).events
    ensures Valid(e) <==> NonZero(e.entry.externalEndpoints)
  {
    hide RoutesFor, CreateEvent, Valid, NonZero;
    var k, entry := edit.key, Lookup(t, edit.key);
    match edit
    case Merge(_, d) =>
      CreatedAreValid(Registration, k, RoutableEndpoints(Wanted(edit), entry.endpoints, d.logGuid, d.modificationTag));
      CreatedAreValid(Unregistration, k, entry.(externalEndpoints := Subtract(entry.externalEndpoints, Wanted(edit))));
    case Drop(_, _) => CreatedAreValid(Unregistration, k, entry);
    case Put(_, b) => CreatedAreValid(Registration, k, entry.(endpoints := entry.endpoints[b.Key() := b]));
    case Take(_, b) =>
      CreatedAreValid(Unregistration, k, entry.(endpoints := map[b.Key() := entry.endpoints[b.Key()]]));
  }

  lemma CreatedAreValid(kind: EventKind, key: RoutingKey, entry: Entry)
    ensures forall e :: e in CreateEvent(kind, key, entry) ==> (Valid(e) <==> NonZero(e.entry.externalEndpoints))
  {
    forall e | e in CreateEvent(kind, key, entry) ensures Valid(e) <==> NonZero(e.entry.externalEndpoints) {
      assert e.entry == entry;
      if !NonZero(entry.externalEndpoints) {
        var i :| 0 <= i < |entry.externalEndpoints| && entry.externalEndpoints[i].port == 0;
        assert !Valid(e);
      }
    }
  }

  /** Without zero ports at the key of an event, in the table before and in what the operation asks for there,
      the event is not dropped. */
  lemma NoEventIsDropped(t: Table, edits: seq<Edit>, e: Event)
    requires OneEditPerKey(edits) && e in ApplyEdits(t, edits).events
    requires NonZero(Lookup(t, e.key).externalEndpoints)
    requires forall edit :: edit in edits && edit.key == e.key && edit.Merge? ==> NonZero(Wanted(edit))
    ensures Valid(e)
  {
    hide Valid, ApplyEdits, ApplyEdit, RoutesFor;
    EventIsDroppedIff(t, edits, e);
    var i := EventOrigin(t, edits, e);
    EditSeparatesKinds(ApplyEdits(t, edits[..i]).table, edits[i], e);
    BeforeEdit(t, edits, i);
    NonZeroAfter(t, edits[i]);
    var now := ApplyEdits(t, edits[..i]).table;
    assert NonZero(Lookup(now, e.key).externalEndpoints);
    NonZeroEvent(now, edits[i], e);
  }

  lemma NonZeroAfter(t: Table, edit: Edit)
    requires NonZero(Lookup(t, edit.key).externalEndpoints) && (edit.Merge? ==> NonZero(Wanted(edit)))
    ensures NonZero(Lookup(ApplyEdit(t, edit).table, edit.key).externalEndpoints)
  {
    hide CreateEvent, Subtract, RoutesFor;
  }

  lemma NonZeroEvent(t: Table, edit: Edit, e: Event)
    requires e in ApplyEdit(t, edit).events
    requires NonZero(Lookup(t, edit.key).externalEndpoints) && (edit.Merge? ==> NonZero(Wanted(edit)))
    ensures NonZero(e.entry.externalEndpoints)
  {
    hide RoutesFor, CreateEvent, BringsNewPort;
    forall kind, key, entry ensures e in CreateEvent(kind, key, entry) ==> e.entry == entry {
      CreatedEvent(kind, key, entry);
    }
  }
}
