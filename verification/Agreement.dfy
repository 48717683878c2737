/**
 Incremental agreement: how far the remote set follows the table, edit by edit and key by key.
 `Projection` is what the table asks for, less the ports that an update withdrew without storing it.
 */
module Agreement {
  import opened Endpoints
  import opened Lrps
  import opened Events
  import opened TableSpec
  import opened Downstream

  /** Ports that an accepted update took away at a key while the stored entry still lists them. */
  type Withheld = set<(RoutingKey, uint32)>

  predicate Live(t: Table, w: Withheld, m: Mapping) {
    m.key in t && Exposes(m.key, t[m.key], m) && (m.key, m.external.port) !in w
  }

  function Projection(t: Table, w: Withheld): (mappings: set<Mapping>)
    ensures forall m :: m in mappings <==> Live(t, w, m)
  {
    set k, m | k in t && m in Product(k, t[k]) && (k, m.external.port) !in w :: m
  }

  function ClearKey(w: Withheld, key: RoutingKey): Withheld {
    set p | p in w && p.0 != key
  }

  /** A merge that brings no new port leaves the entry as it was; what it no longer asks for is withheld. */
  function Withhold(t: Table, w: Withheld, edit: Edit): Withheld {
    if !edit.Accepted(t) then w
    else match edit
      case Merge(k, _) =>
        if BringsNewPort(t, edit) then ClearKey(w, k)
        else w + set p | p in Ports(Lookup(t, k).externalEndpoints) && p !in Ports(Wanted(edit)) :: (k, p)
      case Drop(k, _) => ClearKey(w, k)
      case Put(k, _) => ClearKey(w, k)
      case Take(_, _) => w
  }

  datatype World = World(table: Table, withheld: Withheld, downstream: set<Mapping>)

  function Step(s: World, edit: Edit): World {
    var result := ApplyEdit(s.table, edit);
    World(result.table, Withhold(s.table, s.withheld, edit), Replay(s.downstream, result.events))
  }

  function RunEdits(s: World, edits: seq<Edit>): World {
    if edits == [] then s
    else Step(RunEdits(s, edits[..|edits| - 1]), edits[|edits| - 1])
  }

  const NOTHING := World(map[], {}, {})

  /** The remote set is exactly what the table asks for. */
  predicate Agrees(s: World) {
    s.downstream == Projection(s.table, s.withheld)
  }

  /** The same at one routing key. */
  ghost predicate AgreesAt(s: World, k: RoutingKey) {
    forall m: Mapping :: m.key == k ==> (m in s.downstream <==> Live(s.table, s.withheld, m))
  }

  /** At one routing key, nothing the table asks for is missing. */
  ghost predicate CoversAt(s: World, k: RoutingKey) {
    forall m: Mapping :: m.key == k && Live(s.table, s.withheld, m) ==> m in s.downstream
  }

  lemma AgreesEverywhere(s: World)
    ensures Agrees(s) <==> forall k :: AgreesAt(s, k)
  {
    if forall k :: AgreesAt(s, k) {
      forall m ensures m in s.downstream <==> m in Projection(s.table, s.withheld) {
        assert AgreesAt(s, m.key);
      }
    }
  }

  // ---------------------------------------------------------------- the effect of one edit

  predicate NonZero(external: ExternalEndpoints) {
    forall x :: x in external ==> x.port != 0
  }

  /** What an event about `entry` moves: its product, or nothing at all when one of its ports is zero. */
  function Sent(key: RoutingKey, entry: Entry): set<Mapping> {
    if NonZero(entry.externalEndpoints) then Product(key, entry) else {}
  }

  lemma ReplayCreated(d: set<Mapping>, kind: EventKind, key: RoutingKey, entry: Entry)
    ensures Replay(d, CreateEvent(kind, key, entry))
         == if kind == Registration then d + Sent(key, entry) else d - Sent(key, entry)
  {
    var created := CreateEvent(kind, key, entry);
    if created == [] {
      if |entry.endpoints| == 0 {
        assert entry.endpoints == map[];
      }
      assert Product(key, entry) == {};
    } else {
      assert created[..0] == [];
      assert Replay(d, created[..0]) == d;
      if NonZero(entry.externalEndpoints) {
        assert Valid(created[0]);
      } else {
        var i :| 0 <= i < |entry.externalEndpoints| && entry.externalEndpoints[i].port == 0;
        assert !Valid(created[0]);
      }
    }
  }

  /** The external endpoints of the stored entry whose port a merge no longer asks for. */
  function Gone(t: Table, edit: Edit): ExternalEndpoints
    requires edit.Merge?
  {
    Subtract(Lookup(t, edit.key).externalEndpoints, Wanted(edit))
  }

  /** The remote set after one edit, with every event delivered. */
  function Effect(s: World, edit: Edit): set<Mapping> {
    var entry := Lookup(s.table, edit.key);
    if !edit.Accepted(s.table) then s.downstream
    else match edit
      case Merge(k, d) =>
        var gone := Sent(k, entry.(externalEndpoints := Gone(s.table, edit)));
        var come := Sent(k, entry.(externalEndpoints := Wanted(edit)));
        (if BringsNewPort(s.table, edit) then s.downstream + come else s.downstream) - gone
      case Drop(k, _) => s.downstream - Sent(k, entry)
      case Put(k, e) => s.downstream + Sent(k, entry.(endpoints := entry.endpoints[e.Key() := e]))
      case Take(k, e) => s.downstream - Sent(k, entry.(endpoints := map[e.Key() := entry.endpoints[e.Key()]]))
  }

  lemma StepEffect(s: World, edit: Edit)
    ensures Step(s, edit).downstream == Effect(s, edit)
  {
    hide CreateEvent, RoutesFor, Product;
    var entry := Lookup(s.table, edit.key);
    if edit.Accepted(s.table) {
      match edit
      case Merge(k, d) =>
        var updated := RoutableEndpoints(Wanted(edit), entry.endpoints, d.logGuid, d.modificationTag);
        var gone := entry.(externalEndpoints := Gone(s.table, edit));
        ReplayConcat(s.downstream, CreateEvent(Registration, k, updated), CreateEvent(Unregistration, k, gone));
        ReplayCreated(s.downstream, Registration, k, updated);
        ReplayCreated(s.downstream, Unregistration, k, gone);
        ReplayCreated(s.downstream + Sent(k, updated), Unregistration, k, gone);
        assert Product(k, updated) == Product(k, entry.(externalEndpoints := Wanted(edit)));
      case Drop(k, _) =>
        ReplayCreated(s.downstream, Unregistration, k, entry);
      case Put(k, e) =>
        ReplayCreated(s.downstream, Registration, k, entry.(endpoints := entry.endpoints[e.Key() := e]));
      case Take(k, e) =>
        ReplayCreated(s.downstream, Unregistration, k,
                      entry.(endpoints := map[e.Key() := entry.endpoints[e.Key()]]));
    } else {
      NoEvents(s.downstream);
    }
  }

  lemma NoEvents(d: set<Mapping>)
    ensures Replay(d, []) == d
  {
  }

  /** A zero port silences its whole entry: the edit still changes the table, and the remote set stays. */
  lemma ZeroPortSilencesEntry(s: World, edit: Edit)
    ensures !edit.Merge? && !NonZero(Lookup(s.table, edit.key).externalEndpoints) ==>
              Step(s, edit).downstream == s.downstream
    ensures edit.Merge? && !NonZero(Wanted(edit)) ==> Step(s, edit).downstream <= s.downstream
    ensures edit.Merge? && !NonZero(Gone(s.table, edit)) ==> s.downstream <= Step(s, edit).downstream
  {
    StepEffect(s, edit);
    hide RoutesFor, Product, Step;
  }

  // ---------------------------------------------------------------- locality of a step

  /** Two worlds look the same at one routing key. */
  ghost predicate SameAt(a: World, b: World, k: RoutingKey) {
    && (k in a.table <==> k in b.table)
    && Lookup(a.table, k) == Lookup(b.table, k)
    && (forall p: uint32 :: (k, p) in a.withheld <==> (k, p) in b.withheld)
    && (forall m: Mapping :: m.key == k ==> (m in a.downstream <==> m in b.downstream))
  }

  lemma SameAtAgreesAt(a: World, b: World, k: RoutingKey)
    requires SameAt(a, b, k)
    ensures (AgreesAt(a, k) <==> AgreesAt(b, k)) && (CoversAt(a, k) <==> CoversAt(b, k))
  {
    forall m: Mapping | m.key == k ensures Live(a.table, a.withheld, m) <==> Live(b.table, b.withheld, m) {
    }
  }

  lemma StepIsLocal(s: World, edit: Edit, k: RoutingKey)
    requires k != edit.key
    ensures SameAt(Step(s, edit), s, k)
  {
    StepEffect(s, edit);
    EffectIsLocal(s, edit, k);
    WithholdIsLocal(s, edit, k);
    TableIsLocal(s.table, edit, k);
    hide ApplyEdit, Effect, Withhold, Replay;
  }

  lemma TableIsLocal(t: Table, edit: Edit, k: RoutingKey)
    requires k != edit.key
    ensures var u := ApplyEdit(t, edit).table;
            (k in u <==> k in t) && Lookup(u, k) == Lookup(t, k)
  {
    hide CreateEvent, Subtract, RoutesFor;
  }

  lemma EffectIsLocal(s: World, edit: Edit, k: RoutingKey)
    requires k != edit.key
    ensures forall m: Mapping :: m.key == k ==> (m in Effect(s, edit) <==> m in s.downstream)
  {
    hide RoutesFor, Product, Subtract;
  }

  lemma WithholdIsLocal(s: World, edit: Edit, k: RoutingKey)
    requires k != edit.key
    ensures forall p: uint32 :: (k, p) in Withhold(s.table, s.withheld, edit) <==> (k, p) in s.withheld
  {
    hide RoutesFor;
  }

  // ---------------------------------------------------------------- exact agreement

  /** The external endpoints that are listed at the key and not withheld. */
  function LiveExternals(s: World, k: RoutingKey): set<ExternalEndpointInfo> {
    set x | x in Lookup(s.table, k).externalEndpoints && (k, x.port) !in s.withheld
  }

  predicate SameAddress(entry: Entry, e: Endpoint) {
    && e.Key() in entry.endpoints
    && entry.endpoints[e.Key()].host == e.host
    && entry.endpoints[e.Key()].port == e.port
  }

  /** A mapping that was asked for and stays although the edit ends that: under another router group for a
      port that stays, at the previous address of a replaced endpoint, or because a zero port silenced the
      unregistration. */
  predicate LeftBehind(s: World, edit: Edit, m: Mapping) {
    var entry := Lookup(s.table, edit.key);
    && edit.Accepted(s.table) && m.key == edit.key && Live(s.table, s.withheld, m)
    && match edit
       case Merge(_, _) =>
         if m.external.port in Ports(Wanted(edit)) then BringsNewPort(s.table, edit) && m.external !in Wanted(edit)
         else !NonZero(Gone(s.table, edit))
       case Put(_, e) => m.endpointKey == e.Key() && (m.host, m.port) != (e.host, e.port)
       case Drop(_, _) => !NonZero(entry.externalEndpoints)
       case Take(_, e) => m.endpointKey == e.Key() && !NonZero(entry.externalEndpoints)
  }

  /** A mapping that the edit starts to ask for and that does not appear, because a zero port silenced the
      registration. */
  predicate Missed(s: World, edit: Edit, m: Mapping) {
    var entry := Lookup(s.table, edit.key);
    && edit.Accepted(s.table) && m.key == edit.key && !Live(s.table, s.withheld, m)
    && match edit
       case Merge(k, _) =>
         && BringsNewPort(s.table, edit) && !NonZero(Wanted(edit))
         && Exposes(k, entry.(externalEndpoints := Wanted(edit)), m)
       case Put(k, e) =>
         && !NonZero(entry.externalEndpoints)
         && Exposes(k, entry.(endpoints := entry.endpoints[e.Key() := e]), m)
       case _ => false
  }

  /** After an edit at a key in agreement, the remote set there is the new projection, less what was missed,
      with what was left behind. */
  lemma StepLeavesResidue(s: World, edit: Edit, m: Mapping)
    requires AgreesAt(s, edit.key) && m.key == edit.key
    ensures var s' := Step(s, edit);
            && (m in s'.downstream <==>
                  LeftBehind(s, edit, m) || (Live(s'.table, s'.withheld, m) && !Missed(s, edit, m)))
            && (LeftBehind(s, edit, m) ==> !Live(s'.table, s'.withheld, m))
            && (Missed(s, edit, m) ==> Live(s'.table, s'.withheld, m))
  {
    StepEffect(s, edit);
    hide CreateEvent, RoutesFor, Product, Replay, Subtract;
    assert m in s.downstream <==> Live(s.table, s.withheld, m);
    match edit
    case Merge(_, _) => MergeLeavesResidue(s, edit, m);
    case _ =>
  }

  lemma MergeLeavesResidue(s: World, edit: Edit, m: Mapping)
    requires edit.Merge? && m.key == edit.key && (m in s.downstream <==> Live(s.table, s.withheld, m))
    ensures var s' := Step(s, edit);
            && (m in Effect(s, edit) <==>
                  LeftBehind(s, edit, m) || (Live(s'.table, s'.withheld, m) && !Missed(s, edit, m)))
            && (LeftBehind(s, edit, m) ==> !Live(s'.table, s'.withheld, m))
            && (Missed(s, edit, m) ==> Live(s'.table, s'.withheld, m))
  {
    hide CreateEvent, RoutesFor, Product, Replay, Subtract;
  }

  /** What a caller can check before the edit: live shared ports keep their router group, a replaced endpoint
      with a live port keeps its address, and no zero port silences an event that is needed. */
  predicate KeepsInStep(s: World, edit: Edit) {
    var k, entry := edit.key, Lookup(s.table, edit.key);
    edit.Accepted(s.table) ==>
      match edit
      case Merge(_, _) =>
        entry.endpoints != map[] ==>
          && (BringsNewPort(s.table, edit) ==>
                && NonZero(Wanted(edit))
                && forall x :: x in LiveExternals(s, k) && x.port in Ports(Wanted(edit)) ==> x in Wanted(edit))
          && ((exists x :: x in LiveExternals(s, k) && x.port !in Ports(Wanted(edit))) ==> NonZero(Gone(s.table, edit)))
      case Put(_, e) =>
        if NonZero(entry.externalEndpoints)
        then e.Key() in entry.endpoints && LiveExternals(s, k) != {} ==> SameAddress(entry, e)
        else SameAddress(entry, e) && forall x :: x in entry.externalEndpoints ==> x in LiveExternals(s, k)
      case Drop(_, _) =>
        entry.endpoints != map[] && LiveExternals(s, k) != {} ==> NonZero(entry.externalEndpoints)
      case Take(_, _) =>
        LiveExternals(s, k) != {} ==> NonZero(entry.externalEndpoints)
  }

  /** The mapping of a listed external endpoint and a known backend. */
  function MappingOf(k: RoutingKey, x: ExternalEndpointInfo, entry: Entry, b: EndpointKey): (m: Mapping)
    requires b in entry.endpoints
    ensures m.key == k && m.external == x && m.endpointKey == b
    ensures x in entry.externalEndpoints ==> Exposes(k, entry, m)
  {
    Mapping(k, x, b, entry.endpoints[b].host, entry.endpoints[b].port)
  }

  /** When the condition fails, some mapping at the key is left behind or missed. */
  lemma ResidueWitness(s: World, edit: Edit) returns (m: Mapping)
    requires !KeepsInStep(s, edit)
    ensures m.key == edit.key && (LeftBehind(s, edit, m) || Missed(s, edit, m))
  {
    hide RoutesFor, Subtract;
    var k, entry := edit.key, Lookup(s.table, edit.key);
    match edit
    case Merge(_, _) =>
      var b :| b in entry.endpoints;
      if BringsNewPort(s.table, edit) && !NonZero(Wanted(edit)) {
        var x :| x in Wanted(edit) && !ContainsExternalPort(entry.externalEndpoints, x.port);
        m := MappingOf(k, x, entry.(externalEndpoints := Wanted(edit)), b);
      } else if x :| (&& BringsNewPort(s.table, edit) && x in LiveExternals(s, k)
                      && x.port in Ports(Wanted(edit)) && x !in Wanted(edit)) {
        m := MappingOf(k, x, entry, b);
      } else {
        var x :| x in LiveExternals(s, k) && x.port !in Ports(Wanted(edit));
        m := MappingOf(k, x, entry, b);
      }
    case Put(_, e) =>
      if NonZero(entry.externalEndpoints) {
        var x :| x in LiveExternals(s, k);
        m := MappingOf(k, x, entry, e.Key());
      } else {
        var x :| x in entry.externalEndpoints && (!SameAddress(entry, e) || x !in LiveExternals(s, k));
        m := MappingOf(k, x, entry.(endpoints := entry.endpoints[e.Key() := e]), e.Key());
      }
    case Drop(_, _) =>
      var b :| b in entry.endpoints;
      var x :| x in LiveExternals(s, k);
      m := MappingOf(k, x, entry, b);
    case Take(_, e) =>
      var x :| x in LiveExternals(s, k);
      m := MappingOf(k, x, entry, e.Key());
  }

  lemma NoResidue(s: World, edit: Edit, m: Mapping)
    requires KeepsInStep(s, edit)
    ensures !LeftBehind(s, edit, m) && !Missed(s, edit, m)
  {
    hide RoutesFor, Subtract;
    if m.key == edit.key && Live(s.table, s.withheld, m) {
      assert m.external in LiveExternals(s, edit.key);
    }
  }

  /** Nothing is left behind and nothing missed exactly when the condition holds. */
  lemma ResidueEmptyIff(s: World, edit: Edit)
    ensures KeepsInStep(s, edit) <==> forall m :: !LeftBehind(s, edit, m) && !Missed(s, edit, m)
  {
    hide KeepsInStep, LeftBehind, Missed;
    if KeepsInStep(s, edit) {
      forall m ensures !LeftBehind(s, edit, m) && !Missed(s, edit, m) {
        NoResidue(s, edit, m);
      }
    } else {
      var m := ResidueWitness(s, edit);
    }
  }

  /** An edit keeps agreement at its key exactly when it keeps in step, whatever the other keys hold. */
  lemma AgreementKeptIff(s: World, edit: Edit)
    requires AgreesAt(s, edit.key)
    ensures AgreesAt(Step(s, edit), edit.key) <==> KeepsInStep(s, edit)
  {
    ResidueEmptyIff(s, edit);
    hide KeepsInStep, LeftBehind, Missed, Step, Live;
    var s' := Step(s, edit);
    forall m: Mapping | m.key == edit.key
      ensures (m in s'.downstream <==> Live(s'.table, s'.withheld, m))
          <==> !LeftBehind(s, edit, m) && !Missed(s, edit, m)
    {
      StepLeavesResidue(s, edit, m);
    }
    forall m: Mapping | m.key != edit.key ensures !LeftBehind(s, edit, m) && !Missed(s, edit, m) {
      ResidueAtKey(s, edit, m);
    }
  }

  lemma ResidueAtKey(s: World, edit: Edit, m: Mapping)
    ensures LeftBehind(s, edit, m) || Missed(s, edit, m) ==> m.key == edit.key
  {
  }

  // ---------------------------------------------------------------- whole runs of edits

  lemma RunSnoc(s: World, edits: seq<Edit>, last: Edit)
    ensures RunEdits(s, edits + [last]) == Step(RunEdits(s, edits), last)
  {
    hide Step;
    assert (edits + [last])[..|edits|] == edits;
  }

  lemma RunPrefix(s: World, edits: seq<Edit>, i: nat)
    requires i < |edits|
    ensures RunEdits(s, edits[..i + 1]) == Step(RunEdits(s, edits[..i]), edits[i])
  {
    hide Step;
    assert edits[..i + 1][..i] == edits[..i];
  }

  /** One edit, seen from any key: agreement there is kept unless it is the edit's key and the condition fails. */
  lemma AgreementKeptAtIff(s: World, edit: Edit, k: RoutingKey)
    requires AgreesAt(s, k)
    ensures AgreesAt(Step(s, edit), k) <==> (edit.key == k ==> KeepsInStep(s, edit))
  {
    if edit.key == k {
      AgreementKeptIff(s, edit);
    } else {
      StepIsLocal(s, edit, k);
      SameAtAgreesAt(Step(s, edit), s, k);
    }
  }

  lemma {:induction false} AgreementUpTo(s: World, edits: seq<Edit>, k: RoutingKey, n: nat)
    requires n <= |edits| && AgreesAt(s, k)
    requires forall i :: 0 <= i < n && edits[i].key == k ==> KeepsInStep(RunEdits(s, edits[..i]), edits[i])
    ensures AgreesAt(RunEdits(s, edits[..n]), k)
  {
    hide KeepsInStep, AgreesAt, Step;
    if n > 0 {
      AgreementUpTo(s, edits, k, n - 1);
      AgreementKeptAtIff(RunEdits(s, edits[..n - 1]), edits[n - 1], k);
      RunPrefix(s, edits, n - 1);
    } else {
      assert edits[..0] == [];
    }
  }

  /** On every run, a key that starts in agreement agrees after every edit exactly when every edit at that
      key keeps in step where it happens; edits at other keys, of whatever kind, do not matter. */
  lemma AgreementOverRuns(s: World, edits: seq<Edit>, k: RoutingKey)
    requires AgreesAt(s, k)
    ensures (forall i :: 0 <= i <= |edits| ==> AgreesAt(RunEdits(s, edits[..i]), k))
        <==> (forall i :: 0 <= i < |edits| && edits[i].key == k ==> KeepsInStep(RunEdits(s, edits[..i]), edits[i]))
  {
    hide KeepsInStep, AgreesAt, Step;
    if forall i :: 0 <= i < |edits| && edits[i].key == k ==> KeepsInStep(RunEdits(s, edits[..i]), edits[i]) {
      forall i | 0 <= i <= |edits| ensures AgreesAt(RunEdits(s, edits[..i]), k) {
        AgreementUpTo(s, edits, k, i);
      }
    }
    if forall i :: 0 <= i <= |edits| ==> AgreesAt(RunEdits(s, edits[..i]), k) {
      forall i | 0 <= i < |edits| && edits[i].key == k ensures KeepsInStep(RunEdits(s, edits[..i]), edits[i]) {
        RunPrefix(s, edits, i);
        AgreementKeptAtIff(RunEdits(s, edits[..i]), edits[i], k);
      }
    }
  }

  // ---------------------------------------------------------------- coverage

  /** No mapping with external port zero is ever registered. */
  predicate NoZeroMapped(d: set<Mapping>) {
    forall m :: m in d ==> m.external.port != 0
  }

  lemma NoZeroMappedStep(s: World, edit: Edit)
    requires NoZeroMapped(s.downstream)
    ensures NoZeroMapped(Step(s, edit).downstream)
  {
    StepEffect(s, edit);
    hide RoutesFor, Subtract, Step;
  }

  /** What a caller can check before the edit: nothing new is asked for next to a zero port. */
  predicate KeepsCovered(s: World, edit: Edit) {
    var entry := Lookup(s.table, edit.key);
    edit.Accepted(s.table) ==>
      match edit
      case Merge(_, _) => BringsNewPort(s.table, edit) && entry.endpoints != map[] ==> NonZero(Wanted(edit))
      case Put(_, _) => NonZero(entry.externalEndpoints)
      case _ => true
  }

  /** An edit keeps a covered key covered exactly under that condition; identities play no part. */
  lemma CoverageKeptIff(s: World, edit: Edit)
    requires NoZeroMapped(s.downstream) && CoversAt(s, edit.key)
    ensures CoversAt(Step(s, edit), edit.key) <==> KeepsCovered(s, edit)
  {
    StepEffect(s, edit);
    NoZeroMappedStep(s, edit);
    hide RoutesFor, Subtract, Product, CreateEvent, Replay;
    var s' := Step(s, edit);
    if KeepsCovered(s, edit) {
      forall m: Mapping | m.key == edit.key && Live(s'.table, s'.withheld, m) ensures m in s'.downstream {
        CoveredMapping(s, edit, m);
      }
    } else {
      var m := UncoveredMapping(s, edit);
    }
  }

  lemma CoveredMapping(s: World, edit: Edit, m: Mapping)
    requires CoversAt(s, edit.key) && m.key == edit.key && KeepsCovered(s, edit)
    requires Live(Step(s, edit).table, Step(s, edit).withheld, m)
    ensures m in Effect(s, edit)
  {
    hide CreateEvent, RoutesFor, Product, Replay, Subtract;
    assert Live(s.table, s.withheld, m) ==> m in s.downstream;
  }

  lemma UncoveredMapping(s: World, edit: Edit) returns (m: Mapping)
    requires !KeepsCovered(s, edit)
    ensures m.key == edit.key && m.external.port == 0 && Live(Step(s, edit).table, Step(s, edit).withheld, m)
  {
    hide CreateEvent, RoutesFor, Replay, Subtract;
    var k, entry := edit.key, Lookup(s.table, edit.key);
    match edit
    case Merge(_, _) =>
      var b :| b in entry.endpoints;
      var x :| x in Wanted(edit) && x.port == 0;
      m := MappingOf(k, x, entry.(externalEndpoints := Wanted(edit)), b);
    case Put(_, e) =>
      var x :| x in entry.externalEndpoints && x.port == 0;
      m := MappingOf(k, x, entry.(endpoints := entry.endpoints[e.Key() := e]), e.Key());
  }

  /** Where the stored entry has no zero port, everything it asks for is there. */
  ghost predicate CoveredWhereNonZero(s: World) {
    && NoZeroMapped(s.downstream)
    && forall k :: NonZero(Lookup(s.table, k).externalEndpoints) ==> CoversAt(s, k)
  }

  /** Whatever the edit, and whatever zero ports there are or were. */
  lemma CoverageStep(s: World, edit: Edit)
    requires CoveredWhereNonZero(s)
    ensures CoveredWhereNonZero(Step(s, edit))
  {
    NoZeroMappedStep(s, edit);
    hide NoZeroMapped;
    var s' := Step(s, edit);
    forall k | NonZero(Lookup(s'.table, k).externalEndpoints) ensures CoversAt(s', k) {
      if k == edit.key {
        CoverageStepAt(s, edit);
      } else {
        StepIsLocal(s, edit, k);
        SameAtAgreesAt(s', s, k);
      }
    }
  }

  lemma CoverageStepAt(s: World, edit: Edit)
    requires NonZero(Lookup(s.table, edit.key).externalEndpoints) ==> CoversAt(s, edit.key)
    requires NonZero(Lookup(Step(s, edit).table, edit.key).externalEndpoints)
    ensures CoversAt(Step(s, edit), edit.key)
  {
    StepEffect(s, edit);
    hide CreateEvent, RoutesFor, Product, Replay, Subtract;
    forall m: Mapping | m.key == edit.key && Live(Step(s, edit).table, Step(s, edit).withheld, m)
      ensures m in Effect(s, edit)
    {
      CoverageStepAtMapping(s, edit, m);
    }
  }

  lemma CoverageStepAtMapping(s: World, edit: Edit, m: Mapping)
    requires NonZero(Lookup(s.table, edit.key).externalEndpoints) ==> CoversAt(s, edit.key)
    requires NonZero(Lookup(Step(s, edit).table, edit.key).externalEndpoints)
    requires m.key == edit.key && Live(Step(s, edit).table, Step(s, edit).withheld, m)
    ensures m in Effect(s, edit)
  {
    hide CreateEvent, RoutesFor, Product, Replay, Subtract;
    assert CoversAt(s, edit.key) && Live(s.table, s.withheld, m) ==> m in s.downstream;
  }

  lemma {:induction false} CoverageOverEdits(s: World, edits: seq<Edit>)
    requires CoveredWhereNonZero(s)
    ensures CoveredWhereNonZero(RunEdits(s, edits))
  {
    if edits != [] {
      var n := |edits| - 1;
      hide CoveredWhereNonZero, Step;
      CoverageOverEdits(s, edits[..n]);
      CoverageStep(RunEdits(s, edits[..n]), edits[n]);
    }
  }

  /** A zero port that is asked for with a backend behind it is never served, so its key is not covered. */
  lemma ZeroPortIsNeverCovered(s: World, k: RoutingKey, x: ExternalEndpointInfo)
    requires NoZeroMapped(s.downstream) && CoversAt(s, k) && Lookup(s.table, k).endpoints != map[]
    requires x in LiveExternals(s, k)
    ensures x.port != 0
  {
    var entry := Lookup(s.table, k);
    var b :| b in entry.endpoints;
    var m := MappingOf(k, x, entry, b);
    assert Live(s.table, s.withheld, m);
  }

  // ---------------------------------------------------------------- when an update takes full effect

  /** Every external endpoint the merge asks for is mapped to every backend at the key. */
  predicate Served(s: World, edit: Edit, d: set<Mapping>)
    requires edit.Merge?
  {
    Product(edit.key, Lookup(s.table, edit.key).(externalEndpoints := Wanted(edit))) <= d
  }

  /** No mapping at the key uses a port that the merge does not ask for. */
  ghost predicate Cleared(edit: Edit, d: set<Mapping>)
    requires edit.Merge?
  {
    forall m :: m in d && m.key == edit.key ==> m.external.port in Ports(Wanted(edit))
  }

  /** From agreement at its key, an accepted update clears the ports it does not ask for exactly when none of
      them was live or no zero port is among those that go; and it serves all it asks for exactly when it brings
      a new port and no zero port, or asks for nothing that is withheld or under another router group. */
  lemma UpdateTakesEffectIff(s: World, edit: Edit)
    requires AgreesAt(s, edit.key)
    requires edit.Merge? && edit.Accepted(s.table) && Lookup(s.table, edit.key).endpoints != map[]
    ensures Cleared(edit, Step(s, edit).downstream) <==>
              || NonZero(Gone(s.table, edit))
              || forall x :: x in LiveExternals(s, edit.key) ==> x.port in Ports(Wanted(edit))
    ensures Served(s, edit, Step(s, edit).downstream) <==>
              if BringsNewPort(s.table, edit) then NonZero(Wanted(edit))
              else forall x :: x in Wanted(edit) ==> x in LiveExternals(s, edit.key)
  {
    StepEffect(s, edit);
    hide CreateEvent, RoutesFor, Product, Replay, Step, Subtract;
    var k, entry := edit.key, Lookup(s.table, edit.key);
    var b :| b in entry.endpoints;
    forall x | x in LiveExternals(s, k) ensures MappingOf(k, x, entry, b) in s.downstream {
      assert Live(s.table, s.withheld, MappingOf(k, x, entry, b));
    }
    forall x | x in Wanted(edit)
      ensures MappingOf(k, x, entry, b) in Product(k, entry.(externalEndpoints := Wanted(edit)))
      ensures MappingOf(k, x, entry, b) in s.downstream ==> x in LiveExternals(s, k)
    {
    }
    EffectOfMerge(s, edit);
  }

  /** What an accepted merge does to the mappings it asks for and to the others. */
  lemma EffectOfMerge(s: World, edit: Edit)
    requires AgreesAt(s, edit.key) && edit.Merge? && edit.Accepted(s.table)
    ensures forall m: Mapping :: m.key == edit.key && m.external.port !in Ports(Wanted(edit)) ==>
              (m in Effect(s, edit) <==> Live(s.table, s.withheld, m) && !NonZero(Gone(s.table, edit)))
    ensures forall m: Mapping ::
              Exposes(edit.key, Lookup(s.table, edit.key).(externalEndpoints := Wanted(edit)), m) ==>
                (m in Effect(s, edit) <==>
                   Live(s.table, s.withheld, m) || (BringsNewPort(s.table, edit) && NonZero(Wanted(edit))))
  {
    hide CreateEvent, RoutesFor, Product, Replay, Subtract;
  }

  // ---------------------------------------------------------------- when a removed port stays removed

  /** No mapping at the key uses the port. */
  ghost predicate AbsentAt(s: World, k: RoutingKey, p: uint32) {
    forall m: Mapping :: m.key == k && m.external.port == p ==> m !in s.downstream
  }

  /** The edit registers the port at its key: an update that brings a new port and asks for this one too, or
      any accepted endpoint while the stale entry still lists it. */
  predicate Restores(t: Table, edit: Edit, p: uint32) {
    var entry := Lookup(t, edit.key);
    && edit.Accepted(t)
    && match edit
       case Merge(_, _) =>
         BringsNewPort(t, edit) && p in Ports(Wanted(edit)) && NonZero(Wanted(edit)) && entry.endpoints != map[]
       case Put(_, _) => p in Ports(entry.externalEndpoints) && NonZero(entry.externalEndpoints)
       case _ => false
  }

  /** An absent port stays absent exactly when the edit does not restore it. */
  lemma PortStaysRemovedIff(s: World, edit: Edit, k: RoutingKey, p: uint32)
    requires AbsentAt(s, k, p)
    ensures AbsentAt(Step(s, edit), k, p) <==> !(edit.key == k && Restores(s.table, edit, p))
  {
    StepEffect(s, edit);
    if edit.key != k {
      EffectIsLocal(s, edit, k);
    }
    hide CreateEvent, RoutesFor, Product, Replay, Step, Subtract;
    var entry := Lookup(s.table, edit.key);
    if edit.key == k && Restores(s.table, edit, p) {
      match edit
      case Merge(_, _) =>
        var b :| b in entry.endpoints;
        var x :| x in Wanted(edit) && x.port == p;
        assert MappingOf(k, x, entry.(externalEndpoints := Wanted(edit)), b) in Effect(s, edit);
      case Put(_, e) =>
        var x :| x in entry.externalEndpoints && x.port == p;
        assert MappingOf(k, x, entry.(endpoints := entry.endpoints[e.Key() := e]), e.Key()) in Effect(s, edit);
    } else if edit.key == k {
      forall m: Mapping | m.key == k && m.external.port == p ensures m !in Effect(s, edit) {
        assert m !in s.downstream;
      }
    }
  }

  lemma {:induction false} PortStaysRemovedUpTo(s: World, edits: seq<Edit>, k: RoutingKey, p: uint32, n: nat)
    requires n <= |edits| && AbsentAt(s, k, p)
    requires forall i :: 0 <= i < n && edits[i].key == k ==> !Restores(RunEdits(s, edits[..i]).table, edits[i], p)
    ensures AbsentAt(RunEdits(s, edits[..n]), k, p)
  {
    hide Restores, AbsentAt, Step;
    if n > 0 {
      PortStaysRemovedUpTo(s, edits, k, p, n - 1);
      PortStaysRemovedIff(RunEdits(s, edits[..n - 1]), edits[n - 1], k, p);
      RunPrefix(s, edits, n - 1);
    } else {
      assert edits[..0] == [];
    }
  }

  /** Over every run, a removed port stays removed exactly until the first edit that restores it. */
  lemma PortStaysRemovedOverRuns(s: World, edits: seq<Edit>, k: RoutingKey, p: uint32)
    requires AbsentAt(s, k, p)
    ensures (forall i :: 0 <= i <= |edits| ==> AbsentAt(RunEdits(s, edits[..i]), k, p))
        <==> (forall i :: 0 <= i < |edits| && edits[i].key == k ==>
                !Restores(RunEdits(s, edits[..i]).table, edits[i], p))
  {
    hide Restores, AbsentAt, Step;
    if forall i :: 0 <= i < |edits| && edits[i].key == k ==> !Restores(RunEdits(s, edits[..i]).table, edits[i], p) {
      forall i | 0 <= i <= |edits| ensures AbsentAt(RunEdits(s, edits[..i]), k, p) {
        PortStaysRemovedUpTo(s, edits, k, p, i);
      }
    }
    if forall i :: 0 <= i <= |edits| ==> AbsentAt(RunEdits(s, edits[..i]), k, p) {
      forall i | 0 <= i < |edits| && edits[i].key == k ensures !Restores(RunEdits(s, edits[..i]).table, edits[i], p) {
        RunPrefix(s, edits, i);
        PortStaysRemovedIff(RunEdits(s, edits[..i]), edits[i], k, p);
      }
    }
  }
}
