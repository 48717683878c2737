/**
 The handler as a protocol of atomic steps: events arrive at any time, a sync begins, its two
 fetches answer or fail in either order, and it ends. While it runs, events are cached.
 */
module SyncProtocol {
  import opened Endpoints
  import opened Lrps
  import opened Events
  import opened TableSpec
  import opened Sequences
  import opened Snapshot

  datatype Fetch<T> = Pending | Fetched(list: seq<T>) | FetchFailed

  datatype Phase = Idle | Syncing(actuals: Fetch<ActualLrp>, desireds: Fetch<DesiredLrp>)

  /** `batches` are the non-empty event lists handed to the emitter. */
  datatype State = State(table: Table, phase: Phase, cache: seq<LrpEvent>, batches: seq<seq<Event>>)

  datatype Label =
    | Arrive(event: LrpEvent)
    | Begin
    | ActualsAnswer(actuals: Fetch<ActualLrp>)
    | DesiredsAnswer(desireds: Fetch<DesiredLrp>)
    | End(newOrder: seq<RoutingKey>, oldOrder: seq<RoutingKey>)

  // ---------------------------------------------------------------- handling events

  function HandleAll(t: Table, events: seq<LrpEvent>): Table {
    if events == [] then t
    else Handle(HandleAll(t, events[..|events| - 1]), events[|events| - 1]).table
  }

  /** An empty list of events is not emitted. */
  function AsBatch(events: seq<Event>): seq<seq<Event>> {
    if events == [] then [] else [events]
  }

  function Emissions(t: Table, events: seq<LrpEvent>): seq<seq<Event>> {
    if events == [] then []
    else
      var prefix := events[..|events| - 1];
      Emissions(t, prefix) + AsBatch(Handle(HandleAll(t, prefix), events[|events| - 1]).events)
  }

  lemma HandleAllSnoc(t: Table, events: seq<LrpEvent>, e: LrpEvent)
    ensures HandleAll(t, events + [e]) == Handle(HandleAll(t, events), e).table
    ensures Emissions(t, events + [e]) == Emissions(t, events) + AsBatch(Handle(HandleAll(t, events), e).events)
  {
    hide Handle;
    assert (events + [e])[..|events|] == events;
  }

  lemma {:induction false} HandleAllConcat(t: Table, a: seq<LrpEvent>, b: seq<LrpEvent>)
    ensures HandleAll(t, a + b) == HandleAll(HandleAll(t, a), b)
  {
    if b == [] {
      assert a + b == a;
    } else {
      var n := |b| - 1;
      assert b == b[..n] + [b[n]] && a + b == (a + b[..n]) + [b[n]];
      HandleAllConcat(t, a, b[..n]);
      hide Handle, HandleAll;
      HandleAllSnoc(t, a + b[..n], b[n]);
      HandleAllSnoc(HandleAll(t, a), b[..n], b[n]);
    }
  }

  // ---------------------------------------------------------------- steps

  function RunningOnly(actuals: seq<ActualLrp>): (running: seq<ActualLrp>)
    ensures forall a :: a in running <==> a in actuals && a.state.Running?
  {
    if actuals == [] then []
    else
      var last := actuals[|actuals| - 1];
      RunningOnly(actuals[..|actuals| - 1]) + if last.state.Running? then [last] else []
  }

  /** The table built from the answers; empty when a fetch failed. */
  function Temporary(phase: Phase): Table
    requires phase.Syncing?
  {
    if phase.actuals.Fetched? && phase.desireds.Fetched?
    then Build(phase.desireds.list, RunningOnly(phase.actuals.list))
    else map[]
  }

  /** What the answers of a sync that comes to nothing look like: a fetch failed, or no desired LRP has a route
      and no running actual LRP has a port. */
  predicate FindsNothing(phase: Phase)
    requires phase.Syncing?
  {
    || !phase.actuals.Fetched? || !phase.desireds.Fetched?
    || (&& (forall d :: d in phase.desireds.list ==> d.routes == [])
        && (forall a :: a in phase.actuals.list && a.state.Running? ==> a.ports == []))
  }

  /** The test on the number of entries of the built table is that condition on the answers. */
  lemma FindsNothingIff(phase: Phase)
    requires phase.Syncing?
    ensures Temporary(phase) == map[] <==> FindsNothing(phase)
  {
    hide Build;
    if phase.actuals.Fetched? && phase.desireds.Fetched? {
      BuildIsEmptyIff(phase.desireds.list, RunningOnly(phase.actuals.list));
    }
  }

  ghost predicate Enabled(s: State, l: Label) {
    match l
    case Arrive(_) => true
    case Begin => s.phase.Idle?
    case ActualsAnswer(a) => s.phase.Syncing? && s.phase.actuals.Pending? && !a.Pending?
    case DesiredsAnswer(d) => s.phase.Syncing? && s.phase.desireds.Pending? && !d.Pending?
    case End(newOrder, oldOrder) =>
      && s.phase.Syncing? && !s.phase.actuals.Pending? && !s.phase.desireds.Pending?
      && (Temporary(s.phase) != map[] ==>
            Enumerates(newOrder, HandleAll(Temporary(s.phase), s.cache)) && Enumerates(oldOrder, s.table))
  }

  function Handled(s: State, events: seq<LrpEvent>): State {
    s.(table := HandleAll(s.table, events), batches := s.batches + Emissions(s.table, events))
  }

  /** A sync that failed, or that found no routes at all, handles the cached events on the old table.
      Otherwise they go silently onto the new table, which then replaces the old one. */
  ghost function EndSync(s: State, newOrder: seq<RoutingKey>, oldOrder: seq<RoutingKey>): State
    requires Enabled(s, End(newOrder, oldOrder))
  {
    var temporary := Temporary(s.phase);
    if temporary == map[] then Handled(s, s.cache).(phase := Idle, cache := [])
    else
      var next := HandleAll(temporary, s.cache);
      State(next, Idle, [], s.batches + AsBatch(SwapEvents(s.table, next, newOrder, oldOrder)))
  }

  /** A label that is not enabled does nothing. */
  ghost function Next(s: State, l: Label): State {
    if !Enabled(s, l) then s
    else match l
      case Arrive(e) => if s.phase.Syncing? then s.(cache := s.cache + [e]) else Handled(s, [e])
      case Begin => s.(phase := Syncing(Pending, Pending), cache := [])
      case ActualsAnswer(a) => s.(phase := s.phase.(actuals := a))
      case DesiredsAnswer(d) => s.(phase := s.phase.(desireds := d))
      case End(newOrder, oldOrder) => EndSync(s, newOrder, oldOrder)
  }

  ghost function Run(s: State, labels: seq<Label>): State {
    if labels == [] then s else Next(Run(s, labels[..|labels| - 1]), labels[|labels| - 1])
  }

  /** The events that arrived, in order. */
  function Arrived(labels: seq<Label>): seq<LrpEvent> {
    if labels == [] then []
    else
      var last := labels[|labels| - 1];
      Arrived(labels[..|labels| - 1]) + if last.Arrive? then [last.event] else []
  }

  // ---------------------------------------------------------------- conservation

  /** How many events had arrived when the latest sync began. */
  ghost function Mark(s: State, labels: seq<Label>): nat {
    if labels == [] then 0
    else
      var prefix := labels[..|labels| - 1];
      if labels[|labels| - 1].Begin? && Run(s, prefix).phase.Idle? then |Arrived(prefix)| else Mark(s, prefix)
  }

  /** The latest snapshot that was taken over, or the initial table, and the number of events before it. */
  datatype Origin = Origin(base: Table, since: nat)

  ghost predicate TakesOver(s: State, l: Label) {
    l.End? && Enabled(s, l) && Temporary(s.phase) != map[]
  }

  ghost function OriginOf(s: State, labels: seq<Label>): Origin {
    if labels == [] then Origin(s.table, 0)
    else
      var prefix := labels[..|labels| - 1];
      var before := Run(s, prefix);
      if TakesOver(before, labels[|labels| - 1]) then Origin(Temporary(before.phase), Mark(s, prefix))
      else OriginOf(s, prefix)
  }

  /** In every interleaving: each event that arrived since the origin is applied exactly once and in
      arrival order; during a sync the table is frozen and the cache holds exactly the events since it began. */
  ghost predicate Conserved(s: State, labels: seq<Label>) {
    var now, arrived, origin, mark := Run(s, labels), Arrived(labels), OriginOf(s, labels), Mark(s, labels);
    && origin.since <= |arrived| && mark <= |arrived|
    && if now.phase.Idle?
       then now.cache == [] && now.table == HandleAll(origin.base, arrived[origin.since..])
       else origin.since <= mark && now.cache == arrived[mark..]
            && now.table == HandleAll(origin.base, arrived[origin.since..mark])
  }

  lemma {:induction false} EventsAreConserved(s: State, labels: seq<Label>)
    requires s.phase.Idle? && s.cache == []
    ensures Conserved(s, labels)
  {
    if labels == [] {
      hide Handle;
    } else {
      var n := |labels| - 1;
      var prefix, last := labels[..n], labels[n];
      EventsAreConserved(s, prefix);
      assert labels == prefix + [last];
      ConservedStep(s, prefix, last);
    }
  }

  lemma RunSnoc(s: State, labels: seq<Label>, last: Label)
    ensures Run(s, labels + [last]) == Next(Run(s, labels), last)
    ensures Arrived(labels + [last]) == Arrived(labels) + if last.Arrive? then [last.event] else []
    ensures Mark(s, labels + [last])
         == if last.Begin? && Run(s, labels).phase.Idle? then |Arrived(labels)| else Mark(s, labels)
    ensures OriginOf(s, labels + [last])
         == if TakesOver(Run(s, labels), last) then Origin(Temporary(Run(s, labels).phase), Mark(s, labels))
            else OriginOf(s, labels)
  {
    hide Next, TakesOver;
    assert (labels + [last])[..|labels|] == labels;
  }

  lemma ConservedStep(s: State, labels: seq<Label>, last: Label)
    requires Conserved(s, labels)
    ensures Conserved(s, labels + [last])
  {
    RunSnoc(s, labels, last);
    hide Run, Arrived, Mark, OriginOf, HandleAll, Handle, Emissions, Temporary, Enumerates;
    var now, arrived, origin, mark := Run(s, labels), Arrived(labels), OriginOf(s, labels), Mark(s, labels);
    assert arrived + [] == arrived;
    if Enabled(now, last) {
      match last
      case Arrive(e) =>
        if now.phase.Idle? {
          assert (arrived + [e])[origin.since..] == arrived[origin.since..] + [e];
          HandleAllConcat(origin.base, arrived[origin.since..], [e]);
        } else {
          assert (arrived + [e])[mark..] == arrived[mark..] + [e];
          assert (arrived + [e])[origin.since..mark] == arrived[origin.since..mark];
        }
      case Begin =>
        assert arrived[|arrived|..] == [];
      case End(newOrder, oldOrder) =>
        HandleAllConcat(origin.base, arrived[origin.since..mark], now.cache);
        assert arrived[origin.since..mark] + arrived[mark..] == arrived[origin.since..];
      case _ =>
    }
  }

  // ---------------------------------------------------------------- a sync can always end

  lemma {:induction false} KeysCanBeListed(keys: set<RoutingKey>) returns (order: seq<RoutingKey>)
    ensures (forall k :: k in order <==> k in keys) && forall i, j :: 0 <= i < j < |order| ==> order[i] != order[j]
  {
    order := [];
    if keys != {} {
      var k :| k in keys;
      order := KeysCanBeListed(keys - {k});
      order := order + [k];
    }
  }

  /** Once both answers are there, some end is enabled: no table keeps a sync from ending. */
  lemma SyncCanEnd(s: State) returns (end: Label)
    requires s.phase.Syncing? && !s.phase.actuals.Pending? && !s.phase.desireds.Pending?
    ensures end.End? && Enabled(s, end)
  {
    hide HandleAll, Temporary;
    var next := HandleAll(Temporary(s.phase), s.cache);
    var newOrder := KeysCanBeListed(next.Keys);
    var oldOrder := KeysCanBeListed(s.table.Keys);
    end := End(newOrder, oldOrder);
  }

  // ---------------------------------------------------------------- failed and successful syncs

  /** The labels of one sync between its begin and its end. */
  ghost predicate Inner(labels: seq<Label>) {
    forall i :: 0 <= i < |labels| ==> labels[i].Arrive? || labels[i].ActualsAnswer? || labels[i].DesiredsAnswer?
  }

  /** While a sync is in flight, nothing but the cache and the answers changes. */
  lemma {:induction false} FrozenWhileSyncing(s: State, labels: seq<Label>)
    requires s.phase.Syncing? && Inner(labels)
    ensures var now := Run(s, labels);
            now.phase.Syncing? && now.table == s.table && now.batches == s.batches
            && now.cache == s.cache + Arrived(labels)
  {
    if labels != [] {
      var n := |labels| - 1;
      assert labels == labels[..n] + [labels[n]];
      FrozenWhileSyncing(s, labels[..n]);
      hide Run, Arrived, Handled;
      RunSnoc(s, labels[..n], labels[n]);
    }
  }

  function Arrivals(events: seq<LrpEvent>): (labels: seq<Label>)
    ensures |labels| == |events| && forall i :: 0 <= i < |events| ==> labels[i] == Arrive(events[i])
  {
    seq(|events|, i requires 0 <= i < |events| => Arrive(events[i]))
  }

  lemma HandledSnoc(s: State, events: seq<LrpEvent>, e: LrpEvent)
    ensures Handled(Handled(s, events), [e]) == Handled(s, events + [e])
  {
    hide HandleAll, Emissions, Handle;
    var table := HandleAll(s.table, events);
    HandleAllSnoc(s.table, events, e);
    assert [] + [e] == [e];
    HandleAllSnoc(table, [], e);
    EmptyHandling(table);
    var batch := AsBatch(Handle(table, e).events);
    assert [] + batch == batch;
    Associative(s.batches, Emissions(s.table, events), batch);
  }

  lemma ArrivesIdle(s: State, e: LrpEvent)
    requires s.phase.Idle?
    ensures Next(s, Arrive(e)) == Handled(s, [e])
  {
    hide Handled;
  }

  lemma HandledStaysIdle(s: State, events: seq<LrpEvent>)
    ensures Handled(s, events).phase == s.phase
  {
    hide HandleAll, Emissions;
  }

  lemma DirectHandlingSnoc(s: State, labels: seq<Label>, events: seq<LrpEvent>, e: LrpEvent)
    requires s.phase.Idle? && Run(s, labels) == Handled(s, events)
    ensures Run(s, labels + [Arrive(e)]) == Handled(s, events + [e])
  {
    hide Run, Handled, Next;
    RunSnoc(s, labels, Arrive(e));
    HandledStaysIdle(s, events);
    ArrivesIdle(Handled(s, events), e);
    HandledSnoc(s, events, e);
  }

  lemma {:induction false} DirectHandling(s: State, events: seq<LrpEvent>)
    requires s.phase.Idle?
    ensures Run(s, Arrivals(events)) == Handled(s, events)
  {
    hide Run, Handled, Arrivals;
    if events == [] {
      NoArrivals(s);
    } else {
      var prefix, last := events[..|events| - 1], events[|events| - 1];
      DirectHandling(s, prefix);
      assert events == prefix + [last];
      ArrivalsSnoc(prefix, last);
      DirectHandlingSnoc(s, Arrivals(prefix), prefix, last);
    }
  }

  lemma NoArrivals(s: State)
    ensures Run(s, Arrivals([])) == Handled(s, [])
  {
    hide HandleAll, Emissions, Next;
    EmptyHandling(s.table);
    assert s.batches + [] == s.batches;
  }

  lemma ArrivalsSnoc(events: seq<LrpEvent>, last: LrpEvent)
    ensures Arrivals(events + [last]) == Arrivals(events) + [Arrive(last)]
  {
  }

  lemma EmptyHandling(t: Table)
    ensures HandleAll(t, []) == t && Emissions(t, []) == []
  {
    hide Handle;
  }

  /** A sync that fails or finds nothing leaves the same state, and the same emissions, as if the events
      that arrived meanwhile had been handled one by one with no sync. */
  lemma FailedSyncIsStutter(s: State, inner: seq<Label>, end: Label)
    requires s.phase.Idle? && s.cache == [] && Inner(inner) && end.End?
    requires var ended := Run(Next(s, Begin), inner);
             Enabled(ended, end) && FindsNothing(ended.phase)
    ensures Next(Run(Next(s, Begin), inner), end) == Run(s, Arrivals(Arrived(inner)))
  {
    FindsNothingIff(Run(Next(s, Begin), inner).phase);
    BeginFreezes(s, inner);
    DirectHandling(s, Arrived(inner));
    hide Run, HandleAll, Emissions, Temporary, Enumerates;
  }

  lemma BeginFreezes(s: State, inner: seq<Label>)
    requires s.phase.Idle? && Inner(inner)
    ensures var ended := Run(Next(s, Begin), inner);
            && ended.phase.Syncing? && ended.table == s.table
            && ended.batches == s.batches && ended.cache == Arrived(inner)
  {
    hide Run, HandleAll, Emissions, Temporary;
    FrozenWhileSyncing(Next(s, Begin), inner);
    assert [] + Arrived(inner) == Arrived(inner);
  }

  lemma TakeOver(s: State, end: Label)
    requires TakesOver(s, end)
    ensures var next := HandleAll(Temporary(s.phase), s.cache);
            && Next(s, end).table == next && Next(s, end).phase.Idle? && Next(s, end).cache == []
            && exists events :: IsSwap(s.table, next, events) && Next(s, end).batches == s.batches + AsBatch(events)
  {
    hide HandleAll, RegisterAll, UnregisterMissing, Temporary;
    var next := HandleAll(Temporary(s.phase), s.cache);
    var events := SwapEvents(s.table, next, end.newOrder, end.oldOrder);
    assert Next(s, end) == State(next, Idle, [], s.batches + AsBatch(events));
    SwapWitness(s.table, next, end.newOrder, end.oldOrder);
  }

  /** A sync that takes over leaves the snapshot with the events since its begin replayed on it, whatever
      the old table was, and emits at most one batch: the swap. */
  lemma SuccessfulSyncIsSnapshotThenReplay(s: State, inner: seq<Label>, end: Label)
    requires s.phase.Idle? && Inner(inner)
    requires var ended := Run(Next(s, Begin), inner);
             end.End? && Enabled(ended, end) && !FindsNothing(ended.phase)
    ensures var ended := Run(Next(s, Begin), inner);
            var built := Build(ended.phase.desireds.list, RunningOnly(ended.phase.actuals.list));
            var next := HandleAll(built, Arrived(inner));
            && Next(ended, end).table == next && Next(ended, end).phase.Idle? && Next(ended, end).cache == []
            && exists events :: IsSwap(s.table, next, events) && Next(ended, end).batches == s.batches + AsBatch(events)
  {
    FindsNothingIff(Run(Next(s, Begin), inner).phase);
    BeginFreezes(s, inner);
    hide Run, HandleAll, Build, IsSwap, Next;
    TakeOver(Run(Next(s, Begin), inner), end);
  }
}
