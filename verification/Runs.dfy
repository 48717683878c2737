/**
 Whole runs of the handler, seen from the remote set: a run of protocol labels comes down to a
 list of actions, each a handled event or a swap, with every batch delivered.
 */
module Runs {
  import opened Endpoints
  import opened Lrps
  import opened Events
  import opened TableSpec
  import opened Downstream
  import opened Agreement
  import opened Operations
  import opened OperationAgreement
  import opened SwapDelta
  import opened SyncProtocol
  import opened Sequences

  datatype Action =
    | Handling(event: LrpEvent)
    | SwapTo(next: Table, newOrder: seq<RoutingKey>, oldOrder: seq<RoutingKey>)

  /** A swap replaces the table and clears what was withheld; orders that are none do nothing. */
  ghost function Act(w: World, a: Action): World {
    match a
    case Handling(e) => HandleWorld(w, e)
    case SwapTo(next, newOrder, oldOrder) =>
      if Enumerates(newOrder, next) && Enumerates(oldOrder, w.table)
      then Swapped(next, w.downstream, SwapEvents(w.table, next, newOrder, oldOrder))
      else w
  }

  ghost function ActAll(w: World, actions: seq<Action>): World {
    if actions == [] then w
    else Act(ActAll(w, actions[..|actions| - 1]), actions[|actions| - 1])
  }

  lemma ActSnoc(w: World, actions: seq<Action>, last: Action)
    ensures ActAll(w, actions + [last]) == Act(ActAll(w, actions), last)
  {
    hide Act;
    assert (actions + [last])[..|actions|] == actions;
  }

  lemma NoAction(w: World)
    ensures ActAll(w, []) == w
  {
  }

  lemma {:induction false} ActConcat(w: World, a: seq<Action>, b: seq<Action>)
    ensures ActAll(w, a + b) == ActAll(ActAll(w, a), b)
  {
    hide ActAll, Act;
    if b == [] {
      NoAction(ActAll(w, a));
      assert a + b == a;
    } else {
      var n := |b| - 1;
      ActConcat(w, a, b[..n]);
      ActSnoc(w, a + b[..n], b[n]);
      ActSnoc(ActAll(w, a), b[..n], b[n]);
      assert b == b[..n] + [b[n]];
      assert a + b == (a + b[..n]) + [b[n]];
    }
  }

  lemma IsSwapTo(before: Table, after: Table, newOrder: seq<RoutingKey>, oldOrder: seq<RoutingKey>)
    requires Enumerates(newOrder, after) && Enumerates(oldOrder, before)
    ensures IsSwap(before, after, SwapEvents(before, after, newOrder, oldOrder))
  {
    hide RegisterAll, UnregisterMissing;
  }

  // ---------------------------------------------------------------- coverage

  lemma ActCovers(w: World, a: Action)
    requires CoveredWhereNonZero(w)
    ensures CoveredWhereNonZero(Act(w, a))
  {
    match a
    case Handling(e) =>
      HandleIsRun(w, e);
      CoverageOverEdits(w, EditsOf(e));
    case SwapTo(next, newOrder, oldOrder) =>
      if Enumerates(newOrder, next) && Enumerates(oldOrder, w.table) {
        var events := SwapEvents(w.table, next, newOrder, oldOrder);
        IsSwapTo(w.table, next, newOrder, oldOrder);
        hide SwapEvents, IsSwap, CoversAt, NonZero, NoZeroMapped;
        NoZeroMappedSwap(w.table, next, events, w.downstream);
        forall k | NonZero(Lookup(next, k).externalEndpoints) ensures CoversAt(Swapped(next, w.downstream, events), k) {
          SwapHeals(w.table, next, events, w.downstream, k);
        }
      }
  }

  lemma {:induction false} ActAllCovers(w: World, actions: seq<Action>)
    requires CoveredWhereNonZero(w)
    ensures CoveredWhereNonZero(ActAll(w, actions))
  {
    if actions != [] {
      hide CoveredWhereNonZero, Act;
      ActAllCovers(w, actions[..|actions| - 1]);
      ActCovers(ActAll(w, actions[..|actions| - 1]), actions[|actions| - 1]);
    }
  }

  /** What can be checked at a key before an action, for coverage there. */
  ghost predicate ActionKeepsCovered(w: World, a: Action, k: RoutingKey) {
    match a
    case Handling(e) => AllKeepCovered(w, EditsOf(e), k)
    case SwapTo(next, newOrder, oldOrder) =>
      Enumerates(newOrder, next) && Enumerates(oldOrder, w.table) ==>
        NonZero(Lookup(next, k).externalEndpoints) || Lookup(next, k).endpoints == map[]
  }

  lemma ActCoversIff(w: World, a: Action, k: RoutingKey)
    requires NoZeroMapped(w.downstream) && CoversAt(w, k)
    ensures CoversAt(Act(w, a), k) <==> ActionKeepsCovered(w, a, k)
  {
    hide EditsOf, AllKeepCovered, CoversAt, HandleWorld, NonZero, NoZeroMapped, SwapEvents, IsSwap;
    match a
    case Handling(e) => EventCoversIff(w, e, k);
    case SwapTo(next, newOrder, oldOrder) =>
      if Enumerates(newOrder, next) && Enumerates(oldOrder, w.table) {
        IsSwapTo(w.table, next, newOrder, oldOrder);
        SwapHealsIff(w.table, next, SwapEvents(w.table, next, newOrder, oldOrder), w.downstream, k);
      }
  }

  // ---------------------------------------------------------------- exact agreement

  /** What can be checked at a key before an action, for agreement there. */
  ghost predicate ActionKeepsInStep(w: World, a: Action, k: RoutingKey) {
    match a
    case Handling(e) => AllKeepInStep(w, EditsOf(e), k)
    case SwapTo(next, newOrder, oldOrder) =>
      Enumerates(newOrder, next) && Enumerates(oldOrder, w.table) ==> SwapKeepsInStep(w, next, k)
  }

  lemma ActAgreesIff(w: World, a: Action, k: RoutingKey)
    requires AgreesAt(w, k)
    ensures AgreesAt(Act(w, a), k) <==> ActionKeepsInStep(w, a, k)
  {
    hide EditsOf, AllKeepInStep, AgreesAt, HandleWorld, SwapKeepsInStep, SwapEvents, IsSwap;
    match a
    case Handling(e) => EventAgreesIff(w, e, k);
    case SwapTo(next, newOrder, oldOrder) =>
      if Enumerates(newOrder, next) && Enumerates(oldOrder, w.table) {
        IsSwapTo(w.table, next, newOrder, oldOrder);
        SwapAgreesIff(w, next, SwapEvents(w.table, next, newOrder, oldOrder), k);
      }
  }

  lemma ActPrefix(w: World, actions: seq<Action>, i: nat)
    requires i < |actions|
    ensures ActAll(w, actions[..i + 1]) == Act(ActAll(w, actions[..i]), actions[i])
  {
    hide Act;
    assert actions[..i + 1][..i] == actions[..i];
  }

  lemma {:induction false} ActionsAgreeUpTo(w: World, actions: seq<Action>, k: RoutingKey, n: nat)
    requires n <= |actions| && AgreesAt(w, k)
    requires forall i :: 0 <= i < n ==> ActionKeepsInStep(ActAll(w, actions[..i]), actions[i], k)
    ensures AgreesAt(ActAll(w, actions[..n]), k)
  {
    hide ActionKeepsInStep, AgreesAt, Act;
    if n > 0 {
      ActionsAgreeUpTo(w, actions, k, n - 1);
      ActAgreesIff(ActAll(w, actions[..n - 1]), actions[n - 1], k);
      ActPrefix(w, actions, n - 1);
    } else {
      assert actions[..0] == [];
    }
  }

  /** Over every list of handled events and swaps: a key agrees after each action exactly when each action keeps
      it in step on the world it meets. */
  lemma ActionsAgreeIff(w: World, actions: seq<Action>, k: RoutingKey)
    requires AgreesAt(w, k)
    ensures (forall i :: 0 <= i <= |actions| ==> AgreesAt(ActAll(w, actions[..i]), k))
        <==> (forall i :: 0 <= i < |actions| ==> ActionKeepsInStep(ActAll(w, actions[..i]), actions[i], k))
  {
    hide ActionKeepsInStep, AgreesAt, Act;
    if forall i :: 0 <= i < |actions| ==> ActionKeepsInStep(ActAll(w, actions[..i]), actions[i], k) {
      forall i | 0 <= i <= |actions| ensures AgreesAt(ActAll(w, actions[..i]), k) {
        ActionsAgreeUpTo(w, actions, k, i);
      }
    }
    if forall i :: 0 <= i <= |actions| ==> AgreesAt(ActAll(w, actions[..i]), k) {
      forall i | 0 <= i < |actions| ensures ActionKeepsInStep(ActAll(w, actions[..i]), actions[i], k) {
        ActPrefix(w, actions, i);
        ActAgreesIff(ActAll(w, actions[..i]), actions[i], k);
      }
    }
  }

  // ---------------------------------------------------------------- when a removed port stays removed

  /** The action brings the port to the key: an edit of the event restores it, or the new table has it. */
  ghost predicate ActionRestores(w: World, a: Action, k: RoutingKey, p: uint32) {
    match a
    case Handling(e) => SomeRestores(w.table, EditsOf(e), k, p)
    case SwapTo(next, newOrder, oldOrder) =>
      Enumerates(newOrder, next) && Enumerates(oldOrder, w.table) && SwapRestores(next, k, p)
  }

  lemma ActRestoresIff(w: World, a: Action, k: RoutingKey, p: uint32)
    requires AbsentAt(w, k, p)
    ensures AbsentAt(Act(w, a), k, p) <==> !ActionRestores(w, a, k, p)
  {
    hide EditsOf, SomeRestores, AbsentAt, HandleWorld, SwapRestores, SwapEvents, IsSwap;
    match a
    case Handling(e) => EventRestoresIff(w, e, k, p);
    case SwapTo(next, newOrder, oldOrder) =>
      if Enumerates(newOrder, next) && Enumerates(oldOrder, w.table) {
        IsSwapTo(w.table, next, newOrder, oldOrder);
        SwapRestoresIff(w.table, next, SwapEvents(w.table, next, newOrder, oldOrder), w, k, p);
      }
  }

  lemma {:induction false} StaysRemovedUpTo(w: World, actions: seq<Action>, k: RoutingKey, p: uint32, n: nat)
    requires n <= |actions| && AbsentAt(w, k, p)
    requires forall i :: 0 <= i < n ==> !ActionRestores(ActAll(w, actions[..i]), actions[i], k, p)
    ensures AbsentAt(ActAll(w, actions[..n]), k, p)
  {
    hide ActionRestores, AbsentAt, Act, ActAll;
    if n > 0 {
      StaysRemovedUpTo(w, actions, k, p, n - 1);
      ActRestoresIff(ActAll(w, actions[..n - 1]), actions[n - 1], k, p);
      ActPrefix(w, actions, n - 1);
    } else {
      assert actions[..0] == [];
      NoAction(w);
    }
  }

  /** Over every list of handled events and swaps, a removed port stays removed exactly until the first action
      that restores it. */
  lemma PortStaysRemovedOverActions(w: World, actions: seq<Action>, k: RoutingKey, p: uint32)
    requires AbsentAt(w, k, p)
    ensures (forall i :: 0 <= i <= |actions| ==> AbsentAt(ActAll(w, actions[..i]), k, p))
        <==> (forall i :: 0 <= i < |actions| ==> !ActionRestores(ActAll(w, actions[..i]), actions[i], k, p))
  {
    hide ActionRestores, AbsentAt, Act, ActAll;
    if forall i :: 0 <= i < |actions| ==> !ActionRestores(ActAll(w, actions[..i]), actions[i], k, p) {
      forall i | 0 <= i <= |actions| ensures AbsentAt(ActAll(w, actions[..i]), k, p) {
        StaysRemovedUpTo(w, actions, k, p, i);
      }
    }
    if forall i :: 0 <= i <= |actions| ==> AbsentAt(ActAll(w, actions[..i]), k, p) {
      forall i | 0 <= i < |actions| ensures !ActionRestores(ActAll(w, actions[..i]), actions[i], k, p) {
        ActPrefix(w, actions, i);
        ActRestoresIff(ActAll(w, actions[..i]), actions[i], k, p);
      }
    }
  }

  // ---------------------------------------------------------------- from labels to actions

  function Handlings(events: seq<LrpEvent>): (actions: seq<Action>)
    ensures |actions| == |events| && forall i :: 0 <= i < |events| ==> actions[i] == Handling(events[i])
  {
    seq(|events|, i requires 0 <= i < |events| => Handling(events[i]))
  }

  /** What one label does to the remote set: arrivals while idle, the cached events of a sync that comes to
      nothing, or the swap of one that takes over. */
  ghost function ActionsAt(s: State, l: Label): seq<Action> {
    if !Enabled(s, l) then []
    else match l
      case Arrive(e) => if s.phase.Idle? then [Handling(e)] else []
      case End(newOrder, oldOrder) =>
        if Temporary(s.phase) == map[] then Handlings(s.cache)
        else [SwapTo(HandleAll(Temporary(s.phase), s.cache), newOrder, oldOrder)]
      case _ => []
  }

  ghost function ActionsOf(s: State, labels: seq<Label>): seq<Action> {
    if labels == [] then []
    else
      var prefix := labels[..|labels| - 1];
      ActionsOf(s, prefix) + ActionsAt(Run(s, prefix), labels[|labels| - 1])
  }

  /** The world has the table of the state, and its remote set is made of the state's batches. */
  ghost predicate Describes(w: World, s: State) {
    w.table == s.table && w.downstream == DeliverAll({}, s.batches)
  }

  lemma DeliverAllBatch(d: set<Mapping>, batches: seq<seq<Event>>, events: seq<Event>)
    ensures DeliverAll(d, batches + AsBatch(events)) == Deliver(DeliverAll(d, batches), events)
  {
    if events == [] {
      assert batches + [] == batches;
    } else {
      assert (batches + [events])[..|batches|] == batches;
    }
  }

  lemma HandlingDescribes(w: World, s: State, e: LrpEvent)
    requires Describes(w, s)
    ensures Describes(HandleWorld(w, e), Handled(s, [e]))
  {
    hide Handle, Deliver, DeliverAll, HandleAll, Emissions, RunEdits;
    EmptyHandling(s.table);
    assert [] + [e] == [e];
    HandleAllSnoc(s.table, [], e);
    var batch := AsBatch(Handle(s.table, e).events);
    assert [] + batch == batch;
    DeliverAllBatch({}, s.batches, Handle(s.table, e).events);
  }

  lemma HandlingsOfSnoc(events: seq<LrpEvent>, e: LrpEvent)
    ensures Handlings(events + [e]) == Handlings(events) + [Handling(e)]
  {
  }

  lemma NoHandlings(w: World, s: State)
    requires Describes(w, s)
    ensures Describes(ActAll(w, Handlings([])), Handled(s, []))
  {
    hide HandleWorld, Handle, Deliver, DeliverAll;
    EmptyHandling(s.table);
    assert s.batches + [] == s.batches;
  }

  lemma HandlingsSnoc(w: World, s: State, actions: seq<Action>, events: seq<LrpEvent>, e: LrpEvent)
    requires Describes(ActAll(w, actions), Handled(s, events))
    ensures Describes(ActAll(w, actions + [Handling(e)]), Handled(s, events + [e]))
  {
    hide Describes, Handled, ActAll, HandleWorld;
    ActSnoc(w, actions, Handling(e));
    HandlingDescribes(ActAll(w, actions), Handled(s, events), e);
    HandledSnoc(s, events, e);
  }

  lemma {:induction false} HandlingsDescribe(w: World, s: State, events: seq<LrpEvent>)
    requires Describes(w, s)
    ensures Describes(ActAll(w, Handlings(events)), Handled(s, events))
  {
    hide Describes, Handled, ActAll, Handlings;
    if events == [] {
      NoHandlings(w, s);
    } else {
      var n := |events| - 1;
      HandlingsDescribe(w, s, events[..n]);
      assert events == events[..n] + [events[n]];
      HandlingsOfSnoc(events[..n], events[n]);
      HandlingsSnoc(w, s, Handlings(events[..n]), events[..n], events[n]);
    }
  }

  lemma LabelDescribes(w: World, s: State, l: Label)
    requires Describes(w, s)
    ensures Describes(ActAll(w, ActionsAt(s, l)), Next(s, l))
  {
    hide HandleAll, Emissions, HandleWorld, Temporary, SwapEvents, Deliver, DeliverAll, ActAll;
    NoAction(w);
    if Enabled(s, l) {
      match l
      case Arrive(e) =>
        if s.phase.Idle? {
          ActSnoc(w, [], Handling(e));
          assert [] + [Handling(e)] == [Handling(e)];
          HandlingDescribes(w, s, e);
        }
      case End(newOrder, oldOrder) =>
        if Temporary(s.phase) == map[] {
          HandlingsDescribe(w, s, s.cache);
        } else {
          var swap := SwapTo(HandleAll(Temporary(s.phase), s.cache), newOrder, oldOrder);
          ActSnoc(w, [], swap);
          assert [] + [swap] == [swap];
          DeliverAllBatch({}, s.batches, SwapEvents(s.table, swap.next, newOrder, oldOrder));
        }
      case _ =>
    }
  }

  /** The actions of a run lead to its table, and to the remote set of its batches. */
  lemma {:induction false} RunIsActions(w: World, s: State, labels: seq<Label>)
    requires Describes(w, s)
    ensures Describes(ActAll(w, ActionsOf(s, labels)), Run(s, labels))
  {
    if labels == [] {
      NoAction(w);
    } else {
      var n := |labels| - 1;
      RunIsActions(w, s, labels[..n]);
      hide Describes, Next, ActAll, ActionsAt;
      ActConcat(w, ActionsOf(s, labels[..n]), ActionsAt(Run(s, labels[..n]), labels[n]));
      LabelDescribes(ActAll(w, ActionsOf(s, labels[..n])), Run(s, labels[..n]), labels[n]);
    }
  }

  /** With no sync in flight, the actions are the arrivals. */
  lemma {:induction false} IdleActions(s: State, events: seq<LrpEvent>)
    requires s.phase.Idle?
    ensures ActionsOf(s, Arrivals(events)) == Handlings(events)
  {
    hide Run, Arrivals, Handlings, ActionsOf, Handled;
    if events == [] {
      NoActions(s);
    } else {
      var prefix, last := events[..|events| - 1], events[|events| - 1];
      assert events == prefix + [last];
      IdleActions(s, prefix);
      ArrivalsSnoc(prefix, last);
      HandlingsOfSnoc(prefix, last);
      DirectHandling(s, prefix);
      HandledStaysIdle(s, prefix);
      ActionsSnoc(s, Arrivals(prefix), Arrive(last));
    }
  }

  lemma NoActions(s: State)
    ensures ActionsOf(s, Arrivals([])) == Handlings([])
  {
  }

  /** A sync begins and both fetches answer: nothing but the phase and the cache changes. */
  lemma SyncBegins(s: State, actuals: seq<ActualLrp>, desireds: seq<DesiredLrp>)
    requires s.phase.Idle?
    ensures var labels := [Begin, ActualsAnswer(Fetched(actuals)), DesiredsAnswer(Fetched(desireds))];
            && Run(s, labels) == s.(phase := Syncing(Fetched(actuals), Fetched(desireds)), cache := [])
            && ActionsOf(s, labels) == []
  {
    var l1, l2, l3 := Begin, ActualsAnswer(Fetched(actuals)), DesiredsAnswer(Fetched(desireds));
    NoLabels(s);
    hide Run, ActionsOf, HandleAll, Temporary;
    ActionsSnoc(s, [], l1);
    ActionsSnoc(s, [l1], l2);
    ActionsSnoc(s, [l1, l2], l3);
    assert [] + [l1] == [l1] && [l1] + [l2] == [l1, l2] && [l1, l2] + [l3] == [l1, l2, l3];
  }

  /** Events that arrive during a sync go to the cache, and that is all. */
  lemma {:induction false} ArrivalsAreCached(s: State, events: seq<LrpEvent>)
    requires s.phase.Syncing?
    ensures Run(s, Arrivals(events)) == s.(cache := s.cache + events) && ActionsOf(s, Arrivals(events)) == []
  {
    hide Run, ActionsOf, Arrivals, HandleAll;
    if events == [] {
      NothingArrives(s);
      assert s.cache + [] == s.cache;
    } else {
      var prefix, last := events[..|events| - 1], events[|events| - 1];
      assert events == prefix + [last];
      ArrivalsAreCached(s, prefix);
      ArrivalsSnoc(prefix, last);
      ActionsSnoc(s, Arrivals(prefix), Arrive(last));
      Associative(s.cache, prefix, [last]);
    }
  }

  lemma NothingArrives(s: State)
    ensures Run(s, Arrivals([])) == s && ActionsOf(s, Arrivals([])) == []
  {
  }

  // ---------------------------------------------------------------- the main results over runs

  const FIRST := State(map[], Idle, [], [])

  /** The world that a run of labels leads to, from nothing. */
  ghost function WorldOf(labels: seq<Label>): World {
    ActAll(NOTHING, ActionsOf(FIRST, labels))
  }

  lemma NoLabels(s: State)
    ensures Run(s, []) == s && ActionsOf(s, []) == []
  {
  }

  lemma {:induction false} RunConcat(s: State, a: seq<Label>, b: seq<Label>)
    ensures Run(s, a + b) == Run(Run(s, a), b)
    ensures ActionsOf(s, a + b) == ActionsOf(s, a) + ActionsOf(Run(s, a), b)
  {
    hide Run, ActionsOf, ActionsAt, Next;
    if b == [] {
      NoLabels(Run(s, a));
      assert a + b == a && ActionsOf(s, a) + [] == ActionsOf(s, a);
    } else {
      var prefix, last := b[..|b| - 1], b[|b| - 1];
      RunConcat(s, a, prefix);
      assert b == prefix + [last] && a + b == (a + prefix) + [last];
      ActionsSnoc(s, a + prefix, last);
      ActionsSnoc(Run(s, a), prefix, last);
      Associative(ActionsOf(s, a), ActionsOf(Run(s, a), prefix), ActionsAt(Run(s, a + prefix), last));
    }
  }

  lemma ActionsSnoc(s: State, labels: seq<Label>, last: Label)
    ensures Run(s, labels + [last]) == Next(Run(s, labels), last)
    ensures ActionsOf(s, labels + [last]) == ActionsOf(s, labels) + ActionsAt(Run(s, labels), last)
  {
    hide Next, ActionsAt;
    assert (labels + [last])[..|labels|] == labels;
  }

  /** A run that goes on continues from its world. */
  lemma WorldOfConcat(labels: seq<Label>, more: seq<Label>)
    ensures WorldOf(labels + more) == ActAll(WorldOf(labels), ActionsOf(Run(FIRST, labels), more))
  {
    hide Run, ActionsOf, ActAll;
    RunConcat(FIRST, labels, more);
    ActConcat(NOTHING, ActionsOf(FIRST, labels), ActionsOf(Run(FIRST, labels), more));
  }

  lemma NothingAgrees()
    ensures Agrees(NOTHING) && Describes(NOTHING, FIRST) && CoveredWhereNonZero(NOTHING)
  {
    assert Projection(map[], {}) == {};
  }

  /** For every sequence of labels, whatever fails and whatever zero ports there are: at every key whose entry has
      no zero port, every port that is not withheld is served by every backend of the entry. */
  lemma NothingGoesMissing(labels: seq<Label>)
    ensures Describes(WorldOf(labels), Run(FIRST, labels))
    ensures CoveredWhereNonZero(WorldOf(labels))
  {
    hide Describes, CoveredWhereNonZero, ActionsOf, ActAll, Run;
    NothingAgrees();
    RunIsActions(NOTHING, FIRST, labels);
    ActAllCovers(NOTHING, ActionsOf(FIRST, labels));
  }

  /** For every sequence of labels and every key: the remote set agrees there after every handled event and every
      swap of the run exactly when each of them keeps the key in step on the world it meets. */
  lemma RunAgreesIff(labels: seq<Label>, k: RoutingKey)
    ensures var actions := ActionsOf(FIRST, labels);
            (forall i :: 0 <= i <= |actions| ==> AgreesAt(ActAll(NOTHING, actions[..i]), k))
            <==> (forall i :: 0 <= i < |actions| ==> ActionKeepsInStep(ActAll(NOTHING, actions[..i]), actions[i], k))
  {
    NothingAgrees();
    AgreesEverywhere(NOTHING);
    hide ActionsOf, ActAll, AgreesAt, ActionKeepsInStep;
    ActionsAgreeIff(NOTHING, ActionsOf(FIRST, labels), k);
  }

  /** After every sequence of labels, and through everything that follows it: a port absent at a key stays absent
      exactly until the first handled event or swap that restores it. */
  lemma RunStaysRemovedIff(labels: seq<Label>, more: seq<Label>, k: RoutingKey, p: uint32)
    requires AbsentAt(WorldOf(labels), k, p)
    ensures var w, actions := WorldOf(labels), ActionsOf(Run(FIRST, labels), more);
            && WorldOf(labels + more) == ActAll(w, actions)
            && ((forall i :: 0 <= i <= |actions| ==> AbsentAt(ActAll(w, actions[..i]), k, p))
                <==> (forall i :: 0 <= i < |actions| ==> !ActionRestores(ActAll(w, actions[..i]), actions[i], k, p)))
  {
    hide WorldOf, ActionsOf, ActAll, Run, AbsentAt, ActionRestores;
    WorldOfConcat(labels, more);
    PortStaysRemovedOverActions(WorldOf(labels), ActionsOf(Run(FIRST, labels), more), k, p);
  }
}
