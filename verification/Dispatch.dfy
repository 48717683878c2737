/**
 The watcher and the handler together: which protocol runs the watcher's calls make, and the
 loop that makes them. While one sync lasts the loop hands over nothing, so nothing is cached.
 */
module Dispatch {
  import opened Sequences
  import opened Endpoints
  import opened Lrps
  import opened Events
  import opened TableSpec
  import opened RoutingTables
  import opened Snapshot
  import opened SyncProtocol
  import opened Runs
  import opened Emitter
  import opened RawMappings
  import opened Handlers
  import opened RemoteRuns
  import W = Watcher

  /** The calls on the handler that the labels of a protocol run stand for; answers are no calls. */
  function CallsOf(labels: seq<Label>): seq<W.Call> {
    if labels == [] then []
    else CallsOf(labels[..|labels| - 1]) + CallAt(labels[|labels| - 1])
  }

  function CallAt(l: Label): seq<W.Call> {
    match l
    case Arrive(e) => [W.HandleEvent(e)]
    case Begin => [W.SyncBegin]
    case End(_, _) => [W.SyncEnd]
    case _ => []
  }

  /** Every label is enabled where it occurs: in particular a sync ends only after both answers. */
  ghost predicate AllEnabled(s: State, labels: seq<Label>) {
    labels != [] ==>
      && AllEnabled(s, labels[..|labels| - 1])
      && Enabled(Run(s, labels[..|labels| - 1]), labels[|labels| - 1])
  }

  /** A protocol run whose calls are those of a watcher that syncs in turn: the phase is the watcher's, the cache
      stays empty, and what arrives is what the watcher handed over. */
  ghost predicate Follows(s: State, labels: seq<Label>, syncing: bool) {
    && Run(s, labels).cache == [] && (Run(s, labels).phase.Syncing? <==> syncing)
    && Arrived(labels) == W.Handled(CallsOf(labels))
  }

  lemma CallsOfSnoc(labels: seq<Label>, l: Label)
    ensures CallsOf(labels + [l]) == CallsOf(labels) + CallAt(l)
    ensures W.Handled(CallsOf(labels + [l])) == W.Handled(CallsOf(labels)) + if l.Arrive? then [l.event] else []
  {
    assert (labels + [l])[..|labels|] == labels;
    hide CallsOf, W.Handled;
    if |CallAt(l)| == 1 {
      W.CallsSnoc(CallsOf(labels), CallAt(l)[0]);
    } else {
      assert CallsOf(labels) + [] == CallsOf(labels);
    }
    assert W.Handled(CallsOf(labels)) + [] == W.Handled(CallsOf(labels));
  }

  /** How a label moves the phase, when syncs alternate. */
  predicate Moves(l: Label, syncing: bool, after: bool) {
    match l
    case Arrive(_) => !syncing && !after
    case Begin => !syncing && after
    case End(_, _) => syncing && !after
    case _ => syncing == after
  }

  lemma NothingCached(now: State, l: Label, syncing: bool, after: bool)
    requires now.cache == [] && (now.phase.Syncing? <==> syncing) && Enabled(now, l) && Moves(l, syncing, after)
    ensures Next(now, l).cache == [] && (Next(now, l).phase.Syncing? <==> after)
  {
    hide HandleAll, Emissions, Temporary, SwapEvents, Enumerates;
  }

  lemma FollowsSnoc(s: State, labels: seq<Label>, l: Label, syncing: bool, after: bool)
    requires Follows(s, labels, syncing) && Enabled(Run(s, labels), l) && Moves(l, syncing, after)
    ensures Follows(s, labels + [l], after)
  {
    hide Run, Arrived, CallsOf, CallAt, W.Handled, Next, Enabled, Moves;
    RunSnoc(s, labels, l);
    CallsOfSnoc(labels, l);
    NothingCached(Run(s, labels), l, syncing, after);
  }

  /** The phase before a label, when syncs alternate. */
  predicate Before(l: Label, syncing: bool) {
    if l.Arrive? || l.Begin? then false else if l.End? then true else syncing
  }

  lemma AlternatesBefore(labels: seq<Label>, l: Label, syncing: bool)
    requires W.Alternates(CallsOf(labels + [l]), syncing)
    ensures W.Alternates(CallsOf(labels), Before(l, syncing)) && Moves(l, Before(l, syncing), syncing)
  {
    CallsOfSnoc(labels, l);
    hide CallsOf, W.Alternates, W.Handled;
    if |CallAt(l)| == 1 {
      W.CallsSnoc(CallsOf(labels), CallAt(l)[0]);
    } else {
      assert CallsOf(labels) + [] == CallsOf(labels);
    }
  }

  lemma {:induction false} AlternatingRun(s: State, labels: seq<Label>, syncing: bool)
    requires s.phase.Idle? && s.cache == []
    requires AllEnabled(s, labels) && W.Alternates(CallsOf(labels), syncing)
    ensures Follows(s, labels, syncing)
  {
    if labels != [] {
      var prefix, l := labels[..|labels| - 1], labels[|labels| - 1];
      hide Run, Follows, Enabled, CallsOf, W.Alternates, Before, Moves;
      assert labels == prefix + [l];
      AlternatesBefore(prefix, l, syncing);
      AlternatingRun(s, prefix, Before(l, syncing));
      FollowsSnoc(s, prefix, l, Before(l, syncing), syncing);
    }
  }

  /** In every interleaving of the watcher, whatever protocol run its calls make: nothing is ever cached, the handler
      is in a sync exactly when the main loop is, and the events fetched so far, but for the one in flight, have
      reached the table once and in order since the latest snapshot that was taken over. */
  lemma WatchedHandlerNeverCaches(watched: seq<W.Label>, labels: seq<Label>)
    requires CallsOf(labels) == W.Run(watched).calls && AllEnabled(FIRST, labels)
    ensures var watcher, handler, origin := W.Run(watched), Run(FIRST, labels), OriginOf(FIRST, labels);
            && handler.cache == [] && (handler.phase.Syncing? <==> watcher.main.InSync?)
            && watcher.fetched == Arrived(labels) + W.InFlight(watcher)
            && origin.since <= |Arrived(labels)|
            && handler.table == HandleAll(origin.base, Arrived(labels)[origin.since..])
  {
    hide Run, W.Run, Arrived, HandleAll, OriginOf, Mark, W.Alternates, W.Handled, CallsOf, AllEnabled;
    hide W.SourcesTracked, W.SingleSubscriber, W.InFlight;
    W.WatcherIsSafe(watched);
    AlternatingRun(FIRST, labels, W.Run(watched).main.InSync?);
    EventsAreConserved(FIRST, labels);
    var origin, arrived, mark := OriginOf(FIRST, labels), Arrived(labels), Mark(FIRST, labels);
    if Run(FIRST, labels).phase.Syncing? {
      assert arrived[mark..] == [];
      assert arrived[origin.since..mark] == arrived[origin.since..];
    }
  }

  // ---------------------------------------------------------------- the loop

  /** What one turn of the main loop reacts to: an event, or a sync request with the answers its fetches get. */
  datatype Turn = EventCame(event: LrpEvent) | SyncDue(actuals: Response<ActualLrp>, desireds: Response<DesiredLrp>)

  function CallsFor(turns: seq<Turn>): seq<W.Call> {
    if turns == [] then []
    else CallsFor(turns[..|turns| - 1]) + TurnCalls(turns[|turns| - 1])
  }

  function TurnCalls(turn: Turn): seq<W.Call> {
    match turn
    case EventCame(e) => [W.HandleEvent(e)]
    case SyncDue(_, _) => [W.SyncBegin, W.SyncEnd]
  }

  /** The orders in which the maps of a swap are iterated. */
  datatype Orders = Orders(newOrder: seq<RoutingKey>, oldOrder: seq<RoutingKey>)

  /** The labels of one turn: the arrival of its event, or a whole sync with its answers. */
  function TurnLabels(turn: Turn, orders: Orders): seq<Label> {
    match turn
    case EventCame(e) => [Arrive(e)]
    case SyncDue(actuals, desireds) =>
      [Begin, ActualsAnswer(Answered(actuals)), DesiredsAnswer(Answered(desireds)),
       End(orders.newOrder, orders.oldOrder)]
  }

  function LabelsFor(turns: seq<Turn>, orders: seq<Orders>): seq<Label>
    requires |orders| == |turns|
  {
    if turns == [] then []
    else
      var n := |turns| - 1;
      LabelsFor(turns[..n], orders[..n]) + TurnLabels(turns[n], orders[n])
  }

  /** A sync turn with these answers finds nothing: a fetch failed, or no desired LRP has a route and no running
      actual LRP has a port. */
  predicate Empty(turn: Turn)
    requires turn.SyncDue?
  {
    || turn.actuals.Failure? || turn.desireds.Failure?
    || (&& (forall d :: d in turn.desireds.list ==> d.routes == [])
        && (forall a :: a in turn.actuals.list && a.state.Running? ==> a.ports == []))
  }

  /** What one turn does: its event is handled and emitted at once; or its answers are built into a table that takes
      over with one swap, unless they hold nothing. */
  ghost predicate Turned(before: State, after: State, turn: Turn) {
    && after.phase.Idle? && after.cache == []
    && match turn
       case EventCame(e) =>
         && after.table == Handle(before.table, e).table
         && after.batches == before.batches + AsBatch(Handle(before.table, e).events)
       case SyncDue(actuals, desireds) =>
         if Empty(turn) then after.table == before.table && after.batches == before.batches
         else
           && after.table == Build(desireds.list, RunningOnly(actuals.list))
           && exists events :: IsSwap(before.table, after.table, events)
                               && after.batches == before.batches + AsBatch(events)
  }

  /** The table, the emitter and the handler as the program starts them, on an API that holds nothing. */
  method Start(ttl: int) returns (handler: RoutingTableHandler)
    ensures fresh(handler) && fresh(handler.routingTable) && handler.Valid() && !handler.syncing
    ensures handler.StateWith(Idle) == FIRST
    ensures fresh(handler.emitter) && fresh(handler.emitter.remote)
    ensures handler.emitter.ttl == ttl && handler.emitter.baseline == {} && handler.emitter.reaches == []
  {
    var table := new RoutingTable();
    var remote := new Remote();
    var emitter := new TcpEmitter(remote, ttl);
    handler := new RoutingTableHandler(table, emitter);
  }

  lemma EnabledSnoc(s: State, labels: seq<Label>, l: Label)
    requires AllEnabled(s, labels) && Enabled(Run(s, labels), l)
    ensures AllEnabled(s, labels + [l]) && Run(s, labels + [l]) == Next(Run(s, labels), l)
    ensures CallsOf(labels + [l]) == CallsOf(labels) + CallAt(l)
  {
    hide Enabled, Next;
    assert (labels + [l])[..|labels|] == labels;
  }

  lemma AnswersEnabled(s: State, labels: seq<Label>, turn: Turn)
    requires AllEnabled(s, labels) && turn.SyncDue? && Run(s, labels).phase.Idle? && Run(s, labels).cache == []
    ensures var actuals, desireds := Answered(turn.actuals), Answered(turn.desireds);
            var all := labels + [Begin] + [ActualsAnswer(actuals)] + [DesiredsAnswer(desireds)];
            && AllEnabled(s, all) && CallsOf(all) == CallsOf(labels) + [W.SyncBegin]
            && Run(s, all) == Run(s, labels).(phase := Syncing(actuals, desireds))
  {
    var l1, l2, l3 := Begin, ActualsAnswer(Answered(turn.actuals)), DesiredsAnswer(Answered(turn.desireds));
    hide Run, AllEnabled, CallsOf, HandleAll, Temporary, EndSync;
    EnabledSnoc(s, labels, l1);
    EnabledSnoc(s, labels + [l1], l2);
    EnabledSnoc(s, labels + [l1] + [l2], l3);
    assert CallsOf(labels) + [W.SyncBegin] + [] + [] == CallsOf(labels) + [W.SyncBegin];
  }

  lemma WholeSync(s: State, labels: seq<Label>, turn: Turn, orders: Orders)
    requires AllEnabled(s, labels) && turn.SyncDue? && Run(s, labels).phase.Idle? && Run(s, labels).cache == []
    requires var syncing := Syncing(Answered(turn.actuals), Answered(turn.desireds));
             Enabled(Run(s, labels).(phase := syncing), End(orders.newOrder, orders.oldOrder))
    ensures var added := TurnLabels(turn, orders);
            var syncing := Syncing(Answered(turn.actuals), Answered(turn.desireds));
            && AllEnabled(s, labels + added) && CallsOf(labels + added) == CallsOf(labels) + TurnCalls(turn)
            && Run(s, labels + added)
            == Next(Run(s, labels).(phase := syncing), End(orders.newOrder, orders.oldOrder))
  {
    hide Run, AllEnabled, CallsOf, Enabled, Next, Answered;
    var l1, l2, l3 := Begin, ActualsAnswer(Answered(turn.actuals)), DesiredsAnswer(Answered(turn.desireds));
    var end := End(orders.newOrder, orders.oldOrder);
    AnswersEnabled(s, labels, turn);
    EnabledSnoc(s, labels + [l1] + [l2] + [l3], end);
    assert labels + TurnLabels(turn, orders) == labels + [l1] + [l2] + [l3] + [end];
    Associative(CallsOf(labels), [W.SyncBegin], [W.SyncEnd]);
  }

  lemma HandledOne(s: State, e: LrpEvent)
    ensures var outcome := Handle(s.table, e);
            Handled(s, [e]) == s.(table := outcome.table, batches := s.batches + AsBatch(outcome.events))
  {
    hide HandleAll, Emissions, Handle, AsBatch;
    EmptyHandling(s.table);
    assert [] + [e] == [e];
    HandleAllSnoc(s.table, [], e);
    var batch := AsBatch(Handle(s.table, e).events);
    assert [] + batch == batch;
  }

  lemma EventTurned(before: State, e: LrpEvent)
    requires before.phase.Idle? && before.cache == []
    ensures Turned(before, Next(before, Arrive(e)), EventCame(e))
  {
    hide Next, Handled, Handle, AsBatch;
    ArrivesIdle(before, e);
    HandledOne(before, e);
  }

  lemma SyncTurned(before: State, turn: Turn, orders: Orders)
    requires turn.SyncDue? && before.phase.Idle? && before.cache == []
    requires var syncing := before.(phase := Syncing(Answered(turn.actuals), Answered(turn.desireds)));
             Enabled(syncing, End(orders.newOrder, orders.oldOrder))
    ensures var syncing := before.(phase := Syncing(Answered(turn.actuals), Answered(turn.desireds)));
            Turned(before, Next(syncing, End(orders.newOrder, orders.oldOrder)), turn)
  {
    hide HandleAll, Emissions, Build, IsSwap, Enabled, Next, RunningOnly, AsBatch;
    var syncing := before.(phase := Syncing(Answered(turn.actuals), Answered(turn.desireds)));
    var end := End(orders.newOrder, orders.oldOrder);
    FindsNothingIff(syncing.phase);
    if Empty(turn) {
      NothingTurned(syncing, end);
      assert before.batches + [] == before.batches;
    } else {
      var built := Build(turn.desireds.list, RunningOnly(turn.actuals.list));
      EmptyHandling(built);
      TakeOver(syncing, end);
    }
  }

  lemma NothingTurned(syncing: State, end: Label)
    requires end.End? && Enabled(syncing, end) && Temporary(syncing.phase) == map[] && syncing.cache == []
    ensures Next(syncing, end) == syncing.(phase := Idle, batches := syncing.batches + [])
  {
    EmptyHandling(syncing.table);
    hide HandleAll, Emissions, Temporary;
  }

  lemma NoTurns(s: State)
    ensures LabelsFor([], []) == [] && CallsFor([]) == CallsOf([]) == [] && AllEnabled(s, []) && Run(s, []) == s
  {
  }

  lemma TurnsSnoc(turns: seq<Turn>, orders: seq<Orders>, turn: Turn, order: Orders)
    requires |orders| == |turns|
    ensures LabelsFor(turns + [turn], orders + [order]) == LabelsFor(turns, orders) + TurnLabels(turn, order)
    ensures CallsFor(turns + [turn]) == CallsFor(turns) + TurnCalls(turn)
  {
    hide TurnLabels, TurnCalls;
    assert (turns + [turn])[..|turns|] == turns && (orders + [order])[..|orders|] == orders;
  }

  /** The main loop, turn after turn: the handler ends in the state of the protocol run that these turns make, with
      nothing cached, and the calls on it are those of the watcher. */
  method Serve(handler: RoutingTableHandler, turns: seq<Turn>)
    returns (ghost labels: seq<Label>, ghost orders: seq<Orders>)
    requires handler.Valid() && !handler.syncing
    modifies handler, handler.Footprint()
    ensures handler.Valid() && !handler.syncing && handler.cachedEvents == []
    ensures handler.routingTable == old(handler.routingTable) && handler.emitter == old(handler.emitter)
    ensures old(handler.emitter.reaches) <= handler.emitter.reaches
    ensures |orders| == |turns| && labels == LabelsFor(turns, orders)
    ensures AllEnabled(old(handler.StateWith(Idle)), labels) && CallsOf(labels) == CallsFor(turns)
    ensures handler.StateWith(Idle) == Run(old(handler.StateWith(Idle)), labels)
  {
    hide Run, AllEnabled, CallsOf, CallsFor, LabelsFor, ReachAll, TurnLabels, TurnCalls, Turned;
    labels, orders := [], [];
    ghost var start := handler.StateWith(Idle);
    NoTurns(start);
    assert turns[..0] == [];
    for i := 0 to |turns|
      invariant handler.Valid() && !handler.syncing
      invariant handler.routingTable == old(handler.routingTable) && handler.emitter == old(handler.emitter)
      invariant old(handler.emitter.reaches) <= handler.emitter.reaches
      invariant |orders| == i && labels == LabelsFor(turns[..i], orders)
      invariant AllEnabled(start, labels) && CallsOf(labels) == CallsFor(turns[..i])
      invariant handler.StateWith(Idle) == Run(start, labels)
    {
      ghost var order;
      labels, order := TakeTurn(handler, turns[i], start, labels);
      TurnsSnoc(turns[..i], orders, turns[i], order);
      assert turns[..i + 1] == turns[..i] + [turns[i]];
      orders := orders + [order];
    }
    assert turns[..|turns|] == turns;
  }

  /** One turn of the loop. */
  method TakeTurn(handler: RoutingTableHandler, turn: Turn, ghost start: State, ghost labels: seq<Label>)
    returns (ghost longer: seq<Label>, ghost orders: Orders)
    requires handler.Valid() && !handler.syncing
    requires AllEnabled(start, labels) && handler.StateWith(Idle) == Run(start, labels)
    modifies handler, handler.Footprint()
    ensures handler.Valid() && !handler.syncing
    ensures handler.routingTable == old(handler.routingTable) && handler.emitter == old(handler.emitter)
    ensures old(handler.emitter.reaches) <= handler.emitter.reaches
    ensures Turned(old(handler.StateWith(Idle)), handler.StateWith(Idle), turn)
    ensures longer == labels + TurnLabels(turn, orders)
    ensures AllEnabled(start, longer) && CallsOf(longer) == CallsOf(labels) + TurnCalls(turn)
    ensures handler.StateWith(Idle) == Run(start, longer)
  {
    hide ReachAll, Run, AllEnabled, CallsOf, SyncProtocol.EndSync, HandleAll, Emissions, Temporary, Handled, Turned;
    ghost var before := handler.StateWith(Idle);
    orders := Orders([], []);
    match turn
    case EventCame(event) =>
      EnabledSnoc(start, labels, Arrive(event));
      EventTurned(before, event);
      handler.HandleEvent(event, Idle);
      longer := labels + TurnLabels(turn, orders);
    case SyncDue(actuals, desireds) =>
      handler.BeginSync();
      handler.EndSync(actuals, desireds);
      ghost var syncing := before.(phase := Syncing(Answered(actuals), Answered(desireds)));
      ghost var newOrder, oldOrder :| Enabled(syncing, End(newOrder, oldOrder))
                                      && handler.StateWith(Idle) == Next(syncing, End(newOrder, oldOrder));
      orders := Orders(newOrder, oldOrder);
      WholeSync(start, labels, turn, orders);
      SyncTurned(before, turn, orders);
      longer := labels + TurnLabels(turn, orders);
  }

  /** From an empty API, for every sequence of turns and whatever fails: the handler ends in the state of a protocol
      run made of the loop's calls, and, with unique addresses, the API holds exactly what the emissions made. */
  method StartAndServe(ttl: int, turns: seq<Turn>)
    returns (handler: RoutingTableHandler, ghost labels: seq<Label>, ghost orders: seq<Orders>)
    ensures |orders| == |turns| && labels == LabelsFor(turns, orders)
    ensures fresh(handler) && handler.Valid() && handler.StateWith(Idle) == Run(FIRST, labels)
    ensures AllEnabled(FIRST, labels) && CallsOf(labels) == CallsFor(turns)
    ensures var emitter := handler.emitter;
            UniqueThroughout({}, emitter.batches, emitter.reaches) ==>
              && emitter.remote.mappings == RawSet(KeyedReach({}, emitter.batches, emitter.reaches), ttl)
              && (AllComplete(emitter.reaches) ==> emitter.remote.mappings == RawSet(WorldOf(labels).downstream, ttl))
  {
    hide Run, AllEnabled, CallsOf, LabelsFor, RawSet, KeyedReach, ReachAll, AllComplete, UniqueThroughout, WorldOf;
    handler := Start(ttl);
    EmptyRawSet(ttl);
    labels, orders := Serve(handler, turns);
    if UniqueThroughout({}, handler.emitter.batches, handler.emitter.reaches) {
      RemoteFollowsHandler(handler, {});
      if AllComplete(handler.emitter.reaches) {
        RemoteFollowsRun(handler, Idle, labels);
      }
    }
  }

  /** Snapshot isolation: whatever turns follow, syncs and swaps among them, what was announced earlier reads the
      same afterwards. */
  method AnnouncedEventsStay(handler: RoutingTableHandler, turns: seq<Turn>, announced: seq<HeapEvent>)
    requires handler.Valid() && !handler.syncing
    modifies handler, handler.Footprint()
    ensures handler.Valid() && EventViews(announced) == old(EventViews(announced))
  {
    hide EventViews, ReachAll, Run, CallsOf, AllEnabled;
    var _, _ := Serve(handler, turns);
  }
}
