/**
 The handler as an object: it owns the table and the emitter, caches events while a sync is in
 flight, and during the silent replay stands in the temporary table with no emitter at all.
 Its methods are proved against the steps of the sync protocol.
 */
module Handlers {
  import opened Sequences
  import opened Lrps
  import opened Events
  import opened TableSpec
  import opened RoutingTables
  import opened Emitter
  import opened Convergence
  import opened Snapshot
  import opened SyncProtocol

  datatype Response<T> = Success(list: seq<T>) | Failure

  /** The answer as the protocol sees it. */
  function Answered<T>(response: Response<T>): Fetch<T> {
    match response
    case Success(list) => Fetched(list)
    case Failure => FetchFailed
  }

  method SelectRunning(actuals: seq<ActualLrp>) returns (running: seq<ActualLrp>)
    ensures running == RunningOnly(actuals)
  {
    running := [];
    for i := 0 to |actuals|
      invariant running == RunningOnly(actuals[..i])
    {
      assert actuals[..i + 1][..i] == actuals[..i];
      if actuals[i].state == Running {
        running := running + [actuals[i]];
      }
    }
    assert actuals[..|actuals|] == actuals;
  }

  method AddAllRoutes(table: RoutingTable, desireds: seq<DesiredLrp>)
    requires table.Valid()
    modifies table
    ensures table.Valid() && table.value == ApplyEdits(old(table.value), RouteEdits(desireds)).table
  {
    hide ApplyEdits, EventViews;
    NoEdits(table.value);
    for i := 0 to |desireds|
      invariant table.Valid() && table.value == ApplyEdits(old(table.value), RouteEdits(desireds[..i])).table
    {
      assert desireds[..i + 1][..i] == desireds[..i];
      var _ := table.AddRoutes(desireds[i]);
      ApplyEditsConcat(old(table.value), RouteEdits(desireds[..i]), TableSpec.AddRoutes(desireds[i]));
    }
    assert desireds[..|desireds|] == desireds;
  }

  method AddAllEndpoints(table: RoutingTable, actuals: seq<ActualLrp>)
    requires table.Valid()
    modifies table
    ensures table.Valid() && table.value == ApplyEdits(old(table.value), Deliveries(actuals)).table
  {
    hide ApplyEdits, EventViews;
    NoEdits(table.value);
    for i := 0 to |actuals|
      invariant table.Valid() && table.value == ApplyEdits(old(table.value), Deliveries(actuals[..i])).table
    {
      assert actuals[..i + 1][..i] == actuals[..i];
      var _ := table.AddEndpoint(actuals[i]);
      ApplyEditsConcat(old(table.value), Deliveries(actuals[..i]), TableSpec.AddEndpoint(actuals[i]));
    }
    assert actuals[..|actuals|] == actuals;
  }

  /** The temporary table of a sync, or nothing when a fetch failed. */
  method BuildTable(actuals: Response<ActualLrp>, desireds: Response<DesiredLrp>) returns (temporary: RoutingTable?)
    ensures temporary == null <==> actuals.Failure? || desireds.Failure?
    ensures temporary != null ==> fresh(temporary) && temporary.Valid()
    ensures (if temporary == null then map[] else temporary.value)
         == Temporary(Syncing(Answered(actuals), Answered(desireds)))
  {
    if actuals.Failure? || desireds.Failure? {
      return null;
    }
    hide ApplyEdits, RouteEdits, Deliveries;
    var running := SelectRunning(actuals.list);
    var table := new RoutingTable();
    AddAllRoutes(table, desireds.list);
    AddAllEndpoints(table, running);
    temporary := table;
  }

  class RoutingTableHandler {
    var routingTable: RoutingTable
    var emitter: TcpEmitter?
    var syncing: bool
    var cachedEvents: seq<LrpEvent>

    constructor (routingTable: RoutingTable, emitter: TcpEmitter)
      requires routingTable.Valid() && emitter.Valid()
      ensures Valid() && this.routingTable == routingTable && this.emitter == emitter && !syncing && cachedEvents == []
    {
      this.routingTable, this.emitter := routingTable, emitter;
      syncing, cachedEvents := false, [];
    }

    /** What handling an event may write: the current table, and the emitter when there is one. */
    ghost function Footprint(): set<object?>
      reads this
    {
      if emitter == null then {routingTable} else {routingTable, emitter, emitter.remote}
    }

    /** The table is sound, and so is the emitter's account of the remote set when there is an emitter. */
    ghost predicate Sound()
      reads this, routingTable, set k | k in routingTable.entries :: routingTable.entries[k].endpoints
      reads if emitter == null then {} else {emitter, emitter.remote}
    {
      routingTable.Valid() && (emitter != null ==> emitter.Valid())
    }

    method Emit(events: seq<HeapEvent>)
      requires emitter != null ==> emitter.Valid()
      modifies if emitter == null then {} else {emitter, emitter.remote}
      ensures emitter != null ==>
                && emitter.Valid() && old(emitter.reaches) <= emitter.reaches
                && emitter.batches == old(emitter.batches) + AsBatch(EventViews(events))
    {
      if emitter != null && |events| > 0 {
        var _, _, _ := emitter.Emit(events);
      }
    }

    method HandleDesiredCreate(desired: DesiredLrp)
      requires Sound()
      modifies Footprint()
      ensures Sound()
      ensures routingTable.value == ApplyEdits(old(routingTable.value), TableSpec.AddRoutes(desired)).table
      ensures emitter != null ==>
                && old(emitter.reaches) <= emitter.reaches
                && emitter.batches
                == old(emitter.batches)
                 + AsBatch(ApplyEdits(old(routingTable.value), TableSpec.AddRoutes(desired)).events)
    {
      hide ApplyEdits, EventViews;
      var events := routingTable.AddRoutes(desired);
      Emit(events);
    }

    method HandleDesiredUpdate(before: DesiredLrp, after: DesiredLrp)
      requires Sound()
      modifies Footprint()
      ensures Sound()
      ensures routingTable.value == ApplyEdits(old(routingTable.value), TableSpec.UpdateRoutes(before, after)).table
      ensures emitter != null ==>
                && old(emitter.reaches) <= emitter.reaches
                && emitter.batches
                == old(emitter.batches)
                 + AsBatch(ApplyEdits(old(routingTable.value), TableSpec.UpdateRoutes(before, after)).events)
    {
      hide ApplyEdits, EventViews;
      var events := routingTable.UpdateRoutes(before, after);
      Emit(events);
    }

    method HandleDesiredDelete(desired: DesiredLrp)
      requires Sound()
      modifies Footprint()
      ensures Sound()
      ensures routingTable.value == ApplyEdits(old(routingTable.value), TableSpec.RemoveRoutes(desired)).table
      ensures emitter != null ==>
                && old(emitter.reaches) <= emitter.reaches
                && emitter.batches
                == old(emitter.batches)
                 + AsBatch(ApplyEdits(old(routingTable.value), TableSpec.RemoveRoutes(desired)).events)
    {
      hide ApplyEdits, EventViews;
      var events := routingTable.RemoveRoutes(desired);
      Emit(events);
    }

    method AddAndEmit(actual: ActualLrp)
      requires Sound()
      modifies Footprint()
      ensures Sound()
      ensures routingTable.value == ApplyEdits(old(routingTable.value), TableSpec.AddEndpoint(actual)).table
      ensures emitter != null ==>
                && old(emitter.reaches) <= emitter.reaches
                && emitter.batches
                == old(emitter.batches)
                 + AsBatch(ApplyEdits(old(routingTable.value), TableSpec.AddEndpoint(actual)).events)
    {
      hide ApplyEdits, EventViews;
      var events := routingTable.AddEndpoint(actual);
      Emit(events);
    }

    method RemoveAndEmit(actual: ActualLrp)
      requires Sound()
      modifies Footprint()
      ensures Sound()
      ensures routingTable.value == ApplyEdits(old(routingTable.value), TableSpec.RemoveEndpoint(actual)).table
      ensures emitter != null ==>
                && old(emitter.reaches) <= emitter.reaches
                && emitter.batches
                == old(emitter.batches)
                 + AsBatch(ApplyEdits(old(routingTable.value), TableSpec.RemoveEndpoint(actual)).events)
    {
      hide ApplyEdits, EventViews;
      var events := routingTable.RemoveEndpoint(actual);
      Emit(events);
    }

    method HandleOne(event: LrpEvent)
      requires Sound()
      modifies Footprint()
      ensures Sound() && routingTable.value == Handle(old(routingTable.value), event).table
      ensures emitter != null ==>
                && old(emitter.reaches) <= emitter.reaches
                && emitter.batches == old(emitter.batches) + AsBatch(Handle(old(routingTable.value), event).events)
    {
      hide ApplyEdits;
      match event
      case DesiredCreated(desired) => HandleDesiredCreate(desired);
      case DesiredChanged(before, after) => HandleDesiredUpdate(before, after);
      case DesiredRemoved(desired) => HandleDesiredDelete(desired);
      case ActualCreated(actual) =>
        NoEdits(routingTable.value);
        if actual.state == Running {
          AddAndEmit(actual);
        }
      case ActualChanged(before, after) =>
        NoEdits(routingTable.value);
        if after.state == Running {
          AddAndEmit(after);
        } else if before.state == Running {
          RemoveAndEmit(before);
        }
      case ActualRemoved(actual) =>
        NoEdits(routingTable.value);
        if actual.state == Running {
          RemoveAndEmit(actual);
        }
      case Unrecognized =>
        NoEdits(routingTable.value);
    }

    /** The loop over cached events, on whatever table and emitter are in place. */
    method HandleCached()
      requires Sound()
      modifies Footprint()
      ensures Sound() && routingTable.value == HandleAll(old(routingTable.value), cachedEvents)
      ensures emitter != null ==>
                && old(emitter.reaches) <= emitter.reaches
                && emitter.batches == old(emitter.batches) + Emissions(old(routingTable.value), cachedEvents)
    {
      hide Handle, HandleAll, Emissions;
      EmptyHandling(routingTable.value);
      for i := 0 to |cachedEvents|
        invariant Sound() && routingTable.value == HandleAll(old(routingTable.value), cachedEvents[..i])
        invariant emitter != null ==>
                    && old(emitter.reaches) <= emitter.reaches
                    && emitter.batches == old(emitter.batches) + Emissions(old(routingTable.value), cachedEvents[..i])
      {
        assert cachedEvents[..i + 1] == cachedEvents[..i] + [cachedEvents[i]];
        HandleAllSnoc(old(routingTable.value), cachedEvents[..i], cachedEvents[i]);
        if emitter != null {
          Associative(old(emitter.batches), Emissions(old(routingTable.value), cachedEvents[..i]),
                      AsBatch(Handle(routingTable.value, cachedEvents[i]).events));
        }
        HandleOne(cachedEvents[i]);
      }
      assert cachedEvents[..|cachedEvents|] == cachedEvents;
    }

    ghost predicate Valid()
      reads this, routingTable, set k | k in routingTable.entries :: routingTable.entries[k].endpoints
      reads if emitter == null then {} else {emitter, emitter.remote}
    {
      Sound() && emitter != null && (!syncing ==> cachedEvents == [])
    }

    /** The protocol state, given the answers that the sync in flight has so far. */
    ghost function StateWith(phase: Phase): State
      requires emitter != null
      reads this, routingTable, emitter
    {
      State(routingTable.value, phase, cachedEvents, emitter.batches)
    }

    method HandleEvent(event: LrpEvent, ghost phase: Phase)
      requires Valid() && (syncing <==> phase.Syncing?)
      modifies this`cachedEvents, Footprint()
      ensures Valid() && emitter == old(emitter) && old(emitter.reaches) <= emitter.reaches
      ensures StateWith(phase) == Next(old(StateWith(phase)), Arrive(event))
    {
      hide Handle;
      if syncing {
        cachedEvents := cachedEvents + [event];
      } else {
        EmptyHandling(routingTable.value);
        assert [] + [event] == [event];
        HandleAllSnoc(routingTable.value, [], event);
        hide HandleAll, Emissions;
        ghost var batch := AsBatch(Handle(routingTable.value, event).events);
        assert [] + batch == batch;
        HandleOne(event);
      }
    }

    /** A sync that begins while one is in flight discards what is cached. */
    method BeginSync()
      requires Valid()
      modifies this`cachedEvents, this`syncing
      ensures Valid() && syncing && cachedEvents == []
      ensures StateWith(Syncing(Pending, Pending))
           == old(StateWith(Idle)).(phase := Syncing(Pending, Pending), cache := [])
      ensures StateWith(Syncing(Pending, Pending)) == Next(old(StateWith(Idle)), Begin)
    {
      cachedEvents := [];
      syncing := true;
    }

    /** The deferred part of a sync. The table object and the emitter are the same afterwards. */
    method EndSync(actuals: Response<ActualLrp>, desireds: Response<DesiredLrp>)
      requires Valid()
      modifies this, Footprint()
      ensures Valid() && !syncing && routingTable == old(routingTable) && emitter == old(emitter)
      ensures old(emitter.reaches) <= emitter.reaches
      ensures exists newOrder, oldOrder ::
                var before := old(StateWith(Syncing(Answered(actuals), Answered(desireds))));
                Enabled(before, End(newOrder, oldOrder)) && StateWith(Idle) == Next(before, End(newOrder, oldOrder))
    {
      hide HandleAll, Emissions, Temporary, Next, Enabled, ReachAll, IsSwap, AsBatch;
      ghost var before := StateWith(Syncing(Answered(actuals), Answered(desireds)));
      var temporary := BuildTable(actuals, desireds);
      ghost var built := Temporary(before.phase);
      ApplyCachedEvents(temporary, built);
      syncing := false;
      cachedEvents := [];
      SyncEnded(before, StateWith(Idle));
    }

    static lemma SyncEnded(before: State, after: State)
      requires before.phase.Syncing? && !before.phase.actuals.Pending? && !before.phase.desireds.Pending?
      requires after.phase.Idle? && after.cache == []
      requires var built := Temporary(before.phase);
               if built == map[]
               then after.table == HandleAll(before.table, before.cache)
                    && after.batches == before.batches + Emissions(before.table, before.cache)
               else after.table == HandleAll(built, before.cache)
                    && exists events :: IsSwap(before.table, after.table, events)
                                        && after.batches == before.batches + AsBatch(events)
      ensures exists newOrder, oldOrder ::
                Enabled(before, End(newOrder, oldOrder)) && after == Next(before, End(newOrder, oldOrder))
    {
      hide HandleAll, Emissions, RegisterAll, UnregisterMissing, Temporary;
      var built := Temporary(before.phase);
      if built == map[] {
        assert Enabled(before, End([], [])) && after == Next(before, End([], []));
      } else {
        var events :| IsSwap(before.table, after.table, events) && after.batches == before.batches + AsBatch(events);
        var newOrder, oldOrder :|
          && Enumerates(newOrder, after.table) && Enumerates(oldOrder, before.table)
          && events == SwapEvents(before.table, after.table, newOrder, oldOrder);
        assert Enabled(before, End(newOrder, oldOrder)) && after == Next(before, End(newOrder, oldOrder));
      }
    }

    method ApplyCachedEvents(temporary: RoutingTable?, ghost built: Table)
      requires Sound() && emitter != null
      requires temporary == null ==> built == map[]
      requires temporary != null ==> temporary.Valid() && temporary != routingTable && temporary.value == built
      modifies this`routingTable, this`emitter, Footprint(), temporary
      ensures routingTable == old(routingTable) && emitter == old(emitter) && Sound()
      ensures old(emitter.reaches) <= emitter.reaches
      ensures built == map[] ==>
                && routingTable.value == HandleAll(old(routingTable.value), cachedEvents)
                && emitter.batches == old(emitter.batches) + Emissions(old(routingTable.value), cachedEvents)
      ensures built != map[] ==>
                && routingTable.value == HandleAll(built, cachedEvents)
                && exists events ::
                     && IsSwap(old(routingTable.value), HandleAll(built, cachedEvents), events)
                     && emitter.batches == old(emitter.batches) + AsBatch(events)
    {
      hide HandleAll, Emissions, EventViews, IsSwap;
      if temporary == null {
        HandleCached();
        return;
      }
      var count := temporary.RouteCount();
      if count == 0 {
        HandleCached();
        return;
      }
      ReplayAndSwap(temporary);
    }

    /** Replays the cached events on the new table; with no emitter in place, nothing is emitted. */
    method ReplaySilently(temporary: RoutingTable)
      requires Sound() && emitter != null && temporary.Valid() && temporary != routingTable
      modifies this`routingTable, this`emitter, temporary
      ensures routingTable == old(routingTable) && emitter == old(emitter)
      ensures Sound() && temporary.Valid()
      ensures temporary.value == HandleAll(old(temporary.value), cachedEvents)
    {
      hide HandleAll, Emissions, ReachAll, AsBatch;
      var table, sender := routingTable, emitter;
      routingTable, emitter := temporary, null;
      HandleCached();
      routingTable, emitter := table, sender;
    }

    /** The new table with the events replayed on it takes over, and the swap is emitted at once. */
    method ReplayAndSwap(temporary: RoutingTable)
      requires Sound() && emitter != null && temporary.Valid() && temporary != routingTable
      modifies this`routingTable, this`emitter, Footprint(), temporary
      ensures routingTable == old(routingTable) && emitter == old(emitter) && Sound()
      ensures old(emitter.reaches) <= emitter.reaches
      ensures routingTable.value == HandleAll(old(temporary.value), cachedEvents)
      ensures exists events ::
                && IsSwap(old(routingTable.value), routingTable.value, events)
                && emitter.batches == old(emitter.batches) + AsBatch(events)
    {
      hide HandleAll, IsSwap;
      ReplaySilently(temporary);
      SwapIn(temporary);
    }

    method SwapIn(temporary: RoutingTable)
      requires Sound() && emitter != null && temporary.Valid() && temporary != routingTable
      modifies Footprint()
      ensures Sound() && routingTable.value == old(temporary.value) && old(emitter.reaches) <= emitter.reaches
      ensures exists events ::
                && IsSwap(old(routingTable.value), routingTable.value, events)
                && emitter.batches == old(emitter.batches) + AsBatch(events)
    {
      hide EventViews, IsSwap, ReachAll, AsBatch;
      var events := routingTable.Swap(temporary);
      ghost var views := EventViews(events);
      Emit(events);
      assert emitter.batches == old(emitter.batches) + AsBatch(views);
    }
  }
}
