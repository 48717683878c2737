# Verified model of the TCP route emitter

The emitter keeps a routing table: per process and container port, an entry with external ports,
backend endpoints and a modification tag. Events from the BBS change the table; every change yields
registration and unregistration events; each event list is sent to the routing API as upserts and
deletes on a remote set of mappings. A periodic sync fetches everything, builds a fresh table, and
swaps it in. This project models that chain in Dafny and proves how far the remote set follows the table.

## How the model is organised

- `Endpoints`, `Lrps`, `Events`: keys, tags, entries, decoded LRPs, routing events and mapping requests.
  An entry holds a reference to an `EndpointMap` object, as the program's entries hold a map; `View`
  gives its value.
- `TableSpec`: the meaning of each table operation on values. An operation is a list of edits
  (`Merge`, `Drop`, `Put`, `Take`), one per pass of the program's loop, and `ApplyEdits` folds them.
- `RoutingTables`: the table as a mutable object. Each method is proved against `TableSpec` by a ghost
  `value` tied to the entries. No method may write an existing `EndpointMap`: that is snapshot isolation.
- `Downstream`, `Agreement`, `Operations`, `OperationAgreement`, `SwapDelta`: the remote set as keyed
  mappings, and what edits, operations, event runs and swaps do to it.
- `Outcomes`: what every operation and every BBS event does to a key, in terms of what was stored and
  served there, without the edits.
- `Convergence`, `Snapshot`: orders that do not matter, and what a sync must build.
- `Emitter`, `RawMappings`: the retry loop with calls that may fail, and the step from keyed mappings
  to the raw ones the API stores.
- `SyncProtocol`, `Runs`, `Handlers`: the handler as atomic steps and as an object proved against them,
  and coverage and exact agreement over all its runs.
- `RemoteRuns`: what the API stores over whole runs, when any call may fail.
- `Watcher`, `Dispatch`: the watcher's interleavings, the main loop that drives the handler, and what
  the two make of each other.
- `ConcreteRuns`, `Witnesses`: runs of events from nothing for each way in which agreement or service
  is lost.

## What is assumed

- Modification tags are library code. An absent tag or an empty epoch on either side is succeeded by
  anything, different epochs succeed each other, and within one epoch the larger index succeeds;
  equality of tags is equality of all their fields.
- A map iteration may follow any order. Where the order can show, statements quantify over it.
- Each remote call takes full effect or none. Each table call and each handler step is atomic.
- What the API stores has no routing keys. Results about its raw set ask that live backend addresses are
  unique and ports fit in 16 bits; results about the keyed set ask for neither.

## What the proofs found

- An accepted update that only removes ports emits the unregistration but leaves the entry and its tag
  as they were. The removed ports are *withheld*: listed but not served. Asking for them again does
  nothing (`Agreement.UpdateTakesEffectIff`), the next endpoint to arrive brings them back although nobody
  asks for them (`Agreement.PortStaysRemovedIff`), and a stale update is still let in and can replace
  the entry (`Operations.RouteGuardAdvancesIff`, `Witnesses.StaleUpdateOverrides`).
- A sync undoes such a removal when it arrives while the sync is in flight: replayed on the new table it
  changes nothing, and the swap registers the port (`Witnesses.RemovalDuringSyncIsLost`). The watcher
  hands no event over during a sync, so under it this does not happen
  (`Dispatch.WatchedHandlerNeverCaches`); nor does the cache ever hold anything.
- Replacing an endpoint's address, or a port's router group, leaves the old mapping behind. The exact
  condition is `Agreement.AgreementKeptIff` for an edit and `SwapDelta.SwapAgreesIff` for a swap. A swap
  does not repair it, because it compares port numbers only (`Witnesses.SwapDoesNotRepair`); when one does
  is `SwapDelta.SwapRegainsIff`.
- A zero external port silences its whole entry: later removals change the table while their
  unregistration is dropped, and what was served stays (`Witnesses.ZeroPortStrandsMapping`).
- A sync comes to nothing, and the old table stays, when a fetch fails or when both lists ask for
  nothing at all. A single running LRP with a port is enough to take over, even when no desired LRP has
  a route, and then the old table is unregistered (`SyncProtocol.FindsNothingIff`).
- A sync that begins while another is in flight discards the events cached so far
  (`Handlers.RoutingTableHandler.BeginSync`); the watcher never lets that happen (`Watcher.WatcherIsSafe`).
- A failed upsert is not retried beyond the second attempt, and what it should have registered is missing
  until a sync takes over (`RemoteRuns.SwapMakesUp`).
- An external port that is a multiple of 65536 passes the test for zero and is sent as port zero
  (`RawMappings.ZeroPortIsSentIff`).
- Two backends at one address share one request, so removing either silences both
  (`Witnesses.EvacuationAliases`).
- The emitter reports an error only when the token service refuses; a failed upsert or delete returns
  no error (`Emitter.TcpEmitter.EmitRequests`).
- The comment on `HasNoExternalPorts` wonders about port zero: the entry check ignores it, the event
  check drops the whole event.
- `stopEventSource` is set on shutdown and never read. A subscription that is on its way at the signal
  and then succeeds stays open, and nothing else does (`Watcher.ShutdownClosesIff`).

## Model

| member | source | states |
|---|---|---|
| `Endpoints.Subtract` | routing_table/schema/endpoint/endpoint.go:209-218 | the difference keeps exactly the elements whose port is absent from the other list; the router group plays no part |
| `Endpoints.ExternalChangeMissedIff` | routing_table/schema/endpoint/endpoint.go:150-171 | for all lists: the comparison misses a changed port set exactly when the lengths match and the ports only grow, and then the first list repeats a port |
| `Endpoints.ExternalUnchangedIff` | routing_table/schema/endpoint/endpoint.go:150-171 | for all lists: no change is reported exactly when the lengths match and no port goes away |
| `Endpoints.ExternalChangeIsExact` | routing_table/schema/endpoint/endpoint.go:150-171 | for duplicate-free ports the comparison answers "changed" exactly when the port sets differ |
| `Endpoints.ExternalChangeMissesDuplicates` | routing_table/schema/endpoint/endpoint.go:150-171 | the witness: a list that repeats a port, and a change that goes unseen |
| `Endpoints.EndpointChangeIsExact` | routing_table/schema/endpoint/endpoint.go:130-148 | "unchanged" holds exactly when the endpoint keys are equal and no tag advanced |
| `Endpoints.Copy` | routing_table/schema/endpoint/endpoint.go:69-82 | the clone reads the same and owns a fresh endpoint map |
| `Endpoints.RemoveExternal` | routing_table/schema/endpoint/endpoint.go:209-218 | the loop computes the ordered difference |
| `Endpoints.RemoveExternalEndpoints` | routing_table/schema/endpoint/endpoint.go:202-207 | a fresh entry with the ports of the argument taken out and nothing else changed |
| `Endpoints.HaveExternalEndpointsChanged` | routing_table/schema/endpoint/endpoint.go:150-171 | the nested scan decides the change predicate |
| `Endpoints.HaveEndpointsChanged` | routing_table/schema/endpoint/endpoint.go:130-148 | the scan over the new endpoints, in any order, decides the change predicate |
| `Lrps.EndpointsOf` | routing_table/schema/endpoint/endpoint.go:84-100 | one endpoint per mapped container port, each made from a mapping of that port |
| `Lrps.LastMappingWins` | routing_table/schema/endpoint/endpoint.go:88-97 | of several mappings of one container port the last gives the endpoint |
| `Lrps.RoutesFor` | routing_table/schema/routing_table.go:219-230 | exactly the routes of the container port become external endpoints |
| `Lrps.KeysWithout` | routing_table/schema/endpoint/endpoint.go:229-237 | exactly the keys of the first list that the second lacks |
| `Lrps.NewEndpointsFromActual` | routing_table/schema/endpoint/endpoint.go:84-100 | the loop fills the map of endpoints per container port |
| `Lrps.NewRoutingKeysFromActual` | routing_table/schema/endpoint/endpoint.go:102-110 | one key per port mapping, repeated ports repeated |
| `Lrps.NewRoutingKeysFromDesired` | routing_table/schema/endpoint/endpoint.go:112-119 | one key per route, repeated ports repeated |
| `Lrps.RemoveKeys` | routing_table/schema/endpoint/endpoint.go:229-246 | the loop computes the ordered key difference |
| `Events.Select` | routing_table/schema/event/event.go:44-55 | exactly the valid events of one kind survive the separation |
| `Events.MapExternalEndpoint` | routing_table/schema/event/event.go:78-81 | one request per backend of one external endpoint, whatever the map iteration order |
| `Events.MapRoutingEvent` | routing_table/schema/event/event.go:75-84 | external endpoint after external endpoint, one request per backend; only the map iteration order within each is open |
| `Events.BuildMappingRequests` | routing_table/schema/event/event.go:64-73 | event after event, the requests of each; nothing is open but the iteration order of each endpoint map, so order and multiplicity are fixed otherwise |
| `Events.SeparateByKind` | routing_table/schema/event/event.go:41-55 | invalid events are dropped, the others go to the list of their kind in order |
| `Events.ToMappingRequests` | routing_table/schema/event/event.go:41-62 | each request list is, event after event, that of the valid events of its kind |
| `TableSpec.ApplyEditsConcat` | routing_table/schema/routing_table.go:137-164 | an operation made of two loops has the second work on the table of the first and append its events |
| `RoutingTables.CreateRoutingEvent` | routing_table/schema/routing_table.go:362-380 | one event exactly when the entry has external endpoints and endpoints |
| `RoutingTables.GetRegistrationEvents` | routing_table/schema/routing_table.go:334-360 | the registration of the new entry; the "no change" exit is unreachable for its callers |
| `RoutingTables.GetUnregistrationEvents` | routing_table/schema/routing_table.go:324-331 | the unregistration of what was removed; the "no change" exit is unreachable |
| `RoutingTables.GetDeletedEntry` | routing_table/schema/routing_table.go:382-391 | a fresh entry with exactly the endpoints that the remaining entry lacks |
| `RoutingTables.SelectRoutes` | routing_table/schema/routing_table.go:215-230 | the wanted external endpoints, and whether one of their ports is new |
| `RoutingTables.RoutingTable.Get` | routing_table/schema/routing_table.go:126 | reading an absent key yields the zero entry |
| `RoutingTables.RoutingTable.RouteCount` | routing_table/schema/routing_table.go:103-107 | the number of entries |
| `RoutingTables.RoutingTable.MergeRoutes` | routing_table/schema/routing_table.go:208-248 | table and events of one merge, with no endpoint map of an entry or event written |
| `RoutingTables.RoutingTable.AddRoutes` | routing_table/schema/routing_table.go:109-135 | the loop over the keys is the fold of its merges, guarded by the tag stored at each pass |
| `RoutingTables.RoutingTable.RemoveRoutingKeys` | routing_table/schema/routing_table.go:181-206 | the loop is the fold of its guarded deletions |
| `RoutingTables.RoutingTable.UpdateRoutes` | routing_table/schema/routing_table.go:137-164 | merges of the new version, then deletions of the keys only the old one had |
| `RoutingTables.RoutingTable.RemoveRoutes` | routing_table/schema/routing_table.go:166-179 | deletions at the keys of the desired LRP |
| `RoutingTables.RoutingTable.AddOneEndpoint` | routing_table/schema/routing_table.go:269-286 | stale endpoints change nothing; accepted ones are stored and the whole entry is registered |
| `RoutingTables.RoutingTable.AddEndpointAt` | routing_table/schema/routing_table.go:260-264 | the inner loop acts on exactly one endpoint, whatever the map iteration order |
| `RoutingTables.RoutingTable.AddEndpoint` | routing_table/schema/routing_table.go:250-267 | the nested loops are the fold of one put per port mapping |
| `RoutingTables.RoutingTable.RemoveOneEndpoint` | routing_table/schema/routing_table.go:307-332 | an equal or older stored tag lets the removal through; exactly that endpoint is unregistered |
| `RoutingTables.RoutingTable.RemoveEndpoint` | routing_table/schema/routing_table.go:288-305 | the nested loops are the fold of one removal per port mapping |
| `RoutingTables.RoutingTable.Swap` | routing_table/schema/routing_table.go:68-101 | the table becomes the new one and the events are those of a swap under some pair of iteration orders |
| `Downstream.ReorderingPreservesMeaning` | emitter/emitter.go:58-80 | when no mapping is both registered and unregistered, all upserts before all deletes equals the events in list order |
| `Agreement.StepLeavesResidue` | routing_table/schema/routing_table.go:208-332 | from agreement at its key, each of the four edits leaves there the new projection less what a zero port silenced, with an exactly stated residue, disjoint from it |
| `Agreement.ResidueEmptyIff` | routing_table/schema/routing_table.go:208-332 | nothing is left behind and nothing missed exactly when live shared ports keep their router group, a replaced live endpoint keeps its address, and no zero port silences an event that is needed |
| `Agreement.AgreementKeptIff` | routing_table/schema/routing_table.go:208-332 | one edit keeps agreement at its key exactly under that condition, which a caller can check before the call; the other keys play no part |
| `Agreement.AgreementOverRuns` | routing_table/schema/routing_table.go:120-332 | for every run of edits and every key: agreement there after every edit, if and only if every edit at that key meets the condition where it happens |
| `Agreement.CoverageKeptIff` | routing_table/schema/routing_table.go:208-332 | an edit keeps its key fully served exactly when it asks for nothing new next to a zero port |
| `Agreement.CoverageStep` | routing_table/schema/routing_table.go:208-332 | whatever the edit and whatever zero ports there are, every key whose entry has no zero port stays fully served |
| `Agreement.CoverageOverEdits` | routing_table/schema/routing_table.go:120-332 | the same over every run of edits |
| `Agreement.ZeroPortSilencesEntry` | routing_table/schema/event/event.go:26-39 | on an entry with a zero port, an endpoint arrival, a removal and a deletion change the table and leave the remote set as it was; of a merge, the half with the zero port is dropped |
| `Agreement.ZeroPortIsNeverCovered` | routing_table/schema/event/event.go:26-39 | a zero port that is asked for with a backend behind it is never served |
| `Agreement.UpdateTakesEffectIff` | routing_table/schema/routing_table.go:208-248 | when an accepted update clears every port it does not ask for, and when it serves all it asks for, each as an if-and-only-if |
| `Agreement.PortStaysRemovedIff` | routing_table/schema/routing_table.go:208-332 | a port absent at a key stays absent exactly unless the edit brings it back: an update with a new port that asks for it, or any accepted endpoint while the stale entry lists it |
| `Agreement.PortStaysRemovedOverRuns` | routing_table/schema/routing_table.go:120-332 | the same over every run of edits; with handled events and swaps it is `Runs.RunStaysRemovedIff` |
| `Operations.EventsEditEachKeyOnce` | routing_table/schema/routing_table.go:120-206 | edits of one operation at the same key are identical, and the add and delete phases of an update touch disjoint keys |
| `Operations.EditIsLocal` | routing_table/schema/routing_table.go:208-332 | an edit depends on and changes only the entry at its own key |
| `Operations.EditIsIdempotent` | routing_table/schema/routing_table.go:125-133 | a second pass over a repeated key changes the table no further |
| `Operations.OrderDoesNotMatter` | routing_table/schema/routing_table.go:120-332 | the table after an operation does not depend on the order or repetition of its keys |
| `Operations.UpdatePhasesCommute` | routing_table/schema/routing_table.go:160-163 | the two phases of an update may run in either order, and keys of neither version are untouched |
| `Operations.RouteGuardAdvancesIff` | routing_table/schema/routing_table.go:126-133 | within one epoch an accepted update shuts out older versions exactly when it brings a new port |
| `Operations.EventsAreFaithful` | routing_table/schema/routing_table.go:68-391 | each registration carries the entry stored afterwards, each unregistration only mappings stored before |
| `Operations.BatchIsDisjoint` | routing_table/schema/routing_table.go:120-332 | no table operation registers and unregisters the same mapping |
| `Operations.HandleIsRun` | routing_table/routing_table_handler.go:179-281 | handling an event with its batch delivered upserts-first is the run of its edits with events in order |
| `OperationAgreement.RunAtKey` | routing_table/schema/routing_table.go:120-332 | at each key a whole operation does what its one edit there would do alone, to table, withheld ports and remote set |
| `OperationAgreement.OperationAgreesIff` | routing_table/schema/routing_table.go:120-332 | an operation keeps a key in agreement exactly when each of its edits there keeps in step on the state before the call |
| `OperationAgreement.OperationCoversIff` | routing_table/schema/routing_table.go:120-332 | the same for full service at a key |
| `OperationAgreement.EventAgreesIff` | routing_table/routing_table_handler.go:179-281 | for each of the six event kinds with its batch delivered: a key stays in agreement exactly under that condition |
| `OperationAgreement.EventCoversIff` | routing_table/routing_table_handler.go:179-281 | the same for full service at a key |
| `OperationAgreement.EventRestoresIff` | routing_table/routing_table_handler.go:179-281 | a port absent at a key stays absent through a handled event exactly when none of its edits there restores it |
| `OperationAgreement.EventIsDroppedIff` | routing_table/schema/event/event.go:26-39 | an event that a table operation other than a swap emits is dropped exactly when its entry has a zero port |
| `OperationAgreement.NoEventIsDropped` | routing_table/schema/event/event.go:26-39 | without a zero port at its key, before or in what is asked for, such an event is valid |
| `Outcomes.TagsDecide` | routing_table/schema/routing_table.go:128-316 | when a stored tag is older than a given one, or not newer, in terms of absence, epochs and indexes |
| `Outcomes.BackendIs` | routing_table/schema/endpoint/endpoint.go:84-100 | the backend of an actual LRP at a key, field by field, with the host port of the last mapping |
| `Outcomes.RoutesAreAdded` | routing_table/schema/routing_table.go:109-135 | at every key that the LRP routes: an older entry lacking a port is replaced and served, what is not routed is taken away; every other key stays |
| `Outcomes.RoutesAreUpdated` | routing_table/schema/routing_table.go:137-164 | that for the new version's keys; a key only the old version routes is removed under the new version's tag; every other key stays |
| `Outcomes.RoutesAreRemoved` | routing_table/schema/routing_table.go:166-206 | every key that the LRP routes and whose entry is older is gone, with all it exposed unless a port is zero; every other key stays |
| `Outcomes.EndpointsAreAdded` | routing_table/schema/routing_table.go:250-286 | at every key the LRP listens on, its backend is stored unless a version that is not older is there, and the whole entry is served; every other key stays |
| `Outcomes.EndpointsAreRemoved` | routing_table/schema/routing_table.go:288-332 | at every key the LRP listens on, exactly its backend goes, if stored in a version that is not newer, with what the entry exposed of it; every other key stays |
| `Outcomes.DesiredCreatedMeans` | routing_table/routing_table_handler.go:198-204 | a created desired LRP has its routes added |
| `Outcomes.DesiredChangedMeans` | routing_table/routing_table_handler.go:206-219 | a changed desired LRP has the routes of the new version added and the keys that only the old one has removed |
| `Outcomes.DesiredRemovedMeans` | routing_table/routing_table_handler.go:221-227 | a removed desired LRP has all its keys removed |
| `Outcomes.ActualCreatedMeans` | routing_table/routing_table_handler.go:229-237 | a created actual LRP is added exactly when it runs |
| `Outcomes.ActualChangedMeans` | routing_table/routing_table_handler.go:255-271 | a changed actual LRP is added when it runs now, taken away as it was when it ran only before, and otherwise nothing changes |
| `Outcomes.ActualRemovedMeans` | routing_table/routing_table_handler.go:273-281 | a removed actual LRP is taken away exactly when it ran |
| `Outcomes.UnrecognizedMeans` | routing_table/routing_table_handler.go:193-195 | any other event changes nothing |
| `SwapDelta.SwapOrderDoesNotMatter` | routing_table/schema/routing_table.go:81-96 | any two iteration orders give the same multiset of swap events |
| `SwapDelta.SwapIsFaithful` | routing_table/schema/routing_table.go:81-96 | swap registrations carry the new entries, swap unregistrations only old mappings |
| `SwapDelta.SwapReorders` | routing_table/schema/routing_table.go:80-96 | the swap batch is disjoint, so upserts-first equals list order |
| `SwapDelta.SwapEffect` | routing_table/schema/routing_table.go:80-98 | from any remote set, any tables and any orders: exactly what is present afterwards |
| `SwapDelta.SwapHealsIff` | routing_table/schema/routing_table.go:80-98 | from any remote set without zero ports a swap serves a key fully exactly when its new entry has no zero port or no backend |
| `SwapDelta.SwapLeavesResidue` | routing_table/schema/routing_table.go:85-96 | from agreement at a key, exactly what a swap leaves beyond the new table there, and what it misses |
| `SwapDelta.SwapAgreesIff` | routing_table/schema/routing_table.go:85-96 | a swap keeps a key in agreement exactly when live surviving ports keep their router group, their backends their address, and no zero port silences what has to go or come |
| `SwapDelta.SwapEventIsDroppedIff` | routing_table/schema/event/event.go:26-39 | an event of a swap is dropped exactly when its entry has a zero port |
| `SwapDelta.NoSwapEventIsDropped` | routing_table/schema/event/event.go:26-39 | without a zero port in either entry at its key, an event of a swap is valid |
| `SwapDelta.SwapRegainsIff` | routing_table/schema/routing_table.go:80-98 | from any remote set, whatever was lost before: a key agrees after a swap exactly when everything there beyond the new table is dropped and what a zero port silences is there already |
| `SwapDelta.SwapRestoresIff` | routing_table/schema/routing_table.go:80-98 | a port absent at a key stays absent through a swap exactly when the new table does not bring it |
| `Convergence.RoutesAndEndpointsCommute` | routing_table/schema/routing_table.go:109-135 | adding routes and adding an endpoint give the same table in either order |
| `Convergence.LargestIndexWins` | routing_table/schema/routing_table.go:269-286 | within one epoch each endpoint ends at its largest-index version and nothing else of the entry changes |
| `Convergence.NewestIsUnique` | routing_table/schema/routing_table.go:275-279 | the newest versions determine the table |
| `Convergence.DeliveryOrdersConverge` | routing_table/schema/routing_table.go:250-286 | every delivery order of the same actual LRPs, with any duplication, ends in the same table |
| `Convergence.RedeliveryIsSilent` | routing_table/schema/routing_table.go:275-279 | delivering again anything already delivered changes nothing and emits nothing |
| `Snapshot.BuildIsSnapshot` | routing_table/routing_table_handler.go:132-141 | the table built by a sync holds, per key, the routes of the desired LRP and all running endpoints behind it, and nothing else |
| `Snapshot.SnapshotIsUnique` | routing_table/routing_table_handler.go:132-141 | lists with the same members have at most one such table |
| `Snapshot.BuildIgnoresOrder` | routing_table/routing_table_handler.go:135-141 | any order and repetition of the fetched lists builds the same table |
| `Snapshot.BuildIsEmptyIff` | routing_table/routing_table_handler.go:132-141 | the built table is empty exactly when no desired LRP has a route and no actual LRP has a port |
| `SyncProtocol.RunningOnly` | routing_table/routing_table_handler.go:102-108 | exactly the running actual LRPs are kept |
| `SyncProtocol.EventsAreConserved` | routing_table/routing_table_handler.go:51-86 | in every interleaving each event since the latest snapshot is applied exactly once and in arrival order; while syncing the table is frozen and the cache is exactly the events since the sync began |
| `SyncProtocol.FrozenWhileSyncing` | routing_table/routing_table_handler.go:51-60 | between begin and end only the cache and the answers change |
| `SyncProtocol.DirectHandling` | routing_table/routing_table_handler.go:51-60 | with no sync, events are handled and emitted one by one |
| `SyncProtocol.FindsNothingIff` | routing_table/routing_table_handler.go:147-150 | the test on the built table, put on the answers: a sync comes to nothing exactly when a fetch failed, or no desired LRP has a route and no running actual LRP has a port |
| `SyncProtocol.FailedSyncIsStutter` | routing_table/routing_table_handler.go:147-157 | a sync that comes to nothing ends in the same state with the same emissions as no sync at all |
| `SyncProtocol.SuccessfulSyncIsSnapshotThenReplay` | routing_table/routing_table_handler.go:159-177 | a sync that takes over ends in the snapshot with the cached events replayed, whatever the old table was, and emits at most one batch, the swap |
| `SyncProtocol.SyncCanEnd` | routing_table/routing_table_handler.go:68-75 | once both fetches have answered, an end is enabled, whatever the tables |
| `Runs.RunIsActions` | routing_table/routing_table_handler.go:51-177 | a run of protocol labels comes down to its handled events and swaps: same table, and the remote set of its delivered batches |
| `Runs.NothingGoesMissing` | routing_table/routing_table_handler.go:51-177 | over every sequence of events, begins, answers and ends: every key whose entry has no zero port is fully served |
| `Runs.ActCoversIff` | routing_table/routing_table_handler.go:51-177 | one handled event or swap keeps a key fully served exactly under a condition on the world it meets |
| `Runs.ActAgreesIff` | routing_table/routing_table_handler.go:51-177 | one handled event or swap keeps a key in agreement exactly under a condition on the world it meets |
| `Runs.RunAgreesIff` | routing_table/routing_table_handler.go:51-177 | over every sequence of labels, with syncs that fail or take over, and for every key: agreement after each action, if and only if each action keeps the key in step where it happens |
| `Runs.RunStaysRemovedIff` | routing_table/routing_table_handler.go:51-177 | after any sequence of labels and through any that follow, syncs included: an absent port stays absent exactly until the first handled event or swap that brings it |
| `Emitter.EmitOutcomes` | emitter/emitter.go:33-86 | whatever calls fail, the remote set ends untouched, with the registrations, or complete; the call log determines which, and it is complete whenever the last attempt succeeded |
| `Emitter.EmitCalls` | emitter/emitter.go:39-53 | at most two upserts and two deletes, a forced token for the second attempt only, no delete unless its upsert went through or was not needed |
| `Emitter.AttemptCalls` | emitter/emitter.go:39-86 | which calls one attempt makes, and how it ends, decided by the answers before each call |
| `Emitter.RetryIff` | emitter/emitter.go:38-55 | a second attempt with a forced token is made exactly when the last call of the first was unauthorized; the emission succeeds exactly when an attempt goes through, and then everything is sent; an error is returned exactly for a refused token |
| `Emitter.SentIff` | emitter/emitter.go:38-86 | exactly when the registrations, and when the unregistrations, reach the API |
| `Emitter.RetryContinues` | emitter/emitter.go:38-86 | after an unauthorized first attempt, whatever it did, the retry ends where a first attempt with its answers would have, except that registrations that went through stay when the retry's own upsert fails |
| `Emitter.ResendIsIdempotent` | emitter/emitter.go:58-86 | sending a fully delivered disjoint batch once more, as a later registration of the same entries does, changes nothing however the calls end |
| `Emitter.TcpEmitter.EmitOnce` | emitter/emitter.go:58-86 | calls, remote set and result of one attempt |
| `Emitter.TcpEmitter.EmitRequests` | emitter/emitter.go:38-55 | the bounded retry loop follows the two-attempt trace; an error is returned exactly when a token was refused |
| `Emitter.TcpEmitter.Emit` | emitter/emitter.go:33-56 | the same for the requests of the event list; the batch is recorded once with how far it got, and the remote set is always what the recorded batches made of the first one |
| `RawMappings.RequestsAreProducts` | routing_table/schema/event/event.go:64-84 | the requests sent are exactly the raw forms of the keyed products |
| `RawMappings.RequestIdentifies` | routing_table/schema/event/event.go:79-80 | with ports below 65536 a request identifies its external endpoint and backend address |
| `RawMappings.WidePortsCollide` | routing_table/schema/event/event.go:79-80 | with wider ports two external endpoints can give the same request |
| `RawMappings.ZeroPortIsSentIff` | routing_table/schema/event/event.go:26-39 | no event with port zero is sent, and a request still carries port zero exactly when an external port of the batch is a multiple of 65536 |
| `RawMappings.DeliveryLiftsIff` | emitter/emitter.go:58-80 | the API's raw set keeps in step with the keyed set exactly when nothing kept looks like something deleted |
| `RawMappings.UniqueBackendsDoNotAlias` | routing_table/schema/event/event.go:75-84 | unique backend addresses and 16-bit ports rule such aliasing out |
| `RawMappings.SameRawSetIff` | routing_table/schema/event/event.go:75-84 | under the same conditions two keyed sets have one raw form exactly when they are equal |
| `RawMappings.RunLiftsIff` | emitter/emitter.go:58-80 | over every list of emissions, whatever fails: the raw set keeps in step with the keyed set throughout, if and only if no batch that is delivered to the end aliases on the set it meets |
| `RawMappings.RegisteredRun` | emitter/emitter.go:33-86 | from any raw set and over every run of emissions in which each upsert went through, nothing that full deliveries would leave is missing: failed deletes only leave mappings behind |
| `RawMappings.EmissionDelivers` | emitter/emitter.go:33-86 | an emission whose last attempt succeeds leaves the API with the raw form of the delivered batch |
| `Handlers.SelectRunning` | routing_table/routing_table_handler.go:102-108 | the filter loop |
| `Handlers.BuildTable` | routing_table/routing_table_handler.go:132-144 | the temporary table of the two answers, or none when a fetch failed |
| `Handlers.RoutingTableHandler.Emit` | routing_table/routing_table_handler.go:249-253 | an empty list or a missing emitter emits nothing; otherwise one batch, and the remote set stays accounted for |
| `Handlers.RoutingTableHandler.HandleDesiredCreate` | routing_table/routing_table_handler.go:198-204 | adds the routes and emits their events as one batch |
| `Handlers.RoutingTableHandler.HandleDesiredUpdate` | routing_table/routing_table_handler.go:206-219 | updates the routes and emits their events as one batch |
| `Handlers.RoutingTableHandler.HandleDesiredDelete` | routing_table/routing_table_handler.go:221-227 | removes the routes and emits their events as one batch |
| `Handlers.RoutingTableHandler.AddAndEmit` | routing_table/routing_table_handler.go:239-242 | adds the endpoints and emits their events as one batch |
| `Handlers.RoutingTableHandler.RemoveAndEmit` | routing_table/routing_table_handler.go:244-247 | removes the endpoints and emits their events as one batch |
| `Handlers.RoutingTableHandler.HandleOne` | routing_table/routing_table_handler.go:179-281 | each of the six event kinds, and the unrecognized one, has its specified effect on table and emissions |
| `Handlers.RoutingTableHandler.HandleCached` | routing_table/routing_table_handler.go:152-154 | the replay loop is the fold of the cached events, on whatever table and emitter are in place |
| `Handlers.RoutingTableHandler.HandleEvent` | routing_table/routing_table_handler.go:51-60 | is the arrival step of the protocol |
| `Handlers.RoutingTableHandler.BeginSync` | routing_table/routing_table_handler.go:77-80 | is the begin step of the protocol; when a sync is in flight already, it discards what is cached |
| `Handlers.RoutingTableHandler.EndSync` | routing_table/routing_table_handler.go:68-75 | is an end step of the protocol, and restores the table object and the emitter |
| `Handlers.RoutingTableHandler.ReplaySilently` | routing_table/routing_table_handler.go:161-171 | replays on the temporary table, writing neither the old table nor the emitter |
| `Handlers.RoutingTableHandler.ApplyCachedEvents` | routing_table/routing_table_handler.go:147-177 | replay on the old table, or silent replay, swap and one emission |
| `RemoteRuns.RemoteFollowsHandler` | routing_table/routing_table_handler.go:51-253 | whatever fails: the API holds exactly the raw form of what the handler's batches made of the keyed set at the start, each as far as it got |
| `RemoteRuns.RemoteFollowsRun` | routing_table/routing_table_handler.go:51-253 | when every emission ends well, that is what the protocol run makes of an empty API |
| `RemoteRuns.RawAgreesIff` | routing_table/routing_table_handler.go:51-253 | over every run, whatever fails: the API holds exactly the raw form of what the table asks for, if and only if the keyed set of the emissions that went through is that |
| `RemoteRuns.RawNothingGoesMissing` | routing_table/routing_table_handler.go:51-253 | over every run, from any contents of the API and even with failed deletes: everything asked for beside no zero port is there |
| `RemoteRuns.SwapMakesUp` | routing_table/routing_table_handler.go:159-177 | a sync that takes over makes up for every failure before it: once its upsert and the ones since went through, everything asked for beside no zero port is there, whatever the API held |
| `Dispatch.AlternatingRun` | watcher/watcher.go:61-91 | a protocol run whose calls begin and end syncs in turn never caches an event, and what arrives is what was handed over |
| `Dispatch.WatchedHandlerNeverCaches` | watcher/watcher.go:45-125 | in every interleaving of the watcher, whatever protocol run its calls make: nothing is ever cached, and the events fetched, but for the one in flight, reach the table once and in order |
| `Dispatch.Start` | cmd/tcp-emitter/main.go:220-222 | the program's start: an empty table on an empty API, in the first state of the protocol |
| `Dispatch.EventTurned` | watcher/watcher.go:63-64 | an event that comes is handled and emitted at once |
| `Dispatch.SyncTurned` | watcher/watcher.go:66-67 | a sync request whose answers hold something makes the table built from them take over with one swap; any other changes nothing |
| `Dispatch.TakeTurn` | watcher/watcher.go:61-67 | one turn does just that with its own event or answers, and extends the protocol run by its labels |
| `Dispatch.Serve` | watcher/watcher.go:61-91 | turn after turn: the handler is in the state of the protocol run that these turns, with their events and answers, make |
| `Dispatch.StartAndServe` | watcher/watcher.go:61-91 | from an empty API, for all turns and whatever fails: with unique addresses the API holds exactly what the emissions of that run made |
| `Dispatch.AnnouncedEventsStay` | routing_table/schema/endpoint/endpoint.go:69-82 | snapshot isolation: any list of events announced earlier reads the same after any later turns, syncs and swaps among them |
| `Watcher.WatcherIsSafe` | watcher/watcher.go:45-125 | in every interleaving: only one subscriber can still send, fetched events reach the handler once and in order except one in flight, syncs never overlap anything, and at most one event source is open |
| `Watcher.HeardIsHandedOver` | watcher/watcher.go:61-125 | in every interleaving: exactly the events that the source returned to a reading subscriber are fetched, exactly those received are handed over, and they differ by the event in flight only |
| `Watcher.EventComesThrough` | watcher/watcher.go:63-125 | an event that a reading subscriber gets reaches the handler and the subscriber reads on, also when its type was not recognized; an answer without an event changes nothing |
| `Watcher.ErrorLeadsToResubscription` | watcher/watcher.go:69-125 | a failed subscription or a broken source leads to a fresh subscription, with the source closed |
| `Watcher.SyncComesThrough` | watcher/watcher.go:66-67 | a sync request is one begin and one end on the handler, and the loop selects again |
| `Watcher.CanAlwaysHear` | watcher/watcher.go:45-125 | from every state of every run that is not stopped, the watcher can go on to hear any new event and hand it over |
| `Watcher.ShutdownClosesIff` | watcher/watcher.go:80-125 | for every run up to a taken signal and everything after it: all opened event sources are closed, if and only if no subscription was on its way at the signal and then succeeds |
| `Watcher.LateSubscriptionStaysOpen` | watcher/watcher.go:80-90 | the witness: a subscription that succeeds after the signal leaves its event source open whatever happens later |
| `Witnesses.ChangedAddress` | routing_table/schema/routing_table.go:269-286 | a run of events from nothing on which a backend that moves to another host breaks agreement |
| `Witnesses.ChangedRouterGroup` | routing_table/schema/routing_table.go:219-247 | a run of events from nothing on which a port that moves to another router group breaks agreement |
| `Witnesses.ZeroPortStrandsMapping` | routing_table/schema/event/event.go:26-39 | a run of events from nothing after which the table has forgotten a key whose mapping is still in the remote set |
| `Witnesses.WithheldPortIsNotServed` | routing_table/schema/routing_table.go:219-247 | a run of events from nothing on which a removed port is asked for again, accepted, and not served |
| `Witnesses.RemovedPortComesBack` | routing_table/schema/routing_table.go:279-286 | a run of events from nothing on which another backend's arrival brings back a port that nobody asks for |
| `Witnesses.StaleUpdateOverrides` | routing_table/schema/routing_table.go:126-133 | a run of events from nothing on which version 2 of a desired LRP is accepted after version 3 and replaces the entry |
| `Witnesses.SwapLeavesOldAddress` | routing_table/schema/routing_table.go:80-98 | a run whose sync finds a backend elsewhere: it can take over, and however it ends agreement is lost |
| `Witnesses.SwapDoesNotRepair` | routing_table/schema/routing_table.go:80-98 | a run whose sync comes after agreement was lost: however it ends, the stranded mapping stays |
| `Witnesses.RemovalDuringSyncIsLost` | routing_table/routing_table_handler.go:159-177 | a removal that takes its port away when handled directly is lost when it arrives during a sync: however the sync ends, the port is served |
| `Witnesses.EvacuationAliases` | routing_table/schema/event/event.go:75-84 | an instance and its evacuating twin at one address: removing one keeps the keyed sets in agreement and takes the other's request out of the API |

## Left out

- `GetRoutingEvents`: registers every entry; nothing in the program calls it, and a swap registers everything too.
- Route decoding, group resolution, and the BBS, UAA and routing-API clients are not part of this model: decoded routes, resolved LRPs and call results are inputs.
- Route expiry and real time: the remote set never forgets by itself; the TTL is only carried in requests.
- Locks: each table call and each handler step is one atomic step.
- Logging, configuration, process wiring and the sync ticker: a sync request is a step that may happen at any time.
- Sharing of the entries map: after a swap the program's two table objects share one Go map; here `entries` is a value, so writing through the discarded table is not modelled.
- Sharing of external-endpoint slices: they are values here; the program never writes to one it has stored.
- Handlers.RoutingTableHandler.EndSync: builds the temporary table within the final step, because building touches only a fresh object that nothing else can see.
- SyncProtocol.EventsAreConserved: a begin is enabled only while no sync is in flight; the program does not check this, and `Watcher.WatcherIsSafe` shows that its one caller never overlaps syncs.
- Runs.NothingGoesMissing: the keyed sets of a run have every batch delivered; what failed emissions leave is `Emitter.EmitOutcomes` for one and module `RemoteRuns` for runs.
- Watcher.WatcherIsSafe: a safety statement; that blocked goroutines eventually proceed is not stated.
