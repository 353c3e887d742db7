# SyLog verification model

This project models the parts of the SyLog logging library in which something hard has to hold
and proves it for every input and every interleaving:

* **the asynchronous lanes**: a bounded queue whose slots are reserved by compare-and-swap, a
  worker per route, and the calls that stop, drain, discard and rebuild lanes;
* **the pipeline**: the endpoint cache, the route mask, the early gate, and the equivalence of
  asynchronous delivery with synchronous dispatch;
* **the rotating file sink**: what the archives hold after any run, in records and in bytes;
* **the renderers**: the JSON renderer against an independent RFC 8259 parser, and the nine
  passes of the pattern renderer against one simultaneous expansion.

`dafny verify dfyconfig.toml` checks the whole project.

## How it is laid out

| module | what it holds |
|---|---|
| `Events`, `Text` | events and fields; output buffers and decimal numbers |
| `LaneProtocol` | one lane as a state machine of atomic steps, its invariant, and the theorems about all runs |
| `EventQueue` | `WorkersEventQueue` and the lane loop as imperative code, one thread at a time under arbitrary interference, proved to be runs of `LaneProtocol` |
| `Routing` | filters, cache entries, mask and gate |
| `PipelineCache` | the pipeline as a class with its cache; `CacheRace` takes the lookup apart into interleaved steps, `RouteRace` the route changes |
| `Crossbar`, `CrossbarInvariant`, `CrossbarTheorems`, `Reconfiguration`, `CrossbarRuns` | all lanes, all producers and the lifecycle calls together; what each call does to the routes and capacities; single runs that show what can go wrong |
| `Refinement` | asynchronous delivery against synchronous dispatch |
| `FileSink`, `RotationModes` | the rotating file sink; its modes one by one |
| `PatternRenderer`, `PatternTheorems`, `PatternExactness`, `PatternNames` | the pattern renderer; when its passes equal one expansion, exactly when, and key by key |
| `Json`, `JsonRoundTrip`, `JsonRenderer`, `JsonText` | documents and the parser, the round trip, the renderer, the text of a record |
| `LogRecovery` | what can be read back from a record, and from the files that are retained |

## What is assumed

* The queue underneath is a linearizable FIFO sequence with a closed flag: push fails exactly
  when closed, try_pop succeeds exactly when non-empty, the blocking pop gives up only when
  closed or asked to stop.  Atomics are linearizable and a section under a mutex is one step.
* Lifecycle calls (configure, add_route, clear_routes, start, close, request_stop) exclude one
  another; producers and workers run at any time, and a producer may hold any lane list, however
  old, whose crossbar it took and for which it then read `accepting` as true.  A crossbar is
  destroyed only when no producer holds it.
* A queue outlives the producers inside it.  The code does not see to that: a forced stop replaces
  the queue of a lane while a producer may be inside it by reference
  (`CrossbarTheorems.ReplacedUnderProducer`, `CrossbarRuns.ForcedStopOverProducer`), and what the
  code does from then on is undefined; the model lets such a producer go on in the old queue.
* File operations succeed.  The date of each write, the formatted time, the thread id, the source
  location and the text of a double are inputs.
* A byte is the character with its code.  Sizes are natural numbers without wrap-around.
* Filters do not change after their route was added; a custom filter or renderer is a function of
  the event.

## Where the code and its documentation differ

The model follows the code.

* `docs/api/lifecycle.md:16-19` lets events be queued before `start()`, and `:32-40` promises that
  `close()` drains.  A `close()`, or a rebuild by `add_route`, `clear_routes` or `configure`, before
  `start()` has no worker to drain with and discards them (`LaneProtocol.StoppedLaneSplits`,
  `LaneProtocol.CloseBeforeStartLoses`, `CrossbarTheorems.RebuiltBeforeStartDiscards`).
* `docs/internals/crossbar_sink_design.md:25-32` calls filtering correct even when the cache is
  stale.  The lane filters cannot bring back a route that a stale mask leaves out; and an entry
  computed before a route change can be inserted after the flag was cleared
  (`CacheRace.ChangeIsSafeExactly`, `CacheRace.StaleEntryHidesRoute`).
* A custom severity has priority 0 by default (`include/sylog/severity.hpp:16`), but a route without
  severity filter is summarised as minimum 100, so the gate rejects such events
  (`Routing.GateSafeFromTraceUp`).
* `docs/api/routing.md:69-73` promises the stderr fallback for ERROR events without a route.  An
  empty mask reports minimum 65535, so through a `Logger` only priority 65535 gets there
  (`PipelineCache.Pipeline.LogAt`, `Routing.FallbackExactly`, `Routing.ErrorIsDropped`).
* `docs/api/renderers_filters.md:29` says unknown text is copied literally.  Text of the pattern
  that the text of an event can complete to the key of a later pass is expanded, and so is such
  text in an event (`PatternExactness.PatternSafeExactly`, `PatternExactness.TextSafeExactly`).
* `docs/api/queue.md:19-20` lets a blocking producer wait until the route can accept another event
  or shutdown begins.  A live reconfiguration refuses a producer that reaches its push after
  the old queue was closed, without any shutdown (`CrossbarRuns.LiveRebuildRefuses`,
  `LaneProtocol.BlockingCallDecidedByPush`).
* Two overlapping route changes can leave the crossbar with the older route list
  (`RouteRace.BeginIsSafeExactly`, `RouteRace.OlderListWins`).
* A producer that took the crossbar before a forced stop and reads on after it gets `true` for an
  event that goes into a fresh queue without worker (`CrossbarTheorems.ForcedStopLoses`,
  `CrossbarTheorems.SpareIsNeverProcessed`).
* With `keep_files <= 0` a rotation renames nothing and truncates the active file
  (`FileSink.RotatingFileSink.RotateFiles`, `FileSink.ArchivesAreNewest`).
* A double without fraction or exponent is indistinguishable from an integer in JSON output, and
  non-finite ones are not JSON (`LogRecovery.RecordReadsBackExactly`).

## Model

| member | source | states |
|---|---|---|
| `LaneProtocol.StepKeepsInv` | src/async/workers_event_queue.cpp:19-85 | Any one atomic step of any thread (load, CAS, push, release, wait, pop, drain flag, close, stop request, worker exits) keeps the lane invariant |
| `LaneProtocol.RunKeepsInv` | src/async/sink_crossbar.cpp:122-169 | The invariant holds after every interleaving of any number of producers, the worker and the stopping caller |
| `LaneProtocol.SlotAccounting` | src/async/workers_event_queue.cpp:19-57 | In every reachable state `size_` = queued events + producers holding an unpushed or failed reservation + a worker between pop and release; 0 <= `size_` <= capacity, which is the one the queue was built with, at least 1; the queue never exceeds it, and no `fetch_sub` can underflow |
| `LaneProtocol.FifoConservation` | src/async/sink_crossbar.cpp:80-139 | Accepted = processed ++ in hand ++ queued in every reachable state; one producer's processed events are a prefix of its accepted ones, which are in its program order |
| `LaneProtocol.ClosedAcceptsNothing` | src/async/workers_event_queue.cpp:19-44 | Once the queue is closed, no continuation of any run accepts another event, whatever the producers were in the middle of |
| `LaneProtocol.ExitedForGood` | src/async/sink_crossbar.cpp:122-139 | A worker that has left never processes again |
| `LaneProtocol.GracefulExitLosesNothing` | src/async/sink_crossbar.cpp:122-169 | When the worker has left through its drain loop, the events whose push returned true are exactly the processed ones, in order, and this stays so for ever |
| `LaneProtocol.StoppedLaneSplits` | src/async/sink_crossbar.cpp:141-161 | A queue without live worker: accepted = processed ++ discarded; unless the worker was told to discard, nothing is lost if and only if the worker had been started or nothing had been accepted |
| `LaneProtocol.CloseBeforeStartLoses` | src/logger.cpp:139-158 | A concrete run in which `close()` before `start()` loses an accepted event |
| `LaneProtocol.BlockingLaneAcceptsAll` | src/async/workers_event_queue.cpp:28-44 | An open blocking lane that has never seen `accepting` false has accepted every completed call of every producer |
| `LaneProtocol.BlockingCallDecidedByPush` | src/async/workers_event_queue.cpp:28-44 | In a blocking lane that refuses no call for not accepting, a call that completes was accepted if and only if the queue was still open at its push |
| `EventQueue.OthersMove` | src/async/workers_event_queue.cpp:19-85 | Whatever steps the other threads take between two atomic actions, they are protocol steps and leave the running thread's own position and accepted events alone |
| `EventQueue.HistoryStays` | src/async/workers_event_queue.cpp:19-85 | Nothing a lane has recorded (calls, outcomes, processed events) is ever taken back |
| `EventQueue.WorkersEventQueue.constructor` | src/async/workers_event_queue.cpp:8-9 | A new queue is open and empty, with the capacity asked for, but at least 1: the initial state of the protocol |
| `EventQueue.WorkersEventQueue.CompareExchange` | src/async/workers_event_queue.cpp:72-75 | The weak compare-and-swap takes a slot exactly if the size was still the one seen and it did not fail for no reason; otherwise it reports the size it saw |
| `EventQueue.WorkersEventQueue.ReserveSlot` | src/async/workers_event_queue.cpp:69-80 | From any earlier state the CAS loop, under arbitrary interference and spurious failures, is a run of the protocol that ends holding a slot or having seen a full queue and adds no accepted event; undisturbed it succeeds exactly when there is room |
| `EventQueue.WorkersEventQueue.PushReserved` | src/async/workers_event_queue.cpp:19-26 | From the slot to the return, from any earlier state a run of the protocol: the push is accepted, or the slot is given back because the queue was closed; the thread's accepted events grow exactly by a successful push |
| `EventQueue.WorkersEventQueue.ReleaseSlot` | src/async/workers_event_queue.cpp:82-85 | After a failed push the slot is given back and the call ends as refused |
| `EventQueue.WorkersEventQueue.TryPush` | src/async/workers_event_queue.cpp:19-26 | Under arbitrary interference the call is a run of the protocol from the state before it that records the returned outcome, and the thread's accepted events are the old ones plus this one exactly if it returns true; undisturbed it appends the event exactly when there is room and the queue is open |
| `EventQueue.WorkersEventQueue.WaitForSpace` | src/async/workers_event_queue.cpp:36-40 | The wait ends only when `accepting` is false or there is room |
| `EventQueue.WorkersEventQueue.PushBlocking` | src/async/workers_event_queue.cpp:28-44 | Under arbitrary interference the call is a run of the protocol from the state before it that records the returned outcome, never a rejection for lack of room, and the thread's accepted events grow by this one exactly if it returns true; undisturbed: false if not accepting, waits if full, otherwise accepted, and queued last, exactly when open |
| `EventQueue.WorkersEventQueue.TryPop` | src/async/workers_event_queue.cpp:46-50 | Takes the first event, from a closed queue too, and fails exactly on an empty queue |
| `EventQueue.WorkersEventQueue.PopBlocking` | src/async/workers_event_queue.cpp:52-57 | Takes the queue's first event, gives up only if closed or asked to stop, and otherwise waits; what was queued stays ahead of what others add |
| `EventQueue.WorkersEventQueue.Drain` | src/async/sink_crossbar.cpp:136-138 | The drain loop hands over everything queued, the old queue first and in order, and leaves the queue empty |
| `EventQueue.WorkersEventQueue.LaneLoop` | src/async/sink_crossbar.cpp:122-139 | The thread body, under arbitrary interference: a run of the protocol from the state before it, in which accepted = processed before ++ handed to process_ ++ still queued, the old queue first; a finished worker found the queue closed, and a drained one leaves nothing queued |
| `EventQueue.WorkersEventQueue.Close` | src/async/workers_event_queue.cpp:59-62 | Closing changes the closed flag and nothing else |
| `EventQueue.Burst` | src/async/workers_event_queue.cpp:8-26 | On a new queue of capacity c, without worker and undisturbed, exactly the first max(c, 1) calls of try_push are accepted, and they are queued in order |
| `EventQueue.BurstBlocking` | src/async/workers_event_queue.cpp:8-44 | The same for push_blocking: exactly the first max(c, 1) calls go through, and the next one waits |
| `Routing.EndpointDecides` | src/logger.cpp:28-43 | An endpoint passes if and only if it is not d + x for a denied d and, if anything is allowed explicitly, is a + x for an allowed a |
| `Routing.PrefixDecides` | src/logger.cpp:28-43 | Allowing p lets in every p + x, denying p stops every p + x whatever is allowed, and empty lists let in everything |
| `Routing.RouteWrites` | src/logger.cpp:277-292 | One route and one event, from the filters' own fields: nothing without a sink or if some filter stops the event, otherwise one write of the rendering, or of the message with a final newline unless it is empty or has one |
| `Routing.DispatchInOrder` | src/logger.cpp:266-294 | Dispatch to routes a followed by routes b writes what a gets, then what b gets |
| `Routing.MaskSilences` | src/logger.cpp:276-277 | Masked dispatch is unmasked dispatch with the routes outside the mask deprived of their sinks |
| `Routing.LastMinimumDecides` | src/logger.cpp:202-209 | Of any severity filters of a route the last one gives its minimum; without one it is 100 |
| `Routing.LastEndpointDecides` | src/logger.cpp:202-215 | Of any endpoint filters of a route the last one decides; without one every endpoint passes |
| `Routing.SummaryMeaning` | src/logger.cpp:191-224 | The cache entry keeps exactly the routes below 64 whose last endpoint filter passes; its minimum is the least of their last severity minima |
| `Routing.MaskSound` | src/logger.cpp:191-224 | A route below 64 that passes all its filters has its bit set, whatever custom filters it has and however many endpoint filters overwrite one another |
| `Routing.MaskLosesNothing` | src/logger.cpp:266-294 | Masked synchronous dispatch writes exactly what dispatch without a mask writes to the first 64 routes |
| `Routing.GateSound` | include/sylog/logger.hpp:165-168 | From priority 100 up the early gate never rejects an event that some covered route passes |
| `Routing.GateSafeFromTraceUp` | include/sylog/severity.hpp:10-19 | For one severity the gate is safe for all routes and events if and only if its priority is at least 100; the default priority of a custom severity is 0 |
| `Routing.GateExact` | include/sylog/logger.hpp:165-168 | With at most one built-in filter of each kind per route and priority in [100, 65535) the gate opens if and only if some covered route passes |
| `Routing.FallbackExactly` | src/logger.cpp:301-309 | An event from ERROR up that no covered route passes gets from a logger to the stderr fallback if and only if the last endpoint filter of every covered route rejects its endpoint and its priority is the greatest there is, 65535 |
| `Routing.ErrorIsDropped` | docs/api/routing.md:69-73 | Without routes an ERROR event is dropped at the gate, while priority 65535 reaches the fallback |
| `PipelineCache.MatchEndpoint` | src/logger.cpp:34-43 | The two loops decide: no deny prefix matches, and there is no allow prefix or one of them matches |
| `PipelineCache.PassesAll` | src/async/sink_crossbar.cpp:100-105 | The loop is true exactly when every filter passes |
| `PipelineCache.Pipeline.constructor` | src/logger.cpp:45-70 | Starts coherent, with no routes, accepting, and asynchronous with synchronous FATAL events |
| `PipelineCache.Pipeline.AddRoute` | src/logger.cpp:107-114 | Appends the route and keeps the cache coherent |
| `PipelineCache.Pipeline.ClearRoutes` | src/logger.cpp:120-125 | Removes every route and keeps the cache coherent |
| `PipelineCache.Pipeline.SummariseRoute` | src/logger.cpp:202-215 | One route's loop: the last filter of each built-in kind decides |
| `PipelineCache.Pipeline.ComputeCacheEntry` | src/logger.cpp:191-224 | The loop over the routes computes the summary entry of the first 64 |
| `PipelineCache.Pipeline.CachedRouteMask` | src/logger.cpp:226-258 | Whatever the cache holds, the answer is the entry of the current routes, and while the flag is clear every cached entry is |
| `PipelineCache.Pipeline.CachedMinPriority` | src/logger.cpp:260-264 | The gate's threshold is that of the current routes, 65535 if no bit is set |
| `PipelineCache.Pipeline.DispatchSync` | src/logger.cpp:266-294 | The dispatch loop makes exactly the writes of the masked specification, in route order |
| `PipelineCache.Pipeline.Submit` | src/logger.cpp:301-336 | In terms of the routes alone: the fallback from 500 up if no bit is set; nothing if a global filter stops the event; unmasked synchronous writes if forced, if from 600 up with synchronous FATAL, if not asynchronous or not accepting; and in every other case no write and one hand-over with the mask of the current routes, which covers every passing route |
| `PipelineCache.Pipeline.LogAt` | include/sylog/logger.hpp:175-183 | Through the gate, for an event from 100 up that some covered route and the global filters pass: written synchronously, or handed over once, under the same conditions as in submit; nothing if the gate is shut; the stderr fallback exactly when the gate opens on an empty mask |
| `CacheRace.EntriesComeFromThePast` | src/logger.cpp:226-258 | Over every interleaving, each cached entry is right for some route list current at or before its insertion |
| `CacheRace.ChangeIsSafeExactly` | src/logger.cpp:226-258 | A route change leaves every continuation coherent if and only if each computed but not yet inserted entry is also right for the new routes |
| `CacheRace.StaleInsert` | src/logger.cpp:252-256 | Otherwise two lookups alone bring the cache to a clear flag with a wrong entry in it |
| `CacheRace.StaleEntryHidesRoute` | docs/internals/crossbar_sink_design.md:25-32 | For every event there is a run after which the clear-flagged cache hides the only route, which passes the event: a stale cache is more than an optimization |
| `RouteRace.SerialCallsAgree` | src/logger.cpp:107-129 | Calls of add_route, clear_routes, close, request_stop and configure that do not overlap leave lane i with route i whenever none is in progress |
| `RouteRace.OverlapIsSafeExactly` | src/logger.cpp:107-179 | With calls between their two locks, every order in which they can finish leaves lane i with route i if and only if each of their copies is the current list |
| `RouteRace.BeginIsSafeExactly` | src/logger.cpp:107-118 | It is safe to begin a change if and only if each call in progress has already copied the list that the change makes |
| `RouteRace.OlderListWins` | src/logger.cpp:107-118 | Two calls of add_route after which the crossbar has only the first route, while the mask selects the second |
| `RouteRace.OnlyANewCallRepairs` | src/logger.cpp:107-129 | After such calls have finished only a further call can change the crossbar's list, and one that overlaps with none repairs it: the lanes carry the pipeline's list, with the new route last, emptied, or unchanged |
| `Crossbar.Projects` | src/async/sink_crossbar.cpp:80-98 | Any action anywhere in the crossbar makes at most one step of the protocol in each lane |
| `CrossbarInvariant.ActionKeepsInv` | src/async/sink_crossbar.cpp:22-169 | Every producer action, worker step and section of a lifecycle call keeps the crossbar invariant |
| `CrossbarInvariant.RunsKeepInv` | src/logger.cpp:76-179 | The invariant holds after every run |
| `CrossbarTheorems.LaneIsolation` | src/async/sink_crossbar.cpp:80-98 | Every run of the crossbar, projected to one lane, is a run of the single-lane protocol, whatever the other lanes do |
| `CrossbarTheorems.FedExactlyTheMask` | src/async/sink_crossbar.cpp:80-98 | Each lane below 64 is offered, per thread and in order, exactly the events whose mask has its bit, counting the queue a forced stop puts in its place; lanes from 64 on nothing |
| `CrossbarTheorems.LifecycleAgrees` | src/logger.cpp:76-179 | Between lifecycle calls `running` agrees with the crossbar's `running_`, lane i carries route i of the pipeline's list (`Reconfiguration` says which list that is), every current lane is open with capacity at least 1, and the workers are as `running` says |
| `CrossbarTheorems.LifecycleCallsGoAhead` | src/async/sink_crossbar.cpp:47-57 | Every lifecycle call can go ahead when no other is in progress, and no worker is ever started on a closed queue |
| `Reconfiguration.IdleReconfiguration` | src/logger.cpp:79-129 | On an idle crossbar whose lanes carry routes R: after add_route(r) lane k carries R[k] and the last lane r; after clear_routes there is no lane; after configure(n) the lanes carry R with capacity max(n, 1); otherwise the capacity is the configured one |
| `Reconfiguration.StoppingReconfiguration` | src/async/sink_crossbar.cpp:22-45 | The same for calls that first stop the lanes, whatever producers and workers do meanwhile: add_route and clear_routes on a running crossbar end running with R followed by r, or with no lane; close and request_stop end idle with R; after all but request_stop every lane that had a worker has processed all it accepted, and only request_stop leaves fresh queues |
| `Reconfiguration.SessionOfRebuild` | src/logger.cpp:139-179 | close, request_stop and configure make a new crossbar, whose lanes producers can use as soon as `accepting` is true, whatever it was before; add_route and clear_routes keep the crossbar that was there |
| `Reconfiguration.RebuiltLanesHold` | src/async/sink_crossbar.cpp:26-36 | The lanes of a rebuild have the capacity configured at that moment, at least 1, in every continuation |
| `Reconfiguration.ConfiguredCapacity` | src/logger.cpp:79-96 | The capacity given to configure, on an idle or a running pipeline, is that of all lanes made before the next configure |
| `CrossbarTheorems.StopOnlyWaitsForWorkers` | src/async/sink_crossbar.cpp:141-161 | A stop in progress can always take its next section, or waits for one live worker whose queue it has closed |
| `CrossbarTheorems.StopOutcome` | src/async/sink_crossbar.cpp:141-169 | After the joins: accepted = processed ++ left over; a drain stop leaves nothing over in a lane whose worker had been started; a forced stop, and only that, leaves each lane a fresh, open, empty queue of the same capacity |
| `CrossbarTheorems.ReplacedUnderProducer` | src/async/sink_crossbar.cpp:163-168 | The end of a stop replaces a queue with a producer still inside it if and only if the stop was forced and the producer was inside |
| `CrossbarRuns.ForcedStopOverProducer` | src/async/sink_crossbar.cpp:80-98 | The run in which that happens |
| `CrossbarTheorems.LiveRebuildKeepsAccepted` | src/async/sink_crossbar.cpp:22-45 | When `add_route` or `clear_routes` on a running pipeline starts the new workers, every old lane has processed, in order, everything it ever accepted, and the new lanes carry the new routes and are still empty |
| `CrossbarRuns.LiveRebuildRefuses` | docs/api/queue.md:19-20 | The run in which `add_route` on a running pipeline makes a blocking lane refuse a call, with `accepting` true throughout |
| `Refinement.SessionCallDecidedByPush` | src/async/workers_event_queue.cpp:28-44 | In the crossbar, within a session: a completed call on a blocking lane was accepted if and only if the queue was still open at its push |
| `CrossbarTheorems.ReplacedQueueIsFrozen` | src/async/sink_crossbar.cpp:22-45 | The queue of a rebuilt-away lane that had run accepts nothing more and its worker processes nothing more, even for producers still holding it |
| `CrossbarTheorems.DrainedLaneIsFrozen` | src/async/sink_crossbar.cpp:141-161 | A drained and replaced lane stays as it is in every continuation, with everything it ever accepted processed in order |
| `CrossbarTheorems.SpareIsNeverProcessed` | src/async/sink_crossbar.cpp:163-168 | Events that get into the fresh queue of a forced stop are never processed, in no reachable state |
| `CrossbarTheorems.ForcedStopLoses` | src/async/sink_crossbar.cpp:80-98 | The run in which a producer that still holds the crossbar gets an event accepted into that queue |
| `CrossbarTheorems.StopFreezesExactly` | src/async/sink_crossbar.cpp:141-169 | From the end of a stop on, no continuation changes what a lane below 64 has accepted if and only if it was a drain stop |
| `CrossbarTheorems.RebuiltBeforeStartDiscards` | docs/api/lifecycle.md:16-19 | A lane replaced before its worker started never processes anything, in any continuation |
| `CrossbarTheorems.ReconfigurationKeepsOrder` | src/async/sink_crossbar.cpp:22-45 | All that the workers of route position i wrote, over any number of rebuilds, is the processed list of its first lane, then of its second, and so on |
| `Refinement.EntryMasksSound` | src/logger.cpp:226-336 | Masks taken from up-to-date entries hide no route that wants the event |
| `Refinement.SyncEntryMasksSound` | src/logger.cpp:226-336 | The same for the masks of synchronous dispatches |
| `Refinement.BlockingLaneComplete` | src/async/workers_event_queue.cpp:28-44 | An open blocking lane that has refused no call for not accepting has accepted, per thread, every completed call that selected it |
| `Refinement.AsyncRefinesSync` | src/logger.cpp:318-336 | Open blocking lane that has refused no call for not accepting, all calls returned, any continuation by whose end the worker has drained: per thread the lane processed exactly the calls that selected it; with sound masks it wrote, per thread, exactly what direct dispatch writes, and overall the same multiset |
| `Refinement.SessionNeverRefuses` | src/logger.cpp:131-179 | From any moment at which a generation's gate is not shut until `accepting` is next set to false, none of its lanes refuses a call for not accepting |
| `Refinement.EverySessionRefinesSync` | docs/api/lifecycle.md:32-56 | The refinement in every session, the first as well as any after a close, a forced stop or a reconfiguration |
| `Refinement.AsyncWritesInAcceptanceOrder` | src/async/sink_crossbar.cpp:107-139 | Without force-sync events a drained lane's route received, write by write, what direct dispatch in the lane's acceptance order writes |
| `Refinement.AsyncPlusSyncRefinesSync` | src/logger.cpp:318-336 | With force-sync events included, all writes of the route are as a multiset the direct writes of all calls |
| `Refinement.DirectIsDispatch` | src/logger.cpp:266-294 | The references `Direct` and `DirectSync` are route i's share of dispatching the events of the calls, or of the synchronous dispatches, one after the other without a mask |
| `Refinement.ShareOfDispatch` | src/logger.cpp:266-294 | Unmasked dispatch makes the writes of the dispatch specification, and route i's share is what its own filters let through |
| `FileSink.RotatingFileSink.constructor` | src/sinks/file_sink.cpp:74-80 | Opens in append mode: existing contents and archives stay, and the size counter is the active length |
| `FileSink.RotatingFileSink.RotateFiles` | src/sinks/file_sink.cpp:45-58 | The descending rename loop, in place, equals one simultaneous shift |
| `FileSink.RotatingFileSink.RotateIfNeeded` | src/sinks/file_sink.cpp:60-71 | Rotates exactly if the mode has a size limit and the bytes do not fit, or the mode is daily and both dates are known and differ; the new state is the shift with an empty active file |
| `FileSink.RotatingFileSink.Write` | src/sinks/file_sink.cpp:86-94 | The whole new directory state, with the size counter equal to the active length |
| `FileSink.ArchivesAreNewest` | src/sinks/file_sink.cpp:45-71 | After any run archive i is exactly the i-th newest file rotated away; indices are contiguous and at most keep |
| `FileSink.NothingLostBeforeTheCut` | src/sinks/file_sink.cpp:86-94 | Rotated files followed by the active file are the old active contents followed by every record written |
| `FileSink.RetainsSuffix` | src/sinks/file_sink.cpp:45-94 | Oldest archive to active file is, record by record, a suffix of everything there was and everything written |
| `FileSink.FreshRetainsSuffix` | src/sinks/file_sink.cpp:74-94 | The same from an empty directory |
| `FileSink.GroupsAreDays` | include/sylog/sink.hpp:91-99 | The grouping by date: one date in each group, different dates in neighbours |
| `FileSink.DayModeFiles` | include/sylog/sink.hpp:91-99 | In day mode, from any store: the files produced from then on are exactly the groups of records of one date, the first appended to what the active file held; what a reopened file held counts as of the date of opening |
| `RotationModes.CombinedModeFiles` | include/sylog/sink.hpp:105-119 | In size-or-day mode, from any store: the files produced from then on are exactly the groups of `Cuts`, the first appended to what the active file held |
| `RotationModes.CutsExactly` | include/sylog/sink.hpp:105-119 | Those groups are all the records in order; within a group every record has the date of the one before (of opening, at the start) and fitted; every new group begins with a record of another date or one that did not fit |
| `RotationModes.NeverRotates` | include/sylog/sink.hpp:69-72 | Without rotation nothing is rotated away, and the active file gets everything |
| `RotationModes.UnknownDateIsNoChange` | include/sylog/sink.hpp:95-97 | An empty date never rotates: the daily mode then appends, and the size-or-day mode is the size mode |
| `RotationModes.ArchivesThatStay` | src/sinks/file_sink.cpp:45-58 | In every rotating mode, from no archives: archive i exists exactly for 1 <= i <= min(keep_files, rotations), and is the i-th newest file rotated away |
| `RotationModes.WhereFilesGo` | src/sinks/file_sink.cpp:45-58 | For a directory with any gaps: files below keep move up by one, the archive at keep is overwritten exactly if there is one below, those beyond stay, and no other file appears |
| `FileSink.SizeModeFiles` | include/sylog/sink.hpp:74-89 | In size mode every file is at most max bytes or one record, each rotated file plus the first record of the next exceeds max, and the size counter is exact |
| `FileSink.RetentionBounds` | src/sinks/file_sink.cpp:60-94 | After at least keep rotations the retained bytes exceed max * floor((keep+1)/2), and are at most (keep+1) * max if no single record exceeds max |
| `FileSink.LimitedModeFiles` | include/sylog/sink.hpp:105-119 | In both modes with a size limit every file ever produced is at most max bytes or one record, and the size counter is exact; where files are cut is in `FileSink.SizeModeFiles` and `RotationModes.CombinedModeFiles` |
| `FileSink.RetentionUpperBound` | include/sylog/sink.hpp:105-119 | In both modes, after any number of rotations, n archives and the active file hold at most (n + 1) * max if no single record exceeds max |
| `PatternRenderer.ReplaceAll` | src/renderers/pattern_renderer.cpp:31-37 | The in-place find/replace loop equals leftmost non-overlapping substitution for any value, even one containing the key |
| `PatternRenderer.ReplacedIsSplitJoin` | src/renderers/pattern_renderer.cpp:31-37 | That substitution is splitting on the key and joining with the value |
| `PatternRenderer.PartsHaveNoKey` | src/renderers/pattern_renderer.cpp:31-37 | The split is complete: no part contains the key |
| `PatternRenderer.Render` | src/renderers/pattern_renderer.cpp:28-58 | The nine calls over one buffer are the nine passes and the final newline rule; which field each key stands for is in `PatternNames.NumberTokens`, `PatternNames.TextTokens` and `PatternTheorems.EventRendersAsPromised` |
| `PatternNames.NumberTokens` | src/renderers/pattern_renderer.cpp:41-55 | In every event {severity_priority}, {line} and {tid} on their own render the decimal priority, line and thread id, and a newline |
| `PatternNames.TextTokens` | src/renderers/pattern_renderer.cpp:39-55 | In every event with inert texts {time}, {severity}, {endpoint}, {message}, {file} and {func} on their own render the field of that name |
| `PatternNames.FinalNewline` | src/renderers/pattern_renderer.cpp:57 | Nothing stays nothing, a final newline is not doubled, anything else gets one |
| `PatternNames.TextsInertByName` | src/renderers/pattern_renderer.cpp:47-55 | The texts of an event are inert if and only if each stays clear of the keys, listed by name, that are replaced after its own |
| `PatternTheorems.ParseFlat` | docs/api/renderers_filters.md:8-30 | Parsing a pattern into tokens and literal text loses nothing |
| `PatternTheorems.SequentialIsSimultaneous` | src/renderers/pattern_renderer.cpp:47-57 | With a safe pattern and values inert for the later passes (numbers, and printed times, starting with no character of a key), the nine passes equal one left-to-right expansion |
| `PatternTheorems.EventRendersAsPromised` | src/renderers/pattern_renderer.cpp:28-58 | For an event and a safe pattern the passes give the pattern with every key replaced by the field it names: only texts that later passes could read matter; numbers never do, neither as values nor after a literal |
| `PatternTheorems.BraceFreeRendersAsPromised` | src/renderers/pattern_renderer.cpp:28-58 | No opening brace in the literals and the event's texts is enough |
| `PatternExactness.UnsafeTextBreaks` | src/renderers/pattern_renderer.cpp:47-55 | For every text that is not inert for the passes after its own: a safe pattern, and an event with no other text, that are rendered wrongly |
| `PatternExactness.TextSafeExactly` | src/renderers/pattern_renderer.cpp:47-55 | The text of a token (time, severity, endpoint, message, file, function) is rendered as promised in every event with inert other texts by every safe pattern if and only if it is inert for the later passes |
| `PatternExactness.UnsafePatternBreaks` | docs/api/renderers_filters.md:29-30 | For every pattern that is not safe: an event with inert texts that it renders wrongly |
| `PatternExactness.PatternSafeExactly` | docs/api/renderers_filters.md:29-30 | A pattern is rendered as promised for every event with inert texts if and only if every literal directly followed by the token of a text is inert for the passes after that token's; stated with times as printed by the clock and with arbitrary times |
| `PatternExactness.BraceBeforeToken` | docs/api/renderers_filters.md:29-30 | An opening brace directly before a token is safe if and only if the token stands for a number (or a printed time); a lone opening brace is safe |
| `JsonRoundTrip.StringRoundTrip` | src/renderers/json_renderer.cpp:9-30 | parseString(escape(s) ++ rest) = (s, rest) for every string |
| `JsonRoundTrip.NumberRoundTrip` | src/renderers/json_renderer.cpp:40-41 | Every integer, the 64-bit minimum included, is read back |
| `JsonRoundTrip.FractionalParses` | src/renderers/json_renderer.cpp:42-43 | A number with fraction or exponent is read back as the same text |
| `JsonRoundTrip.ValueRoundTrip` | src/renderers/json_renderer.cpp:32-99 | Printing then parsing any document gives the document and exactly the text after it |
| `JsonRoundTrip.ReadsBackExactly` | src/renderers/json_renderer.cpp:32-99 | A printed document reads back as itself if and only if each of its number tokens has a fraction or an exponent |
| `JsonRenderer.EscapeAppend` | src/renderers/json_renderer.cpp:9-30 | The character loop appends the quoted, escaped string |
| `JsonRenderer.EscapeTable` | src/renderers/json_renderer.cpp:11-26 | Every character from the space on is copied except the quotation mark and the backslash; those and five controls have short forms, every other control becomes u00 and its two hexadecimal digits in lower case |
| `JsonRenderer.PlainEscape` | src/renderers/json_renderer.cpp:19-23 | A text without controls, quotation marks and backslashes is copied byte by byte |
| `JsonRenderer.ValueAppend` | src/renderers/json_renderer.cpp:32-49 | Appends the printed form of the value |
| `JsonRenderer.FieldsAppend` | src/renderers/json_renderer.cpp:86-95 | The field loop appends the object of all fields in order |
| `JsonRenderer.JsonRenderer.Render` | src/renderers/json_renderer.cpp:53-99 | The buffer ends as the printed document of the event under the three flags, and a newline |
| `JsonText.RecordText` | src/renderers/json_renderer.cpp:53-99 | The whole text of a record for every flag setting: keys, order, punctuation and values written out, and the final newline |
| `LogRecovery.DocumentReadsBack` | src/renderers/json_renderer.cpp:53-99 | The document determines time, level, endpoint, message and, as the flags say, tid, source and the ordered fields |
| `LogRecovery.RecordReadsBackExactly` | src/renderers/json_renderer.cpp:53-99 | A record parsed as RFC 8259 says gives the event back, for every flag setting and arbitrary strings, if and only if every rendered double was printed with a fraction or an exponent |
| `LogRecovery.WholeDoubleReadsAsInteger` | src/renderers/json_renderer.cpp:42-43 | The double 1.0 and the integer 1 render to the same record |
| `LogRecovery.RenderedIsRecord` | src/renderers/json_renderer.cpp:53-99 | Every rendering has exactly one newline, and it is last |
| `LogRecovery.FileSplitsIntoRecords` | src/sinks/file_sink.cpp:86-94 | The bytes of a file of records, cut at newlines, are exactly those records |
| `LogRecovery.RetainedLogReadsBack` | src/sinks/file_sink.cpp:86-94 | The retained files, cut at newlines from oldest to newest, are the renderings of the last events written, none missing in between, and each parses back to its event |

## Left out

- `SinkCrossbar` is a step relation on values, not a class: its `submit` and `stop_lanes_` loops advance one lane per step between steps of other threads; aliasing between shared lane objects is represented by generation numbers.
- CrossbarTheorems.LifecycleAgrees: for lifecycle calls that exclude one another; `RouteRace` says exactly when overlapping ones leave lane i with route i. Other effects of overlapping calls, such as two threads inside close, are not modelled.
- CrossbarTheorems.ReplacedQueueIsFrozen: after a forced stop it speaks of a queue that the code may already have destroyed, see the assumptions.
- EventQueue.WorkersEventQueue.PushBlocking: safety only; the schedule of other threads is finite and may end while the producer waits. A notification that misses a waiter is not modelled: a waiter may re-check at any step.
- CrossbarTheorems.StopOnlyWaitsForWorkers: says what a stop waits for, not that a worker inside a blocking sink ever returns.
- Refinement.AsyncRefinesSync: no order between different producers (`Refinement.AsyncWritesInAcceptanceOrder` has it); assumes that the masks hide no wanted event (`MasksSound`); `Refinement.EntryMasksSound` discharges it for masks from up-to-date entries, and `CacheRace` shows when they are not.
- PipelineCache.Pipeline.Submit: the fallback records the event, not the text printed for it; the configuration and `accepting` are fields that other calls set (configure, start, close and request_stop, see `Crossbar`).
- PipelineCache.Pipeline.AddRoute: the cache's side of add_route; the crossbar's reconfiguration is `AddRouteCall` of `Crossbar`.
- PipelineCache.Pipeline.ClearRoutes: the cache's side of clear_routes; the crossbar's reconfiguration is `ClearRoutesCall` of `Crossbar`.
- EventQueue.WorkersEventQueue.Close: the wake-ups of notify_all are not modelled, since a waiter may re-check at any step.
- FileSink.RotatingFileSink.Write: the stream is taken to be open and good, so the reopening and failed-stream branches do not occur.
- Failed opens and renames, stream buffering and flushing.
- Clock, calendar, thread-id hashing and the formatting of doubles.
- `global_min_priority`, which nothing reads, and the empty `worker_loop_`.
- Custom delivery strategies, filters that change after their route was added, subclasses of the built-in filters.
- `ConsoleSink`, `AnsiConsoleRenderer`, benchmarks and examples.
- The queue, threads and stop tokens of the Workers library are not part of this model beyond the contract above.
