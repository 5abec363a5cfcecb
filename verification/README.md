# Verified models of the dispatch core

This project models the in-memory core of a ride dispatcher (spatial index, driver registry, trip state
machine, matching service, hexagonal engine, stdio bridge and trip-store repair) and proves what the parts
promise each other. `dafny verify dfyconfig.toml` checks everything.

## What is modelled

**Spatial index** (`Geometry`, `MinHeap`, `Candidates`, `QuadTree`, `CppQuadtree`). The TypeScript quadtree is a
class over linked nodes with parent pointers, `points` lists and the two id caches, all changed in place. A flat
invariant over the reachable nodes says that the caches, the leaves and the nodes agree; `Contents()` is the
index as a plain map, and every operation's contract is an equation on it, including the out-of-region results.
The placement invariant is "inside the leaf's closed box", because the fast path of `update` tests closed bounds.
`Canonical` (every divided node holds more than `capacity` drivers) is kept by insert, remove and update and
bounds the number of nodes. `Candidates` says what a k-NN answer is without any tree; best-first search over the
binary heap meets it, and so does the C++ search with its own pruning points and tie order, so the two engines
return the same distances.

Distance is an arbitrary function. Exactness of one search needs one fact, `BoundsWithin` with slack 0: from this
query's position, no point of a closed box inside the region is nearer than the point the box is clamped to. It
is proved, for every position and region, for the city-block and the squared Euclidean distance. The comment at
`src/spatial/quadtree.ts:49-52` calls the clamped distance exact; the code does not make it so on a sphere. For
degrees of longitude around the globe `WrapAroundBoundIff` says for which box and position it is, and
`WrapAroundBreaksBound` gives a box for which it is not. For every other distance, haversine included, the
searches promise a sound answer (sorted, truthful, free of duplicates, inside the radius) whose error is that of
the box distances: if those are at most `slack` too large inside the region, each listed distance is within
`slack` of the one at its rank in the exact answer (`NearlyKnnSlack`).

**Registry and trips** (`RegistryModel`, `RegistryRuns`, `DriverRegistry`, `TripModel`, `TripLaws`,
`TripStateMachine`). The classes change records, maps and the audit buffer in place; each method is proved to do to
the object's value what a specification function says, and the theorems are about those functions: the search index
lists exactly the available, unleased drivers, the mirror commands replay to the index, the machine's maps are
bijections with the trips under way, the audit buffer is the tail of the history, each trip's history is a path of
allowed and authorised edges, milestones come in order, and the store does not grow beyond its bound.
`RegistryRuns` gives each driver one row of a table (away, on duty, free, or leased to a request until some time; its
position; when it was heard from) and proves that every operation, and every run of operations, does to every row
what the table says; in every run from the empty registry searches see a driver where its last accepted report says.
`TripLaws` says who may send a trip where and when that succeeds, what a move writes, that a matched ride whose driver
reports arrival, start and completion ends completed, and that the trip displaced by a new one is the oldest that
has ended.

**Dispatch protocol** (`Dispatch`, `DispatchSafety`, `DispatchTheorems`, `DispatchEffects`, `BusyDrivers`,
`DispatchCounterexample`). Any number of offer loops, with a program counter each, interleave with riders, drivers,
timers, eviction, rematch and the clock. A step is one stretch of the program between two awaits. Telemetry cannot
fall between a commit and its assignment, because those are continuations of one turn of the event loop;
cancellations and other loops can. A run is a sequence of such steps from the empty system. In every state of every
run that avoids the first case below, a driver has at most one owner and no owned driver is in the index.
`DispatchEffects` says what each step does for the people in it: an answer decides its offer as given; a driver that
says no is free again and the loop goes on; an answer in time to an unexpired lease matches the trip; completion and
cancellation free the driver where it is; a turn reserves the first untried candidate; a rematch starts a new search.

Three properties of the protocol fail in one kind of case each, and the exact case is proved:

* Cancelling a cancelled trip, or completing a completed one, reports success and frees the driver the trip
  once had. A step keeps drivers safe **if and only if** it does not do this while somebody else holds that driver
  (`StepSafeIffCareful`). `RepeatedCancelIsUnsafe` is a run from the empty system, two rides and one driver,
  that ends with a driver on a trip and in the index.
* A cancellation in the driver's name before assignment stops the offer loop and is then refused by the state
  machine. A step leaves every matching trip with a loop **if and only if** it is not of this kind
  (`StepAttendsIff`). `DriverCancelStrands` is a run from the empty system that does it; the trip it leaves waits
  for ever, because a rematch of a matching trip does nothing. The gateway and the HTTP server never issue such a
  cancellation; `cancelRide` accepts it.
* A rematch takes the driver off its trip without touching the driver's record. A step leaves every busy driver with
  a trip or a commit **if and only if** it is not a rematch of a trip whose driver is busy, nor the registration of a
  new driver as busy (`StepOwnsIff`). `RematchLosesDriver` is a run from the empty system after which a driver is busy
  and nobody has it; neither its own reports nor connecting again bring it back (`ReportsDoNotHelp`).

**Hexagonal engine** (`HexCells`, `HexSearch`, `HexGrid`, `HexMap`). The ring walk is exact, a ball's cells are visited
once each, packed ids are inverted by unpacking, cube rounding lands in the hexagon and on a nearest centre, and
bucket and index agree through both update paths. The search returns the best of the rings before the first one at
which its cut-off holds; a driver on a ring within the search's reach is left out only if k visited drivers in radius
are at most `(ring - 0.5) * hexWidth` away. The answer is exact **if and only if** every other driver in radius has k
drivers of the visited rings at most as far, a condition on the drivers, their cells and the query alone
(`SearchExactIff`).

The code fails it in two ways, both shown with its own pointy-top projection, for any radius, centre and scale. Its
bound is not a lower bound for what lies in a ring: with one driver in the query's cell and one next door, the engine
looks next door exactly if the first is more than half a cell width away (`SearchTwo`), so it can answer with a driver
more than four times as far (`RingCutoffMisses`). And its rings need not reach the search radius: asked for 14 cell
widths it does not find the only driver, 13.9 cell widths away (`RadiusNotReached`). On the other side, the projection
keeps distances in every direction, ring n is at least `1.5 * (n - 4 / 3)` hexagon radii away from ring 2 on
(`RingOnMap`), the rings do reach every radius of up to four cell widths (`EngineReaches`), and a true bound would make
every search exact (`RingBoundSuffices`).

**Bridge** (`Wire`, `BridgeModel`, `Bridge`, `MirrorAgreement`). Two one-way pipes, a queue of promises and an engine
that answers some commands. Replies never cross: in every state of every run an answered promise holds what the engine
said, truthfully, when it read that promise's own command (`EveryAnswerTrue`). Closing settles every waiting promise
exactly once. A command survives being written as words and read back if and only if its ids are words, which the ids
that the server lets through are (`CrossesIff`, `MirrorCrosses`). A failed write drains
the queue of a live engine; that keeps the pairing if and only if nothing was outstanding (`DrainedAliveIff`).
`MirrorAgreement` runs registry, bridge and engine together: the start with its list of inserted drivers, then any
interleaving of registry operations, telemetry batches, questions, lines and replies. The engine is in step with the
search index when it stores, once its pipe drains, exactly the searchable drivers whose ids the wire format can
carry. The start brings it in step if and only if the inserted list matches the index (`StartInStepIff`); registry
operations always keep it so; a batch does if and only if, for every searchable driver with a valid id, the last
position in the region it gives is the one in the index (`BatchKeepsStepIff`), which a tick that reports the positions
it has just recorded does (`RecordedBatchAgrees`). So in every state of every run that starts and batches like that
the engine mirrors the index (`EngineMirrorsIndex`), and the first batch that does not is where they part
(`FirstDisagreement`).

**Trip store** (`TripStore`). The start-up repair as two loops over maps and a set, proved equal to a description
of the repaired store; a repaired store is sound, a repair changes nothing exactly when the store was sound, and
a second repair at the same time reports zero.

Clocks, fresh trip ids, the order of scans, search answers and replies are parameters. Coordinates and distances
are real numbers, times are integers in milliseconds.

## Model

| member | source | states |
|---|---|---|
| Geometry.ManhattanBoundsBelow | src/spatial/quadtree.ts:53-61 | For the city-block distance the clamped distance never exceeds the distance to any point of the closed box |
| Geometry.SquaredEuclidBoundsBelow | src/spatial/quadtree.ts:53-61 | The same for the squared planar distance |
| Geometry.WrapAroundBoundIff | src/spatial/quadtree.ts:53-61 | In degrees of longitude around the globe no point of a box is nearer than the clamped one if and only if the position's longitude lies in the box or the clamped edge is at most as far as the opposite one |
| Geometry.WrapAroundBreaksBound | src/spatial/quadtree.ts:49-61 | So the clamped distance, which the comment there calls exact, is no lower bound for a distance that wraps around the globe |
| MinHeap.MinHeap.Push | src/utils/min_heap.ts:17-20 | The heap order holds again and exactly the pushed value was added |
| MinHeap.MinHeap.Pop | src/utils/min_heap.ts:22-35 | Empty exactly for an empty heap; otherwise a least element, and exactly that one is gone |
| MinHeap.MinHeap.BubbleUp | src/utils/min_heap.ts:37-52 | Repairs a heap that is wrong only at its last element, as a permutation |
| MinHeap.MinHeap.BubbleDown | src/utils/min_heap.ts:54-87 | Repairs a heap that is wrong only at its first element, as a permutation |
| MinHeap.MinHeap.FirstIsLeast | src/utils/min_heap.ts:22-35 | The first element of a heap is at most every other |
| Candidates.InsertSortedCandidate | src/spatial/quadtree.ts:140-165 | The candidate goes behind all equal distances, and the list is cut back to k |
| Candidates.KeptKeepsBest | src/spatial/quadtree.ts:140-165 | Inserting at a rank that keeps the order turns the best of the drivers seen into the best of one more |
| Candidates.Consider | src/spatial/quadtree.ts:389-398 | Looking at one driver of a leaf: the list is the best of one more driver, and nothing beaten before becomes unbeaten |
| Candidates.CppConsider | cpp-engine/Quadtree.hpp:317-335 | The same for the C++ engine, which inserts before equal distances |
| Candidates.KnnLength | src/spatial/quadtree.ts:353-417 | An answer has min(k, drivers in radius) entries |
| Candidates.KnnUnique | src/spatial/quadtree.ts:353-417 | Two answers over the same drivers have equal distance sequences, however they were found |
| Candidates.KnnIsBruteForce | src/spatial/quadtree.ts:353-417 | An answer has the distances of: list all drivers in radius, sort, keep the first k |
| Candidates.NearlyKnnSlack | src/spatial/quadtree.ts:353-417 | If box distances inside the region are at most `slack` too large, every listed distance is within `slack` of the one at its rank in the exact answer, and a list that is not full misses only drivers within `slack` of the radius |
| QuadTree.Node.Subdivide | src/spatial/quadtree.ts:86-132 | Four fresh empty quadrants with the parent's quarter boxes, one level deeper |
| QuadTree.QuadTree.constructor | src/spatial/quadtree.ts:179-185 | An empty tree is valid |
| QuadTree.QuadTree.InsertNode | src/spatial/quadtree.ts:214-242 | Null exactly outside the node's closed box, and then nothing changed; otherwise the driver sits in the returned leaf below the node, no cached leaf goes stale and no node divides without overflowing |
| QuadTree.QuadTree.InsertChild | src/spatial/quadtree.ts:244-256 | A point of a divided node always finds a quadrant that takes it, on split lines too: it ends up below the one chosen by comparing it with the midpoints, north and east on a tie |
| QuadTree.QuadTree.Insert | src/spatial/quadtree.ts:199-212 | The map gains exactly this entry if the position is inside the region, otherwise it loses the driver; caches, placement and canonical shape are kept |
| QuadTree.QuadTree.TakeOut | src/spatial/quadtree.ts:283-299 | Exactly this driver leaves its leaf and both caches |
| QuadTree.QuadTree.TryCollapse | src/spatial/quadtree.ts:307-346 | If only ancestors of the node hold too little, the cascade restores the canonical shape and moves no driver out of the tree |
| QuadTree.QuadTree.Merge | src/spatial/quadtree.ts:320-336 | The quadrants' points become the points of one leaf; every other node is untouched |
| QuadTree.QuadTree.Remove | src/spatial/quadtree.ts:283-305 | Reports whether the driver was stored; the map loses exactly it; shape canonical again |
| QuadTree.QuadTree.Update | src/spatial/quadtree.ts:261-278 | In place or by re-insertion the map gets exactly the new position; false for unknown drivers and outside the region, where the driver is lost |
| QuadTree.QuadTree.MoveInPlace | src/spatial/quadtree.ts:268-273 | The shared point object moves the driver in the map and in its leaf at once |
| QuadTree.QuadTree.NodeBound | src/spatial/quadtree.ts:214-346 | At most 1 + 4 * maxDepth * floor(size / (capacity + 1)) nodes, after any run of operations |
| QuadTree.QuadTree.PopNearest | src/spatial/quadtree.ts:370-372 | The visited node is a nearest queued one and leaves the queue; the search invariant is ready for it |
| QuadTree.QuadTree.AllPruned | src/spatial/quadtree.ts:374-381 | If the nearest queued node cannot improve a full list, nothing left in the queue can |
| QuadTree.QuadTree.Expand | src/spatial/quadtree.ts:399-413 | Replacing a divided node by its quadrants in radius loses no driver that could still be needed |
| QuadTree.QuadTree.KNearestNeighbors | src/spatial/quadtree.ts:353-417 | Always sorted, truthful, distinct and in radius, and no driver is missing that the error of the box distances does not excuse; the k nearest if from this position box distances inside the region bound below; terminates by the unvisited nodes |
| CppQuadtree.Insert | cpp-engine/Quadtree.hpp:255-277 | Refuses positions outside the region before touching anything; otherwise the map gains exactly this entry |
| CppQuadtree.Remove | cpp-engine/Quadtree.hpp:197-222 | The map loses exactly the driver, without collapsing |
| CppQuadtree.Update | cpp-engine/Quadtree.hpp:229-253 | Unlike the TypeScript engine it keeps the old entry when the new position is outside the region |
| CppQuadtree.Turn | cpp-engine/Quadtree.hpp:305-356 | One turn of the queue loop keeps the search invariant and visits a new node, or stops with the final answer |
| CppQuadtree.KNearestNeighbors | cpp-engine/Quadtree.hpp:279-358 | The same promise for positive k and radius, exactness for this position and region included; empty for non-positive ones |
| CppQuadtree.EnginesAgree | cpp-engine/Quadtree.hpp:279-358 | Both engines return the same distances exactly when k is not positive, the radius is positive, or nobody is in radius |
| RegistryModel.UpdateLocationOk | src/core/driver_registry.ts:117-154 | Accepted exactly for known drivers at valid positions of the region; the registry invariant and all other drivers are kept |
| RegistryModel.LocationRecorded | src/core/driver_registry.ts:117-154 | An accepted position is the driver's position from then on, in its record and for searches; it was heard from now, keeps its status, and loses its lease exactly if that has run out |
| RegistryModel.RegisterDriverOk | src/core/driver_registry.ts:85-114 | Registration keeps: indexed iff available and unleased, coordinates equal, available only inside the region, mirror replays to the index |
| RegistryModel.SetStatusOk | src/core/driver_registry.ts:157-184 | A status change keeps the registry invariant and all other drivers |
| RegistryModel.AcquireLockOk | src/core/driver_registry.ts:187-234 | Leasing keeps it |
| RegistryModel.ReleaseLockOk | src/core/driver_registry.ts:236-262 | Releasing keeps it |
| RegistryModel.CommitTripOk | src/core/driver_registry.ts:265-291 | Committing keeps it |
| RegistryModel.CleanExpiredLockOk | src/core/driver_registry.ts:350-360 | Lease expiry keeps it |
| RegistryModel.EvictStaleOk | src/core/driver_registry.ts:325-340 | Eviction keeps it |
| RegistryModel.EvictStaleExact | src/core/driver_registry.ts:325-340 | Exactly the drivers silent for longer than the timeout go offline, lose their lease and their index entry, and are reported |
| RegistryModel.LeaseExclusive | src/core/driver_registry.ts:187-262 | A lease hides its driver, is refused to others exactly until it expires, and its release brings the driver back |
| RegistryModel.NoTheft | src/core/driver_registry.ts:236-291 | A release or commit never changes a lease naming another request |
| RegistryModel.CommitExact | src/core/driver_registry.ts:265-291 | A commit succeeds exactly for the holder of an unexpired lease; a late holder loses the lease and the driver is found again |
| RegistryModel.ReconnectChangesNothing | src/core/driver_registry.ts:84-95 | Registering again leaves the index, the mirror's commands and every lease alone, and no later lease or commit of the driver comes out differently |
| RegistryModel.HeardFromSurvives | src/core/driver_registry.ts:325-340 | A driver survives an eviction that scans it if and only if it is offline or was heard from within the timeout |
| RegistryModel.RegistrationSurvives | src/core/driver_registry.ts:85-114 | Registration, also of a known driver, counts as hearing from it |
| RegistryModel.LocationSurvives | src/core/driver_registry.ts:117-154 | So does every accepted position |
| RegistryModel.AvailableAgain | src/core/driver_registry.ts:156-184 | When a driver can be made available again, and when it is then found |
| RegistryRuns.OpKeeps | src/core/driver_registry.ts:46-61 | Every registry operation keeps the registry's invariant and only adds to what the mirror is told |
| RegistryRuns.OpRefines | src/core/driver_registry.ts:85-340 | Every operation does to every driver's row exactly what the life of a driver says, and tells its caller whether it was granted |
| RegistryRuns.RunRefines | src/core/driver_registry.ts:85-340 | However many operations interleave, each driver's row is what its own life makes of them |
| RegistryRuns.SearchSeesLastReport | src/core/driver_registry.ts:117-154 | In every state of every run from the empty registry a driver's record, and its index entry if it has one, has its last accepted position |
| DriverRegistry.DriverRegistry.RegisterDriver | src/core/driver_registry.ts:85-114 | The object does what the specification function says, record identity included, and with it the table of drivers' lives |
| DriverRegistry.DriverRegistry.UpdateLocation | src/core/driver_registry.ts:117-154 | The mutable registry with its quadtree refines the specification and the table; on success the record has the new position and time, and searches find the driver there if it is free |
| DriverRegistry.DriverRegistry.SetStatus | src/core/driver_registry.ts:157-184 | Refines the specification, and with it the table of drivers' lives |
| DriverRegistry.DriverRegistry.AcquireLock | src/core/driver_registry.ts:187-234 | Refines the specification, and with it the table of drivers' lives |
| DriverRegistry.DriverRegistry.ReleaseLock | src/core/driver_registry.ts:236-262 | Refines the specification, and with it the table of drivers' lives |
| DriverRegistry.DriverRegistry.CommitTrip | src/core/driver_registry.ts:265-291 | Refines the specification, and with it the table of drivers' lives |
| DriverRegistry.DriverRegistry.EvictStaleDrivers | src/core/driver_registry.ts:325-340 | The loop refines the specification and returns exactly the evicted ids, and with it the table of drivers' lives |
| DriverRegistry.DriverRegistry.FindNearbyCandidates | src/core/driver_registry.ts:298-320 | Answers from the current index: sound always, the k nearest if from this position box distances inside the region bound below |
| DriverRegistry.DriverRegistry.IdxUpdate | src/core/driver_registry.ts:52-56 | The mirror hears of an update exactly when the primary index accepted it |
| TripModel.CreateTripOk | src/core/trip_state_machine.ts:86-168 | With a fresh trip id creation keeps the maps exact, the size bound, the audit window and the chained history |
| TripModel.ReplayFinds | src/core/trip_state_machine.ts:92-106 | A known request id always has a stored trip; it is returned to its own rider and changes nothing |
| TripModel.TransitionOk | src/core/trip_state_machine.ts:174-319 | Any call of transition keeps all of it |
| TripModel.MovedShape | src/core/trip_state_machine.ts:241-301 | A successful move changes one trip, the rider's entry only when the trip ends, and the driver's entry as the new driver says |
| TripModel.ActiveMapsAreBijections | src/core/trip_state_machine.ts:74-76 | Rider and driver maps correspond one to one with the trips under way and their drivers, request ids with the stored trips |
| TripModel.MakeRoomSize | src/core/trip_state_machine.ts:143-152 | After eviction the store is below its capacity or holds no more trips than are or were under way together |
| TripModel.RecordLog | src/core/trip_state_machine.ts:411-416 | The audit buffer stays the last 2000 events, and the history stays a path of allowed, authorised edges per trip |
| TripModel.NeverCancelledOnBoard | src/core/trip_state_machine.ts:67-70 | After a trip is in progress its only later event is completion |
| TripModel.MovesBounded | src/core/trip_state_machine.ts:61-70 | A trip moves at most 6 times plus 4 per rematch, by a rank that every other move raises |
| TripModel.TransitionStampsOk | src/core/trip_state_machine.ts:241-301 | Every trip has exactly the milestones of its status, in time order |
| TripModel.CreateStampsOk | src/core/trip_state_machine.ts:125-141 | A new trip has no milestone |
| TripLaws.MovesIff | src/core/trip_state_machine.ts:174-240 | A move succeeds exactly along the listed edges, for the listed roles, and for a match with a driver who is on no trip and whose name is not blank; the trip then has the target status, and a failure changes nothing |
| TripLaws.RefusalIff | src/core/trip_state_machine.ts:174-240 | Which refusal a caller gets: unknown trip, repetition, no such edge, wrong role, no driver, driver on another trip, in this order |
| TripLaws.MoveWrites | src/core/trip_state_machine.ts:241-301 | A move writes the target's own time stamp (and driver, canceller, reason) into one trip, appends one event, and gives rider and driver back exactly when the trip ends or is rematched |
| TripLaws.RideCompletes | src/core/trip_state_machine.ts:332-347 | A matched trip whose driver reports departure (or not), arrival, start and completion ends completed, with every time stamp; rider and driver are free for other trips |
| TripLaws.BackToMatching | src/core/trip_state_machine.ts:356-358 | A trip with a driver goes back to matching exactly from en route or arrived, and is then as before the match |
| TripLaws.RiderCancelsIff | src/core/trip_state_machine.ts:348-355 | A rider can cancel until the ride begins and only then; the trip is then over in the rider's name and nobody is on it |
| TripLaws.CreatesIff | src/core/trip_state_machine.ts:86-168 | A request is taken exactly if it is new, both points are on the globe and the rider is free; the new trip and the maps say so |
| TripLaws.EvictsOldestEnded | src/core/trip_state_machine.ts:143-152 | A new trip displaces another exactly when 10000 are stored and one has ended: the first of those in the order of the map, with its request |
| TripLaws.NoEndedOlder | src/core/trip_state_machine.ts:143-152 | While the map is in order of age that is the oldest: no ended trip was created before it |
| TripLaws.CreateKeepsAge | src/core/trip_state_machine.ts:86-168 | Creation keeps the map in order of age |
| TripLaws.MoveKeepsAge | src/core/trip_state_machine.ts:174-319 | So does every move |
| TripStateMachine.TripStateMachine.CreateTrip | src/core/trip_state_machine.ts:86-168 | The object refines the specification, eviction in insertion order included |
| TripStateMachine.TripStateMachine.FindTerminal | src/core/trip_state_machine.ts:145-151 | Finds the oldest ended trip |
| TripStateMachine.TripStateMachine.Transition | src/core/trip_state_machine.ts:174-319 | The object refines the specification: same refusals in the same order, same fields and maps |
| TripStateMachine.TripStateMachine.RecordEvent | src/core/trip_state_machine.ts:411-416 | Refines the specification of the audit buffer |
| DispatchSafety.StepKeeps | src/core/matching_service.ts:84-477 | Every enabled step keeps the protocol invariant, unless it frees somebody else's driver |
| DispatchSafety.CommitKeeps | src/core/matching_service.ts:377-406 | A commit takes the driver from the lease to this loop alone |
| DispatchSafety.AssignSucceeds | src/core/matching_service.ts:384-388 | The assignment after a commit succeeds exactly when the trip is still matching and the driver id is not blank |
| DispatchSafety.LiveLoopsTrip | src/core/matching_service.ts:259-284 | A stored trip with a live loop is that loop's, matching or cancelled, and has no driver: no second loop can start |
| DispatchSafety.TelemetryKeeps | src/gateway/ws_manager.ts:225-259 | Auto-registration, movement and reactivation of offline drivers without a trip keep the invariant |
| DispatchSafety.SocketCloseKeeps | src/gateway/ws_manager.ts:80-87 | Going offline on disconnect keeps it |
| DispatchSafety.MilestoneKeeps | src/gateway/ws_manager.ts:333-362 | Driver milestones and completion keep it |
| DispatchTheorems.EveryStateSafe | src/core/matching_service.ts:311-440 | In every run of careful steps (see StepSafeIffCareful), every driver has at most one owner (lease, commit or trip) and no owned driver is in the search index |
| DispatchTheorems.StepSafeIffCareful | src/core/matching_service.ts:203-214 | A step keeps drivers safe if and only if it does not cancel or complete a trip again while somebody else has its driver |
| DispatchCounterexample.RepeatedCancelIsUnsafe | src/core/matching_service.ts:186-221 | A run of the empty system reaches a state in which a rider's repeated cancellation makes a driver on a trip searchable |
| DispatchCounterexample.DriverCancelStrands | src/core/matching_service.ts:186-221 | A run of the empty system reaches a state in which a driver-role cancellation leaves a matching trip without a loop; the loop's end is reachable too, and no rematch then changes anything |
| DispatchTheorems.CommitThenMatched | src/core/matching_service.ts:377-395 | In every such run a commit is followed by a successful assignment unless its rider cancels in between or the driver's id is blank |
| DispatchTheorems.RollbackFreesNobodysDriver | src/core/matching_service.ts:396-397 | The driver a rollback frees belongs to nobody but that commit |
| DispatchTheorems.NoLeaseLeak | src/core/matching_service.ts:358-439 | A lease always names a live loop that holds exactly this driver: none survives its loop |
| DispatchTheorems.LeaseKept | src/core/matching_service.ts:186-221 | A lease ends only by its own loop or cancellation, the driver's disconnect or staleness, or expiry |
| DispatchTheorems.RequestStartsLoopIff | src/core/matching_service.ts:84-137 | A new request starts a loop exactly when its points are valid and its rider is free; the loop has the request's pickup and a 30 s deadline, and a refused request changes nothing |
| DispatchTheorems.GiveUpCancels | src/core/matching_service.ts:425-434 | A loop that runs out cancels its trip in the system's name, with the reason that fits whether it found a candidate |
| DispatchTheorems.OffersBounded | src/core/matching_service.ts:321-361 | A loop makes at most k offers, to different drivers |
| DispatchTheorems.LeasesNearestUntried | src/core/matching_service.ts:334-356 | If the search answers with the k nearest, the driver a turn leases is an untried one in the radius, and no untried one in the radius is nearer |
| DispatchTheorems.ExhaustedMeansAllTried | src/core/matching_service.ts:334-342 | Given k nearest neighbours, stopping for lack of candidates means every driver in the radius was tried |
| DispatchTheorems.LoopsMakeProgress | src/core/matching_service.ts:321-423 | Every step of a loop ends it or lowers its remaining work, and no other step raises it |
| DispatchTheorems.OfferTiming | src/core/matching_service.ts:327-349 | Offers are open for at least min(1000, offerTimeoutMs), overrun the 30 s budget by at most the publication delay, and are outlived by their lease exactly when lock to publication took less than 3000 ms |
| DispatchTheorems.AcceptFindsLease | src/core/matching_service.ts:164-180 | An answer before the deadline finds its lease unexpired and commits; a later one counts as a timeout |
| DispatchTheorems.StepAttendsIff | src/core/matching_service.ts:425-438 | A step leaves every matching trip with a working loop if and only if it is not a driver-role cancellation before assignment |
| DispatchTheorems.EveryStateAttended | src/core/matching_service.ts:311-440 | In such a run without such a cancellation no trip waits without a loop |
| DispatchEffects.ResponseDecides | src/core/matching_service.ts:143-181 | The answer of the offer's driver before the deadline decides the offer as given: accepted if and only if it says so; afterwards it counts as a timeout; the offer is closed and nothing else changes |
| DispatchEffects.StrangersIgnored | src/core/matching_service.ts:154-166 | Anybody else's answer, or one to a closed offer, changes nothing |
| DispatchEffects.TimerTimesOut | src/core/matching_service.ts:454-457 | The timer closes the offer as not answered |
| DispatchEffects.DeclinedGoesOn | src/core/matching_service.ts:408-421 | After a rejection or timeout the loop is at its next turn, the trip still waits, and the driver is free where it is if its lease had not gone otherwise |
| DispatchEffects.RejectionFrees | src/core/matching_service.ts:143-181 | From a driver's no: one step of the loop later the driver is free, on no trip, and the search goes on |
| DispatchEffects.AcceptedCommitsIff | src/core/matching_service.ts:377-406 | A yes takes the driver off the market exactly while its lease lasts; otherwise the loop unwinds and a driver whose lease ran out is free |
| DispatchEffects.CommitMatches | src/core/matching_service.ts:384-397 | The trip gets the committed driver and the loop ends; with a blank id the driver is free again and the loop goes on |
| DispatchEffects.AcceptanceMatches | src/core/matching_service.ts:143-395 | From a driver's yes in time to an offer published within 3000 ms of its lease: the trip is matched, the driver busy and not found, the loop over |
| DispatchEffects.CompletionFrees | src/gateway/ws_manager.ts:357-362 | When its driver completes a trip in progress it is completed, and the driver is available, unlocked and indexed at its recorded position; nobody else's record changes |
| DispatchEffects.CancellationFrees | src/core/matching_service.ts:203-214 | The same for a cancellation, by whomever, of a trip that is matched, en route or arrived |
| DispatchEffects.CancelRevokesOffer | src/core/matching_service.ts:186-202 | Cancelling while an offer is open closes it and frees its driver at once |
| DispatchEffects.RevokedTripCancelled | src/core/matching_service.ts:203-220 | Then the trip is cancelled in the canceller's name |
| DispatchEffects.CancelStopsSearch | src/core/matching_service.ts:186-221 | Without an open offer the trip is cancelled at once, and its loop is told |
| DispatchEffects.AbortedLoopEnds | src/core/matching_service.ts:321-375 | A loop that was told ends when it next looks, and gives back what it holds |
| DispatchEffects.TurnLeasesIff | src/core/matching_service.ts:321-361 | A turn ends the loop exactly when its turns, its time or its candidates are used up or it was cancelled; otherwise it leases the first untried candidate for the offer's time and 3000 ms |
| DispatchEffects.OfferOpens | src/core/matching_service.ts:445-466 | The offer goes to the leased driver, whom the loop had not asked before, until now plus the turn's time |
| DispatchEffects.RematchIff | src/core/matching_service.ts:262-300 | A rematch of a trip en route or arrived takes its driver off and starts a search around the pickup point for 30 s; on any other trip it does nothing |
| DispatchEffects.MilestoneIff | src/gateway/ws_manager.ts:340-356 | A report of the trip's own driver moves it exactly along the ride; anybody else's does nothing |
| DispatchEffects.TelemetryIff | src/gateway/ws_manager.ts:207-250 | Which reports are taken, what they write, and exactly when a driver is free afterwards because it was new or offline |
| DispatchEffects.SocketCloseIff | src/gateway/ws_manager.ts:82-87 | A driver whose connection closes goes offline and loses its lease, unless it is on a trip |
| DispatchEffects.EvictionIff | src/core/driver_registry.ts:325-340 | Exactly the scanned drivers silent for too long go offline and lose their lease; trips and loops are left alone |
| DispatchEffects.ConnectionIff | src/core/driver_registry.ts:85-114 | A new driver gets the status it asks for, offline instead of available outside the region; a known one is only heard from |
| DispatchEffects.ExpiredLeaseReturns | src/core/driver_registry.ts:350-360 | A lease nobody gives back hides its driver until, and only until, the first position reported after its end |
| BusyDrivers.StepOwnsIff | src/core/matching_service.ts:262-300 | A step leaves every busy driver on a trip or committed if and only if it is neither a rematch of a trip with a busy driver nor the registration of a new driver as busy |
| BusyDrivers.EveryBusyOwned | src/core/matching_service.ts:311-440 | In every state of every careful run without such steps every busy driver has an owner |
| BusyDrivers.RematchLosesDriver | src/core/matching_service.ts:262-300 | A run of the empty system reaches a state in which a rematch leaves a driver busy and with nobody |
| BusyDrivers.ReportsDoNotHelp | src/gateway/ws_manager.ts:225-250 | Neither telemetry nor a new connection makes such a driver available |
| HexCells.UnpackInvertsPack | cpp-engine/HexGrid.hpp:65-73 | Unpacking inverts packing on 32-bit signed pairs |
| HexCells.PackInvertsUnpack | cpp-engine/HexGrid.hpp:65-73 | Packing inverts unpacking on 64-bit ids |
| HexCells.WalkRing | cpp-engine/HexGrid.hpp:238-253 | The nested loops list the ring's packed cells and end where they began |
| HexCells.RingWalkExact | cpp-engine/HexGrid.hpp:216-253 | 6n different cells, precisely those at hex distance n |
| HexCells.BallExact | cpp-engine/HexGrid.hpp:221-253 | Walking rings 0 to n visits each cell within distance n exactly once and no other, 3n(n + 1) + 1 of them |
| HexCells.RingApart | cpp-engine/HexGrid.hpp:221-253 | A cell within m steps is on no ring further out, so no later ring meets it again |
| HexCells.PackedBallDistinct | cpp-engine/HexGrid.hpp:65-68 | Packed ids of a ball stay different, wrap-around included |
| HexCells.CubeRoundInHexagon | cpp-engine/HexGrid.hpp:81-106 | Cube rounding lands in a hexagon that contains the point, ties included |
| HexCells.HexagonIsNearest | cpp-engine/HexGrid.hpp:81-106 | The centre of such a hexagon is a nearest cell centre |
| HexGrid.HexGrid.Insert | cpp-engine/HexGrid.hpp:138-149 | The map gains exactly this entry, and its record lies in the bucket of its cell, once |
| HexGrid.HexGrid.Remove | cpp-engine/HexGrid.hpp:150-170 | Index and bucket both lose exactly the driver |
| HexGrid.HexGrid.Update | cpp-engine/HexGrid.hpp:172-203 | Within the cell or across cells the map gets exactly the new position and the buckets stay exact |
| HexGrid.NextRing | cpp-engine/HexGrid.hpp:221-253 | A ring's packed cells are different and were in no earlier ring, so no driver is met twice |
| HexGrid.HexGrid.KNearestNeighbours | cpp-engine/HexGrid.hpp:205-283 | The best k in radius of the rings before the first one at which the cut-off holds, nothing more and nothing less; exact if and only if every other driver in radius has k of those at most as far; who is left out on a ring n within reach has k visited drivers in radius at most (n - 0.5) * hexWidth away |
| HexSearch.StopRingIsFirst | cpp-engine/HexGrid.hpp:221-232 | The search stops at the least ring that is cut off, or after the last one |
| HexSearch.BeatenIffEnoughNear | cpp-engine/HexGrid.hpp:223-232 | Comparing the last entry of a full list with a distance tells whether k of the drivers seen are in radius and at most that far |
| HexSearch.CutsOffMeans | cpp-engine/HexGrid.hpp:223-232 | Ring n is cut off exactly if n > 0 and k drivers of the rings before it are in radius and at most (n - 0.5) * hexWidth away |
| HexSearch.LeftOutForNearer | cpp-engine/HexGrid.hpp:221-232 | A driver on a ring within reach that is not visited is on ring 1 or further, and k visited drivers are within that ring's edge |
| HexSearch.SearchExactIff | cpp-engine/HexGrid.hpp:223-232 | Any best list over the rings before that one is the exact answer if and only if every driver in radius outside them has k drivers inside them at most as far |
| HexSearch.RingBoundSuffices | cpp-engine/HexGrid.hpp:223-232 | If the bound were true of every ring, and the last ring reached the radius, that condition would hold for every query |
| HexSearch.RingGap | cpp-engine/HexGrid.hpp:223-232 | Points of hexagons n >= 2 steps apart are at least sqrt(3) / 2 * (n - 4 / 3) cell widths apart |
| HexMap.ProjectionKeepsDistance | cpp-engine/HexGrid.hpp:75-90 | The pointy-top projection keeps distances on the map, in every direction, up to scale |
| HexMap.RingOnMap | cpp-engine/HexGrid.hpp:223-232 | From ring 2 on ring n is at least 1.5 * (n - 4 / 3) hexagon radii away on the map |
| HexMap.EngineReaches | cpp-engine/HexGrid.hpp:220-221 | For a search radius of up to four cell widths the rings reach every driver in radius |
| HexMap.SearchTwo | cpp-engine/HexGrid.hpp:205-283 | With one driver in the query's cell and one in the next, the engine answers with the nearer exactly unless the first is within half a cell width and the second nearer |
| HexMap.RingCutoffMisses | cpp-engine/HexGrid.hpp:205-283 | So with the engine's projection of any radius, centre and scale it answers k = 1 with the farther of two drivers |
| HexMap.FarInCellFindsNeighbour | cpp-engine/HexGrid.hpp:205-283 | And with the nearer one, next door, when the driver in the cell is 0.85 of its width away |
| HexMap.RadiusNotReached | cpp-engine/HexGrid.hpp:220-221 | Asked for 14 cell widths and any k, the engine answers with nobody although its one driver is 13.9 away |
| BridgeModel.StepKeeps | src/spatial/cpp_spatial_bridge.ts:70-141 | Whatever server and engine do, waiting promises match the replies under way in order, and each settled promise has an answer to its own command |
| BridgeModel.EveryStatePaired | src/spatial/cpp_spatial_bridge.ts:45-141 | So they match in every state of every run from a new engine process on |
| BridgeModel.LineFindsItsPromise | src/spatial/cpp_spatial_bridge.ts:70-75 | The promise a line settles is the one its command was sent with |
| BridgeModel.CloseSettlesAll | src/spatial/cpp_spatial_bridge.ts:94-128 | Exit or stop settles every waiting promise as failed and touches no other |
| BridgeModel.SettledOnce | src/spatial/cpp_spatial_bridge.ts:70-128 | A settled promise keeps its outcome |
| BridgeModel.OutcomeStays | src/spatial/cpp_spatial_bridge.ts:70-128 | And in every later state of any run |
| BridgeModel.EveryAnswerTrue | src/spatial/cpp_spatial_bridge.ts:70-141 | In every state of every run an answered promise holds the reply the engine gave, truthfully, when it read the command that promise was made for |
| BridgeModel.LineSettlesOldest | src/spatial/cpp_spatial_bridge.ts:70-92 | A line gives the oldest promise its reply, or failure if it is garbled, and changes nothing else |
| BridgeModel.EmptyPipesSettleAll | src/spatial/cpp_spatial_bridge.ts:70-141 | Once both pipes are empty no promise is waiting |
| BridgeModel.DrainedAliveIff | src/spatial/cpp_spatial_bridge.ts:60-63 | Draining the queue of a live engine keeps the pairing if and only if nothing was waiting |
| BridgeModel.ForwardKeeps | src/spatial/cpp_spatial_bridge.ts:167-197 | Telling the engine of a change of the index keeps promises and replies paired |
| Wire.JoinSurvivesIff | cpp-engine/engine_bridge.cpp:32-34 | Strings joined by spaces are read back by stream extraction if and only if each is a non-empty word |
| Wire.CrossesIff | cpp-engine/engine_bridge.cpp:36-118 | A command written and read back is the same command if and only if its ids are words |
| Wire.ValidIdCrosses | src/spatial/cpp_spatial_bridge.ts:28-32 | The ids the server lets through are words and need no escape in the engine's replies |
| Wire.MirrorCrosses | src/spatial/cpp_spatial_bridge.ts:159-197 | So every command for a change of the index or a batch arrives as it was sent |
| MirrorAgreement.StartInStepIff | src/server.ts:171-176 | The start brings the engine in step with an index if and only if, for every valid id, the last in-region entry of the inserted list is the index's entry |
| MirrorAgreement.BatchKeepsStepIff | src/server.ts:183-186 | A telemetry batch keeps it in step if and only if it gives no searchable driver with a valid id another last in-region position than the index |
| MirrorAgreement.RecordedBatchAgrees | src/simulation/driver_simulator.ts:150-235 | A batch of positions the registry has recorded, out-of-region ones aside, is such a batch |
| MirrorAgreement.EventAgreesIff | src/spatial/cpp_spatial_bridge.ts:130-220 | Of registry operations, batches, questions, lines and replies, exactly the batches that disagree with the index part engine and index |
| MirrorAgreement.EngineMirrorsIndex | src/core/driver_registry.ts:46-61 | In every state of every run with a matching start and agreeing batches, the engine stores, once its pipe drains, exactly the searchable drivers with valid ids at their indexed positions |
| MirrorAgreement.FirstDisagreement | src/server.ts:183-186 | Up to the first batch that disagrees all is well, and after it it is not |
| Bridge.CppSpatialBridge.SendCommand | src/spatial/cpp_spatial_bridge.ts:130-141 | Queues a promise and writes, or fails the promise at once |
| Bridge.CppSpatialBridge.BatchUpdate | src/spatial/cpp_spatial_bridge.ts:178-191 | Writes one command with exactly the valid updates, without a promise |
| BridgeModel.ValidUpdates | src/spatial/cpp_spatial_bridge.ts:183-184 | Exactly the updates whose ids are valid |
| Bridge.CppSpatialBridge.OnLine | src/spatial/cpp_spatial_bridge.ts:70-92 | One line settles the oldest promise, a garbled one as failed |
| Bridge.CppSpatialBridge.Stop | src/spatial/cpp_spatial_bridge.ts:222-234 | Writes QUIT without a promise, and fails every waiting one |
| Bridge.CppSpatialBridge.OnExit | src/spatial/cpp_spatial_bridge.ts:94-128 | The engine's exit makes the bridge unavailable and fails every waiting promise |
| Bridge.EngineBridge.Handle | cpp-engine/engine_bridge.cpp:36-149 | Each command does to the tree what the specification says, and replies exactly if it is a replying one, truthfully |
| TripStore.RedisTripStore.ReconcileOrphanedTrips | src/core/redis_trip_store.ts:111-192 | The two loops produce exactly the repaired store, and count the bad keys and dead entries |
| TripStore.RepairedIsSound | src/core/redis_trip_store.ts:111-192 | From any contents: only stored, unfinished, recent trips are active, and rider keys point at such trips |
| TripStore.RepairOfTrips | src/core/redis_trip_store.ts:111-192 | Exactly the active trips that are stored, under way and not too old stay active; those too old become cancelled with the stated reason and time, and no other trip changes |
| TripStore.RepairOfKeys | src/core/redis_trip_store.ts:124-189 | A rider's key is kept exactly if it points at a trip that stays active and every active trip of the rider stays |
| TripStore.BadKeysRemoved | src/core/redis_trip_store.ts:124-160 | The first part of the report is the number of keys that do not point at a trip that stays active |
| TripStore.DeadIdsRemoved | src/core/redis_trip_store.ts:162-191 | The second is the number of trips that leave the active set |
| TripStore.SoundIffUnchanged | src/core/redis_trip_store.ts:111-192 | A repair changes nothing if and only if the store is sound |
| TripStore.ReportsZeroIffSound | src/core/redis_trip_store.ts:124-191 | A repair reports zero if and only if the store is sound |
| TripStore.SecondRepairIsIdle | src/core/redis_trip_store.ts:111-192 | A second repair at the same time changes nothing and reports zero |
| TripStore.LiveTripKeepsItsKeyIff | src/core/redis_trip_store.ts:162-189 | A live trip survives; its rider's key does exactly when no other trip of the rider is cleaned up |
| TripStore.RedisTripStore.SaveTrip | src/core/redis_trip_store.ts:223-239 | Stores the trip; one that has ended leaves the active set and frees its rider |
| TripStore.SavedExact | src/core/redis_trip_store.ts:223-239 | The saved trip is stored as it is and active exactly while it is under way; an ended one takes its rider's key along; nothing else changes |
| TripStore.SaveKeepsSound | src/core/redis_trip_store.ts:223-239 | Saving keeps a sound store sound exactly unless an ended trip is still named by another rider's key |

## Left out

- Rounding, NaN and infinite coordinates, and haversine itself: coordinates are reals and distance is a parameter.
- Redis-backed locks, trip creation across processes and the Lua scripts: the registry and the matching service are modelled without `redisLock` and `tripStore`.
- The region reset and the driver simulator as protocol steps: trips in progress survive a reset, and the simulator frees drivers without looking at the trip's result.
- The matching service as an object with fields: its maps are fields of one state value, because the subject is the interleaving of its awaits; each step is one stretch between two of them.
- A request id that is submitted afresh while its own cancelled trip has been evicted and its old loop still unwinds: this takes ten thousand other trips in one turn of the event loop, and the request step excludes it.
- Trip ids are assumed fresh, as random UUIDs are.
- Boundedness of `abortedRequests`: a cancellation after the loop's end leaves an entry.
- Search answers in the offer loop are only assumed sound, as the quadtree's always are; the two properties about nearest candidates assume k nearest neighbours, which it provides under the bound on the distance.
- Metrics, events to listeners, WebSocket and HTTP plumbing, authorisation, the user interface and the drawing quadtree of the front end.
- In `QuadTree`, negative capacities and depths; in `CppQuadtree`, memory freeing, and its nodes carry the parent pointer they do not have in C++.
- CppQuadtree.Turn: any nearest queued node may be taken; the order of the standard library's queue among equal distances is not modelled.
- HexGrid.HexGrid.KNearestNeighbours: exactness for every query is false (`RingCutoffMisses`, `RadiusNotReached`) and its exact condition is proved instead; the projection to axial coordinates is an arbitrary function, and where it is the engine's the square root of three is given by its square.
- HexCells.CubeRoundInHexagon: conversion of out-of-range values to 32-bit integers is undefined in C++ and not modelled.
- Restarting the bridge after a stop, while lines of the old engine process may still arrive.
- MirrorAgreement.EngineMirrorsIndex: runs go on as long as the bridge stays available; exit, stop and failed writes are steps of `BridgeModel` only. A reset of the region is the start of a new run, from any state of the pipe.
- BridgeModel.DrainedAliveIff: what happens to replies after a failed write on a live engine, beyond that they no longer pair up.
- TripStore.RedisTripStore.ReconcileOrphanedTrips: changes by other processes during the repair, expiry of keys, and trip ids that collide with the name of the active set.
- Wire.CrossesIff: how numbers are written as words is a parameter that loses nothing; what the engine does with lines the server never writes, and the text of replies, are not modelled.
