# Nexus Logistics: verified models

Dafny models of the four stateful cores of the Nexus Logistics platform, with proofs of what they keep.
`dafny verify dfyconfig.toml` checks everything.

**Route optimizer** (`nexus-logistics-optimizer/src/optimizer/vrp.rs`). `Solver.dfy` is the optimizer in its own
form: savings in nested loops, the greedy merge over the tables `route_of`, `routes` and `loads` in place, route
objects on vehicles taken in turn, 2-opt rewriting each route object, the totals. It is proved against pure
definitions: `Tours.dfy` (the length of a closed tour, what joining and reversing do to it), `Savings.dfy` (the ranked
list, which the request determines), `Merging.dfy` (one merge step, its invariant, greedy maximality), `Planning.dfy`
(conservation, distance bound, route count, vehicle limits), `TwoOpt.dfy` (accepted moves, termination, local
optimality, and that the scan order leaves one result), `Rotation.dfy` (taking turns) and `Solutions.dfy` (what a sender
may rely on, end to end: what each returned route says of the stops it lists, and that the request determines the
solution). Three modules say exactly when a property that
can fail does hold, each with requests that fail: `Maximality.dfy` (for every list of demands, with the failing requests
in `HeavyThird.dfy` and `TwoPairs.dfy` on the places of `Hubs.dfy`), `FleetSafety.dfy` (equal limits) and
`NeighbourSwaps.dfy` (routes of at most two stops). Distance is a parameter; non-negativity, symmetry and the triangle
inequality are asked for only where used, and the failing requests satisfy all three.

**Rate limiter** (`nexus-backend/internal/api/middleware/common.go`). `TokenBucket.dfy` is one lazily refilled bucket:
the closed form of its tokens over the whole history, exactly when a request is admitted, and the window bound, for any
order in which requests get the lock. `Eviction.dfy` interleaves many clients and the evictor step by step: a request
reads the clock, looks its bucket up, and takes under the lock; the evictor looks under the lock, and deletes after
releasing it. It proves what every interleaving keeps, and that evictions change no answer in orderly runs: a client
does nothing between a stale finding and its deletion, no deletion falls into one of its requests, a new bucket is made
for the earliest stamp in flight, and a request is served within four windows of its stamp. `EvictionRaces.dfy` has,
for every limit of at least one, a run for each of these conditions that breaks it and gets different answers.
`RateLimiter.dfy` is the shared table of bucket objects, and `Handling.dfy` shows that requests handled one after the
other are the steps of the interleaved model and that each client is served as from a bucket of its own.

**Shipment service** (`nexus-backend/internal/service/shipment_service.go`). `Shipments.dfy` is the protocol: each
repository, cache or chain call is one atomic step, calls keep the snapshots they hold, and any call may fail with or
without having taken effect. `ShipmentSafety.dfy` proves what every interleaving keeps. `ShipmentRaces.dfy` shows what
is lost and two disciplines for writers under which it is not: aligned writers keep the status that of the last event,
serial writers also keep the log a walk through the status graph. `ShipmentConflicts.dfy` shows that each clause of
either discipline is needed for its property. `ShipmentService.dfy` has the methods as written and shows that an
undisturbed call is one run of the protocol, with the stores it leaves; `ShipmentJourneys.dfy` takes a shipment to
every status.

**Ledger** (`nexus-blockchain/contracts/ShipmentTracker.sol`). `Ledger.dfy` says what each call does, exactly which
calls are accepted, and what every sequence of calls keeps; `ShipmentTracker.dfy` is the contract with its storage.

Two places where the code and its documentation differ. `docs/architecture.md` says Clarke-Wright, but the merge joins
whole lists whether or not the pair is at their ends. A merge gains the saving between the last stop of the first list
and the first stop of the second (`Planning.StepGain`), which is the listed saving when i ends its list and j starts
its own, and may be less (`NeighbourSwaps.GainBelowSaving`); the distance bound holds nevertheless. The same document
pictures one state machine per shipment. The stored status can fall back (`ShipmentRaces.LostUpdate`), and an event can
then be logged twice in a row (`ShipmentRaces.RepeatedPickUp`). What the log does keep in every run is that each event
ends a legal path picked out of it in order (`EventsAreCaused`) and that the milestones first appear in their order
(`MilestonesInOrder`).

## Model

| member | source | states |
|---|---|---|
| Solver.RouteMetrics | nexus-logistics-optimizer/src/optimizer/vrp.rs:164-178 | the accumulated distance is the length of the closed walk depot, stops in order, depot (zero for no stops); minutes are that at 50 km/h plus each stop's service time |
| Solver.ComputeSavings | nexus-logistics-optimizer/src/optimizer/vrp.rs:53-66 | every pair i < j is listed, once, in lexicographic order, each with its saving |
| Savings.SavingIsGain | nexus-logistics-optimizer/src/optimizer/vrp.rs:58-62 | for symmetric distance the listed saving is what joining the two one-stop routes gains |
| Savings.SortRanked | nexus-logistics-optimizer/src/optimizer/vrp.rs:22 | after the stable sort the pairs come by falling saving, ties by i and then j |
| Savings.SortKeepsPairs | nexus-logistics-optimizer/src/optimizer/vrp.rs:21-22 | sorting drops no pair and changes no saving |
| Savings.ListingUnique | nexus-logistics-optimizer/src/optimizer/vrp.rs:21-22 | the request determines the ranked list, ties included: any two ranked listings of all its pairs are equal |
| Solver.PointTo | nexus-logistics-optimizer/src/optimizer/vrp.rs:98-100 | exactly the merged stops are re-rooted |
| Solver.TryMerge | nexus-logistics-optimizer/src/optimizer/vrp.rs:79-102 | one pair on the three tables in place is one merge step |
| Solver.MergeRoutes | nexus-logistics-optimizer/src/optimizer/vrp.rs:75-104 | the loop over the whole list yields the plan the lemmas below are about |
| Merging.MergeInvariant | nexus-logistics-optimizer/src/optimizer/vrp.rs:75-102 | after any list of pairs: each stop is in the route its root names and in no other, the routes hold every stop once, `loads` are the demand sums, every route of two or more stops fits some vehicle |
| Merging.TriedPairsBlocked | nexus-logistics-optimizer/src/optimizer/vrp.rs:79-102 | if only stop x may have a negative demand, a pair once tried is for ever together or beyond every vehicle, as long as each of its stops is x or outside the route of x: those routes never split and only grow |
| Merging.GreedyMaximality | nexus-logistics-optimizer/src/optimizer/vrp.rs:53-102 | with at most one negative demand no two routes of the plan could still be joined within any one vehicle's capacity and stop limit |
| Merging.PlanCoversStops | nexus-logistics-optimizer/src/optimizer/vrp.rs:75-104 | the plan's routes together hold every stop index exactly once |
| Merging.MergedRouteFitsSomeVehicle | nexus-logistics-optimizer/src/optimizer/vrp.rs:86-91 | every route of two or more stops has one vehicle with its load within the capacity and its stops within the limit |
| Merging.FitsOneVehicle | nexus-logistics-optimizer/src/optimizer/vrp.rs:86-89 | the check of a merge passes exactly when one vehicle of the list has the capacity for the load and the stops for the count |
| Planning.Conservation | nexus-logistics-optimizer/src/optimizer/vrp.rs:104-119 | any per-stop quantity (demand, service, count) adds up the same over the routes as over the request |
| Planning.PlanDistanceBound | nexus-logistics-optimizer/src/optimizer/vrp.rs:79-112 | under the triangle inequality merging never makes the total longer than one round trip per stop, although merges ignore endpoints |
| Tours.JoinLength | nexus-logistics-optimizer/src/optimizer/vrp.rs:92-94 | joining two tours trades two depot legs for the leg between them |
| Planning.StepGain | nexus-logistics-optimizer/src/optimizer/vrp.rs:79-95 | for symmetric distance a merge shortens the total by the saving between the stop the first list ends with and the stop the second starts with; that is the listed saving when i ends its list and j starts its own |
| NeighbourSwaps.GainBelowSaving | nexus-logistics-optimizer/src/optimizer/vrp.rs:79-95 | for every number of stops from three on, a request whose second merge lists a saving of 2 and shortens the total by nothing |
| Planning.RouteCountBound | nexus-logistics-optimizer/src/optimizer/vrp.rs:79-104 | k >= 2 routes means k < 2 (total demand / capacity + stops / max_stops) for every vehicle with positive limits |
| Planning.RouteFitsSomeVehicle | nexus-logistics-optimizer/src/optimizer/vrp.rs:86-104 | if each stop fits some vehicle alone, each route of the plan fits some vehicle |
| Planning.UniformFleetFeasible | nexus-logistics-optimizer/src/optimizer/vrp.rs:86-119 | if all vehicles have the same limits and each stop fits one alone, every route fits the vehicle it is assigned |
| Solver.ConstructRoutes | nexus-logistics-optimizer/src/optimizer/vrp.rs:68-121 | one new route object per route of the plan, in order, vehicles in turn, ids, metrics and demand of its stops; none without vehicles |
| Solver.NewRoute | nexus-logistics-optimizer/src/optimizer/vrp.rs:109-119 | the fields of one route object |
| Tours.ReversalDelta | nexus-logistics-optimizer/src/optimizer/vrp.rs:145-149 | for symmetric distance, measuring the route with i..=j reversed from scratch differs only by the two boundary legs, the depot closing either end |
| Tours.ReversalKeepsService | nexus-logistics-optimizer/src/optimizer/vrp.rs:146-174 | a reversal leaves the service minutes alone |
| Tours.ReverseSegment | nexus-logistics-optimizer/src/optimizer/vrp.rs:146 | position k in i..=j gets what was at i + j - k, the rest stays, nothing is lost |
| TwoOpt.PaysExactly | nexus-logistics-optimizer/src/optimizer/vrp.rs:145-150 | a reversal is taken exactly when the tour with it is shorter by more than 0.000000001 |
| Solver.TryReversal | nexus-logistics-optimizer/src/optimizer/vrp.rs:145-150 | a candidate pays exactly when it is shorter by more than 1e-9 |
| Solver.TryMove | nexus-logistics-optimizer/src/optimizer/vrp.rs:143-153 | one pair (i, j) of the scan: the reversal is taken if it pays, and the search is then at the next pair, every pair tried since the last move not paying |
| Solver.ImproveRow | nexus-logistics-optimizer/src/optimizer/vrp.rs:144-155 | the inner loop tries the reversals from i in order and hands the scan on to position i + 1 |
| Solver.TwoOptSearch | nexus-logistics-optimizer/src/optimizer/vrp.rs:138-156 | the search terminates at an order no reversal of three or more stops shortens by more than 1e-9, reached from the given order by moves each of which is the first to pay in the order of the scan |
| TwoOpt.DescentPays | nexus-logistics-optimizer/src/optimizer/vrp.rs:141-156 | accepted moves permute the stops and each shortens the route by more than 1e-9 |
| TwoOpt.DescentIsShort | nexus-logistics-optimizer/src/optimizer/vrp.rs:141-156 | accepted moves number fewer than the starting length / 1e-9 |
| TwoOpt.OptimumUncrossed | nexus-logistics-optimizer/src/optimizer/vrp.rs:143-155 | at the end, for symmetric distance, no two legs around a segment of three or more stops are better crossed over |
| TwoOpt.OptimumStays | nexus-logistics-optimizer/src/optimizer/vrp.rs:141-156 | from a local optimum every run of accepted moves is empty |
| TwoOpt.SearchUnique | nexus-logistics-optimizer/src/optimizer/vrp.rs:141-156 | the order of the scan decides the result: two runs from one order, each taking the first reversal that pays from where the last move left the scan, end with the same moves and the same order |
| NeighbourSwaps.ShortRouteOptimal | nexus-logistics-optimizer/src/optimizer/vrp.rs:123-156 | for symmetric distance no reversal shortens a route of up to two stops |
| NeighbourSwaps.SwapPlan | nexus-logistics-optimizer/src/optimizer/vrp.rs:53-104 | for every n >= 3, the savings of a request of n stops, however listed, merge into the one route 0, 2, 1, 3, 4, ... |
| NeighbourSwaps.SwapMissed | nexus-logistics-optimizer/src/optimizer/vrp.rs:123-162 | every solution of that request returns that route, not searched when n = 3 and a local optimum from n = 4 on, although swapping its first two stops would shorten it by 2 |
| NeighbourSwaps.FullyOptimalExactly | nexus-logistics-optimizer/src/optimizer/vrp.rs:123-156 | for symmetric distance, returned routes of n stops can never be shortened by a reversal if and only if n <= 2 |
| Solver.ImproveRoutes | nexus-logistics-optimizer/src/optimizer/vrp.rs:26-28 | every planned route object is improved in place and none disturbs another |
| Solver.TwoOptImprove | nexus-logistics-optimizer/src/optimizer/vrp.rs:123-162 | under four stops the route object is untouched; otherwise its order, distance and minutes are those of a local optimum reached from the stops its ids name, vehicle and demand unchanged |
| Solutions.LookupIds | nexus-logistics-optimizer/src/optimizer/vrp.rs:127-136 | the id table finds every id of a stop, at a stop of that id, also when ids repeat |
| Solutions.RepeatedIdNamesLast | nexus-logistics-optimizer/src/optimizer/vrp.rs:127-131 | an id that several stops have is looked up at the last of them |
| Solver.Solve | nexus-logistics-optimizer/src/optimizer/vrp.rs:8-51 | without stops or vehicles the empty result; otherwise routes that are a solution for the ranked savings, totals that are the sums over them, and no unassigned stop |
| Solutions.SolutionCoversStops | nexus-logistics-optimizer/src/optimizer/vrp.rs:24-39 | the stop sequences together are the request's stop ids in some order, each as often as in the request |
| Solutions.NothingUnassigned | nexus-logistics-optimizer/src/optimizer/vrp.rs:30-39 | the unassigned filter keeps nothing |
| Solutions.SolutionExists | nexus-logistics-optimizer/src/optimizer/vrp.rs:8-51 | every request with vehicles has a solution for its ranked list: each planned route has a descent to a local optimum |
| Solutions.SolutionUnique | nexus-logistics-optimizer/src/optimizer/vrp.rs:8-51 | the request determines the solution: any two solutions have the same list, orders and routes |
| Solutions.ReturnedRoute | nexus-logistics-optimizer/src/optimizer/vrp.rs:123-162 | in the order it lists its stops, a returned route of four or more has the length of that tour as distance, 1.2 times that plus the service of its stops as minutes, and no reversal of three or more stops shorter by more than 0.000000001; distance and minutes hold of shorter routes when equal ids mean equal stops |
| Solutions.ReturnedDemand | nexus-logistics-optimizer/src/optimizer/vrp.rs:109-119 | with distinct ids a returned route lists the stops of its planned route, exactly so under four, and its demand is theirs |
| Solutions.VehiclesTakeTurns | nexus-logistics-optimizer/src/optimizer/vrp.rs:106-113 | the first routes name the vehicles in the order of the request, and a route names the vehicle of the one |vehicles| before it |
| Solutions.TurnsAreEven | nexus-logistics-optimizer/src/optimizer/vrp.rs:106-113 | with distinct vehicle ids no vehicle gets two routes more than another, and an earlier one never fewer than a later |
| Solutions.SolutionRouteFits | nexus-logistics-optimizer/src/optimizer/vrp.rs:86-91 | each returned route of two or more stops has one vehicle of the request with its demand within the capacity and its stops within the limit |
| Solutions.SolutionConservesDemand | nexus-logistics-optimizer/src/optimizer/vrp.rs:117 | route demands add up to all stop demands |
| Solutions.SolutionMinutes | nexus-logistics-optimizer/src/optimizer/vrp.rs:41-42 | total minutes are 1.2 times total distance plus every stop's service minutes, when equal ids mean equal stops |
| Solutions.SolutionDistanceBound | nexus-logistics-optimizer/src/optimizer/vrp.rs:24-42 | end to end, after 2-opt, the total distance is at most one round trip per stop |
| Solutions.SolutionMaximal | nexus-logistics-optimizer/src/optimizer/vrp.rs:21-28 | with at most one negative demand no two returned routes would fit one vehicle together |
| Solutions.SolutionRouteCount | nexus-logistics-optimizer/src/optimizer/vrp.rs:21-28 | k >= 2 returned routes means k < 2 (total demand / capacity + stops / max_stops) for every vehicle of the request with positive limits |
| HeavyThird.ThirdLeftBehind | nexus-logistics-optimizer/src/optimizer/vrp.rs:75-104 | if two stops have negative demands below a third one's, and the pairs of low stops with others are tried first, a vehicle that takes no more than it must is left with two routes it could have served together |
| HeavyThird.HubMissed | nexus-logistics-optimizer/src/optimizer/vrp.rs:8-102 | for any demands with two below a third, those below it all negative: a request with a metric distance and one vehicle, every solution of which has two routes that fit that vehicle together |
| HeavyThird.StreetMissed | nexus-logistics-optimizer/src/optimizer/vrp.rs:8-102 | such a request of three stops with street (Manhattan) distances, again for every solution |
| TwoPairs.PairsMissed | nexus-logistics-optimizer/src/optimizer/vrp.rs:8-102 | for four or more negative demands, alike but for one that may be lower: a request with two vehicles, every solution of which has two routes that fit one vehicle together |
| Maximality.SurePlan | nexus-logistics-optimizer/src/optimizer/vrp.rs:53-102 | with at most one negative demand, at most two stops, or three of which none has a demand above both others, no two routes of the plan fit one vehicle together |
| Maximality.MaximalityExactly | nexus-logistics-optimizer/src/optimizer/vrp.rs:53-102 | for every list of demands: returned routes are maximal for every request with these demands if and only if at most one demand is negative, there are at most two stops, or there are three and the greatest demand is attained twice |
| Maximality.NonPositiveMaximal | nexus-logistics-optimizer/src/optimizer/vrp.rs:53-102 | if no demand is above zero and no capacity below, the plan is maximal too, however many demands are negative |
| Solutions.SolutionFeasible | nexus-logistics-optimizer/src/optimizer/vrp.rs:106-119 | with one kind of vehicle each returned route is within the limits of the vehicle it names |
| FleetSafety.SmallerVehicleOverloaded | nexus-logistics-optimizer/src/optimizer/vrp.rs:86-108 | stops that each fill the largest vehicle stay on their own in whatever order the savings come, and one of them is assigned to the smaller vehicle |
| FleetSafety.ShorterVehicleOverloaded | nexus-logistics-optimizer/src/optimizer/vrp.rs:79-108 | stops of one place and of demand at most zero end in full routes of the largest stop limit, and the a-th of them is assigned to a vehicle with a smaller limit |
| FleetSafety.WeakerVehicleOverloaded | nexus-logistics-optimizer/src/optimizer/vrp.rs:79-108 | the same with one stop more: the a-th route is that stop alone, on a vehicle of smaller capacity, also where capacities are not positive |
| FleetSafety.SafeFleetExactly | nexus-logistics-optimizer/src/optimizer/vrp.rs:86-119 | for every non-empty fleet: no returned route ever overloads the vehicle it names (each stop fitting some vehicle) if and only if all vehicles have the same two limits, or none takes any stop |
| TokenBucket.ClosedForm | nexus-backend/internal/api/middleware/common.go:114-136 | the tokens request k sees are the minimum, over the making of the bucket and every request j <= k, of limit + rate (t_k - t_j) - admissions since; stamps in any order, and whichever request locks first |
| TokenBucket.AdmittedExactly | nexus-backend/internal/api/middleware/common.go:121-132 | request k is admitted if and only if, counted from the making of the bucket and from every earlier request, one more still fits that budget |
| TokenBucket.WindowBound | nexus-backend/internal/api/middleware/common.go:110-136 | of the requests stamped within [from, to] one bucket admits at most limit + rate (to - from), whatever order they got the lock in and whatever else it served |
| Eviction.EveryInterleavingBound | nexus-backend/internal/api/middleware/common.go:95-136 | in every interleaving of requests and evictor, at most (1 + deletions of its entry) * (limit + rate (to - from)) requests of a client stamped within [from, to] are admitted |
| Eviction.CellsPerDeletion | nexus-backend/internal/api/middleware/common.go:97-119 | a client has one bucket, and one more for every deletion of its entry |
| Eviction.StaleIsFull | nexus-backend/internal/api/middleware/common.go:100-124 | if requests are served within four windows of their stamps, a bucket idle for more than five windows has refilled to the limit for every later stamp |
| Eviction.EvictorSteps | nexus-backend/internal/api/middleware/common.go:97-106 | the look finds a bucket stale exactly when it was last seen more than five windows ago, and the deletion takes that client out of the table |
| Eviction.EvictionTransparent | nexus-backend/internal/api/middleware/common.go:95-136 | in an orderly run (no step of a client between a stale finding on it and the deletion; no deletion while a request of the client is in flight; a new bucket made for the earliest stamp in flight; service within four windows of the stamp) every answer is that of the same run without evictions |
| Eviction.ClientWindowBound | nexus-backend/internal/api/middleware/common.go:95-136 | in an orderly run a client is admitted at most limit + rate (to - from) times for stamps within [from, to], among many clients and with evictions going on |
| EvictionRaces.DeleteDuringRequest | nexus-backend/internal/api/middleware/common.go:97-121 | for every limit >= 1: a deletion between lookup and update gives floor(limit) + 1 admissions at one instant |
| EvictionRaces.RequestDuringCheck | nexus-backend/internal/api/middleware/common.go:100-104 | for every limit >= 1: a whole request between the evictor's look and its deletion gives floor(limit) + 1 admissions at one instant |
| EvictionRaces.LateService | nexus-backend/internal/api/middleware/common.go:100-124 | for every limit >= 1: a request served more than five windows after its stamp sets the bucket's time back, and the bucket, just emptied, is evicted: floor(limit) + 1 admissions at one instant |
| EvictionRaces.LookUpsOutOfOrder | nexus-backend/internal/api/middleware/common.go:116-126 | for every limit >= 1: a new bucket made for the later of two stamps refuses the earlier request, which is admitted without evictions |
| EvictionRaces.TransparentExactly | nexus-backend/internal/api/middleware/common.go:95-136 | every interleaving answers as if nothing were evicted if and only if limit < 1 |
| RateLimiter.BucketObject.Take | nexus-backend/internal/api/middleware/common.go:121-133 | the locked section is one decision on the bucket's fields |
| RateLimiter.Limiter.constructor | nexus-backend/internal/api/middleware/common.go:110-112 | the rate refills the limit in one window; the table is empty |
| RateLimiter.Limiter.LoadOrStore | nexus-backend/internal/api/middleware/common.go:118-119 | the client's bucket, or a new full one |
| RateLimiter.Limiter.Handle | nexus-backend/internal/api/middleware/common.go:114-136 | an undisturbed request is one step of the table; other clients' buckets are untouched |
| Handling.HandledAsSteps | nexus-backend/internal/api/middleware/common.go:114-136 | requests handled one after the other get the answers of their stamp, lookup and take steps in the interleaved model, with an idle evictor or without one, and leave the same table |
| Handling.AdmittedAsOwn | nexus-backend/internal/api/middleware/common.go:114-136 | each is admitted exactly when it is as a request of a bucket made by its client's first one and used by that client only |
| Handling.HandledBound | nexus-backend/internal/api/middleware/common.go:110-136 | so at most limit + rate (to - from) of a client's requests stamped within [from, to] are admitted |
| RateLimiter.Limiter.Sweep | nexus-backend/internal/api/middleware/common.go:97-106 | an undisturbed pass: exactly the clients last seen more than five windows before their own look lose their buckets |
| ShipmentSafety.RunKeepsInv | nexus-backend/internal/service/shipment_service.go:45-174 | the protocol invariant holds in every state of every interleaving, failed calls included |
| ShipmentSafety.StepKeepsInv | nexus-backend/internal/service/shipment_service.go:45-174 | each atomic step keeps it |
| Shipments.TransitionsExactly | nexus-backend/internal/service/shipment_service.go:190-206 | an update may set the next stage; AT_HUB and IN_TRANSIT each from the other; OUT_FOR_DELIVERY from either; FAILED from every status but DELIVERED, FAILED and RETURNED; RETURNED from FAILED only; nothing else |
| ShipmentJourneys.EveryStatusReached | nexus-backend/internal/service/shipment_service.go:45-174 | for every status, id and time a run ends there with no call left, DELIVERED and only DELIVERED with its time |
| ShipmentSafety.RelogIsNoOp | nexus-backend/internal/service/shipment_service.go:166-169 | the second insert of an event changes nothing |
| ShipmentSafety.EventsAreCaused | nexus-backend/internal/service/shipment_service.go:114-135 | in every run each event ends a legal path from PENDING picked out of the log in log order |
| ShipmentSafety.MilestonesInOrder | nexus-backend/internal/service/shipment_service.go:190-206 | IN_TRANSIT, OUT_FOR_DELIVERY and DELIVERED events each have the milestone before them earlier in the shipment's log, RETURNED has an earlier FAILED |
| ShipmentSafety.DeliveryStampCoherent | nexus-backend/internal/service/shipment_service.go:137-145 | every row, cached copy and held snapshot is stamped exactly when DELIVERED, and a status other than PENDING is never visible before its event row |
| ShipmentSafety.CachedAnswerFresh | nexus-backend/internal/service/shipment_service.go:89-98 | a value answered from the cache was a stored row less than 30 s plus its own read-to-fill delay ago |
| ShipmentSafety.ReadAnswerFresh | nexus-backend/internal/service/shipment_service.go:100-111 | a value answered from the repository was the stored row when it was read |
| ShipmentRaces.LostUpdate | nexus-backend/internal/service/shipment_service.go:70-84 | "status is the last event's" is false: a run ends with no call left, the log at PICKED_UP and the row at PENDING |
| ShipmentRaces.RepeatedPickUp | nexus-backend/internal/service/shipment_service.go:70-84 | after that run a second update from PENDING logs PICKED_UP right after PICKED_UP: the log is no walk through the status graph |
| ShipmentRaces.AlignedStatusIsLastEvent | nexus-backend/internal/service/shipment_service.go:114-145 | the status of a shipment nobody is writing is that of its last event if an update starts only when every call writing the shipment aims at the same status, a failed event insert stores nothing, and a logged change is saved |
| ShipmentConflicts.MisalignedLoses | nexus-backend/internal/service/shipment_service.go:70-145 | the first clause is needed: from any state of the invariant in which an update can start while a call aiming at another status is writing the shipment, calls that all succeed, without a further update, end with nobody writing it and its status not that of its last event |
| ShipmentConflicts.StoredInsertLoses | nexus-backend/internal/service/shipment_service.go:114-135 | the second is: wherever an update can start on a shipment nobody writes, an event insert that is stored but reports failure ends it in disagreement |
| ShipmentConflicts.LostSaveLoses | nexus-backend/internal/service/shipment_service.go:133-145 | the third is: so does a save of the changed row that fails without being applied |
| ShipmentRaces.SerialLogIsWalk | nexus-backend/internal/service/shipment_service.go:114-135 | if moreover updates start only when nobody is writing the shipment, its whole log is one legal walk, and nothing follows DELIVERED or RETURNED |
| ShipmentConflicts.OverlapBreaksLog | nexus-backend/internal/service/shipment_service.go:70-145 | the extra clause is needed: from any state the discipline allows, if an update starts while another call is writing the shipment, calls that all succeed and keep to the discipline from then on leave a log that is no walk |
| ShipmentConflicts.StoredInsertRepeats | nexus-backend/internal/service/shipment_service.go:114-135 | so is the second: an event insert that is stored but reports failure, and the same update again, log the event twice in a row |
| ShipmentConflicts.LostSaveRepeats | nexus-backend/internal/service/shipment_service.go:133-145 | so is the third: so do a save that fails without being applied and the same update again |
| ShipmentService.Service.Create | nexus-backend/internal/service/shipment_service.go:45-87 | an undisturbed call is this run of the protocol, with this answer |
| ShipmentService.Service.AnchorCreated | nexus-backend/internal/service/shipment_service.go:70-84 | Create's goroutine as a run |
| ShipmentService.Service.GetByID | nexus-backend/internal/service/shipment_service.go:89-112 | a copy cached less than 30 s ago, or the row read and cached, or not found, as a run |
| ShipmentService.Service.UpdateStatus | nexus-backend/internal/service/shipment_service.go:114-174 | each of the four error exits and the success exit, as a run, with the invariant kept; which targets are accepted, and the row returned |
| ShipmentService.Service.AnchorEvent | nexus-backend/internal/service/shipment_service.go:157-171 | UpdateStatus' goroutine as a run |
| ShipmentService.CreateRunStores | nexus-backend/internal/service/shipment_service.go:45-87 | what Create leaves, store by store: the PENDING row if the insert is applied, the goroutine only on success |
| ShipmentService.AnchorRunStores | nexus-backend/internal/service/shipment_service.go:70-84 | what its goroutine leaves: with an answer from the chain the whole row it held, with the hash; nothing else |
| ShipmentService.UpdateRunStores | nexus-backend/internal/service/shipment_service.go:114-155 | what UpdateStatus leaves, for every outcome of its three calls: the event, the row with the new status and, if DELIVERED, the time, the cache entry dropped, and the goroutine |
| ShipmentService.RelogStores | nexus-backend/internal/service/shipment_service.go:157-171 | what its goroutine leaves: every store as it was |
| ShipmentService.GetRunStores | nexus-backend/internal/service/shipment_service.go:89-112 | what a read leaves: only the cache entry, with the row stored now |
| Ledger.LedgerConservation | nexus-blockchain/contracts/ShipmentTracker.sol:35-112 | after any calls the counter is the number of stored entries modulo 2^256, no log passes 200, all lengths are within limits, logs are in block order |
| Ledger.EarlierReadIsPrefix | nexus-blockchain/contracts/ShipmentTracker.sol:63-81 | what getEvents returned once is a prefix of all it returns later |
| Ledger.LogIsAcceptedCalls | nexus-blockchain/contracts/ShipmentTracker.sol:49-73 | a log is exactly the accepted recordings of its shipment, in call order |
| Ledger.EntryProvenance | nexus-blockchain/contracts/ShipmentTracker.sol:53-68 | every entry comes from one call by a holder of the recorder role while not paused |
| Ledger.AcceptedExactly | nexus-blockchain/contracts/ShipmentTracker.sol:49-61 | a recording is accepted exactly from a recorder, while not paused, with an id of 1 to 36, a status of 1 to 64, notes of up to 256 and fewer than 200 entries so far |
| Ledger.RefusedExactly | nexus-blockchain/contracts/ShipmentTracker.sol:53-61 | each error exactly when its own check is the first to fail |
| Ledger.RecordedExactly | nexus-blockchain/contracts/ShipmentTracker.sol:63-70 | an accepted one appends its entry to its own log and counts it, from 2^256 - 1 to 0; other logs, roles and pause stay |
| Ledger.DeployedExactly | nexus-blockchain/contracts/ShipmentTracker.sol:43-47 | the zero address is refused; any other is the one admin and the one recorder of an empty ledger |
| Ledger.GrantWorks | nexus-blockchain/contracts/ShipmentTracker.sol:101-104 | admins only; after a grant exactly the recorders and the account can record |
| Ledger.RevokeWorks | nexus-blockchain/contracts/ShipmentTracker.sol:106-109 | admins only; after a revocation exactly the recorders without the account can |
| Ledger.PauseWorks | nexus-blockchain/contracts/ShipmentTracker.sol:111-112 | admins only and once; nobody can record while paused, and unpausing gives back the state before |
| ShipmentTracker.Tracker.RecordEvent | nexus-blockchain/contracts/ShipmentTracker.sol:49-73 | accepted exactly within the literal limits; the checks in order, each with its own revert that changes nothing, or the append and the wrapping count |
| ShipmentTracker.Tracker.GetLatestEvent | nexus-blockchain/contracts/ShipmentTracker.sol:83-91 | the last entry, an error exactly when there is none |
| ShipmentTracker.Tracker.GrantRecorder | nexus-blockchain/contracts/ShipmentTracker.sol:101-104 | admins only; adds the role |
| ShipmentTracker.Tracker.RevokeRecorder | nexus-blockchain/contracts/ShipmentTracker.sol:106-109 | admins only; removes the role |
| ShipmentTracker.Tracker.Pause | nexus-blockchain/contracts/ShipmentTracker.sol:111 | admins only, not when paused |
| ShipmentTracker.Tracker.Unpause | nexus-blockchain/contracts/ShipmentTracker.sol:112 | admins only, only when paused |

## Left out

- Solver.RouteMetrics: `f64` is `real`, so rounding, NaN and the panic of the sort on NaN are not modelled; `haversine` is the distance parameter.
- Maximality.MaximalityExactly: the failing vehicles may have a capacity below zero when demands do; with no demand above zero and no capacity below it `NonPositiveMaximal` holds.
- FleetSafety.SafeFleetExactly: about `solve`, like `NeighbourSwaps.FullyOptimalExactly` and `Maximality.MaximalityExactly`: the failing requests may have more stops than the 500 the HTTP endpoint accepts.
- NeighbourSwaps.FullyOptimalExactly: distances that are not symmetric.
- Eviction.EvictionTransparent: that the four conditions of an orderly run are needed is shown by one run each, at every limit of at least one, not for every run that breaks one.
- Solutions.SolutionMinutes: for requests that repeat an id for different stops nothing is claimed, since the 2-opt pass then measures the last stop of that id.
- ShipmentSafety.CachedAnswerFresh: rows do not carry the preloaded event list, and the two queries behind a read are one step.
- Solver timing, request labels, the objective and time windows, which the solver never reads.
- Transaction hashes stored on events: the second insert fails, so nothing is claimed about them.
- `getEventCount`, the length of what `getEvents` returns.
- RateLimiter.Limiter.constructor: a window of zero, where the rate would be infinite or not a number.
- Listing of shipments and its paging limits, logging, and the HTTP layers of all services.
- Redis, GORM, PostgreSQL, Ethereum and OpenZeppelin code beyond the interface behaviour stated in the models; contract log emission; the reentrancy guard, which no modelled call can trip.
- Authentication, the token contract, demand forecasting and the frontend.
