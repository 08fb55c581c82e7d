// The route optimizer itself: savings, the in-place merge, 2-opt on each route object, and the totals.
module Solver {
  import opened Wrappers
  import opened Models
  import opened Sums
  import opened Tours
  import opened Merging
  import opened Savings
  import opened Planning
  import opened TwoOpt
  import opened Solutions

  class Route {
    var vehicleId: Uuid
    var stopSequence: seq<Uuid>
    var totalDistanceKm: real
    var totalMinutes: real
    var totalDemand: real

    constructor (vehicleId: Uuid, stopSequence: seq<Uuid>, distance: real, minutes: real, demand: real)
      ensures View() == RouteView(vehicleId, stopSequence, distance, minutes, demand)
    {
      this.vehicleId, this.stopSequence := vehicleId, stopSequence;
      totalDistanceKm, totalMinutes, totalDemand := distance, minutes, demand;
    }

    function View(): RouteView
      reads this
    {
      RouteView(vehicleId, stopSequence, totalDistanceKm, totalMinutes, totalDemand)
    }
  }

  datatype OptimizationResult = OptimizationResult(
    routes: seq<Route>, totalDistanceKm: real, totalMinutes: real, unassignedStops: seq<Uuid>)

  function Views(routes: seq<Route>): (views: seq<RouteView>)
    reads routes
    ensures |views| == |routes| && forall k :: 0 <= k < |routes| ==> views[k] == routes[k].View()
  {
    seq(|routes|, k requires 0 <= k < |routes| reads routes => routes[k].View())
  }

  method RouteMetrics(d: Distance, depot: Coordinate, indices: seq<nat>, stops: seq<Stop>)
    returns (distance: real, minutes: real)
    requires InRange(indices, |stops|)
    ensures distance == Length(d, depot, stops, indices)
    ensures minutes == TourMinutes(d, depot, Tour(stops, indices))
  {
    if indices == [] {
      return 0.0, 0.0;
    }
    ghost var points := [depot] + Coordinates(Tour(stops, indices));
    distance := d(depot, stops[indices[0]].coordinate);
    assert points[..2] == [depot, points[1]];
    for k := 1 to |indices|
      invariant distance == Walk(d, points[..k + 1])
    {
      distance := distance + d(stops[indices[k - 1]].coordinate, stops[indices[k]].coordinate);
      WalkJoin(d, points[..k + 1], [points[k + 1]]);
      assert points[..k + 2] == points[..k + 1] + [points[k + 1]];
    }
    distance := distance + d(stops[indices[|indices| - 1]].coordinate, depot);
    WalkJoin(d, points, [depot]);
    assert points[..|indices| + 1] == points;
    minutes := distance / 50.0 * 60.0 + SumBy(ServiceOf, Tour(stops, indices));
  }

  method ComputeSavings(d: Distance, depot: Coordinate, stops: seq<Stop>) returns (savings: seq<Saving>)
    ensures PairsInRange(savings, |stops|) && Covers(savings, |stops|)
    ensures forall k :: 0 <= k < |savings| ==> IsListed(d, depot, stops, savings[k])
    ensures LexIncreasing(savings)
  {
    savings := [];
    for i := 0 to |stops|
      invariant forall k :: 0 <= k < |savings| ==> savings[k].i < i && IsListed(d, depot, stops, savings[k])
      invariant LexIncreasing(savings)
      invariant forall a: nat, b: nat :: a < i && a < b < |stops| ==> HasPair(savings, a, b)
    {
      for j := i + 1 to |stops|
        invariant forall k :: 0 <= k < |savings| ==> IsListed(d, depot, stops, savings[k])
        invariant forall k :: 0 <= k < |savings| ==> savings[k].i < i || (savings[k].i == i && savings[k].j < j)
        invariant LexIncreasing(savings)
        invariant forall a: nat, b: nat :: a < i && a < b < |stops| ==> HasPair(savings, a, b)
        invariant forall b: nat :: i < b < j ==> HasPair(savings, i, b)
      {
        var depotI := d(depot, stops[i].coordinate);
        var depotJ := d(depot, stops[j].coordinate);
        var ij := d(stops[i].coordinate, stops[j].coordinate);
        ghost var before := savings;
        savings := savings + [Saving(i, j, depotI + depotJ - ij)];
        HasPairSnoc(before, Saving(i, j, depotI + depotJ - ij));
      }
    }
  }

  // Every stop of the merged route now belongs to route ri.
  method PointTo(routeOf: array<Option<nat>>, merged: seq<nat>, ri: nat)
    requires InRange(merged, routeOf.Length)
    modifies routeOf
    ensures forall s :: 0 <= s < routeOf.Length ==>
              routeOf[s] == if s in merged then Some(ri) else old(routeOf[s])
  {
    for m := 0 to |merged|
      invariant forall s :: 0 <= s < routeOf.Length ==>
                  routeOf[s] == if s in merged[..m] then Some(ri) else old(routeOf[s])
    {
      routeOf[merged[m]] := Some(ri);
      assert merged[..m + 1] == merged[..m] + [merged[m]];
    }
    assert merged[..|merged|] == merged;
  }

  ghost function Tables(routeOf: array<Option<nat>>, routes: array<seq<nat>>, loads: array<real>): MergeState
    reads routeOf, routes, loads
  {
    MergeState(routeOf[..], routes[..], loads[..])
  }

  // One pair of the greedy loop, on the three tables in place.
  method TryMerge(routeOf: array<Option<nat>>, routes: array<seq<nat>>, loads: array<real>,
                  vehicles: seq<Vehicle>, p: Saving)
    requires Shaped(Tables(routeOf, routes, loads), routes.Length) && PairInRange(p, routes.Length)
    modifies routeOf, routes, loads
    ensures Tables(routeOf, routes, loads) == MergeStep(vehicles, old(Tables(routeOf, routes, loads)), p)
  {
    ghost var before := Tables(routeOf, routes, loads);
    assert before.routes == routes[..] && before.loads == loads[..] && before.routeOf == routeOf[..];
    var ri := match routeOf[p.i] case Some(r) => r case None => p.i;
    var rj := match routeOf[p.j] case Some(r) => r case None => p.j;
    if ri == rj {
      return;
    }
    var combinedLoad := loads[ri] + loads[rj];
    if Fits(vehicles, combinedLoad, |routes[ri]| + |routes[rj]|) {
      var merged := routes[ri] + routes[rj];
      assert InRange(before.routes[ri], routes.Length) && InRange(before.routes[rj], routes.Length);
      routes[ri] := merged;
      loads[ri] := combinedLoad;
      routes[rj] := [];
      loads[rj] := 0.0;
      PointTo(routeOf, merged, ri);
      assert routeOf[..] == MergeStep(vehicles, before, p).routeOf;
    }
  }

  // The greedy loop over the savings list.
  method MergeRoutes(stops: seq<Stop>, vehicles: seq<Vehicle>, savings: seq<Saving>) returns (nonEmpty: seq<seq<nat>>)
    requires PairsInRange(savings, |stops|)
    ensures nonEmpty == Plan(stops, vehicles, savings)
  {
    var n := |stops|;
    var routeOf := new Option<nat>[n](_ => None);
    var routes := new seq<nat>[n](i => [i]);
    var loads := new real[n](i requires 0 <= i < n => stops[i].demand);
    for k := 0 to |savings|
      invariant Tables(routeOf, routes, loads) == MergeAll(vehicles, Initial(stops), savings[..k])
    {
      assert savings[..k + 1][..k] == savings[..k];
      TryMerge(routeOf, routes, loads, vehicles, savings[k]);
    }
    assert savings[..|savings|] == savings;
    nonEmpty := NonEmpty(routes[..]);
  }

  method ConstructRoutes(
    d: Distance, depot: Coordinate, stops: seq<Stop>, vehicles: seq<Vehicle>, savings: seq<Saving>)
    returns (result: seq<Route>)
    requires PairsInRange(savings, |stops|)
    ensures vehicles == [] ==> result == []
    ensures vehicles != [] ==>
              ArePlanned(d, depot, stops, vehicles, Plan(stops, vehicles, savings), Views(result))
    ensures forall k :: 0 <= k < |result| ==> fresh(result[k])
    ensures forall k, l :: 0 <= k < l < |result| ==> result[k] != result[l]
  {
    var nonEmpty := MergeRoutes(stops, vehicles, savings);
    if vehicles == [] {
      return [];
    }
    result := AssignVehicles(d, depot, stops, vehicles, nonEmpty);
  }

  // One route object per planned route, the vehicles taken in turn.
  method AssignVehicles(
    d: Distance, depot: Coordinate, stops: seq<Stop>, vehicles: seq<Vehicle>, plan: seq<seq<nat>>)
    returns (result: seq<Route>)
    requires vehicles != [] && RoutesInRange(plan, |stops|)
    ensures ArePlanned(d, depot, stops, vehicles, plan, Views(result))
    ensures forall k :: 0 <= k < |result| ==> fresh(result[k])
    ensures forall k, l :: 0 <= k < l < |result| ==> result[k] != result[l]
  {
    result := [];
    for k := 0 to |plan|
      invariant |result| == k
      invariant forall l :: 0 <= l < k ==> fresh(result[l])
      invariant forall l :: 0 <= l < k ==> result[l].View() == Planned(d, depot, stops, vehicles, plan[l], l)
      invariant forall l, m :: 0 <= l < m < k ==> result[l] != result[m]
    {
      var route := NewRoute(d, depot, stops, vehicles, plan[k], k);
      result := result + [route];
    }
  }

  // Route k of the plan, on the vehicle whose turn it is.
  method NewRoute(
    d: Distance, depot: Coordinate, stops: seq<Stop>, vehicles: seq<Vehicle>, indices: seq<nat>, k: nat)
    returns (route: Route)
    requires vehicles != [] && InRange(indices, |stops|)
    ensures fresh(route) && route.View() == Planned(d, depot, stops, vehicles, indices, k)
  {
    var distance, minutes := RouteMetrics(d, depot, indices, stops);
    var demand := SumBy(DemandOf, Tour(stops, indices));
    route := new Route(vehicles[k % |vehicles|].id, Ids(stops, indices), distance, minutes, demand);
  }

  // The candidate with positions i..=j reversed, measured from scratch against the current order.
  method TryReversal(d: Distance, depot: Coordinate, stops: seq<Stop>, best: seq<nat>, i: nat, j: nat)
    returns (candidate: seq<nat>, pays: bool)
    requires InRange(best, |stops|) && i <= j < |best|
    ensures candidate == ReverseSegment(best, i, j)
    ensures pays <==> !NoGain(d, depot, stops, best, i, j)
  {
    candidate := ReverseSegment(best, i, j);
    TourReverseSegment(stops, best, i, j);
    var oldDistance, _ := RouteMetrics(d, depot, best, stops);
    var newDistance, _ := RouteMetrics(d, depot, candidate, stops);
    pays := newDistance < oldDistance - EPSILON;
  }

  // The reversal of i..=j, taken if it pays. improved says whether the pass has moved.
  method TryMove(
    d: Distance, depot: Coordinate, stops: seq<Stop>, ghost indices: seq<nat>, ghost begun: nat, start: seq<nat>,
    ghost before: History, i: nat, j: nat, moved: bool)
    returns (best: seq<nat>, improved: bool, ghost h: History)
    requires NonNegative(d) && Scanning(d, depot, stops, indices, begun, before, start, i, j, moved)
    requires i + 2 <= j < |start|
    ensures Scanning(d, depot, stops, indices, begun, h, best, i, j + 1, improved)
  {
    var candidate, pays := TryReversal(d, depot, stops, start, i, j);
    if pays {
      MoveOn(d, depot, stops, indices, begun, before, start, i, j, moved);
      best, improved, h := candidate, true, Moved(before, i, j, candidate);
    } else {
      SkipOn(d, depot, stops, indices, begun, before, start, i, j, moved);
      best, improved, h := start, moved, before;
    }
  }

  // The inner loop of the pass: reversals from position i.
  method ImproveRow(
    d: Distance, depot: Coordinate, stops: seq<Stop>, ghost indices: seq<nat>, ghost begun: nat, start: seq<nat>,
    ghost before: History, i: nat, moved: bool)
    returns (best: seq<nat>, improved: bool, ghost h: History)
    requires NonNegative(d) && Scanning(d, depot, stops, indices, begun, before, start, i, i + 2, moved)
    ensures Scanning(d, depot, stops, indices, begun, h, best, i + 1, i + 3, improved)
  {
    best, improved, h := start, moved, before;
    var j := i + 2;
    while j < |best|
      invariant i + 2 <= j && Scanning(d, depot, stops, indices, begun, h, best, i, j, improved)
      decreases |indices| - j
    {
      best, improved, h := TryMove(d, depot, stops, indices, begun, best, h, i, j, improved);
      j := j + 1;
    }
    RowOn(d, depot, stops, indices, begun, h, best, i, j, improved);
  }

  // The search loop of the 2-opt pass.
  method TwoOptSearch(d: Distance, depot: Coordinate, stops: seq<Stop>, indices: seq<nat>)
    returns (best: seq<nat>, ghost h: History)
    requires NonNegative(d)
    requires indices != [] && InRange(indices, |stops|)
    ensures InRange(best, |stops|) && LocalOptimum(d, depot, stops, best)
    ensures Search(d, depot, stops, h) && FirstOrder(h) == indices && h.order == best
  {
    best := indices;
    h := Start(best);
    ghost var bound := Budget(d, depot, stops, indices);
    var improved := true;
    while improved
      invariant Reached(d, depot, stops, indices, h, best)
      invariant improved ==> Tried(d, depot, stops, h, 0, 2, false)
      invariant !improved ==> LocalOptimum(d, depot, stops, best)
      decreases bound - Moves(h), improved
    {
      improved := false;
      MovesBounded(d, depot, stops, h);
      ghost var begun := Moves(h);
      StartPass(d, depot, stops, indices, h, best);
      for i := 0 to |best| - 1
        invariant Scanning(d, depot, stops, indices, begun, h, best, i, i + 2, improved)
      {
        best, improved, h := ImproveRow(d, depot, stops, indices, begun, best, h, i, improved);
      }
      EndPass(d, depot, stops, indices, begun, h, best, |indices| - 1, |indices| + 1, improved);
    }
  }

  method TwoOptImprove(d: Distance, route: Route, stops: seq<Stop>, depot: Coordinate)
    returns (ghost h: History)
    requires NonNegative(d)
    requires |route.stopSequence| >= 4 ==> Lookup(IdToIndex(stops), route.stopSequence) != []
    modifies route
    ensures |old(route.stopSequence)| < 4 ==> route.View() == old(route.View())
    ensures |old(route.stopSequence)| >= 4 ==>
              && Search(d, depot, stops, h)
              && FirstOrder(h) == Lookup(IdToIndex(stops), old(route.stopSequence))
              && InRange(h.order, |stops|)
              && LocalOptimum(d, depot, stops, h.order)
              && route.View() == Rerouted(d, depot, stops, old(route.View()), h.order)
  {
    h := Start([]);
    if |route.stopSequence| < 4 {
      return;
    }
    LookupInRange(stops, route.stopSequence);
    var indices := Lookup(IdToIndex(stops), route.stopSequence);
    var best;
    best, h := TwoOptSearch(d, depot, stops, indices);
    route.stopSequence := Ids(stops, best);
    var distance, minutes := RouteMetrics(d, depot, best, stops);
    route.totalDistanceKm := distance;
    route.totalMinutes := minutes;
  }

  method ImproveRoutes(
    d: Distance, req: RouteOptimizationRequest, routes: seq<Route>, ghost plan: seq<seq<nat>>)
    returns (ghost orders: seq<seq<nat>>)
    requires NonNegative(d) && req.vehicles != [] && RoutesInRange(plan, |req.stops|)
    requires ArePlanned(d, req.depot, req.stops, req.vehicles, plan, Views(routes))
    requires forall k, l :: 0 <= k < l < |routes| ==> routes[k] != routes[l]
    modifies routes
    ensures |orders| == |routes|
    ensures forall k :: 0 <= k < |routes| ==> SolvedRoute(d, req, plan[k], orders[k], routes[k].View(), k)
  {
    orders := [];
    for k := 0 to |routes|
      invariant |orders| == k
      invariant forall l :: 0 <= l < k ==> SolvedRoute(d, req, plan[l], orders[l], routes[l].View(), l)
      invariant forall l :: k <= l < |routes| ==> routes[l].View() == old(routes[l].View())
    {
      assert routes[k].View() == old(Views(routes)[k]);
      assert forall l :: 0 <= l < |routes| && l != k ==> routes[l] != routes[k];
      ghost var order := ImproveRoute(d, req, routes[k], plan[k], k);
      orders := orders + [order];
    }
  }

  // The 2-opt pass on one planned route.
  method ImproveRoute(
    d: Distance, req: RouteOptimizationRequest, route: Route, ghost planned: seq<nat>, ghost k: nat)
    returns (ghost order: seq<nat>)
    requires NonNegative(d) && req.vehicles != [] && InRange(planned, |req.stops|)
    requires route.View() == Planned(d, req.depot, req.stops, req.vehicles, planned, k)
    modifies route
    ensures SolvedRoute(d, req, planned, order, route.View(), k)
  {
    LookupIds(req.stops, planned);
    ghost var h := TwoOptImprove(d, route, req.stops, req.depot);
    if |planned| < 4 {
      UntouchedRoute(d, req, planned, k);
      order := planned;
    } else {
      ImprovedRoute(d, req, planned, h, k);
      order := h.order;
    }
  }

  method Solve(d: Distance, req: RouteOptimizationRequest)
    returns (result: OptimizationResult, ghost savings: seq<Saving>, ghost orders: seq<seq<nat>>)
    requires NonNegative(d)
    ensures req.stops == [] || req.vehicles == [] ==> result == OptimizationResult([], 0.0, 0.0, [])
    ensures req.stops != [] && req.vehicles != [] ==>
              IsSolution(d, req, savings, orders, Views(result.routes))
    ensures result.totalDistanceKm == SumBy(DistanceOf, Views(result.routes))
    ensures result.totalMinutes == SumBy(MinutesOf, Views(result.routes))
    ensures result.unassignedStops == []
  {
    savings, orders := [], [];
    if req.stops == [] || req.vehicles == [] {
      return OptimizationResult([], 0.0, 0.0, []), savings, orders;
    }
    var listed := ComputeSavings(d, req.depot, req.stops);
    var sorted := SortByValue(listed);
    SortKeepsPairs(d, req.depot, req.stops, listed);
    SortRanked(listed);
    savings := sorted;
    var routes := ConstructRoutes(d, req.depot, req.stops, req.vehicles, sorted);
    orders := ImproveRoutes(d, req, routes, Plan(req.stops, req.vehicles, savings));
    var views := Views(routes);
    var unassigned := Unassigned(req.stops, AssignedIds(views));
    NothingUnassigned(d, req, savings, orders, views);
    result := OptimizationResult(routes, SumBy(DistanceOf, views), SumBy(MinutesOf, views), unassigned);
  }
}
