// What a finished set of routes is, and what the request's sender can rely on about it.
module Solutions {
  import opened Models
  import opened Sums
  import opened Tours
  import opened Merging
  import opened Savings
  import opened Planning
  import opened TwoOpt
  import opened Rotation

  datatype RouteView = RouteView(
    vehicleId: Uuid, stopSequence: seq<Uuid>, totalDistanceKm: real, totalMinutes: real, totalDemand: real)

  function DistanceOf(v: RouteView): real { v.totalDistanceKm }

  function MinutesOf(v: RouteView): real { v.totalMinutes }

  function RouteDemandOf(v: RouteView): real { v.totalDemand }

  // ----- Stop ids -----

  function Ids(stops: seq<Stop>, indices: seq<nat>): (ids: seq<Uuid>)
    requires InRange(indices, |stops|)
    ensures |ids| == |indices|
  {
    seq(|indices|, k requires 0 <= k < |indices| => stops[indices[k]].id)
  }

  // The id table of the 2-opt pass; a repeated id names its last stop.
  function IdToIndex(stops: seq<Stop>): (table: map<Uuid, nat>)
    ensures forall id :: id in table ==> table[id] < |stops| && stops[table[id]].id == id
    ensures forall k :: 0 <= k < |stops| ==> stops[k].id in table
  {
    if stops == [] then map[]
    else IdToIndex(stops[..|stops| - 1])[stops[|stops| - 1].id := |stops| - 1]
  }

  lemma {:induction false} RepeatedIdNamesLast(stops: seq<Stop>, k: nat)
    requires k < |stops|
    ensures k <= IdToIndex(stops)[stops[k].id]
  {
    if k < |stops| - 1 {
      RepeatedIdNamesLast(stops[..|stops| - 1], k);
    }
  }

  function Lookup(table: map<Uuid, nat>, ids: seq<Uuid>): (indices: seq<nat>)
    ensures forall k :: 0 <= k < |indices| ==> indices[k] in table.Values
  {
    if ids == [] then []
    else if ids[0] in table then
      assert table[ids[0]] in table.Values;
      [table[ids[0]]] + Lookup(table, ids[1..])
    else Lookup(table, ids[1..])
  }

  lemma {:induction false} LookupInRange(stops: seq<Stop>, ids: seq<Uuid>)
    ensures InRange(Lookup(IdToIndex(stops), ids), |stops|)
  {
  }

  // Ids that name stops are all found, each at a stop of that id.
  lemma {:induction false} LookupIds(stops: seq<Stop>, indices: seq<nat>)
    requires InRange(indices, |stops|)
    ensures var found := Lookup(IdToIndex(stops), Ids(stops, indices));
            |found| == |indices| && InRange(found, |stops|) && Ids(stops, found) == Ids(stops, indices)
  {
    LookupInRange(stops, Ids(stops, indices));
    if indices != [] {
      LookupIds(stops, indices[1..]);
      assert Ids(stops, indices)[1..] == Ids(stops, indices[1..]);
    }
  }

  // Indices that come out of the table are found again.
  lemma {:induction false} LookupAgain(stops: seq<Stop>, indices: seq<nat>)
    requires InRange(indices, |stops|) && forall i :: i in indices ==> i in IdToIndex(stops).Values
    ensures Lookup(IdToIndex(stops), Ids(stops, indices)) == indices
  {
    if indices != [] {
      LookupAgain(stops, indices[1..]);
      assert Ids(stops, indices)[1..] == Ids(stops, indices[1..]);
      assert indices[0] in indices;
      var id :| id in IdToIndex(stops) && IdToIndex(stops)[id] == indices[0];
      assert stops[indices[0]].id == id;
    }
  }

  // Stops with the same id are at the same place and take as long; distinct ids are the usual case.
  ghost predicate IdsResolve(stops: seq<Stop>) {
    forall k, l :: 0 <= k < |stops| && 0 <= l < |stops| && stops[k].id == stops[l].id ==>
      stops[k].coordinate == stops[l].coordinate && stops[k].serviceMinutes == stops[l].serviceMinutes
  }

  lemma {:induction false} SameIdsSameTour(d: Distance, depot: Coordinate, stops: seq<Stop>, a: seq<nat>, b: seq<nat>)
    requires IdsResolve(stops) && InRange(a, |stops|) && InRange(b, |stops|)
    requires Ids(stops, a) == Ids(stops, b)
    ensures Length(d, depot, stops, a) == Length(d, depot, stops, b)
    ensures SumBy(ServiceOf, Tour(stops, a)) == SumBy(ServiceOf, Tour(stops, b))
  {
    forall k | 0 <= k < |a| ensures a[k] < |stops| && b[k] < |stops| && stops[a[k]].id == stops[b[k]].id {
      assert Ids(stops, a)[k] == Ids(stops, b)[k];
    }
    assert |a| == |Ids(stops, a)| == |b|;
    assert Coordinates(Tour(stops, a)) == Coordinates(Tour(stops, b));
    SumByPointwise(ServiceOf, Tour(stops, a), ServiceOf, Tour(stops, b));
    SumByPointwise(ServiceOf, Tour(stops, b), ServiceOf, Tour(stops, a));
  }

  lemma {:induction false} IdsPermutation(stops: seq<Stop>, a: seq<nat>, b: seq<nat>)
    requires InRange(a, |stops|) && InRange(b, |stops|) && multiset(a) == multiset(b)
    ensures multiset(Ids(stops, a)) == multiset(Ids(stops, b))
    decreases |a|
  {
    if a == [] {
      assert |multiset(b)| == 0;
    } else {
      var k := MatchFirst(a, b);
      IdsPermutation(stops, a[1..], Without(b, k));
      assert Ids(stops, Without(b, k)) == Without(Ids(stops, b), k);
      assert Ids(stops, a[1..]) == Without(Ids(stops, a), 0);
      WithoutContent(Ids(stops, a), 0);
      WithoutContent(Ids(stops, b), k);
    }
  }

  // ----- Routes -----

  // The route as the merge hands it to the 2-opt pass.
  function Planned(d: Distance, depot: Coordinate, stops: seq<Stop>, vehicles: seq<Vehicle>, route: seq<nat>, k: nat)
    : RouteView
    requires vehicles != [] && InRange(route, |stops|)
  {
    RouteView(AssignedVehicle(vehicles, k).id, Ids(stops, route), Length(d, depot, stops, route),
              TourMinutes(d, depot, Tour(stops, route)), Load(stops, route))
  }

  ghost predicate ArePlanned(d: Distance, depot: Coordinate, stops: seq<Stop>, vehicles: seq<Vehicle>,
                             plan: seq<seq<nat>>, views: seq<RouteView>)
    requires vehicles != [] && RoutesInRange(plan, |stops|)
  {
    && |views| == |plan|
    && forall k :: 0 <= k < |plan| ==> views[k] == Planned(d, depot, stops, vehicles, plan[k], k)
  }

  // The route after the 2-opt pass settled on an order.
  function Rerouted(d: Distance, depot: Coordinate, stops: seq<Stop>, view: RouteView, order: seq<nat>): RouteView
    requires InRange(order, |stops|)
  {
    view.(stopSequence := Ids(stops, order), totalDistanceKm := Length(d, depot, stops, order),
          totalMinutes := TourMinutes(d, depot, Tour(stops, order)))
  }

  ghost predicate SolvedRoute(
    d: Distance, req: RouteOptimizationRequest, planned: seq<nat>, order: seq<nat>, view: RouteView, k: nat)
    requires req.vehicles != []
  {
    && InRange(planned, |req.stops|) && InRange(order, |req.stops|)
    && view == Rerouted(d, req.depot, req.stops, Planned(d, req.depot, req.stops, req.vehicles, planned, k), order)
    && multiset(Ids(req.stops, order)) == multiset(Ids(req.stops, planned))
    && (IdsResolve(req.stops) ==>
          && Length(d, req.depot, req.stops, order) <= Length(d, req.depot, req.stops, planned)
          && SumBy(ServiceOf, Tour(req.stops, order)) == SumBy(ServiceOf, Tour(req.stops, planned)))
    && (|planned| < 4 ==> order == planned)
    && (|planned| >= 4 ==>
          && Descended(d, req.depot, req.stops, Lookup(IdToIndex(req.stops), Ids(req.stops, planned)), order)
          && LocalOptimum(d, req.depot, req.stops, order))
  }

  // The search leads from one order to the other.
  ghost predicate Descended(d: Distance, depot: Coordinate, stops: seq<Stop>, from: seq<nat>, to: seq<nat>) {
    exists h :: Search(d, depot, stops, h) && FirstOrder(h) == from && h.order == to
  }

  ghost predicate IsSolution(
    d: Distance, req: RouteOptimizationRequest, savings: seq<Saving>, orders: seq<seq<nat>>, views: seq<RouteView>)
    requires req.vehicles != []
  {
    && IsListing(d, req.depot, req.stops, savings)
    && |views| == |orders| == |Plan(req.stops, req.vehicles, savings)|
    && forall k :: 0 <= k < |views| ==>
         SolvedRoute(d, req, Plan(req.stops, req.vehicles, savings)[k], orders[k], views[k], k)
  }

  lemma {:induction false} UntouchedRoute(d: Distance, req: RouteOptimizationRequest, planned: seq<nat>, k: nat)
    requires req.vehicles != [] && InRange(planned, |req.stops|) && |planned| < 4
    ensures SolvedRoute(d, req, planned, planned, Planned(d, req.depot, req.stops, req.vehicles, planned, k), k)
  {
  }

  lemma {:induction false} ImprovedTotals(
    d: Distance, depot: Coordinate, stops: seq<Stop>, planned: seq<nat>, h: History)
    requires InRange(planned, |stops|) && Descent(d, depot, stops, h)
    requires FirstOrder(h) == Lookup(IdToIndex(stops), Ids(stops, planned)) && InRange(h.order, |stops|)
    ensures multiset(Ids(stops, h.order)) == multiset(Ids(stops, planned))
    ensures IdsResolve(stops) ==>
              && Length(d, depot, stops, h.order) <= Length(d, depot, stops, planned)
              && SumBy(ServiceOf, Tour(stops, h.order)) == SumBy(ServiceOf, Tour(stops, planned))
  {
    var found, order := FirstOrder(h), h.order;
    LookupIds(stops, planned);
    DescentPays(d, depot, stops, h);
    IdsPermutation(stops, found, order);
    if IdsResolve(stops) {
      SameIdsSameTour(d, depot, stops, found, planned);
      TourPermutation(stops, found, order);
      SumByPermutation(ServiceOf, Tour(stops, found), Tour(stops, order));
    }
  }

  lemma {:induction false} ImprovedRoute(
    d: Distance, req: RouteOptimizationRequest, planned: seq<nat>, h: History, k: nat)
    requires req.vehicles != [] && InRange(planned, |req.stops|) && |planned| >= 4
    requires Search(d, req.depot, req.stops, h)
    requires FirstOrder(h) == Lookup(IdToIndex(req.stops), Ids(req.stops, planned))
    requires InRange(h.order, |req.stops|) && LocalOptimum(d, req.depot, req.stops, h.order)
    ensures SolvedRoute(d, req, planned, h.order,
              Rerouted(d, req.depot, req.stops, Planned(d, req.depot, req.stops, req.vehicles, planned, k), h.order), k)
  {
    ImprovedTotals(d, req.depot, req.stops, planned, h);
    assert Descended(d, req.depot, req.stops, FirstOrder(h), h.order);
  }

  // The indices of the returned ids.
  function Returned(req: RouteOptimizationRequest, view: RouteView): (o: seq<nat>)
    ensures InRange(o, |req.stops|)
  {
    LookupInRange(req.stops, view.stopSequence);
    Lookup(IdToIndex(req.stops), view.stopSequence)
  }

  ghost predicate DistinctIds(stops: seq<Stop>) {
    forall k, l :: 0 <= k < l < |stops| ==> stops[k].id != stops[l].id
  }

  // From four stops on the search works on the indices of the ids, so it is its order that the ids name.
  lemma {:induction false} SearchedOrder(
    d: Distance, req: RouteOptimizationRequest, planned: seq<nat>, order: seq<nat>)
    requires InRange(planned, |req.stops|) && InRange(order, |req.stops|)
    requires Descended(d, req.depot, req.stops, Lookup(IdToIndex(req.stops), Ids(req.stops, planned)), order)
    ensures Lookup(IdToIndex(req.stops), Ids(req.stops, order)) == order
  {
    var found := Lookup(IdToIndex(req.stops), Ids(req.stops, planned));
    var h :| Search(d, req.depot, req.stops, h) && FirstOrder(h) == found && h.order == order;
    DescentPays(d, req.depot, req.stops, h);
    forall i | i in order ensures i in IdToIndex(req.stops).Values {
      assert i in multiset(found);
    }
    LookupAgain(req.stops, order);
  }

  // What a returned route says of the stops it lists, in the order it lists them: how long the tour is, how many
  // minutes it takes, and that from four stops on no reversal of three or more stops is worth it.
  lemma {:induction false} ReturnedRoute(
    d: Distance, req: RouteOptimizationRequest, savings: seq<Saving>, orders: seq<seq<nat>>, views: seq<RouteView>,
    k: nat)
    requires req.vehicles != [] && IsSolution(d, req, savings, orders, views) && k < |views|
    ensures var o := Returned(req, views[k]);
            && Ids(req.stops, o) == views[k].stopSequence
            && (|o| >= 4 || IdsResolve(req.stops) ==>
                  && views[k].totalDistanceKm == TourLength(d, req.depot, Tour(req.stops, o))
                  && views[k].totalMinutes == 1.2 * TourLength(d, req.depot, Tour(req.stops, o))
                                              + SumBy(ServiceOf, Tour(req.stops, o)))
            && (|o| >= 4 ==> forall i: nat, j: nat :: i + 2 <= j < |o| ==>
                  TourLength(d, req.depot, Tour(req.stops, o)) <=
                  TourLength(d, req.depot, ReverseSegment(Tour(req.stops, o), i, j)) + 0.000000001)
  {
    var planned, order, o := Plan(req.stops, req.vehicles, savings)[k], orders[k], Returned(req, views[k]);
    assert SolvedRoute(d, req, planned, order, views[k], k);
    LookupIds(req.stops, order);
    if |o| >= 4 {
      assert |multiset(Ids(req.stops, order))| == |multiset(Ids(req.stops, planned))|;
      SearchedOrder(d, req, planned, order);
      OptimumTour(d, req.depot, req.stops, o);
    } else if IdsResolve(req.stops) {
      SameIdsSameTour(d, req.depot, req.stops, o, order);
    }
  }

  lemma {:induction false} OptimumTour(d: Distance, depot: Coordinate, stops: seq<Stop>, a: seq<nat>)
    requires InRange(a, |stops|) && LocalOptimum(d, depot, stops, a)
    ensures forall i: nat, j: nat :: i + 2 <= j < |a| ==>
              TourLength(d, depot, Tour(stops, a)) <=
              TourLength(d, depot, ReverseSegment(Tour(stops, a), i, j)) + 0.000000001
  {
    forall i: nat, j: nat | i + 2 <= j < |a|
      ensures TourLength(d, depot, Tour(stops, a)) <=
              TourLength(d, depot, ReverseSegment(Tour(stops, a), i, j)) + 0.000000001
    {
      assert NoGain(d, depot, stops, a, i, j);
      TourReverseSegment(stops, a, i, j);
    }
  }

  // With distinct ids the listed stops are those of the planned route, and the demand is theirs.
  lemma {:induction false} ReturnedDemand(
    d: Distance, req: RouteOptimizationRequest, savings: seq<Saving>, orders: seq<seq<nat>>, views: seq<RouteView>,
    k: nat)
    requires req.vehicles != [] && IsSolution(d, req, savings, orders, views) && k < |views|
    requires DistinctIds(req.stops)
    ensures views[k].totalDemand == SumBy(DemandOf, Tour(req.stops, Returned(req, views[k])))
    ensures multiset(Returned(req, views[k])) == multiset(Plan(req.stops, req.vehicles, savings)[k])
    ensures |views[k].stopSequence| < 4 ==> Returned(req, views[k]) == Plan(req.stops, req.vehicles, savings)[k]
  {
    var planned, order, o := Plan(req.stops, req.vehicles, savings)[k], orders[k], Returned(req, views[k]);
    assert SolvedRoute(d, req, planned, order, views[k], k);
    LookupIds(req.stops, order);
    SameIdsDistinct(req.stops, o, order);
    if |planned| >= 4 {
      var found := Lookup(IdToIndex(req.stops), Ids(req.stops, planned));
      var h :| Search(d, req.depot, req.stops, h) && FirstOrder(h) == found && h.order == order;
      DescentPays(d, req.depot, req.stops, h);
      LookupIds(req.stops, planned);
      SameIdsDistinct(req.stops, found, planned);
    }
    assert |multiset(o)| == |multiset(planned)|;
    TourPermutation(req.stops, planned, o);
    SumByPermutation(DemandOf, Tour(req.stops, planned), Tour(req.stops, o));
  }

  lemma {:induction false} SameIdsDistinct(stops: seq<Stop>, a: seq<nat>, b: seq<nat>)
    requires DistinctIds(stops) && InRange(a, |stops|) && InRange(b, |stops|) && Ids(stops, a) == Ids(stops, b)
    ensures a == b
  {
    assert |a| == |Ids(stops, a)| == |b|;
    forall k | 0 <= k < |a| ensures a[k] == b[k] {
      assert Ids(stops, a)[k] == Ids(stops, b)[k];
    }
  }

  // ----- Vehicles -----

  ghost predicate DistinctVehicles(vehicles: seq<Vehicle>) {
    forall k, l :: 0 <= k < l < |vehicles| ==> vehicles[k].id != vehicles[l].id
  }

  // The number of routes a vehicle gets.
  function RoutesOf(views: seq<RouteView>, id: Uuid): nat {
    if views == [] then 0
    else RoutesOf(views[..|views| - 1], id) + if views[|views| - 1].vehicleId == id then 1 else 0
  }

  lemma {:induction false} TurnsTaken(views: seq<RouteView>, vehicles: seq<Vehicle>, j: nat)
    requires DistinctVehicles(vehicles) && j < |vehicles|
    requires forall k: nat :: k < |views| ==> views[k].vehicleId == AssignedVehicle(vehicles, k).id
    ensures RoutesOf(views, vehicles[j].id) == Turns(|views|, |vehicles|, j)
  {
    if views != [] {
      var m: nat := |views| - 1;
      TurnsTaken(views[..m], vehicles, j);
      TurnsNext(m, |vehicles|, j);
      assert views[m].vehicleId == AssignedVehicle(vehicles, m).id;
    } else {
      DivisionIs(0, |vehicles|, 0, 0);
    }
  }

  // The vehicles take turns: each in the order of the request, then again from the first.
  lemma {:induction false} VehiclesTakeTurns(
    d: Distance, req: RouteOptimizationRequest, savings: seq<Saving>, orders: seq<seq<nat>>, views: seq<RouteView>,
    k: nat)
    requires req.vehicles != [] && IsSolution(d, req, savings, orders, views) && k < |views|
    ensures k < |req.vehicles| ==> views[k].vehicleId == req.vehicles[k].id
    ensures k + |req.vehicles| < |views| ==> views[k + |req.vehicles|].vehicleId == views[k].vehicleId
  {
    var n := |req.vehicles|;
    NamedVehicle(d, req, savings, orders, views, k);
    if k + n < |views| {
      NamedVehicle(d, req, savings, orders, views, k + n);
    }
    TurnsRepeat(k, n);
  }

  lemma {:induction false} NamedVehicle(
    d: Distance, req: RouteOptimizationRequest, savings: seq<Saving>, orders: seq<seq<nat>>, views: seq<RouteView>,
    k: nat)
    requires req.vehicles != [] && IsSolution(d, req, savings, orders, views) && k < |views|
    ensures views[k].vehicleId == req.vehicles[k % |req.vehicles|].id
  {
    assert SolvedRoute(d, req, Plan(req.stops, req.vehicles, savings)[k], orders[k], views[k], k);
  }

  // No vehicle gets two routes more than another.
  lemma {:induction false} TurnsAreEven(
    d: Distance, req: RouteOptimizationRequest, savings: seq<Saving>, orders: seq<seq<nat>>, views: seq<RouteView>,
    i: nat, j: nat)
    requires req.vehicles != [] && IsSolution(d, req, savings, orders, views) && DistinctVehicles(req.vehicles)
    requires i < |req.vehicles| && j < |req.vehicles|
    ensures RoutesOf(views, req.vehicles[i].id) <= RoutesOf(views, req.vehicles[j].id) + 1
    ensures i <= j ==> RoutesOf(views, req.vehicles[j].id) <= RoutesOf(views, req.vehicles[i].id)
  {
    forall k: nat | k < |views| ensures views[k].vehicleId == AssignedVehicle(req.vehicles, k).id {
      NamedVehicle(d, req, savings, orders, views, k);
    }
    TurnsTaken(views, req.vehicles, i);
    TurnsTaken(views, req.vehicles, j);
  }

  lemma {:induction false} SomeSolvedRoute(d: Distance, req: RouteOptimizationRequest, planned: seq<nat>, k: nat)
    returns (order: seq<nat>, view: RouteView)
    requires NonNegative(d) && req.vehicles != [] && InRange(planned, |req.stops|)
    ensures SolvedRoute(d, req, planned, order, view, k)
  {
    view := Planned(d, req.depot, req.stops, req.vehicles, planned, k);
    if |planned| < 4 {
      order := planned;
      UntouchedRoute(d, req, planned, k);
    } else {
      LookupIds(req.stops, planned);
      var found := Lookup(IdToIndex(req.stops), Ids(req.stops, planned));
      var h := DescendFrom(d, req.depot, req.stops, found, Start(found));
      order := h.order;
      ImprovedRoute(d, req, planned, h, k);
      view := Rerouted(d, req.depot, req.stops, view, order);
    }
  }

  lemma {:induction false} SomeSolvedRoutes(d: Distance, req: RouteOptimizationRequest, plan: seq<seq<nat>>, n: nat)
    returns (orders: seq<seq<nat>>, views: seq<RouteView>)
    requires NonNegative(d) && req.vehicles != [] && RoutesInRange(plan, |req.stops|) && n <= |plan|
    ensures |orders| == |views| == n
    ensures forall k :: 0 <= k < n ==> SolvedRoute(d, req, plan[k], orders[k], views[k], k)
  {
    orders, views := [], [];
    if n > 0 {
      var os, vs := SomeSolvedRoutes(d, req, plan, n - 1);
      var order, view := SomeSolvedRoute(d, req, plan[n - 1], n - 1);
      orders, views := os + [order], vs + [view];
      forall k | 0 <= k < n ensures SolvedRoute(d, req, plan[k], orders[k], views[k], k) {
        if k < n - 1 {
          assert orders[k] == os[k] && views[k] == vs[k];
        }
      }
    }
  }

  // Every request has a solution for its listing.
  lemma {:induction false} SolutionExists(d: Distance, req: RouteOptimizationRequest, savings: seq<Saving>)
    returns (orders: seq<seq<nat>>, views: seq<RouteView>)
    requires NonNegative(d) && req.vehicles != [] && IsListing(d, req.depot, req.stops, savings)
    ensures IsSolution(d, req, savings, orders, views)
  {
    var plan := Plan(req.stops, req.vehicles, savings);
    orders, views := SomeSolvedRoutes(d, req, plan, |plan|);
  }

  lemma {:induction false} SameSolvedRoute(
    d: Distance, req: RouteOptimizationRequest, planned: seq<nat>, order: seq<nat>, view: RouteView,
    other: seq<nat>, otherView: RouteView, k: nat)
    requires req.vehicles != []
    requires SolvedRoute(d, req, planned, order, view, k) && SolvedRoute(d, req, planned, other, otherView, k)
    ensures order == other && view == otherView
  {
    if |planned| >= 4 {
      var found := Lookup(IdToIndex(req.stops), Ids(req.stops, planned));
      var g :| Search(d, req.depot, req.stops, g) && FirstOrder(g) == found && g.order == order;
      var h :| Search(d, req.depot, req.stops, h) && FirstOrder(h) == found && h.order == other;
      SearchUnique(d, req.depot, req.stops, g, h);
    }
  }

  // The request determines the solution: the list, the orders and everything that is returned.
  lemma {:induction false} SolutionUnique(
    d: Distance, req: RouteOptimizationRequest, savings: seq<Saving>, orders: seq<seq<nat>>, views: seq<RouteView>,
    otherSavings: seq<Saving>, otherOrders: seq<seq<nat>>, otherViews: seq<RouteView>)
    requires req.vehicles != []
    requires IsSolution(d, req, savings, orders, views)
    requires IsSolution(d, req, otherSavings, otherOrders, otherViews)
    ensures savings == otherSavings && orders == otherOrders && views == otherViews
  {
    ListingUnique(d, req.depot, req.stops, savings, otherSavings);
    forall k | 0 <= k < |views| ensures orders[k] == otherOrders[k] && views[k] == otherViews[k] {
      SameSolvedRoute(d, req, Plan(req.stops, req.vehicles, savings)[k], orders[k], views[k],
                      otherOrders[k], otherViews[k], k);
    }
  }

  // ----- What the sender can rely on -----

  function Sequences(views: seq<RouteView>): (ids: seq<seq<Uuid>>)
    ensures |ids| == |views|
  {
    seq(|views|, k requires 0 <= k < |views| => views[k].stopSequence)
  }

  function AssignedIds(views: seq<RouteView>): set<Uuid> {
    set id | id in Flatten(Sequences(views))
  }

  function Unassigned(stops: seq<Stop>, taken: set<Uuid>): (ids: seq<Uuid>)
  {
    if stops == [] then []
    else (if stops[0].id in taken then [] else [stops[0].id]) + Unassigned(stops[1..], taken)
  }

  lemma {:induction false} SequencesContent(
    req: RouteOptimizationRequest, plan: seq<seq<nat>>, views: seq<RouteView>)
    requires RoutesInRange(plan, |req.stops|) && |plan| == |views|
    requires forall k :: 0 <= k < |views| ==> multiset(views[k].stopSequence) == multiset(Ids(req.stops, plan[k]))
    ensures InRange(Flatten(plan), |req.stops|)
    ensures Content(Sequences(views)) == multiset(Ids(req.stops, Flatten(plan)))
  {
    FlattenInRange(plan, |req.stops|);
    if plan != [] {
      SequencesContent(req, plan[1..], views[1..]);
      assert Sequences(views)[1..] == Sequences(views[1..]);
      IdsConcat(req.stops, plan[0], Flatten(plan[1..]));
    }
  }

  lemma {:induction false} IdsConcat(stops: seq<Stop>, a: seq<nat>, b: seq<nat>)
    requires InRange(a, |stops|) && InRange(b, |stops|)
    ensures InRange(a + b, |stops|)
    ensures Ids(stops, a + b) == Ids(stops, a) + Ids(stops, b)
  {
  }

  // The routes' stop sequences, put together, are the request's stop ids in some order. Repeated ids included.
  lemma {:induction false} SolutionCoversStops(
    d: Distance, req: RouteOptimizationRequest, savings: seq<Saving>, orders: seq<seq<nat>>, views: seq<RouteView>)
    requires req.vehicles != [] && IsSolution(d, req, savings, orders, views)
    ensures multiset(Flatten(Sequences(views))) == multiset(Ids(req.stops, AllIndices(|req.stops|)))
  {
    var plan := Plan(req.stops, req.vehicles, savings);
    PlanCoversStops(req.stops, req.vehicles, savings);
    forall k | 0 <= k < |views| ensures multiset(views[k].stopSequence) == multiset(Ids(req.stops, plan[k])) {
      assert SolvedRoute(d, req, plan[k], orders[k], views[k], k);
    }
    SequencesContent(req, plan, views);
    IdsPermutation(req.stops, AllIndices(|req.stops|), Flatten(plan));
  }

  lemma {:induction false} UnassignedNone(stops: seq<Stop>, taken: set<Uuid>)
    requires forall k :: 0 <= k < |stops| ==> stops[k].id in taken
    ensures Unassigned(stops, taken) == []
  {
    if stops != [] {
      UnassignedNone(stops[1..], taken);
    }
  }

  lemma {:induction false} NothingUnassigned(
    d: Distance, req: RouteOptimizationRequest, savings: seq<Saving>, orders: seq<seq<nat>>, views: seq<RouteView>)
    requires req.vehicles != [] && IsSolution(d, req, savings, orders, views)
    ensures Unassigned(req.stops, AssignedIds(views)) == []
  {
    SolutionCoversStops(d, req, savings, orders, views);
    forall k | 0 <= k < |req.stops| ensures req.stops[k].id in AssignedIds(views) {
      assert Ids(req.stops, AllIndices(|req.stops|))[k] == req.stops[k].id;
      assert req.stops[k].id in multiset(Flatten(Sequences(views)));
    }
    UnassignedNone(req.stops, AssignedIds(views));
  }

  // No demand is lost or added.
  lemma {:induction false} SolutionConservesDemand(
    d: Distance, req: RouteOptimizationRequest, savings: seq<Saving>, orders: seq<seq<nat>>, views: seq<RouteView>)
    requires req.vehicles != [] && IsSolution(d, req, savings, orders, views)
    ensures SumBy(RouteDemandOf, views) == SumBy(DemandOf, req.stops)
  {
    var plan := Plan(req.stops, req.vehicles, savings);
    var tours := PlanTours(req.stops, plan);
    forall k | 0 <= k < |views| ensures RouteDemandOf(views[k]) == TotalOf(DemandOf)(tours[k]) {
      assert SolvedRoute(d, req, plan[k], orders[k], views[k], k);
    }
    SumByPointwise(RouteDemandOf, views, TotalOf(DemandOf), tours);
    SumByPointwise(TotalOf(DemandOf), tours, RouteDemandOf, views);
    PlanCoversStops(req.stops, req.vehicles, savings);
    Conservation(DemandOf, req.stops, plan);
  }

  // Driving at 50 km/h plus every stop's service time, once.
  lemma {:induction false} SolutionMinutes(
    d: Distance, req: RouteOptimizationRequest, savings: seq<Saving>, orders: seq<seq<nat>>, views: seq<RouteView>)
    requires req.vehicles != [] && IsSolution(d, req, savings, orders, views) && IdsResolve(req.stops)
    ensures SumBy(MinutesOf, views) == 1.2 * SumBy(DistanceOf, views) + SumBy(ServiceOf, req.stops)
  {
    var plan := Plan(req.stops, req.vehicles, savings);
    var tours := PlanTours(req.stops, plan);
    forall k | 0 <= k < |views|
      ensures MinutesOf(views[k]) == 1.2 * DistanceOf(views[k]) + TotalOf(ServiceOf)(tours[k])
    {
      assert SolvedRoute(d, req, plan[k], orders[k], views[k], k);
    }
    MinutesSum(views, tours);
    PlanCoversStops(req.stops, req.vehicles, savings);
    Conservation(ServiceOf, req.stops, plan);
  }

  lemma {:induction false} MinutesSum(views: seq<RouteView>, tours: seq<seq<Stop>>)
    requires |views| == |tours|
    requires forall k :: 0 <= k < |views| ==>
               MinutesOf(views[k]) == 1.2 * DistanceOf(views[k]) + TotalOf(ServiceOf)(tours[k])
    ensures SumBy(MinutesOf, views) == 1.2 * SumBy(DistanceOf, views) + SumBy(TotalOf(ServiceOf), tours)
  {
    if views != [] {
      MinutesSum(views[1..], tours[1..]);
    }
  }

  // Under the triangle inequality the routes together are no longer than a round trip to every stop.
  lemma {:induction false} SolutionDistanceBound(
    d: Distance, req: RouteOptimizationRequest, savings: seq<Saving>, orders: seq<seq<nat>>, views: seq<RouteView>)
    requires req.vehicles != [] && IsSolution(d, req, savings, orders, views) && IdsResolve(req.stops)
    requires Triangle(d)
    ensures SumBy(DistanceOf, views) <= SumBy(RoundTrip(d, req.depot), req.stops)
  {
    var plan := Plan(req.stops, req.vehicles, savings);
    var tours := PlanTours(req.stops, plan);
    forall k | 0 <= k < |views| ensures DistanceOf(views[k]) <= LengthFrom(d, req.depot)(tours[k]) {
      assert SolvedRoute(d, req, plan[k], orders[k], views[k], k);
    }
    SumByPointwise(DistanceOf, views, LengthFrom(d, req.depot), tours);
    PlanDistanceBound(d, req.depot, req.stops, req.vehicles, savings);
  }

  // A solved route carries its planned load and number of stops.
  lemma {:induction false} SolvedRouteLoad(
    d: Distance, req: RouteOptimizationRequest, savings: seq<Saving>, orders: seq<seq<nat>>, views: seq<RouteView>,
    k: nat)
    requires req.vehicles != [] && IsSolution(d, req, savings, orders, views) && k < |views|
    ensures var planned := Plan(req.stops, req.vehicles, savings)[k];
            views[k].totalDemand == Load(req.stops, planned) && |views[k].stopSequence| == |planned|
  {
    var planned := Plan(req.stops, req.vehicles, savings)[k];
    assert SolvedRoute(d, req, planned, orders[k], views[k], k);
    assert |multiset(views[k].stopSequence)| == |multiset(Ids(req.stops, planned))|;
  }

  // No two returned routes would fit one vehicle together.
  ghost predicate NoTwoJoin(vehicles: seq<Vehicle>, views: seq<RouteView>) {
    forall a, b :: 0 <= a < b < |views| ==>
      !Fits(vehicles, views[a].totalDemand + views[b].totalDemand,
            |views[a].stopSequence| + |views[b].stopSequence|)
  }

  lemma {:induction false} SolutionJoins(
    d: Distance, req: RouteOptimizationRequest, savings: seq<Saving>, orders: seq<seq<nat>>, views: seq<RouteView>)
    requires req.vehicles != [] && IsSolution(d, req, savings, orders, views)
    ensures NoTwoJoin(req.vehicles, views) <==>
            Unjoinable(req.stops, req.vehicles, Plan(req.stops, req.vehicles, savings))
  {
    forall k: nat | k < |views|
      ensures var planned := Plan(req.stops, req.vehicles, savings)[k];
              && planned != [] && views[k].totalDemand == Load(req.stops, planned)
              && |views[k].stopSequence| == |planned|
    {
      SolvedRouteLoad(d, req, savings, orders, views, k);
    }
  }

  lemma {:induction false} SolutionMaximal(
    d: Distance, req: RouteOptimizationRequest, savings: seq<Saving>, orders: seq<seq<nat>>, views: seq<RouteView>)
    requires req.vehicles != [] && IsSolution(d, req, savings, orders, views)
    requires AtMostOneNegative(req.stops)
    ensures NoTwoJoin(req.vehicles, views)
    ensures forall a, b, v :: 0 <= a < b < |views| && v in req.vehicles ==>
              || views[a].totalDemand + views[b].totalDemand > v.capacity
              || |views[a].stopSequence| + |views[b].stopSequence| > v.maxStops
  {
    SolutionJoins(d, req, savings, orders, views);
    GreedyMaximality(req.stops, req.vehicles, savings);
    forall a, b, v | 0 <= a < b < |views| && v in req.vehicles
      ensures views[a].totalDemand + views[b].totalDemand > v.capacity ||
              |views[a].stopSequence| + |views[b].stopSequence| > v.maxStops
    {
      FitsOneVehicle(req.vehicles, views[a].totalDemand + views[b].totalDemand,
                     |views[a].stopSequence| + |views[b].stopSequence|);
    }
  }

  // A returned route of two stops or more is within the limits of one vehicle of the request.
  lemma {:induction false} SolutionRouteFits(
    d: Distance, req: RouteOptimizationRequest, savings: seq<Saving>, orders: seq<seq<nat>>, views: seq<RouteView>,
    k: nat)
    requires req.vehicles != [] && IsSolution(d, req, savings, orders, views) && k < |views|
    requires |views[k].stopSequence| >= 2
    ensures exists v :: v in req.vehicles && views[k].totalDemand <= v.capacity
                        && |views[k].stopSequence| <= v.maxStops
  {
    SolvedRouteLoad(d, req, savings, orders, views, k);
    MergedRouteFitsSomeVehicle(req.stops, req.vehicles, savings, k);
  }

  // k >= 2 returned routes are fewer than twice the vehicles that any one vehicle's limits call for.
  lemma {:induction false} SolutionRouteCount(
    d: Distance, req: RouteOptimizationRequest, savings: seq<Saving>, orders: seq<seq<nat>>, views: seq<RouteView>,
    v: Vehicle)
    requires req.vehicles != [] && IsSolution(d, req, savings, orders, views)
    requires NonNegativeDemands(req.stops) && |views| >= 2
    requires v in req.vehicles && v.capacity > 0.0 && v.maxStops > 0
    ensures |views| as real < 2.0 * Share(v, SumBy(DemandOf, req.stops), |req.stops|)
  {
    RouteCountBound(req.stops, req.vehicles, savings, v);
  }

  // With one kind of vehicle, every returned route is within the limits of the vehicle it names.
  lemma {:induction false} SolutionFeasible(
    d: Distance, req: RouteOptimizationRequest, savings: seq<Saving>, orders: seq<seq<nat>>, views: seq<RouteView>,
    k: nat)
    requires req.vehicles != [] && IsSolution(d, req, savings, orders, views)
    requires SameLimits(req.vehicles) && StopsFitSomeVehicle(req.stops, req.vehicles) && k < |views|
    ensures var v := AssignedVehicle(req.vehicles, k);
            && views[k].vehicleId == v.id
            && views[k].totalDemand <= v.capacity
            && |views[k].stopSequence| <= v.maxStops
    ensures exists v :: v in req.vehicles && v.id == views[k].vehicleId
    ensures forall v :: v in req.vehicles ==>
              views[k].totalDemand <= v.capacity && |views[k].stopSequence| <= v.maxStops
  {
    SolvedRouteLoad(d, req, savings, orders, views, k);
    UniformFleetFeasible(req.stops, req.vehicles, savings);
    var plan := Plan(req.stops, req.vehicles, savings);
    assert SolvedRoute(d, req, plan[k], orders[k], views[k], k);
    assert RouteFitsAssigned(req.stops, req.vehicles, plan, k);
  }
}
