// Totals over a plan: conservation, the distance bound, the route-count bound and vehicle feasibility.
module Planning {
  import opened Models
  import opened Sums
  import opened Tours
  import opened Merging
  import opened Savings

  predicate RoutesInRange(routes: seq<seq<nat>>, n: nat) {
    forall r :: 0 <= r < |routes| ==> InRange(routes[r], n)
  }

  function PlanTours(stops: seq<Stop>, routes: seq<seq<nat>>): (tours: seq<seq<Stop>>)
    requires RoutesInRange(routes, |stops|)
    ensures |tours| == |routes|
  {
    seq(|routes|, r requires 0 <= r < |routes| => Tour(stops, routes[r]))
  }

  function LengthFrom(d: Distance, depot: Coordinate): seq<Stop> -> real {
    (tour: seq<Stop>) => TourLength(d, depot, tour)
  }

  function TotalOf(f: Stop -> real): seq<Stop> -> real {
    (tour: seq<Stop>) => SumBy(f, tour)
  }

  // ----- Conservation -----

  function Flatten<T>(xss: seq<seq<T>>): (xs: seq<T>)
    ensures multiset(xs) == Content(xss)
  {
    if xss == [] then [] else xss[0] + Flatten(xss[1..])
  }

  lemma {:induction false} FlattenInRange(routes: seq<seq<nat>>, n: nat)
    requires RoutesInRange(routes, n)
    ensures InRange(Flatten(routes), n)
  {
    if routes != [] {
      FlattenInRange(routes[1..], n);
    }
  }

  lemma {:induction false} SumRouteByRoute(f: Stop -> real, stops: seq<Stop>, routes: seq<seq<nat>>)
    requires RoutesInRange(routes, |stops|)
    ensures InRange(Flatten(routes), |stops|)
    ensures SumBy(TotalOf(f), PlanTours(stops, routes)) == SumBy(f, Tour(stops, Flatten(routes)))
  {
    FlattenInRange(routes, |stops|);
    if routes == [] {
    } else {
      SumRouteByRoute(f, stops, routes[1..]);
      assert PlanTours(stops, routes)[1..] == PlanTours(stops, routes[1..]);
      TourConcat(stops, routes[0], Flatten(routes[1..]));
      SumByConcat(f, Tour(stops, routes[0]), Tour(stops, Flatten(routes[1..])));
    }
  }

  // Whatever is added up per stop (demand, service, one each) adds up the same over any plan that uses
  // every stop once.
  lemma {:induction false} Conservation(f: Stop -> real, stops: seq<Stop>, routes: seq<seq<nat>>)
    requires RoutesInRange(routes, |stops|)
    requires Content(routes) == multiset(AllIndices(|stops|))
    ensures SumBy(TotalOf(f), PlanTours(stops, routes)) == SumBy(f, stops)
  {
    SumRouteByRoute(f, stops, routes);
    TourPermutation(stops, AllIndices(|stops|), Flatten(routes));
    assert Tour(stops, AllIndices(|stops|)) == stops;
    SumByPermutation(f, Tour(stops, Flatten(routes)), stops);
  }

  // ----- Distance -----

  function TotalLength(d: Distance, depot: Coordinate, stops: seq<Stop>, routes: seq<seq<nat>>): real
    requires RoutesInRange(routes, |stops|)
  {
    SumBy(LengthFrom(d, depot), PlanTours(stops, routes))
  }

  function RoundTrip(d: Distance, depot: Coordinate): Stop -> real {
    (s: Stop) => d(depot, s.coordinate) + d(s.coordinate, depot)
  }

  lemma {:induction false} JoinNoLonger(d: Distance, depot: Coordinate, a: seq<Stop>, b: seq<Stop>)
    requires Triangle(d)
    ensures TourLength(d, depot, a + b) <= TourLength(d, depot, a) + TourLength(d, depot, b)
  {
    if a == [] {
      assert a + b == b;
    } else if b == [] {
      assert a + b == a;
    } else {
      JoinLength(d, depot, a, b);
    }
  }

  // A merge changes the lengths of the two routes it joins and of no other.
  lemma {:induction false} StepLength(
    d: Distance, depot: Coordinate, stops: seq<Stop>, vehicles: seq<Vehicle>, st: MergeState, p: Saving)
    requires Shaped(st, |stops|) && PairInRange(p, |stops|) && Merges(vehicles, st, p)
    ensures var a, b := Tour(stops, st.routes[Root(st, p.i)]), Tour(stops, st.routes[Root(st, p.j)]);
            TotalLength(d, depot, stops, st.routes)
            - TotalLength(d, depot, stops, MergeStep(vehicles, st, p).routes)
            == TourLength(d, depot, a) + TourLength(d, depot, b) - TourLength(d, depot, a + b)
  {
    var ri, rj := Root(st, p.i), Root(st, p.j);
    var a, b, tours := st.routes[ri], st.routes[rj], PlanTours(stops, st.routes);
    TourConcat(stops, a, b);
    var ta, tb := Tour(stops, a), Tour(stops, b);
    assert PlanTours(stops, MergeStep(vehicles, st, p).routes) == tours[ri := ta + tb][rj := []];
    SumByUpdate(LengthFrom(d, depot), tours, ri, ta + tb);
    SumByUpdate(LengthFrom(d, depot), tours[ri := ta + tb], rj, []);
  }

  // What a merge gains: the saving between the stop the first route ends with and the stop the second starts with.
  // That is the listed saving when i ends its route and j starts its own.
  lemma {:induction false} StepGain(
    d: Distance, depot: Coordinate, stops: seq<Stop>, vehicles: seq<Vehicle>, st: MergeState, p: Saving)
    requires Symmetric(d) && Shaped(st, |stops|) && RootsNameRoutes(st, |stops|)
    requires IsListed(d, depot, stops, p) && Merges(vehicles, st, p)
    ensures var a, b := st.routes[Root(st, p.i)], st.routes[Root(st, p.j)];
            && a != [] && b != []
            && TotalLength(d, depot, stops, st.routes)
               - TotalLength(d, depot, stops, MergeStep(vehicles, st, p).routes)
               == SavingOf(d, depot, stops[a[|a| - 1]], stops[b[0]])
            && (a[|a| - 1] == p.i && b[0] == p.j ==>
                  TotalLength(d, depot, stops, st.routes)
                  - TotalLength(d, depot, stops, MergeStep(vehicles, st, p).routes) == p.value)
  {
    StepLength(d, depot, stops, vehicles, st, p);
    var a, b := st.routes[Root(st, p.i)], st.routes[Root(st, p.j)];
    assert p.i in a && p.j in b;
    MergeGain(d, depot, Tour(stops, a), Tour(stops, b));
  }

  lemma {:induction false} StepNoLonger(
    d: Distance, depot: Coordinate, stops: seq<Stop>, vehicles: seq<Vehicle>, st: MergeState, p: Saving)
    requires Triangle(d)
    requires Shaped(st, |stops|) && PairInRange(p, |stops|)
    ensures TotalLength(d, depot, stops, MergeStep(vehicles, st, p).routes) <= TotalLength(d, depot, stops, st.routes)
  {
    if Merges(vehicles, st, p) {
      StepLength(d, depot, stops, vehicles, st, p);
      JoinNoLonger(d, depot, Tour(stops, st.routes[Root(st, p.i)]), Tour(stops, st.routes[Root(st, p.j)]));
    }
  }

  lemma {:induction false} OneStopTour(d: Distance, depot: Coordinate, s: Stop)
    ensures TourLength(d, depot, [s]) == RoundTrip(d, depot)(s)
  {
    assert [depot] + Coordinates([s]) + [depot] == [depot, s.coordinate, depot];
    assert Walk(d, [s.coordinate, depot]) == d(s.coordinate, depot);
    assert [depot, s.coordinate, depot][1..] == [s.coordinate, depot];
  }

  lemma {:induction false} MergesNoLonger(
    d: Distance, depot: Coordinate, stops: seq<Stop>, vehicles: seq<Vehicle>, savings: seq<Saving>)
    requires Triangle(d) && PairsInRange(savings, |stops|)
    ensures TotalLength(d, depot, stops, MergeAll(vehicles, Initial(stops), savings).routes)
            <= SumBy(RoundTrip(d, depot), stops)
  {
    if savings == [] {
      var tours := PlanTours(stops, Initial(stops).routes);
      forall k | 0 <= k < |tours| ensures LengthFrom(d, depot)(tours[k]) <= RoundTrip(d, depot)(stops[k]) {
        assert tours[k] == [stops[k]];
        OneStopTour(d, depot, stops[k]);
      }
      SumByPointwise(LengthFrom(d, depot), tours, RoundTrip(d, depot), stops);
    } else {
      var before := savings[..|savings| - 1];
      MergesNoLonger(d, depot, stops, vehicles, before);
      StepNoLonger(d, depot, stops, vehicles, MergeAll(vehicles, Initial(stops), before), savings[|savings| - 1]);
    }
  }

  lemma {:induction false} NonEmptyTotal(f: seq<Stop> -> real, stops: seq<Stop>, routes: seq<seq<nat>>)
    requires RoutesInRange(routes, |stops|) && f([]) == 0.0
    ensures RoutesInRange(NonEmpty(routes), |stops|)
    ensures SumBy(f, PlanTours(stops, NonEmpty(routes))) == SumBy(f, PlanTours(stops, routes))
  {
    if routes != [] {
      var rest := NonEmpty(routes[1..]);
      NonEmptyTotal(f, stops, routes[1..]);
      assert PlanTours(stops, routes) == [Tour(stops, routes[0])] + PlanTours(stops, routes[1..]);
      SumByConcat(f, [Tour(stops, routes[0])], PlanTours(stops, routes[1..]));
      if routes[0] == [] {
        assert Tour(stops, routes[0]) == [];
      } else {
        assert PlanTours(stops, [routes[0]] + rest) == [Tour(stops, routes[0])] + PlanTours(stops, rest);
        SumByConcat(f, [Tour(stops, routes[0])], PlanTours(stops, rest));
      }
    }
  }

  // The merges never cost distance, although they join routes at whatever ends the lists happen to have.
  lemma {:induction false} PlanDistanceBound(
    d: Distance, depot: Coordinate, stops: seq<Stop>, vehicles: seq<Vehicle>, savings: seq<Saving>)
    requires Triangle(d) && PairsInRange(savings, |stops|)
    ensures TotalLength(d, depot, stops, Plan(stops, vehicles, savings)) <= SumBy(RoundTrip(d, depot), stops)
  {
    MergesNoLonger(d, depot, stops, vehicles, savings);
    NonEmptyTotal(LengthFrom(d, depot), stops, MergeAll(vehicles, Initial(stops), savings).routes);
  }

  // ----- Number of routes -----

  // If every two values add up to more than one, they average more than a half.
  lemma {:induction false} PairwiseAverage<T>(f: T -> real, xs: seq<T>)
    requires |xs| >= 2
    requires forall a, b :: 0 <= a < b < |xs| ==> f(xs[a]) + f(xs[b]) > 1.0
    ensures 2.0 * SumBy(f, xs) > |xs| as real
  {
    assert SumBy(f, xs) == f(xs[0]) + SumBy(f, xs[1..]);
    assert SumBy(f, xs[1..]) == f(xs[1]) + SumBy(f, xs[1..][1..]);
    assert xs[1..][1..] == xs[2..];
    if |xs| == 3 {
      assert SumBy(f, xs[2..]) == f(xs[2]) + SumBy(f, xs[2..][1..]);
      assert f(xs[0]) + f(xs[1]) > 1.0 && f(xs[1]) + f(xs[2]) > 1.0 && f(xs[0]) + f(xs[2]) > 1.0;
    } else if |xs| > 3 {
      PairwiseAverage(f, xs[2..]);
    }
  }

  // The part of a vehicle's two limits that a load over so many stops uses up.
  function Share(v: Vehicle, load: real, count: nat): real
    requires v.capacity > 0.0 && v.maxStops > 0
  {
    load / v.capacity + count as real / v.maxStops as real
  }

  function StopShare(v: Vehicle): Stop -> real
    requires v.capacity > 0.0 && v.maxStops > 0
  {
    (s: Stop) => Share(v, s.demand, 1)
  }

  lemma {:induction false} DivideSum(x: real, y: real, c: real)
    requires c > 0.0
    ensures (x + y) / c == x / c + y / c
  {
  }

  lemma {:induction false} ShareSum(v: Vehicle, x: real, y: real, m: nat, n: nat)
    requires v.capacity > 0.0 && v.maxStops > 0
    ensures Share(v, x + y, m + n) == Share(v, x, m) + Share(v, y, n)
  {
    DivideSum(x, y, v.capacity);
    DivideSum(m as real, n as real, v.maxStops as real);
  }

  lemma {:induction false} TourShare(v: Vehicle, tour: seq<Stop>)
    requires v.capacity > 0.0 && v.maxStops > 0
    ensures SumBy(StopShare(v), tour) == Share(v, SumBy(DemandOf, tour), |tour|)
  {
    if tour == [] {
      assert Share(v, 0.0, 0) == 0.0;
    } else {
      TourShare(v, tour[1..]);
      ShareSum(v, tour[0].demand, SumBy(DemandOf, tour[1..]), 1, |tour[1..]|);
    }
  }

  lemma {:induction false} Quotients(x: real, y: real, c: real)
    requires c > 0.0 && x >= 0.0 && y >= 0.0
    ensures x / c >= 0.0 && y / c >= 0.0
    ensures x + y > c ==> x / c + y / c > 1.0
  {
    DivideSum(x, y, c);
  }

  // Two tours that vehicle v could not serve together use up more than one v between them.
  lemma {:induction false} FailedFitShare(v: Vehicle, a: seq<Stop>, b: seq<Stop>)
    requires v.capacity > 0.0 && v.maxStops > 0
    requires SumBy(DemandOf, a) >= 0.0 && SumBy(DemandOf, b) >= 0.0
    requires !(SumBy(DemandOf, a) + SumBy(DemandOf, b) <= v.capacity && |a| + |b| <= v.maxStops)
    ensures SumBy(StopShare(v), a) + SumBy(StopShare(v), b) > 1.0
  {
    TourShare(v, a);
    TourShare(v, b);
    Quotients(SumBy(DemandOf, a), SumBy(DemandOf, b), v.capacity);
    Quotients(|a| as real, |b| as real, v.maxStops as real);
  }

  // A plan of k >= 2 routes uses fewer than twice the vehicles that v's limits call for.
  lemma {:induction false} RouteCountBound(
    stops: seq<Stop>, vehicles: seq<Vehicle>, savings: seq<Saving>, v: Vehicle)
    requires NonNegativeDemands(stops)
    requires PairsInRange(savings, |stops|) && Covers(savings, |stops|)
    requires v in vehicles && v.capacity > 0.0 && v.maxStops > 0
    requires |Plan(stops, vehicles, savings)| >= 2
    ensures |Plan(stops, vehicles, savings)| as real < 2.0 * Share(v, SumBy(DemandOf, stops), |stops|)
  {
    var plan := Plan(stops, vehicles, savings);
    var tours := PlanTours(stops, plan);
    var share := TotalOf(StopShare(v));
    GreedyMaximality(stops, vehicles, savings);
    forall a, b | 0 <= a < b < |tours| ensures share(tours[a]) + share(tours[b]) > 1.0 {
      LoadNonNegative(stops, plan[a]);
      LoadNonNegative(stops, plan[b]);
      FailedFitShare(v, tours[a], tours[b]);
    }
    PairwiseAverage(share, tours);
    PlanCoversStops(stops, vehicles, savings);
    Conservation(StopShare(v), stops, plan);
    TourShare(v, stops);
  }

  // ----- Assigned vehicles -----

  // Routes take the vehicles in order, starting over when they run out.
  function AssignedVehicle(vehicles: seq<Vehicle>, a: nat): Vehicle
    requires vehicles != []
  {
    vehicles[a % |vehicles|]
  }

  ghost predicate StopsFitSomeVehicle(stops: seq<Stop>, vehicles: seq<Vehicle>) {
    forall k :: 0 <= k < |stops| ==> Fits(vehicles, stops[k].demand, 1)
  }

  ghost predicate RouteFitsAssigned(stops: seq<Stop>, vehicles: seq<Vehicle>, plan: seq<seq<nat>>, a: nat)
    requires vehicles != [] && RoutesInRange(plan, |stops|) && a < |plan|
  {
    var v := AssignedVehicle(vehicles, a);
    Load(stops, plan[a]) <= v.capacity && |plan[a]| <= v.maxStops
  }

  // Every route fits the vehicle it is assigned.
  ghost predicate Feasible(stops: seq<Stop>, vehicles: seq<Vehicle>, plan: seq<seq<nat>>)
    requires vehicles != [] && RoutesInRange(plan, |stops|)
  {
    forall a :: 0 <= a < |plan| ==> RouteFitsAssigned(stops, vehicles, plan, a)
  }

  ghost predicate SameLimits(vehicles: seq<Vehicle>) {
    forall k, l :: 0 <= k < |vehicles| && 0 <= l < |vehicles| ==>
      vehicles[k].capacity == vehicles[l].capacity && vehicles[k].maxStops == vehicles[l].maxStops
  }

  lemma {:induction false} RouteFitsSomeVehicle(stops: seq<Stop>, vehicles: seq<Vehicle>, savings: seq<Saving>, a: nat)
    requires StopsFitSomeVehicle(stops, vehicles)
    requires PairsInRange(savings, |stops|) && a < |Plan(stops, vehicles, savings)|
    ensures var route := Plan(stops, vehicles, savings)[a];
            exists v :: v in vehicles && Load(stops, route) <= v.capacity && |route| <= v.maxStops
  {
    var route := Plan(stops, vehicles, savings)[a];
    if |route| >= 2 {
      MergedRouteFitsSomeVehicle(stops, vehicles, savings, a);
    } else {
      assert route == [route[0]];
      SingleLoad(stops, route[0]);
      assert Fits(vehicles, stops[route[0]].demand, 1);
      FitsOneVehicle(vehicles, stops[route[0]].demand, 1);
    }
  }

  lemma {:induction false} UniformFleetFeasible(stops: seq<Stop>, vehicles: seq<Vehicle>, savings: seq<Saving>)
    requires vehicles != [] && SameLimits(vehicles)
    requires StopsFitSomeVehicle(stops, vehicles)
    requires PairsInRange(savings, |stops|)
    ensures Feasible(stops, vehicles, Plan(stops, vehicles, savings))
  {
    var plan := Plan(stops, vehicles, savings);
    forall a | 0 <= a < |plan| ensures RouteFitsAssigned(stops, vehicles, plan, a) {
      RouteFitsSomeVehicle(stops, vehicles, savings, a);
    }
  }
}
