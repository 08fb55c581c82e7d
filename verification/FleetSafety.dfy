// The routes take the vehicles in turn, without a check against the vehicle that fitted. For which fleets does every
// returned route stay within the limits of the vehicle it names?
module FleetSafety {
  import opened Wrappers
  import opened Models
  import opened Sums
  import opened Tours
  import opened Merging
  import opened Savings
  import opened Planning
  import opened TwoOpt
  import opened Solutions

  ghost predicate WithinLimits(vehicles: seq<Vehicle>, views: seq<RouteView>)
    requires vehicles != []
  {
    forall k: nat :: k < |views| ==>
      var v := AssignedVehicle(vehicles, k);
      views[k].vehicleId == v.id && views[k].totalDemand <= v.capacity && |views[k].stopSequence| <= v.maxStops
  }

  // As long as every stop alone fits some vehicle, no returned route overloads the vehicle it names.
  ghost predicate SafeFleet(vehicles: seq<Vehicle>)
    requires vehicles != []
  {
    forall d: Distance, req: RouteOptimizationRequest, savings: seq<Saving>, orders: seq<seq<nat>>,
           views: seq<RouteView> |
      && NonNegative(d) && Symmetric(d) && Triangle(d)
      && req.vehicles == vehicles && StopsFitSomeVehicle(req.stops, vehicles)
      && IsSolution(d, req, savings, orders, views) ::
      WithinLimits(vehicles, views)
  }

  ghost predicate AllClosed(vehicles: seq<Vehicle>) {
    forall k :: 0 <= k < |vehicles| ==> vehicles[k].maxStops == 0
  }

  lemma {:induction false} SolutionWithin(
    d: Distance, req: RouteOptimizationRequest, savings: seq<Saving>, orders: seq<seq<nat>>, views: seq<RouteView>)
    requires req.vehicles != [] && IsSolution(d, req, savings, orders, views)
    ensures WithinLimits(req.vehicles, views) <==>
            Feasible(req.stops, req.vehicles, Plan(req.stops, req.vehicles, savings))
  {
    var plan := Plan(req.stops, req.vehicles, savings);
    forall k: nat | k < |views|
      ensures views[k].vehicleId == AssignedVehicle(req.vehicles, k).id
      ensures views[k].totalDemand == Load(req.stops, plan[k]) && |views[k].stopSequence| == |plan[k]|
    {
      SolvedRouteLoad(d, req, savings, orders, views, k);
      assert SolvedRoute(d, req, plan[k], orders[k], views[k], k);
    }
    if WithinLimits(req.vehicles, views) {
      forall a | 0 <= a < |plan| ensures RouteFitsAssigned(req.stops, req.vehicles, plan, a) {
        var k: nat := a;
        assert views[k].totalDemand <= AssignedVehicle(req.vehicles, k).capacity;
      }
    } else {
      var k: nat :| k < |views| && !(
        && views[k].vehicleId == AssignedVehicle(req.vehicles, k).id
        && views[k].totalDemand <= AssignedVehicle(req.vehicles, k).capacity
        && |views[k].stopSequence| <= AssignedVehicle(req.vehicles, k).maxStops);
      assert !RouteFitsAssigned(req.stops, req.vehicles, plan, k);
    }
  }

  // ----- Safe fleets -----

  lemma {:induction false} OpenFleet(stops: seq<Stop>, vehicles: seq<Vehicle>)
    requires stops != [] && StopsFitSomeVehicle(stops, vehicles)
    ensures !AllClosed(vehicles)
  {
    assert Fits(vehicles, stops[0].demand, 1);
  }

  // Where no vehicle takes a stop there are no stops that fit.
  lemma {:induction false} ClosedFleet(stops: seq<Stop>, vehicles: seq<Vehicle>, savings: seq<Saving>)
    requires vehicles != [] && AllClosed(vehicles) && StopsFitSomeVehicle(stops, vehicles)
    requires PairsInRange(savings, |stops|)
    ensures Feasible(stops, vehicles, Plan(stops, vehicles, savings))
  {
    if stops != [] {
      OpenFleet(stops, vehicles);
      assert false;
    }
    assert |MergeAll(vehicles, Initial(stops), savings).routes| == 0;
  }

  lemma {:induction false} SameOrClosedIsSafe(vehicles: seq<Vehicle>)
    requires vehicles != [] && (SameLimits(vehicles) || AllClosed(vehicles))
    ensures SafeFleet(vehicles)
  {
    forall d: Distance, req: RouteOptimizationRequest, savings: seq<Saving>, orders: seq<seq<nat>>,
           views: seq<RouteView> |
      && NonNegative(d) && Symmetric(d) && Triangle(d)
      && req.vehicles == vehicles && StopsFitSomeVehicle(req.stops, vehicles)
      && IsSolution(d, req, savings, orders, views)
      ensures WithinLimits(vehicles, views)
    {
      if SameLimits(vehicles) {
        UniformFleetFeasible(req.stops, vehicles, savings);
      } else {
        ClosedFleet(req.stops, vehicles, savings);
      }
      SolutionWithin(d, req, savings, orders, views);
    }
  }

  // ----- Unsafe fleets -----

  // n stops at the depot, each of the given demand.
  function FlatStops(n: nat, demand: real): (stops: seq<Stop>)
    ensures |stops| == n && forall k: nat :: k < n ==> stops[k] == Stop(k, ORIGIN, 0, demand)
  {
    seq(n, (k: nat) => Stop(k, ORIGIN, 0, demand))
  }

  function FlatRequest(n: nat, demand: real, vehicles: seq<Vehicle>): RouteOptimizationRequest {
    RouteOptimizationRequest(ORIGIN, FlatStops(n, demand), vehicles)
  }

  // One plan of these stops that overloads its vehicle makes the fleet unsafe.
  lemma {:induction false} FlatUnsafe(n: nat, demand: real, vehicles: seq<Vehicle>, savings: seq<Saving>)
    requires vehicles != [] && Fits(vehicles, demand, 1)
    requires IsListing(Manhattan, ORIGIN, FlatStops(n, demand), savings)
    requires !Feasible(FlatStops(n, demand), vehicles, Plan(FlatStops(n, demand), vehicles, savings))
    ensures !SafeFleet(vehicles)
  {
    var req := FlatRequest(n, demand, vehicles);
    ManhattanMetric();
    var orders, views := SolutionExists(Manhattan, req, savings);
    SolutionWithin(Manhattan, req, savings, orders, views);
    assert StopsFitSomeVehicle(req.stops, vehicles);
  }

  // ----- A smaller vehicle -----

  lemma {:induction false} FullLoadsNeverMerge(n: nat, capacity: real, vehicles: seq<Vehicle>, savings: seq<Saving>)
    requires capacity > 0.0 && forall k :: 0 <= k < |vehicles| ==> vehicles[k].capacity <= capacity
    requires PairsInRange(savings, n)
    ensures MergeAll(vehicles, Initial(FlatStops(n, capacity)), savings) == Initial(FlatStops(n, capacity))
  {
    if savings != [] {
      FullLoadsNeverMerge(n, capacity, vehicles, savings[..|savings| - 1]);
    }
  }

  lemma {:induction false} FullLoadsPlan(n: nat, capacity: real, vehicles: seq<Vehicle>, savings: seq<Saving>)
    requires capacity > 0.0 && forall k :: 0 <= k < |vehicles| ==> vehicles[k].capacity <= capacity
    requires PairsInRange(savings, n)
    ensures Plan(FlatStops(n, capacity), vehicles, savings) == Singletons(n)
  {
    FullLoadsNeverMerge(n, capacity, vehicles, savings);
    NonEmptyAll(Singletons(n));
  }

  lemma {:induction false} SmallModulus(a: nat, n: nat)
    requires a < n
    ensures a % n == a
  {
  }

  // A route of one stop on a vehicle that is too small for it.
  lemma {:induction false} SingleOverload(
    n: nat, demand: real, vehicles: seq<Vehicle>, plan: seq<seq<nat>>, a: nat, s: nat)
    requires a < |vehicles| && vehicles[a].capacity < demand
    requires RoutesInRange(plan, n) && a < |plan| && s < n && plan[a] == [s]
    ensures !Feasible(FlatStops(n, demand), vehicles, plan)
  {
    SingleLoad(FlatStops(n, demand), s);
    SmallModulus(a, |vehicles|);
    assert !RouteFitsAssigned(FlatStops(n, demand), vehicles, plan, a);
  }

  // Stops that fill the largest vehicle stay on their own, in whatever order the savings come; one is on the smaller.
  lemma {:induction false} SmallerVehicleOverloaded(vehicles: seq<Vehicle>, a: nat, b: nat, savings: seq<Saving>)
    requires a < |vehicles| && b < |vehicles| && vehicles[a].capacity < vehicles[b].capacity
    requires vehicles[b].capacity > 0.0 && vehicles[b].maxStops >= 1
    requires forall k :: 0 <= k < |vehicles| ==> vehicles[k].capacity <= vehicles[b].capacity
    requires PairsInRange(savings, a + 1)
    ensures var stops := FlatStops(a + 1, vehicles[b].capacity);
            StopsFitSomeVehicle(stops, vehicles) && !Feasible(stops, vehicles, Plan(stops, vehicles, savings))
  {
    FullLoadsPlan(a + 1, vehicles[b].capacity, vehicles, savings);
    SingleOverload(a + 1, vehicles[b].capacity, vehicles, Singletons(a + 1), a, a);
    assert Fits(vehicles, vehicles[b].capacity, 1);
  }

  // ----- Vehicles with different stop limits -----

  // Loads never matter to these fleets, only the number of stops, up to m.
  ghost predicate CountsOnly(vehicles: seq<Vehicle>, demand: real, m: nat) {
    && m >= 1 && demand <= 0.0
    && (exists k :: 0 <= k < |vehicles| && demand <= vehicles[k].capacity && vehicles[k].maxStops == m)
    && (forall k :: 0 <= k < |vehicles| ==> vehicles[k].maxStops <= m)
  }

  lemma {:induction false} FitsByCount(vehicles: seq<Vehicle>, demand: real, m: nat, load: real, count: nat)
    requires CountsOnly(vehicles, demand, m) && load <= demand
    ensures Fits(vehicles, load, count) <==> count <= m
  {
  }

  // All savings are zero, so the pairs come row by row.
  lemma {:induction false} FlatListing(n: nat, demand: real, savings: seq<Saving>)
    requires IsListing(Manhattan, ORIGIN, FlatStops(n, demand), savings)
    ensures savings == Rows(Manhattan, ORIGIN, FlatStops(n, demand), n)
  {
    var stops := FlatStops(n, demand);
    var rows := Rows(Manhattan, ORIGIN, stops, n);
    forall i: nat, j: nat | i < j < n ensures HasPair(rows, i, j) {
      RowsHave(Manhattan, ORIGIN, stops, n, i, j);
    }
    forall k | 0 <= k < |rows| ensures PairInRange(rows[k], n) {
      assert IsListed(Manhattan, ORIGIN, stops, rows[k]);
    }
    forall k, l | 0 <= k < l < |rows| ensures Outranks(rows[k], rows[l]) {
      assert IsListed(Manhattan, ORIGIN, stops, rows[k]) && IsListed(Manhattan, ORIGIN, stops, rows[l]);
    }
    ListingUnique(Manhattan, ORIGIN, stops, savings, rows);
  }

  // Below b every stop is in a route of m stops; the route that starts at b has the stops up to e; the rest are on
  // their own.
  ghost predicate Filling(st: MergeState, n: nat, m: nat, b: nat, e: nat) {
    && Shaped(st, n) && RootsNameRoutes(st, n)
    && b <= e <= n && e <= b + m
    && (forall s: nat :: s < b ==> Root(st, s) < b && |st.routes[Root(st, s)]| == m)
    && (forall s: nat :: b <= s < e ==> Root(st, s) == b)
    && (forall s: nat {:trigger Root(st, s)} :: e <= s < n ==> Root(st, s) == s && st.routes[s] == [s])
    && (b < e ==> |st.routes[b]| == e - b)
  }

  ghost predicate LightLoads(st: MergeState, demand: real) {
    |st.loads| == |st.routes| &&
    forall r :: 0 <= r < |st.routes| && st.routes[r] != [] ==> st.loads[r] <= demand
  }

  ghost predicate SameBelow(st: MergeState, next: MergeState, b: nat) {
    && b <= |st.routes| == |next.routes|
    && forall r: nat :: r < b ==> next.routes[r] == st.routes[r]
  }

  lemma {:induction false} FillNext(
    vehicles: seq<Vehicle>, demand: real, m: nat, n: nat, st: MergeState, b: nat, e: nat, p: Saving)
    requires CountsOnly(vehicles, demand, m) && LightLoads(st, demand)
    requires Filling(st, n, m, b, e) && b < e < n && e < b + m && p.i == b && p.j == e
    ensures Filling(MergeStep(vehicles, st, p), n, m, b, e + 1)
    ensures LightLoads(MergeStep(vehicles, st, p), demand)
    ensures SameBelow(st, MergeStep(vehicles, st, p), b)
  {
    var next := MergeStep(vehicles, st, p);
    assert Root(st, b) == b && Root(st, e) == e;
    FitsByCount(vehicles, demand, m, st.loads[b] + st.loads[e], |st.routes[b]| + |st.routes[e]|);
    assert Merges(vehicles, st, p);
    StepRoots(vehicles, st, p, n);
    assert next.routes == st.routes[b := st.routes[b] + st.routes[e]][e := []];
  }

  // Pairs that merge nothing: a full route on one side, or one route on both.
  lemma {:induction false} FillStays(
    vehicles: seq<Vehicle>, demand: real, m: nat, n: nat, st: MergeState, b: nat, e: nat, p: Saving)
    requires CountsOnly(vehicles, demand, m) && LightLoads(st, demand)
    requires Filling(st, n, m, b, e) && p.i < p.j < n && p.i < e
    requires p.i < b || p.j < e || e == b + m
    ensures MergeStep(vehicles, st, p) == st
  {
    var ri, rj := Root(st, p.i), Root(st, p.j);
    assert p.i in st.routes[ri] && p.j in st.routes[rj];
    if ri != rj {
      FitsByCount(vehicles, demand, m, st.loads[ri] + st.loads[rj], |st.routes[ri]| + |st.routes[rj]|);
    }
  }

  // How far the row of b has filled its route after the pairs up to j.
  function Upto(b: nat, m: nat, j: nat): nat {
    if j < b + m then j else b + m
  }

  ghost predicate Flat(vehicles: seq<Vehicle>, demand: real, m: nat, st: MergeState, b: nat, e: nat) {
    CountsOnly(vehicles, demand, m) && LightLoads(st, demand) && Filling(st, |st.routes|, m, b, e)
  }

  predicate IsPair(p: Saving, i: nat, j: nat) {
    p.i == i && p.j == j - 1 && p.value == 0.0
  }

  // The pair (i, j - 1) leads from one table state to the other.
  ghost predicate PairLeads(vehicles: seq<Vehicle>, st: MergeState, i: nat, j: nat, next: MergeState) {
    && i < j <= |st.routes| && Shaped(st, |st.routes|)
    && forall p :: IsPair(p, i, j) ==> next == MergeStep(vehicles, st, p)
  }

  // The pair (b, j - 1): stop j - 1 joins the route, if there is room.
  lemma {:induction false} FlatStep(vehicles: seq<Vehicle>, demand: real, m: nat, st: MergeState, b: nat, j: nat)
    returns (next: MergeState)
    requires b + 1 < j <= |st.routes| && Flat(vehicles, demand, m, st, b, Upto(b, m, j - 1))
    ensures PairLeads(vehicles, st, b, j, next)
    ensures Flat(vehicles, demand, m, next, b, Upto(b, m, j))
    ensures SameBelow(st, next, b)
  {
    var p := Saving(b, j - 1, 0.0);
    next := MergeStep(vehicles, st, p);
    if j - 1 < b + m {
      FillNext(vehicles, demand, m, |st.routes|, st, b, j - 1, p);
    } else {
      FillStays(vehicles, demand, m, |st.routes|, st, b, b + m, p);
    }
  }

  // The pairs (i, i + 1) to (i, j - 1) lead from one table state to the other.
  ghost predicate RowLeads(vehicles: seq<Vehicle>, st: MergeState, i: nat, j: nat, next: MergeState) {
    if j <= i + 1 then next == st
    else exists before :: RowLeads(vehicles, st, i, j - 1, before) && PairLeads(vehicles, before, i, j, next)
  }

  // The row of the first stop of a route fills it, up to m stops.
  lemma {:induction false} RowFills(
    vehicles: seq<Vehicle>, demand: real, m: nat, st: MergeState, b: nat, j: nat)
    returns (next: MergeState)
    requires b < j <= |st.routes| && Flat(vehicles, demand, m, st, b, b + 1)
    ensures RowLeads(vehicles, st, b, j, next)
    ensures Flat(vehicles, demand, m, next, b, Upto(b, m, j))
    ensures SameBelow(st, next, b)
  {
    if j == b + 1 {
      assert Upto(b, m, j) == b + 1;
      next := st;
    } else {
      var before := RowFills(vehicles, demand, m, st, b, j - 1);
      next := FlatStep(vehicles, demand, m, before, b, j);
    }
  }

  // The rows of the stops in full routes change nothing, nor do any rows once all stops are in.
  lemma {:induction false} RowStays(
    vehicles: seq<Vehicle>, demand: real, m: nat, st: MergeState, b: nat, e: nat, i: nat, j: nat)
    requires Flat(vehicles, demand, m, st, b, e)
    requires (e == |st.routes| || e == b + m) && i < e && i < j <= |st.routes|
    ensures RowLeads(vehicles, st, i, j, st)
  {
    if j > i + 1 {
      RowStays(vehicles, demand, m, st, b, e, i, j - 1);
      FillStays(vehicles, demand, m, |st.routes|, st, b, e, Saving(i, j - 1, 0.0));
      assert PairLeads(vehicles, st, i, j, st);
    }
  }

  // ----- The rows are the list -----

  function FlatRow(n: nat, demand: real, i: nat, j: nat): (row: seq<Saving>)
    requires i < j <= n
    ensures PairsInRange(row, n)
  {
    var row := Row(Manhattan, ORIGIN, FlatStops(n, demand), i, j);
    assert forall k :: 0 <= k < |row| ==> row[k].i == i && row[k].j < j && row[k] in row;
    row
  }

  lemma {:induction false} FlatRowSnoc(n: nat, demand: real, i: nat, j: nat)
    requires i + 1 < j <= n
    ensures FlatRow(n, demand, i, j) == FlatRow(n, demand, i, j - 1) + [Saving(i, j - 1, 0.0)]
  {
  }

  lemma {:induction false} RowIsMerged(
    vehicles: seq<Vehicle>, st: MergeState, demand: real, i: nat, j: nat, next: MergeState)
    requires Shaped(st, |st.routes|) && i < j <= |st.routes| && RowLeads(vehicles, st, i, j, next)
    ensures next == MergeAll(vehicles, st, FlatRow(|st.routes|, demand, i, j))
  {
    if j > i + 1 {
      var before :| RowLeads(vehicles, st, i, j - 1, before) && PairLeads(vehicles, before, i, j, next);
      RowIsMerged(vehicles, st, demand, i, j - 1, before);
      FlatRowSnoc(|st.routes|, demand, i, j);
      assert IsPair(Saving(i, j - 1, 0.0), i, j);
      MergeAllSnoc(vehicles, st, FlatRow(|st.routes|, demand, i, j - 1), Saving(i, j - 1, 0.0));
    }
  }

  function FlatRows(n: nat, demand: real, i: nat): (rows: seq<Saving>)
    requires i <= n
    ensures PairsInRange(rows, n)
  {
    var rows := Rows(Manhattan, ORIGIN, FlatStops(n, demand), i);
    assert forall k :: 0 <= k < |rows| ==> rows[k] in rows;
    rows
  }

  lemma {:induction false} FlatRowsSnoc(n: nat, demand: real, i: nat)
    requires 0 < i <= n
    ensures FlatRows(n, demand, i) == FlatRows(n, demand, i - 1) + FlatRow(n, demand, i - 1, n)
  {
  }

  lemma {:induction false} MergeAllTwo(
    vehicles: seq<Vehicle>, st: MergeState, a: seq<Saving>, b: seq<Saving>, mid: MergeState, last: MergeState)
    requires Shaped(st, |st.routes|) && PairsInRange(a, |st.routes|) && PairsInRange(b, |st.routes|)
    requires mid == MergeAll(vehicles, st, a) && last == MergeAll(vehicles, mid, b)
    ensures PairsInRange(a + b, |st.routes|) && last == MergeAll(vehicles, st, a + b)
  {
    MergeAllConcat(vehicles, st, a, b);
  }

  // The tables after the rows below i.
  ghost predicate RowsLead(n: nat, demand: real, vehicles: seq<Vehicle>, i: nat, st: MergeState) {
    && i <= n && |st.routes| == n && Shaped(st, n)
    && if i == 0 then st == Initial(FlatStops(n, demand))
       else exists before :: RowsLead(n, demand, vehicles, i - 1, before) && LastRowLeads(vehicles, before, i, n, st)
  }

  ghost predicate LastRowLeads(vehicles: seq<Vehicle>, st: MergeState, i: nat, n: nat, next: MergeState) {
    i > 0 && RowLeads(vehicles, st, i - 1, n, next)
  }

  lemma {:induction false} RowsMergedNext(
    n: nat, demand: real, vehicles: seq<Vehicle>, i: nat, before: MergeState, st: MergeState)
    requires 0 < i <= n
    requires before == MergeAll(vehicles, Initial(FlatStops(n, demand)), FlatRows(n, demand, i - 1))
    requires st == MergeAll(vehicles, before, FlatRow(n, demand, i - 1, n))
    ensures st == MergeAll(vehicles, Initial(FlatStops(n, demand)), FlatRows(n, demand, i))
  {
    MergeAllTwo(vehicles, Initial(FlatStops(n, demand)), FlatRows(n, demand, i - 1), FlatRow(n, demand, i - 1, n),
                before, st);
    FlatRowsSnoc(n, demand, i);
  }

  lemma {:induction false} RowsAreMerged(n: nat, demand: real, vehicles: seq<Vehicle>, i: nat, st: MergeState)
    requires RowsLead(n, demand, vehicles, i, st)
    ensures st == MergeAll(vehicles, Initial(FlatStops(n, demand)), FlatRows(n, demand, i))
  {
    if i > 0 {
      var before :| RowsLead(n, demand, vehicles, i - 1, before) && LastRowLeads(vehicles, before, i, n, st);
      RowsAreMerged(n, demand, vehicles, i - 1, before);
      RowIsMerged(vehicles, before, demand, i - 1, n, st);
      RowsMergedNext(n, demand, vehicles, i, before, st);
    }
  }

  lemma {:induction false} RowsLeadNext(
    n: nat, demand: real, vehicles: seq<Vehicle>, i: nat, st: MergeState, next: MergeState)
    requires 0 < i <= n && RowsLead(n, demand, vehicles, i - 1, st)
    requires RowLeads(vehicles, st, i - 1, n, next) && |next.routes| == n && Shaped(next, n)
    ensures RowsLead(n, demand, vehicles, i, next)
  {
    assert LastRowLeads(vehicles, st, i, n, next);
  }

  lemma {:induction false} FlatPlan(n: nat, demand: real, vehicles: seq<Vehicle>, st: MergeState, savings: seq<Saving>)
    requires RowsLead(n, demand, vehicles, n, st)
    requires IsListing(Manhattan, ORIGIN, FlatStops(n, demand), savings)
    ensures Plan(FlatStops(n, demand), vehicles, savings) == NonEmpty(st.routes)
  {
    FlatListing(n, demand, savings);
    RowsAreMerged(n, demand, vehicles, n, st);
  }

  // ----- Full routes -----

  // So many full routes take so many stops.
  function Times(q: nat, m: nat): nat {
    if q == 0 then 0 else Times(q - 1, m) + m
  }

  ghost predicate FullRoutes(kept: seq<seq<nat>>, q: nat, m: nat) {
    |kept| == q && forall k :: 0 <= k < q ==> |kept[k]| == m
  }

  // After the rows below b, with b stops in q full routes.
  ghost predicate Blocks(
    vehicles: seq<Vehicle>, demand: real, m: nat, n: nat, b: nat, q: nat, st: MergeState)
  {
    && RowsLead(n, demand, vehicles, b, st)
    && Flat(vehicles, demand, m, st, b, if b < n then b + 1 else b)
    && FullRoutes(NonEmpty(st.routes[..b]), q, m)
  }

  lemma {:induction false} NoBlocks(vehicles: seq<Vehicle>, demand: real, m: nat, n: nat)
    requires CountsOnly(vehicles, demand, m)
    ensures Blocks(vehicles, demand, m, n, 0, 0, Initial(FlatStops(n, demand)))
  {
    var st := Initial(FlatStops(n, demand));
    assert forall s: nat :: s < n ==> Root(st, s) == s && st.routes[s] == [s];
  }

  // The rows of the stops already in full routes.
  lemma {:induction false} RowsStay(
    vehicles: seq<Vehicle>, demand: real, m: nat, n: nat, b: nat, i: nat, st: MergeState)
    requires |st.routes| == n && Flat(vehicles, demand, m, st, b, b + m) && b < i <= b + m
    requires RowsLead(n, demand, vehicles, b + 1, st)
    ensures RowsLead(n, demand, vehicles, i, st)
  {
    if i > b + 1 {
      RowsStay(vehicles, demand, m, n, b, i - 1, st);
      RowStays(vehicles, demand, m, st, b, b + m, i - 1, n);
      RowsLeadNext(n, demand, vehicles, i, st, st);
    }
  }

  lemma {:induction false} RouteHasRoot(st: MergeState, n: nat, r: nat)
    requires Shaped(st, n) && RootsNameRoutes(st, n) && r < n && st.routes[r] != []
    ensures exists s :: 0 <= s < n && Root(st, s) == r
  {
    var s := st.routes[r][0];
    assert InRange(st.routes[r], n) && s in st.routes[r];
    assert Root(st, s) == r;
  }

  lemma {:induction false} Advance(n: nat, m: nat, st: MergeState, b: nat)
    requires m >= 1 && b + m <= n && Filling(st, n, m, b, b + m)
    ensures Filling(st, n, m, b + m, if b + m < n then b + m + 1 else b + m)
    ensures forall r :: b < r < b + m ==> st.routes[r] == []
  {
    forall r: nat | b < r < b + m ensures st.routes[r] == [] {
      if st.routes[r] != [] {
        RouteHasRoot(st, n, r);
        assert false;
      }
    }
    if b + m < n {
      assert Root(st, b + m) == b + m;
    }
  }

  lemma {:induction false} OneMoreFull(
    before: seq<seq<nat>>, routes: seq<seq<nat>>, b: nat, m: nat, q: nat)
    requires m >= 1 && b + m <= |routes| == |before|
    requires FullRoutes(NonEmpty(before[..b]), q, m)
    requires forall r :: 0 <= r < b ==> routes[r] == before[r]
    requires |routes[b]| == m && forall r :: b < r < b + m ==> routes[r] == []
    ensures FullRoutes(NonEmpty(routes[..b + m]), q + 1, m)
  {
    var empty := routes[b + 1..b + m];
    assert routes[..b] == before[..b];
    assert routes[..b + m] == routes[..b] + ([routes[b]] + empty);
    NonEmptyConcat(routes[..b], [routes[b]] + empty);
    NonEmptyNone(empty);
    assert ([routes[b]] + empty)[1..] == empty;
  }

  lemma {:induction false} RowFull(vehicles: seq<Vehicle>, demand: real, m: nat, n: nat, st: MergeState, b: nat)
    returns (next: MergeState)
    requires b + m <= n == |st.routes| && Flat(vehicles, demand, m, st, b, b + 1)
    ensures RowLeads(vehicles, st, b, n, next) && |next.routes| == n
    ensures Flat(vehicles, demand, m, next, b, b + m) && SameBelow(st, next, b)
  {
    assert Upto(b, m, n) == b + m;
    next := RowFills(vehicles, demand, m, st, b, n);
  }

  // The row of b fills its route, and the rows up to b + m leave it so.
  lemma {:induction false} BlockLeads(
    vehicles: seq<Vehicle>, demand: real, m: nat, n: nat, b: nat, st: MergeState, next: MergeState)
    requires m >= 1 && b + m <= n && RowsLead(n, demand, vehicles, b, st) && RowLeads(vehicles, st, b, n, next)
    requires |next.routes| == n && Flat(vehicles, demand, m, next, b, b + m)
    ensures RowsLead(n, demand, vehicles, b + m, next)
  {
    RowsLeadNext(n, demand, vehicles, b + 1, st, next);
    RowsStay(vehicles, demand, m, n, b, b + m, next);
  }

  lemma {:induction false} NextBlock(
    vehicles: seq<Vehicle>, demand: real, m: nat, n: nat, b: nat, q: nat, st: MergeState)
    returns (next: MergeState)
    requires Blocks(vehicles, demand, m, n, b, q, st) && b + m <= n
    ensures Blocks(vehicles, demand, m, n, b + m, q + 1, next)
  {
    next := RowFull(vehicles, demand, m, n, st, b);
    BlockLeads(vehicles, demand, m, n, b, st, next);
    Advance(n, m, next, b);
    OneMoreFull(st.routes, next.routes, b, m, q);
  }

  lemma {:induction false} BlocksFill(vehicles: seq<Vehicle>, demand: real, m: nat, n: nat, q: nat)
    returns (st: MergeState)
    requires CountsOnly(vehicles, demand, m) && Times(q, m) <= n
    ensures Blocks(vehicles, demand, m, n, Times(q, m), q, st)
  {
    if q == 0 {
      NoBlocks(vehicles, demand, m, n);
      st := Initial(FlatStops(n, demand));
    } else {
      var b := Times(q - 1, m);
      assert Times(q, m) == b + m;
      var before := BlocksFill(vehicles, demand, m, n, q - 1);
      st := NextBlock(vehicles, demand, m, n, b, q - 1, before);
    }
  }

  // ----- Exactly -----

  // The a-th route is full, and longer than its vehicle takes.
  lemma {:induction false} ShorterVehicleOverloaded(
    vehicles: seq<Vehicle>, demand: real, m: nat, a: nat, savings: seq<Saving>)
    requires CountsOnly(vehicles, demand, m) && a < |vehicles| && vehicles[a].maxStops < m
    requires IsListing(Manhattan, ORIGIN, FlatStops(Times(a + 1, m), demand), savings)
    ensures var stops := FlatStops(Times(a + 1, m), demand); !Feasible(stops, vehicles, Plan(stops, vehicles, savings))
  {
    var n := Times(a + 1, m);
    var st := BlocksFill(vehicles, demand, m, n, a + 1);
    FlatPlan(n, demand, vehicles, st, savings);
    assert st.routes[..n] == st.routes;
    SmallModulus(a, |vehicles|);
    assert !RouteFitsAssigned(FlatStops(n, demand), vehicles, Plan(FlatStops(n, demand), vehicles, savings), a);
  }

  lemma {:induction false} LastSingle(st: MergeState, m: nat, b: nat)
    requires Filling(st, b + 1, m, b, b + 1)
    ensures st.routes == st.routes[..b] + [[b]]
  {
    assert Root(st, b) == b;
    assert b in st.routes[b];
    assert st.routes[b] == [b];
  }

  lemma {:induction false} LastKept(st: MergeState, m: nat, b: nat, q: nat)
    requires Filling(st, b + 1, m, b, b + 1) && FullRoutes(NonEmpty(st.routes[..b]), q, m)
    ensures q < |NonEmpty(st.routes)| && NonEmpty(st.routes)[q] == [b]
  {
    LastSingle(st, m, b);
    NonEmptyConcat(st.routes[..b], [[b]]);
    NonEmptyAll([[b]]);
  }

  lemma {:induction false} LastRoute(vehicles: seq<Vehicle>, demand: real, m: nat, a: nat, savings: seq<Saving>)
    requires CountsOnly(vehicles, demand, m)
    requires IsListing(Manhattan, ORIGIN, FlatStops(Times(a, m) + 1, demand), savings)
    ensures var plan := Plan(FlatStops(Times(a, m) + 1, demand), vehicles, savings);
            a < |plan| && plan[a] == [Times(a, m)]
  {
    var b := Times(a, m);
    var st := BlocksFill(vehicles, demand, m, b + 1, a);
    assert RowLeads(vehicles, st, b, b + 1, st);
    RowsLeadNext(b + 1, demand, vehicles, b + 1, st, st);
    FlatPlan(b + 1, demand, vehicles, st, savings);
    LastKept(st, m, b, a);
  }

  // The a-th route is a single stop, and heavier than its vehicle takes.
  lemma {:induction false} WeakerVehicleOverloaded(
    vehicles: seq<Vehicle>, demand: real, m: nat, a: nat, savings: seq<Saving>)
    requires CountsOnly(vehicles, demand, m) && a < |vehicles| && vehicles[a].capacity < demand
    requires IsListing(Manhattan, ORIGIN, FlatStops(Times(a, m) + 1, demand), savings)
    ensures var stops := FlatStops(Times(a, m) + 1, demand); !Feasible(stops, vehicles, Plan(stops, vehicles, savings))
  {
    var n := Times(a, m) + 1;
    LastRoute(vehicles, demand, m, a, savings);
    SingleOverload(n, demand, vehicles, Plan(FlatStops(n, demand), vehicles, savings), a, Times(a, m));
  }

  // The largest value over a fleet.
  lemma {:induction false} Most(vehicles: seq<Vehicle>, f: Vehicle -> real) returns (b: nat)
    requires vehicles != []
    ensures b < |vehicles| && forall k :: 0 <= k < |vehicles| ==> f(vehicles[k]) <= f(vehicles[b])
  {
    if |vehicles| == 1 {
      b := 0;
    } else {
      b := Most(vehicles[1..], f);
      assert forall k :: 1 <= k < |vehicles| ==> vehicles[k] == vehicles[1..][k - 1];
      b := if f(vehicles[b + 1]) >= f(vehicles[0]) then b + 1 else 0;
    }
  }

  lemma {:induction false} UnequalStopsUnsafe(vehicles: seq<Vehicle>, a: nat, b: nat)
    requires a < |vehicles| && b < |vehicles| && vehicles[a].maxStops < vehicles[b].maxStops
    requires forall k :: 0 <= k < |vehicles| ==> vehicles[k].maxStops <= vehicles[b].maxStops
    ensures !SafeFleet(vehicles)
  {
    var m := vehicles[b].maxStops;
    var demand := if vehicles[b].capacity <= 0.0 then vehicles[b].capacity else 0.0;
    assert demand <= vehicles[b].capacity && vehicles[b].maxStops == m;
    var n := Times(a + 1, m);
    var savings := ListingExists(Manhattan, ORIGIN, FlatStops(n, demand));
    ShorterVehicleOverloaded(vehicles, demand, m, a, savings);
    FlatUnsafe(n, demand, vehicles, savings);
  }

  lemma {:induction false} UnequalLoadsUnsafe(vehicles: seq<Vehicle>, a: nat, b: nat, m: nat)
    requires a < |vehicles| && b < |vehicles| && vehicles[a].capacity < vehicles[b].capacity
    requires m >= 1 && forall k :: 0 <= k < |vehicles| ==> vehicles[k].maxStops == m
    requires forall k :: 0 <= k < |vehicles| ==> vehicles[k].capacity <= vehicles[b].capacity
    ensures !SafeFleet(vehicles)
  {
    var demand := vehicles[b].capacity;
    assert demand <= vehicles[b].capacity && vehicles[b].maxStops == m;
    if demand > 0.0 {
      var savings := ListingExists(Manhattan, ORIGIN, FlatStops(a + 1, demand));
      SmallerVehicleOverloaded(vehicles, a, b, savings);
      FlatUnsafe(a + 1, demand, vehicles, savings);
    } else {
      var n := Times(a, m) + 1;
      var savings := ListingExists(Manhattan, ORIGIN, FlatStops(n, demand));
      WeakerVehicleOverloaded(vehicles, demand, m, a, savings);
      FlatUnsafe(n, demand, vehicles, savings);
    }
  }

  // A fleet is safe exactly when all its vehicles have the same limits, or none takes any stop.
  lemma {:induction false} SafeFleetExactly(vehicles: seq<Vehicle>)
    requires vehicles != []
    ensures SafeFleet(vehicles) <==> SameLimits(vehicles) || AllClosed(vehicles)
  {
    if SameLimits(vehicles) || AllClosed(vehicles) {
      SameOrClosedIsSafe(vehicles);
    } else {
      var b := Most(vehicles, (v: Vehicle) => v.maxStops as real);
      if a :| 0 <= a < |vehicles| && vehicles[a].maxStops < vehicles[b].maxStops {
        UnequalStopsUnsafe(vehicles, a, b);
      } else {
        var c := Most(vehicles, (v: Vehicle) => v.capacity);
        var a :| 0 <= a < |vehicles| && vehicles[a].capacity < vehicles[c].capacity;
        UnequalLoadsUnsafe(vehicles, a, c, vehicles[b].maxStops);
      }
    }
  }
}
