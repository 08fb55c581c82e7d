// What the 2-opt pass never tries: swapping two neighbours. Routes of up to two stops have nothing to gain from it;
// for every larger number of stops there is a request whose only route is left longer than need be.
module NeighbourSwaps {
  import opened Wrappers
  import opened Models
  import opened Sums
  import opened Tours
  import opened Merging
  import opened Savings
  import opened Planning
  import opened TwoOpt
  import opened Solutions

  // No reversal at all pays, neighbours included.
  ghost predicate FullyOptimal(d: Distance, depot: Coordinate, stops: seq<Stop>, a: seq<nat>)
    requires InRange(a, |stops|)
  {
    forall i: nat, j: nat :: i <= j < |a| ==> NoGain(d, depot, stops, a, i, j)
  }

  // ----- Up to two stops -----

  lemma {:induction false} ShortRouteOptimal(d: Distance, depot: Coordinate, stops: seq<Stop>, a: seq<nat>)
    requires Symmetric(d) && InRange(a, |stops|) && |a| <= 2
    ensures FullyOptimal(d, depot, stops, a)
  {
    forall i: nat, j: nat | i <= j < |a| ensures NoGain(d, depot, stops, a, i, j) {
      TourReverseSegment(stops, a, i, j);
      ReversalDelta(d, depot, Tour(stops, a), i, j);
    }
  }

  // ----- Three stops and more -----

  function Place(k: nat): Coordinate {
    if k == 0 then Coordinate(3.0, 4.0)
    else if k == 1 then Coordinate(-1.0, 1.0)
    else if k == 2 then Coordinate(3.0, 0.0)
    else ORIGIN
  }

  // Three stops around the depot, any others at the depot, and one vehicle with room for all.
  function SwapStops(n: nat): (stops: seq<Stop>)
    ensures |stops| == n
    ensures forall k :: 0 <= k < n ==> stops[k] == Stop(k, Place(k), 0, 0.0)
  {
    seq(n, (k: nat) => Stop(k, Place(k), 0, 0.0))
  }

  function SwapRequest(n: nat): RouteOptimizationRequest {
    RouteOptimizationRequest(ORIGIN, SwapStops(n), [Vehicle(0, 100.0, n)])
  }

  // The stop the route takes k-th, and the position of stop k.
  function Taken(k: nat): nat {
    if k == 1 then 2 else if k == 2 then 1 else k
  }

  function Worth(k: nat): real {
    if k == 1 then 6.0 else if k == 2 then 2.0 else 0.0
  }

  // The pairs (0, 2), (0, 1), (0, 3), ..., in this order.
  function Star(m: nat): (pairs: seq<Saving>)
    ensures |pairs| == m
    ensures forall k :: 0 <= k < m ==> pairs[k] == Saving(0, Taken(k + 1), Worth(k + 1))
  {
    seq(m, (k: nat) => Saving(0, Taken(k + 1), Worth(k + 1)))
  }

  function Away(k: nat): real {
    if k == 0 then 7.0 else if k == 1 then 2.0 else if k == 2 then 3.0 else 0.0
  }

  lemma {:induction false} PlaceAway(k: nat)
    ensures Manhattan(ORIGIN, Place(k)) == Manhattan(Place(k), ORIGIN) == Away(k)
  {
  }

  lemma {:induction false} PlaceApart(i: nat, j: nat)
    requires i < j
    ensures Manhattan(Place(i), Place(j)) ==
            if j >= 3 then Away(i) else if i == 1 then 5.0 else if j == 1 then 7.0 else 4.0
  {
    if j >= 3 {
      PlaceAway(i);
    }
  }

  lemma {:induction false} SavingAt(n: nat, i: nat, j: nat)
    requires i < j < n
    ensures SavingOf(Manhattan, ORIGIN, SwapStops(n)[i], SwapStops(n)[j]) == if i == 0 then Worth(Taken(j)) else 0.0
  {
    PlaceAway(i);
    PlaceAway(j);
    PlaceApart(i, j);
  }

  lemma {:induction false} StarHas(n: nat, q: Saving)
    requires n >= 3 && IsListed(Manhattan, ORIGIN, SwapStops(n), q)
    ensures q.i == 0 ==> q in Star(n - 1)
    ensures q.i != 0 ==> q.value == 0.0
  {
    SavingAt(n, q.i, q.j);
    if q.i == 0 {
      assert Star(n - 1)[Taken(q.j) - 1] == q;
    }
  }

  lemma {:induction false} StarListed(n: nat, savings: seq<Saving>, p: Saving)
    requires n >= 3 && IsListing(Manhattan, ORIGIN, SwapStops(n), savings) && p in Star(n - 1)
    ensures p in savings && p.i == 0 && p.value >= 0.0
  {
    var k: nat :| k < n - 1 && Star(n - 1)[k] == p;
    assert HasPair(savings, 0, Taken(k + 1));
    var q :| q in savings && q.i == 0 && q.j == Taken(k + 1);
    assert IsListed(Manhattan, ORIGIN, SwapStops(n), q);
    SavingAt(n, q.i, q.j);
  }

  lemma {:induction false} StarRanked(m: nat)
    ensures Ranked(Star(m))
  {
  }

  lemma {:induction false} StarFirst(n: nat, savings: seq<Saving>)
    requires n >= 3 && IsListing(Manhattan, ORIGIN, SwapStops(n), savings)
    ensures Star(n - 1) <= savings
  {
    var star := Star(n - 1);
    forall p | p in star ensures p in savings && p.i == 0 && p.value >= 0.0 {
      StarListed(n, savings, p);
    }
    forall p, q | p in star && q in savings && q !in star ensures Outranks(p, q) {
      StarHas(n, q);
    }
    StarRanked(n - 1);
    RankedPrefix(star, savings);
  }

  // The first m + 1 stops the route takes.
  function Collected(m: nat): (order: seq<nat>)
    ensures |order| == m + 1 && forall k :: 0 <= k <= m ==> order[k] == Taken(k)
  {
    seq(m + 1, (k: nat) => Taken(k))
  }

  ghost predicate Collecting(st: MergeState, n: nat, m: nat) {
    && Shaped(st, n)
    && forall s {:trigger Root(st, s)} :: 0 <= s < n ==>
         && Root(st, s) == (if Taken(s) <= m then 0 else s)
         && st.routes[s] == (if s == 0 then Collected(m) else if Taken(s) <= m then [] else [s])
         && st.loads[s] == 0.0
  }

  lemma {:induction false} CollectedHas(m: nat, s: nat)
    ensures s in Collected(m) <==> Taken(s) <= m
  {
    if Taken(s) <= m {
      assert Collected(m)[Taken(s)] == s;
    }
  }

  lemma {:induction false} CollectMerges(n: nat, st: MergeState, m: nat)
    requires n >= 3 && m + 1 < n && Collecting(st, n, m)
    ensures var p := Saving(0, Taken(m + 1), Worth(m + 1));
            && Merges(SwapRequest(n).vehicles, st, p)
            && Root(st, 0) == 0 && Root(st, p.j) == p.j != 0
            && st.routes[0] + st.routes[p.j] == Collected(m + 1)
  {
    var j := Taken(m + 1);
    assert Root(st, j) == j && Root(st, 0) == 0;
    assert st.routes[0] + st.routes[j] == Collected(m + 1);
    assert st.loads[0] + st.loads[j] == 0.0;
    assert SwapRequest(n).vehicles[0] == Vehicle(0, 100.0, n);
  }

  lemma {:induction false} CollectTables(n: nat, st: MergeState, m: nat, s: nat)
    requires n >= 3 && m + 1 < n && Collecting(st, n, m) && s < n
    ensures var next := MergeStep(SwapRequest(n).vehicles, st, Saving(0, Taken(m + 1), Worth(m + 1)));
            && Root(next, s) == (if Taken(s) <= m + 1 then 0 else s)
            && next.routes[s] == (if s == 0 then Collected(m + 1) else if Taken(s) <= m + 1 then [] else [s])
            && next.loads[s] == 0.0
  {
    CollectMerges(n, st, m);
    CollectedHas(m + 1, s);
    assert Root(st, s) == if Taken(s) <= m then 0 else s;
    assert s == Taken(m + 1) <==> Taken(s) == m + 1;
    var next := MergeStep(SwapRequest(n).vehicles, st, Saving(0, Taken(m + 1), Worth(m + 1)));
    assert next.routes == st.routes[0 := Collected(m + 1)][Taken(m + 1) := []];
  }

  lemma {:induction false} CollectNext(n: nat, st: MergeState, m: nat)
    requires n >= 3 && m + 1 < n && Collecting(st, n, m)
    ensures Collecting(MergeStep(SwapRequest(n).vehicles, st, Saving(0, Taken(m + 1), Worth(m + 1))), n, m + 1)
  {
    var next := MergeStep(SwapRequest(n).vehicles, st, Saving(0, Taken(m + 1), Worth(m + 1)));
    forall s | 0 <= s < n
      ensures Root(next, s) == (if Taken(s) <= m + 1 then 0 else s)
      ensures next.routes[s] == (if s == 0 then Collected(m + 1) else if Taken(s) <= m + 1 then [] else [s])
      ensures next.loads[s] == 0.0
    {
      CollectTables(n, st, m, s);
    }
  }

  lemma {:induction false} CollectStart(n: nat)
    ensures Collecting(Initial(SwapStops(n)), n, 0)
  {
    assert Collected(0) == [0];
  }

  lemma {:induction false} StarInRange(n: nat, m: nat)
    requires n >= 3 && m < n
    ensures PairsInRange(Star(m), n)
  {
  }

  lemma {:induction false} StarStep(n: nat, vehicles: seq<Vehicle>, m: nat)
    requires n >= 3 && m + 1 < n
    ensures PairsInRange(Star(m), n) && PairsInRange(Star(m + 1), n)
    ensures MergeAll(vehicles, Initial(SwapStops(n)), Star(m + 1)) ==
            MergeStep(vehicles, MergeAll(vehicles, Initial(SwapStops(n)), Star(m)),
                      Saving(0, Taken(m + 1), Worth(m + 1)))
  {
    StarInRange(n, m);
    StarInRange(n, m + 1);
    assert Star(m + 1)[..m] == Star(m);
  }

  predicate IsStar(star: seq<Saving>, m: nat) {
    star == Star(m)
  }

  // The tables after the first m pairs.
  ghost predicate AfterStar(n: nat, m: nat, st: MergeState) {
    forall star :: IsStar(star, m) ==>
      PairsInRange(star, n) && st == MergeAll(SwapRequest(n).vehicles, Initial(SwapStops(n)), star)
  }

  lemma {:induction false} AfterNext(n: nat, m: nat, st: MergeState)
    requires n >= 3 && m + 1 < n && |st.routes| == n && Shaped(st, n) && AfterStar(n, m, st)
    ensures AfterStar(n, m + 1, MergeStep(SwapRequest(n).vehicles, st, Saving(0, Taken(m + 1), Worth(m + 1))))
  {
    StarStep(n, SwapRequest(n).vehicles, m);
    assert IsStar(Star(m), m);
  }

  lemma {:induction false} CollectAll(n: nat, m: nat) returns (st: MergeState)
    requires n >= 3 && m < n
    ensures AfterStar(n, m, st) && Collecting(st, n, m)
  {
    if m == 0 {
      st := Initial(SwapStops(n));
      CollectStart(n);
      assert Star(0) == [];
    } else {
      var before := CollectAll(n, m - 1);
      CollectNext(n, before, m - 1);
      AfterNext(n, m - 1, before);
      st := MergeStep(SwapRequest(n).vehicles, before, Saving(0, Taken(m), Worth(m)));
    }
  }

  lemma {:induction false} CollectedIsAll(n: nat, st: MergeState)
    requires n >= 3 && Collecting(st, n, n - 1)
    ensures forall i: nat, j: nat :: i < n && j < n ==> Root(st, i) == Root(st, j)
    ensures NonEmpty(st.routes) == [Collected(n - 1)]
  {
    forall s | 0 <= s < n ensures st.routes[s] == if s == 0 then Collected(n - 1) else [] {
      assert Root(st, s) == 0;
    }
    assert st.routes == [Collected(n - 1)] + st.routes[1..];
    NonEmptyNone(st.routes[1..]);
  }

  lemma {:induction false} StarSettles(n: nat, savings: seq<Saving>, st: MergeState)
    requires n >= 3 && PairsInRange(savings, n) && Star(n - 1) <= savings
    requires AfterStar(n, n - 1, st) && Shaped(st, n)
    requires forall i: nat, j: nat :: i < n && j < n ==> Root(st, i) == Root(st, j)
    ensures Plan(SwapStops(n), SwapRequest(n).vehicles, savings) == NonEmpty(st.routes)
  {
    assert IsStar(Star(n - 1), n - 1);
    PlanSettled(SwapStops(n), SwapRequest(n).vehicles, Star(n - 1), savings, st);
  }

  lemma {:induction false} StarDone(n: nat) returns (st: MergeState)
    requires n >= 3
    ensures AfterStar(n, n - 1, st) && Shaped(st, n)
    ensures forall i: nat, j: nat :: i < n && j < n ==> Root(st, i) == Root(st, j)
    ensures NonEmpty(st.routes) == [Collected(n - 1)]
  {
    st := CollectAll(n, n - 1);
    CollectedIsAll(n, st);
  }

  // Whatever lists the savings of the request, the plan is the one route 0, 2, 1, 3, 4, ...
  lemma {:induction false} SwapPlan(n: nat, savings: seq<Saving>)
    requires n >= 3 && IsListing(Manhattan, ORIGIN, SwapStops(n), savings)
    ensures Plan(SwapStops(n), SwapRequest(n).vehicles, savings) == [Collected(n - 1)]
  {
    StarFirst(n, savings);
    var st := StarDone(n);
    StarSettles(n, savings, st);
  }

  // ----- The order is left as it is -----

  function SwapOrder(n: nat): (order: seq<nat>)
    requires n >= 3
    ensures InRange(order, n) && |order| == n
  {
    Collected(n - 1)
  }

  function Swapped(n: nat, i: nat, j: nat): (order: seq<nat>)
    requires n >= 3 && i <= j < n
    ensures InRange(order, n)
  {
    TourReverseSegment(SwapStops(n), SwapOrder(n), i, j);
    ReverseSegment(SwapOrder(n), i, j)
  }

  // Where the route is before its i-th stop, and after its j-th.
  function Before(i: nat): Coordinate {
    if i == 0 then ORIGIN else Place(Taken(i - 1))
  }

  function After(n: nat, j: nat): Coordinate {
    if j + 1 == n then ORIGIN else Place(Taken(j + 1))
  }

  lemma {:induction false} SwapPlaces(n: nat, i: nat, j: nat)
    requires n >= 3 && i <= j < n
    ensures var tour := Tour(SwapStops(n), SwapOrder(n));
            && tour[i].coordinate == Place(Taken(i)) && tour[j].coordinate == Place(Taken(j))
            && Entry(ORIGIN, tour[..i]) == Before(i) && Exit(ORIGIN, tour[j + 1..]) == After(n, j)
  {
    var tour := Tour(SwapStops(n), SwapOrder(n));
    assert forall k: nat :: k < n ==> tour[k].coordinate == Place(Taken(k));
    if i > 0 {
      assert tour[..i][i - 1] == tour[i - 1];
    }
    if j + 1 < n {
      assert tour[j + 1..][0] == tour[j + 1];
    }
  }

  // What reversing i..=j adds to the length of the route.
  function SwapDelta(n: nat, i: nat, j: nat): real {
    Manhattan(Before(i), Place(Taken(j))) + Manhattan(Place(Taken(i)), After(n, j))
    - Manhattan(Before(i), Place(Taken(i))) - Manhattan(Place(Taken(j)), After(n, j))
  }

  lemma {:induction false} SwapLength(n: nat, i: nat, j: nat)
    requires n >= 3 && i <= j < n
    ensures Length(Manhattan, ORIGIN, SwapStops(n), Swapped(n, i, j))
            == Length(Manhattan, ORIGIN, SwapStops(n), SwapOrder(n)) + SwapDelta(n, i, j)
  {
    TourReverseSegment(SwapStops(n), SwapOrder(n), i, j);
    ManhattanMetric();
    ReversalDelta(Manhattan, ORIGIN, Tour(SwapStops(n), SwapOrder(n)), i, j);
    SwapPlaces(n, i, j);
  }

  // A segment next to the depot that is left for the depot: reversing it does not pay.
  lemma {:induction false} AroundDepot(from: Coordinate, first: Coordinate, last: Coordinate)
    requires from == ORIGIN || last == ORIGIN
    ensures Manhattan(from, last) + Manhattan(first, ORIGIN)
            - Manhattan(from, first) - Manhattan(last, ORIGIN) >= 0.0
  {
  }

  lemma {:induction false} LongReversals(n: nat, i: nat, j: nat)
    requires n >= 4 && i + 2 <= j < n
    ensures SwapDelta(n, i, j) >= 0.0
  {
    var from, last := Before(i), Place(Taken(j));
    assert from == ORIGIN || last == ORIGIN;
    assert After(n, j) == ORIGIN;
    AroundDepot(from, Place(Taken(i)), last);
  }

  lemma {:induction false} SwapOptimum(n: nat)
    requires n >= 4
    ensures LocalOptimum(Manhattan, ORIGIN, SwapStops(n), SwapOrder(n))
  {
    var order := SwapOrder(n);
    forall i: nat, j: nat | i + 2 <= j < |order| ensures NoGain(Manhattan, ORIGIN, SwapStops(n), order, i, j) {
      SwapLength(n, i, j);
      LongReversals(n, i, j);
    }
  }

  lemma {:induction false} FirstSwapGains(n: nat)
    requires n >= 3
    ensures Length(Manhattan, ORIGIN, SwapStops(n), Swapped(n, 0, 1))
            == Length(Manhattan, ORIGIN, SwapStops(n), SwapOrder(n)) - 2.0
  {
    SwapLength(n, 0, 1);
  }

  lemma {:induction false} LookupDistinct(n: nat, order: seq<nat>)
    requires InRange(order, n)
    ensures Lookup(IdToIndex(SwapStops(n)), Ids(SwapStops(n), order)) == order
  {
    var stops := SwapStops(n);
    var found := Lookup(IdToIndex(stops), Ids(stops, order));
    LookupIds(stops, order);
    forall k | 0 <= k < |order| ensures found[k] == order[k] {
      assert Ids(stops, found)[k] == Ids(stops, order)[k];
    }
  }

  lemma {:induction false} SwapKept(n: nat, order: seq<nat>)
    requires n >= 4
    requires Descended(Manhattan, ORIGIN, SwapStops(n),
                       Lookup(IdToIndex(SwapStops(n)), Ids(SwapStops(n), SwapOrder(n))), order)
    ensures order == SwapOrder(n)
  {
    SwapOptimum(n);
    LookupDistinct(n, SwapOrder(n));
    var h :| Search(Manhattan, ORIGIN, SwapStops(n), h) && FirstOrder(h) == SwapOrder(n) && h.order == order;
    OptimumStays(Manhattan, ORIGIN, SwapStops(n), h);
  }

  lemma {:induction false} SwapOrders(n: nat, savings: seq<Saving>, orders: seq<seq<nat>>, views: seq<RouteView>)
    requires n >= 3 && IsSolution(Manhattan, SwapRequest(n), savings, orders, views)
    ensures orders == [SwapOrder(n)] && |views| == 1
    ensures SolvedRoute(Manhattan, SwapRequest(n), SwapOrder(n), orders[0], views[0], 0)
  {
    SwapPlan(n, savings);
    assert SolvedRoute(Manhattan, SwapRequest(n), SwapOrder(n), orders[0], views[0], 0);
    if n >= 4 {
      SwapKept(n, orders[0]);
    }
  }

  // Every solution of the request is the one route 0, 2, 1, 3, 4, ..., and swapping its first two stops would
  // shorten it by 2.
  lemma {:induction false} SwapMissed(n: nat, savings: seq<Saving>, orders: seq<seq<nat>>, views: seq<RouteView>)
    requires n >= 3 && IsSolution(Manhattan, SwapRequest(n), savings, orders, views)
    ensures orders == [SwapOrder(n)] && |views| == 1
    ensures views[0].stopSequence == Ids(SwapStops(n), SwapOrder(n))
    ensures views[0].totalDistanceKm == Length(Manhattan, ORIGIN, SwapStops(n), SwapOrder(n))
    ensures Length(Manhattan, ORIGIN, SwapStops(n), Swapped(n, 0, 1)) == views[0].totalDistanceKm - 2.0
  {
    SwapOrders(n, savings, orders, views);
    FirstSwapGains(n);
  }

  // ----- Exactly -----

  // For symmetric distance no returned route of n stops could be shortened by a reversal.
  ghost predicate AlwaysFullyOptimal(n: nat) {
    forall d: Distance, req: RouteOptimizationRequest, savings: seq<Saving>, orders: seq<seq<nat>>,
           views: seq<RouteView>, k: nat |
      Symmetric(d) && Solved(d, req, savings, orders, views, k) && |orders[k]| == n ::
      FullyOptimal(d, req.depot, req.stops, orders[k])
  }

  // Route k of a solution, in the order the search left it in.
  ghost predicate Solved(d: Distance, req: RouteOptimizationRequest, savings: seq<Saving>, orders: seq<seq<nat>>,
                         views: seq<RouteView>, k: nat)
    ensures Solved(d, req, savings, orders, views, k) ==> k < |orders| && InRange(orders[k], |req.stops|)
  {
    && NonNegative(d) && req.vehicles != [] && IsSolution(d, req, savings, orders, views) && k < |views|
    && SolvedRoute(d, req, Plan(req.stops, req.vehicles, savings)[k], orders[k], views[k], k)
  }

  lemma {:induction false} FullyOptimalExactly(n: nat)
    ensures AlwaysFullyOptimal(n) <==> n <= 2
  {
    if n <= 2 {
      forall d: Distance, req: RouteOptimizationRequest, savings: seq<Saving>, orders: seq<seq<nat>>,
             views: seq<RouteView>, k: nat |
        Symmetric(d) && Solved(d, req, savings, orders, views, k) && |orders[k]| == n
        ensures FullyOptimal(d, req.depot, req.stops, orders[k])
      {
        ShortRouteOptimal(d, req.depot, req.stops, orders[k]);
      }
    } else {
      LargerMissed(n);
    }
  }

  lemma {:induction false} SwapNotOptimal(n: nat)
    returns (savings: seq<Saving>, orders: seq<seq<nat>>, views: seq<RouteView>)
    requires n >= 3
    ensures Solved(Manhattan, SwapRequest(n), savings, orders, views, 0)
    ensures orders[0] == SwapOrder(n) && !FullyOptimal(Manhattan, ORIGIN, SwapStops(n), orders[0])
  {
    ManhattanMetric();
    savings := ListingExists(Manhattan, ORIGIN, SwapStops(n));
    orders, views := SolutionExists(Manhattan, SwapRequest(n), savings);
    SwapMissed(n, savings, orders, views);
    SwapPlan(n, savings);
    FirstSwapGains(n);
    assert !NoGain(Manhattan, ORIGIN, SwapStops(n), SwapOrder(n), 0, 1);
  }

  lemma {:induction false} LargerMissed(n: nat)
    requires n >= 3
    ensures !AlwaysFullyOptimal(n)
  {
    var savings, orders, views := SwapNotOptimal(n);
    ManhattanMetric();
  }

  // ----- Listed and gained -----

  // The request's second merge lists a saving of 2 and gains nothing: stop 0 no longer ends its route.
  lemma {:induction false} GainBelowSaving(n: nat, savings: seq<Saving>)
    requires n >= 3 && IsListing(Manhattan, ORIGIN, SwapStops(n), savings)
    ensures |savings| >= 2 && savings[1] == Saving(0, 1, 2.0) && PairsInRange(savings[..1], n)
    ensures var st := MergeAll(SwapRequest(n).vehicles, Initial(SwapStops(n)), savings[..1]);
            && Merges(SwapRequest(n).vehicles, st, savings[1])
            && TotalLength(Manhattan, ORIGIN, SwapStops(n), st.routes)
               == TotalLength(Manhattan, ORIGIN, SwapStops(n),
                              MergeStep(SwapRequest(n).vehicles, st, savings[1]).routes)
  {
    StarFirst(n, savings);
    assert IsStar(savings[..1], 1);
    var st := CollectAll(n, 1);
    GainAfterFirst(n, st);
  }

  lemma {:induction false} NothingGained(a: Stop, b: Stop, c: Stop)
    requires a.coordinate == Place(0) && b.coordinate == Place(1) && c.coordinate == Place(2)
    ensures TourLength(Manhattan, ORIGIN, [a, c]) + TourLength(Manhattan, ORIGIN, [b])
            == TourLength(Manhattan, ORIGIN, [a, c] + [b])
  {
    ManhattanMetric();
    MergeGain(Manhattan, ORIGIN, [a, c], [b]);
  }

  lemma {:induction false} GainAfterFirst(n: nat, st: MergeState)
    requires n >= 3 && Collecting(st, n, 1)
    ensures var p := Saving(0, 1, 2.0);
            && Merges(SwapRequest(n).vehicles, st, p)
            && TotalLength(Manhattan, ORIGIN, SwapStops(n), st.routes)
               == TotalLength(Manhattan, ORIGIN, SwapStops(n), MergeStep(SwapRequest(n).vehicles, st, p).routes)
  {
    var p, stops := Saving(0, 1, 2.0), SwapStops(n);
    CollectMerges(n, st, 1);
    StepLength(Manhattan, ORIGIN, stops, SwapRequest(n).vehicles, st, p);
    NothingGained(stops[0], stops[1], stops[2]);
    assert Tour(stops, st.routes[Root(st, 0)]) == [stops[0], stops[2]];
    assert Tour(stops, st.routes[Root(st, 1)]) == [stops[1]];
  }
}
