// Two stops of negative demand below a third one. If each pair with the third is tried before the two are merged, and
// their vehicle takes no more than it must, the third is left behind although it would have fitted in the end.
module HeavyThird {
  import opened Wrappers
  import opened Models
  import opened Sums
  import opened Tours
  import opened Merging
  import opened Savings
  import opened Hubs
  import opened Planning
  import opened Solutions

  predicate Low(stops: seq<Stop>, c: nat, k: nat)
    requires c < |stops| && k < |stops|
  {
    stops[k].demand < stops[c].demand
  }

  // a has the least demand, b another one that is negative and below that of c, and all demands below c's are negative.
  ghost predicate Chosen(stops: seq<Stop>, a: nat, b: nat, c: nat) {
    && a < |stops| && b < |stops| && c < |stops| && a != b
    && stops[b].demand < 0.0 && Low(stops, c, b)
    && (forall k :: 0 <= k < |stops| ==> stops[a].demand <= stops[k].demand)
    && (forall k :: 0 <= k < |stops| && Low(stops, c, k) ==> stops[k].demand < 0.0)
  }

  // One vehicle that takes the two, and the third with them, and any number of stops.
  function Kept(stops: seq<Stop>, a: nat, b: nat, c: nat): seq<Vehicle>
    requires Chosen(stops, a, b, c)
  {
    var third := if stops[c].demand >= 0.0 then stops[c].demand else 0.0;
    [Vehicle(0, stops[a].demand + stops[b].demand + third, |stops|)]
  }

  // ----- What the merges do -----

  // Stops that are not low are still on their own.
  ghost predicate Apart(stops: seq<Stop>, c: nat, st: MergeState)
    requires Shaped(st, |stops|) && c < |stops|
  {
    forall s :: 0 <= s < |stops| && !Low(stops, c, s) ==> Root(st, s) == s && st.routes[s] == [s]
  }

  ghost predicate Holds(stops: seq<Stop>, c: nat, vehicles: seq<Vehicle>, st: MergeState) {
    c < |stops| && Consistent(stops, vehicles, st) && Apart(stops, c, st)
  }

  // A route of negative demands is no heavier than any of its stops.
  lemma {:induction false} NegativeLoad(stops: seq<Stop>, route: seq<nat>, s: nat)
    requires InRange(route, |stops|) && s in route
    requires forall t :: t in route ==> stops[t].demand < 0.0
    ensures Load(stops, route) <= stops[s].demand
  {
    var k: nat :| k < |route| && route[k] == s;
    var rest := Without(Tour(stops, route), k);
    SumByWithout(DemandOf, Tour(stops, route), k);
    forall x | x in rest ensures DemandOf(x) <= 0.0 {
    }
    SumByNonPositive(DemandOf, rest);
  }

  lemma {:induction false} RouteOfLow(
    stops: seq<Stop>, a: nat, b: nat, c: nat, vehicles: seq<Vehicle>, st: MergeState, s: nat)
    requires Chosen(stops, a, b, c) && Holds(stops, c, vehicles, st) && s < |stops| && Low(stops, c, s)
    ensures s in st.routes[Root(st, s)]
    ensures forall t :: t in st.routes[Root(st, s)] ==> t < |stops| && Low(stops, c, t)
    ensures st.loads[Root(st, s)] <= stops[s].demand
  {
    var route := st.routes[Root(st, s)];
    assert InRange(route, |stops|);
    forall t | t in route ensures Low(stops, c, t) {
      assert Root(st, t) == Root(st, s);
    }
    NegativeLoad(stops, route, s);
  }

  predicate Crosses(stops: seq<Stop>, c: nat, p: Saving)
    requires PairInRange(p, |stops|) && c < |stops|
  {
    Low(stops, c, p.i) != Low(stops, c, p.j)
  }

  // A crossing pair is too heavy while its stops are on their own, and so is a pair of which neither is low.
  lemma {:induction false} TooHeavy(stops: seq<Stop>, a: nat, b: nat, c: nat, st: MergeState, p: Saving)
    requires Chosen(stops, a, b, c) && Holds(stops, c, Kept(stops, a, b, c), st)
    requires PairInRange(p, |stops|) && !(Low(stops, c, p.i) && Low(stops, c, p.j))
    requires Crosses(stops, c, p) ==> st == Initial(stops)
    ensures !Merges(Kept(stops, a, b, c), st, p)
  {
    if !Crosses(stops, c, p) {
      assert Root(st, p.i) == p.i && Root(st, p.j) == p.j;
      SingleLoad(stops, p.i);
      SingleLoad(stops, p.j);
      assert st.loads[p.i] == stops[p.i].demand && st.loads[p.j] == stops[p.j].demand;
    }
  }

  lemma {:induction false} StepApart(
    stops: seq<Stop>, a: nat, b: nat, c: nat, vehicles: seq<Vehicle>, st: MergeState, p: Saving)
    requires Chosen(stops, a, b, c) && Holds(stops, c, vehicles, st) && PairInRange(p, |stops|)
    requires Low(stops, c, p.i) && Low(stops, c, p.j) && Merges(vehicles, st, p)
    ensures Apart(stops, c, MergeStep(vehicles, st, p))
  {
    RouteOfLow(stops, a, b, c, vehicles, st, p.i);
    RouteOfLow(stops, a, b, c, vehicles, st, p.j);
    StepRoots(vehicles, st, p, |stops|);
  }

  lemma {:induction false} StepHolds(stops: seq<Stop>, a: nat, b: nat, c: nat, st: MergeState, p: Saving)
    requires Chosen(stops, a, b, c) && Holds(stops, c, Kept(stops, a, b, c), st)
    requires PairInRange(p, |stops|)
    requires Crosses(stops, c, p) ==> st == Initial(stops)
    ensures Holds(stops, c, Kept(stops, a, b, c), MergeStep(Kept(stops, a, b, c), st, p))
  {
    var vehicles := Kept(stops, a, b, c);
    StepConsistent(stops, vehicles, st, p);
    if Low(stops, c, p.i) && Low(stops, c, p.j) {
      if Merges(vehicles, st, p) {
        StepApart(stops, a, b, c, vehicles, st, p);
      }
    } else {
      TooHeavy(stops, a, b, c, st, p);
    }
  }

  // ----- The whole list -----

  // Crossing pairs come first, and merge nothing.
  ghost predicate CrossingsFirst(stops: seq<Stop>, c: nat, savings: seq<Saving>)
    requires PairsInRange(savings, |stops|) && c < |stops|
  {
    forall k, l :: 0 <= k < l < |savings| && Crosses(stops, c, savings[l]) ==> Crosses(stops, c, savings[k])
  }

  lemma {:induction false} CrossingsMergeNothing(stops: seq<Stop>, a: nat, b: nat, c: nat, savings: seq<Saving>)
    requires Chosen(stops, a, b, c) && PairsInRange(savings, |stops|)
    requires forall k :: 0 <= k < |savings| ==> Crosses(stops, c, savings[k])
    ensures MergeAll(Kept(stops, a, b, c), Initial(stops), savings) == Initial(stops)
  {
    if savings != [] {
      var p := savings[|savings| - 1];
      CrossingsMergeNothing(stops, a, b, c, savings[..|savings| - 1]);
      InitialHolds(stops, c, Kept(stops, a, b, c));
      TooHeavy(stops, a, b, c, Initial(stops), p);
    }
  }

  lemma {:induction false} InitialHolds(stops: seq<Stop>, c: nat, vehicles: seq<Vehicle>)
    requires c < |stops|
    ensures Holds(stops, c, vehicles, Initial(stops))
  {
    InitialConsistent(stops, vehicles);
  }

  lemma {:induction false} AllHolds(stops: seq<Stop>, a: nat, b: nat, c: nat, savings: seq<Saving>)
    requires Chosen(stops, a, b, c) && PairsInRange(savings, |stops|) && CrossingsFirst(stops, c, savings)
    ensures Holds(stops, c, Kept(stops, a, b, c), MergeAll(Kept(stops, a, b, c), Initial(stops), savings))
  {
    var vehicles := Kept(stops, a, b, c);
    if savings == [] {
      InitialHolds(stops, c, vehicles);
    } else {
      var before, p := savings[..|savings| - 1], savings[|savings| - 1];
      AllHolds(stops, a, b, c, before);
      if Crosses(stops, c, p) {
        CrossingsMergeNothing(stops, a, b, c, before);
      }
      StepHolds(stops, a, b, c, MergeAll(vehicles, Initial(stops), before), p);
    }
  }

  // ----- The two end up together -----

  lemma {:induction false} ChosenJoin(stops: seq<Stop>, a: nat, b: nat, c: nat, st: MergeState, p: Saving)
    requires Chosen(stops, a, b, c) && Holds(stops, c, Kept(stops, a, b, c), st)
    requires Pairs(p, a, b)
    ensures Root(MergeStep(Kept(stops, a, b, c), st, p), a) == Root(MergeStep(Kept(stops, a, b, c), st, p), b)
  {
    var vehicles := Kept(stops, a, b, c);
    if Root(st, a) != Root(st, b) {
      RouteOfLow(stops, a, b, c, vehicles, st, a);
      RouteOfLow(stops, a, b, c, vehicles, st, b);
      TwoRoutesCount(stops, vehicles, st, Root(st, a), Root(st, b));
      assert vehicles[0].maxStops == |stops|;
      assert Merges(vehicles, st, p);
      StepRoots(vehicles, st, p, |stops|);
    }
  }

  lemma {:induction false} StepTogether(stops: seq<Stop>, a: nat, b: nat, c: nat, st: MergeState, p: Saving)
    requires Chosen(stops, a, b, c) && Holds(stops, c, Kept(stops, a, b, c), st)
    requires PairInRange(p, |stops|) && (Pairs(p, a, b) || Root(st, a) == Root(st, b))
    ensures var next := MergeStep(Kept(stops, a, b, c), st, p); Root(next, a) == Root(next, b)
  {
    if Pairs(p, a, b) {
      ChosenJoin(stops, a, b, c, st, p);
    } else {
      TogetherStays(Kept(stops, a, b, c), st, p, |stops|, a, b);
    }
  }

  lemma {:induction false} ChosenTogether(stops: seq<Stop>, a: nat, b: nat, c: nat, savings: seq<Saving>)
    requires Chosen(stops, a, b, c) && PairsInRange(savings, |stops|) && CrossingsFirst(stops, c, savings)
    requires Listed(savings, a, b)
    ensures var st := MergeAll(Kept(stops, a, b, c), Initial(stops), savings); Root(st, a) == Root(st, b)
  {
    ListedBefore(savings, a, b);
    var before := savings[..|savings| - 1];
    AllHolds(stops, a, b, c, before);
    if Listed(before, a, b) {
      ChosenTogether(stops, a, b, c, before);
    }
    var st := MergeAll(Kept(stops, a, b, c), Initial(stops), before);
    StepTogether(stops, a, b, c, st, savings[|savings| - 1]);
  }

  // ----- The plan -----

  lemma {:induction false} PairLoad(stops: seq<Stop>, route: seq<nat>, a: nat, b: nat)
    requires InRange(route, |stops|) && a in route && b in route && a != b
    requires forall t :: t in route ==> stops[t].demand < 0.0
    ensures Load(stops, route) <= stops[a].demand + stops[b].demand
  {
    var k: nat :| k < |route| && route[k] == a;
    var l: nat :| l < |route| && route[l] == b;
    var rest := Without(route, k);
    assert Tour(stops, rest) == Without(Tour(stops, route), k);
    SumByWithout(DemandOf, Tour(stops, route), k);
    assert b in rest by {
      assert rest[if l < k then l else l - 1] == b;
    }
    NegativeLoad(stops, rest, b);
  }

  // The third stop would fit in with the two.
  lemma {:induction false} StillJoinable(stops: seq<Stop>, a: nat, b: nat, c: nat, st: MergeState)
    requires Chosen(stops, a, b, c) && Holds(stops, c, Kept(stops, a, b, c), st)
    requires Root(st, a) == Root(st, b)
    ensures !Unjoinable(stops, Kept(stops, a, b, c), st.routes)
  {
    var vehicles, r := Kept(stops, a, b, c), Root(st, a);
    RouteOfLow(stops, a, b, c, vehicles, st, a);
    RouteOfLow(stops, a, b, c, vehicles, st, b);
    PairLoad(stops, st.routes[r], a, b);
    assert Root(st, c) == c && st.routes[c] == [c];
    SingleLoad(stops, c);
    TwoRoutesCount(stops, vehicles, st, r, c);
    assert vehicles[0].maxStops == |stops|;
    assert Fits(vehicles, Load(stops, st.routes[r]) + Load(stops, st.routes[c]), |st.routes[r]| + |st.routes[c]|);
    assert Fits(vehicles, Load(stops, st.routes[c]) + Load(stops, st.routes[r]), |st.routes[c]| + |st.routes[r]|);
  }

  // Any list with the crossing pairs first ends that way.
  lemma {:induction false} ThirdLeftBehind(stops: seq<Stop>, a: nat, b: nat, c: nat, savings: seq<Saving>)
    requires Chosen(stops, a, b, c) && PairsInRange(savings, |stops|) && Covers(savings, |stops|)
    requires CrossingsFirst(stops, c, savings)
    ensures !Unjoinable(stops, Kept(stops, a, b, c), Plan(stops, Kept(stops, a, b, c), savings))
  {
    var vehicles := Kept(stops, a, b, c);
    CoversListed(savings, |stops|, a, b);
    ChosenTogether(stops, a, b, c, savings);
    AllHolds(stops, a, b, c, savings);
    var st := MergeAll(vehicles, Initial(stops), savings);
    StillJoinable(stops, a, b, c, st);
    NonEmptyUnjoinable(stops, vehicles, st.routes);
  }

  // ----- Requests -----

  // The stops that are not low, and the others, on either side of a hub.
  function HeavySide(demands: seq<real>, c: nat): set<nat>
    requires c < |demands|
  {
    set k: nat | k < |demands| && demands[k] >= demands[c]
  }

  function HubRequest(demands: seq<real>, a: nat, b: nat, c: nat): RouteOptimizationRequest
    requires c < |demands| && Chosen(HubStops(demands, HeavySide(demands, c)), a, b, c)
  {
    var stops := HubStops(demands, HeavySide(demands, c));
    RouteOptimizationRequest(ORIGIN, stops, Kept(stops, a, b, c))
  }

  lemma {:induction false} HubCrossesFirst(demands: seq<real>, c: nat, savings: seq<Saving>)
    requires c < |demands| && IsListing(Hub, ORIGIN, HubStops(demands, HeavySide(demands, c)), savings)
    ensures CrossingsFirst(HubStops(demands, HeavySide(demands, c)), c, savings)
  {
    var near := HeavySide(demands, c);
    var stops := HubStops(demands, near);
    forall k, l | 0 <= k < l < |savings| && Crosses(stops, c, savings[l]) ensures Crosses(stops, c, savings[k]) {
      var p, q := savings[k], savings[l];
      assert IsListed(Hub, ORIGIN, stops, p) && IsListed(Hub, ORIGIN, stops, q);
      HubSaving(demands, near, p.i, p.j);
      HubSaving(demands, near, q.i, q.j);
      assert Outranks(p, q);
    }
  }

  // Every solution of the request has two routes that its vehicle could have served together.
  lemma {:induction false} HubMissed(demands: seq<real>, a: nat, b: nat, c: nat, savings: seq<Saving>,
                                     orders: seq<seq<nat>>, views: seq<RouteView>)
    requires c < |demands| && Chosen(HubStops(demands, HeavySide(demands, c)), a, b, c)
    requires IsSolution(Hub, HubRequest(demands, a, b, c), savings, orders, views)
    ensures !NoTwoJoin(HubRequest(demands, a, b, c).vehicles, views)
  {
    HubCrossesFirst(demands, c, savings);
    ThirdLeftBehind(HubStops(demands, HeavySide(demands, c)), a, b, c, savings);
    SolutionJoins(Hub, HubRequest(demands, a, b, c), savings, orders, views);
  }

  // The same on a map with streets: the depot at a corner, the two stops on either side of the way to the third.
  function StreetStops(x: real, y: real, z: real): seq<Stop> {
    [Stop(0, Coordinate(3.0, 1.0), 0, x), Stop(1, Coordinate(1.0, 3.0), 0, y), Stop(2, Coordinate(3.0, 3.0), 0, z)]
  }

  lemma {:induction false} StreetSavings(x: real, y: real, z: real, i: nat, j: nat)
    requires i < j < 3
    ensures SavingOf(Manhattan, ORIGIN, StreetStops(x, y, z)[i], StreetStops(x, y, z)[j]) == if j == 2 then 8.0 else 4.0
  {
  }

  function StreetRequest(x: real, y: real, z: real): RouteOptimizationRequest
    requires x <= y < 0.0 && y < z
  {
    var stops := StreetStops(x, y, z);
    RouteOptimizationRequest(ORIGIN, stops, Kept(stops, 0, 1, 2))
  }

  lemma {:induction false} StreetMissed(x: real, y: real, z: real, savings: seq<Saving>, orders: seq<seq<nat>>,
                                        views: seq<RouteView>)
    requires x <= y < 0.0 && y < z
    requires IsSolution(Manhattan, StreetRequest(x, y, z), savings, orders, views)
    ensures !NoTwoJoin(StreetRequest(x, y, z).vehicles, views)
  {
    var stops := StreetStops(x, y, z);
    forall k, l | 0 <= k < l < |savings| && Crosses(stops, 2, savings[l]) ensures Crosses(stops, 2, savings[k]) {
      var p, q := savings[k], savings[l];
      assert IsListed(Manhattan, ORIGIN, stops, p) && IsListed(Manhattan, ORIGIN, stops, q);
      StreetSavings(x, y, z, p.i, p.j);
      StreetSavings(x, y, z, q.i, q.j);
      assert Outranks(p, q);
    }
    ThirdLeftBehind(stops, 0, 1, 2, savings);
    SolutionJoins(Manhattan, StreetRequest(x, y, z), savings, orders, views);
  }
}
