// Four stops or more, all demands negative and alike, but for one that may be lower. Two pairs are merged one after the
// other, no third stop fits either of them, and no list tries the two pairs against each other, which would fit.
module TwoPairs {
  import opened Wrappers
  import opened Models
  import opened Sums
  import opened Tours
  import opened Merging
  import opened Savings
  import opened Hubs
  import opened Planning
  import opened Solutions

  predicate IsRest(k: nat, a: nat, f: nat, g: nat, h: nat) {
    k != a && k != f && k != g && k != h
  }

  // a is the stop that may be lower; f, g and h are the first three of the others.
  ghost predicate Alike(demands: seq<real>, a: nat, f: nat, g: nat, h: nat) {
    && f < g < h < |demands| && a < |demands| && a != f && a != g && a != h
    && (forall k: nat :: k < |demands| && IsRest(k, a, f, g, h) ==> h < k)
    && demands[a] <= demands[f] < 0.0
    && (forall k :: 0 <= k < |demands| && k != a ==> demands[k] == demands[f])
  }

  // One vehicle takes any two stops, the other only four stops with a among them, or what weighs as much.
  function PairVehicles(low: real, high: real): seq<Vehicle> {
    [Vehicle(0, 0.0, 2), Vehicle(1, low + 3.0 * high, 4)]
  }

  lemma {:induction false} PairFits(low: real, high: real, load: real, count: nat)
    requires low <= high < 0.0 && load <= 0.0
    ensures count <= 2 ==> Fits(PairVehicles(low, high), load, count)
    ensures count == 3 && load >= low + 2.0 * high ==> !Fits(PairVehicles(low, high), load, count)
    ensures count == 4 && load <= low + 3.0 * high ==> Fits(PairVehicles(low, high), load, count)
  {
    var vehicles := PairVehicles(low, high);
    assert vehicles[0] == Vehicle(0, 0.0, 2) && vehicles[1] == Vehicle(1, low + 3.0 * high, 4);
  }

  // ----- The order of the pairs -----

  // The stage of a pair: a with f; the others of a or f; g with h; the others of g or h; the rest.
  function Stage(p: Saving, a: nat, f: nat, g: nat, h: nat): nat {
    if Pairs(p, a, f) then 0
    else if p.i == a || p.i == f || p.j == a || p.j == f then 1
    else if Pairs(p, g, h) then 2
    else if p.i == g || p.i == h || p.j == g || p.j == h then 3
    else 4
  }

  ghost predicate Staged(savings: seq<Saving>, a: nat, f: nat, g: nat, h: nat) {
    && (forall k, l :: 0 <= k < l < |savings| ==>
          Stage(savings[k], a, f, g, h) <= Stage(savings[l], a, f, g, h))
    && (forall k, l :: 0 <= k < l < |savings| ==> savings[k].i != savings[l].i || savings[k].j != savings[l].j)
    && (forall k :: 0 <= k < |savings| ==> savings[k].i < savings[k].j)
  }

  lemma {:induction false} OutranksStage(demands: seq<real>, a: nat, f: nat, g: nat, h: nat, p: Saving, q: Saving)
    requires Alike(demands, a, f, g, h) && Outranks(p, q)
    requires IsListed(Hub, ORIGIN, HubStops(demands, {a}), p) && IsListed(Hub, ORIGIN, HubStops(demands, {a}), q)
    ensures Stage(p, a, f, g, h) <= Stage(q, a, f, g, h)
  {
    HubSaving(demands, {a}, p.i, p.j);
    HubSaving(demands, {a}, q.i, q.j);
    assert IsRest(p.i, a, f, g, h) ==> h < p.i;
    assert IsRest(p.j, a, f, g, h) ==> h < p.j;
    assert IsRest(q.i, a, f, g, h) ==> h < q.i;
    assert IsRest(q.j, a, f, g, h) ==> h < q.j;
  }

  lemma {:induction false} ListingStaged(demands: seq<real>, a: nat, f: nat, g: nat, h: nat, savings: seq<Saving>)
    requires Alike(demands, a, f, g, h) && IsListing(Hub, ORIGIN, HubStops(demands, {a}), savings)
    ensures Staged(savings, a, f, g, h)
  {
    var stops := HubStops(demands, {a});
    forall k | 0 <= k < |savings| ensures savings[k].i < savings[k].j {
      assert IsListed(Hub, ORIGIN, stops, savings[k]);
    }
    forall k, l | 0 <= k < l < |savings|
      ensures Stage(savings[k], a, f, g, h) <= Stage(savings[l], a, f, g, h)
      ensures savings[k].i != savings[l].i || savings[k].j != savings[l].j
    {
      assert Outranks(savings[k], savings[l]);
      assert IsListed(Hub, ORIGIN, stops, savings[k]) && IsListed(Hub, ORIGIN, stops, savings[l]);
      OutranksStage(demands, a, f, g, h, savings[k], savings[l]);
    }
  }

  // ----- What the merges do -----

  predicate Alone(st: MergeState, demands: seq<real>, s: nat)
    requires Shaped(st, |demands|) && s < |demands|
  {
    Root(st, s) == s && |st.routes[s]| == 1 && st.loads[s] == demands[s]
  }

  predicate Paired(st: MergeState, demands: seq<real>, i: nat, j: nat)
    requires Shaped(st, |demands|) && i < |demands| && j < |demands|
  {
    && Root(st, i) == Root(st, j) && |st.routes[Root(st, i)]| == 2
    && st.loads[Root(st, i)] == demands[i] + demands[j]
  }

  // The four stages of the tables: nothing merged, a with f, also g with h, and then the rest among themselves.
  ghost predicate Phase(demands: seq<real>, st: MergeState, a: nat, f: nat, g: nat, h: nat, t: nat)
    requires Alike(demands, a, f, g, h)
  {
    && Shaped(st, |demands|) && RootsNameRoutes(st, |demands|)
    && (t >= 1 ==> Paired(st, demands, a, f))
    && (t >= 2 ==> Paired(st, demands, g, h) && Root(st, a) != Root(st, g))
    && (forall s: nat {:trigger Root(st, s)} ::
          s < |demands| && (t >= 1 ==> s != a && s != f) && (t >= 2 ==> s != g && s != h) ==>
          && (t <= 2 ==> Alone(st, demands, s))
          && (t >= 1 ==> Root(st, s) != Root(st, a)) && (t >= 2 ==> Root(st, s) != Root(st, g)))
  }

  function After(stage: nat): nat {
    if stage <= 1 then 1 else if stage <= 3 then 2 else 3
  }

  lemma {:induction false} PhaseZero(demands: seq<real>, a: nat, f: nat, g: nat, h: nat, stops: seq<Stop>)
    requires Alike(demands, a, f, g, h) && Demands(stops) == demands
    ensures Phase(demands, Initial(stops), a, f, g, h, 0)
  {
    InitialConsistent(stops, []);
    forall s: nat | s < |demands| ensures Alone(Initial(stops), demands, s) {
      assert Initial(stops).loads[s] == stops[s].demand;
    }
  }

  // Two stops on their own are merged, whichever they are.
  lemma {:induction false} MergeAlone(demands: seq<real>, vehicles: seq<Vehicle>, st: MergeState, p: Saving)
    requires Shaped(st, |demands|) && RootsNameRoutes(st, |demands|) && PairInRange(p, |demands|) && p.i != p.j
    requires Alone(st, demands, p.i) && Alone(st, demands, p.j)
    requires Fits(vehicles, demands[p.i] + demands[p.j], 2)
    ensures var next := MergeStep(vehicles, st, p);
            && RootsNameRoutes(next, |demands|) && Paired(next, demands, p.i, p.j) && Root(next, p.i) == p.i
            && (forall s :: 0 <= s < |demands| && s != p.j ==> Root(next, s) == Root(st, s))
            && next.routes == st.routes[p.i := st.routes[p.i] + st.routes[p.j]][p.j := []]
            && next.loads == st.loads[p.i := demands[p.i] + demands[p.j]][p.j := 0.0]
  {
    assert Merges(vehicles, st, p);
    StepRoots(vehicles, st, p, |demands|);
    forall s: nat | s < |demands| && Root(st, s) == p.j ensures s == p.j {
      assert s in st.routes[p.j] && p.j in st.routes[p.j];
      assert st.routes[p.j] == [st.routes[p.j][0]];
    }
  }

  // A third stop does not fit a pair.
  lemma {:induction false} ThirdStays(low: real, high: real, st: MergeState, p: Saving)
    requires low <= high < 0.0 && Shaped(st, |st.routes|) && PairInRange(p, |st.routes|)
    requires |st.routes[Root(st, p.i)]| + |st.routes[Root(st, p.j)]| == 3
    requires low + 2.0 * high <= st.loads[Root(st, p.i)] + st.loads[Root(st, p.j)] <= 0.0
    ensures MergeStep(PairVehicles(low, high), st, p) == st
  {
    PairFits(low, high, st.loads[Root(st, p.i)] + st.loads[Root(st, p.j)], 3);
  }

  lemma {:induction false} PairDemand(demands: seq<real>, a: nat, f: nat, g: nat, h: nat, s: nat)
    requires Alike(demands, a, f, g, h) && s < |demands|
    ensures demands[s] == if s == a then demands[a] else demands[f]
  {
  }

  // Stage 0.
  lemma {:induction false} FirstPair(
    demands: seq<real>, a: nat, f: nat, g: nat, h: nat, st: MergeState, p: Saving)
    requires Alike(demands, a, f, g, h) && Phase(demands, st, a, f, g, h, 0) && Pairs(p, a, f)
    ensures Phase(demands, MergeStep(PairVehicles(demands[a], demands[f]), st, p), a, f, g, h, 1)
  {
    var vehicles := PairVehicles(demands[a], demands[f]);
    assert Root(st, a) == a && Root(st, f) == f;
    PairFits(demands[a], demands[f], demands[a] + demands[f], 2);
    MergeAlone(demands, vehicles, st, p);
    var next := MergeStep(vehicles, st, p);
    forall s: nat | s < |demands| && s != a && s != f
      ensures Alone(next, demands, s) && Root(next, s) != Root(next, a)
    {
      assert Root(st, s) == s;
    }
  }

  // Stage 2.
  lemma {:induction false} SecondPair(
    demands: seq<real>, a: nat, f: nat, g: nat, h: nat, st: MergeState, p: Saving)
    requires Alike(demands, a, f, g, h) && Phase(demands, st, a, f, g, h, 1) && Pairs(p, g, h)
    ensures Phase(demands, MergeStep(PairVehicles(demands[a], demands[f]), st, p), a, f, g, h, 2)
  {
    var vehicles := PairVehicles(demands[a], demands[f]);
    assert Root(st, g) == g && Root(st, h) == h;
    PairDemand(demands, a, f, g, h, g);
    PairDemand(demands, a, f, g, h, h);
    PairFits(demands[a], demands[f], demands[g] + demands[h], 2);
    MergeAlone(demands, vehicles, st, p);
    var next := MergeStep(vehicles, st, p);
    forall s: nat | s < |demands| && IsRest(s, a, f, g, h)
      ensures Alone(next, demands, s) && Root(next, s) != Root(next, a) && Root(next, s) != Root(next, g)
    {
      assert Root(st, s) == s;
    }
  }

  // Stage 1.
  lemma {:induction false} FirstStays(
    demands: seq<real>, a: nat, f: nat, g: nat, h: nat, st: MergeState, p: Saving)
    requires Alike(demands, a, f, g, h) && Phase(demands, st, a, f, g, h, 1)
    requires PairInRange(p, |demands|) && p.i != p.j && Stage(p, a, f, g, h) == 1
    ensures MergeStep(PairVehicles(demands[a], demands[f]), st, p) == st
  {
    var x := if p.i == a || p.i == f then p.j else p.i;
    assert x != a && x != f && Root(st, x) == x;
    PairDemand(demands, a, f, g, h, x);
    ThirdStays(demands[a], demands[f], st, p);
  }

  // Stage 3.
  lemma {:induction false} SecondStays(
    demands: seq<real>, a: nat, f: nat, g: nat, h: nat, st: MergeState, p: Saving)
    requires Alike(demands, a, f, g, h) && Phase(demands, st, a, f, g, h, 2)
    requires PairInRange(p, |demands|) && p.i != p.j && Stage(p, a, f, g, h) == 3
    ensures MergeStep(PairVehicles(demands[a], demands[f]), st, p) == st
  {
    var x := if p.i == g || p.i == h then p.j else p.i;
    assert IsRest(x, a, f, g, h) && Root(st, x) == x;
    PairDemand(demands, a, f, g, h, x);
    PairDemand(demands, a, f, g, h, g);
    PairDemand(demands, a, f, g, h, h);
    ThirdStays(demands[a], demands[f], st, p);
  }

  // Stage 4: the two pairs are left alone.
  lemma {:induction false} RestMerges(
    demands: seq<real>, a: nat, f: nat, g: nat, h: nat, vehicles: seq<Vehicle>, st: MergeState, p: Saving)
    requires Alike(demands, a, f, g, h) && Phase(demands, st, a, f, g, h, 3)
    requires PairInRange(p, |demands|) && IsRest(p.i, a, f, g, h) && IsRest(p.j, a, f, g, h)
    ensures Phase(demands, MergeStep(vehicles, st, p), a, f, g, h, 3)
  {
    if Merges(vehicles, st, p) {
      StepRoots(vehicles, st, p, |demands|);
      var next := MergeStep(vehicles, st, p);
      assert Root(st, p.i) != Root(st, a) && Root(st, p.j) != Root(st, a);
      assert Root(st, p.i) != Root(st, g) && Root(st, p.j) != Root(st, g);
      forall s: nat | s < |demands| && IsRest(s, a, f, g, h)
        ensures Root(next, s) != Root(next, a) && Root(next, s) != Root(next, g)
      {
        assert Root(st, s) != Root(st, a) && Root(st, s) != Root(st, g);
      }
    }
  }

  // ----- The whole list -----

  // The phase the tables are in when a pair of the stage comes up.
  ghost predicate Expects(stage: nat, t: nat) {
    match stage
    case 0 => t == 0
    case 1 => t == 1
    case 2 => t == 1
    case 3 => t == 2
    case _ => t == 2 || t == 3
  }

  lemma {:induction false} StageStep(
    demands: seq<real>, a: nat, f: nat, g: nat, h: nat, st: MergeState, t: nat, p: Saving)
    requires Alike(demands, a, f, g, h) && Phase(demands, st, a, f, g, h, t)
    requires PairInRange(p, |demands|) && p.i != p.j
    requires Expects(Stage(p, a, f, g, h), t)
    ensures Phase(demands, MergeStep(PairVehicles(demands[a], demands[f]), st, p), a, f, g, h,
                  After(Stage(p, a, f, g, h)))
  {
    match Stage(p, a, f, g, h)
    case 0 => FirstPair(demands, a, f, g, h, st, p);
    case 1 => FirstStays(demands, a, f, g, h, st, p);
    case 2 => SecondPair(demands, a, f, g, h, st, p);
    case 3 => SecondStays(demands, a, f, g, h, st, p);
    case _ =>
      PhaseThree(demands, st, a, f, g, h, t);
      RestMerges(demands, a, f, g, h, PairVehicles(demands[a], demands[f]), st, p);
  }

  lemma {:induction false} PhaseThree(demands: seq<real>, st: MergeState, a: nat, f: nat, g: nat, h: nat, t: nat)
    requires Alike(demands, a, f, g, h) && Phase(demands, st, a, f, g, h, t) && 2 <= t <= 3
    ensures Phase(demands, st, a, f, g, h, 3)
  {
  }

  // How far the pairs of the list up to k have brought the tables.
  function Progress(savings: seq<Saving>, a: nat, f: nat, g: nat, h: nat, k: nat): nat
    requires k <= |savings|
  {
    if k == 0 then 0 else After(Stage(savings[k - 1], a, f, g, h))
  }

  lemma {:induction false} FirstListed(savings: seq<Saving>, a: nat, f: nat, g: nat, h: nat, n: nat)
    returns (x: nat)
    requires Covers(savings, n) && a < n && f < n && a != f
    ensures x < |savings| && Stage(savings[x], a, f, g, h) == 0
  {
    CoversListed(savings, n, a, f);
    var p :| p in savings && Pairs(p, a, f);
    x :| 0 <= x < |savings| && savings[x] == p;
  }

  lemma {:induction false} SecondListed(savings: seq<Saving>, a: nat, f: nat, g: nat, h: nat, n: nat)
    returns (x: nat)
    requires Covers(savings, n) && f < g < h < n && a != g && a != h
    ensures x < |savings| && Stage(savings[x], a, f, g, h) == 2
  {
    CoversListed(savings, n, g, h);
    var p :| p in savings && Pairs(p, g, h);
    x :| 0 <= x < |savings| && savings[x] == p;
  }

  // The merging pairs of stages 0 and 2 come only once, and before the pairs of later stages.
  lemma {:induction false} NoRepeat(savings: seq<Saving>, a: nat, f: nat, g: nat, h: nat, k: nat)
    requires Staged(savings, a, f, g, h) && 0 < k < |savings|
    requires Stage(savings[k - 1], a, f, g, h) == Stage(savings[k], a, f, g, h)
    ensures Stage(savings[k], a, f, g, h) != 0 && Stage(savings[k], a, f, g, h) != 2
  {
  }

  lemma {:induction false} StageReady(savings: seq<Saving>, a: nat, f: nat, g: nat, h: nat, n: nat, k: nat)
    requires Staged(savings, a, f, g, h) && Covers(savings, n)
    requires a < n && f < g < h < n && a != f && a != g && a != h && k < |savings|
    ensures Expects(Stage(savings[k], a, f, g, h), Progress(savings, a, f, g, h, k))
  {
    var x := FirstListed(savings, a, f, g, h, n);
    var y := SecondListed(savings, a, f, g, h, n);
    var now := Stage(savings[k], a, f, g, h);
    assert now >= 1 ==> x < k;
    assert now >= 3 ==> y < k;
    if k > 0 {
      var before := Stage(savings[k - 1], a, f, g, h);
      assert y < k ==> y == k - 1 || Stage(savings[y], a, f, g, h) <= before;
      assert before <= now;
      if before == now {
        NoRepeat(savings, a, f, g, h, k);
      }
    }
  }

  lemma {:induction false} AllPhases(
    demands: seq<real>, a: nat, f: nat, g: nat, h: nat, stops: seq<Stop>, savings: seq<Saving>, k: nat)
    returns (st: MergeState)
    requires Alike(demands, a, f, g, h) && Demands(stops) == demands && k <= |savings|
    requires Staged(savings, a, f, g, h) && PairsInRange(savings, |stops|) && Covers(savings, |stops|)
    ensures Reached(PairVehicles(demands[a], demands[f]), stops, savings, k, st)
    ensures Phase(demands, st, a, f, g, h, Progress(savings, a, f, g, h, k))
  {
    var vehicles := PairVehicles(demands[a], demands[f]);
    if k == 0 {
      st := Initial(stops);
      PhaseZero(demands, a, f, g, h, stops);
      NothingReached(vehicles, stops, savings);
    } else {
      var before := AllPhases(demands, a, f, g, h, stops, savings, k - 1);
      StageReady(savings, a, f, g, h, |stops|, k - 1);
      StageStep(demands, a, f, g, h, before, Progress(savings, a, f, g, h, k - 1), savings[k - 1]);
      st := MergeStep(vehicles, before, savings[k - 1]);
      ReachNext(vehicles, stops, savings, k - 1, before);
    }
  }

  predicate IsPrefix(first: seq<Saving>, savings: seq<Saving>, k: nat) {
    k <= |savings| && first == savings[..k]
  }

  // The tables after the first k pairs.
  ghost predicate Reached(vehicles: seq<Vehicle>, stops: seq<Stop>, savings: seq<Saving>, k: nat, st: MergeState)
    requires PairsInRange(savings, |stops|)
  {
    && |st.routes| == |stops|
    && forall first :: IsPrefix(first, savings, k) ==> st == MergeAll(vehicles, Initial(stops), first)
  }

  lemma {:induction false} NothingReached(vehicles: seq<Vehicle>, stops: seq<Stop>, savings: seq<Saving>)
    requires PairsInRange(savings, |stops|)
    ensures Reached(vehicles, stops, savings, 0, Initial(stops))
  {
  }

  lemma {:induction false} ReachNext(
    vehicles: seq<Vehicle>, stops: seq<Stop>, savings: seq<Saving>, k: nat, before: MergeState)
    requires PairsInRange(savings, |stops|) && k < |savings| && Reached(vehicles, stops, savings, k, before)
    requires Shaped(before, |stops|)
    ensures Reached(vehicles, stops, savings, k + 1, MergeStep(vehicles, before, savings[k]))
  {
    assert IsPrefix(savings[..k], savings, k);
    assert savings[..k + 1][..k] == savings[..k];
  }

  // At the end both pairs are routes.
  lemma {:induction false} BothPaired(savings: seq<Saving>, a: nat, f: nat, g: nat, h: nat, n: nat)
    requires Staged(savings, a, f, g, h) && Covers(savings, n)
    requires f < g < h < n && a != g && a != h
    ensures Progress(savings, a, f, g, h, |savings|) >= 2
  {
    var y := SecondListed(savings, a, f, g, h, n);
  }

  // ... and one vehicle would take them together.
  lemma {:induction false} StillJoinable(
    demands: seq<real>, a: nat, f: nat, g: nat, h: nat, stops: seq<Stop>, st: MergeState, t: nat)
    requires Alike(demands, a, f, g, h) && Demands(stops) == demands && t >= 2
    requires Phase(demands, st, a, f, g, h, t)
    requires Consistent(stops, PairVehicles(demands[a], demands[f]), st)
    ensures !Unjoinable(stops, PairVehicles(demands[a], demands[f]), st.routes)
  {
    var vehicles, r, q := PairVehicles(demands[a], demands[f]), Root(st, a), Root(st, g);
    PairDemand(demands, a, f, g, h, g);
    PairDemand(demands, a, f, g, h, h);
    PairFits(demands[a], demands[f], st.loads[r] + st.loads[q], 4);
    assert st.loads[r] == Load(stops, st.routes[r]) && st.loads[q] == Load(stops, st.routes[q]);
    assert Fits(vehicles, Load(stops, st.routes[r]) + Load(stops, st.routes[q]), |st.routes[r]| + |st.routes[q]|);
    assert Fits(vehicles, Load(stops, st.routes[q]) + Load(stops, st.routes[r]), |st.routes[q]| + |st.routes[r]|);
  }

  function PairRequest(demands: seq<real>, a: nat, f: nat): RouteOptimizationRequest
    requires a < |demands| && f < |demands|
  {
    RouteOptimizationRequest(ORIGIN, HubStops(demands, {a}), PairVehicles(demands[a], demands[f]))
  }

  // Every solution of the request has two routes that one of its vehicles could have served together.
  lemma {:induction false} PairsMissed(demands: seq<real>, a: nat, f: nat, g: nat, h: nat, savings: seq<Saving>,
                                       orders: seq<seq<nat>>, views: seq<RouteView>)
    requires Alike(demands, a, f, g, h)
    requires IsSolution(Hub, PairRequest(demands, a, f), savings, orders, views)
    ensures !NoTwoJoin(PairRequest(demands, a, f).vehicles, views)
  {
    var stops, vehicles := HubStops(demands, {a}), PairVehicles(demands[a], demands[f]);
    ListingStaged(demands, a, f, g, h, savings);
    PairsPlanJoinable(demands, a, f, g, h, stops, savings);
    SolutionJoins(Hub, PairRequest(demands, a, f), savings, orders, views);
  }

  lemma {:induction false} PairsPlanJoinable(
    demands: seq<real>, a: nat, f: nat, g: nat, h: nat, stops: seq<Stop>, savings: seq<Saving>)
    requires Alike(demands, a, f, g, h) && Demands(stops) == demands
    requires Staged(savings, a, f, g, h) && PairsInRange(savings, |stops|) && Covers(savings, |stops|)
    ensures var vehicles := PairVehicles(demands[a], demands[f]);
            !Unjoinable(stops, vehicles, Plan(stops, vehicles, savings))
  {
    var vehicles := PairVehicles(demands[a], demands[f]);
    var st := AllPhases(demands, a, f, g, h, stops, savings, |savings|);
    assert IsPrefix(savings, savings, |savings|);
    BothPaired(savings, a, f, g, h, |stops|);
    MergeInvariant(stops, vehicles, savings);
    StillJoinable(demands, a, f, g, h, stops, st, Progress(savings, a, f, g, h, |savings|));
    NonEmptyUnjoinable(stops, vehicles, st.routes);
  }
}
