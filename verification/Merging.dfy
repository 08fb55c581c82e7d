// The savings merge: what one step of the greedy loop does to the three tables, and what holds after all of them.
module Merging {
  import opened Wrappers
  import opened Models
  import opened Sums
  import opened Tours

  datatype Saving = Saving(i: nat, j: nat, value: real)

  // route_of, routes and loads, indexed by stop number. A stop with no entry in routeOf is its own root.
  datatype MergeState = MergeState(routeOf: seq<Option<nat>>, routes: seq<seq<nat>>, loads: seq<real>)

  predicate Shaped(st: MergeState, n: nat) {
    && |st.routeOf| == |st.routes| == |st.loads| == n
    && (forall s :: 0 <= s < n && st.routeOf[s].Some? ==> st.routeOf[s].value < n)
    && (forall r :: 0 <= r < n ==> InRange(st.routes[r], n))
  }

  function Initial(stops: seq<Stop>): (st: MergeState)
    ensures Shaped(st, |stops|)
  {
    MergeState(seq(|stops|, _ => None), Singletons(|stops|),
               seq(|stops|, i requires 0 <= i < |stops| => stops[i].demand))
  }

  // One route per stop: [[0], [1], ...].
  function Singletons(n: nat): (routes: seq<seq<nat>>)
    ensures |routes| == n && forall i :: 0 <= i < n ==> routes[i] == [i]
  {
    if n == 0 then [] else Singletons(n - 1) + [[n - 1]]
  }

  function Root(st: MergeState, s: nat): nat
    requires s < |st.routeOf|
  {
    match st.routeOf[s] case Some(r) => r case None => s
  }

  // One vehicle, the same for both limits, can take this load over this many stops.
  predicate Fits(vehicles: seq<Vehicle>, load: real, count: nat) {
    exists k :: 0 <= k < |vehicles| && load <= vehicles[k].capacity && count <= vehicles[k].maxStops
  }

  lemma {:induction false} FitsOneVehicle(vehicles: seq<Vehicle>, load: real, count: nat)
    ensures Fits(vehicles, load, count) <==> exists v :: v in vehicles && load <= v.capacity && count <= v.maxStops
  {
    if v :| v in vehicles && load <= v.capacity && count <= v.maxStops {
      var k :| 0 <= k < |vehicles| && vehicles[k] == v;
      assert Fits(vehicles, load, count);
    }
  }

  predicate PairInRange(p: Saving, n: nat) { p.i < n && p.j < n }

  function MergeStep(vehicles: seq<Vehicle>, st: MergeState, p: Saving): (next: MergeState)
    requires Shaped(st, |st.routes|) && PairInRange(p, |st.routes|)
    ensures Shaped(next, |st.routes|)
  {
    var ri, rj := Root(st, p.i), Root(st, p.j);
    var load := st.loads[ri] + st.loads[rj];
    if ri == rj || !Fits(vehicles, load, |st.routes[ri]| + |st.routes[rj]|) then st
    else
      var merged := st.routes[ri] + st.routes[rj];
      MergeState(
        seq(|st.routeOf|, s requires 0 <= s < |st.routeOf| => if s in merged then Some(ri) else st.routeOf[s]),
        st.routes[ri := merged][rj := []],
        st.loads[ri := load][rj := 0.0])
  }

  predicate PairsInRange(savings: seq<Saving>, n: nat) {
    forall k :: 0 <= k < |savings| ==> PairInRange(savings[k], n)
  }

  // The tables after the whole list, in list order.
  function MergeAll(vehicles: seq<Vehicle>, st: MergeState, savings: seq<Saving>): (last: MergeState)
    requires Shaped(st, |st.routes|) && PairsInRange(savings, |st.routes|)
    ensures Shaped(last, |st.routes|)
  {
    if savings == [] then st
    else MergeStep(vehicles, MergeAll(vehicles, st, savings[..|savings| - 1]), savings[|savings| - 1])
  }

  lemma {:induction false} MergeAllSnoc(vehicles: seq<Vehicle>, st: MergeState, savings: seq<Saving>, p: Saving)
    requires Shaped(st, |st.routes|) && PairsInRange(savings, |st.routes|) && PairInRange(p, |st.routes|)
    ensures PairsInRange(savings + [p], |st.routes|)
    ensures MergeAll(vehicles, st, savings + [p]) == MergeStep(vehicles, MergeAll(vehicles, st, savings), p)
  {
    assert (savings + [p])[..|savings|] == savings;
  }

  lemma {:induction false} ConcatNext(
    vehicles: seq<Vehicle>, st: MergeState, mid: MergeState, a: seq<Saving>, b: seq<Saving>, p: Saving)
    requires Shaped(st, |st.routes|) && Shaped(mid, |st.routes|) && PairInRange(p, |st.routes|)
    requires PairsInRange(a, |st.routes|) && PairsInRange(b, |st.routes|) && PairsInRange(a + b, |st.routes|)
    requires MergeAll(vehicles, st, a + b) == MergeAll(vehicles, mid, b)
    ensures PairsInRange(a + (b + [p]), |st.routes|) && PairsInRange(b + [p], |st.routes|)
    ensures MergeAll(vehicles, st, a + (b + [p])) == MergeAll(vehicles, mid, b + [p])
  {
    MergeAllSnoc(vehicles, st, a + b, p);
    MergeAllSnoc(vehicles, mid, b, p);
    assert a + (b + [p]) == (a + b) + [p];
  }

  lemma {:induction false} MergeAllConcat(vehicles: seq<Vehicle>, st: MergeState, a: seq<Saving>, b: seq<Saving>)
    requires Shaped(st, |st.routes|) && PairsInRange(a, |st.routes|) && PairsInRange(b, |st.routes|)
    ensures PairsInRange(a + b, |st.routes|)
    ensures MergeAll(vehicles, st, a + b) == MergeAll(vehicles, MergeAll(vehicles, st, a), b)
  {
    if b == [] {
      assert a + b == a;
    } else {
      var before, p := b[..|b| - 1], b[|b| - 1];
      assert b == before + [p];
      MergeAllConcat(vehicles, st, a, before);
      ConcatNext(vehicles, st, MergeAll(vehicles, st, a), a, before, p);
    }
  }

  lemma {:induction false} MergeAllPrefix(vehicles: seq<Vehicle>, st: MergeState, a: seq<Saving>, savings: seq<Saving>)
    requires Shaped(st, |st.routes|) && PairsInRange(savings, |st.routes|) && a <= savings
    ensures PairsInRange(a, |st.routes|) && PairsInRange(savings[|a|..], |st.routes|)
    ensures MergeAll(vehicles, st, savings) == MergeAll(vehicles, MergeAll(vehicles, st, a), savings[|a|..])
  {
    var rest := savings[|a|..];
    assert savings == a + rest;
    assert forall k :: 0 <= k < |rest| ==> rest[k] == savings[|a| + k];
    MergeAllConcat(vehicles, st, a, rest);
  }

  // Once every two stops are blocked, the rest of the list changes nothing.
  lemma {:induction false} MergesOver(vehicles: seq<Vehicle>, st: MergeState, savings: seq<Saving>)
    requires Shaped(st, |st.routes|) && PairsInRange(savings, |st.routes|)
    requires forall i: nat, j: nat :: i < |st.routes| && j < |st.routes| ==> Blocked(vehicles, st, i, j)
    ensures MergeAll(vehicles, st, savings) == st
  {
    if savings != [] {
      var p := savings[|savings| - 1];
      MergesOver(vehicles, st, savings[..|savings| - 1]);
      assert Blocked(vehicles, st, p.i, p.j);
    }
  }

  function Load(stops: seq<Stop>, route: seq<nat>): real
    requires InRange(route, |stops|)
  {
    SumBy(DemandOf, Tour(stops, route))
  }

  // ----- The merge invariant -----

  ghost predicate RootsNameRoutes(st: MergeState, n: nat)
    requires Shaped(st, n)
  {
    && (forall s :: 0 <= s < n ==> s in st.routes[Root(st, s)])
    && (forall r, s :: 0 <= r < n && s in st.routes[r] ==> Root(st, s) == r)
  }

  ghost predicate Consistent(stops: seq<Stop>, vehicles: seq<Vehicle>, st: MergeState) {
    && Shaped(st, |stops|)
    && RootsNameRoutes(st, |stops|)
    && (forall r :: 0 <= r < |stops| ==> st.loads[r] == Load(stops, st.routes[r]))
    && (forall r :: 0 <= r < |stops| && |st.routes[r]| >= 2 ==> Fits(vehicles, st.loads[r], |st.routes[r]|))
    && Content(st.routes) == multiset(AllIndices(|stops|))
  }

  function AllIndices(n: nat): (all: seq<nat>)
    ensures |all| == n && forall i :: 0 <= i < n ==> all[i] == i
  {
    if n == 0 then [] else AllIndices(n - 1) + [n - 1]
  }

  lemma {:induction false} SingletonsContent(n: nat)
    ensures Content(Singletons(n)) == multiset(AllIndices(n))
  {
    if n > 0 {
      SingletonsContent(n - 1);
      var last: nat := n - 1;
      ContentSnoc<nat>(Singletons(n - 1), [last]);
      assert multiset(AllIndices(n - 1) + [last]) == multiset(AllIndices(n - 1)) + multiset([last]);
    }
  }

  lemma {:induction false} SingleLoad(stops: seq<Stop>, i: nat)
    requires i < |stops|
    ensures Load(stops, [i]) == stops[i].demand
  {
    assert Tour(stops, [i]) == [] + [stops[i]];
    SumBySnoc(DemandOf, [], stops[i]);
  }

  lemma {:induction false} InitialConsistent(stops: seq<Stop>, vehicles: seq<Vehicle>)
    ensures Consistent(stops, vehicles, Initial(stops))
  {
    var st := Initial(stops);
    SingletonsContent(|stops|);
    assert RootsNameRoutes(st, |stops|) by {
      forall s | 0 <= s < |stops| ensures s in st.routes[Root(st, s)] {
        assert st.routes[s] == [s];
      }
    }
    forall r | 0 <= r < |stops| ensures st.loads[r] == Load(stops, st.routes[r]) {
      SingleLoad(stops, r);
    }
  }

  ghost predicate Merges(vehicles: seq<Vehicle>, st: MergeState, p: Saving)
    requires Shaped(st, |st.routes|) && PairInRange(p, |st.routes|)
  {
    var ri, rj := Root(st, p.i), Root(st, p.j);
    ri != rj && Fits(vehicles, st.loads[ri] + st.loads[rj], |st.routes[ri]| + |st.routes[rj]|)
  }

  // After a merge the members of both routes have the first one's root; nobody else's root moves.
  lemma {:induction false} StepRoots(vehicles: seq<Vehicle>, st: MergeState, p: Saving, n: nat)
    requires Shaped(st, n) && PairInRange(p, n) && RootsNameRoutes(st, n) && Merges(vehicles, st, p)
    ensures var next := MergeStep(vehicles, st, p);
            forall s :: 0 <= s < n ==>
              Root(next, s) == if Root(st, s) == Root(st, p.j) then Root(st, p.i) else Root(st, s)
    ensures RootsNameRoutes(MergeStep(vehicles, st, p), n)
  {
    var ri, rj := Root(st, p.i), Root(st, p.j);
    var next, merged := MergeStep(vehicles, st, p), st.routes[ri] + st.routes[rj];
    forall s | 0 <= s < n
      ensures Root(next, s) == (if Root(st, s) == rj then ri else Root(st, s))
      ensures s in next.routes[Root(next, s)]
    {
      assert s in merged <==> s in st.routes[ri] || s in st.routes[rj];
      assert s in st.routes[Root(st, s)];
    }
    forall r, s | 0 <= r < n && s in next.routes[r] ensures Root(next, s) == r {
      assert r != rj;
      if r == ri {
        assert s in merged;
      } else {
        assert s in st.routes[r];
      }
    }
  }

  lemma {:induction false} StepLoads(stops: seq<Stop>, vehicles: seq<Vehicle>, st: MergeState, p: Saving)
    requires Consistent(stops, vehicles, st) && PairInRange(p, |stops|) && Merges(vehicles, st, p)
    ensures var next := MergeStep(vehicles, st, p);
            forall r :: 0 <= r < |stops| ==> next.loads[r] == Load(stops, next.routes[r])
  {
    var a, b := st.routes[Root(st, p.i)], st.routes[Root(st, p.j)];
    TourConcat(stops, a, b);
    SumByConcat(DemandOf, Tour(stops, a), Tour(stops, b));
  }

  lemma {:induction false} StepContent(stops: seq<Stop>, vehicles: seq<Vehicle>, st: MergeState, p: Saving)
    requires Consistent(stops, vehicles, st) && PairInRange(p, |stops|) && Merges(vehicles, st, p)
    ensures Content(MergeStep(vehicles, st, p).routes) == Content(st.routes)
  {
    ContentMove(st.routes, Root(st, p.i), Root(st, p.j));
  }

  // The invariant survives every pair, whichever pair comes next.
  lemma {:induction false} StepConsistent(stops: seq<Stop>, vehicles: seq<Vehicle>, st: MergeState, p: Saving)
    requires Consistent(stops, vehicles, st) && PairInRange(p, |stops|)
    ensures Consistent(stops, vehicles, MergeStep(vehicles, st, p))
  {
    if Merges(vehicles, st, p) {
      StepRoots(vehicles, st, p, |stops|);
      StepLoads(stops, vehicles, st, p);
      StepContent(stops, vehicles, st, p);
    }
  }

  lemma {:induction false} MergeInvariant(stops: seq<Stop>, vehicles: seq<Vehicle>, savings: seq<Saving>)
    requires PairsInRange(savings, |stops|)
    ensures Consistent(stops, vehicles, MergeAll(vehicles, Initial(stops), savings))
  {
    if savings == [] {
      InitialConsistent(stops, vehicles);
    } else {
      var before := savings[..|savings| - 1];
      MergeInvariant(stops, vehicles, before);
      StepConsistent(stops, vehicles, MergeAll(vehicles, Initial(stops), before), savings[|savings| - 1]);
    }
  }

  // Two routes together have no more stops than the request.
  lemma {:induction false} TwoRoutesCount(stops: seq<Stop>, vehicles: seq<Vehicle>, st: MergeState, r: nat, q: nat)
    requires Consistent(stops, vehicles, st) && r < |stops| && q < |stops| && r != q
    ensures |st.routes[r]| + |st.routes[q]| <= |stops|
  {
    var less := st.routes[r := []];
    ContentUpdate(st.routes, r, []);
    ContentUpdate(less, q, []);
    assert |Content(less)| + |multiset(st.routes[r])| == |Content(less) + multiset(st.routes[r])|;
    assert |Content(less[q := []])| + |multiset(st.routes[q])| == |Content(less[q := []]) + multiset(st.routes[q])|;
  }

  // ----- Greedy maximality -----

  ghost predicate NonNegativeDemands(stops: seq<Stop>) {
    forall k :: 0 <= k < |stops| ==> stops[k].demand >= 0.0
  }

  ghost predicate AtMostOneNegative(stops: seq<Stop>) {
    forall k, l :: 0 <= k < |stops| && 0 <= l < |stops| && stops[k].demand < 0.0 && stops[l].demand < 0.0 ==> k == l
  }

  // Only stop x may have a negative demand.
  ghost predicate OthersNonNegative(stops: seq<Stop>, x: nat) {
    forall k :: 0 <= k < |stops| && k != x ==> stops[k].demand >= 0.0
  }

  lemma {:induction false} LoadNonNegative(stops: seq<Stop>, route: seq<nat>)
    requires NonNegativeDemands(stops) && InRange(route, |stops|)
    ensures Load(stops, route) >= 0.0
  {
    SumByNonNegative(DemandOf, Tour(stops, route));
  }

  lemma {:induction false} LoadWithoutX(stops: seq<Stop>, route: seq<nat>, x: nat)
    requires OthersNonNegative(stops, x) && InRange(route, |stops|) && x !in route
    ensures Load(stops, route) >= 0.0
  {
    SumByNonNegative(DemandOf, Tour(stops, route));
  }

  // Watched stops: x itself, and the stops not in x's route.
  predicate Watched(st: MergeState, s: nat, x: nat)
    requires s < |st.routeOf| && x < |st.routeOf|
  {
    s == x || Root(st, s) != Root(st, x)
  }

  // Stops once together stay together, and the route around a watched stop only gets heavier and longer.
  ghost predicate Grew(st: MergeState, next: MergeState, n: nat, x: nat)
    requires Shaped(st, n) && Shaped(next, n) && x < n
  {
    && (forall s, t :: 0 <= s < n && 0 <= t < n && Root(st, s) == Root(st, t) ==> Root(next, s) == Root(next, t))
    && (forall s :: 0 <= s < n && Watched(next, s, x) ==>
          && st.loads[Root(st, s)] <= next.loads[Root(next, s)]
          && |st.routes[Root(st, s)]| <= |next.routes[Root(next, s)]|)
  }

  lemma {:induction false} StepGrows(stops: seq<Stop>, vehicles: seq<Vehicle>, st: MergeState, p: Saving, x: nat)
    requires OthersNonNegative(stops, x) && x < |stops|
    requires Consistent(stops, vehicles, st) && PairInRange(p, |stops|)
    ensures Grew(st, MergeStep(vehicles, st, p), |stops|, x)
  {
    if Merges(vehicles, st, p) {
      StepRoots(vehicles, st, p, |stops|);
      var a, b := Root(st, p.i), Root(st, p.j);
      if Root(st, x) != a {
        LoadWithoutX(stops, st.routes[a], x);
      }
      if Root(st, x) != b {
        LoadWithoutX(stops, st.routes[b], x);
      }
    }
  }

  lemma {:induction false} TogetherStays(vehicles: seq<Vehicle>, st: MergeState, p: Saving, n: nat, i: nat, j: nat)
    requires Shaped(st, n) && PairInRange(p, n) && RootsNameRoutes(st, n) && i < n && j < n
    requires Root(st, i) == Root(st, j)
    ensures Root(MergeStep(vehicles, st, p), i) == Root(MergeStep(vehicles, st, p), j)
  {
    if Merges(vehicles, st, p) {
      StepRoots(vehicles, st, p, n);
    }
  }

  // The pair cannot be merged: already together, or no vehicle takes both routes.
  ghost predicate Blocked(vehicles: seq<Vehicle>, st: MergeState, i: nat, j: nat)
    requires Shaped(st, |st.routes|) && i < |st.routes| && j < |st.routes|
  {
    var ri, rj := Root(st, i), Root(st, j);
    ri == rj || !Fits(vehicles, st.loads[ri] + st.loads[rj], |st.routes[ri]| + |st.routes[rj]|)
  }

  ghost predicate HasPair(savings: seq<Saving>, i: nat, j: nat) {
    exists p :: p in savings && p.i == i && p.j == j
  }

  ghost predicate Covers(savings: seq<Saving>, n: nat) {
    forall i: nat, j: nat :: i < j < n ==> HasPair(savings, i, j)
  }

  // The pair in either order.
  predicate Pairs(p: Saving, i: nat, j: nat) {
    (p.i == i && p.j == j) || (p.i == j && p.j == i)
  }

  ghost predicate Listed(savings: seq<Saving>, i: nat, j: nat) {
    exists p :: p in savings && Pairs(p, i, j)
  }

  lemma {:induction false} ListedBefore(savings: seq<Saving>, i: nat, j: nat)
    requires Listed(savings, i, j)
    ensures savings != []
    ensures Pairs(savings[|savings| - 1], i, j) || Listed(savings[..|savings| - 1], i, j)
  {
    var q :| q in savings && Pairs(q, i, j);
    assert savings == savings[..|savings| - 1] + [savings[|savings| - 1]];
  }

  lemma {:induction false} CoversListed(savings: seq<Saving>, n: nat, i: nat, j: nat)
    requires Covers(savings, n) && i < n && j < n && i != j
    ensures Listed(savings, i, j)
  {
    assert HasPair(savings, if i < j then i else j, if i < j then j else i);
  }

  lemma {:induction false} BlockedStays(
    vehicles: seq<Vehicle>, st: MergeState, next: MergeState, n: nat, x: nat, i: nat, j: nat)
    requires Shaped(st, n) && Shaped(next, n) && x < n && Grew(st, next, n, x)
    requires i < n && j < n && Watched(next, i, x) && Watched(next, j, x) && Blocked(vehicles, st, i, j)
    ensures Blocked(vehicles, next, i, j)
  {
  }

  lemma {:induction false} StepBlocks(stops: seq<Stop>, vehicles: seq<Vehicle>, st: MergeState, p: Saving)
    requires Consistent(stops, vehicles, st) && PairInRange(p, |stops|)
    ensures Blocked(vehicles, MergeStep(vehicles, st, p), p.i, p.j)
  {
    if Merges(vehicles, st, p) {
      StepRoots(vehicles, st, p, |stops|);
    }
  }

  lemma {:induction false} WatchedBefore(
    stops: seq<Stop>, vehicles: seq<Vehicle>, st: MergeState, p: Saving, x: nat, i: nat)
    requires OthersNonNegative(stops, x) && x < |stops| && i < |stops|
    requires Consistent(stops, vehicles, st) && PairInRange(p, |stops|)
    requires Watched(MergeStep(vehicles, st, p), i, x)
    ensures Watched(st, i, x)
  {
    StepGrows(stops, vehicles, st, p, x);
  }

  lemma {:induction false} StepStaysBlocked(
    stops: seq<Stop>, vehicles: seq<Vehicle>, st: MergeState, p: Saving, x: nat, i: nat, j: nat)
    requires OthersNonNegative(stops, x) && x < |stops| && i < |stops| && j < |stops|
    requires Consistent(stops, vehicles, st) && PairInRange(p, |stops|)
    requires Watched(MergeStep(vehicles, st, p), i, x) && Watched(MergeStep(vehicles, st, p), j, x)
    requires (p.i == i && p.j == j) || Blocked(vehicles, st, i, j)
    ensures Blocked(vehicles, MergeStep(vehicles, st, p), i, j)
  {
    if p.i == i && p.j == j {
      StepBlocks(stops, vehicles, st, p);
    } else {
      StepGrows(stops, vehicles, st, p, x);
      BlockedStays(vehicles, st, MergeStep(vehicles, st, p), |stops|, x, i, j);
    }
  }

  lemma {:induction false} HasPairBefore(savings: seq<Saving>, i: nat, j: nat)
    requires HasPair(savings, i, j)
    ensures savings != []
    ensures var p := savings[|savings| - 1]; (p.i == i && p.j == j) || HasPair(savings[..|savings| - 1], i, j)
  {
    var q :| q in savings && q.i == i && q.j == j;
    assert savings == savings[..|savings| - 1] + [savings[|savings| - 1]];
  }

  // A pair once tried stays together or beyond every vehicle, as long as both stops are watched.
  lemma {:induction false} TriedPairsBlocked(
    stops: seq<Stop>, vehicles: seq<Vehicle>, savings: seq<Saving>, x: nat, i: nat, j: nat)
    requires OthersNonNegative(stops, x) && x < |stops|
    requires PairsInRange(savings, |stops|) && i < |stops| && j < |stops| && HasPair(savings, i, j)
    requires var last := MergeAll(vehicles, Initial(stops), savings); Watched(last, i, x) && Watched(last, j, x)
    ensures Blocked(vehicles, MergeAll(vehicles, Initial(stops), savings), i, j)
  {
    HasPairBefore(savings, i, j);
    var before, p := savings[..|savings| - 1], savings[|savings| - 1];
    var st := MergeAll(vehicles, Initial(stops), before);
    MergeInvariant(stops, vehicles, before);
    if !(p.i == i && p.j == j) {
      WatchedBefore(stops, vehicles, st, p, x, i);
      WatchedBefore(stops, vehicles, st, p, x, j);
      TriedPairsBlocked(stops, vehicles, before, x, i, j);
    }
    StepStaysBlocked(stops, vehicles, st, p, x, i, j);
  }

  // ----- The plan: the non-empty routes, in table order -----

  function NonEmpty(routes: seq<seq<nat>>): (kept: seq<seq<nat>>)
    ensures forall k :: 0 <= k < |kept| ==> kept[k] in routes && kept[k] != []
  {
    if routes == [] then []
    else if routes[0] == [] then NonEmpty(routes[1..])
    else [routes[0]] + NonEmpty(routes[1..])
  }

  function Plan(stops: seq<Stop>, vehicles: seq<Vehicle>, savings: seq<Saving>): (plan: seq<seq<nat>>)
    requires PairsInRange(savings, |stops|)
    ensures forall k :: 0 <= k < |plan| ==> InRange(plan[k], |stops|)
  {
    NonEmpty(MergeAll(vehicles, Initial(stops), savings).routes)
  }

  // Once the first pairs of the list have left every two stops blocked, the plan is settled.
  lemma {:induction false} PlanSettled(
    stops: seq<Stop>, vehicles: seq<Vehicle>, first: seq<Saving>, savings: seq<Saving>, st: MergeState)
    requires PairsInRange(savings, |stops|) && PairsInRange(first, |stops|) && first <= savings
    requires st == MergeAll(vehicles, Initial(stops), first)
    requires forall i: nat, j: nat :: i < |stops| && j < |stops| ==> Blocked(vehicles, st, i, j)
    ensures Plan(stops, vehicles, savings) == NonEmpty(st.routes)
  {
    MergeAllPrefix(vehicles, Initial(stops), first, savings);
    MergesOver(vehicles, st, savings[|first|..]);
  }

  lemma {:induction false} NonEmptyOrigin(routes: seq<seq<nat>>, a: nat) returns (r: nat)
    requires a < |NonEmpty(routes)|
    ensures r < |routes| && NonEmpty(routes)[a] == routes[r]
  {
    if routes[0] == [] {
      r := NonEmptyOrigin(routes[1..], a);
      r := r + 1;
    } else if a == 0 {
      r := 0;
    } else {
      r := NonEmptyOrigin(routes[1..], a - 1);
      r := r + 1;
    }
  }

  lemma {:induction false} NonEmptyOrigins(routes: seq<seq<nat>>, a: nat, b: nat) returns (r: nat, q: nat)
    requires a < b < |NonEmpty(routes)|
    ensures r < q < |routes| && NonEmpty(routes)[a] == routes[r] && NonEmpty(routes)[b] == routes[q]
  {
    if routes[0] == [] {
      r, q := NonEmptyOrigins(routes[1..], a, b);
      r, q := r + 1, q + 1;
    } else if a == 0 {
      r := 0;
      q := NonEmptyOrigin(routes[1..], b - 1);
      q := q + 1;
    } else {
      r, q := NonEmptyOrigins(routes[1..], a - 1, b - 1);
      r, q := r + 1, q + 1;
    }
  }

  lemma {:induction false} NonEmptyContent(routes: seq<seq<nat>>)
    ensures Content(NonEmpty(routes)) == Content(routes)
  {
    if routes != [] {
      NonEmptyContent(routes[1..]);
      if routes[0] != [] {
        assert NonEmpty(routes)[1..] == NonEmpty(routes[1..]);
      }
    }
  }

  // Every stop is in the plan exactly once.
  lemma {:induction false} PlanCoversStops(stops: seq<Stop>, vehicles: seq<Vehicle>, savings: seq<Saving>)
    requires PairsInRange(savings, |stops|)
    ensures Content(Plan(stops, vehicles, savings)) == multiset(AllIndices(|stops|))
  {
    MergeInvariant(stops, vehicles, savings);
    NonEmptyContent(MergeAll(vehicles, Initial(stops), savings).routes);
  }

  // A route made by merging fits some vehicle.
  lemma {:induction false} MergedRouteFitsSomeVehicle(
    stops: seq<Stop>, vehicles: seq<Vehicle>, savings: seq<Saving>, a: nat)
    requires PairsInRange(savings, |stops|)
    requires a < |Plan(stops, vehicles, savings)| && |Plan(stops, vehicles, savings)[a]| >= 2
    ensures var route := Plan(stops, vehicles, savings)[a];
            exists v :: v in vehicles && Load(stops, route) <= v.capacity && |route| <= v.maxStops
  {
    MergeInvariant(stops, vehicles, savings);
    var r := NonEmptyOrigin(MergeAll(vehicles, Initial(stops), savings).routes, a);
    FitsOneVehicle(vehicles, Load(stops, Plan(stops, vehicles, savings)[a]), |Plan(stops, vehicles, savings)[a]|);
  }

  // The stop to name a route by: x if it is in the route, any other stop if not.
  lemma {:induction false} Representative(st: MergeState, n: nat, r: nat, x: nat) returns (s: nat)
    requires Shaped(st, n) && RootsNameRoutes(st, n) && r < n && x < n && st.routes[r] != []
    ensures s < n && Root(st, s) == r && Watched(st, s, x)
  {
    s := if Root(st, x) == r then x else st.routes[r][0];
    assert s in st.routes[r];
  }

  lemma {:induction false} TheNegativeStop(stops: seq<Stop>) returns (x: nat)
    requires AtMostOneNegative(stops) && stops != []
    ensures x < |stops| && OthersNonNegative(stops, x)
  {
    if k :| 0 <= k < |stops| && stops[k].demand < 0.0 {
      x := k;
    } else {
      x := 0;
    }
  }

  lemma {:induction false} PairBlocked(
    stops: seq<Stop>, vehicles: seq<Vehicle>, savings: seq<Saving>, x: nat, i: nat, j: nat)
    requires OthersNonNegative(stops, x) && x < |stops|
    requires PairsInRange(savings, |stops|) && Covers(savings, |stops|)
    requires i < |stops| && j < |stops| && i != j
    requires var last := MergeAll(vehicles, Initial(stops), savings); Watched(last, i, x) && Watched(last, j, x)
    ensures Blocked(vehicles, MergeAll(vehicles, Initial(stops), savings), i, j)
  {
    if i < j {
      assert HasPair(savings, i, j);
      TriedPairsBlocked(stops, vehicles, savings, x, i, j);
    } else {
      assert HasPair(savings, j, i);
      TriedPairsBlocked(stops, vehicles, savings, x, j, i);
    }
  }

  ghost predicate AllBlocked(vehicles: seq<Vehicle>, st: MergeState, n: nat, x: nat)
    requires Shaped(st, n) && x < n
  {
    forall i: nat, j: nat :: i < n && j < n && i != j && Watched(st, i, x) && Watched(st, j, x) ==>
      Blocked(vehicles, st, i, j)
  }

  lemma {:induction false} TriedAllBlocked(stops: seq<Stop>, vehicles: seq<Vehicle>, savings: seq<Saving>, x: nat)
    requires OthersNonNegative(stops, x) && x < |stops|
    requires PairsInRange(savings, |stops|) && Covers(savings, |stops|)
    ensures AllBlocked(vehicles, MergeAll(vehicles, Initial(stops), savings), |stops|, x)
  {
    var st := MergeAll(vehicles, Initial(stops), savings);
    forall i: nat, j: nat | i < |stops| && j < |stops| && i != j && Watched(st, i, x) && Watched(st, j, x)
      ensures Blocked(vehicles, st, i, j)
    {
      PairBlocked(stops, vehicles, savings, x, i, j);
    }
  }

  // No two of the routes could be joined within any one vehicle's limits.
  ghost predicate Unjoinable(stops: seq<Stop>, vehicles: seq<Vehicle>, routes: seq<seq<nat>>)
    requires forall r :: 0 <= r < |routes| ==> InRange(routes[r], |stops|)
  {
    forall r, q :: 0 <= r < q < |routes| && routes[r] != [] && routes[q] != [] ==>
      !Fits(vehicles, Load(stops, routes[r]) + Load(stops, routes[q]), |routes[r]| + |routes[q]|)
  }

  // If watched stops of different routes block each other, so do the routes.
  lemma {:induction false} RoutesBlocked(stops: seq<Stop>, vehicles: seq<Vehicle>, st: MergeState, x: nat)
    requires Consistent(stops, vehicles, st) && x < |stops| && AllBlocked(vehicles, st, |stops|, x)
    ensures Unjoinable(stops, vehicles, st.routes)
  {
    forall r, q | 0 <= r < q < |stops| && st.routes[r] != [] && st.routes[q] != []
      ensures !Fits(vehicles, Load(stops, st.routes[r]) + Load(stops, st.routes[q]),
                    |st.routes[r]| + |st.routes[q]|)
    {
      var i := Representative(st, |stops|, r, x);
      var j := Representative(st, |stops|, q, x);
      assert Blocked(vehicles, st, i, j);
      assert st.loads[r] == Load(stops, st.routes[r]) && st.loads[q] == Load(stops, st.routes[q]);
    }
  }

  lemma {:induction false} NonEmptyNone(routes: seq<seq<nat>>)
    requires forall r :: 0 <= r < |routes| ==> routes[r] == []
    ensures NonEmpty(routes) == []
  {
    if routes != [] {
      NonEmptyNone(routes[1..]);
    }
  }

  lemma {:induction false} NonEmptyAll(routes: seq<seq<nat>>)
    requires forall r :: 0 <= r < |routes| ==> routes[r] != []
    ensures NonEmpty(routes) == routes
  {
    if routes != [] {
      NonEmptyAll(routes[1..]);
    }
  }

  lemma {:induction false} NonEmptyCons(r: seq<nat>, routes: seq<seq<nat>>)
    ensures NonEmpty([r] + routes) == (if r == [] then [] else [r]) + NonEmpty(routes)
  {
    var whole := [r] + routes;
    assert whole[0] == r && whole[1..] == routes;
  }

  lemma {:induction false} NonEmptyConcat(a: seq<seq<nat>>, b: seq<seq<nat>>)
    ensures NonEmpty(a + b) == NonEmpty(a) + NonEmpty(b)
  {
    if a == [] {
      assert a + b == b;
    } else {
      NonEmptyConcat(a[1..], b);
      NonEmptyCons(a[0], a[1..] + b);
      NonEmptyCons(a[0], a[1..]);
      assert a + b == [a[0]] + (a[1..] + b) && a == [a[0]] + a[1..];
    }
  }

  lemma {:induction false} NonEmptyPlace(routes: seq<seq<nat>>, r: nat) returns (a: nat)
    requires r < |routes| && routes[r] != []
    ensures a < |NonEmpty(routes)| && NonEmpty(routes)[a] == routes[r]
  {
    if r == 0 {
      a := 0;
    } else {
      a := NonEmptyPlace(routes[1..], r - 1);
      a := if routes[0] == [] then a else a + 1;
    }
  }

  lemma {:induction false} NonEmptyPlaces(routes: seq<seq<nat>>, r: nat, q: nat) returns (a: nat, b: nat)
    requires r < q < |routes| && routes[r] != [] && routes[q] != []
    ensures a < b < |NonEmpty(routes)| && NonEmpty(routes)[a] == routes[r] && NonEmpty(routes)[b] == routes[q]
  {
    if r == 0 {
      b := NonEmptyPlace(routes[1..], q - 1);
      a, b := 0, b + 1;
    } else {
      a, b := NonEmptyPlaces(routes[1..], r - 1, q - 1);
      if routes[0] != [] {
        a, b := a + 1, b + 1;
      }
    }
  }

  lemma {:induction false} NonEmptyUnjoinable(stops: seq<Stop>, vehicles: seq<Vehicle>, routes: seq<seq<nat>>)
    requires forall r :: 0 <= r < |routes| ==> InRange(routes[r], |stops|)
    ensures Unjoinable(stops, vehicles, NonEmpty(routes)) <==> Unjoinable(stops, vehicles, routes)
  {
    var kept := NonEmpty(routes);
    if Unjoinable(stops, vehicles, routes) {
      forall a, b | 0 <= a < b < |kept|
        ensures !Fits(vehicles, Load(stops, kept[a]) + Load(stops, kept[b]), |kept[a]| + |kept[b]|)
      {
        var r, q := NonEmptyOrigins(routes, a, b);
      }
    } else {
      var r: nat, q: nat :| r < q < |routes| && routes[r] != [] && routes[q] != [] &&
        Fits(vehicles, Load(stops, routes[r]) + Load(stops, routes[q]), |routes[r]| + |routes[q]|);
      var a, b := NonEmptyPlaces(routes, r, q);
    }
  }

  // Greedy maximality: with at most one negative demand, no two routes of the plan could still be joined within any
  // one vehicle's limits.
  lemma {:induction false} GreedyMaximality(stops: seq<Stop>, vehicles: seq<Vehicle>, savings: seq<Saving>)
    requires AtMostOneNegative(stops)
    requires PairsInRange(savings, |stops|) && Covers(savings, |stops|)
    ensures Unjoinable(stops, vehicles, Plan(stops, vehicles, savings))
    ensures var plan := Plan(stops, vehicles, savings);
            forall a, b, v :: 0 <= a < b < |plan| && v in vehicles ==>
              Load(stops, plan[a]) + Load(stops, plan[b]) > v.capacity || |plan[a]| + |plan[b]| > v.maxStops
  {
    if stops != [] {
      var x := TheNegativeStop(stops);
      TriedAllBlocked(stops, vehicles, savings, x);
      MergeInvariant(stops, vehicles, savings);
      RoutesBlocked(stops, vehicles, MergeAll(vehicles, Initial(stops), savings), x);
    }
    NonEmptyUnjoinable(stops, vehicles, MergeAll(vehicles, Initial(stops), savings).routes);
    NoVehicleLeft(stops, vehicles, Plan(stops, vehicles, savings));
  }

  lemma {:induction false} NoVehicleLeft(stops: seq<Stop>, vehicles: seq<Vehicle>, plan: seq<seq<nat>>)
    requires forall r :: 0 <= r < |plan| ==> InRange(plan[r], |stops|) && plan[r] != []
    requires Unjoinable(stops, vehicles, plan)
    ensures forall a, b, v :: 0 <= a < b < |plan| && v in vehicles ==>
              Load(stops, plan[a]) + Load(stops, plan[b]) > v.capacity || |plan[a]| + |plan[b]| > v.maxStops
  {
    forall a, b, v | 0 <= a < b < |plan| && v in vehicles
      ensures Load(stops, plan[a]) + Load(stops, plan[b]) > v.capacity || |plan[a]| + |plan[b]| > v.maxStops
    {
      FitsOneVehicle(vehicles, Load(stops, plan[a]) + Load(stops, plan[b]), |plan[a]| + |plan[b]|);
    }
  }
}
