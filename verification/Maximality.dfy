// When the returned routes are maximal, for every list of demands.
module Maximality {
  import opened Wrappers
  import opened Models
  import opened Sums
  import opened Tours
  import opened Merging
  import opened Savings
  import opened Hubs
  import opened HeavyThird
  import TwoPairs
  import opened Planning
  import opened Solutions

  // ----- No demand above zero -----

  // Loads never matter: no demand is above zero and no capacity below.
  ghost predicate OnlyCounts(stops: seq<Stop>, vehicles: seq<Vehicle>) {
    && (forall k :: 0 <= k < |stops| ==> stops[k].demand <= 0.0)
    && (forall k :: 0 <= k < |vehicles| ==> vehicles[k].capacity >= 0.0)
  }

  predicate HasRoom(vehicles: seq<Vehicle>, count: nat) {
    exists k :: 0 <= k < |vehicles| && count <= vehicles[k].maxStops
  }

  ghost predicate Crowded(vehicles: seq<Vehicle>, st: MergeState, i: nat, j: nat)
    requires Shaped(st, |st.routes|) && i < |st.routes| && j < |st.routes|
  {
    Root(st, i) == Root(st, j) || !HasRoom(vehicles, |st.routes[Root(st, i)]| + |st.routes[Root(st, j)]|)
  }

  lemma {:induction false} LightRoute(stops: seq<Stop>, route: seq<nat>)
    requires InRange(route, |stops|) && forall k :: 0 <= k < |stops| ==> stops[k].demand <= 0.0
    ensures Load(stops, route) <= 0.0
  {
    SumByNonPositive(DemandOf, Tour(stops, route));
  }

  lemma {:induction false} BlockedIsCrowded(
    stops: seq<Stop>, vehicles: seq<Vehicle>, st: MergeState, i: nat, j: nat)
    requires OnlyCounts(stops, vehicles) && Consistent(stops, vehicles, st) && i < |stops| && j < |stops|
    ensures Blocked(vehicles, st, i, j) <==> Crowded(vehicles, st, i, j)
  {
    LightRoute(stops, st.routes[Root(st, i)]);
    LightRoute(stops, st.routes[Root(st, j)]);
  }

  lemma {:induction false} StepCrowds(vehicles: seq<Vehicle>, st: MergeState, p: Saving, n: nat, i: nat, j: nat)
    requires Shaped(st, n) && RootsNameRoutes(st, n) && PairInRange(p, n) && i < n && j < n
    requires Crowded(vehicles, st, i, j)
    ensures Crowded(vehicles, MergeStep(vehicles, st, p), i, j)
  {
    if Merges(vehicles, st, p) {
      StepRoots(vehicles, st, p, n);
    }
  }

  lemma {:induction false} TriedPairsCrowded(
    stops: seq<Stop>, vehicles: seq<Vehicle>, savings: seq<Saving>, i: nat, j: nat)
    requires OnlyCounts(stops, vehicles) && PairsInRange(savings, |stops|)
    requires i < |stops| && j < |stops| && Listed(savings, i, j)
    ensures Crowded(vehicles, MergeAll(vehicles, Initial(stops), savings), i, j)
  {
    ListedBefore(savings, i, j);
    var before, p := savings[..|savings| - 1], savings[|savings| - 1];
    var st := MergeAll(vehicles, Initial(stops), before);
    MergeInvariant(stops, vehicles, before);
    if Listed(before, i, j) {
      TriedPairsCrowded(stops, vehicles, before, i, j);
      StepCrowds(vehicles, st, p, |stops|, i, j);
    } else {
      StepConsistent(stops, vehicles, st, p);
      StepBlocks(stops, vehicles, st, p);
      BlockedIsCrowded(stops, vehicles, MergeStep(vehicles, st, p), p.i, p.j);
    }
  }

  lemma {:induction false} TriedAllCrowded(stops: seq<Stop>, vehicles: seq<Vehicle>, savings: seq<Saving>)
    requires OnlyCounts(stops, vehicles) && stops != []
    requires PairsInRange(savings, |stops|) && Covers(savings, |stops|)
    ensures AllBlocked(vehicles, MergeAll(vehicles, Initial(stops), savings), |stops|, 0)
  {
    var st := MergeAll(vehicles, Initial(stops), savings);
    MergeInvariant(stops, vehicles, savings);
    forall i: nat, j: nat | i < |stops| && j < |stops| && i != j ensures Blocked(vehicles, st, i, j) {
      CoversListed(savings, |stops|, i, j);
      TriedPairsCrowded(stops, vehicles, savings, i, j);
      BlockedIsCrowded(stops, vehicles, st, i, j);
    }
  }

  // Without demands above zero and capacities below, the plan is maximal as well.
  lemma {:induction false} NonPositiveMaximal(stops: seq<Stop>, vehicles: seq<Vehicle>, savings: seq<Saving>)
    requires OnlyCounts(stops, vehicles)
    requires PairsInRange(savings, |stops|) && Covers(savings, |stops|)
    ensures Unjoinable(stops, vehicles, Plan(stops, vehicles, savings))
  {
    if stops != [] {
      TriedAllCrowded(stops, vehicles, savings);
      MergeInvariant(stops, vehicles, savings);
      RoutesBlocked(stops, vehicles, MergeAll(vehicles, Initial(stops), savings), 0);
    }
    NonEmptyUnjoinable(stops, vehicles, MergeAll(vehicles, Initial(stops), savings).routes);
  }

  // ----- Two stops -----

  lemma {:induction false} StepBlocksTwo(stops: seq<Stop>, vehicles: seq<Vehicle>, st: MergeState, p: Saving)
    requires |stops| == 2 && Consistent(stops, vehicles, st) && p.i == 0 && p.j == 1
    ensures AllBlocked(vehicles, MergeStep(vehicles, st, p), 2, 0)
  {
    StepBlocks(stops, vehicles, st, p);
    var next := MergeStep(vehicles, st, p);
    forall i: nat, j: nat | i < 2 && j < 2 && i != j ensures Blocked(vehicles, next, i, j) {
      assert (i == 0 && j == 1) || (i == 1 && j == 0);
    }
  }

  lemma {:induction false} TwoBlocked(stops: seq<Stop>, vehicles: seq<Vehicle>, savings: seq<Saving>)
    requires |stops| == 2 && PairsInRange(savings, 2) && Covers(savings, 2)
    requires forall k :: 0 <= k < |savings| ==> savings[k].i < savings[k].j
    ensures AllBlocked(vehicles, MergeAll(vehicles, Initial(stops), savings), 2, 0)
  {
    CoversListed(savings, 2, 0, 1);
    ListedBefore(savings, 0, 1);
    var before := savings[..|savings| - 1];
    MergeInvariant(stops, vehicles, before);
    StepBlocksTwo(stops, vehicles, MergeAll(vehicles, Initial(stops), before), savings[|savings| - 1]);
  }

  // ----- Three stops -----

  // No demand is above both others.
  ghost predicate GreatestTwice(demands: seq<real>) {
    forall y :: 0 <= y < |demands| ==> exists z :: 0 <= z < |demands| && z != y && demands[z] >= demands[y]
  }

  ghost predicate AllApart(st: MergeState, n: nat)
    requires Shaped(st, n)
  {
    forall s, t :: 0 <= s < t < n ==> Root(st, s) != Root(st, t)
  }

  // As long as no two stops are together no pair has fitted.
  ghost predicate NoneFitted(stops: seq<Stop>, vehicles: seq<Vehicle>, savings: seq<Saving>, st: MergeState)
    requires PairsInRange(savings, |stops|)
  {
    && st == Initial(stops)
    && forall k :: 0 <= k < |savings| ==> !Merges(vehicles, Initial(stops), savings[k])
  }

  lemma {:induction false} NeverMerged(stops: seq<Stop>, vehicles: seq<Vehicle>, savings: seq<Saving>)
    requires PairsInRange(savings, |stops|)
    requires forall k :: 0 <= k < |savings| ==> savings[k].i < savings[k].j
    requires AllApart(MergeAll(vehicles, Initial(stops), savings), |stops|)
    ensures NoneFitted(stops, vehicles, savings, MergeAll(vehicles, Initial(stops), savings))
  {
    if savings != [] {
      var before, p := savings[..|savings| - 1], savings[|savings| - 1];
      var st := MergeAll(vehicles, Initial(stops), before);
      MergeInvariant(stops, vehicles, before);
      ApartBefore(vehicles, st, p, |stops|);
      NeverMerged(stops, vehicles, before);
      NoneFittedSnoc(stops, vehicles, before, p, st);
      assert savings == before + [p];
    }
  }

  lemma {:induction false} NoneFittedSnoc(
    stops: seq<Stop>, vehicles: seq<Vehicle>, before: seq<Saving>, p: Saving, st: MergeState)
    requires PairsInRange(before, |stops|) && NoneFitted(stops, vehicles, before, st)
    requires PairInRange(p, |stops|) && !Merges(vehicles, st, p)
    ensures PairsInRange(before + [p], |stops|)
    ensures NoneFitted(stops, vehicles, before + [p], MergeStep(vehicles, st, p))
  {
  }

  lemma {:induction false} StepJoins(vehicles: seq<Vehicle>, st: MergeState, p: Saving, n: nat)
    requires Shaped(st, n) && RootsNameRoutes(st, n) && PairInRange(p, n) && p.i < p.j && Merges(vehicles, st, p)
    ensures !AllApart(MergeStep(vehicles, st, p), n)
  {
    StepRoots(vehicles, st, p, n);
    assert Root(MergeStep(vehicles, st, p), p.i) == Root(MergeStep(vehicles, st, p), p.j);
  }

  lemma {:induction false} ApartBefore(vehicles: seq<Vehicle>, st: MergeState, p: Saving, n: nat)
    requires Shaped(st, n) && RootsNameRoutes(st, n) && PairInRange(p, n) && p.i < p.j
    requires AllApart(MergeStep(vehicles, st, p), n)
    ensures AllApart(st, n) && !Merges(vehicles, st, p)
  {
    if Merges(vehicles, st, p) {
      StepJoins(vehicles, st, p, n);
      assert false;
    }
  }

  // Two stops can come together through the third only, if their own pair is not tried.
  ghost predicate Through(st: MergeState, i: nat, j: nat, y: nat)
    requires i < |st.routeOf| && j < |st.routeOf| && y < |st.routeOf|
  {
    Root(st, i) == Root(st, j) ==> Root(st, y) == Root(st, i)
  }

  lemma {:induction false} ThroughStep(vehicles: seq<Vehicle>, st: MergeState, p: Saving, i: nat, j: nat, y: nat)
    requires Shaped(st, 3) && RootsNameRoutes(st, 3) && PairInRange(p, 3) && p.i < p.j && !Pairs(p, i, j)
    requires i < 3 && j < 3 && y < 3 && i != j && i != y && j != y && Through(st, i, j, y)
    ensures Through(MergeStep(vehicles, st, p), i, j, y)
  {
    if Merges(vehicles, st, p) {
      assert p.i == y || p.j == y;
      StepRoots(vehicles, st, p, 3);
    }
  }

  lemma {:induction false} OnlyThrough(
    stops: seq<Stop>, vehicles: seq<Vehicle>, savings: seq<Saving>, i: nat, j: nat, y: nat)
    requires |stops| == 3 && PairsInRange(savings, 3)
    requires forall k :: 0 <= k < |savings| ==> savings[k].i < savings[k].j && !Pairs(savings[k], i, j)
    requires i < 3 && j < 3 && y < 3 && i != j && i != y && j != y
    ensures Through(MergeAll(vehicles, Initial(stops), savings), i, j, y)
  {
    if savings != [] {
      var before := savings[..|savings| - 1];
      MergeInvariant(stops, vehicles, before);
      OnlyThrough(stops, vehicles, before, i, j, y);
      ThroughStep(vehicles, MergeAll(vehicles, Initial(stops), before), savings[|savings| - 1], i, j, y);
    }
  }

  // If a pair fits and neither of its stops fits with the third, the third has the greatest demand.
  lemma {:induction false} ThirdIsGreatest(stops: seq<Stop>, vehicles: seq<Vehicle>, i: nat, j: nat, y: nat)
    requires |stops| == 3 && i < 3 && j < 3 && y < 3 && i != j && i != y && j != y
    requires Fits(vehicles, stops[i].demand + stops[j].demand, 2)
    requires !Fits(vehicles, stops[i].demand + stops[y].demand, 2)
    requires !Fits(vehicles, stops[j].demand + stops[y].demand, 2)
    ensures !GreatestTwice(Demands(stops))
  {
    var demands := Demands(stops);
    forall z | 0 <= z < |demands| && z != y ensures demands[z] < demands[y] {
      assert z == i || z == j;
    }
  }

  // The third stop is on its own, and the other two are together.
  ghost predicate ThirdAlone(st: MergeState, p: Saving, y: nat)
    requires Shaped(st, 3) && PairInRange(p, 3) && y < 3
  {
    Root(st, p.i) == Root(st, p.j) && Root(st, y) != Root(st, p.i)
  }

  lemma {:induction false} ThreeApart(st: MergeState, i: nat, j: nat, y: nat)
    requires Shaped(st, 3) && i < 3 && j < 3 && y < 3 && i != j && i != y && j != y
    requires Root(st, i) != Root(st, j) && Root(st, i) != Root(st, y) && Root(st, j) != Root(st, y)
    ensures AllApart(st, 3)
  {
    forall s, t | 0 <= s < t < 3 ensures Root(st, s) != Root(st, t) {
      assert (s == i || s == j || s == y) && (t == i || t == j || t == y);
    }
  }

  lemma {:induction false} ThirdAloneBefore(vehicles: seq<Vehicle>, st: MergeState, p: Saving, y: nat)
    requires Shaped(st, 3) && RootsNameRoutes(st, 3) && p.i < p.j < 3 && y < 3 && p.i != y && p.j != y
    requires Through(st, p.i, p.j, y) && ThirdAlone(MergeStep(vehicles, st, p), p, y)
    ensures Merges(vehicles, st, p) && AllApart(st, 3)
  {
    if Merges(vehicles, st, p) {
      StepRoots(vehicles, st, p, 3);
      ThreeApart(st, p.i, p.j, y);
    }
  }

  // What three stops' tables keep until the pair p comes up, which is listed last.
  ghost predicate UntilLast(
    stops: seq<Stop>, vehicles: seq<Vehicle>, before: seq<Saving>, st: MergeState, p: Saving, y: nat)
    requires |stops| == 3 && PairsInRange(before, 3) && PairInRange(p, 3) && y < 3
  {
    && Shaped(st, 3) && RootsNameRoutes(st, 3) && Through(st, p.i, p.j, y)
    && (AllApart(st, 3) ==> NoneFitted(stops, vehicles, before, st))
  }

  lemma {:induction false} TablesUntilLast(
    stops: seq<Stop>, vehicles: seq<Vehicle>, before: seq<Saving>, p: Saving, y: nat)
    requires |stops| == 3 && PairsInRange(before, 3)
    requires forall k :: 0 <= k < |before| ==> before[k].i < before[k].j && !Pairs(before[k], p.i, p.j)
    requires p.i < p.j < 3 && y < 3 && p.i != y && p.j != y
    ensures UntilLast(stops, vehicles, before, MergeAll(vehicles, Initial(stops), before), p, y)
  {
    MergeInvariant(stops, vehicles, before);
    OnlyThrough(stops, vehicles, before, p.i, p.j, y);
    if AllApart(MergeAll(vehicles, Initial(stops), before), 3) {
      NeverMerged(stops, vehicles, before);
    }
  }

  // The last pair cannot have left the third stop on its own, if it is not the greatest alone.
  lemma {:induction false} LastPair(
    stops: seq<Stop>, vehicles: seq<Vehicle>, before: seq<Saving>, st: MergeState, p: Saving, y: nat)
    requires |stops| == 3 && GreatestTwice(Demands(stops)) && PairsInRange(before, 3)
    requires p.i < p.j < 3 && y < 3 && p.i != y && p.j != y
    requires Listed(before, p.i, y) && Listed(before, p.j, y)
    requires UntilLast(stops, vehicles, before, st, p, y)
    ensures !ThirdAlone(MergeStep(vehicles, st, p), p, y)
  {
    if ThirdAlone(MergeStep(vehicles, st, p), p, y) {
      ThirdAloneBefore(vehicles, st, p, y);
      ThirdGreatestAlone(stops, vehicles, before, st, p, y);
      assert false;
    }
  }

  lemma {:induction false} ThirdGreatestAlone(
    stops: seq<Stop>, vehicles: seq<Vehicle>, before: seq<Saving>, st: MergeState, p: Saving, y: nat)
    requires |stops| == 3 && PairsInRange(before, 3) && NoneFitted(stops, vehicles, before, st)
    requires p.i < p.j < 3 && y < 3 && p.i != y && p.j != y && Merges(vehicles, st, p)
    requires Listed(before, p.i, y) && Listed(before, p.j, y)
    ensures !GreatestTwice(Demands(stops))
  {
    FitsAsSingles(stops, vehicles, before, st, p, y);
    ThirdIsGreatest(stops, vehicles, p.i, p.j, y);
  }

  lemma {:induction false} FitsAsSingles(
    stops: seq<Stop>, vehicles: seq<Vehicle>, before: seq<Saving>, st: MergeState, p: Saving, y: nat)
    requires |stops| == 3 && PairsInRange(before, 3) && NoneFitted(stops, vehicles, before, st)
    requires p.i < p.j < 3 && y < 3 && p.i != y && p.j != y && Merges(vehicles, st, p)
    requires Listed(before, p.i, y) && Listed(before, p.j, y)
    ensures Fits(vehicles, stops[p.i].demand + stops[p.j].demand, 2)
    ensures !Fits(vehicles, stops[p.i].demand + stops[y].demand, 2)
    ensures !Fits(vehicles, stops[p.j].demand + stops[y].demand, 2)
  {
    NotFitted(stops, vehicles, before, st, p.i, y);
    NotFitted(stops, vehicles, before, st, p.j, y);
  }

  lemma {:induction false} NotFitted(
    stops: seq<Stop>, vehicles: seq<Vehicle>, savings: seq<Saving>, st: MergeState, i: nat, j: nat)
    requires PairsInRange(savings, |stops|) && NoneFitted(stops, vehicles, savings, st)
    requires i < |stops| && j < |stops| && i != j && Listed(savings, i, j)
    ensures !Fits(vehicles, stops[i].demand + stops[j].demand, 2)
  {
    var p :| p in savings && Pairs(p, i, j);
    var k :| 0 <= k < |savings| && savings[k] == p;
    assert !Merges(vehicles, Initial(stops), savings[k]);
  }

  // Each pair once, as a listing has them.
  ghost predicate Once(savings: seq<Saving>) {
    && (forall k :: 0 <= k < |savings| ==> savings[k].i < savings[k].j)
    && (forall k, l :: 0 <= k < l < |savings| ==> !Pairs(savings[k], savings[l].i, savings[l].j))
  }

  lemma {:induction false} ListingOnce(d: Distance, depot: Coordinate, stops: seq<Stop>, savings: seq<Saving>)
    requires IsListing(d, depot, stops, savings)
    ensures Once(savings)
  {
    forall k | 0 <= k < |savings| ensures savings[k].i < savings[k].j {
      assert IsListed(d, depot, stops, savings[k]);
    }
    forall k, l | 0 <= k < l < |savings| ensures !Pairs(savings[k], savings[l].i, savings[l].j) {
      assert IsListed(d, depot, stops, savings[k]) && IsListed(d, depot, stops, savings[l]);
      assert Outranks(savings[k], savings[l]);
    }
  }

  lemma {:induction false} OthersListed(savings: seq<Saving>, y: nat)
    requires savings != [] && Covers(savings, 3) && Once(savings) && PairsInRange(savings, 3)
    requires y == 3 - savings[|savings| - 1].i - savings[|savings| - 1].j
    ensures var before, p := savings[..|savings| - 1], savings[|savings| - 1];
            && Listed(before, p.i, y) && Listed(before, p.j, y)
            && forall k :: 0 <= k < |before| ==> before[k].i < before[k].j && !Pairs(before[k], p.i, p.j)
  {
    var p := savings[|savings| - 1];
    assert p.i < p.j < 3 && y < 3 && y != p.i && y != p.j;
    CoversListed(savings, 3, p.i, y);
    ListedBefore(savings, p.i, y);
    CoversListed(savings, 3, p.j, y);
    ListedBefore(savings, p.j, y);
  }

  lemma {:induction false} LastStep(
    stops: seq<Stop>, vehicles: seq<Vehicle>, savings: seq<Saving>, st: MergeState, y: nat)
    requires |stops| == 3 && GreatestTwice(Demands(stops)) && savings != []
    requires PairsInRange(savings, 3) && Covers(savings, 3) && Once(savings)
    requires y == 3 - savings[|savings| - 1].i - savings[|savings| - 1].j
    requires st == MergeAll(vehicles, Initial(stops), savings)
    ensures Blocked(vehicles, st, savings[|savings| - 1].i, savings[|savings| - 1].j)
    ensures !ThirdAlone(st, savings[|savings| - 1], y)
  {
    var before, p := savings[..|savings| - 1], savings[|savings| - 1];
    OthersListed(savings, y);
    TablesUntilLast(stops, vehicles, before, p, y);
    LastPair(stops, vehicles, before, MergeAll(vehicles, Initial(stops), before), p, y);
    MergeInvariant(stops, vehicles, before);
    StepBlocks(stops, vehicles, MergeAll(vehicles, Initial(stops), before), p);
  }

  lemma {:induction false} NoneFittedBlocked(
    stops: seq<Stop>, vehicles: seq<Vehicle>, savings: seq<Saving>, st: MergeState)
    requires PairsInRange(savings, |stops|) && Covers(savings, |stops|) && NoneFitted(stops, vehicles, savings, st)
    requires stops != []
    ensures AllBlocked(vehicles, st, |stops|, 0)
  {
    forall i: nat, j: nat | i < |stops| && j < |stops| && i != j ensures Blocked(vehicles, st, i, j) {
      CoversListed(savings, |stops|, i, j);
      NotFitted(stops, vehicles, savings, st, i, j);
    }
  }

  // If some of three stops are together, but not only the two of a blocked pair, every pair is blocked.
  lemma {:induction false} OneBlocksAll(vehicles: seq<Vehicle>, st: MergeState, p: Saving, y: nat)
    requires Shaped(st, 3) && p.i < p.j < 3 && y == 3 - p.i - p.j
    requires Blocked(vehicles, st, p.i, p.j) && !AllApart(st, 3) && !ThirdAlone(st, p, y)
    ensures AllBlocked(vehicles, st, 3, 0)
  {
    if Root(st, y) != Root(st, p.i) && Root(st, y) != Root(st, p.j) {
      ThreeApart(st, p.i, p.j, y);
    }
    forall i: nat, j: nat | i < 3 && j < 3 && i != j ensures Blocked(vehicles, st, i, j) {
      assert (i == p.i || i == p.j || i == y) && (j == p.i || j == p.j || j == y);
    }
  }

  lemma {:induction false} ThreeState(
    stops: seq<Stop>, vehicles: seq<Vehicle>, savings: seq<Saving>, st: MergeState, p: Saving, y: nat)
    requires |stops| == 3 && PairsInRange(savings, 3) && Covers(savings, 3)
    requires Shaped(st, 3) && p.i < p.j < 3 && y == 3 - p.i - p.j
    requires Blocked(vehicles, st, p.i, p.j) && !ThirdAlone(st, p, y)
    requires AllApart(st, 3) ==> NoneFitted(stops, vehicles, savings, st)
    ensures AllBlocked(vehicles, st, 3, 0)
  {
    if AllApart(st, 3) {
      NoneFittedBlocked(stops, vehicles, savings, st);
    } else {
      OneBlocksAll(vehicles, st, p, y);
    }
  }

  lemma {:induction false} ThreeBlocked(stops: seq<Stop>, vehicles: seq<Vehicle>, savings: seq<Saving>)
    requires |stops| == 3 && GreatestTwice(Demands(stops))
    requires PairsInRange(savings, 3) && Covers(savings, 3) && Once(savings)
    ensures AllBlocked(vehicles, MergeAll(vehicles, Initial(stops), savings), 3, 0)
  {
    CoversListed(savings, 3, 0, 1);
    ListedBefore(savings, 0, 1);
    var last := savings[|savings| - 1];
    var y: nat := 3 - last.i - last.j;
    var st := MergeAll(vehicles, Initial(stops), savings);
    LastStep(stops, vehicles, savings, st, y);
    if AllApart(st, 3) {
      NeverMerged(stops, vehicles, savings);
    }
    ThreeState(stops, vehicles, savings, st, last, y);
  }

  // ----- Exactly -----

  ghost predicate OneNegative(demands: seq<real>) {
    forall k, l :: 0 <= k < |demands| && 0 <= l < |demands| && demands[k] < 0.0 && demands[l] < 0.0 ==> k == l
  }

  // At most one demand is negative, or there are at most two stops, or there are three and no demand is above the
  // other two.
  ghost predicate Sure(demands: seq<real>) {
    OneNegative(demands) || |demands| <= 2 || (|demands| == 3 && GreatestTwice(demands))
  }

  lemma {:induction false} SurePlan(
    d: Distance, depot: Coordinate, stops: seq<Stop>, vehicles: seq<Vehicle>, savings: seq<Saving>)
    requires IsListing(d, depot, stops, savings) && Sure(Demands(stops))
    ensures Unjoinable(stops, vehicles, Plan(stops, vehicles, savings))
  {
    if OneNegative(Demands(stops)) || |stops| <= 1 {
      forall k | 0 <= k < |stops| ensures stops[k].demand == Demands(stops)[k] {
      }
      GreedyMaximality(stops, vehicles, savings);
    } else {
      ListingOnce(d, depot, stops, savings);
      if |stops| == 2 {
        TwoBlocked(stops, vehicles, savings);
      } else {
        ThreeBlocked(stops, vehicles, savings);
      }
      MergeInvariant(stops, vehicles, savings);
      RoutesBlocked(stops, vehicles, MergeAll(vehicles, Initial(stops), savings), 0);
      NonEmptyUnjoinable(stops, vehicles, MergeAll(vehicles, Initial(stops), savings).routes);
    }
  }

  // Whatever the distances, places and vehicles, no two routes returned for stops with these demands would fit one
  // vehicle together.
  ghost predicate AlwaysMaximal(demands: seq<real>) {
    forall d: Distance, req: RouteOptimizationRequest, savings: seq<Saving>, orders: seq<seq<nat>>,
           views: seq<RouteView> |
      && NonNegative(d) && Symmetric(d) && Triangle(d) && Demands(req.stops) == demands
      && req.vehicles != [] && IsSolution(d, req, savings, orders, views) ::
      NoTwoJoin(req.vehicles, views)
  }

  // A least one of the demands that p holds of.
  lemma {:induction false} Least(xs: seq<real>, p: real -> bool) returns (a: nat)
    requires exists k :: 0 <= k < |xs| && p(xs[k])
    ensures a < |xs| && p(xs[a]) && forall k :: 0 <= k < |xs| && p(xs[k]) ==> xs[a] <= xs[k]
  {
    var before, last := xs[..|xs| - 1], xs[|xs| - 1];
    if exists k :: 0 <= k < |before| && p(before[k]) {
      a := Least(before, p);
      a := if p(last) && last < before[a] then |xs| - 1 else a;
    } else {
      a := |xs| - 1;
      assert forall k :: 0 <= k < |before| ==> before[k] == xs[k];
    }
  }

  lemma {:induction false} Greatest(xs: seq<real>) returns (c: nat)
    requires xs != []
    ensures c < |xs| && forall k :: 0 <= k < |xs| ==> xs[k] <= xs[c]
  {
    var before, last := xs[..|xs| - 1], xs[|xs| - 1];
    if before == [] {
      c := 0;
    } else {
      c := Greatest(before);
      c := if last > before[c] then |xs| - 1 else c;
      assert forall k :: 0 <= k < |before| ==> before[k] == xs[k];
    }
  }

  // Two demands lie below that of c, and all those below it are negative.
  ghost predicate TwoBelow(demands: seq<real>, c: nat) {
    && c < |demands|
    && (exists k, l :: 0 <= k < l < |demands| && demands[k] < demands[c] && demands[l] < demands[c])
    && (forall k :: 0 <= k < |demands| && demands[k] < demands[c] ==> demands[k] < 0.0)
  }

  // A request all of whose solutions fail.
  lemma {:induction false} RequestFails(demands: seq<real>, req: RouteOptimizationRequest)
    requires Demands(req.stops) == demands && req.vehicles != []
    requires forall savings: seq<Saving>, orders: seq<seq<nat>>, views: seq<RouteView> ::
               IsSolution(Hub, req, savings, orders, views) ==> !NoTwoJoin(req.vehicles, views)
    ensures !AlwaysMaximal(demands)
  {
    HubMetric();
    var savings := ListingExists(Hub, req.depot, req.stops);
    var orders, views := SolutionExists(Hub, req, savings);
    assert !NoTwoJoin(req.vehicles, views);
  }

  lemma {:induction false} ChosenBelow(demands: seq<real>, c: nat) returns (a: nat, b: nat)
    requires TwoBelow(demands, c)
    ensures Chosen(HubStops(demands, HeavySide(demands, c)), a, b, c)
  {
    var k: nat, l: nat :| k < l < |demands| && demands[k] < demands[c] && demands[l] < demands[c];
    var p := (x: real) => true;
    assert p(demands[k]);
    a := Least(demands, p);
    assert forall m :: 0 <= m < |demands| ==> p(demands[m]);
    b := if k == a then l else k;
    var stops := HubStops(demands, HeavySide(demands, c));
    assert forall m: nat :: m < |stops| ==> stops[m].demand == demands[m];
  }

  lemma {:induction false} TwoBelowMissed(demands: seq<real>, c: nat)
    requires TwoBelow(demands, c)
    ensures !AlwaysMaximal(demands)
  {
    var a, b := ChosenBelow(demands, c);
    forall savings: seq<Saving>, orders: seq<seq<nat>>, views: seq<RouteView> |
      IsSolution(Hub, HubRequest(demands, a, b, c), savings, orders, views)
      ensures !NoTwoJoin(HubRequest(demands, a, b, c).vehicles, views)
    {
      HubMissed(demands, a, b, c, savings, orders, views);
    }
    RequestFails(demands, HubRequest(demands, a, b, c));
  }

  lemma {:induction false} AlikeMissed(demands: seq<real>, a: nat, c: nat)
    requires |demands| >= 4 && a < |demands| && c < |demands| && demands[a] <= demands[c] < 0.0
    requires forall k :: 0 <= k < |demands| && k != a ==> demands[k] == demands[c]
    ensures !AlwaysMaximal(demands)
  {
    var f: nat, g: nat, h: nat := if a == 0 then 1 else 0, if a <= 1 then 2 else 1, if a <= 2 then 3 else 2;
    assert TwoPairs.Alike(demands, a, f, g, h);
    forall savings: seq<Saving>, orders: seq<seq<nat>>, views: seq<RouteView> |
      IsSolution(Hub, TwoPairs.PairRequest(demands, a, f), savings, orders, views)
      ensures !NoTwoJoin(TwoPairs.PairRequest(demands, a, f).vehicles, views)
    {
      TwoPairs.PairsMissed(demands, a, f, g, h, savings, orders, views);
    }
    RequestFails(demands, TwoPairs.PairRequest(demands, a, f));
  }

  lemma {:induction false} UnsureMissed(demands: seq<real>)
    requires !Sure(demands)
    ensures !AlwaysMaximal(demands)
  {
    if n :| 0 <= n < |demands| && demands[n] >= 0.0 {
      var p := (x: real) => x >= 0.0;
      assert p(demands[n]);
      var c := Least(demands, p);
      assert forall k :: 0 <= k < |demands| && demands[k] >= 0.0 ==> p(demands[k]);
      var k: nat, l: nat :| k < |demands| && l < |demands| && demands[k] < 0.0 && demands[l] < 0.0 && k != l;
      assert demands[if k < l then k else l] < demands[c] && demands[if k < l then l else k] < demands[c];
      TwoBelowMissed(demands, c);
    } else {
      var c := Greatest(demands);
      if TwoBelow(demands, c) {
        TwoBelowMissed(demands, c);
      } else {
        OneBelow(demands, c);
      }
    }
  }

  // All demands are negative and at most one is below the greatest.
  lemma {:induction false} OneBelow(demands: seq<real>, c: nat)
    requires !Sure(demands) && c < |demands| && !TwoBelow(demands, c)
    requires forall k :: 0 <= k < |demands| ==> demands[k] < 0.0 && demands[k] <= demands[c]
    ensures !AlwaysMaximal(demands)
  {
    assert forall k, l :: 0 <= k < l < |demands| ==> demands[k] == demands[c] || demands[l] == demands[c];
    if |demands| == 3 {
      GreatestIsTwice(demands, c);
      assert false;
    } else {
      var p := (x: real) => true;
      assert p(demands[c]);
      var a := Least(demands, p);
      assert forall k :: 0 <= k < |demands| ==> p(demands[k]);
      forall k | 0 <= k < |demands| && k != a ensures demands[k] == demands[c] {
        assert demands[a] <= demands[k] <= demands[c];
        assert demands[if k < a then k else a] == demands[c] || demands[if k < a then a else k] == demands[c];
      }
      AlikeMissed(demands, a, c);
    }
  }

  lemma {:induction false} GreatestIsTwice(demands: seq<real>, c: nat)
    requires |demands| == 3 && c < 3
    requires forall k, l :: 0 <= k < l < |demands| ==> demands[k] == demands[c] || demands[l] == demands[c]
    requires forall k :: 0 <= k < |demands| ==> demands[k] <= demands[c]
    ensures GreatestTwice(demands)
  {
    var i, j := if c == 0 then 1 else 0, if c == 2 then 1 else 2;
    assert demands[i] == demands[c] || demands[j] == demands[c];
    forall y | 0 <= y < |demands| ensures exists z :: 0 <= z < |demands| && z != y && demands[z] >= demands[y] {
      var z: nat := if y != c then c else if demands[i] == demands[c] then i else j;
      assert z < 3 && z != y && demands[z] >= demands[y];
    }
  }

  // For every list of demands: returned routes are maximal whatever the rest of the request, or some request with
  // these demands fails.
  lemma {:induction false} MaximalityExactly(demands: seq<real>)
    ensures AlwaysMaximal(demands) <==> Sure(demands)
  {
    if Sure(demands) {
      forall d: Distance, req: RouteOptimizationRequest, savings: seq<Saving>, orders: seq<seq<nat>>,
             views: seq<RouteView> |
        && NonNegative(d) && Symmetric(d) && Triangle(d) && Demands(req.stops) == demands
        && req.vehicles != [] && IsSolution(d, req, savings, orders, views)
        ensures NoTwoJoin(req.vehicles, views)
      {
        SurePlan(d, req.depot, req.stops, req.vehicles, savings);
        SolutionJoins(d, req, savings, orders, views);
      }
    } else {
      UnsureMissed(demands);
    }
  }
}
