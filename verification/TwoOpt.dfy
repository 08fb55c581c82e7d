// The 2-opt search over one route: which moves it accepts, how many, and where it stops.
module TwoOpt {
  import opened Models
  import opened Sums
  import opened Tours

  // A move must shorten the route by more than this.
  const EPSILON: real := 0.000000001

  function Length(d: Distance, depot: Coordinate, stops: seq<Stop>, indices: seq<nat>): real
    requires InRange(indices, |stops|)
  {
    TourLength(d, depot, Tour(stops, indices))
  }

  // One accepted move: a reversal of at least three consecutive stops that pays.
  ghost predicate Accepted(
    d: Distance, depot: Coordinate, stops: seq<Stop>, a: seq<nat>, i: nat, j: nat, b: seq<nat>)
  {
    && InRange(a, |stops|) && InRange(b, |stops|)
    && i + 2 <= j < |a| && b == ReverseSegment(a, i, j)
    && Length(d, depot, stops, b) < Length(d, depot, stops, a) - EPSILON
  }

  // The moves and the orders the search went through, the current order last.
  datatype History = Start(order: seq<nat>) | Moved(before: History, i: nat, j: nat, order: seq<nat>)

  function FirstOrder(h: History): seq<nat> {
    match h case Start(order) => order case Moved(before, _, _, _) => FirstOrder(before)
  }

  function Moves(h: History): nat {
    match h case Start(_) => 0 case Moved(before, _, _, _) => Moves(before) + 1
  }

  // Every move was accepted.
  ghost predicate Descent(d: Distance, depot: Coordinate, stops: seq<Stop>, h: History) {
    match h
    case Start(order) => InRange(order, |stops|)
    case Moved(before, i, j, order) =>
      Descent(d, depot, stops, before) && Accepted(d, depot, stops, before.order, i, j, order)
  }

  // Reversing i..=j does not pay.
  ghost predicate NoGain(d: Distance, depot: Coordinate, stops: seq<Stop>, a: seq<nat>, i: nat, j: nat)
    requires InRange(a, |stops|) && i <= j < |a|
  {
    Length(d, depot, stops, ReverseSegment(a, i, j)) >= Length(d, depot, stops, a) - EPSILON
  }

  // A reversal pays exactly when it shortens the tour by more than 1e-9.
  lemma {:induction false} PaysExactly(
    d: Distance, depot: Coordinate, stops: seq<Stop>, a: seq<nat>, i: nat, j: nat)
    requires InRange(a, |stops|) && i <= j < |a|
    ensures !NoGain(d, depot, stops, a, i, j) <==>
            TourLength(d, depot, ReverseSegment(Tour(stops, a), i, j))
            < TourLength(d, depot, Tour(stops, a)) - 0.000000001
  {
    TourReverseSegment(stops, a, i, j);
  }

  ghost predicate LocalOptimum(d: Distance, depot: Coordinate, stops: seq<Stop>, a: seq<nat>)
    requires InRange(a, |stops|)
  {
    forall i: nat, j: nat :: i + 2 <= j < |a| ==> NoGain(d, depot, stops, a, i, j)
  }

  lemma {:induction false} LengthNonNegative(d: Distance, depot: Coordinate, stops: seq<Stop>, a: seq<nat>)
    requires NonNegative(d) && InRange(a, |stops|)
    ensures Length(d, depot, stops, a) >= 0.0
  {
    TourLengthNonNegative(d, depot, Tour(stops, a));
  }

  lemma {:induction false} DescentInRange(d: Distance, depot: Coordinate, stops: seq<Stop>, h: History)
    requires Descent(d, depot, stops, h)
    ensures InRange(FirstOrder(h), |stops|) && InRange(h.order, |stops|)
  {
    if h.Moved? {
      DescentInRange(d, depot, stops, h.before);
    }
  }

  // Every run keeps the stops and pays more than EPSILON per move.
  lemma {:induction false} DescentPays(d: Distance, depot: Coordinate, stops: seq<Stop>, h: History)
    requires Descent(d, depot, stops, h)
    ensures InRange(FirstOrder(h), |stops|) && InRange(h.order, |stops|)
    ensures multiset(h.order) == multiset(FirstOrder(h))
    ensures Length(d, depot, stops, h.order) <= Length(d, depot, stops, FirstOrder(h)) - Moves(h) as real * EPSILON
    ensures Moves(h) > 0 ==>
              Length(d, depot, stops, h.order) < Length(d, depot, stops, FirstOrder(h)) - Moves(h) as real * EPSILON
  {
    DescentInRange(d, depot, stops, h);
    if h.Moved? {
      DescentPays(d, depot, stops, h.before);
    }
  }

  // Accepted moves number fewer than the starting length over EPSILON, whatever moves are chosen.
  lemma {:induction false} DescentIsShort(d: Distance, depot: Coordinate, stops: seq<Stop>, h: History)
    requires NonNegative(d)
    requires Descent(d, depot, stops, h) && Moves(h) > 0
    ensures InRange(FirstOrder(h), |stops|)
    ensures Moves(h) as real < Length(d, depot, stops, FirstOrder(h)) / EPSILON
  {
    DescentPays(d, depot, stops, h);
    LengthNonNegative(d, depot, stops, h.order);
  }

  // The 2-opt measure: how many more moves the length could pay for.
  ghost function Budget(d: Distance, depot: Coordinate, stops: seq<Stop>, a: seq<nat>): nat
    requires NonNegative(d) && InRange(a, |stops|)
  {
    LengthNonNegative(d, depot, stops, a);
    (Length(d, depot, stops, a) / EPSILON).Floor
  }

  lemma {:induction false} BudgetFalls(
    d: Distance, depot: Coordinate, stops: seq<Stop>, a: seq<nat>, i: nat, j: nat, b: seq<nat>)
    requires NonNegative(d) && Accepted(d, depot, stops, a, i, j, b)
    ensures Budget(d, depot, stops, b) < Budget(d, depot, stops, a)
  {
    LengthNonNegative(d, depot, stops, a);
    LengthNonNegative(d, depot, stops, b);
    assert Length(d, depot, stops, b) / EPSILON < Length(d, depot, stops, a) / EPSILON - 1.0;
  }

  // The search can still make so many moves at most.
  lemma {:induction false} MovesBounded(d: Distance, depot: Coordinate, stops: seq<Stop>, h: History)
    requires NonNegative(d) && Descent(d, depot, stops, h)
    ensures InRange(FirstOrder(h), |stops|) && Moves(h) <= Budget(d, depot, stops, FirstOrder(h))
  {
    DescentInRange(d, depot, stops, h);
    LengthNonNegative(d, depot, stops, FirstOrder(h));
    if Moves(h) > 0 {
      DescentIsShort(d, depot, stops, h);
    }
  }

  // ----- The order in which reversals are tried -----

  predicate Earlier(k: nat, l: nat, i: nat, j: nat) {
    k < i || (k == i && l < j)
  }

  ghost predicate QuietBefore(d: Distance, depot: Coordinate, stops: seq<Stop>, a: seq<nat>, i: nat, j: nat)
    requires InRange(a, |stops|)
  {
    forall k: nat, l: nat :: k + 2 <= l < |a| && Earlier(k, l, i, j) ==> NoGain(d, depot, stops, a, k, l)
  }

  ghost predicate QuietAfter(d: Distance, depot: Coordinate, stops: seq<Stop>, a: seq<nat>, p: nat, q: nat)
    requires InRange(a, |stops|)
  {
    forall k: nat, l: nat :: k + 2 <= l < |a| && Earlier(p, q, k, l) ==> NoGain(d, depot, stops, a, k, l)
  }

  ghost predicate QuietBetween(
    d: Distance, depot: Coordinate, stops: seq<Stop>, a: seq<nat>, p: nat, q: nat, i: nat, j: nat)
    requires InRange(a, |stops|)
  {
    forall k: nat, l: nat :: k + 2 <= l < |a| && Earlier(p, q, k, l) && Earlier(k, l, i, j) ==>
      NoGain(d, depot, stops, a, k, l)
  }

  // The pair (i, j) comes up next: no reversal tried since the last move pays. The pass goes on after the last move,
  // and the next one starts over.
  ghost predicate Next(d: Distance, depot: Coordinate, stops: seq<Stop>, h: History, i: nat, j: nat)
    requires InRange(h.order, |stops|)
  {
    if h.Start? then QuietBefore(d, depot, stops, h.order, i, j)
    else
      || (Earlier(h.i, h.j, i, j) && QuietBetween(d, depot, stops, h.order, h.i, h.j, i, j))
      || (QuietAfter(d, depot, stops, h.order, h.i, h.j) && QuietBefore(d, depot, stops, h.order, i, j))
  }

  // Every move was the first to pay, in this order.
  ghost predicate InOrder(d: Distance, depot: Coordinate, stops: seq<Stop>, h: History) {
    h.Moved? ==>
      && InOrder(d, depot, stops, h.before)
      && InRange(h.before.order, |stops|) && Next(d, depot, stops, h.before, h.i, h.j)
  }

  // The search has come from the given order to best.
  ghost predicate Reached(
    d: Distance, depot: Coordinate, stops: seq<Stop>, indices: seq<nat>, h: History, best: seq<nat>)
  {
    && InRange(best, |stops|) && |best| == |indices|
    && Descent(d, depot, stops, h) && InOrder(d, depot, stops, h) && FirstOrder(h) == indices && h.order == best
  }

  lemma {:induction false} TakeMove(
    d: Distance, depot: Coordinate, stops: seq<Stop>, indices: seq<nat>, h: History, best: seq<nat>, i: nat, j: nat)
    requires NonNegative(d) && Reached(d, depot, stops, indices, h, best)
    requires i + 2 <= j < |best|
    requires !NoGain(d, depot, stops, best, i, j) && Next(d, depot, stops, h, i, j)
    ensures var candidate := ReverseSegment(best, i, j);
            Reached(d, depot, stops, indices, Moved(h, i, j, candidate), candidate)
  {
    var candidate := ReverseSegment(best, i, j);
    TourReverseSegment(stops, best, i, j);
    assert Accepted(d, depot, stops, best, i, j, candidate);
  }

  // What has been tried when (i, j) comes up: since the last move if this pass has moved, and otherwise from the start
  // of the pass and, in the pass before, since the last move.
  ghost predicate Tried(d: Distance, depot: Coordinate, stops: seq<Stop>, h: History, i: nat, j: nat, moved: bool)
    requires InRange(h.order, |stops|)
  {
    if moved then
      h.Moved? && Earlier(h.i, h.j, i, j) && QuietBetween(d, depot, stops, h.order, h.i, h.j, i, j)
    else
      && QuietBefore(d, depot, stops, h.order, i, j)
      && (h.Moved? ==> QuietAfter(d, depot, stops, h.order, h.i, h.j))
  }

  predicate Same(x: bool, y: bool) {
    x == y
  }

  // The state of the search when (i, j) comes up in a pass that began after so many moves; opened by the lemmas below.
  ghost predicate Scanning(
    d: Distance, depot: Coordinate, stops: seq<Stop>, indices: seq<nat>, begun: nat, h: History, best: seq<nat>,
    i: nat, j: nat, moved: bool)
  {
    && InRange(best, |stops|) && |best| == |indices|
    && forall m :: Same(m, moved) ==>
         && Reached(d, depot, stops, indices, h, best) && Tried(d, depot, stops, h, i, j, m)
         && Moves(h) >= begun && (m ==> Moves(h) > begun)
  }

  lemma {:induction false} StartPass(
    d: Distance, depot: Coordinate, stops: seq<Stop>, indices: seq<nat>, h: History, best: seq<nat>)
    requires Reached(d, depot, stops, indices, h, best) && Tried(d, depot, stops, h, 0, 2, false)
    ensures Scanning(d, depot, stops, indices, Moves(h), h, best, 0, 2, false)
  {
  }

  lemma {:induction false} TriedMove(
    d: Distance, depot: Coordinate, stops: seq<Stop>, h: History, i: nat, j: nat, moved: bool, candidate: seq<nat>)
    requires InRange(h.order, |stops|) && InRange(candidate, |stops|) && Tried(d, depot, stops, h, i, j, moved)
    ensures Next(d, depot, stops, h, i, j)
    ensures Tried(d, depot, stops, Moved(h, i, j, candidate), i, j + 1, true)
  {
  }

  // A move that pays is taken, and the pass goes on behind it.
  lemma {:induction false} MoveOn(
    d: Distance, depot: Coordinate, stops: seq<Stop>, indices: seq<nat>, begun: nat, h: History, best: seq<nat>,
    i: nat, j: nat, moved: bool)
    requires NonNegative(d) && Scanning(d, depot, stops, indices, begun, h, best, i, j, moved)
    requires i + 2 <= j < |best| && !NoGain(d, depot, stops, best, i, j)
    ensures var candidate := ReverseSegment(best, i, j);
            Scanning(d, depot, stops, indices, begun, Moved(h, i, j, candidate), candidate, i, j + 1, true)
  {
    assert Same(moved, moved);
    TourReverseSegment(stops, best, i, j);
    TriedMove(d, depot, stops, h, i, j, moved, ReverseSegment(best, i, j));
    TakeMove(d, depot, stops, indices, h, best, i, j);
  }

  lemma {:induction false} TriedSkip(
    d: Distance, depot: Coordinate, stops: seq<Stop>, h: History, i: nat, j: nat, moved: bool)
    requires InRange(h.order, |stops|) && Tried(d, depot, stops, h, i, j, moved)
    requires i + 2 <= j < |h.order| && NoGain(d, depot, stops, h.order, i, j)
    ensures Tried(d, depot, stops, h, i, j + 1, moved)
  {
    forall k: nat, l: nat | Earlier(k, l, i, j + 1) && !Earlier(k, l, i, j) ensures k == i && l == j {
    }
  }

  lemma {:induction false} SkipOn(
    d: Distance, depot: Coordinate, stops: seq<Stop>, indices: seq<nat>, begun: nat, h: History, best: seq<nat>,
    i: nat, j: nat, moved: bool)
    requires Scanning(d, depot, stops, indices, begun, h, best, i, j, moved)
    requires i + 2 <= j < |best| && NoGain(d, depot, stops, best, i, j)
    ensures Scanning(d, depot, stops, indices, begun, h, best, i, j + 1, moved)
  {
    assert Same(moved, moved);
    TriedSkip(d, depot, stops, h, i, j, moved);
  }

  lemma {:induction false} RowOn(
    d: Distance, depot: Coordinate, stops: seq<Stop>, indices: seq<nat>, begun: nat, h: History, best: seq<nat>,
    i: nat, j: nat, moved: bool)
    requires Scanning(d, depot, stops, indices, begun, h, best, i, j, moved) && j >= |best|
    ensures Scanning(d, depot, stops, indices, begun, h, best, i + 1, i + 3, moved)
  {
    assert Same(moved, moved);
    forall k: nat, l: nat | k + 2 <= l < |best| && Earlier(k, l, i + 1, i + 3) ensures Earlier(k, l, i, j) {
    }
  }

  // A pass that has moved is followed by another; one that has not ends the search at a local optimum.
  lemma {:induction false} EndPass(
    d: Distance, depot: Coordinate, stops: seq<Stop>, indices: seq<nat>, begun: nat, h: History, best: seq<nat>,
    i: nat, j: nat, moved: bool)
    requires Scanning(d, depot, stops, indices, begun, h, best, i, j, moved) && i + 1 >= |best|
    ensures Reached(d, depot, stops, indices, h, best) && Moves(h) >= begun
    ensures if moved then Tried(d, depot, stops, h, 0, 2, false) && Moves(h) > begun
            else LocalOptimum(d, depot, stops, best)
  {
    assert Same(moved, moved);
    forall k: nat, l: nat | k + 2 <= l < |best| ensures Earlier(k, l, i, j) {
    }
  }

  // ----- The order decides the result -----

  // The first reversal that pays, from (k, l) on.
  lemma {:induction false} ScanFrom(d: Distance, depot: Coordinate, stops: seq<Stop>, a: seq<nat>, k: nat, l: nat)
    returns (found: bool, i: nat, j: nat)
    requires InRange(a, |stops|)
    ensures found ==> i + 2 <= j < |a| && !NoGain(d, depot, stops, a, i, j) && !Earlier(i, j, k, l)
    ensures forall x: nat, y: nat :: x + 2 <= y < |a| && !Earlier(x, y, k, l) && (found ==> Earlier(x, y, i, j)) ==>
              NoGain(d, depot, stops, a, x, y)
    decreases |a| - k, |a| - l
  {
    found, i, j := false, k, l;
    if k < |a| {
      if l >= |a| {
        found, i, j := ScanFrom(d, depot, stops, a, k + 1, 0);
        assert forall x: nat, y: nat :: y < |a| && !Earlier(x, y, k, l) ==> !Earlier(x, y, k + 1, 0);
      } else if k + 2 <= l && !NoGain(d, depot, stops, a, k, l) {
        found := true;
      } else {
        found, i, j := ScanFrom(d, depot, stops, a, k, l + 1);
        assert forall x: nat, y: nat :: !Earlier(x, y, k, l) && Earlier(x, y, k, l + 1) ==> x == k && y == l;
      }
    }
  }

  // Away from a local optimum some move comes up next.
  lemma {:induction false} SomeNext(d: Distance, depot: Coordinate, stops: seq<Stop>, h: History)
    returns (i: nat, j: nat)
    requires InRange(h.order, |stops|) && !LocalOptimum(d, depot, stops, h.order)
    ensures i + 2 <= j < |h.order| && !NoGain(d, depot, stops, h.order, i, j) && Next(d, depot, stops, h, i, j)
  {
    var found := false;
    if h.Moved? {
      found, i, j := ScanFrom(d, depot, stops, h.order, h.i, h.j + 1);
    }
    if !found {
      found, i, j := ScanFrom(d, depot, stops, h.order, 0, 0);
    }
  }

  // From any order the search comes to a local optimum.
  lemma {:induction false} DescendFrom(d: Distance, depot: Coordinate, stops: seq<Stop>, indices: seq<nat>, h: History)
    returns (last: History)
    requires NonNegative(d) && Reached(d, depot, stops, indices, h, h.order)
    ensures Reached(d, depot, stops, indices, last, last.order)
    ensures LocalOptimum(d, depot, stops, last.order)
    decreases Budget(d, depot, stops, h.order)
  {
    if LocalOptimum(d, depot, stops, h.order) {
      last := h;
    } else {
      var i, j := SomeNext(d, depot, stops, h);
      TakeMove(d, depot, stops, indices, h, h.order, i, j);
      BudgetFalls(d, depot, stops, h.order, i, j, ReverseSegment(h.order, i, j));
      last := DescendFrom(d, depot, stops, indices, Moved(h, i, j, ReverseSegment(h.order, i, j)));
    }
  }

  lemma {:induction false} NextUnique(
    d: Distance, depot: Coordinate, stops: seq<Stop>, h: History, i: nat, j: nat, k: nat, l: nat)
    requires InRange(h.order, |stops|) && i + 2 <= j < |h.order| && k + 2 <= l < |h.order|
    requires !NoGain(d, depot, stops, h.order, i, j) && Next(d, depot, stops, h, i, j)
    requires !NoGain(d, depot, stops, h.order, k, l) && Next(d, depot, stops, h, k, l)
    ensures i == k && j == l
  {
    assert !Earlier(i, j, k, l) && !Earlier(k, l, i, j);
  }

  // A run of the search: accepted moves, each the first to pay.
  ghost predicate Search(d: Distance, depot: Coordinate, stops: seq<Stop>, h: History) {
    Descent(d, depot, stops, h) && InOrder(d, depot, stops, h)
  }

  lemma {:induction false} SameMoves(d: Distance, depot: Coordinate, stops: seq<Stop>, g: History, h: History)
    requires Search(d, depot, stops, g) && Search(d, depot, stops, h)
    requires FirstOrder(g) == FirstOrder(h) && Moves(g) == Moves(h)
    ensures g == h
  {
    if g.Moved? {
      SameMoves(d, depot, stops, g.before, h.before);
      NextUnique(d, depot, stops, g.before, g.i, g.j, h.i, h.j);
    }
  }

  function Cut(h: History, m: nat): History {
    if Moves(h) <= m then h else Cut(h.before, m)
  }

  // A shorter run is followed by another move.
  lemma {:induction false} CutMoves(d: Distance, depot: Coordinate, stops: seq<Stop>, h: History, m: nat)
    requires Search(d, depot, stops, h) && m < Moves(h)
    ensures var cut := Cut(h, m);
            && Search(d, depot, stops, cut) && Moves(cut) == m && FirstOrder(cut) == FirstOrder(h)
            && InRange(cut.order, |stops|) && !LocalOptimum(d, depot, stops, cut.order)
  {
    if m < Moves(h.before) {
      CutMoves(d, depot, stops, h.before, m);
    } else {
      NothingAccepted(d, depot, stops, h.before.order, h.i, h.j, h.order);
    }
  }

  // From one order the search takes the same moves to the same optimum.
  lemma {:induction false} SearchUnique(d: Distance, depot: Coordinate, stops: seq<Stop>, g: History, h: History)
    requires Search(d, depot, stops, g) && Search(d, depot, stops, h) && FirstOrder(g) == FirstOrder(h)
    requires InRange(g.order, |stops|) && LocalOptimum(d, depot, stops, g.order)
    requires InRange(h.order, |stops|) && LocalOptimum(d, depot, stops, h.order)
    ensures g == h
  {
    if Moves(g) < Moves(h) {
      CutMoves(d, depot, stops, h, Moves(g));
      SameMoves(d, depot, stops, g, Cut(h, Moves(g)));
      assert false;
    }
    if Moves(h) < Moves(g) {
      CutMoves(d, depot, stops, g, Moves(h));
      SameMoves(d, depot, stops, h, Cut(g, Moves(h)));
      assert false;
    }
    SameMoves(d, depot, stops, g, h);
  }

  // At a local optimum no two legs at least three stops apart are better crossed over, up to EPSILON.
  lemma {:induction false} OptimumUncrossed(
    d: Distance, depot: Coordinate, stops: seq<Stop>, a: seq<nat>, i: nat, j: nat)
    requires Symmetric(d) && InRange(a, |stops|) && LocalOptimum(d, depot, stops, a)
    requires i + 2 <= j < |a|
    ensures var tour := Tour(stops, a);
            var p, q := Entry(depot, tour[..i]), Exit(depot, tour[j + 1..]);
            d(p, tour[i].coordinate) + d(tour[j].coordinate, q)
            <= d(p, tour[j].coordinate) + d(tour[i].coordinate, q) + EPSILON
  {
    assert NoGain(d, depot, stops, a, i, j);
    TourReverseSegment(stops, a, i, j);
    ReversalDelta(d, depot, Tour(stops, a), i, j);
  }

  lemma {:induction false} NothingAccepted(
    d: Distance, depot: Coordinate, stops: seq<Stop>, a: seq<nat>, i: nat, j: nat, b: seq<nat>)
    requires InRange(a, |stops|) && Accepted(d, depot, stops, a, i, j, b)
    ensures !LocalOptimum(d, depot, stops, a)
  {
    assert !NoGain(d, depot, stops, a, i, j);
  }

  // From a local optimum there is no move to accept.
  lemma {:induction false} OptimumStays(d: Distance, depot: Coordinate, stops: seq<Stop>, h: History)
    requires Descent(d, depot, stops, h)
    requires InRange(FirstOrder(h), |stops|) && LocalOptimum(d, depot, stops, FirstOrder(h))
    ensures h.order == FirstOrder(h)
  {
    if h.Moved? {
      OptimumStays(d, depot, stops, h.before);
      NothingAccepted(d, depot, stops, h.before.order, h.i, h.j, h.order);
      assert false;
    }
  }
}
