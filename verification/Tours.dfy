// Closed tours from the depot: their length, what joining two tours and reversing a segment do to it.
module Tours {
  import opened Models
  import opened Sums

  // Length of the open walk through the points, in order.
  function Walk(d: Distance, points: seq<Coordinate>): (length: real)
  {
    if |points| < 2 then 0.0 else d(points[0], points[1]) + Walk(d, points[1..])
  }

  function Coordinates(tour: seq<Stop>): (cs: seq<Coordinate>)
    ensures |cs| == |tour|
  {
    seq(|tour|, k requires 0 <= k < |tour| => tour[k].coordinate)
  }

  // Length of depot -> tour -> depot. The optimizer counts an empty route as zero.
  function TourLength(d: Distance, depot: Coordinate, tour: seq<Stop>): (length: real)
  {
    if tour == [] then 0.0 else Walk(d, [depot] + Coordinates(tour) + [depot])
  }

  function TourMinutes(d: Distance, depot: Coordinate, tour: seq<Stop>): (minutes: real)
  {
    TourLength(d, depot, tour) / 50.0 * 60.0 + SumBy(ServiceOf, tour)
  }

  lemma {:induction false} WalkSplit(d: Distance, left: seq<Coordinate>, m: Coordinate, right: seq<Coordinate>)
    ensures Walk(d, left + [m] + right) == Walk(d, left + [m]) + Walk(d, [m] + right)
  {
    var whole := left + [m] + right;
    if left == [] {
      assert whole == [m] + right;
      assert left + [m] == [m];
    } else {
      WalkSplit(d, left[1..], m, right);
      assert whole[1..] == left[1..] + [m] + right;
      assert (left + [m])[1..] == left[1..] + [m];
      assert whole[1] == (left + [m])[1];
    }
  }

  lemma {:induction false} WalkNonNegative(d: Distance, points: seq<Coordinate>)
    requires NonNegative(d)
    ensures Walk(d, points) >= 0.0
  {
    if |points| >= 2 {
      WalkNonNegative(d, points[1..]);
    }
  }

  lemma {:induction false} TourLengthNonNegative(d: Distance, depot: Coordinate, tour: seq<Stop>)
    requires NonNegative(d)
    ensures TourLength(d, depot, tour) >= 0.0
  {
    WalkNonNegative(d, [depot] + Coordinates(tour) + [depot]);
  }

  lemma {:induction false} CoordinatesConcat(a: seq<Stop>, b: seq<Stop>)
    ensures Coordinates(a + b) == Coordinates(a) + Coordinates(b)
  {
  }

  // Joining two walks with one leg between them.
  lemma {:induction false} WalkJoin(d: Distance, left: seq<Coordinate>, right: seq<Coordinate>)
    requires left != [] && right != []
    ensures Walk(d, left + right) == Walk(d, left) + d(left[|left| - 1], right[0]) + Walk(d, right)
  {
    var m := left[|left| - 1];
    assert left == left[..|left| - 1] + [m];
    assert left + right == left[..|left| - 1] + [m] + right;
    WalkSplit(d, left[..|left| - 1], m, right);
    assert ([m] + right)[1..] == right;
  }

  // What one merge does to the distance: two depot legs are traded for the leg between the tours.
  lemma {:induction false} JoinLength(d: Distance, depot: Coordinate, a: seq<Stop>, b: seq<Stop>)
    requires a != [] && b != []
    ensures TourLength(d, depot, a + b) ==
            TourLength(d, depot, a) + TourLength(d, depot, b)
            - (d(a[|a| - 1].coordinate, depot) + d(depot, b[0].coordinate)
               - d(a[|a| - 1].coordinate, b[0].coordinate))
  {
    var ca, cb := Coordinates(a), Coordinates(b);
    var left, right := [depot] + ca, cb + [depot];
    CoordinatesConcat(a, b);
    assert [depot] + Coordinates(a + b) + [depot] == left + right;
    WalkJoin(d, left, right);
    WalkJoin(d, left, [depot]);
    WalkJoin(d, [depot], right);
    assert [depot] + cb + [depot] == [depot] + right;
  }

  function Reverse<T>(s: seq<T>): (r: seq<T>)
    ensures |r| == |s|
    ensures forall k :: 0 <= k < |s| ==> r[k] == s[|s| - 1 - k]
    ensures multiset(r) == multiset(s)
  {
    if s == [] then [] else
      assert s == [s[0]] + s[1..];
      Reverse(s[1..]) + [s[0]]
  }

  // s with positions i..=j in the opposite order.
  function ReverseSegment<T>(s: seq<T>, i: nat, j: nat): (r: seq<T>)
    requires i <= j < |s|
    ensures |r| == |s|
    ensures forall k :: 0 <= k < |s| ==> r[k] == if i <= k <= j then s[i + j - k] else s[k]
    ensures multiset(r) == multiset(s)
  {
    assert s == s[..i] + s[i..j + 1] + s[j + 1..];
    s[..i] + Reverse(s[i..j + 1]) + s[j + 1..]
  }

  lemma {:induction false} WalkReverse(d: Distance, points: seq<Coordinate>)
    requires Symmetric(d)
    ensures Walk(d, Reverse(points)) == Walk(d, points)
  {
    if |points| >= 2 {
      var rest := Reverse(points[1..]);
      WalkReverse(d, points[1..]);
      WalkJoin(d, rest, [points[0]]);
      assert rest[|rest| - 1] == points[1];
    }
  }

  // The point a segment is entered from, and the point it is left to; the depot closes the tour.
  function Entry(depot: Coordinate, before: seq<Stop>): Coordinate {
    if before == [] then depot else before[|before| - 1].coordinate
  }

  function Exit(depot: Coordinate, after: seq<Stop>): Coordinate {
    if after == [] then depot else after[0].coordinate
  }

  lemma {:induction false} CoordinatesReverse(tour: seq<Stop>)
    ensures Coordinates(Reverse(tour)) == Reverse(Coordinates(tour))
  {
  }

  // Walk over head, segment, tail: only the two legs at the ends of the segment depend on its direction.
  lemma {:induction false} WalkThrough(
    d: Distance, head: seq<Coordinate>, segment: seq<Coordinate>, tail: seq<Coordinate>)
    requires head != [] && segment != [] && tail != []
    ensures Walk(d, head + segment + tail) ==
            Walk(d, head) + d(head[|head| - 1], segment[0]) + Walk(d, segment)
            + d(segment[|segment| - 1], tail[0]) + Walk(d, tail)
  {
    WalkJoin(d, head, segment);
    WalkJoin(d, head + segment, tail);
  }

  // The part of a tour's length that lies outside the segment b and its two boundary legs.
  function Outside(d: Distance, depot: Coordinate, a: seq<Stop>, c: seq<Stop>): real
  {
    Walk(d, [depot] + Coordinates(a)) + Walk(d, Coordinates(c) + [depot])
  }

  lemma {:induction false} CutInThree(depot: Coordinate, a: seq<Stop>, b: seq<Stop>, c: seq<Stop>)
    ensures var head, tail := [depot] + Coordinates(a), Coordinates(c) + [depot];
            [depot] + Coordinates(a + b + c) + [depot] == head + Coordinates(b) + tail
            && head[|head| - 1] == Entry(depot, a) && tail[0] == Exit(depot, c)
  {
  }

  // A tour cut in three, measured piece by piece.
  lemma {:induction false} SegmentLength(d: Distance, depot: Coordinate, a: seq<Stop>, b: seq<Stop>, c: seq<Stop>)
    requires b != []
    ensures TourLength(d, depot, a + b + c) ==
            Outside(d, depot, a, c) + Walk(d, Coordinates(b))
            + d(Entry(depot, a), b[0].coordinate) + d(b[|b| - 1].coordinate, Exit(depot, c))
  {
    CutInThree(depot, a, b, c);
    WalkThrough(d, [depot] + Coordinates(a), Coordinates(b), Coordinates(c) + [depot]);
  }

  lemma {:induction false} FlipDelta(d: Distance, depot: Coordinate, a: seq<Stop>, b: seq<Stop>, c: seq<Stop>)
    requires Symmetric(d) && b != []
    ensures TourLength(d, depot, a + Reverse(b) + c) - TourLength(d, depot, a + b + c) ==
            d(Entry(depot, a), b[|b| - 1].coordinate) + d(b[0].coordinate, Exit(depot, c))
            - d(Entry(depot, a), b[0].coordinate) - d(b[|b| - 1].coordinate, Exit(depot, c))
  {
    SegmentLength(d, depot, a, b, c);
    SegmentLength(d, depot, a, Reverse(b), c);
    assert Walk(d, Coordinates(Reverse(b))) == Walk(d, Coordinates(b)) by {
      CoordinatesReverse(b);
      WalkReverse(d, Coordinates(b));
    }
  }

  // Recomputing the whole metric after reversing i..=j changes the two boundary legs and nothing else.
  lemma {:induction false} ReversalDelta(d: Distance, depot: Coordinate, tour: seq<Stop>, i: nat, j: nat)
    requires Symmetric(d)
    requires i <= j < |tour|
    ensures var p, q := Entry(depot, tour[..i]), Exit(depot, tour[j + 1..]);
            TourLength(d, depot, ReverseSegment(tour, i, j)) - TourLength(d, depot, tour) ==
            d(p, tour[j].coordinate) + d(tour[i].coordinate, q)
            - d(p, tour[i].coordinate) - d(tour[j].coordinate, q)
  {
    var a, b, c := tour[..i], tour[i..j + 1], tour[j + 1..];
    assert tour == a + b + c;
    assert ReverseSegment(tour, i, j) == a + Reverse(b) + c;
    assert b[0] == tour[i] && b[|b| - 1] == tour[j];
    FlipDelta(d, depot, a, b, c);
  }

  lemma {:induction false} ReversalKeepsService(tour: seq<Stop>, i: nat, j: nat)
    requires i <= j < |tour|
    ensures SumBy(ServiceOf, ReverseSegment(tour, i, j)) == SumBy(ServiceOf, tour)
  {
    SumByPermutation(ServiceOf, ReverseSegment(tour, i, j), tour);
  }

  // The stops an index list names.
  function Tour(stops: seq<Stop>, indices: seq<nat>): (tour: seq<Stop>)
    requires InRange(indices, |stops|)
    ensures |tour| == |indices|
  {
    seq(|indices|, k requires 0 <= k < |indices| => stops[indices[k]])
  }

  predicate InRange(indices: seq<nat>, n: nat) {
    forall k :: 0 <= k < |indices| ==> indices[k] < n
  }

  lemma {:induction false} TourConcat(stops: seq<Stop>, a: seq<nat>, b: seq<nat>)
    requires InRange(a, |stops|) && InRange(b, |stops|)
    ensures InRange(a + b, |stops|)
    ensures Tour(stops, a + b) == Tour(stops, a) + Tour(stops, b)
  {
  }

  lemma {:induction false} TourPermutation(stops: seq<Stop>, a: seq<nat>, b: seq<nat>)
    requires InRange(a, |stops|)
    requires multiset(a) == multiset(b)
    ensures InRange(b, |stops|)
    ensures multiset(Tour(stops, a)) == multiset(Tour(stops, b))
  {
    forall k | 0 <= k < |b| ensures b[k] < |stops| {
      assert b[k] in multiset(a);
    }
    if a == [] {
      assert |multiset(b)| == 0;
    } else {
      var k := MatchFirst(a, b);
      TourPermutation(stops, a[1..], Without(b, k));
      assert Tour(stops, Without(b, k)) == Without(Tour(stops, b), k);
      assert Tour(stops, a[1..]) == Without(Tour(stops, a), 0);
      WithoutContent(Tour(stops, a), 0);
      WithoutContent(Tour(stops, b), k);
    }
  }

  lemma {:induction false} TourReverseSegment(stops: seq<Stop>, indices: seq<nat>, i: nat, j: nat)
    requires InRange(indices, |stops|)
    requires i <= j < |indices|
    ensures InRange(ReverseSegment(indices, i, j), |stops|)
    ensures Tour(stops, ReverseSegment(indices, i, j)) == ReverseSegment(Tour(stops, indices), i, j)
  {
  }
}
