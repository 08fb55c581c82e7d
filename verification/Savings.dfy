// The savings list: what a saving is, the order the pairs are taken in, and that the request determines it.
module Savings {
  import opened Models
  import opened Tours
  import opened Merging

  function SavingOf(d: Distance, depot: Coordinate, a: Stop, b: Stop): real {
    d(depot, a.coordinate) + d(depot, b.coordinate) - d(a.coordinate, b.coordinate)
  }

  // The listed saving is what joining the two one-stop routes gains.
  lemma {:induction false} SavingIsGain(d: Distance, depot: Coordinate, a: Stop, b: Stop)
    requires Symmetric(d)
    ensures TourLength(d, depot, [a]) + TourLength(d, depot, [b]) - TourLength(d, depot, [a] + [b])
            == SavingOf(d, depot, a, b)
  {
    JoinLength(d, depot, [a], [b]);
  }

  // A pair i < j with its saving.
  predicate IsListed(d: Distance, depot: Coordinate, stops: seq<Stop>, p: Saving) {
    p.i < p.j < |stops| && p.value == SavingOf(d, depot, stops[p.i], stops[p.j])
  }

  predicate LexLess(p: Saving, q: Saving) {
    p.i < q.i || (p.i == q.i && p.j < q.j)
  }

  lemma {:induction false} HasPairSnoc(savings: seq<Saving>, p: Saving)
    ensures HasPair(savings + [p], p.i, p.j)
    ensures forall i: nat, j: nat :: HasPair(savings, i, j) ==> HasPair(savings + [p], i, j)
  {
    assert p in savings + [p];
    forall i: nat, j: nat | HasPair(savings, i, j) ensures HasPair(savings + [p], i, j) {
      var q :| q in savings && q.i == i && q.j == j;
      assert q in savings + [p];
    }
  }

  // Largest saving first; equal savings keep their order.
  function InsertByValue(p: Saving, sorted: seq<Saving>): (r: seq<Saving>)
    ensures multiset(r) == multiset([p] + sorted)
  {
    if sorted == [] || p.value >= sorted[0].value then [p] + sorted
    else
      assert [p] + sorted == [p] + ([sorted[0]] + sorted[1..]);
      [sorted[0]] + InsertByValue(p, sorted[1..])
  }

  function SortByValue(savings: seq<Saving>): (r: seq<Saving>)
    ensures multiset(r) == multiset(savings)
  {
    if savings == [] then []
    else
      assert savings == [savings[0]] + savings[1..];
      InsertByValue(savings[0], SortByValue(savings[1..]))
  }

  // The order the merge loop takes the pairs in: largest saving first, equal savings by i and then j.
  predicate Outranks(p: Saving, q: Saving) {
    p.value > q.value || (p.value == q.value && LexLess(p, q))
  }

  ghost predicate Ranked(savings: seq<Saving>) {
    forall k, l :: 0 <= k < l < |savings| ==> Outranks(savings[k], savings[l])
  }

  ghost predicate LexIncreasing(savings: seq<Saving>) {
    forall k, l :: 0 <= k < l < |savings| ==> LexLess(savings[k], savings[l])
  }

  lemma {:induction false} InsertRanked(p: Saving, sorted: seq<Saving>)
    requires Ranked(sorted) && forall q :: q in sorted ==> LexLess(p, q)
    ensures Ranked(InsertByValue(p, sorted))
  {
    if sorted != [] && p.value < sorted[0].value {
      InsertRanked(p, sorted[1..]);
      var rest := InsertByValue(p, sorted[1..]);
      forall l | 0 <= l < |rest| ensures Outranks(sorted[0], rest[l]) {
        assert rest[l] in multiset(rest);
        assert rest[l] in [p] + sorted[1..];
      }
    } else {
      assert forall q :: q in sorted ==> Outranks(p, q);
    }
  }

  lemma {:induction false} SortRanked(savings: seq<Saving>)
    requires LexIncreasing(savings)
    ensures Ranked(SortByValue(savings))
  {
    if savings != [] {
      var sorted := SortByValue(savings[1..]);
      SortRanked(savings[1..]);
      forall q | q in sorted ensures LexLess(savings[0], q) {
        assert q in multiset(savings[1..]);
      }
      InsertRanked(savings[0], sorted);
    }
  }

  // The sorted list names the same pairs with the same savings.
  lemma {:induction false} SortKeepsPairs(d: Distance, depot: Coordinate, stops: seq<Stop>, savings: seq<Saving>)
    requires forall p :: p in savings ==> IsListed(d, depot, stops, p)
    requires Covers(savings, |stops|)
    ensures forall p :: p in SortByValue(savings) ==> IsListed(d, depot, stops, p)
    ensures PairsInRange(SortByValue(savings), |stops|) && Covers(SortByValue(savings), |stops|)
  {
    var sorted := SortByValue(savings);
    forall p | p in sorted ensures IsListed(d, depot, stops, p) {
      assert p in multiset(savings);
    }
    forall k | 0 <= k < |sorted| ensures PairInRange(sorted[k], |stops|) {
      assert IsListed(d, depot, stops, sorted[k]);
    }
    forall i: nat, j: nat | i < j < |stops| ensures HasPair(sorted, i, j) {
      assert HasPair(savings, i, j);
      var p :| p in savings && p.i == i && p.j == j;
      assert p in multiset(sorted);
    }
  }

  // The list the merge loop works through.
  ghost predicate IsListing(d: Distance, depot: Coordinate, stops: seq<Stop>, savings: seq<Saving>) {
    && PairsInRange(savings, |stops|) && Covers(savings, |stops|)
    && Ranked(savings)
    && forall p :: p in savings ==> IsListed(d, depot, stops, p)
  }

  lemma {:induction false} BehindFirst(savings: seq<Saving>)
    requires Ranked(savings) && savings != []
    ensures Ranked(savings[1..])
    ensures forall p :: p in savings[1..] <==> p in savings && p != savings[0]
  {
    assert savings == [savings[0]] + savings[1..];
    forall p | p in savings[1..] ensures p != savings[0] {
      assert Outranks(savings[0], p);
    }
  }

  // Two ranked lists of the same pairs are the same list.
  lemma {:induction false} RankedUnique(a: seq<Saving>, b: seq<Saving>)
    requires Ranked(a) && Ranked(b) && forall p :: p in a <==> p in b
    ensures a == b
  {
    assert a != [] ==> a[0] in b;
    assert b != [] ==> b[0] in a;
    if a != [] {
      assert a[0] == b[0];
      BehindFirst(a);
      BehindFirst(b);
      RankedUnique(a[1..], b[1..]);
    }
  }

  // The request determines the order of the merges.
  lemma {:induction false} ListingUnique(
    d: Distance, depot: Coordinate, stops: seq<Stop>, a: seq<Saving>, b: seq<Saving>)
    requires IsListing(d, depot, stops, a) && IsListing(d, depot, stops, b)
    ensures a == b
  {
    forall p ensures p in a <==> p in b {
      if IsListed(d, depot, stops, p) {
        assert HasPair(a, p.i, p.j) && HasPair(b, p.i, p.j);
      }
    }
    RankedUnique(a, b);
  }

  lemma {:induction false} SameFirst(first: seq<Saving>, savings: seq<Saving>)
    requires first != [] && Ranked(first) && Ranked(savings)
    requires forall p :: p in first ==> p in savings
    requires forall p, q :: p in first && q in savings && q !in first ==> Outranks(p, q)
    ensures savings != [] && first[0] == savings[0]
  {
    var p := first[0];
    assert p in first && p in savings;
    var q := savings[0];
    assert q in savings;
    assert p == q || Outranks(q, p);
    assert p == q || Outranks(p, q);
  }

  // Pairs that outrank all the others come first.
  lemma {:induction false} RankedPrefix(first: seq<Saving>, savings: seq<Saving>)
    requires Ranked(first) && Ranked(savings)
    requires forall p :: p in first ==> p in savings
    requires forall p, q :: p in first && q in savings && q !in first ==> Outranks(p, q)
    ensures first <= savings
  {
    if first != [] {
      SameFirst(first, savings);
      BehindFirst(first);
      BehindFirst(savings);
      RankedPrefix(first[1..], savings[1..]);
    }
  }

  // ----- There is a list for every request -----

  function Row(d: Distance, depot: Coordinate, stops: seq<Stop>, i: nat, j: nat): (row: seq<Saving>)
    requires i < j <= |stops|
    ensures forall p :: p in row ==> p.i == i && p.j < j && IsListed(d, depot, stops, p)
    ensures LexIncreasing(row)
  {
    if j == i + 1 then []
    else Row(d, depot, stops, i, j - 1) + [Saving(i, j - 1, SavingOf(d, depot, stops[i], stops[j - 1]))]
  }

  function Rows(d: Distance, depot: Coordinate, stops: seq<Stop>, i: nat): (rows: seq<Saving>)
    requires i <= |stops|
    ensures forall p :: p in rows ==> p.i < i && IsListed(d, depot, stops, p)
    ensures LexIncreasing(rows)
  {
    if i == 0 then [] else Rows(d, depot, stops, i - 1) + Row(d, depot, stops, i - 1, |stops|)
  }

  lemma {:induction false} RowHas(d: Distance, depot: Coordinate, stops: seq<Stop>, i: nat, j: nat, k: nat)
    requires i < k < j <= |stops|
    ensures HasPair(Row(d, depot, stops, i, j), i, k)
  {
    var row := Row(d, depot, stops, i, j);
    if k == j - 1 {
      assert row[|row| - 1] in row;
    } else {
      RowHas(d, depot, stops, i, j - 1, k);
      var p :| p in Row(d, depot, stops, i, j - 1) && p.i == i && p.j == k;
      assert p in row;
    }
  }

  lemma {:induction false} RowsHave(d: Distance, depot: Coordinate, stops: seq<Stop>, n: nat, i: nat, k: nat)
    requires i < n <= |stops| && i < k < |stops|
    ensures HasPair(Rows(d, depot, stops, n), i, k)
  {
    var rows := Rows(d, depot, stops, n);
    if i == n - 1 {
      RowHas(d, depot, stops, i, |stops|, k);
      var p :| p in Row(d, depot, stops, i, |stops|) && p.i == i && p.j == k;
      assert p in rows;
    } else {
      RowsHave(d, depot, stops, n - 1, i, k);
      var p :| p in Rows(d, depot, stops, n - 1) && p.i == i && p.j == k;
      assert p in rows;
    }
  }

  lemma {:induction false} ListingExists(d: Distance, depot: Coordinate, stops: seq<Stop>)
    returns (savings: seq<Saving>)
    ensures IsListing(d, depot, stops, savings)
  {
    var rows := Rows(d, depot, stops, |stops|);
    forall i: nat, k: nat | i < k < |stops| ensures HasPair(rows, i, k) {
      RowsHave(d, depot, stops, |stops|, i, k);
    }
    SortKeepsPairs(d, depot, stops, rows);
    SortRanked(rows);
    savings := SortByValue(rows);
  }

  // ----- Gain and saving -----

  // A merge gains the saving between the stop its first list ends with and the stop its second list starts with.
  lemma {:induction false} MergeGain(d: Distance, depot: Coordinate, a: seq<Stop>, b: seq<Stop>)
    requires Symmetric(d) && a != [] && b != []
    ensures TourLength(d, depot, a) + TourLength(d, depot, b) - TourLength(d, depot, a + b)
            == SavingOf(d, depot, a[|a| - 1], b[0])
  {
    JoinLength(d, depot, a, b);
  }
}
