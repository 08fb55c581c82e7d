// Sums over sequences and the laws the optimizer's accounting relies on.
module Sums {

  function SumBy<T>(f: T -> real, xs: seq<T>): (sum: real)
  {
    if xs == [] then 0.0 else f(xs[0]) + SumBy(f, xs[1..])
  }

  lemma {:induction false} SumByConcat<T>(f: T -> real, xs: seq<T>, ys: seq<T>)
    ensures SumBy(f, xs + ys) == SumBy(f, xs) + SumBy(f, ys)
  {
    if xs == [] {
      assert xs + ys == ys;
    } else {
      assert (xs + ys)[1..] == xs[1..] + ys;
      SumByConcat(f, xs[1..], ys);
    }
  }

  lemma {:induction false} SumBySnoc<T>(f: T -> real, xs: seq<T>, x: T)
    ensures SumBy(f, xs + [x]) == SumBy(f, xs) + f(x)
  {
    SumByConcat(f, xs, [x]);
  }

  lemma {:induction false} SumByUpdate<T>(f: T -> real, xs: seq<T>, i: nat, x: T)
    requires i < |xs|
    ensures SumBy(f, xs[i := x]) == SumBy(f, xs) - f(xs[i]) + f(x)
  {
    assert xs == xs[..i] + ([xs[i]] + xs[i + 1..]);
    assert xs[i := x] == xs[..i] + ([x] + xs[i + 1..]);
    SumByConcat(f, xs[..i], [xs[i]] + xs[i + 1..]);
    SumByConcat(f, xs[..i], [x] + xs[i + 1..]);
  }

  function Without<T>(xs: seq<T>, k: nat): (rest: seq<T>)
    requires k < |xs|
    ensures |rest| == |xs| - 1
  {
    xs[..k] + xs[k + 1..]
  }

  lemma {:induction false} WithoutContent<T>(xs: seq<T>, k: nat)
    requires k < |xs|
    ensures multiset(xs) == multiset(Without(xs, k)) + multiset{xs[k]}
  {
    assert xs == xs[..k] + [xs[k]] + xs[k + 1..];
  }

  // A list that is a permutation of a non-empty one holds its first element somewhere;
  // dropping both leaves permutations.
  lemma {:induction false} MatchFirst<T>(xs: seq<T>, ys: seq<T>) returns (k: nat)
    requires multiset(xs) == multiset(ys) && xs != []
    ensures k < |ys| && ys[k] == xs[0]
    ensures multiset(xs[1..]) == multiset(Without(ys, k))
  {
    assert xs[0] in multiset(ys);
    k :| 0 <= k < |ys| && ys[k] == xs[0];
    WithoutContent(ys, k);
    WithoutContent(xs, 0);
    assert Without(xs, 0) == xs[1..];
    assert multiset(xs[1..]) == multiset(xs) - multiset{xs[0]};
  }

  lemma {:induction false} SumByWithout<T>(f: T -> real, xs: seq<T>, k: nat)
    requires k < |xs|
    ensures SumBy(f, xs) == f(xs[k]) + SumBy(f, Without(xs, k))
  {
    assert xs == xs[..k] + ([xs[k]] + xs[k + 1..]);
    SumByConcat(f, xs[..k], [xs[k]] + xs[k + 1..]);
    SumByConcat(f, xs[..k], xs[k + 1..]);
  }

  lemma {:induction false} SumByPermutation<T>(f: T -> real, xs: seq<T>, ys: seq<T>)
    requires multiset(xs) == multiset(ys)
    ensures SumBy(f, xs) == SumBy(f, ys)
  {
    if xs == [] {
      assert |multiset(ys)| == 0;
    } else {
      var k := MatchFirst(xs, ys);
      SumByPermutation(f, xs[1..], Without(ys, k));
      SumByWithout(f, ys, k);
    }
  }

  lemma {:induction false} SumByNonNegative<T>(f: T -> real, xs: seq<T>)
    requires forall x :: x in xs ==> f(x) >= 0.0
    ensures SumBy(f, xs) >= 0.0
  {
    if xs != [] {
      SumByNonNegative(f, xs[1..]);
    }
  }

  lemma {:induction false} SumByNonPositive<T>(f: T -> real, xs: seq<T>)
    requires forall x :: x in xs ==> f(x) <= 0.0
    ensures SumBy(f, xs) <= 0.0
  {
    if xs != [] {
      SumByNonPositive(f, xs[1..]);
    }
  }

  lemma {:induction false} SumByPointwise<S, T>(f: S -> real, xs: seq<S>, g: T -> real, ys: seq<T>)
    requires |xs| == |ys|
    requires forall k :: 0 <= k < |xs| ==> f(xs[k]) <= g(ys[k])
    ensures SumBy(f, xs) <= SumBy(g, ys)
  {
    if xs != [] {
      SumByPointwise(f, xs[1..], g, ys[1..]);
    }
  }

  // The elements of all the lists, with multiplicity.
  function Content<T>(xss: seq<seq<T>>): (m: multiset<T>)
  {
    if xss == [] then multiset{} else multiset(xss[0]) + Content(xss[1..])
  }

  lemma {:induction false} ContentConcat<T>(xss: seq<seq<T>>, yss: seq<seq<T>>)
    ensures Content(xss + yss) == Content(xss) + Content(yss)
  {
    if xss == [] {
      assert xss + yss == yss;
    } else {
      assert (xss + yss)[1..] == xss[1..] + yss;
      ContentConcat(xss[1..], yss);
    }
  }

  lemma {:induction false} ContentSnoc<T>(xss: seq<seq<T>>, xs: seq<T>)
    ensures Content(xss + [xs]) == Content(xss) + multiset(xs)
  {
    ContentConcat(xss, [xs]);
    assert [xs][1..] == [];
  }

  lemma {:induction false} ContentUpdate<T>(xss: seq<seq<T>>, i: nat, xs: seq<T>)
    requires i < |xss|
    ensures Content(xss[i := xs]) + multiset(xss[i]) == Content(xss) + multiset(xs)
  {
    assert xss == xss[..i] + ([xss[i]] + xss[i + 1..]);
    assert xss[i := xs] == xss[..i] + ([xs] + xss[i + 1..]);
    ContentConcat(xss[..i], [xss[i]] + xss[i + 1..]);
    ContentConcat(xss[..i], [xs] + xss[i + 1..]);
  }

  lemma {:induction false} MultisetCancel<T>(x: multiset<T>, y: multiset<T>, z: multiset<T>)
    requires x + z == y + z
    ensures x == y
  {
    assert x == x + z - z;
    assert y == y + z - z;
  }

  // Appending one list to another and emptying it keeps the contents.
  lemma {:induction false} ContentMove<T>(xss: seq<seq<T>>, i: nat, j: nat)
    requires i < |xss| && j < |xss| && i != j
    ensures Content(xss[i := xss[i] + xss[j]][j := []]) == Content(xss)
  {
    var joined := xss[i := xss[i] + xss[j]];
    ContentUpdate(xss, i, xss[i] + xss[j]);
    ContentUpdate(joined, j, []);
    var after, a, b := Content(joined[j := []]), multiset(xss[i]), multiset(xss[j]);
    assert multiset(xss[i] + xss[j]) == a + b;
    assert after + multiset(joined[j]) == Content(joined) + multiset([]);
    assert after + b == Content(joined);
    assert after + (a + b) == Content(xss) + (a + b);
    MultisetCancel(after, Content(xss), a + b);
  }
}
