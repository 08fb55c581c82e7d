// The lazily refilled token bucket: one decision, a whole run, and what a run admits.
module TokenBucket {

  // window is in seconds; rate is tokens per second.
  datatype Config = Config(limit: real, window: real, rate: real)

  ghost predicate Valid(c: Config) {
    c.limit >= 0.0 && c.window > 0.0 && c.rate * c.window == c.limit
  }

  lemma {:induction false} NegativeProduct(x: real, y: real)
    requires x < 0.0 && y > 0.0
    ensures x * y < 0.0
  {
  }

  lemma {:induction false} RateNonNegative(c: Config)
    requires Valid(c)
    ensures c.rate >= 0.0
  {
    if c.rate < 0.0 {
      NegativeProduct(c.rate, c.window);
      assert false;
    }
  }

  datatype Bucket = Bucket(tokens: real, lastSeen: real)

  function MinFloat(a: real, b: real): real {
    if a < b then a else b
  }

  function Fresh(c: Config, now: real): Bucket {
    Bucket(c.limit, now)
  }

  function Refill(c: Config, b: Bucket, now: real): Bucket {
    Bucket(MinFloat(c.limit, b.tokens + (now - b.lastSeen) * c.rate), now)
  }

  datatype Decision = Decision(bucket: Bucket, admitted: bool)

  function Decide(c: Config, b: Bucket, now: real): Decision {
    var r := Refill(c, b, now);
    if r.tokens < 1.0 then Decision(r, false) else Decision(r.(tokens := r.tokens - 1.0), true)
  }

  // The bucket after requests at these times, in the order they got the lock. The times need not be in order.
  function After(c: Config, b: Bucket, times: seq<real>): Bucket {
    if times == [] then b
    else Decide(c, After(c, b, times[..|times| - 1]), times[|times| - 1]).bucket
  }

  // A bucket is made full at time born; the request that made it need not be the first to lock it.
  // Whether request k of its history is admitted, and the tokens it sees.
  function Admits(c: Config, born: real, times: seq<real>, k: nat): bool
    requires k < |times|
  {
    Decide(c, After(c, Fresh(c, born), times[..k]), times[k]).admitted
  }

  function TokensSeen(c: Config, born: real, times: seq<real>, k: nat): real
    requires k < |times|
  {
    Refill(c, After(c, Fresh(c, born), times[..k]), times[k]).tokens
  }

  function AdmittedBetween(c: Config, born: real, times: seq<real>, j: nat, k: nat): nat
    requires j <= k <= |times|
  {
    if j == k then 0
    else AdmittedBetween(c, born, times, j, k - 1) + if Admits(c, born, times, k - 1) then 1 else 0
  }

  // ----- Closed form -----

  // The tokens an uncapped bucket earns by time t; only differences of it matter.
  function Earned(c: Config, t: real): real {
    c.rate * t
  }

  lemma {:induction false} RefillEarned(c: Config, b: Bucket, now: real)
    ensures Refill(c, b, now).tokens == MinFloat(c.limit, b.tokens + Earned(c, now) - Earned(c, b.lastSeen))
  {
    assert (now - b.lastSeen) * c.rate == c.rate * now - c.rate * b.lastSeen;
  }

  // The points to count from: 0 is the making of the bucket, j + 1 is request j.
  function PointTime(born: real, times: seq<real>, j: nat): real
    requires j <= |times|
  {
    if j == 0 then born else times[j - 1]
  }

  function AdmittedSince(c: Config, born: real, times: seq<real>, j: nat, k: nat): nat
    requires j <= k + 1 && k < |times|
  {
    AdmittedBetween(c, born, times, if j == 0 then 0 else j - 1, k)
  }

  // What would be left at request k had the bucket been full at point j and never capped since.
  function Uncapped(c: Config, born: real, times: seq<real>, j: nat, k: nat): real
    requires j <= k + 1 && k < |times|
  {
    c.limit + Earned(c, times[k]) - Earned(c, PointTime(born, times, j)) - AdmittedSince(c, born, times, j, k) as real
  }

  lemma {:induction false} LastSeenIsLast(c: Config, born: real, times: seq<real>, k: nat)
    requires 0 < k <= |times|
    ensures After(c, Fresh(c, born), times[..k]).lastSeen == times[k - 1]
    ensures After(c, Fresh(c, born), times[..k]).tokens
            == TokensSeen(c, born, times, k - 1) - if Admits(c, born, times, k - 1) then 1.0 else 0.0
  {
    assert times[..k][..k - 1] == times[..k - 1];
  }

  lemma {:induction false} TokensStep(c: Config, born: real, times: seq<real>, k: nat)
    requires 0 < k < |times|
    ensures TokensSeen(c, born, times, k) ==
            MinFloat(c.limit, TokensSeen(c, born, times, k - 1)
                              - (if Admits(c, born, times, k - 1) then 1.0 else 0.0)
                              + Earned(c, times[k]) - Earned(c, times[k - 1]))
  {
    LastSeenIsLast(c, born, times, k);
    RefillEarned(c, After(c, Fresh(c, born), times[..k]), times[k]);
  }

  lemma {:induction false} FirstTokens(c: Config, born: real, times: seq<real>)
    requires times != []
    ensures TokensSeen(c, born, times, 0) == MinFloat(c.limit, c.limit + Earned(c, times[0]) - Earned(c, born))
  {
    assert times[..0] == [];
    RefillEarned(c, Fresh(c, born), times[0]);
  }

  // The tokens request k sees are the least of the uncapped counts from the making of the bucket and from request
  // 0 on; j names one that attains it.
  lemma {:induction false} ClosedForm(c: Config, born: real, times: seq<real>, k: nat) returns (j: nat)
    requires k < |times|
    ensures j <= k + 1 && TokensSeen(c, born, times, k) == Uncapped(c, born, times, j, k)
    ensures forall i :: 0 <= i <= k + 1 ==> TokensSeen(c, born, times, k) <= Uncapped(c, born, times, i, k)
  {
    assert Uncapped(c, born, times, k + 1, k) == c.limit;
    if k == 0 {
      FirstTokens(c, born, times);
      j := if TokensSeen(c, born, times, 0) == c.limit then 1 else 0;
    } else {
      j := ClosedForm(c, born, times, k - 1);
      TokensStep(c, born, times, k);
      forall i | 0 <= i <= k + 1 ensures TokensSeen(c, born, times, k) <= Uncapped(c, born, times, i, k) {
        if i <= k {
          assert TokensSeen(c, born, times, k - 1) <= Uncapped(c, born, times, i, k - 1);
        }
      }
      if TokensSeen(c, born, times, k) == c.limit {
        j := k + 1;
      }
    }
  }

  // Counted from point j, request k still fits under the limit.
  predicate HasRoom(c: Config, born: real, times: seq<real>, j: nat, k: nat)
    requires j <= k + 1 && k < |times|
  {
    AdmittedSince(c, born, times, j, k) as real + 1.0
    <= c.limit + Earned(c, times[k]) - Earned(c, PointTime(born, times, j))
  }

  // A request is admitted exactly when, counted from the making of the bucket and from every earlier request, there
  // is still room for one more.
  lemma {:induction false} AdmittedExactly(c: Config, born: real, times: seq<real>, k: nat)
    requires k < |times|
    ensures Admits(c, born, times, k) <==> forall j :: 0 <= j <= k + 1 ==> HasRoom(c, born, times, j, k)
  {
    var least := ClosedForm(c, born, times, k);
    assert Admits(c, born, times, k) <==> TokensSeen(c, born, times, k) >= 1.0;
    assert HasRoom(c, born, times, least, k) <==> TokensSeen(c, born, times, k) >= 1.0;
    forall j | 0 <= j <= k + 1 ensures TokensSeen(c, born, times, k) >= 1.0 ==> HasRoom(c, born, times, j, k) {
      assert TokensSeen(c, born, times, k) <= Uncapped(c, born, times, j, k);
    }
  }

  // ----- Window bound -----

  // How many of the requests stamped within [from, to] are admitted, starting from any bucket.
  function WindowAdmits(c: Config, b: Bucket, times: seq<real>, from: real, to: real): nat
    decreases |times|
  {
    if times == [] then 0
    else
      var r := Decide(c, b, times[0]);
      (if r.admitted && from <= times[0] <= to then 1 else 0) + WindowAdmits(c, r.bucket, times[1..], from, to)
  }

  lemma {:induction false} WindowAdmitsSnoc(
    c: Config, b: Bucket, times: seq<real>, t: real, from: real, to: real)
    ensures WindowAdmits(c, b, times + [t], from, to) ==
            WindowAdmits(c, b, times, from, to)
            + if Decide(c, After(c, b, times), t).admitted && from <= t <= to then 1 else 0
    decreases |times|
  {
    if times == [] {
      assert times + [t] == [t];
    } else {
      WindowAdmitsSnoc(c, Decide(c, b, times[0]).bucket, times[1..], t, from, to);
      AfterFirst(c, b, times);
      assert (times + [t])[1..] == times[1..] + [t];
    }
  }

  lemma {:induction false} AfterFirst(c: Config, b: Bucket, times: seq<real>)
    requires times != []
    ensures After(c, b, times) == After(c, Decide(c, b, times[0]).bucket, times[1..])
  {
    if |times| == 1 {
      assert times[..0] == [] && times[1..] == [];
    } else {
      AfterFirst(c, b, times[..|times| - 1]);
      assert times[..|times| - 1][1..] == times[1..][..|times| - 2];
    }
  }

  // Tokens less what time alone has earned: refills do not raise it, admissions lower it.
  function Potential(c: Config, b: Bucket): real {
    b.tokens - Earned(c, b.lastSeen)
  }

  lemma {:induction false} PotentialFalls(c: Config, b: Bucket, now: real)
    ensures var r := Decide(c, b, now);
            Potential(c, r.bucket) <= Potential(c, b) - if r.admitted then 1.0 else 0.0
    ensures var r := Decide(c, b, now);
            Potential(c, r.bucket) <= c.limit - Earned(c, now) - if r.admitted then 1.0 else 0.0
    ensures Decide(c, b, now).admitted ==> Potential(c, b) >= 1.0 - Earned(c, now)
  {
    RefillEarned(c, b, now);
  }

  lemma {:induction false} EarnedMonotone(c: Config, x: real, y: real)
    requires c.rate >= 0.0 && x <= y
    ensures Earned(c, x) <= Earned(c, y)
  {
    assert c.rate * (y - x) >= 0.0;
  }

  lemma {:induction false} PotentialPays(c: Config, b: Bucket, times: seq<real>, from: real, to: real)
    requires c.rate >= 0.0
    ensures var n := WindowAdmits(c, b, times, from, to); n > 0 ==> n as real <= Potential(c, b) + Earned(c, to)
    decreases |times|
  {
    if times != [] {
      PotentialFalls(c, b, times[0]);
      PotentialPays(c, Decide(c, b, times[0]).bucket, times[1..], from, to);
      if from <= times[0] <= to {
        EarnedMonotone(c, times[0], to);
      }
    }
  }

  // However the requests got hold of the lock, one bucket admits at most limit + rate * (to - from) of those
  // stamped within [from, to].
  lemma {:induction false} WindowBound(c: Config, b: Bucket, times: seq<real>, from: real, to: real)
    requires Valid(c) && from <= to
    ensures WindowAdmits(c, b, times, from, to) as real <= c.limit + Earned(c, to) - Earned(c, from)
    decreases |times|
  {
    RateNonNegative(c);
    EarnedMonotone(c, from, to);
    if times != [] {
      var rest := Decide(c, b, times[0]).bucket;
      if from <= times[0] <= to {
        PotentialFalls(c, b, times[0]);
        EarnedMonotone(c, from, times[0]);
        EarnedMonotone(c, times[0], to);
        PotentialPays(c, rest, times[1..], from, to);
      } else {
        WindowBound(c, rest, times[1..], from, to);
      }
    }
  }
}
