// Undisturbed requests, one after the other, as the limiter's Handle serves them: they are the steps of the interleaved
// model taken three at a time, and each client is served from its own bucket.
module Handling {
  import opened TokenBucket
  import opened Eviction
  import opened RateLimiter

  datatype Visit = Visit(ip: Ip, now: real)

  // The table after these requests, from an empty one.
  function TableAfter(c: Config, visits: seq<Visit>): Table {
    if visits == [] then map[]
    else
      var t, v := TableAfter(c, visits[..|visits| - 1]), visits[|visits| - 1];
      t[v.ip := Served(c, t, v.ip, v.now).bucket]
  }

  function Admitted(c: Config, visits: seq<Visit>, n: nat): bool
    requires n < |visits|
  {
    Served(c, TableAfter(c, visits[..n]), visits[n].ip, visits[n].now).admitted
  }

  function AnswersTo(c: Config, visits: seq<Visit>): (answers: seq<bool>)
    ensures |answers| == |visits|
  {
    if visits == [] then []
    else AnswersTo(c, visits[..|visits| - 1]) + [Admitted(c, visits, |visits| - 1)]
  }

  // ----- The steps -----

  // The clock starts at 0 and does not go back.
  ghost predicate Clocked(visits: seq<Visit>) {
    && (forall k :: 0 <= k < |visits| ==> visits[k].now >= 0.0)
    && (forall k, l :: 0 <= k < l < |visits| ==> visits[k].now <= visits[l].now)
  }

  function Steps(visits: seq<Visit>): seq<Op> {
    if visits == [] then []
    else
      var n: nat, v := |visits| - 1, visits[|visits| - 1];
      Steps(visits[..n]) + [Stamp(n, v.ip, v.now)] + [LookUp(n)] + [Take(n, v.now)]
  }

  // The bucket a request finds or makes.
  function FoundBucket(c: Config, s: State, ip: Ip, now: real): Bucket
    requires ip in s.table ==> s.table[ip] < |s.cells|
  {
    if ip in s.table then Entry(s, ip) else Fresh(c, now)
  }

  // The state after stamp and lookup.
  function Held(c: Config, s: State, ip: Ip, now: real, call: nat): State {
    var k := if ip in s.table then s.table[ip] else |s.cells|;
    State(now, s.table[ip := k],
          if ip in s.table then s.cells else s.cells + [Cell(ip, Fresh(c, now), now, [], now)],
          map[call := Holding(ip, now, k)], s.doomed)
  }

  lemma {:induction false} HoldSteps(c: Config, s: State, ip: Ip, now: real, call: nat, evicting: bool)
    requires s.clock <= now && s.calls == map[]
    ensures Do(c, Do(c, s, Stamp(call, ip, now), evicting), LookUp(call), evicting) == Held(c, s, ip, now, call)
  {
    var stamped := Do(c, s, Stamp(call, ip, now), evicting);
    assert stamped.calls == map[call := Stamped(ip, now)];
    if ip in s.table {
      assert s.table[ip := s.table[ip]] == s.table;
    }
  }

  // The request has left one decision in its client's bucket and no trace elsewhere.
  ghost predicate Took(c: Config, s: State, next: State, ip: Ip, now: real)
    requires WellFormed(c, s) && WellFormed(c, next)
  {
    && next.clock == now && next.calls == map[] && next.table.Keys == s.table.Keys + {ip}
    && Entry(next, ip) == Decide(c, FoundBucket(c, s, ip, now), now).bucket
    && forall q :: q in s.table && q != ip ==> Entry(next, q) == Entry(s, q)
  }

  lemma {:induction false} TakeStep(c: Config, s: State, ip: Ip, now: real, call: nat, evicting: bool)
    requires WellFormed(c, s) && s.clock <= now && s.calls == map[]
    ensures var held, op := Held(c, s, ip, now, call), Take(call, now);
            && Enabled(held, op) && Serve(c, held, op) == Decide(c, FoundBucket(c, s, ip, now), now)
            && WellFormed(c, Do(c, held, op, evicting)) && Took(c, s, Do(c, held, op, evicting), ip, now)
  {
    TakenWellFormed(c, s, ip, now, call, evicting);
    var held := Held(c, s, ip, now, call);
    var k := held.table[ip];
    assert held.calls - {call} == map[];
    forall q | q in s.table && q != ip ensures s.table[q] != k {
      assert s.cells[s.table[q]].ip == q;
    }
  }

  lemma {:induction false} TakenWellFormed(c: Config, s: State, ip: Ip, now: real, call: nat, evicting: bool)
    requires WellFormed(c, s) && s.clock <= now && s.calls == map[]
    ensures WellFormed(c, Do(c, Held(c, s, ip, now, call), Take(call, now), evicting))
  {
    HoldSteps(c, s, ip, now, call, evicting);
    DoWellFormed(c, s, Stamp(call, ip, now), evicting);
    DoWellFormed(c, Do(c, s, Stamp(call, ip, now), evicting), LookUp(call), evicting);
    DoWellFormed(c, Held(c, s, ip, now, call), Take(call, now), evicting);
  }

  // The table of the model holds the buckets of the table of the limiter, and nothing is in flight.
  ghost predicate Follows(c: Config, s: State, t: Table, clock: real) {
    && WellFormed(c, s) && s.calls == map[] && s.clock == clock
    && s.table.Keys == t.Keys
    && forall ip :: ip in s.table ==> Entry(s, ip) == t[ip]
  }

  lemma {:induction false} StepAnswer(c: Config, ops: seq<Op>, op: Op, evicting: bool)
    ensures Final(c, ops + [op], evicting) == Do(c, Final(c, ops, evicting), op, evicting)
    ensures var s := Final(c, ops, evicting);
            Answers(c, ops + [op], evicting) ==
            Answers(c, ops, evicting) + if op.Take? && Enabled(s, op) then [Serve(c, s, op).admitted] else []
  {
    assert (ops + [op])[..|ops|] == ops;
  }

  lemma {:induction false} OneVisit(
    c: Config, before: seq<Op>, s: State, ip: Ip, now: real, call: nat, evicting: bool)
    requires s == Final(c, before, evicting) && WellFormed(c, s) && s.clock <= now && s.calls == map[]
    ensures var ops := before + [Stamp(call, ip, now)] + [LookUp(call)] + [Take(call, now)];
            && Final(c, ops, evicting) == Do(c, Held(c, s, ip, now, call), Take(call, now), evicting)
            && Answers(c, ops, evicting) ==
               Answers(c, before, evicting) + [Decide(c, FoundBucket(c, s, ip, now), now).admitted]
  {
    HoldSteps(c, s, ip, now, call, evicting);
    TakeStep(c, s, ip, now, call, evicting);
    StepAnswer(c, before, Stamp(call, ip, now), evicting);
    StepAnswer(c, before + [Stamp(call, ip, now)], LookUp(call), evicting);
    StepAnswer(c, before + [Stamp(call, ip, now)] + [LookUp(call)], Take(call, now), evicting);
  }

  lemma {:induction false} FollowsNext(c: Config, s: State, t: Table, ip: Ip, now: real, next: State)
    requires Follows(c, s, t, s.clock) && WellFormed(c, next) && Took(c, s, next, ip, now)
    ensures Follows(c, next, t[ip := Served(c, t, ip, now).bucket], now)
    ensures Decide(c, FoundBucket(c, s, ip, now), now) == Served(c, t, ip, now)
  {
  }

  function LastTime(visits: seq<Visit>): real {
    if visits == [] then 0.0 else visits[|visits| - 1].now
  }

  lemma {:induction false} ClockedBefore(visits: seq<Visit>)
    requires Clocked(visits) && visits != []
    ensures Clocked(visits[..|visits| - 1]) && LastTime(visits[..|visits| - 1]) <= LastTime(visits)
  {
  }

  // The requests are answered as the steps of the interleaved model, with an evictor that does nothing or without one.
  lemma {:induction false} HandledAsSteps(c: Config, visits: seq<Visit>, evicting: bool) returns (s: State)
    requires Clocked(visits)
    ensures Answers(c, Steps(visits), evicting) == AnswersTo(c, visits)
    ensures s == Final(c, Steps(visits), evicting) && Follows(c, s, TableAfter(c, visits), LastTime(visits))
  {
    if visits == [] {
      s := Init();
    } else {
      var n: nat, before, v := |visits| - 1, visits[..|visits| - 1], visits[|visits| - 1];
      ClockedBefore(visits);
      var held := HandledAsSteps(c, before, evicting);
      s := Do(c, Held(c, held, v.ip, v.now, n), Take(n, v.now), evicting);
      OneVisit(c, Steps(before), held, v.ip, v.now, n, evicting);
      TakeStep(c, held, v.ip, v.now, n, evicting);
      FollowsNext(c, held, TableAfter(c, before), v.ip, v.now, s);
    }
  }

  // ----- Each client from its own bucket -----

  function Own(visits: seq<Visit>, ip: Ip): seq<real> {
    if visits == [] then []
    else
      var rest, v := Own(visits[..|visits| - 1], ip), visits[|visits| - 1];
      if v.ip == ip then rest + [v.now] else rest
  }

  lemma {:induction false} OwnBucket(c: Config, visits: seq<Visit>, ip: Ip)
    ensures ip in TableAfter(c, visits) <==> Own(visits, ip) != []
    ensures ip in TableAfter(c, visits) ==>
              TableAfter(c, visits)[ip] == After(c, Fresh(c, Own(visits, ip)[0]), Own(visits, ip))
  {
    if visits != [] {
      var before, v := visits[..|visits| - 1], visits[|visits| - 1];
      OwnBucket(c, before, ip);
      var own := Own(before, ip);
      assert (own + [v.now])[..|own|] == own;
    }
  }

  lemma {:induction false} OwnGrows(visits: seq<Visit>, n: nat, ip: Ip)
    requires n <= |visits|
    ensures Own(visits[..n], ip) <= Own(visits, ip)
  {
    if n < |visits| {
      OwnGrows(visits[..|visits| - 1], n, ip);
      assert visits[..|visits| - 1][..n] == visits[..n];
    } else {
      assert visits[..n] == visits;
    }
  }

  // The n-th request is the k-th of its client, and admitted as the k-th request of a bucket that only it uses.
  lemma {:induction false} AdmittedAsOwn(c: Config, visits: seq<Visit>, n: nat)
    requires n < |visits|
    ensures var own, k := Own(visits, visits[n].ip), |Own(visits[..n], visits[n].ip)|;
            && k < |own| && own[k] == visits[n].now
            && Admitted(c, visits, n) == Admits(c, own[0], own, k)
  {
    var ip, before := visits[n].ip, visits[..n];
    var k := |Own(before, ip)|;
    assert visits[..n + 1][..n] == before && visits[..n + 1][n] == visits[n];
    assert Own(visits[..n + 1], ip) == Own(before, ip) + [visits[n].now];
    OwnGrows(visits, n + 1, ip);
    OwnGrows(visits, n, ip);
    OwnBucket(c, before, ip);
    assert Own(visits, ip)[..k] == Own(before, ip);
  }

  // The requests of the client stamped within [from, to] that are admitted.
  function AdmittedWithin(c: Config, visits: seq<Visit>, ip: Ip, from: real, to: real): nat {
    if visits == [] then 0
    else
      var n: nat, v := |visits| - 1, visits[|visits| - 1];
      AdmittedWithin(c, visits[..n], ip, from, to)
      + if v.ip == ip && from <= v.now <= to && Admitted(c, visits, n) then 1 else 0
  }

  lemma {:induction false} AdmittedFromOwn(c: Config, visits: seq<Visit>, ip: Ip, from: real, to: real)
    ensures AdmittedWithin(c, visits, ip, from, to) ==
            if Own(visits, ip) == [] then 0
            else WindowAdmits(c, Fresh(c, Own(visits, ip)[0]), Own(visits, ip), from, to)
  {
    if visits != [] {
      var before, v := visits[..|visits| - 1], visits[|visits| - 1];
      AdmittedFromOwn(c, before, ip, from, to);
      OwnBucket(c, before, ip);
      if v.ip == ip {
        var own := Own(before, ip);
        WindowAdmitsSnoc(c, Fresh(c, Own(visits, ip)[0]), own, v.now, from, to);
        if own == [] {
          assert WindowAdmits(c, Fresh(c, v.now), [], from, to) == 0;
        }
      }
    }
  }

  // The window bound for requests that are handled one after the other.
  lemma {:induction false} HandledBound(c: Config, visits: seq<Visit>, ip: Ip, from: real, to: real)
    requires Valid(c) && from <= to
    ensures AdmittedWithin(c, visits, ip, from, to) as real <= c.limit + c.rate * (to - from)
  {
    AdmittedFromOwn(c, visits, ip, from, to);
    assert c.rate * (to - from) == Earned(c, to) - Earned(c, from);
    if Own(visits, ip) == [] {
      RateNonNegative(c);
      EarnedMonotone(c, from, to);
    } else {
      WindowBound(c, Fresh(c, Own(visits, ip)[0]), Own(visits, ip), from, to);
    }
  }
}
