// Interleavings in which an eviction gives a client more than its due, for every limit that admits anything at all.
module EvictionRaces {
  import opened TokenBucket
  import opened Eviction

  // The tokens a request of the client stamped t would find.
  function Available(c: Config, s: State, ip: Ip, t: real): real
    requires ip in s.table ==> s.table[ip] < |s.cells|
  {
    Refill(c, if ip in s.table then Entry(s, ip) else Fresh(c, t), t).tokens
  }

  // One more step, and what it adds to the counts.
  lemma {:induction false} Then(c: Config, ops: seq<Op>, op: Op, ip: Ip, t: real) returns (next: seq<Op>)
    ensures next == ops + [op]
    ensures Final(c, next, true) == Do(c, Final(c, ops, true), op, true)
    ensures Admissions(c, next, true, ip, t, t) ==
            Admissions(c, ops, true, ip, t, t) + if Counts(c, Final(c, ops, true), op, ip, t, t) then 1 else 0
    ensures Deletions(c, next, ip) ==
            Deletions(c, ops, ip)
            + if op.Delete? && Enabled(Final(c, ops, true), op) && Final(c, ops, true).doomed[op.look] == ip
                 && ip in Final(c, ops, true).table then 1 else 0
  {
    next := ops + [op];
    assert next[..|ops|] == ops;
  }

  function Request(ip: Ip, call: nat, t: real): seq<Op> {
    [Stamp(call, ip, t), LookUp(call), Take(call, t)]
  }

  // The three steps of an undisturbed request, state by state.
  lemma {:induction false} RequestSteps(c: Config, s: State, ip: Ip, call: nat, t: real)
    requires WellFormed(c, s) && s.clock <= t && call !in s.calls && Available(c, s, ip, t) >= 1.0
    ensures var held := Do(c, Do(c, s, Stamp(call, ip, t), true), LookUp(call), true);
            var next := Do(c, held, Take(call, t), true);
            && Enabled(held, Take(call, t)) && held.calls[call] == Holding(ip, t, held.table[ip])
            && Serve(c, held, Take(call, t)).admitted
            && next.clock == t && next.calls == s.calls && next.doomed == s.doomed
            && ip in next.table && next.table[ip] < |next.cells|
            && (ip in s.table ==> next.table == s.table)
            && Entry(next, ip) == Bucket(Available(c, s, ip, t) - 1.0, t)
  {
    var held := Do(c, Do(c, s, Stamp(call, ip, t), true), LookUp(call), true);
    assert held.calls == s.calls[call := Holding(ip, t, held.table[ip])];
    assert Entry(held, ip) == if ip in s.table then Entry(s, ip) else Fresh(c, t);
    assert s.calls[call := Holding(ip, t, held.table[ip])] - {call} == s.calls;
  }

  lemma {:induction false} RequestCounted(c: Config, ops: seq<Op>, ip: Ip, call: nat, t: real, now: real)
    requires Final(c, ops, true).clock <= t && call !in Final(c, ops, true).calls
    requires WellFormed(c, Final(c, ops, true)) && Available(c, Final(c, ops, true), ip, t) >= 1.0
    ensures var held := Do(c, Do(c, Final(c, ops, true), Stamp(call, ip, t), true), LookUp(call), true);
            Final(c, ops + Request(ip, call, t), true) == Do(c, held, Take(call, t), true)
    ensures Admissions(c, ops + Request(ip, call, t), true, ip, now, now) ==
            Admissions(c, ops, true, ip, now, now) + if t == now then 1 else 0
    ensures Deletions(c, ops + Request(ip, call, t), ip) == Deletions(c, ops, ip)
  {
    RequestSteps(c, Final(c, ops, true), ip, call, t);
    var ops1 := Then(c, ops, Stamp(call, ip, t), ip, now);
    var ops2 := Then(c, ops1, LookUp(call), ip, now);
    var ops3 := Then(c, ops2, Take(call, t), ip, now);
    assert ops3 == ops + Request(ip, call, t);
  }

  // One undisturbed request at time t.
  lemma {:induction false} RequestServed(c: Config, ops: seq<Op>, ip: Ip, call: nat, t: real, now: real)
    requires Valid(c) && Final(c, ops, true).clock <= t && call !in Final(c, ops, true).calls
    requires WellFormed(c, Final(c, ops, true)) && Available(c, Final(c, ops, true), ip, t) >= 1.0
    ensures var s, next := Final(c, ops, true), Final(c, ops + Request(ip, call, t), true);
            && WellFormed(c, next) && next.clock == t && next.calls == s.calls && next.doomed == s.doomed
            && ip in next.table && Entry(next, ip) == Bucket(Available(c, s, ip, t) - 1.0, t)
            && (ip in s.table ==> next.table == s.table)
    ensures Admissions(c, ops + Request(ip, call, t), true, ip, now, now) ==
            Admissions(c, ops, true, ip, now, now) + if t == now then 1 else 0
    ensures Deletions(c, ops + Request(ip, call, t), ip) == Deletions(c, ops, ip)
  {
    RequestSteps(c, Final(c, ops, true), ip, call, t);
    RequestCounted(c, ops, ip, call, t, now);
    FinalWellFormed(c, ops + Request(ip, call, t), true);
  }

  // n requests, one after the other, all at time t.
  function Burst(ip: Ip, call: nat, t: real, n: nat): seq<Op> {
    if n == 0 then [] else Burst(ip, call, t, n - 1) + Request(ip, call, t)
  }

  lemma {:induction false} SameTimeRefill(c: Config, b: Bucket, t: real)
    requires b.lastSeen == t && b.tokens <= c.limit
    ensures Refill(c, b, t) == b
  {
    RefillEarned(c, b, t);
  }

  // Between s and next, n requests of the client have been admitted at time t and nothing else has happened.
  ghost predicate Spent(c: Config, s: State, next: State, ip: Ip, t: real, n: nat)
    requires WellFormed(c, s) && WellFormed(c, next)
  {
    && s.clock <= next.clock <= t && next.calls == s.calls && next.doomed == s.doomed
    && (n > 0 ==> ip in next.table && next.clock == t && Entry(next, ip).lastSeen == t)
    && (ip in s.table ==> next.table == s.table)
    && Available(c, next, ip, t) == Available(c, s, ip, t) - n as real
  }

  lemma {:induction false} SpendOne(c: Config, s: State, mid: State, next: State, ip: Ip, t: real, n: nat)
    requires WellFormed(c, s) && WellFormed(c, mid) && WellFormed(c, next) && Spent(c, s, mid, ip, t, n)
    requires next.clock == t && next.calls == mid.calls && next.doomed == mid.doomed
    requires ip in next.table && Entry(next, ip) == Bucket(Available(c, mid, ip, t) - 1.0, t)
    requires ip in mid.table ==> next.table == mid.table
    ensures Spent(c, s, next, ip, t, n + 1)
  {
    SameTimeRefill(c, Entry(next, ip), t);
  }

  lemma {:induction false} OneMoreServed(
    c: Config, ops: seq<Op>, before: seq<Op>, all: seq<Op>, ip: Ip, call: nat, t: real, n: nat)
    requires Valid(c) && WellFormed(c, Final(c, ops, true)) && WellFormed(c, Final(c, before, true))
    requires Spent(c, Final(c, ops, true), Final(c, before, true), ip, t, n)
    requires call !in Final(c, ops, true).calls && Available(c, Final(c, ops, true), ip, t) >= n as real + 1.0
    requires all == before + Request(ip, call, t)
    ensures WellFormed(c, Final(c, all, true))
    ensures Spent(c, Final(c, ops, true), Final(c, all, true), ip, t, n + 1)
    ensures Admissions(c, all, true, ip, t, t) == Admissions(c, before, true, ip, t, t) + 1
    ensures Deletions(c, all, ip) == Deletions(c, before, ip)
  {
    RequestServed(c, before, ip, call, t, t);
    SpendOne(c, Final(c, ops, true), Final(c, before, true), Final(c, all, true), ip, t, n);
  }

  lemma {:induction false} NothingSpent(c: Config, s: State, ip: Ip, t: real)
    requires WellFormed(c, s) && s.clock <= t
    ensures Spent(c, s, s, ip, t, 0)
  {
  }

  lemma {:induction false} BurstServed(c: Config, ops: seq<Op>, ip: Ip, call: nat, t: real, n: nat, all: seq<Op>)
    requires Valid(c) && Final(c, ops, true).clock <= t && call !in Final(c, ops, true).calls
    requires WellFormed(c, Final(c, ops, true)) && Available(c, Final(c, ops, true), ip, t) >= n as real
    requires all == ops + Burst(ip, call, t, n)
    ensures WellFormed(c, Final(c, all, true)) && Spent(c, Final(c, ops, true), Final(c, all, true), ip, t, n)
    ensures Admissions(c, all, true, ip, t, t) == Admissions(c, ops, true, ip, t, t) + n
    ensures Deletions(c, all, ip) == Deletions(c, ops, ip)
  {
    if n == 0 {
      assert all == ops;
      NothingSpent(c, Final(c, ops, true), ip, t);
    } else {
      var before := ops + Burst(ip, call, t, n - 1);
      assert all == before + Request(ip, call, t);
      BurstServed(c, ops, ip, call, t, n - 1, before);
      OneMoreServed(c, ops, before, all, ip, call, t, n - 1);
    }
  }

  function IdleTime(c: Config): real {
    5.0 * c.window + 1.0
  }

  // A bucket last seen at 0 is full again after an idle time, and stale.
  lemma {:induction false} IdleRefills(c: Config, b: Bucket)
    requires Valid(c) && b.lastSeen == 0.0 && b.tokens >= 0.0
    ensures Refill(c, b, IdleTime(c)).tokens == c.limit && Stale(c, b, IdleTime(c)) && IdleTime(c) > 0.0
  {
    RateNonNegative(c);
    RefillEarned(c, b, IdleTime(c));
    assert Earned(c, IdleTime(c)) == 5.0 * (c.rate * c.window) + c.rate;
  }

  // A client's first request, at time 0, leaves a bucket that goes idle.
  lemma {:induction false} FirstRequest(c: Config, ip: Ip) returns (ops: seq<Op>)
    requires Valid(c) && c.limit >= 1.0
    ensures var s := Final(c, ops, true);
            && WellFormed(c, s) && s.clock == 0.0 && s.calls == map[] && s.doomed == map[]
            && ip in s.table && Entry(s, ip) == Bucket(c.limit - 1.0, 0.0)
    ensures Admissions(c, ops, true, ip, IdleTime(c), IdleTime(c)) == 0 && Deletions(c, ops, ip) == 0
  {
    RefillEarned(c, Fresh(c, 0.0), 0.0);
    assert Final(c, [], true) == Init();
    RequestServed(c, [], ip, 0, 0.0, IdleTime(c));
    ops := [] + Request(ip, 0, 0.0);
  }

  // A request holds the bucket that the evictor then looks at and deletes.
  lemma {:induction false} HeldThroughDelete(c: Config, s: State, ip: Ip, t: real)
    requires WellFormed(c, s) && s.clock <= t && s.calls == map[] && s.doomed == map[]
    requires ip in s.table && Stale(c, Entry(s, ip), t)
    ensures var held := Do(c, Do(c, s, Stamp(1, ip, t), true), LookUp(1), true);
            var found := Do(c, held, Look(0, ip, t), true);
            && held == s.(clock := t, calls := map[1 := Holding(ip, t, s.table[ip])])
            && found == held.(doomed := map[0 := ip])
            && Do(c, found, Delete(0), true) == held.(table := s.table - {ip})
  {
    var stamped := Do(c, s, Stamp(1, ip, t), true);
    assert stamped == s.(clock := t, calls := map[1 := Stamped(ip, t)]);
    var held := Do(c, stamped, LookUp(1), true);
    assert held.calls == map[1 := Holding(ip, t, s.table[ip])];
    assert map[0 := ip] - {0} == map[];
  }

  // The request is served from the bucket it holds.
  lemma {:induction false} TakeDeleted(c: Config, s: State, ip: Ip, t: real)
    requires s.clock <= t && ip !in s.table
    requires exists k: nat :: s.calls == map[1 := Holding(ip, t, k)] && k < |s.cells|
                              && Refill(c, s.cells[k].bucket, t).tokens >= 1.0
    ensures Counts(c, s, Take(1, t), ip, t, t)
    ensures var next := Do(c, s, Take(1, t), true);
            next.clock <= t && next.calls == map[] && ip !in next.table
  {
    var k: nat :| s.calls == map[1 := Holding(ip, t, k)] && k < |s.cells|;
    assert s.calls - {1} == map[];
  }

  // A request has hold of its bucket when the evictor looks at it and deletes it.
  lemma {:induction false} HeldAndDeleted(c: Config, ip: Ip) returns (ops: seq<Op>)
    requires Valid(c) && c.limit >= 1.0
    ensures var s, t := Final(c, ops, true), IdleTime(c);
            && s.clock <= t && ip !in s.table
            && exists k: nat :: s.calls == map[1 := Holding(ip, t, k)] && k < |s.cells|
                                && Refill(c, s.cells[k].bucket, t).tokens >= 1.0
    ensures Admissions(c, ops, true, ip, IdleTime(c), IdleTime(c)) == 0 && Deletions(c, ops, ip) == 1
  {
    var t := IdleTime(c);
    ops := FirstRequest(c, ip);
    var first := Final(c, ops, true);
    IdleRefills(c, Entry(first, ip));
    HeldThroughDelete(c, first, ip, t);
    ops := Then(c, ops, Stamp(1, ip, t), ip, t);
    ops := Then(c, ops, LookUp(1), ip, t);
    ops := Then(c, ops, Look(0, ip, t), ip, t);
    ops := Then(c, ops, Delete(0), ip, t);
  }

  // The deletion falls between a request's lookup and its update: that request is served from the old bucket, and
  // floor(limit) more at the same instant from a new one.
  lemma {:induction false} DeleteDuringRequest(c: Config, ip: Ip) returns (ops: seq<Op>)
    requires Valid(c) && c.limit >= 1.0
    ensures Admissions(c, ops, true, ip, IdleTime(c), IdleTime(c)) == c.limit.Floor + 1 && Deletions(c, ops, ip) == 1
  {
    var t := IdleTime(c);
    ops := HeldAndDeleted(c, ip);
    TakeDeleted(c, Final(c, ops, true), ip, t);
    ops := Then(c, ops, Take(1, t), ip, t);
    FinalWellFormed(c, ops, true);
    BurstFromNothing(c, ops, ip, t);
    ops := ops + Burst(ip, 2, t, c.limit.Floor);
  }

  // With no entry in the table a burst gets the whole limit.
  lemma {:induction false} BurstFromNothing(c: Config, ops: seq<Op>, ip: Ip, t: real)
    requires Valid(c) && c.limit >= 1.0 && WellFormed(c, Final(c, ops, true))
    requires var s := Final(c, ops, true); s.clock <= t && 2 !in s.calls && ip !in s.table
    ensures Admissions(c, ops + Burst(ip, 2, t, c.limit.Floor), true, ip, t, t) ==
            Admissions(c, ops, true, ip, t, t) + c.limit.Floor
    ensures Deletions(c, ops + Burst(ip, 2, t, c.limit.Floor), ip) == Deletions(c, ops, ip)
  {
    RefillEarned(c, Fresh(c, t), t);
    BurstServed(c, ops, ip, 2, t, c.limit.Floor, ops + Burst(ip, 2, t, c.limit.Floor));
  }

  // A whole request falls between the evictor's look and its deletion, lookup and update undisturbed: the bucket that
  // is deleted is no longer the idle one.
  lemma {:induction false} RequestDuringCheck(c: Config, ip: Ip) returns (ops: seq<Op>)
    requires Valid(c) && c.limit >= 1.0
    ensures Admissions(c, ops, true, ip, IdleTime(c), IdleTime(c)) == c.limit.Floor + 1 && Deletions(c, ops, ip) == 1
  {
    var t := IdleTime(c);
    ops := FirstRequest(c, ip);
    IdleRefills(c, Entry(Final(c, ops, true), ip));
    var first := Final(c, ops, true);
    ops := Then(c, ops, Look(0, ip, t), ip, t);
    assert Final(c, ops, true) == first.(clock := t, doomed := map[0 := ip]);
    FinalWellFormed(c, ops, true);
    RequestServed(c, ops, ip, 1, t, t);
    ops := ops + Request(ip, 1, t);
    ops := Then(c, ops, Delete(0), ip, t);
    FinalWellFormed(c, ops, true);
    BurstFromNothing(c, ops, ip, t);
    ops := ops + Burst(ip, 2, t, c.limit.Floor);
  }

  // The bucket a late request was holding is emptied, set back in time by that request, found stale and deleted.
  lemma {:induction false} SetBack(c: Config, s: State, ip: Ip, t: real)
    requires Valid(c) && c.limit >= 1.0 && WellFormed(c, s) && t == IdleTime(c) == s.clock
    requires ip in s.table && s.calls == map[1 := Holding(ip, 0.0, s.table[ip])] && s.doomed == map[]
    requires Available(c, s, ip, t) < 1.0 && Entry(s, ip).lastSeen == t
    ensures var taken := Do(c, s, Take(1, t), true);
            var found := Do(c, taken, Look(0, ip, t), true);
            && !Serve(c, s, Take(1, t)).admitted
            && taken.table == s.table && taken.calls == map[] && taken.doomed == map[]
            && found == taken.(doomed := map[0 := ip])
            && Do(c, found, Delete(0), true) == taken.(table := s.table - {ip})
  {
    RateNonNegative(c);
    RefillEarned(c, Entry(s, ip), t);
    RefillEarned(c, Entry(s, ip), 0.0);
    EarnedMonotone(c, 0.0, t);
    assert map[1 := Holding(ip, 0.0, s.table[ip])] - {1} == map[];
    assert map[0 := ip] - {0} == map[];
  }

  // A late request takes hold of the bucket before it goes idle.
  lemma {:induction false} LateHolds(c: Config, s: State, ip: Ip)
    requires WellFormed(c, s) && s.clock == 0.0 && s.calls == map[] && ip in s.table
    ensures Do(c, Do(c, s, Stamp(1, ip, 0.0), true), LookUp(1), true)
            == s.(calls := map[1 := Holding(ip, 0.0, s.table[ip])])
  {
    assert Do(c, s, Stamp(1, ip, 0.0), true).calls == map[1 := Stamped(ip, 0.0)];
  }

  // A request is served five windows after its stamp, and sets the bucket's time back: a bucket just emptied is then
  // judged idle.
  lemma {:induction false} LateService(c: Config, ip: Ip) returns (ops: seq<Op>)
    requires Valid(c) && c.limit >= 1.0
    ensures Admissions(c, ops, true, ip, IdleTime(c), IdleTime(c)) == c.limit.Floor + 1 && Deletions(c, ops, ip) == 1
  {
    var t := IdleTime(c);
    ops := FirstRequest(c, ip);
    var first := Final(c, ops, true);
    IdleRefills(c, Entry(first, ip));
    LateHolds(c, first, ip);
    ops := Then(c, ops, Stamp(1, ip, 0.0), ip, t);
    ops := Then(c, ops, LookUp(1), ip, t);
    FinalWellFormed(c, ops, true);
    BurstServed(c, ops, ip, 2, t, c.limit.Floor, ops + Burst(ip, 2, t, c.limit.Floor));
    ops := ops + Burst(ip, 2, t, c.limit.Floor);
    ops := LateTail(c, ops, ip, t);
  }

  lemma {:induction false} LateTail(c: Config, before: seq<Op>, ip: Ip, t: real) returns (ops: seq<Op>)
    requires Valid(c) && c.limit >= 1.0 && WellFormed(c, Final(c, before, true))
    requires var s := Final(c, before, true);
             && t == IdleTime(c) == s.clock && ip in s.table && s.doomed == map[]
             && s.calls == map[1 := Holding(ip, 0.0, s.table[ip])]
             && Available(c, s, ip, t) < 1.0 && Entry(s, ip).lastSeen == t
    ensures Admissions(c, ops, true, ip, t, t) == Admissions(c, before, true, ip, t, t) + 1
    ensures Deletions(c, ops, ip) == Deletions(c, before, ip) + 1
  {
    SetBack(c, Final(c, before, true), ip, t);
    ops := Then(c, before, Take(1, t), ip, t);
    ops := Then(c, ops, Look(0, ip, t), ip, t);
    ops := Then(c, ops, Delete(0), ip, t);
    FinalWellFormed(c, ops, true);
    RefillEarned(c, Fresh(c, t), t);
    RequestServed(c, ops, ip, 2, t, t);
    ops := ops + Request(ip, 2, t);
  }

  // ----- Lookups out of order -----

  // One more step, and the answer it adds.
  lemma {:induction false} ThenAnswer(c: Config, ops: seq<Op>, op: Op, evicting: bool) returns (next: seq<Op>)
    ensures next == ops + [op]
    ensures Final(c, next, evicting) == Do(c, Final(c, ops, evicting), op, evicting)
    ensures var s := Final(c, ops, evicting);
            Answers(c, next, evicting) ==
            Answers(c, ops, evicting) + if op.Take? && Enabled(s, op) then [Serve(c, s, op).admitted] else []
  {
    next := ops + [op];
    assert next[..|ops|] == ops;
  }

  function Evict(c: Config, ip: Ip): seq<Op> {
    [Look(0, ip, IdleTime(c)), Delete(0)]
  }

  // A client's only bucket, and nothing going on.
  function Resting(ip: Ip, cell: Cell, clock: real): State {
    State(clock, map[ip := 0], [cell], map[], map[])
  }

  function IdleCell(c: Config, ip: Ip): Cell {
    Cell(ip, Bucket(c.limit - 1.0, 0.0), 0.0, [0.0], 0.0)
  }

  lemma {:induction false} FirstSteps(c: Config, ip: Ip, evicting: bool)
    requires Valid(c) && c.limit >= 1.0
    ensures var held := Do(c, Do(c, Init(), Stamp(0, ip, 0.0), evicting), LookUp(0), evicting);
            && Enabled(held, Take(0, 0.0)) && Serve(c, held, Take(0, 0.0)).admitted
            && Do(c, held, Take(0, 0.0), evicting) == Resting(ip, IdleCell(c, ip), 0.0)
  {
    var made := Cell(ip, Fresh(c, 0.0), 0.0, [], 0.0);
    RefillEarned(c, Fresh(c, 0.0), 0.0);
    var stamped := Do(c, Init(), Stamp(0, ip, 0.0), evicting);
    assert stamped == State(0.0, map[], [], map[0 := Stamped(ip, 0.0)], map[]);
    var held := Do(c, stamped, LookUp(0), evicting);
    assert held == State(0.0, map[ip := 0], [made], map[0 := Holding(ip, 0.0, 0)], map[]);
    assert Serve(c, held, Take(0, 0.0)) == Decision(IdleCell(c, ip).bucket, true);
    var next := Do(c, held, Take(0, 0.0), evicting);
    assert next.calls == map[];
    assert made.stamps + [0.0] == [0.0];
    assert next.cells == [IdleCell(c, ip)];
  }

  lemma {:induction false} FirstResting(c: Config, ip: Ip, evicting: bool)
    requires Valid(c) && c.limit >= 1.0
    ensures Final(c, Request(ip, 0, 0.0), evicting) == Resting(ip, IdleCell(c, ip), 0.0)
    ensures Answers(c, Request(ip, 0, 0.0), evicting) == [true]
  {
    FirstSteps(c, ip, evicting);
    assert Final(c, [], evicting) == Init();
    var ops := ThenAnswer(c, [], Stamp(0, ip, 0.0), evicting);
    ops := ThenAnswer(c, ops, LookUp(0), evicting);
    ops := ThenAnswer(c, ops, Take(0, 0.0), evicting);
    assert ops == Request(ip, 0, 0.0);
  }

  // The evictor takes the idle bucket out of the table.
  lemma {:induction false} IdleDeleted(c: Config, ip: Ip, ops: seq<Op>, evicting: bool)
    requires Valid(c) && Final(c, ops, evicting) == Resting(ip, IdleCell(c, ip), 0.0)
    ensures Answers(c, ops + Evict(c, ip), evicting) == Answers(c, ops, evicting)
    ensures var rested := Resting(ip, IdleCell(c, ip), IdleTime(c));
            Final(c, ops + Evict(c, ip), evicting) == if evicting then rested.(table := map[]) else rested
  {
    var rested := Resting(ip, IdleCell(c, ip), IdleTime(c));
    var looked := ThenAnswer(c, ops, Look(0, ip, IdleTime(c)), evicting);
    assert Final(c, looked, evicting) == if evicting then rested.(doomed := map[0 := ip]) else rested;
    var deleted := ThenAnswer(c, looked, Delete(0), evicting);
    assert map[0 := ip] - {0} == map[] && map[ip := 0] - {ip} == map[];
    assert deleted == ops + Evict(c, ip);
  }

  // Two requests stamped one window apart.
  function BothStamped(c: Config, s: State, ip: Ip, t: real): State {
    s.(clock := t + c.window, calls := map[1 := Stamped(ip, t), 2 := Stamped(ip, t + c.window)])
  }

  // Both hold the client's bucket: the old one, or one made for the later request.
  function BothHolding(c: Config, s: State, ip: Ip, t: real): State {
    var k := if ip in s.table then s.table[ip] else |s.cells|;
    State(t + c.window, s.table[ip := k],
          if ip in s.table then s.cells
          else s.cells + [Cell(ip, Fresh(c, t + c.window), t + c.window, [], t + c.window)],
          map[1 := Holding(ip, t, k), 2 := Holding(ip, t + c.window, k)], s.doomed)
  }

  lemma {:induction false} StampBoth(c: Config, ops: seq<Op>, ip: Ip, t: real, evicting: bool) returns (next: seq<Op>)
    requires c.window > 0.0 && Final(c, ops, evicting).clock <= t && Final(c, ops, evicting).calls == map[]
    ensures next == ops + [Stamp(1, ip, t)] + [Stamp(2, ip, t + c.window)]
    ensures Final(c, next, evicting) == BothStamped(c, Final(c, ops, evicting), ip, t)
    ensures Answers(c, next, evicting) == Answers(c, ops, evicting)
  {
    next := ThenAnswer(c, ops, Stamp(1, ip, t), evicting);
    assert Final(c, next, evicting) == Final(c, ops, evicting).(clock := t, calls := map[1 := Stamped(ip, t)]);
    next := ThenAnswer(c, next, Stamp(2, ip, t + c.window), evicting);
  }

  // The later request looks up first.
  lemma {:induction false} LookUpSteps(c: Config, s: State, ip: Ip, t: real, evicting: bool)
    ensures var looked := Do(c, BothStamped(c, s, ip, t), LookUp(2), evicting);
            Do(c, looked, LookUp(1), evicting) == BothHolding(c, s, ip, t)
  {
    var k := if ip in s.table then s.table[ip] else |s.cells|;
    var looked := Do(c, BothStamped(c, s, ip, t), LookUp(2), evicting);
    assert looked.calls == map[1 := Stamped(ip, t), 2 := Holding(ip, t + c.window, k)];
    assert looked.table == s.table[ip := k];
  }

  lemma {:induction false} LookUpBoth(c: Config, ops: seq<Op>, s: State, ip: Ip, t: real, evicting: bool)
    returns (next: seq<Op>)
    requires Final(c, ops, evicting) == BothStamped(c, s, ip, t)
    ensures next == ops + [LookUp(2)] + [LookUp(1)]
    ensures Final(c, next, evicting) == BothHolding(c, s, ip, t)
    ensures Answers(c, next, evicting) == Answers(c, ops, evicting)
  {
    LookUpSteps(c, s, ip, t, evicting);
    next := ThenAnswer(c, ops, LookUp(2), evicting);
    next := ThenAnswer(c, next, LookUp(1), evicting);
  }

  // The earlier request is served first.
  lemma {:induction false} TakeEarlier(c: Config, ops: seq<Op>, s: State, ip: Ip, t: real, evicting: bool)
    returns (next: seq<Op>)
    requires Final(c, ops, evicting) == BothHolding(c, s, ip, t) && (ip in s.table ==> s.table[ip] < |s.cells|)
    ensures next == ops + [Take(1, t + c.window)]
    ensures Answers(c, next, evicting) == Answers(c, ops, evicting)
              + [Decide(c, if ip in s.table then Entry(s, ip) else Fresh(c, t + c.window), t).admitted]
  {
    next := ThenAnswer(c, ops, Take(1, t + c.window), evicting);
  }

  // A bucket made one window after the request's stamp has nothing left at the stamp; the idle one is full.
  lemma {:induction false} MadeTooLate(c: Config, b: Bucket, t: real)
    requires Valid(c) && c.limit >= 1.0 && t == IdleTime(c) && b == Bucket(c.limit - 1.0, 0.0)
    ensures !Decide(c, Fresh(c, t + c.window), t).admitted && Decide(c, b, t).admitted
  {
    RefillEarned(c, Fresh(c, t + c.window), t);
    assert Earned(c, t) - Earned(c, t + c.window) == -(c.rate * c.window);
    IdleRefills(c, b);
  }

  function Turn(c: Config, ops: seq<Op>, ip: Ip, t: real): seq<Op> {
    ops + [Stamp(1, ip, t)] + [Stamp(2, ip, t + c.window)] + [LookUp(2)] + [LookUp(1)] + [Take(1, t + c.window)]
  }

  lemma {:induction false} TurnAnswers(c: Config, ops: seq<Op>, s: State, ip: Ip, t: real, evicting: bool)
    requires c.window > 0.0 && s == Final(c, ops, evicting) && s.clock <= t && s.calls == map[]
    requires ip in s.table ==> s.table[ip] < |s.cells|
    ensures Answers(c, Turn(c, ops, ip, t), evicting) == Answers(c, ops, evicting)
              + [Decide(c, if ip in s.table then Entry(s, ip) else Fresh(c, t + c.window), t).admitted]
  {
    var stamped := StampBoth(c, ops, ip, t, evicting);
    var held := LookUpBoth(c, stamped, s, ip, t, evicting);
    var taken := TakeEarlier(c, held, s, ip, t, evicting);
  }

  lemma {:induction false} OutOfOrderAnswers(c: Config, ip: Ip, idle: seq<Op>, evicting: bool)
    requires Valid(c) && c.limit >= 1.0 && idle == Request(ip, 0, 0.0) + Evict(c, ip)
    ensures Answers(c, Turn(c, idle, ip, IdleTime(c)), evicting) == [true, !evicting]
  {
    FirstResting(c, ip, evicting);
    IdleDeleted(c, ip, Request(ip, 0, 0.0), evicting);
    TurnAnswers(c, idle, Final(c, idle, evicting), ip, IdleTime(c), evicting);
    MadeTooLate(c, IdleCell(c, ip).bucket, IdleTime(c));
  }

  // A new bucket is made for the later of two stamps, and the earlier request, served first, finds nothing in it.
  lemma {:induction false} LookUpsOutOfOrder(c: Config, ip: Ip) returns (ops: seq<Op>)
    requires Valid(c) && c.limit >= 1.0
    ensures Answers(c, ops, true) == [true, false] && Answers(c, ops, false) == [true, true]
  {
    var idle := Request(ip, 0, 0.0) + Evict(c, ip);
    OutOfOrderAnswers(c, ip, idle, true);
    OutOfOrderAnswers(c, ip, idle, false);
    ops := Turn(c, idle, ip, IdleTime(c));
  }

  // ----- The limits that are safe -----

  lemma {:induction false} FinalSameCalls(c: Config, ops: seq<Op>)
    ensures WellFormed(c, Final(c, ops, false)) && WellFormed(c, Final(c, ops, true))
    ensures SameCalls(Final(c, ops, false), Final(c, ops, true))
  {
    FinalWellFormed(c, ops, false);
    FinalWellFormed(c, ops, true);
    if ops != [] {
      var before := ops[..|ops| - 1];
      FinalSameCalls(c, before);
      StepSameCalls(c, Final(c, before, false), Final(c, before, true), ops[|ops| - 1]);
    }
  }

  // The two runs answer the same requests, whatever they answer.
  lemma {:induction false} SameServices(c: Config, ops: seq<Op>, op: Op)
    requires op.Take?
    ensures Enabled(Final(c, ops, false), op) <==> Enabled(Final(c, ops, true), op)
    ensures Enabled(Final(c, ops, true), op) ==>
              SameCall(Final(c, ops, false).calls[op.call], Final(c, ops, true).calls[op.call])
  {
    FinalSameCalls(c, ops);
    SameEnabled(c, Final(c, ops, false), Final(c, ops, true), op);
  }

  lemma {:induction false} SameNumberOfAnswers(c: Config, ops: seq<Op>)
    ensures |Answers(c, ops, true)| == |Answers(c, ops, false)|
  {
    if ops != [] {
      var before, op := ops[..|ops| - 1], ops[|ops| - 1];
      SameNumberOfAnswers(c, before);
      if op.Take? {
        SameServices(c, before, op);
      }
    }
  }

  // Runs with the same answers admit the same requests.
  lemma {:induction false} AnswersTellAdmissions(c: Config, ops: seq<Op>, ip: Ip, from: real, to: real)
    requires Answers(c, ops, true) == Answers(c, ops, false)
    ensures Admissions(c, ops, true, ip, from, to) == Admissions(c, ops, false, ip, from, to)
  {
    if ops != [] {
      var before, op := ops[..|ops| - 1], ops[|ops| - 1];
      SameNumberOfAnswers(c, before);
      if op.Take? {
        SameServices(c, before, op);
      }
      var a, b := Answers(c, before, true), Answers(c, before, false);
      assert a == Answers(c, ops, true)[..|a|] && b == Answers(c, ops, false)[..|b|];
      if op.Take? && Enabled(Final(c, before, true), op) {
        assert Answers(c, ops, true)[|a|] == Serve(c, Final(c, before, true), op).admitted;
        assert Answers(c, ops, false)[|b|] == Serve(c, Final(c, before, false), op).admitted;
      }
      AnswersTellAdmissions(c, before, ip, from, to);
    }
  }

  lemma {:induction false} NothingAdmitted(c: Config, ops: seq<Op>, evicting: bool)
    requires c.limit < 1.0
    ensures forall k :: 0 <= k < |Answers(c, ops, evicting)| ==> !Answers(c, ops, evicting)[k]
  {
    if ops != [] {
      NothingAdmitted(c, ops[..|ops| - 1], evicting);
    }
  }

  ghost predicate AlwaysTransparent(c: Config) {
    forall ops :: Answers(c, ops, true) == Answers(c, ops, false)
  }

  // Every interleaving is transparent exactly when the limit admits nothing.
  lemma {:induction false} TransparentExactly(c: Config)
    requires Valid(c)
    ensures AlwaysTransparent(c) <==> c.limit < 1.0
  {
    if c.limit < 1.0 {
      forall ops ensures Answers(c, ops, true) == Answers(c, ops, false) {
        NothingAdmitted(c, ops, true);
        NothingAdmitted(c, ops, false);
        SameNumberOfAnswers(c, ops);
      }
    } else {
      var ip: Ip := "";
      var ops := DeleteDuringRequest(c, ip);
      KeptBound(c, ops, ip, IdleTime(c), IdleTime(c));
      if Answers(c, ops, true) == Answers(c, ops, false) {
        AnswersTellAdmissions(c, ops, ip, IdleTime(c), IdleTime(c));
        assert false;
      }
    }
  }
}
