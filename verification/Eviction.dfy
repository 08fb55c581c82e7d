// Many clients, their bucket cells, and the background evictor, with every step of both interleaved.
module Eviction {
  import opened TokenBucket

  type Ip = string

  // A bucket object. Besides the bucket it records, for the proofs only, whose it is, when it was made, the stamps of
  // the requests it has served in lock order, and when it was last served from (or made).
  datatype Cell = Cell(ip: Ip, bucket: Bucket, born: real, stamps: seq<real>, takenAt: real)

  // A request that has read the clock, and one that has found or made its bucket.
  datatype Call = Stamped(ip: Ip, stamp: real) | Holding(ip: Ip, stamp: real, cell: nat)

  // doomed are the evictor's findings not yet acted on: clients whose bucket it has seen to be stale.
  datatype State = State(
    clock: real, table: map<Ip, nat>, cells: seq<Cell>, calls: map<nat, Call>, doomed: map<nat, Ip>)

  datatype Op =
    | Stamp(call: nat, ip: Ip, now: real)   // a request reads the clock
    | LookUp(call: nat)                     // ... finds its bucket in the table or puts a full one there
    | Take(call: nat, now: real)            // ... refills and takes under the bucket's lock
    | Look(look: nat, ip: Ip, now: real)    // the evictor judges a bucket under its lock
    | Delete(look: nat)                     // ... and, the lock released, deletes whatever the table has for the client

  function Init(): State {
    State(0.0, map[], [], map[], map[])
  }

  predicate Stale(c: Config, b: Bucket, now: real) {
    now - b.lastSeen > 5.0 * c.window
  }

  predicate Enabled(s: State, op: Op) {
    match op
    case Stamp(call, _, now) => call !in s.calls && s.clock <= now
    case LookUp(call) => call in s.calls && s.calls[call].Stamped?
    case Take(call, now) =>
      call in s.calls && s.calls[call].Holding? && s.calls[call].cell < |s.cells| && s.clock <= now
    case Look(look, ip, now) => look !in s.doomed && ip in s.table && s.table[ip] < |s.cells| && s.clock <= now
    case Delete(look) => look in s.doomed
  }

  function Serve(c: Config, s: State, op: Op): Decision
    requires op.Take? && Enabled(s, op)
  {
    Decide(c, s.cells[s.calls[op.call].cell].bucket, s.calls[op.call].stamp)
  }

  // One step. A step that is not possible does nothing. Without eviction the evictor's steps do nothing but pass time.
  function Do(c: Config, s: State, op: Op, evicting: bool): State {
    if (op.Look? || op.Delete?) && !evicting then
      (if op.Look? && s.clock <= op.now then s.(clock := op.now) else s)
    else if !Enabled(s, op) then
      (if op.Look? && s.clock <= op.now then s.(clock := op.now) else s)
    else
      match op
      case Stamp(call, ip, now) => s.(clock := now, calls := s.calls[call := Stamped(ip, now)])
      case LookUp(call) =>
        var ip, stamp := s.calls[call].ip, s.calls[call].stamp;
        if ip in s.table then s.(calls := s.calls[call := Holding(ip, stamp, s.table[ip])])
        else s.(table := s.table[ip := |s.cells|],
                cells := s.cells + [Cell(ip, Fresh(c, stamp), stamp, [], stamp)],
                calls := s.calls[call := Holding(ip, stamp, |s.cells|)])
      case Take(call, now) =>
        var k, stamp := s.calls[call].cell, s.calls[call].stamp;
        var cell := s.cells[k];
        s.(clock := now,
           cells := s.cells[k := Cell(cell.ip, Serve(c, s, op).bucket, cell.born, cell.stamps + [stamp], now)],
           calls := s.calls - {call})
      case Look(look, ip, now) =>
        s.(clock := now,
           doomed := if Stale(c, s.cells[s.table[ip]].bucket, now) then s.doomed[look := ip] else s.doomed)
      case Delete(look) => s.(table := s.table - {s.doomed[look]}, doomed := s.doomed - {look})
  }

  // The evictor finds exactly the buckets idle for more than five windows, and its deletion takes the entry away.
  lemma {:induction false} EvictorSteps(c: Config, s: State, look: nat, ip: Ip, now: real)
    requires Enabled(s, Look(look, ip, now))
    ensures var found := Do(c, s, Look(look, ip, now), true);
            && (look in found.doomed <==> now - s.cells[s.table[ip]].bucket.lastSeen > 5.0 * c.window)
            && (look in found.doomed ==> found.doomed[look] == ip && ip !in Do(c, found, Delete(look), true).table)
  {
  }

  function Final(c: Config, ops: seq<Op>, evicting: bool): State {
    if ops == [] then Init() else Do(c, Final(c, ops[..|ops| - 1], evicting), ops[|ops| - 1], evicting)
  }

  // The answers to the requests, in the order they were served.
  function Answers(c: Config, ops: seq<Op>, evicting: bool): seq<bool> {
    if ops == [] then []
    else
      var before, op := ops[..|ops| - 1], ops[|ops| - 1];
      var s := Final(c, before, evicting);
      Answers(c, before, evicting) + if op.Take? && Enabled(s, op) then [Serve(c, s, op).admitted] else []
  }

  // Whether the step admits a request of the client stamped within [from, to].
  predicate Counts(c: Config, s: State, op: Op, ip: Ip, from: real, to: real) {
    && op.Take? && Enabled(s, op)
    && s.calls[op.call].ip == ip && from <= s.calls[op.call].stamp <= to
    && Serve(c, s, op).admitted
  }

  function Admissions(c: Config, ops: seq<Op>, evicting: bool, ip: Ip, from: real, to: real): nat {
    if ops == [] then 0
    else
      var before, op := ops[..|ops| - 1], ops[|ops| - 1];
      Admissions(c, before, evicting, ip, from, to)
      + if Counts(c, Final(c, before, evicting), op, ip, from, to) then 1 else 0
  }

  // How often the client's entry is taken out of the table.
  function Deletions(c: Config, ops: seq<Op>, ip: Ip): nat {
    if ops == [] then 0
    else
      var before, op := ops[..|ops| - 1], ops[|ops| - 1];
      var s := Final(c, before, true);
      Deletions(c, before, ip)
      + if op.Delete? && Enabled(s, op) && s.doomed[op.look] == ip && ip in s.table then 1 else 0
  }

  // ----- What every interleaving keeps -----

  ghost predicate WellFormed(c: Config, s: State) {
    && (forall ip :: ip in s.table ==> s.table[ip] < |s.cells| && s.cells[s.table[ip]].ip == ip)
    && (forall k :: k in s.calls && s.calls[k].Holding? ==>
          s.calls[k].cell < |s.cells| && s.cells[s.calls[k].cell].ip == s.calls[k].ip)
    && (forall k :: k in s.calls ==> s.calls[k].stamp <= s.clock)
    && (forall r :: 0 <= r < |s.cells| ==> s.cells[r].bucket == After(c, Fresh(c, s.cells[r].born), s.cells[r].stamps))
  }

  lemma {:induction false} TakeWellFormed(c: Config, s: State, op: Op, evicting: bool)
    requires WellFormed(c, s) && op.Take? && Enabled(s, op)
    ensures WellFormed(c, Do(c, s, op, evicting))
  {
    var cell := s.cells[s.calls[op.call].cell];
    assert (cell.stamps + [s.calls[op.call].stamp])[..|cell.stamps|] == cell.stamps;
  }

  lemma {:induction false} LookUpWellFormed(c: Config, s: State, op: Op, evicting: bool)
    requires WellFormed(c, s) && op.LookUp? && Enabled(s, op)
    ensures WellFormed(c, Do(c, s, op, evicting))
  {
  }

  lemma {:induction false} DoWellFormed(c: Config, s: State, op: Op, evicting: bool)
    requires WellFormed(c, s)
    ensures WellFormed(c, Do(c, s, op, evicting))
  {
    if op.Take? && Enabled(s, op) {
      TakeWellFormed(c, s, op, evicting);
    } else if op.LookUp? && Enabled(s, op) {
      LookUpWellFormed(c, s, op, evicting);
    }
  }

  lemma {:induction false} FinalWellFormed(c: Config, ops: seq<Op>, evicting: bool)
    ensures WellFormed(c, Final(c, ops, evicting))
  {
    if ops != [] {
      FinalWellFormed(c, ops[..|ops| - 1], evicting);
      DoWellFormed(c, Final(c, ops[..|ops| - 1], evicting), ops[|ops| - 1], evicting);
    }
  }

  // What the client's cells have admitted between them, and how many there are.
  function CellAdmits(c: Config, cell: Cell, from: real, to: real): nat {
    WindowAdmits(c, Fresh(c, cell.born), cell.stamps, from, to)
  }

  function OwnAdmits(c: Config, cells: seq<Cell>, ip: Ip, from: real, to: real): nat {
    if cells == [] then 0
    else
      OwnAdmits(c, cells[..|cells| - 1], ip, from, to)
      + if cells[|cells| - 1].ip == ip then CellAdmits(c, cells[|cells| - 1], from, to) else 0
  }

  function OwnCells(cells: seq<Cell>, ip: Ip): nat {
    if cells == [] then 0
    else OwnCells(cells[..|cells| - 1], ip) + if cells[|cells| - 1].ip == ip then 1 else 0
  }

  lemma {:induction false} OwnAdmitsUpdate(
    c: Config, cells: seq<Cell>, k: nat, cell: Cell, ip: Ip, from: real, to: real)
    requires k < |cells| && cell.ip == cells[k].ip
    ensures OwnAdmits(c, cells[k := cell], ip, from, to) ==
            OwnAdmits(c, cells, ip, from, to)
            + if cell.ip == ip then CellAdmits(c, cell, from, to) - CellAdmits(c, cells[k], from, to) else 0
    ensures OwnCells(cells[k := cell], ip) == OwnCells(cells, ip)
  {
    var last := |cells| - 1;
    if k < last {
      OwnAdmitsUpdate(c, cells[..last], k, cell, ip, from, to);
      assert cells[k := cell][..last] == cells[..last][k := cell];
    } else {
      assert cells[k := cell][..last] == cells[..last];
    }
  }

  lemma {:induction false} StepCountsOwn(
    c: Config, s: State, op: Op, evicting: bool, ip: Ip, from: real, to: real)
    requires WellFormed(c, s)
    ensures OwnAdmits(c, Do(c, s, op, evicting).cells, ip, from, to) ==
            OwnAdmits(c, s.cells, ip, from, to) + if Counts(c, s, op, ip, from, to) then 1 else 0
  {
    if op.Take? && Enabled(s, op) {
      var k := s.calls[op.call].cell;
      OwnAdmitsUpdate(c, s.cells, k, Do(c, s, op, evicting).cells[k], ip, from, to);
      WindowAdmitsSnoc(c, Fresh(c, s.cells[k].born), s.cells[k].stamps, s.calls[op.call].stamp, from, to);
    } else if op.LookUp? && Enabled(s, op) && s.calls[op.call].ip !in s.table {
      assert Do(c, s, op, evicting).cells[..|s.cells|] == s.cells;
    }
  }

  // Every admission of a client is an admission of one of its cells.
  lemma {:induction false} AdmissionsAreOwn(c: Config, ops: seq<Op>, evicting: bool, ip: Ip, from: real, to: real)
    ensures Admissions(c, ops, evicting, ip, from, to) == OwnAdmits(c, Final(c, ops, evicting).cells, ip, from, to)
  {
    if ops != [] {
      var before, op := ops[..|ops| - 1], ops[|ops| - 1];
      AdmissionsAreOwn(c, before, evicting, ip, from, to);
      FinalWellFormed(c, before, evicting);
      StepCountsOwn(c, Final(c, before, evicting), op, evicting, ip, from, to);
    }
  }

  lemma {:induction false} StepCells(c: Config, s: State, op: Op, evicting: bool, ip: Ip)
    requires WellFormed(c, s)
    ensures var next := Do(c, s, op, evicting);
            OwnCells(next.cells, ip) + (if ip in next.table then 0 else 1) ==
            OwnCells(s.cells, ip) + (if ip in s.table then 0 else 1)
            + if evicting && op.Delete? && Enabled(s, op) && s.doomed[op.look] == ip && ip in s.table then 1 else 0
  {
    if op.Take? && Enabled(s, op) {
      var k := s.calls[op.call].cell;
      OwnAdmitsUpdate(c, s.cells, k, Do(c, s, op, evicting).cells[k], ip, 0.0, 0.0);
    } else if op.LookUp? && Enabled(s, op) && s.calls[op.call].ip !in s.table {
      assert Do(c, s, op, evicting).cells[..|s.cells|] == s.cells;
    }
  }

  // A client has one cell to begin with and one more for every deletion of its entry.
  lemma {:induction false} CellsPerDeletion(c: Config, ops: seq<Op>, evicting: bool, ip: Ip)
    ensures OwnCells(Final(c, ops, evicting).cells, ip) + (if ip in Final(c, ops, evicting).table then 0 else 1)
            == 1 + if evicting then Deletions(c, ops, ip) else 0
  {
    if ops != [] {
      var before, op := ops[..|ops| - 1], ops[|ops| - 1];
      CellsPerDeletion(c, before, evicting, ip);
      FinalWellFormed(c, before, evicting);
      StepCells(c, Final(c, before, evicting), op, evicting, ip);
    }
  }

  // The window budget of one bucket.
  function Allowance(c: Config, from: real, to: real): real {
    c.limit + Earned(c, to) - Earned(c, from)
  }

  function Times(n: nat, x: real): real {
    if n == 0 then 0.0 else Times(n - 1, x) + x
  }

  lemma {:induction false} TimesIsProduct(n: nat, x: real)
    ensures Times(n, x) == n as real * x
  {
    if n > 0 {
      TimesIsProduct(n - 1, x);
      assert n as real * x == (n - 1) as real * x + x;
    }
  }

  lemma {:induction false} TimesGrows(m: nat, n: nat, x: real)
    requires m <= n && x >= 0.0
    ensures Times(m, x) <= Times(n, x)
  {
    if m < n {
      TimesGrows(m, n - 1, x);
    }
  }

  lemma {:induction false} OwnAdmitsBound(c: Config, cells: seq<Cell>, ip: Ip, from: real, to: real)
    requires Valid(c) && from <= to
    ensures OwnAdmits(c, cells, ip, from, to) as real <= Times(OwnCells(cells, ip), Allowance(c, from, to))
  {
    if cells != [] {
      var rest, cell := cells[..|cells| - 1], cells[|cells| - 1];
      OwnAdmitsBound(c, rest, ip, from, to);
      WindowBound(c, Fresh(c, cell.born), cell.stamps, from, to);
    }
  }

  lemma {:induction false} AllowanceNonNegative(c: Config, from: real, to: real)
    requires Valid(c) && from <= to
    ensures Allowance(c, from, to) >= 0.0
  {
    RateNonNegative(c);
    EarnedMonotone(c, from, to);
  }

  lemma {:induction false} CellsBound(c: Config, ops: seq<Op>, evicting: bool, ip: Ip, from: real, to: real, n: nat)
    requires Valid(c) && from <= to
    requires n == 1 + if evicting then Deletions(c, ops, ip) else 0
    ensures Admissions(c, ops, evicting, ip, from, to) as real <= Times(n, Allowance(c, from, to))
  {
    var own := OwnCells(Final(c, ops, evicting).cells, ip);
    CellsPerDeletion(c, ops, evicting, ip);
    AdmissionsAreOwn(c, ops, evicting, ip, from, to);
    OwnAdmitsBound(c, Final(c, ops, evicting).cells, ip, from, to);
    AllowanceNonNegative(c, from, to);
    TimesGrows(own, n, Allowance(c, from, to));
  }

  lemma {:induction false} CellsBoundProduct(c: Config, ops: seq<Op>, ip: Ip, from: real, to: real, n: nat)
    requires Valid(c) && from <= to && n == 1 + Deletions(c, ops, ip)
    ensures Admissions(c, ops, true, ip, from, to) as real <= n as real * Allowance(c, from, to)
  {
    CellsBound(c, ops, true, ip, from, to, n);
    TimesIsProduct(n, Allowance(c, from, to));
  }

  // Whatever interleaving: a client gets at most limit + rate * (to - from) admissions in the window for each bucket
  // it has had, and it has had at most one more than its entry was deleted.
  lemma {:induction false} EveryInterleavingBound(c: Config, ops: seq<Op>, ip: Ip, from: real, to: real)
    requires Valid(c) && from <= to
    ensures Admissions(c, ops, true, ip, from, to) as real
            <= (1 + Deletions(c, ops, ip)) as real * Allowance(c, from, to)
  {
    CellsBoundProduct(c, ops, ip, from, to, 1 + Deletions(c, ops, ip));
  }

  lemma {:induction false} KeptBound(c: Config, ops: seq<Op>, ip: Ip, from: real, to: real)
    requires Valid(c) && from <= to
    ensures Admissions(c, ops, false, ip, from, to) as real <= Allowance(c, from, to)
  {
    CellsBound(c, ops, false, ip, from, to, 1);
  }

  // ----- When evictions change no answer -----

  // The client has been found stale and the finding is not yet acted on.
  ghost predicate Doomed(s: State, ip: Ip) {
    exists k :: k in s.doomed && s.doomed[k] == ip
  }

  ghost predicate InFlight(s: State, ip: Ip) {
    exists k :: k in s.calls && s.calls[k].ip == ip
  }

  // A step that keeps evictor and client apart: the client does nothing between a finding and its deletion, no
  // deletion falls into one of its requests, a bucket is made for the earliest stamp in flight, and a request is
  // served within four windows of its stamp.
  ghost predicate Orderly(c: Config, s: State, op: Op) {
    match op
    case Stamp(_, ip, _) => !Doomed(s, ip)
    case LookUp(call) =>
      call in s.calls ==>
        && !Doomed(s, s.calls[call].ip)
        && (s.calls[call].ip !in s.table ==>
              forall k :: k in s.calls && s.calls[k].ip == s.calls[call].ip ==> s.calls[call].stamp <= s.calls[k].stamp)
    case Take(call, now) =>
      call in s.calls ==> !Doomed(s, s.calls[call].ip) && now - s.calls[call].stamp <= 4.0 * c.window
    case Look(_, _, _) => true
    case Delete(look) => look in s.doomed ==> !InFlight(s, s.doomed[look])
  }

  ghost predicate OrderlyRun(c: Config, ops: seq<Op>) {
    ops == [] ||
    (OrderlyRun(c, ops[..|ops| - 1]) && Orderly(c, Final(c, ops[..|ops| - 1], true), ops[|ops| - 1]))
  }

  // A request stamped x would find the bucket refilled to the limit.
  ghost predicate FullAt(c: Config, b: Bucket, x: real) {
    Potential(c, b) + Earned(c, x) >= c.limit
  }

  // So would every request of the client in flight or still to come.
  ghost predicate Full(c: Config, s: State, b: Bucket, ip: Ip) {
    && FullAt(c, b, s.clock)
    && forall k :: k in s.calls && s.calls[k].ip == ip ==> FullAt(c, b, s.calls[k].stamp)
  }

  lemma {:induction false} FullLater(c: Config, b: Bucket, x: real, y: real)
    requires Valid(c) && FullAt(c, b, x) && x <= y
    ensures FullAt(c, b, y)
  {
    RateNonNegative(c);
    EarnedMonotone(c, x, y);
  }

  lemma {:induction false} FullDecides(c: Config, b: Bucket, x: real)
    requires FullAt(c, b, x)
    ensures Decide(c, b, x) == Decide(c, Fresh(c, x), x)
  {
    RefillEarned(c, b, x);
    RefillEarned(c, Fresh(c, x), x);
  }

  // What service within four windows keeps of a bucket.
  ghost predicate Sound(c: Config, cell: Cell, clock: real) {
    && Potential(c, cell.bucket) + Earned(c, cell.takenAt) >= 0.0
    && cell.takenAt - cell.bucket.lastSeen <= 4.0 * c.window
    && cell.takenAt <= clock
  }

  // A sound bucket judged stale has refilled: every later request finds it as good as new.
  lemma {:induction false} StaleIsFull(c: Config, cell: Cell, now: real)
    requires Valid(c) && Sound(c, cell, now) && Stale(c, cell.bucket, now)
    ensures forall x :: now <= x ==> FullAt(c, cell.bucket, x)
  {
    RateNonNegative(c);
    EarnedMonotone(c, cell.takenAt + c.window, now);
    assert Earned(c, cell.takenAt + c.window) == Earned(c, cell.takenAt) + c.rate * c.window;
    forall x | now <= x ensures FullAt(c, cell.bucket, x) {
      FullLater(c, cell.bucket, now, x);
    }
  }

  ghost predicate SameCall(a: Call, b: Call) {
    a.ip == b.ip && a.stamp == b.stamp && (a.Holding? <==> b.Holding?)
  }

  ghost predicate SameCalls(kept: State, swept: State) {
    && kept.clock == swept.clock && kept.calls.Keys == swept.calls.Keys
    && forall k :: k in swept.calls ==> SameCall(kept.calls[k], swept.calls[k])
  }

  // Calls hold the bucket the table has for their client.
  ghost predicate HoldsEntry(s: State) {
    forall k :: k in s.calls && s.calls[k].Holding? ==>
      s.calls[k].ip in s.table && s.calls[k].cell == s.table[s.calls[k].ip]
  }

  function Entry(s: State, ip: Ip): Bucket
    requires ip in s.table && s.table[ip] < |s.cells|
  {
    s.cells[s.table[ip]].bucket
  }

  // The client's entries decide alike, or the swept table has none and the kept one is full.
  ghost predicate Matches(c: Config, kept: State, swept: State, ip: Ip)
    requires WellFormed(c, kept) && WellFormed(c, swept)
  {
    && (ip in swept.table ==>
          && ip in kept.table
          && (Entry(kept, ip) == Entry(swept, ip) ||
              (Full(c, kept, Entry(kept, ip), ip) && Full(c, swept, Entry(swept, ip), ip))))
    && (ip in kept.table ==>
          && Sound(c, kept.cells[kept.table[ip]], kept.clock)
          && (ip !in swept.table ==> Full(c, kept, Entry(kept, ip), ip))
          && (Doomed(swept, ip) ==> FullAt(c, Entry(kept, ip), kept.clock)))
  }

  ghost predicate Simulates(c: Config, kept: State, swept: State) {
    && WellFormed(c, kept) && WellFormed(c, swept)
    && SameCalls(kept, swept) && HoldsEntry(kept) && HoldsEntry(swept)
    && forall ip :: Matches(c, kept, swept, ip)
  }

  lemma {:induction false} InitSimulates(c: Config)
    ensures Simulates(c, Init(), Init())
  {
  }

  // The client's entry is as it was, and its calls are old ones or stamped since.
  ghost predicate Undisturbed(s: State, next: State, ip: Ip) {
    && s.clock <= next.clock
    && (ip in next.table <==> ip in s.table)
    && (ip in s.table && s.table[ip] < |s.cells| ==>
          next.table[ip] < |next.cells| && next.cells[next.table[ip]] == s.cells[s.table[ip]])
    && OldOrNew(s, next, ip)
  }

  ghost predicate OldOrNew(s: State, next: State, ip: Ip) {
    forall k :: k in next.calls && next.calls[k].ip == ip ==>
      next.calls[k].stamp >= s.clock ||
      (k in s.calls && s.calls[k].ip == ip && next.calls[k].stamp == s.calls[k].stamp)
  }

  // The steps that make, change or remove the client's entry.
  predicate Touches(s: State, op: Op, evicting: bool, ip: Ip) {
    Enabled(s, op) &&
    match op
    case LookUp(call) => s.calls[call].ip == ip && ip !in s.table
    case Take(call, _) => s.calls[call].ip == ip
    case Delete(look) => evicting && s.doomed[look] == ip
    case _ => false
  }

  lemma {:induction false} StepUndisturbed(c: Config, s: State, op: Op, evicting: bool, ip: Ip)
    requires WellFormed(c, s) && !Touches(s, op, evicting, ip)
    ensures Undisturbed(s, Do(c, s, op, evicting), ip)
  {
  }

  // Time passing keeps buckets full and sound.
  lemma {:induction false} MatchesStays(
    c: Config, kept: State, swept: State, kept': State, swept': State, ip: Ip)
    requires Valid(c) && Simulates(c, kept, swept)
    requires WellFormed(c, kept') && WellFormed(c, swept') && kept'.clock == swept'.clock
    requires Undisturbed(kept, kept', ip) && Undisturbed(swept, swept', ip)
    requires Doomed(swept', ip) && ip in kept.table ==>
               Doomed(swept, ip) || FullAt(c, Entry(kept, ip), kept'.clock)
    ensures Matches(c, kept', swept', ip)
  {
    assert Matches(c, kept, swept, ip);
    if ip in kept.table {
      FullStays(c, kept, kept', Entry(kept, ip), ip);
      if FullAt(c, Entry(kept, ip), kept.clock) {
        FullLater(c, Entry(kept, ip), kept.clock, kept'.clock);
      }
    }
    if ip in swept.table {
      FullStays(c, swept, swept', Entry(swept, ip), ip);
    }
  }

  lemma {:induction false} FullStays(c: Config, s: State, next: State, b: Bucket, ip: Ip)
    requires Valid(c) && s.clock <= next.clock && OldOrNew(s, next, ip)
    ensures Full(c, s, b, ip) ==> Full(c, next, b, ip)
  {
    if Full(c, s, b, ip) {
      FullLater(c, b, s.clock, next.clock);
      forall k | k in next.calls && next.calls[k].ip == ip ensures FullAt(c, b, next.calls[k].stamp) {
        if next.calls[k].stamp >= s.clock {
          FullLater(c, b, s.clock, next.calls[k].stamp);
        }
      }
    }
  }

  lemma {:induction false} MadeFull(
    c: Config, kept: State, swept: State, kept': State, swept': State, op: Op)
    requires Valid(c) && Simulates(c, kept, swept) && op.LookUp? && Orderly(c, swept, op) && Enabled(swept, op)
    requires kept' == Do(c, kept, op, false) && swept' == Do(c, swept, op, true)
    requires WellFormed(c, kept') && WellFormed(c, swept')
    requires swept.calls[op.call].ip !in swept.table
    ensures Matches(c, kept', swept', swept.calls[op.call].ip)
  {
    var ip, stamp := swept.calls[op.call].ip, swept.calls[op.call].stamp;
    assert SameCall(kept.calls[op.call], swept.calls[op.call]);
    assert Matches(c, kept, swept, ip);
    RateNonNegative(c);
    EarnedMonotone(c, stamp, swept.clock);
    forall k | k in swept'.calls && swept'.calls[k].ip == ip ensures FullAt(c, Fresh(c, stamp), swept'.calls[k].stamp) {
      EarnedMonotone(c, stamp, swept'.calls[k].stamp);
    }
    assert Full(c, swept', Fresh(c, stamp), ip);
    assert Entry(swept', ip) == Fresh(c, stamp);
    if ip in kept.table {
      FullStays(c, kept, kept', Entry(kept, ip), ip);
    }
  }

  // Both runs serve the request alike.
  lemma {:induction false} TakeAgrees(c: Config, kept: State, swept: State, op: Op)
    requires Simulates(c, kept, swept) && op.Take?
    ensures Enabled(kept, op) <==> Enabled(swept, op)
    ensures Enabled(swept, op) ==> Serve(c, kept, op) == Serve(c, swept, op)
  {
    if op.call in swept.calls {
      assert SameCall(kept.calls[op.call], swept.calls[op.call]);
      if Enabled(swept, op) {
        var ip, stamp := swept.calls[op.call].ip, swept.calls[op.call].stamp;
        assert Matches(c, kept, swept, ip);
        if Entry(kept, ip) != Entry(swept, ip) {
          FullDecides(c, Entry(kept, ip), stamp);
          FullDecides(c, Entry(swept, ip), stamp);
        }
      }
    }
  }

  lemma {:induction false} TakeSound(c: Config, cell: Cell, stamp: real, now: real, next: Cell)
    requires Valid(c) && Sound(c, cell, now) && stamp <= now && now - stamp <= 4.0 * c.window
    requires next.bucket == Decide(c, cell.bucket, stamp).bucket && next.takenAt == now
    ensures Sound(c, next, now)
  {
    RateNonNegative(c);
    RefillEarned(c, cell.bucket, stamp);
    EarnedMonotone(c, stamp, now);
    EarnedMonotone(c, cell.takenAt, now);
  }

  lemma {:induction false} SameEnabled(c: Config, kept: State, swept: State, op: Op)
    requires WellFormed(c, kept) && WellFormed(c, swept) && SameCalls(kept, swept)
    requires !op.Look? && !op.Delete?
    ensures Enabled(kept, op) <==> Enabled(swept, op)
  {
    if !op.Stamp? && op.call in swept.calls {
      assert SameCall(kept.calls[op.call], swept.calls[op.call]);
    }
  }

  // The calls of the two runs go through the same stages.
  lemma {:induction false} StepSameCalls(c: Config, kept: State, swept: State, op: Op)
    requires WellFormed(c, kept) && WellFormed(c, swept) && SameCalls(kept, swept)
    ensures SameCalls(Do(c, kept, op, false), Do(c, swept, op, true))
  {
    if !op.Look? && !op.Delete? {
      SameEnabled(c, kept, swept, op);
      if Enabled(swept, op) {
        RequestSameCalls(c, kept, swept, op);
      }
    }
  }

  lemma {:induction false} RequestSameCalls(c: Config, kept: State, swept: State, op: Op)
    requires SameCalls(kept, swept) && Enabled(kept, op) && Enabled(swept, op)
    requires !op.Look? && !op.Delete?
    ensures SameCalls(Do(c, kept, op, false), Do(c, swept, op, true))
  {
    match op
    case Stamp(_, _, _) =>
    case LookUp(call) =>
      assert SameCall(kept.calls[call], swept.calls[call]);
      var kept', swept' := Do(c, kept, op, false).calls[call], Do(c, swept, op, true).calls[call];
      assert SameCall(kept', swept');
      assert Do(c, kept, op, false).calls == kept.calls[call := kept'];
      assert Do(c, swept, op, true).calls == swept.calls[call := swept'];
    case Take(_, _) =>
  }

  lemma {:induction false} StepHoldsEntry(c: Config, s: State, op: Op, evicting: bool)
    requires WellFormed(c, s) && HoldsEntry(s)
    requires evicting && op.Delete? ==> Orderly(c, s, op)
    ensures HoldsEntry(Do(c, s, op, evicting))
  {
    var next := Do(c, s, op, evicting);
    forall k | k in next.calls && next.calls[k].Holding?
      ensures next.calls[k].ip in next.table && next.calls[k].cell == next.table[next.calls[k].ip]
    {
      if op.Delete? && evicting && Enabled(s, op) {
        assert s.calls[k].ip != s.doomed[op.look];
      }
    }
  }

  // A step that leaves the client alone in both runs.
  lemma {:induction false} BothUndisturbed(c: Config, kept: State, swept: State, op: Op, ip: Ip)
    requires Valid(c) && Simulates(c, kept, swept)
    requires !Touches(kept, op, false, ip) && !Touches(swept, op, true, ip)
    requires Doomed(Do(c, swept, op, true), ip) && ip in kept.table ==>
               Doomed(swept, ip) || FullAt(c, Entry(kept, ip), Do(c, kept, op, false).clock)
    ensures WellFormed(c, Do(c, kept, op, false)) && WellFormed(c, Do(c, swept, op, true))
    ensures Matches(c, Do(c, kept, op, false), Do(c, swept, op, true), ip)
  {
    DoWellFormed(c, kept, op, false);
    DoWellFormed(c, swept, op, true);
    StepUndisturbed(c, kept, op, false, ip);
    StepUndisturbed(c, swept, op, true, ip);
    StepSameCalls(c, kept, swept, op);
    MatchesStays(c, kept, swept, Do(c, kept, op, false), Do(c, swept, op, true), ip);
  }

  lemma {:induction false} StampMatches(c: Config, kept: State, swept: State, op: Op, ip: Ip)
    requires Valid(c) && Simulates(c, kept, swept) && op.Stamp?
    requires WellFormed(c, Do(c, kept, op, false)) && WellFormed(c, Do(c, swept, op, true))
    ensures Matches(c, Do(c, kept, op, false), Do(c, swept, op, true), ip)
  {
    BothUndisturbed(c, kept, swept, op, ip);
  }

  lemma {:induction false} FoundFull(c: Config, kept: State, swept: State, op: Op)
    requires Valid(c) && Simulates(c, kept, swept) && op.Look? && Enabled(swept, op)
    requires Stale(c, Entry(swept, op.ip), op.now)
    ensures op.ip in kept.table && FullAt(c, Entry(kept, op.ip), op.now)
  {
    assert Matches(c, kept, swept, op.ip);
    var cell := kept.cells[kept.table[op.ip]];
    if cell.bucket == Entry(swept, op.ip) {
      StaleIsFull(c, cell, op.now);
    } else {
      FullLater(c, cell.bucket, kept.clock, op.now);
    }
  }

  lemma {:induction false} LookMatches(c: Config, kept: State, swept: State, op: Op, ip: Ip)
    requires Valid(c) && Simulates(c, kept, swept) && op.Look?
    requires WellFormed(c, Do(c, kept, op, false)) && WellFormed(c, Do(c, swept, op, true))
    ensures Matches(c, Do(c, kept, op, false), Do(c, swept, op, true), ip)
  {
    var swept' := Do(c, swept, op, true);
    if Doomed(swept', ip) && !Doomed(swept, ip) {
      var k :| k in swept'.doomed && swept'.doomed[k] == ip;
      assert k == op.look && ip == op.ip;
      FoundFull(c, kept, swept, op);
    }
    BothUndisturbed(c, kept, swept, op, ip);
  }

  lemma {:induction false} DeleteMatches(c: Config, kept: State, swept: State, op: Op, ip: Ip)
    requires Valid(c) && Simulates(c, kept, swept) && op.Delete? && Orderly(c, swept, op)
    requires WellFormed(c, Do(c, kept, op, false)) && WellFormed(c, Do(c, swept, op, true))
    ensures Matches(c, Do(c, kept, op, false), Do(c, swept, op, true), ip)
  {
    assert Matches(c, kept, swept, ip);
    if Enabled(swept, op) && ip == swept.doomed[op.look] {
      forall k | k in kept.calls ensures kept.calls[k].ip != ip {
        assert SameCall(kept.calls[k], swept.calls[k]);
      }
    } else {
      BothUndisturbed(c, kept, swept, op, ip);
    }
  }

  lemma {:induction false} LookUpMatches(c: Config, kept: State, swept: State, op: Op, ip: Ip)
    requires Valid(c) && Simulates(c, kept, swept) && op.LookUp? && Orderly(c, swept, op)
    requires WellFormed(c, Do(c, kept, op, false)) && WellFormed(c, Do(c, swept, op, true))
    ensures Matches(c, Do(c, kept, op, false), Do(c, swept, op, true), ip)
  {
    var kept', swept' := Do(c, kept, op, false), Do(c, swept, op, true);
    if op.call in swept.calls {
      assert SameCall(kept.calls[op.call], swept.calls[op.call]);
    }
    assert Matches(c, kept, swept, ip);
    if Enabled(swept, op) && ip == swept.calls[op.call].ip && ip !in swept.table {
      MadeFull(c, kept, swept, kept', swept', op);
    } else {
      BothUndisturbed(c, kept, swept, op, ip);
    }
  }

  lemma {:induction false} TakeMatches(c: Config, kept: State, swept: State, op: Op, ip: Ip)
    requires Valid(c) && Simulates(c, kept, swept) && op.Take? && Orderly(c, swept, op)
    requires WellFormed(c, Do(c, kept, op, false)) && WellFormed(c, Do(c, swept, op, true))
    ensures Matches(c, Do(c, kept, op, false), Do(c, swept, op, true), ip)
  {
    var kept', swept' := Do(c, kept, op, false), Do(c, swept, op, true);
    TakeAgrees(c, kept, swept, op);
    assert Matches(c, kept, swept, ip);
    if Enabled(swept, op) && ip == swept.calls[op.call].ip {
      assert SameCall(kept.calls[op.call], swept.calls[op.call]);
      assert kept.calls[op.call].stamp <= kept.clock;
      TakeSound(c, kept.cells[kept.table[ip]], swept.calls[op.call].stamp, op.now, kept'.cells[kept'.table[ip]]);
    } else {
      BothUndisturbed(c, kept, swept, op, ip);
    }
  }

  lemma {:induction false} StepSimulates(c: Config, kept: State, swept: State, op: Op)
    requires Valid(c) && Simulates(c, kept, swept) && Orderly(c, swept, op)
    ensures Simulates(c, Do(c, kept, op, false), Do(c, swept, op, true))
  {
    DoWellFormed(c, kept, op, false);
    DoWellFormed(c, swept, op, true);
    StepSameCalls(c, kept, swept, op);
    StepHoldsEntry(c, kept, op, false);
    StepHoldsEntry(c, swept, op, true);
    forall ip ensures Matches(c, Do(c, kept, op, false), Do(c, swept, op, true), ip) {
      match op
      case Stamp(_, _, _) => StampMatches(c, kept, swept, op, ip);
      case LookUp(_) => LookUpMatches(c, kept, swept, op, ip);
      case Take(_, _) => TakeMatches(c, kept, swept, op, ip);
      case Look(_, _, _) => LookMatches(c, kept, swept, op, ip);
      case Delete(_) => DeleteMatches(c, kept, swept, op, ip);
    }
  }

  lemma {:induction false} RunSimulates(c: Config, ops: seq<Op>)
    requires Valid(c) && OrderlyRun(c, ops)
    ensures Simulates(c, Final(c, ops, false), Final(c, ops, true))
  {
    if ops == [] {
      InitSimulates(c);
    } else {
      var before := ops[..|ops| - 1];
      RunSimulates(c, before);
      StepSimulates(c, Final(c, before, false), Final(c, before, true), ops[|ops| - 1]);
    }
  }

  // Eviction transparency: in every orderly run no request of any client is answered differently because of
  // evictions.
  lemma {:induction false} EvictionTransparent(c: Config, ops: seq<Op>)
    requires Valid(c) && OrderlyRun(c, ops)
    ensures Answers(c, ops, true) == Answers(c, ops, false)
  {
    if ops != [] {
      var before, op := ops[..|ops| - 1], ops[|ops| - 1];
      EvictionTransparent(c, before);
      RunSimulates(c, before);
      if op.Take? {
        TakeAgrees(c, Final(c, before, false), Final(c, before, true), op);
      }
    }
  }

  // The promise of the limiter, kept in every orderly run: in any window of time a client gets at most
  // limit + rate * length admissions.
  lemma {:induction false} ClientWindowBound(c: Config, ops: seq<Op>, ip: Ip, from: real, to: real)
    requires Valid(c) && OrderlyRun(c, ops) && from <= to
    ensures Admissions(c, ops, true, ip, from, to) as real <= Allowance(c, from, to)
  {
    SameAdmissions(c, ops, ip, from, to);
    KeptBound(c, ops, ip, from, to);
  }

  lemma {:induction false} SameAdmissions(c: Config, ops: seq<Op>, ip: Ip, from: real, to: real)
    requires Valid(c) && OrderlyRun(c, ops)
    ensures Admissions(c, ops, true, ip, from, to) == Admissions(c, ops, false, ip, from, to)
  {
    if ops != [] {
      var before, op := ops[..|ops| - 1], ops[|ops| - 1];
      SameAdmissions(c, before, ip, from, to);
      RunSimulates(c, before);
      if op.Take? {
        TakeAgrees(c, Final(c, before, false), Final(c, before, true), op);
        if Enabled(Final(c, before, true), op) {
          assert SameCall(Final(c, before, false).calls[op.call], Final(c, before, true).calls[op.call]);
        }
      }
    }
  }
}
