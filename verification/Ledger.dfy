// The on-chain ledger: what a call does, and what every sequence of calls keeps.
module Ledger {
  import opened Wrappers

  // Solidity strings as their bytes; the length checks count bytes.
  type Str = seq<bv8>
  type Address = nat

  const ZERO_ADDRESS: Address := 0
  const MAX_ID_LEN := 36
  const MAX_STATUS_LEN := 64
  const MAX_STR_LEN := 256
  const MAX_EVENTS_PER_SHIPMENT := 200
  const UINT256: nat := 0x1_0000_0000_0000_0000_0000_0000_0000_0000_0000_0000_0000_0000_0000_0000_0000_0000

  datatype Entry = Entry(status: Str, notes: Str, recorder: Address, timestamp: nat)

  datatype State = State(
    log: map<Str, seq<Entry>>, totalEvents: nat, admins: set<Address>, recorders: set<Address>, paused: bool)

  datatype Error =
    | ZeroAdminAddress | MissingRole | IsPaused | IsNotPaused
    | InvalidShipmentIdLength | InvalidStatusLength | NotesTooLong | TooManyEventsForShipment | NoEvents

  // A transaction. RoleChange stands for the role functions the base contract offers besides grant and revoke.
  datatype Call =
    | RecordEvent(sender: Address, shipmentId: Str, status: Str, notes: Str, timestamp: nat)
    | GrantRecorder(sender: Address, account: Address)
    | RevokeRecorder(sender: Address, account: Address)
    | Pause(sender: Address)
    | Unpause(sender: Address)
    | RoleChange(admins: set<Address>, recorders: set<Address>)

  // A key never written reads as the empty array.
  function EventsOf(log: map<Str, seq<Entry>>, id: Str): seq<Entry> {
    if id in log then log[id] else []
  }

  function Deployed(admin: Address): Result<State, Error> {
    if admin == ZERO_ADDRESS then Err(ZeroAdminAddress) else Ok(State(map[], 0, {admin}, {admin}, false))
  }

  function Exec(st: State, call: Call): Result<State, Error> {
    match call
    case RecordEvent(sender, id, status, notes, timestamp) =>
      if sender !in st.recorders then Err(MissingRole)
      else if st.paused then Err(IsPaused)
      else if |id| == 0 || |id| > MAX_ID_LEN then Err(InvalidShipmentIdLength)
      else if |status| == 0 || |status| > MAX_STATUS_LEN then Err(InvalidStatusLength)
      else if |notes| > MAX_STR_LEN then Err(NotesTooLong)
      else if |EventsOf(st.log, id)| >= MAX_EVENTS_PER_SHIPMENT then Err(TooManyEventsForShipment)
      else Ok(st.(log := st.log[id := EventsOf(st.log, id) + [Entry(status, notes, sender, timestamp)]],
                  totalEvents := (st.totalEvents + 1) % UINT256))
    case GrantRecorder(sender, account) =>
      if sender !in st.admins then Err(MissingRole) else Ok(st.(recorders := st.recorders + {account}))
    case RevokeRecorder(sender, account) =>
      if sender !in st.admins then Err(MissingRole) else Ok(st.(recorders := st.recorders - {account}))
    case Pause(sender) =>
      if sender !in st.admins then Err(MissingRole) else if st.paused then Err(IsPaused)
      else Ok(st.(paused := true))
    case Unpause(sender) =>
      if sender !in st.admins then Err(MissingRole) else if !st.paused then Err(IsNotPaused)
      else Ok(st.(paused := false))
    case RoleChange(admins, recorders) => Ok(st.(admins := admins, recorders := recorders))
  }

  // ----- Which calls are accepted, and what they change -----

  // A recording is accepted exactly when every check passes.
  lemma {:induction false} AcceptedExactly(
    st: State, sender: Address, id: Str, status: Str, notes: Str, timestamp: nat)
    ensures Exec(st, RecordEvent(sender, id, status, notes, timestamp)).Ok? <==>
            && sender in st.recorders && !st.paused
            && 1 <= |id| <= 36 && 1 <= |status| <= 64 && |notes| <= 256
            && (id in st.log ==> |st.log[id]| < 200)
  {
  }

  // Each error is returned exactly when its own check is the first to fail.
  lemma {:induction false} RefusedExactly(
    st: State, sender: Address, id: Str, status: Str, notes: Str, timestamp: nat)
    ensures var r := Exec(st, RecordEvent(sender, id, status, notes, timestamp));
            var role, open := sender in st.recorders, !st.paused;
            var idFits, statusFits, notesFit := 1 <= |id| <= 36, 1 <= |status| <= 64, |notes| <= 256;
            && (r == Err(MissingRole) <==> !role)
            && (r == Err(IsPaused) <==> role && !open)
            && (r == Err(InvalidShipmentIdLength) <==> role && open && !idFits)
            && (r == Err(InvalidStatusLength) <==> role && open && idFits && !statusFits)
            && (r == Err(NotesTooLong) <==> role && open && idFits && statusFits && !notesFit)
            && (r == Err(TooManyEventsForShipment) <==>
                  role && open && idFits && statusFits && notesFit && id in st.log && |st.log[id]| >= 200)
  {
  }

  // An accepted recording appends one entry to one log and counts it; the roles and the pause stay.
  lemma {:induction false} RecordedExactly(
    st: State, sender: Address, id: Str, status: Str, notes: Str, timestamp: nat, other: Str)
    requires Exec(st, RecordEvent(sender, id, status, notes, timestamp)).Ok?
    ensures var next := Exec(st, RecordEvent(sender, id, status, notes, timestamp)).value;
            var max := 0xFFFF_FFFF_FFFF_FFFF_FFFF_FFFF_FFFF_FFFF_FFFF_FFFF_FFFF_FFFF_FFFF_FFFF_FFFF_FFFF;
            && id in next.log
            && next.log[id] == (if id in st.log then st.log[id] else []) + [Entry(status, notes, sender, timestamp)]
            && (other != id ==> (other in next.log <==> other in st.log))
            && (other != id && other in st.log ==> next.log[other] == st.log[other])
            && (st.totalEvents < max ==> next.totalEvents == st.totalEvents + 1)
            && (st.totalEvents == max ==> next.totalEvents == 0)
            && next.admins == st.admins && next.recorders == st.recorders && next.paused == st.paused
  {
  }

  // The address that deploys as admin is the first admin and the first recorder; the zero address is refused.
  lemma {:induction false} DeployedExactly(admin: Address)
    ensures Deployed(admin).Ok? <==> admin != 0
    ensures admin != 0 ==>
              var st := Deployed(admin).value;
              && st.log == map[] && st.totalEvents == 0 && !st.paused
              && (forall a :: a in st.admins <==> a == admin) && (forall a :: a in st.recorders <==> a == admin)
  {
  }

  // A call every check but the sender's role and the pause lets through.
  predicate Recordable(st: State, call: Call) {
    && call.RecordEvent? && 1 <= |call.shipmentId| <= 36 && 1 <= |call.status| <= 64 && |call.notes| <= 256
    && (call.shipmentId in st.log ==> |st.log[call.shipmentId]| < 200)
  }

  // A grant is accepted from admins only. After it the account can record, and nothing else has changed.
  lemma {:induction false} GrantWorks(st: State, sender: Address, account: Address, call: Call)
    ensures Exec(st, GrantRecorder(sender, account)) == Err(MissingRole) <==> sender !in st.admins
    ensures sender in st.admins ==> Exec(st, GrantRecorder(sender, account)).Ok?
    ensures sender in st.admins && Recordable(st, call) ==>
              var next := Exec(st, GrantRecorder(sender, account)).value;
              && (Exec(next, call).Ok? <==> !st.paused && (call.sender in st.recorders || call.sender == account))
              && next.log == st.log && next.totalEvents == st.totalEvents && next.admins == st.admins
              && next.paused == st.paused
  {
  }

  // A revocation is accepted from admins only. After it the account cannot record, and nothing else has changed.
  lemma {:induction false} RevokeWorks(st: State, sender: Address, account: Address, call: Call)
    ensures Exec(st, RevokeRecorder(sender, account)) == Err(MissingRole) <==> sender !in st.admins
    ensures sender in st.admins ==> Exec(st, RevokeRecorder(sender, account)).Ok?
    ensures sender in st.admins && Recordable(st, call) ==>
              var next := Exec(st, RevokeRecorder(sender, account)).value;
              && (Exec(next, call).Ok? <==> !st.paused && call.sender in st.recorders && call.sender != account)
              && next.log == st.log && next.totalEvents == st.totalEvents && next.admins == st.admins
              && next.paused == st.paused
  {
  }

  // Admins can pause once. Nobody can record while paused; unpausing gives back the state there was before.
  lemma {:induction false} PauseWorks(st: State, sender: Address, other: Address, call: Call)
    ensures Exec(st, Pause(sender)) == Err(MissingRole) <==> sender !in st.admins
    ensures Exec(st, Pause(sender)) == Err(IsPaused) <==> sender in st.admins && st.paused
    ensures Exec(st, Unpause(sender)) == Err(MissingRole) <==> sender !in st.admins
    ensures Exec(st, Unpause(sender)) == Err(IsNotPaused) <==> sender in st.admins && !st.paused
    ensures sender in st.admins && !st.paused ==>
              && Exec(st, Pause(sender)).Ok?
              && var held := Exec(st, Pause(sender)).value;
                 && (call.RecordEvent? ==> Exec(held, call).Err?)
                 && (other in st.admins ==> Exec(held, Unpause(other)) == Ok(st))
  {
  }

  // A reverted call leaves no trace.
  function Next(st: State, call: Call): State {
    match Exec(st, call) case Ok(next) => next case Err(_) => st
  }

  function Run(st: State, calls: seq<Call>): State {
    if calls == [] then st else Next(Run(st, calls[..|calls| - 1]), calls[|calls| - 1])
  }

  // ----- Counting entries -----

  ghost function SumLengths(log: map<Str, seq<Entry>>): nat
    decreases |log|
  {
    if log == map[] then 0
    else
      var id :| id in log;
      assert (log - {id}).Keys == log.Keys - {id};
      |log[id]| + SumLengths(log - {id})
  }

  lemma {:induction false} SumLengthsWithout(log: map<Str, seq<Entry>>, id: Str)
    requires id in log
    ensures SumLengths(log) == |log[id]| + SumLengths(log - {id})
    decreases |log|
  {
    var first :| first in log && SumLengths(log) == |log[first]| + SumLengths(log - {first});
    if first != id {
      assert (log - {first}).Keys == log.Keys - {first};
      assert (log - {id}).Keys == log.Keys - {id};
      SumLengthsWithout(log - {first}, id);
      SumLengthsWithout(log - {id}, first);
      assert log - {first} - {id} == log - {id} - {first};
    }
  }

  lemma {:induction false} SumLengthsUpdate(log: map<Str, seq<Entry>>, id: Str, entries: seq<Entry>)
    ensures SumLengths(log[id := entries]) == SumLengths(log) - |EventsOf(log, id)| + |entries|
  {
    var next := log[id := entries];
    SumLengthsWithout(next, id);
    if id in log {
      SumLengthsWithout(log, id);
      assert next - {id} == log - {id};
    } else {
      assert next - {id} == log;
    }
  }

  // ----- Invariant -----

  predicate EntryFits(e: Entry) {
    1 <= |e.status| <= MAX_STATUS_LEN && |e.notes| <= MAX_STR_LEN
  }

  // Entries in block order, none later than now.
  predicate Chronological(entries: seq<Entry>, now: nat) {
    && (forall k :: 0 <= k < |entries| ==> entries[k].timestamp <= now)
    && (forall k, l :: 0 <= k < l < |entries| ==> entries[k].timestamp <= entries[l].timestamp)
  }

  // A log as it may stand in storage under this key.
  ghost predicate LogFits(id: Str, entries: seq<Entry>, now: nat) {
    && 1 <= |id| <= MAX_ID_LEN
    && |entries| <= MAX_EVENTS_PER_SHIPMENT
    && Chronological(entries, now)
    && forall k :: 0 <= k < |entries| ==> EntryFits(entries[k])
  }

  ghost predicate Inv(st: State, now: nat) {
    && st.totalEvents == SumLengths(st.log) % UINT256
    && forall id :: id in st.log ==> LogFits(id, st.log[id], now)
  }

  function TimeAfter(call: Call, now: nat): nat {
    if call.RecordEvent? then call.timestamp else now
  }

  lemma {:induction false} WrapAdd(n: nat)
    ensures (n % UINT256 + 1) % UINT256 == (n + 1) % UINT256
  {
  }

  // An accepted recording: one more entry, one more on the counter.
  lemma {:induction false} RecordKeepsInv(st: State, call: Call, now: nat)
    requires Inv(st, now) && call.RecordEvent? && Exec(st, call).Ok? && now <= call.timestamp
    ensures Inv(Exec(st, call).value, call.timestamp)
  {
    var id, next := call.shipmentId, Exec(st, call).value;
    var entries := EventsOf(st.log, id) + [Entry(call.status, call.notes, call.sender, call.timestamp)];
    SumLengthsUpdate(st.log, id, entries);
    WrapAdd(SumLengths(st.log));
    assert LogFits(id, entries, call.timestamp);
    forall other | other in next.log ensures LogFits(other, next.log[other], call.timestamp) {
      if other != id {
        assert LogFits(other, st.log[other], now);
      }
    }
  }

  lemma {:induction false} NextKeepsInv(st: State, call: Call, now: nat)
    requires Inv(st, now) && now <= TimeAfter(call, now)
    ensures Inv(Next(st, call), TimeAfter(call, now))
  {
    if call.RecordEvent? && Exec(st, call).Ok? {
      RecordKeepsInv(st, call, now);
    } else {
      forall id | id in st.log ensures LogFits(id, st.log[id], TimeAfter(call, now)) {
        assert LogFits(id, st.log[id], now);
      }
    }
  }

  // Block times do not go back.
  ghost predicate Clocked(calls: seq<Call>) {
    forall k, l :: 0 <= k < l < |calls| && calls[k].RecordEvent? && calls[l].RecordEvent? ==>
      calls[k].timestamp <= calls[l].timestamp
  }

  function LatestTime(calls: seq<Call>): nat {
    if calls == [] then 0 else TimeAfter(calls[|calls| - 1], LatestTime(calls[..|calls| - 1]))
  }

  lemma {:induction false} LatestIsRecorded(calls: seq<Call>)
    ensures LatestTime(calls) == 0 ||
            exists k :: 0 <= k < |calls| && calls[k].RecordEvent? && calls[k].timestamp == LatestTime(calls)
  {
    if calls != [] {
      var before := calls[..|calls| - 1];
      LatestIsRecorded(before);
      if !calls[|calls| - 1].RecordEvent? && LatestTime(before) != 0 {
        var k :| 0 <= k < |before| && before[k].RecordEvent? && before[k].timestamp == LatestTime(before);
        assert calls[k] == before[k];
      }
    }
  }

  // Whatever is called in whatever order, the counter is the number of stored entries modulo 2^256, no log passes
  // 200 entries, every entry meets the length limits, and every log is in block order.
  lemma {:induction false} LedgerConservation(admin: Address, calls: seq<Call>)
    requires Deployed(admin).Ok? && Clocked(calls)
    ensures Inv(Run(Deployed(admin).value, calls), LatestTime(calls))
    ensures var st := Run(Deployed(admin).value, calls);
            && st.totalEvents == SumLengths(st.log)
                 % 0x1_0000_0000_0000_0000_0000_0000_0000_0000_0000_0000_0000_0000_0000_0000_0000_0000
            && forall id, k :: id in st.log && 0 <= k < |st.log[id]| ==>
                 && 1 <= |id| <= 36 && |st.log[id]| <= 200
                 && 1 <= |st.log[id][k].status| <= 64 && |st.log[id][k].notes| <= 256
  {
    if calls != [] {
      var before := calls[..|calls| - 1];
      LedgerConservation(admin, before);
      LatestIsRecorded(before);
      assert LatestTime(before) <= TimeAfter(calls[|calls| - 1], LatestTime(before));
      NextKeepsInv(Run(Deployed(admin).value, before), calls[|calls| - 1], LatestTime(before));
    }
  }

  // ----- Append-only -----

  lemma {:induction false} RunAppend(st: State, first: seq<Call>, more: seq<Call>)
    ensures Run(st, first + more) == Run(Run(st, first), more)
  {
    if more == [] {
      assert first + more == first;
    } else {
      assert (first + more)[..|first + more| - 1] == first + more[..|more| - 1];
      RunAppend(st, first, more[..|more| - 1]);
    }
  }

  lemma {:induction false} RunGrowsLogs(st: State, calls: seq<Call>, id: Str)
    ensures EventsOf(st.log, id) <= EventsOf(Run(st, calls).log, id)
  {
    if calls != [] {
      RunGrowsLogs(st, calls[..|calls| - 1], id);
    }
  }

  // What getEvents returned once is the beginning of what it returns ever after.
  lemma {:induction false} EarlierReadIsPrefix(st: State, first: seq<Call>, more: seq<Call>, id: Str)
    ensures EventsOf(Run(st, first).log, id) <= EventsOf(Run(st, first + more).log, id)
  {
    RunAppend(st, first, more);
    RunGrowsLogs(Run(st, first), more, id);
  }

  // ----- Provenance -----

  // The recordEvent calls for a shipment that were accepted, as entries.
  function Accepted(st: State, calls: seq<Call>, id: Str): seq<Entry> {
    if calls == [] then []
    else
      var before, c := calls[..|calls| - 1], calls[|calls| - 1];
      Accepted(st, before, id) +
      if c.RecordEvent? && c.shipmentId == id && Exec(Run(st, before), c).Ok?
      then [Entry(c.status, c.notes, c.sender, c.timestamp)] else []
  }

  lemma {:induction false} NextLog(st: State, c: Call, id: Str)
    ensures EventsOf(Next(st, c).log, id) == EventsOf(st.log, id) +
            if c.RecordEvent? && c.shipmentId == id && Exec(st, c).Ok?
            then [Entry(c.status, c.notes, c.sender, c.timestamp)] else []
  {
  }

  // A log is exactly the accepted recordings of its shipment, in call order.
  lemma {:induction false} LogIsAcceptedCalls(st: State, calls: seq<Call>, id: Str)
    ensures EventsOf(Run(st, calls).log, id) == EventsOf(st.log, id) + Accepted(st, calls, id)
  {
    if calls != [] {
      LogIsAcceptedCalls(st, calls[..|calls| - 1], id);
      NextLog(Run(st, calls[..|calls| - 1]), calls[|calls| - 1], id);
    }
  }

  // Every entry was put there by one accepted call, whose sender had the recorder role then, while not paused.
  lemma {:induction false} EntryProvenance(st: State, calls: seq<Call>, id: Str, k: nat) returns (n: nat)
    requires id !in st.log && k < |EventsOf(Run(st, calls).log, id)|
    ensures n < |calls| && calls[n].RecordEvent? && calls[n].shipmentId == id
    ensures var c, e := calls[n], EventsOf(Run(st, calls).log, id)[k];
            && e == Entry(c.status, c.notes, c.sender, c.timestamp)
            && c.sender in Run(st, calls[..n]).recorders && !Run(st, calls[..n]).paused
            && |EventsOf(Run(st, calls[..n]).log, id)| == k
  {
    var before := calls[..|calls| - 1];
    if k < |EventsOf(Run(st, before).log, id)| {
      n := EntryProvenance(st, before, id, k);
      assert calls[..n] == before[..n];
    } else {
      n := |calls| - 1;
    }
  }
}
