// The service's methods as written, on the stores they update, when nothing interrupts them. Each is one particular
// run of the protocol, so what holds of every run holds of it.
module ShipmentService {
  import opened Wrappers
  import opened Shipments
  import opened ShipmentSafety

  datatype ServiceError =
    | NotFound | PersistShipment | InvalidTransition(from: Status, to: Status) | PersistEvent | UpdateShipment

  // ----- The runs -----

  function CreateRun(st: State, call: CallId, id: Id, details: nat, stored: Outcome): State
    requires Enabled(st, Create(call, id, details, stored))
  {
    Do(st, Create(call, id, details, stored))
  }

  function AnchorRun(st: State, call: CallId, hash: Option<nat>, saved: Outcome): State
    requires Enabled(st, ChainAnswer(call, hash)) && Possible(saved)
  {
    var answered := Do(st, ChainAnswer(call, hash));
    if hash.None? then answered else Do(answered, SaveAnchor(call, saved))
  }

  function UpdateRun(
    st: State, call: CallId, id: Id, to: Status, eventId: Id, logged: Outcome, saved: Outcome, dropped: Outcome): State
    requires Enabled(st, BeginUpdate(call, id, to)) && eventId !in EventIds(st.events)
    requires Possible(logged) && Possible(saved) && Possible(dropped)
  {
    var s1 := Do(st, BeginUpdate(call, id, to));
    var s2 := Do(s1, LogEvent(call, eventId, logged));
    if !logged.ok then s2 else
    var s3 := Do(s2, SaveUpdate(call, saved));
    if !saved.ok then s3 else
    Do(s3, Invalidate(call, dropped))
  }

  function GetRun(st: State, call: CallId, id: Id, readOk: bool, filled: Outcome): State
    requires call !in st.calls && Possible(filled)
  {
    var s1 := Do(st, GetMiss(call, id));
    var s2 := Do(s1, ReadRow(call, readOk));
    if !readOk || id !in st.rows then s2 else Do(s2, FillCache(call, filled))
  }

  // The state after Create's insert, store by store.
  lemma {:induction false} CreateRunStores(st: State, call: CallId, id: Id, details: nat, stored: Outcome)
    requires Enabled(st, Create(call, id, details, stored))
    ensures var row := Shipment(id, details, Pending, None, None);
            CreateRun(st, call, id, details, stored) == State(
              st.now,
              if stored.applied then st.rows[id := row] else st.rows,
              st.events, st.cache,
              if stored.ok then st.calls[call := Created(row)] else st.calls)
  {
  }

  // The state after Create's goroutine, store by store: with an answer from the chain the whole row it held is saved.
  lemma {:induction false} AnchorRunStores(st: State, call: CallId, hash: Option<nat>, saved: Outcome)
    requires Enabled(st, ChainAnswer(call, hash)) && Possible(saved)
    ensures var s := st.calls[call].s;
            AnchorRun(st, call, hash, saved) == State(
              st.now,
              if hash.Some? && saved.applied
              then st.rows[s.id := Shipment(s.id, s.details, s.status, s.deliveredAt, hash)] else st.rows,
              st.events, st.cache, st.calls - {call})
  {
    if hash.Some? {
      var s := st.calls[call].s;
      assert st.calls[call := Anchored(s.(txHash := hash))] - {call} == st.calls - {call};
    }
  }

  // The state after UpdateStatus' goroutine: the event is in the log already.
  lemma {:induction false} RelogStores(st: State, call: CallId, anchored: bool)
    requires Inv(st) && Enabled(st, Relog(call, anchored))
    ensures Do(st, Relog(call, anchored)) == State(st.now, st.rows, st.events, st.cache, st.calls - {call})
  {
    RelogIsNoOp(st, Relog(call, anchored));
  }

  lemma {:induction false} AnchorRunKeepsInv(st: State, call: CallId, hash: Option<nat>, saved: Outcome)
    requires Inv(st) && Enabled(st, ChainAnswer(call, hash)) && Possible(saved)
    ensures Inv(AnchorRun(st, call, hash, saved))
  {
    StepKeepsInv(st, ChainAnswer(call, hash));
    if hash.Some? {
      StepKeepsInv(Do(st, ChainAnswer(call, hash)), SaveAnchor(call, saved));
    }
  }

  lemma {:induction false} GetRunKeepsInv(st: State, call: CallId, id: Id, readOk: bool, filled: Outcome)
    requires Inv(st) && call !in st.calls && Possible(filled)
    ensures Inv(GetRun(st, call, id, readOk, filled))
  {
    StepKeepsInv(st, GetMiss(call, id));
    var s1 := Do(st, GetMiss(call, id));
    StepKeepsInv(s1, ReadRow(call, readOk));
    if readOk && id in st.rows {
      StepKeepsInv(Do(s1, ReadRow(call, readOk)), FillCache(call, filled));
    }
  }

  // The state the read run ends in: only the cache may have changed.
  lemma {:induction false} GetRunStores(st: State, call: CallId, id: Id, readOk: bool, filled: Outcome)
    requires Inv(st) && call !in st.calls && Possible(filled)
    ensures GetRun(st, call, id, readOk, filled) ==
            if readOk && id in st.rows && filled.applied
            then st.(cache := st.cache[id := CacheEntry(st.rows[id], st.now, st.now)]) else st
  {
    assert st.calls[call := Missed(id)] - {call} == st.calls;
    if readOk && id in st.rows {
      assert st.calls[call := Missed(id)][call := Found(st.rows[id], st.now)] - {call} == st.calls;
    }
  }

  lemma {:induction false} UpdateRunKeepsInv(
    st: State, call: CallId, id: Id, to: Status, eventId: Id, logged: Outcome, saved: Outcome, dropped: Outcome)
    requires Inv(st) && Enabled(st, BeginUpdate(call, id, to)) && eventId !in EventIds(st.events)
    requires Possible(logged) && Possible(saved) && Possible(dropped)
    ensures Inv(UpdateRun(st, call, id, to, eventId, logged, saved, dropped))
  {
    StepKeepsInv(st, BeginUpdate(call, id, to));
    var s1 := Do(st, BeginUpdate(call, id, to));
    StepKeepsInv(s1, LogEvent(call, eventId, logged));
    if logged.ok {
      var s2 := Do(s1, LogEvent(call, eventId, logged));
      StepKeepsInv(s2, SaveUpdate(call, saved));
      if saved.ok {
        StepKeepsInv(Do(s2, SaveUpdate(call, saved)), Invalidate(call, dropped));
      }
    }
  }

  // The state the update run ends in, store by store.
  lemma {:induction false} UpdateRunStores(
    st: State, call: CallId, id: Id, to: Status, eventId: Id, logged: Outcome, saved: Outcome, dropped: Outcome)
    requires Enabled(st, BeginUpdate(call, id, to)) && eventId !in EventIds(st.events) && st.rows[id].id == id
    requires Possible(logged) && Possible(saved) && Possible(dropped)
    ensures var e, s := EventRow(eventId, id, to), st.rows[id];
            var deliveredAt := if to == Delivered then Some(st.now) else s.deliveredAt;
            var changed := Shipment(id, s.details, to, deliveredAt, s.txHash);
            UpdateRun(st, call, id, to, eventId, logged, saved, dropped) == State(
              st.now,
              if logged.ok && saved.applied then st.rows[id := changed] else st.rows,
              if logged.applied then st.events + [e] else st.events,
              if logged.ok && saved.ok && dropped.applied then st.cache - {id} else st.cache,
              if logged.ok && saved.ok then st.calls[call := Relogging(e)] else st.calls)
  {
    var s, e := st.rows[id], EventRow(eventId, id, to);
    var s1 := Do(st, BeginUpdate(call, id, to));
    var s2 := Do(s1, LogEvent(call, eventId, logged));
    assert st.calls[call := Checked(s, to)] - {call} == st.calls;
    if logged.ok {
      assert s2.calls == st.calls[call := Logged(Stamp(s, to, st.now), e)];
      var s3 := Do(s2, SaveUpdate(call, saved));
      assert s2.calls - {call} == st.calls;
      if saved.ok {
        assert s3.calls[call := Relogging(e)] == st.calls[call := Relogging(e)];
      }
    }
  }

  // ----- The service -----

  class Service {
    var now: Time
    var rows: map<Id, Shipment>
    var events: seq<EventRow>
    var cache: map<Id, CacheEntry>
    var goroutines: map<CallId, Call>

    constructor ()
      ensures View() == Init() && Inv(View())
    {
      now, rows, events, cache, goroutines := 0, map[], [], map[], map[];
    }

    function View(): State
      reads this
    {
      State(now, rows, events, cache, goroutines)
    }

    // An insert or save of a row; stored says what came of it.
    method SaveRow(s: Shipment, stored: Outcome)
      modifies this`rows
      ensures rows == if stored.applied then old(rows)[s.id := s] else old(rows)
    {
      if stored.applied {
        rows := rows[s.id := s];
      }
    }

    method AddEvent(e: EventRow, stored: Outcome)
      modifies this`events
      ensures events == if stored.applied then InsertEvent(old(events), e) else old(events)
    {
      if stored.applied && e.eventId !in EventIds(events) {
        events := events + [e];
      }
    }

    // Create: the new row, then a goroutine to anchor it. id is the fresh identifier the service draws.
    method Create(call: CallId, id: Id, details: nat, stored: Outcome) returns (r: Result<Shipment, ServiceError>)
      requires Enabled(View(), Shipments.Action.Create(call, id, details, stored))
      requires Inv(View())
      modifies this
      ensures Inv(View())
      ensures View() == CreateRun(old(View()), call, id, details, stored)
      ensures r == if stored.ok then Ok(Shipment(id, details, Pending, None, None)) else Err(PersistShipment)
    {
      StepKeepsInv(View(), Shipments.Action.Create(call, id, details, stored));
      var shipment := Shipment(id, details, Pending, None, None);
      SaveRow(shipment, stored);
      if !stored.ok {
        return Err(PersistShipment);
      }
      goroutines := goroutines[call := Created(shipment)];
      return Ok(shipment);
    }

    // Create's goroutine.
    method AnchorCreated(call: CallId, hash: Option<nat>, saved: Outcome)
      requires Enabled(View(), ChainAnswer(call, hash)) && Possible(saved)
      requires Inv(View())
      modifies this
      ensures Inv(View())
      ensures View() == AnchorRun(old(View()), call, hash, saved)
    {
      AnchorRunKeepsInv(View(), call, hash, saved);
      var shipment := goroutines[call].s;
      goroutines := goroutines - {call};
      if hash.Some? {
        SaveRow(shipment.(txHash := hash), saved);
      }
      assert hash.Some? ==> old(goroutines)[call := Anchored(shipment.(txHash := hash))] - {call} == goroutines;
    }

    method GetByID(call: CallId, id: Id, cacheOk: bool, readOk: bool, filled: Outcome)
      returns (r: Result<Shipment, ServiceError>)
      requires call !in goroutines && Possible(filled)
      requires Inv(View())
      modifies this
      ensures Inv(View())
      ensures var hit := cacheOk && id in old(cache) && now - old(cache)[id].filledAt < 30;
              && (hit ==> r == Ok(old(cache)[id].value) && View() == old(View()))
              && (!hit ==>
                    && r == (if readOk && id in old(rows) then Ok(old(rows)[id]) else Err(NotFound))
                    && View() == GetRun(old(View()), call, id, readOk, filled))
    {
      GetRunKeepsInv(View(), call, id, readOk, filled);
      GetRunStores(View(), call, id, readOk, filled);
      if cacheOk && id in cache && now < cache[id].filledAt + CACHE_TTL {
        return Ok(cache[id].value);
      }
      if !readOk || id !in rows {
        return Err(NotFound);
      }
      var shipment := rows[id];
      if filled.applied {
        cache := cache[id := CacheEntry(shipment, now, now)];
      }
      return Ok(shipment);
    }

    method UpdateStatus(
      call: CallId, id: Id, to: Status, eventId: Id, readOk: bool, logged: Outcome, saved: Outcome, dropped: Outcome)
      returns (r: Result<Shipment, ServiceError>)
      requires call !in goroutines && eventId !in EventIds(events)
      requires Possible(logged) && Possible(saved) && Possible(dropped)
      requires Inv(View())
      modifies this
      ensures Inv(View())
      ensures !readOk || id !in old(rows) ==> r == Err(NotFound) && View() == old(View())
      ensures readOk && id in old(rows) && !IsValidTransition(old(rows)[id].status, to) ==>
                r == Err(InvalidTransition(old(rows)[id].status, to)) && View() == old(View())
      ensures readOk && id in old(rows) && IsValidTransition(old(rows)[id].status, to) ==>
                && View() == UpdateRun(old(View()), call, id, to, eventId, logged, saved, dropped)
                && r == if !logged.ok then Err(PersistEvent)
                        else if !saved.ok then Err(UpdateShipment)
                        else Ok(Stamp(old(rows)[id], to, now))
      ensures readOk && id in old(rows) && logged.ok && saved.ok ==>
                var from := old(rows)[id].status;
                r.Ok? <==>
                  || (from == Pending && to == PickedUp)
                  || (from == PickedUp && to == InTransit)
                  || (from == InTransit && to in {AtHub, OutForDelivery})
                  || (from == AtHub && to in {InTransit, OutForDelivery})
                  || (from == OutForDelivery && to == Delivered)
                  || (from !in {Delivered, Failed, Returned} && to == Failed)
                  || (from == Failed && to == Returned)
      ensures r.Ok? ==>
                && r.value.id == id && r.value.status == to && r.value.details == old(rows)[id].details
                && r.value.deliveredAt == if to == Delivered then Some(now) else old(rows)[id].deliveredAt
    {
      if !readOk || id !in rows {
        return Err(NotFound);
      }
      var shipment := rows[id];
      TransitionsExactly(shipment.status, to);
      if !IsValidTransition(shipment.status, to) {
        return Err(InvalidTransition(shipment.status, to));
      }
      UpdateRunKeepsInv(View(), call, id, to, eventId, logged, saved, dropped);
      UpdateRunStores(View(), call, id, to, eventId, logged, saved, dropped);
      var event := EventRow(eventId, shipment.id, to);
      AddEvent(event, logged);
      if !logged.ok {
        return Err(PersistEvent);
      }
      shipment := shipment.(status := to);
      if to == Delivered {
        shipment := shipment.(deliveredAt := Some(now));
      }
      SaveRow(shipment, saved);
      if !saved.ok {
        return Err(UpdateShipment);
      }
      if dropped.applied {
        cache := cache - {id};
      }
      goroutines := goroutines[call := Relogging(event)];
      return Ok(shipment);
    }

    // UpdateStatus' goroutine: after the chain call it inserts the event a second time.
    method AnchorEvent(call: CallId, anchored: bool)
      requires Enabled(View(), Relog(call, anchored))
      requires Inv(View())
      modifies this
      ensures Inv(View())
      ensures View() == Do(old(View()), Relog(call, anchored))
    {
      StepKeepsInv(View(), Relog(call, anchored));
      if anchored {
        AddEvent(goroutines[call].event, Outcome(true, true));
      }
      goroutines := goroutines - {call};
    }
  }
}
