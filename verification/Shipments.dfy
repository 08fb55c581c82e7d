// The shipment service as a protocol: every repository, cache and chain call is one atomic step, and calls of
// different requests and background goroutines interleave freely.
module Shipments {
  import opened Wrappers

  datatype Status = Pending | PickedUp | InTransit | AtHub | OutForDelivery | Delivered | Failed | Returned

  const VALID_TRANSITIONS: map<Status, set<Status>> := map[
    Pending := {PickedUp, Failed},
    PickedUp := {InTransit, Failed},
    InTransit := {AtHub, OutForDelivery, Failed},
    AtHub := {InTransit, OutForDelivery, Failed},
    OutForDelivery := {Delivered, Failed},
    Failed := {Returned}
  ]

  predicate IsValidTransition(from: Status, to: Status) {
    from in VALID_TRANSITIONS && to in VALID_TRANSITIONS[from]
  }

  // The statuses an update may set, by the one the shipment has.
  lemma {:induction false} TransitionsExactly(from: Status, to: Status)
    ensures IsValidTransition(from, to) <==>
            || (from == Pending && to == PickedUp)
            || (from == PickedUp && to == InTransit)
            || (from == InTransit && to == AtHub)
            || (from == AtHub && to == InTransit)
            || (from == InTransit && to == OutForDelivery)
            || (from == AtHub && to == OutForDelivery)
            || (from == OutForDelivery && to == Delivered)
            || (from != Delivered && from != Failed && from != Returned && to == Failed)
            || (from == Failed && to == Returned)
  {
  }

  type Id = nat
  type Time = int
  type CallId = nat

  // A row of the shipments table. details stands for the columns Create fills in once.
  datatype Shipment = Shipment(
    id: Id, details: nat, status: Status, deliveredAt: Option<Time>, txHash: Option<nat>)

  datatype EventRow = EventRow(eventId: Id, shipmentId: Id, status: Status)

  const CACHE_TTL: Time := 30

  // readAt is when the row was read from the repository, filledAt when it was put in the cache.
  datatype CacheEntry = CacheEntry(value: Shipment, readAt: Time, filledAt: Time)

  // Where a call in flight stands, with the values it holds.
  datatype Call =
    | Created(s: Shipment)                   // Create's goroutine, waiting for the chain
    | Anchored(s: Shipment)                  // ... about to save the row with its hash
    | Checked(s: Shipment, to: Status)       // UpdateStatus: row read, transition valid
    | Logged(s: Shipment, event: EventRow)   // ... event stored, about to save the changed row
    | Saved(event: EventRow)                 // ... row saved, about to drop the cache entry
    | Relogging(event: EventRow)             // UpdateStatus' goroutine
    | Missed(id: Id)                         // GetByID: not in the cache
    | Found(s: Shipment, readAt: Time)       // ... row read, about to fill the cache and return

  datatype State = State(
    now: Time, rows: map<Id, Shipment>, events: seq<EventRow>, cache: map<Id, CacheEntry>, calls: map<CallId, Call>)

  function Init(): State {
    State(0, map[], [], map[], map[])
  }

  // ok: the call reported success. applied: the store took the change. A failed call may or may not be applied.
  datatype Outcome = Outcome(ok: bool, applied: bool)

  predicate Possible(o: Outcome) {
    o.ok ==> o.applied
  }

  datatype Action =
    | Tick(elapsed: nat)
    | Create(call: CallId, id: Id, details: nat, outcome: Outcome)
    | ChainAnswer(call: CallId, hash: Option<nat>)
    | SaveAnchor(call: CallId, outcome: Outcome)
    | BeginUpdate(call: CallId, id: Id, to: Status)
    | LogEvent(call: CallId, eventId: Id, outcome: Outcome)
    | SaveUpdate(call: CallId, outcome: Outcome)
    | Invalidate(call: CallId, outcome: Outcome)
    | Relog(call: CallId, anchored: bool)
    | GetHit(id: Id)
    | GetMiss(call: CallId, id: Id)
    | ReadRow(call: CallId, ok: bool)
    | FillCache(call: CallId, outcome: Outcome)
    | Forget(id: Id)

  function EventIds(events: seq<EventRow>): set<Id> {
    set e | e in events :: e.eventId
  }

  // The insert on the primary key: a second row with the same id is refused.
  function InsertEvent(events: seq<EventRow>, e: EventRow): seq<EventRow> {
    if e.eventId in EventIds(events) then events else events + [e]
  }

  function Stamp(s: Shipment, to: Status, now: Time): Shipment {
    if to == Delivered then s.(status := to, deliveredAt := Some(now)) else s.(status := to)
  }

  predicate Enabled(st: State, a: Action) {
    match a
    case Tick(_) => true
    case Create(call, id, _, o) => call !in st.calls && id !in st.rows && Possible(o)
    case ChainAnswer(call, _) => call in st.calls && st.calls[call].Created?
    case SaveAnchor(call, o) => call in st.calls && st.calls[call].Anchored? && Possible(o)
    case BeginUpdate(call, id, to) =>
      call !in st.calls && id in st.rows && IsValidTransition(st.rows[id].status, to)
    case LogEvent(call, eventId, o) =>
      call in st.calls && st.calls[call].Checked? && eventId !in EventIds(st.events) && Possible(o)
    case SaveUpdate(call, o) => call in st.calls && st.calls[call].Logged? && Possible(o)
    case Invalidate(call, o) => call in st.calls && st.calls[call].Saved? && Possible(o)
    case Relog(call, _) => call in st.calls && st.calls[call].Relogging?
    case GetHit(id) => id in st.cache && st.now < st.cache[id].filledAt + CACHE_TTL
    case GetMiss(call, _) => call !in st.calls
    case ReadRow(call, _) => call in st.calls && st.calls[call].Missed?
    case FillCache(call, o) => call in st.calls && st.calls[call].Found? && Possible(o)
    case Forget(_) => true
  }

  function Goto(st: State, call: CallId, next: Call): State {
    st.(calls := st.calls[call := next])
  }

  function Finish(st: State, call: CallId): State {
    st.(calls := st.calls - {call})
  }

  // Save writes the whole row back.
  function Write(st: State, s: Shipment, o: Outcome): State {
    if o.applied then st.(rows := st.rows[s.id := s]) else st
  }

  function Do(st: State, a: Action): State
    requires Enabled(st, a)
  {
    match a
    case Tick(elapsed) => st.(now := st.now + elapsed)
    case Create(call, id, details, o) =>
      var s := Shipment(id, details, Pending, None, None);
      var stored := Write(st, s, o);
      if o.ok then Goto(stored, call, Created(s)) else stored
    case ChainAnswer(call, hash) =>
      (match hash
       case Some(h) => Goto(st, call, Anchored(st.calls[call].s.(txHash := Some(h))))
       case None => Finish(st, call))
    case SaveAnchor(call, o) => Finish(Write(st, st.calls[call].s, o), call)
    case BeginUpdate(call, id, to) => Goto(st, call, Checked(st.rows[id], to))
    case LogEvent(call, eventId, o) =>
      var s, to := st.calls[call].s, st.calls[call].to;
      var e := EventRow(eventId, s.id, to);
      var stored := if o.applied then st.(events := InsertEvent(st.events, e)) else st;
      if o.ok then Goto(stored, call, Logged(Stamp(s, to, st.now), e)) else Finish(stored, call)
    case SaveUpdate(call, o) =>
      var stored := Write(st, st.calls[call].s, o);
      if o.ok then Goto(stored, call, Saved(st.calls[call].event)) else Finish(stored, call)
    case Invalidate(call, o) =>
      var e := st.calls[call].event;
      Goto(if o.applied then st.(cache := st.cache - {e.shipmentId}) else st, call, Relogging(e))
    case Relog(call, anchored) =>
      Finish(if anchored then st.(events := InsertEvent(st.events, st.calls[call].event)) else st, call)
    case GetHit(_) => st
    case GetMiss(call, id) => Goto(st, call, Missed(id))
    case ReadRow(call, ok) =>
      var id := st.calls[call].id;
      if ok && id in st.rows then Goto(st, call, Found(st.rows[id], st.now)) else Finish(st, call)
    case FillCache(call, o) =>
      var s, readAt := st.calls[call].s, st.calls[call].readAt;
      Finish(if o.applied then st.(cache := st.cache[s.id := CacheEntry(s, readAt, st.now)]) else st, call)
    case Forget(id) => st.(cache := st.cache - {id})
  }

  // A run: one action between each state and the next.
  ghost predicate IsRun(states: seq<State>, actions: seq<Action>) {
    && |states| == |actions| + 1
    && states[0] == Init()
    && forall k :: 0 <= k < |actions| ==> Enabled(states[k], actions[k]) && states[k + 1] == Do(states[k], actions[k])
  }
}
