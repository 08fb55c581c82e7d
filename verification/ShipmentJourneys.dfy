// Every status is reached: a shipment can be taken from its creation to each of them, DELIVERED with its time.
module ShipmentJourneys {
  import opened Wrappers
  import opened Shipments
  import opened ShipmentSafety
  import opened ShipmentRaces
  import opened ShipmentService

  // A run that ends with nothing in flight.
  ghost predicate Settled(states: seq<State>, actions: seq<Action>) {
    IsRun(states, actions) && states[|states| - 1].calls == map[]
  }

  lemma {:induction false} OneMore(states: seq<State>, actions: seq<Action>, a: Action)
    returns (longer: seq<State>, more: seq<Action>)
    requires IsRun(states, actions) && Enabled(states[|states| - 1], a)
    ensures IsRun(longer, more) && longer[|longer| - 1] == Do(states[|states| - 1], a)
  {
    ExtendRun(states, actions, a, Do(states[|states| - 1], a));
    longer, more := states + [Do(states[|states| - 1], a)], actions + [a];
  }

  // Each step of an update by itself can be taken.
  lemma {:induction false} UpdateEnabled(st: State, id: Id, to: Status, eventId: Id)
    requires st.calls == map[] && id in st.rows && eventId !in EventIds(st.events)
    requires IsValidTransition(st.rows[id].status, to)
    ensures var s1 := Do(st, BeginUpdate(0, id, to));
            var s2 := Do(s1, LogEvent(0, eventId, DONE));
            var s3 := Do(s2, SaveUpdate(0, DONE));
            && Enabled(st, BeginUpdate(0, id, to)) && Enabled(s1, LogEvent(0, eventId, DONE))
            && Enabled(s2, SaveUpdate(0, DONE)) && Enabled(s3, Invalidate(0, DONE))
            && Do(s3, Invalidate(0, DONE)) == UpdateRun(st, 0, id, to, eventId, DONE, DONE, DONE)
  {
  }

  // A shipment of the run with this status, its delivery time taken from the clock.
  ghost predicate Arrived(states: seq<State>, actions: seq<Action>, id: Id, status: Status, now: Time) {
    && Settled(states, actions)
    && var st := states[|states| - 1];
       && st.now == now && id in st.rows && st.rows[id].status == status
       && st.rows[id].deliveredAt == if status == Delivered then Some(now) else None
  }

  lemma {:induction false} Update(
    states: seq<State>, actions: seq<Action>, id: Id, from: Status, to: Status, now: Time)
    returns (longer: seq<State>, more: seq<Action>)
    requires Arrived(states, actions, id, from, now) && IsValidTransition(from, to)
    ensures Arrived(longer, more, id, to, now)
  {
    var st := states[|states| - 1];
    RunKeepsInv(states, actions, |states| - 1);
    TransitionsExactly(from, to);
    var eventId := FreshEventId(st.events);
    UpdateEnabled(st, id, to, eventId);
    UpdateRunStores(st, 0, id, to, eventId, DONE, DONE, DONE);
    longer, more := OneMore(states, actions, BeginUpdate(0, id, to));
    longer, more := OneMore(longer, more, LogEvent(0, eventId, DONE));
    longer, more := OneMore(longer, more, SaveUpdate(0, DONE));
    longer, more := OneMore(longer, more, Invalidate(0, DONE));
    assert map[0 := Relogging(EventRow(eventId, id, to))] - {0} == map[];
    longer, more := OneMore(longer, more, Relog(0, false));
  }

  // Created at time now; the chain does not answer.
  lemma {:induction false} Created(id: Id, details: nat, now: nat) returns (states: seq<State>, actions: seq<Action>)
    ensures Arrived(states, actions, id, Pending, now)
  {
    states, actions := [Init()], [];
    states, actions := OneMore(states, actions, Tick(now));
    states, actions := OneMore(states, actions, Create(0, id, details, DONE));
    var row := Shipment(id, details, Pending, None, None);
    assert states[|states| - 1].calls == map[0 := Call.Created(row)];
    states, actions := OneMore(states, actions, ChainAnswer(0, None));
    assert map[0 := Call.Created(row)] - {0} == map[];
  }

  // The status before each status on a way from PENDING.
  function Before(status: Status): Status
    requires status != Pending
  {
    match status
    case PickedUp => Pending
    case InTransit => PickedUp
    case AtHub => InTransit
    case OutForDelivery => InTransit
    case Delivered => OutForDelivery
    case Failed => Pending
    case Returned => Failed
  }

  function Steps(status: Status): nat {
    match status
    case Pending => 0
    case PickedUp => 1
    case InTransit => 2
    case AtHub => 3
    case OutForDelivery => 3
    case Delivered => 4
    case Failed => 1
    case Returned => 2
  }

  lemma {:induction false} EveryStatusReached(id: Id, details: nat, status: Status, now: nat)
    returns (states: seq<State>, actions: seq<Action>)
    ensures IsRun(states, actions)
    ensures var st := states[|states| - 1];
            && st.now == now && st.calls == map[] && id in st.rows && st.rows[id].status == status
            && st.rows[id].deliveredAt == if status == Delivered then Some(now) else None
    decreases Steps(status)
  {
    if status == Pending {
      states, actions := Created(id, details, now);
    } else {
      states, actions := EveryStatusReached(id, details, Before(status), now);
      TransitionsExactly(Before(status), status);
      states, actions := Update(states, actions, id, Before(status), status, now);
    }
  }
}
