// "A shipment's status is that of its last event" is not kept by every interleaving. This module shows a run that
// loses it, a discipline under which it holds, and that each clause of the discipline is needed.
module ShipmentRaces {
  import opened Wrappers
  import opened Shipments
  import opened ShipmentSafety

  function LastStatus(events: seq<EventRow>, id: Id): Status {
    if events == [] then Pending
    else if events[|events| - 1].shipmentId == id then events[|events| - 1].status
    else LastStatus(events[..|events| - 1], id)
  }

  predicate Agrees(st: State, id: Id)
    requires id in st.rows
  {
    st.rows[id].status == LastStatus(st.events, id)
  }

  lemma {:induction false} ExtendRun(states: seq<State>, actions: seq<Action>, a: Action, next: State)
    requires IsRun(states, actions)
    requires Enabled(states[|states| - 1], a) && next == Do(states[|states| - 1], a)
    ensures IsRun(states + [next], actions + [a])
  {
  }

  const DONE: Outcome := Outcome(true, true)

  lemma {:induction false} FreshEventId(events: seq<EventRow>) returns (id: Id)
    ensures id !in EventIds(events)
    ensures forall k :: 0 <= k < |events| ==> events[k].eventId < id
  {
    if events == [] {
      id := 0;
    } else {
      id := FreshEventId(events[..|events| - 1]);
      var last := events[|events| - 1].eventId;
      id := if last < id then id else last + 1;
    }
  }

  // A shipment is created, and an update to PICKED_UP begins while its creation is still being anchored.
  lemma {:induction false} BeginDuringAnchor(id: Id, row: Shipment)
    returns (states: seq<State>, actions: seq<Action>)
    requires row == Shipment(id, 0, Pending, None, None)
    ensures IsRun(states, actions)
    ensures states[|states| - 1] ==
            State(0, map[id := row], [], map[], map[0 := Created(row), 1 := Checked(row, PickedUp)])
  {
    states, actions := [Init()], [];
    var s1 := State(0, map[id := row], [], map[], map[0 := Created(row)]);
    ExtendRun(states, actions, Create(0, id, 0, DONE), s1);
    states, actions := states + [s1], actions + [Create(0, id, 0, DONE)];
    var s2 := s1.(calls := map[0 := Created(row), 1 := Checked(row, PickedUp)]);
    ExtendRun(states, actions, BeginUpdate(1, id, PickedUp), s2);
    states, actions := states + [s2], actions + [BeginUpdate(1, id, PickedUp)];
  }

  lemma {:induction false} UpdateDuringAnchor(id: Id, row: Shipment, e: EventRow)
    returns (states: seq<State>, actions: seq<Action>)
    requires row == Shipment(id, 0, Pending, None, None) && e == EventRow(0, id, PickedUp)
    ensures IsRun(states, actions)
    ensures states[|states| - 1] ==
            State(0, map[id := row.(status := PickedUp)], [e], map[], map[0 := Created(row), 1 := Saved(e)])
  {
    states, actions := BeginDuringAnchor(id, row);
    var picked, s2 := row.(status := PickedUp), states[|states| - 1];
    var s3 := s2.(events := [e], calls := map[0 := Created(row), 1 := Logged(picked, e)]);
    ExtendRun(states, actions, LogEvent(1, 0, DONE), s3);
    states, actions := states + [s3], actions + [LogEvent(1, 0, DONE)];
    var s4 := s3.(rows := map[id := picked], calls := map[0 := Created(row), 1 := Saved(e)]);
    ExtendRun(states, actions, SaveUpdate(1, DONE), s4);
    states, actions := states + [s4], actions + [SaveUpdate(1, DONE)];
  }

  // Create's goroutine then saves the row it made.
  lemma {:induction false} AnchorAfterUpdate(id: Id, row: Shipment, e: EventRow)
    returns (states: seq<State>, actions: seq<Action>)
    requires row == Shipment(id, 0, Pending, None, None) && e == EventRow(0, id, PickedUp)
    ensures IsRun(states, actions)
    ensures states[|states| - 1] == State(0, map[id := row.(txHash := Some(0))], [e], map[], map[])
  {
    states, actions := UpdateDuringAnchor(id, row, e);
    var s4 := states[|states| - 1];
    var s5 := s4.(calls := map[0 := Created(row), 1 := Relogging(e)]);
    ExtendRun(states, actions, Invalidate(1, DONE), s5);
    states, actions := states + [s5], actions + [Invalidate(1, DONE)];
    var s6 := s4.(calls := map[0 := Created(row)]);
    ExtendRun(states, actions, Relog(1, true), s6);
    states, actions := states + [s6], actions + [Relog(1, true)];
    var s7 := s4.(calls := map[0 := Anchored(row.(txHash := Some(0)))]);
    ExtendRun(states, actions, ChainAnswer(0, Some(0)), s7);
    states, actions := states + [s7], actions + [ChainAnswer(0, Some(0))];
    var s8 := s4.(rows := map[id := row.(txHash := Some(0))], calls := map[]);
    ExtendRun(states, actions, SaveAnchor(0, DONE), s8);
    states, actions := states + [s8], actions + [SaveAnchor(0, DONE)];
  }

  // The shipment is PENDING again although its log says PICKED_UP, and no call is left to repair it.
  lemma {:induction false} LostUpdate(id: Id) returns (states: seq<State>, actions: seq<Action>)
    ensures IsRun(states, actions)
    ensures var last := states[|states| - 1];
            && last.calls == map[]
            && id in last.rows && last.rows[id].status == Pending
            && LastStatus(last.events, id) == PickedUp
  {
    states, actions := AnchorAfterUpdate(id, Shipment(id, 0, Pending, None, None), EventRow(0, id, PickedUp));
  }

  // Each event is a valid step from the status the shipment's log had before it.
  ghost predicate StepByStep(events: seq<EventRow>) {
    forall k :: 0 <= k < |events| ==> IsValidTransition(LastStatus(events[..k], events[k].shipmentId), events[k].status)
  }

  // The shipment can then be picked up a second time: the log is no walk through the status graph.
  lemma {:induction false} RepeatedPickUp(id: Id) returns (states: seq<State>, actions: seq<Action>)
    ensures IsRun(states, actions)
    ensures var events := states[|states| - 1].events;
            events == [EventRow(0, id, PickedUp), EventRow(1, id, PickedUp)] && !StepByStep(events)
  {
    var row, e := Shipment(id, 0, Pending, None, None), EventRow(0, id, PickedUp);
    states, actions := AnchorAfterUpdate(id, row, e);
    var s8 := states[|states| - 1];
    var anchored := row.(txHash := Some(0));
    var s9 := s8.(calls := map[2 := Checked(anchored, PickedUp)]);
    ExtendRun(states, actions, BeginUpdate(2, id, PickedUp), s9);
    states, actions := states + [s9], actions + [BeginUpdate(2, id, PickedUp)];
    SecondPickUp(id, s9, e, anchored);
    var s10 := Do(s9, LogEvent(2, 1, DONE));
    ExtendRun(states, actions, LogEvent(2, 1, DONE), s10);
    states, actions := states + [s10], actions + [LogEvent(2, 1, DONE)];
  }

  lemma {:induction false} SecondPickUp(id: Id, st: State, e: EventRow, row: Shipment)
    requires e == EventRow(0, id, PickedUp) && row.id == id
    requires st.events == [e] && st.calls == map[2 := Checked(row, PickedUp)]
    ensures Enabled(st, LogEvent(2, 1, DONE))
    ensures Do(st, LogEvent(2, 1, DONE)).events == [e, EventRow(1, id, PickedUp)]
    ensures !StepByStep([e, EventRow(1, id, PickedUp)])
  {
    assert EventIds(st.events) == {0};
    var events := [e, EventRow(1, id, PickedUp)];
    assert events[..1] == [e];
    assert LastStatus([e], id) == PickedUp;
    assert !IsValidTransition(LastStatus(events[..1], events[1].shipmentId), events[1].status);
  }

  // ----- Aligned writers -----

  predicate WritesTo(c: Call, id: Id) {
    match c
    case Created(s) => s.id == id
    case Anchored(s) => s.id == id
    case Checked(s, _) => s.id == id
    case Logged(s, _) => s.id == id
    case _ => false
  }

  // The status the call is going to leave in the row.
  function Target(c: Call): Status {
    match c
    case Checked(_, to) => to
    case Logged(s, _) => s.status
    case _ => Pending
  }

  predicate Idle(st: State, id: Id) {
    forall c :: c in st.calls ==> !WritesTo(st.calls[c], id)
  }

  // An update starts only when every call writing the shipment aims at the same status; an event insert that reports
  // failure stored nothing; the row of a logged change is saved.
  ghost predicate Aligned(st: State, a: Action) {
    && (a.BeginUpdate? ==>
          forall c :: c in st.calls && WritesTo(st.calls[c], a.id) ==> Target(st.calls[c]) == a.to)
    && (a.LogEvent? ==> a.outcome.ok || !a.outcome.applied)
    && (a.SaveUpdate? ==> a.outcome.applied)
  }

  ghost predicate OneTarget(st: State) {
    forall c, b, id :: c in st.calls && b in st.calls && WritesTo(st.calls[c], id) && WritesTo(st.calls[b], id) ==>
      Target(st.calls[c]) == Target(st.calls[b])
  }

  ghost predicate WriterInStep(st: State, c: Call) {
    match c
    case Created(s) => s.id in st.rows && st.rows[s.id].status == Pending && Agrees(st, s.id)
    case Anchored(s) => s.id in st.rows && st.rows[s.id].status == Pending && Agrees(st, s.id)
    case Logged(s, _) => LastStatus(st.events, s.id) == s.status
    case _ => true
  }

  // Only between the event and the save may the row lag behind the log.
  ghost predicate AgreesOrLogged(st: State, id: Id)
    requires id in st.rows
  {
    Agrees(st, id) || exists c :: c in st.calls && st.calls[c].Logged? && st.calls[c].s.id == id
  }

  ghost predicate AlignedInv(st: State) {
    && Inv(st)
    && OneTarget(st)
    && (forall k :: 0 <= k < |st.events| ==> st.events[k].shipmentId in st.rows)
    && (forall c :: c in st.calls ==> WriterInStep(st, st.calls[c]))
    && (forall id :: id in st.rows ==> AgreesOrLogged(st, id))
  }

  lemma {:induction false} NoEventsYet(events: seq<EventRow>, id: Id)
    requires forall k :: 0 <= k < |events| ==> events[k].shipmentId != id
    ensures LastStatus(events, id) == Pending
  {
    if events != [] {
      NoEventsYet(events[..|events| - 1], id);
    }
  }

  // The call an action belongs to; no other call moves.
  predicate ActsFor(a: Action, c: CallId) {
    match a
    case Tick(_) => false
    case GetHit(_) => false
    case Forget(_) => false
    case _ => a.call == c
  }

  lemma {:induction false} OthersUntouched(st: State, a: Action, c: CallId)
    requires Enabled(st, a) && !ActsFor(a, c)
    ensures c in Do(st, a).calls <==> c in st.calls
    ensures c in st.calls ==> Do(st, a).calls[c] == st.calls[c]
  {
  }

  lemma {:induction false} CreatedAlone(st: State, a: Action)
    requires Inv(st) && Enabled(st, a) && a.Create?
    ensures Idle(st, a.id)
  {
    forall b | b in st.calls ensures !WritesTo(st.calls[b], a.id) {
      assert GoodCall(st, st.calls[b]);
    }
  }

  // A call that writes a shipment after the action did so before with the same target, or the action made it a writer.
  lemma {:induction false} WritersBefore(st: State, a: Action, c: CallId, id: Id)
    requires Inv(st) && Enabled(st, a)
    requires c in Do(st, a).calls && WritesTo(Do(st, a).calls[c], id)
    ensures || (c in st.calls && WritesTo(st.calls[c], id) && Target(Do(st, a).calls[c]) == Target(st.calls[c]))
            || (ActsFor(a, c) && a.BeginUpdate? && a.id == id && Target(Do(st, a).calls[c]) == a.to)
            || (ActsFor(a, c) && a.Create? && a.id == id)
  {
    if !ActsFor(a, c) {
      OthersUntouched(st, a, c);
    } else if a.BeginUpdate? {
      assert st.rows[a.id].id == a.id;
    }
  }

  lemma {:induction false} StepOneTarget(st: State, a: Action)
    requires AlignedInv(st) && Enabled(st, a) && Aligned(st, a)
    ensures OneTarget(Do(st, a))
  {
    var next := Do(st, a);
    if a.Create? {
      CreatedAlone(st, a);
    }
    forall c, b, id | c in next.calls && b in next.calls && WritesTo(next.calls[c], id) && WritesTo(next.calls[b], id)
      ensures Target(next.calls[c]) == Target(next.calls[b])
    {
      WritersBefore(st, a, c, id);
      WritersBefore(st, a, b, id);
    }
  }

  lemma {:induction false} LastStatusSnoc(events: seq<EventRow>, e: EventRow, id: Id)
    ensures LastStatus(events + [e], id) == if e.shipmentId == id then e.status else LastStatus(events, id)
  {
    assert (events + [e])[..|events|] == events;
  }

  // What one action does to the row and the log of a shipment: nothing, unless the action writes that shipment.
  lemma {:induction false} OthersAgree(st: State, a: Action, id: Id)
    requires Inv(st) && Enabled(st, a)
    requires id in st.rows && (a.LogEvent? || a.SaveUpdate? || a.SaveAnchor? ==> st.calls[a.call].s.id != id)
    ensures id in Do(st, a).rows && Do(st, a).rows[id] == st.rows[id]
    ensures LastStatus(Do(st, a).events, id) == LastStatus(st.events, id)
  {
    if a.Relog? {
      RelogIsNoOp(st, a);
    } else if a.LogEvent? && a.outcome.applied {
      var c := st.calls[a.call];
      LastStatusSnoc(st.events, EventRow(a.eventId, c.s.id, c.to), id);
    }
  }

  lemma {:induction false} EventLogged(st: State, a: Action)
    requires Enabled(st, a) && a.LogEvent? && a.outcome.applied
    ensures LastStatus(Do(st, a).events, st.calls[a.call].s.id) == st.calls[a.call].to
  {
    var c := st.calls[a.call];
    LastStatusSnoc(st.events, EventRow(a.eventId, c.s.id, c.to), c.s.id);
  }

  // Another call's action on the same shipment leaves a writer in step: both aim at the same status.
  lemma {:induction false} OtherWriterInStep(st: State, a: Action, c: CallId)
    requires AlignedInv(st) && Enabled(st, a) && Aligned(st, a) && c in st.calls && !ActsFor(a, c)
    requires a.LogEvent? || a.SaveUpdate? || a.SaveAnchor?
    requires WritesTo(st.calls[c], st.calls[a.call].s.id)
    ensures WriterInStep(Do(st, a), st.calls[c])
  {
    assert GoodCall(st, st.calls[a.call]) && GoodCall(st, st.calls[c]);
    assert WriterInStep(st, st.calls[a.call]) && WriterInStep(st, st.calls[c]);
    assert WritesTo(st.calls[a.call], st.calls[a.call].s.id);
    assert Target(st.calls[c]) == Target(st.calls[a.call]);
    if a.LogEvent? && a.outcome.applied {
      EventLogged(st, a);
    }
  }

  lemma {:induction false} StepWriters(st: State, a: Action, c: CallId)
    requires AlignedInv(st) && Enabled(st, a) && Aligned(st, a) && c in Do(st, a).calls
    ensures WriterInStep(Do(st, a), Do(st, a).calls[c])
  {
    if ActsFor(a, c) {
      ActorInStep(st, a);
    } else {
      OthersUntouched(st, a, c);
      var call := st.calls[c];
      assert GoodCall(st, call) && WriterInStep(st, call);
      if call.Created? || call.Anchored? || call.Checked? || call.Logged? {
        if (a.LogEvent? || a.SaveUpdate? || a.SaveAnchor?) && st.calls[a.call].s.id == call.s.id {
          OtherWriterInStep(st, a, c);
        } else {
          OthersAgree(st, a, call.s.id);
        }
      }
    }
  }

  lemma {:induction false} ActorInStep(st: State, a: Action)
    requires AlignedInv(st) && Enabled(st, a) && Aligned(st, a)
    requires !a.Tick? && !a.GetHit? && !a.Forget? && a.call in Do(st, a).calls
    ensures WriterInStep(Do(st, a), Do(st, a).calls[a.call])
  {
    match a
    case Create(_, id, _, _) => NoEventsYet(st.events, id);
    case ChainAnswer(call, _) => assert WriterInStep(st, st.calls[call]);
    case LogEvent(_, _, _) => EventLogged(st, a);
    case _ =>
  }

  lemma {:induction false} StepAgrees(st: State, a: Action, id: Id)
    requires AlignedInv(st) && Enabled(st, a) && Aligned(st, a) && id in Do(st, a).rows
    ensures AgreesOrLogged(Do(st, a), id)
  {
    var next := Do(st, a);
    if a.Create? && id == a.id {
      NoEventsYet(st.events, id);
    } else if (a.LogEvent? || a.SaveUpdate? || a.SaveAnchor?) && st.calls[a.call].s.id == id {
      WrittenAgrees(st, a);
    } else {
      OthersAgree(st, a, id);
      assert AgreesOrLogged(st, id);
      if !Agrees(st, id) {
        var c :| c in st.calls && st.calls[c].Logged? && st.calls[c].s.id == id;
        if !ActsFor(a, c) {
          OthersUntouched(st, a, c);
        }
      }
    }
  }

  lemma {:induction false} WrittenAgrees(st: State, a: Action)
    requires AlignedInv(st) && Enabled(st, a) && Aligned(st, a)
    requires a.LogEvent? || a.SaveUpdate? || a.SaveAnchor?
    ensures st.calls[a.call].s.id in Do(st, a).rows && AgreesOrLogged(Do(st, a), st.calls[a.call].s.id)
  {
    var c, id := st.calls[a.call], st.calls[a.call].s.id;
    assert GoodCall(st, c) && WriterInStep(st, c);
    if a.LogEvent? {
      assert AgreesOrLogged(st, id);
      if a.outcome.ok {
        assert Do(st, a).calls[a.call].Logged?;
      } else if !Agrees(st, id) {
        var b :| b in st.calls && st.calls[b].Logged? && st.calls[b].s.id == id;
        OthersUntouched(st, a, b);
      }
    }
  }

  lemma {:induction false} EventsOfRows(st: State, a: Action)
    requires Inv(st) && Enabled(st, a)
    requires forall k :: 0 <= k < |st.events| ==> st.events[k].shipmentId in st.rows
    ensures forall k :: 0 <= k < |Do(st, a).events| ==> Do(st, a).events[k].shipmentId in Do(st, a).rows
  {
    var next := Do(st, a);
    DoExtends(st, a);
    forall k | 0 <= k < |next.events| ensures next.events[k].shipmentId in next.rows {
      if k >= |st.events| {
        if a.Relog? {
          RelogIsNoOp(st, a);
        }
        assert GoodCall(st, st.calls[a.call]);
      }
    }
  }

  lemma {:induction false} StepKeepsAlignedInv(st: State, a: Action)
    requires AlignedInv(st) && Enabled(st, a) && Aligned(st, a)
    ensures AlignedInv(Do(st, a))
  {
    StepKeepsInv(st, a);
    StepOneTarget(st, a);
    EventsOfRows(st, a);
    var next := Do(st, a);
    forall c | c in next.calls ensures WriterInStep(next, next.calls[c]) {
      StepWriters(st, a, c);
    }
    forall id | id in next.rows ensures AgreesOrLogged(next, id) {
      StepAgrees(st, a, id);
    }
  }

  lemma {:induction false} AlignedRunKeepsInv(states: seq<State>, actions: seq<Action>, k: nat)
    requires IsRun(states, actions) && k < |states|
    requires forall i :: 0 <= i < |actions| ==> Aligned(states[i], actions[i])
    ensures AlignedInv(states[k])
  {
    if k > 0 {
      AlignedRunKeepsInv(states, actions, k - 1);
      StepKeepsAlignedInv(states[k - 1], actions[k - 1]);
    }
  }

  // With aligned writers the row of a shipment nobody is writing has the status of its last event, or PENDING if it
  // has none.
  lemma {:induction false} AlignedStatusIsLastEvent(states: seq<State>, actions: seq<Action>, k: nat, id: Id)
    requires IsRun(states, actions) && k < |states|
    requires forall i :: 0 <= i < |actions| ==> Aligned(states[i], actions[i])
    requires id in states[k].rows && Idle(states[k], id)
    ensures Agrees(states[k], id)
  {
    AlignedRunKeepsInv(states, actions, k);
    assert AgreesOrLogged(states[k], id);
    forall c | c in states[k].calls && states[k].calls[c].Logged? ensures states[k].calls[c].s.id != id {
      assert !WritesTo(states[k].calls[c], id);
    }
  }

  // ----- Serial writers -----

  // Stricter: an update starts only when nobody is writing the shipment.
  ghost predicate Serial(st: State, a: Action) {
    Aligned(st, a) && (a.BeginUpdate? ==> Idle(st, a.id))
  }

  ghost predicate OneWriter(st: State) {
    forall c, b, id :: c in st.calls && b in st.calls && WritesTo(st.calls[c], id) && WritesTo(st.calls[b], id) ==>
      c == b
  }

  ghost predicate SerialInv(st: State) {
    && AlignedInv(st)
    && OneWriter(st)
    && StepByStep(st.events)
    && forall c :: c in st.calls && st.calls[c].Checked? ==>
         LastStatus(st.events, st.calls[c].s.id) == st.calls[c].s.status
  }

  lemma {:induction false} StepOneWriter(st: State, a: Action)
    requires SerialInv(st) && Enabled(st, a) && Serial(st, a)
    ensures OneWriter(Do(st, a))
  {
    var next := Do(st, a);
    if a.Create? {
      CreatedAlone(st, a);
    }
    forall c, b, id | c in next.calls && b in next.calls && WritesTo(next.calls[c], id) && WritesTo(next.calls[b], id)
      ensures c == b
    {
      WritersBefore(st, a, c, id);
      WritersBefore(st, a, b, id);
    }
  }

  // Nobody is between its event and its save, so the row read has the status of the last event.
  lemma {:induction false} BeginInStep(st: State, a: Action)
    requires SerialInv(st) && Enabled(st, a) && Serial(st, a) && a.BeginUpdate?
    ensures st.rows[a.id].id == a.id && Agrees(st, a.id)
  {
    assert st.rows[a.id].id == a.id && AgreesOrLogged(st, a.id);
    forall c | c in st.calls && st.calls[c].Logged? ensures st.calls[c].s.id != a.id {
      assert !WritesTo(st.calls[c], a.id);
    }
  }

  lemma {:induction false} CheckedInStep(st: State, a: Action, c: CallId)
    requires SerialInv(st) && Enabled(st, a) && Serial(st, a)
    requires c in Do(st, a).calls && Do(st, a).calls[c].Checked?
    ensures LastStatus(Do(st, a).events, Do(st, a).calls[c].s.id) == Do(st, a).calls[c].s.status
  {
    if ActsFor(a, c) {
      assert a.BeginUpdate?;
      BeginInStep(st, a);
    } else {
      OthersUntouched(st, a, c);
      var id := st.calls[c].s.id;
      assert GoodCall(st, st.calls[c]) && WritesTo(st.calls[c], id);
      assert a.LogEvent? || a.SaveUpdate? || a.SaveAnchor? ==> WritesTo(st.calls[a.call], st.calls[a.call].s.id);
      OthersAgree(st, a, id);
    }
  }

  lemma {:induction false} StepLogs(st: State, a: Action)
    requires SerialInv(st) && Enabled(st, a) && Serial(st, a)
    ensures StepByStep(Do(st, a).events)
  {
    if a.Relog? {
      RelogIsNoOp(st, a);
    } else if a.LogEvent? && a.outcome.applied {
      var c := st.calls[a.call];
      assert GoodCall(st, c);
      OneMoreStep(st.events, EventRow(a.eventId, c.s.id, c.to));
    }
  }

  lemma {:induction false} OneMoreStep(events: seq<EventRow>, e: EventRow)
    requires StepByStep(events) && IsValidTransition(LastStatus(events, e.shipmentId), e.status)
    ensures StepByStep(events + [e])
  {
    var next := events + [e];
    forall k | 0 <= k < |next| ensures IsValidTransition(LastStatus(next[..k], next[k].shipmentId), next[k].status) {
      if k < |events| {
        assert next[..k] == events[..k];
      } else {
        assert next[..k] == events;
      }
    }
  }

  lemma {:induction false} StepKeepsSerialInv(st: State, a: Action)
    requires SerialInv(st) && Enabled(st, a) && Serial(st, a)
    ensures SerialInv(Do(st, a))
  {
    StepKeepsAlignedInv(st, a);
    StepOneWriter(st, a);
    StepLogs(st, a);
    var next := Do(st, a);
    forall c | c in next.calls && next.calls[c].Checked?
      ensures LastStatus(next.events, next.calls[c].s.id) == next.calls[c].s.status
    {
      CheckedInStep(st, a, c);
    }
  }

  lemma {:induction false} SerialRunKeepsInv(states: seq<State>, actions: seq<Action>, k: nat)
    requires IsRun(states, actions) && k < |states|
    requires forall i :: 0 <= i < |actions| ==> Serial(states[i], actions[i])
    ensures SerialInv(states[k])
  {
    if k > 0 {
      SerialRunKeepsInv(states, actions, k - 1);
      StepKeepsSerialInv(states[k - 1], actions[k - 1]);
    }
  }

  // With serial writers the whole log of a shipment is one legal walk, with no event off the path; so nothing
  // follows DELIVERED or RETURNED.
  lemma {:induction false} SerialLogIsWalk(states: seq<State>, actions: seq<Action>, n: nat, k: nat)
    requires IsRun(states, actions) && n < |states| && k < |states[n].events|
    requires forall i :: 0 <= i < |actions| ==> Serial(states[i], actions[i])
    ensures var events := states[n].events;
            var before := LastStatus(events[..k], events[k].shipmentId);
            IsValidTransition(before, events[k].status) && before != Delivered && before != Returned
  {
    SerialRunKeepsInv(states, actions, n);
  }
}
