// Each clause of the two disciplines is needed. Breaking the aligned one can leave a shipment nobody is writing with a
// status that is not the one of its last event, from any state the invariant allows; breaking the serial one can leave
// a log that is no walk, from any state the discipline leads to.
module ShipmentConflicts {
  import opened Wrappers
  import opened Shipments
  import opened ShipmentSafety
  import opened ShipmentRaces

  // The actions lead from one state to the other.
  ghost predicate Executes(st: State, actions: seq<Action>, last: State)
    decreases |actions|
  {
    if actions == [] then last == st
    else Enabled(st, actions[0]) && Executes(Do(st, actions[0]), actions[1..], last)
  }

  predicate Succeeds(a: Action) {
    match a
    case Create(_, _, _, o) => o.ok
    case ChainAnswer(_, hash) => hash.Some?
    case SaveAnchor(_, o) => o.ok
    case LogEvent(_, _, o) => o.ok
    case SaveUpdate(_, o) => o.ok
    case Invalidate(_, o) => o.ok
    case Relog(_, anchored) => anchored
    case ReadRow(_, ok) => ok
    case FillCache(_, o) => o.ok
    case _ => true
  }

  // ... and every call on the way succeeds.
  ghost predicate RunsWell(st: State, actions: seq<Action>, last: State) {
    Executes(st, actions, last) && forall k :: 0 <= k < |actions| ==> Succeeds(actions[k])
  }

  lemma {:induction false} RunStep(st: State, a: Action)
    requires Enabled(st, a)
    ensures Executes(st, [a], Do(st, a))
    ensures Succeeds(a) ==> RunsWell(st, [a], Do(st, a))
  {
    assert [a][1..] == [];
  }

  lemma {:induction false} ExecutesConcat(st: State, a: seq<Action>, mid: State, b: seq<Action>, last: State)
    requires Executes(st, a, mid) && Executes(mid, b, last)
    ensures Executes(st, a + b, last)
    decreases |a|
  {
    if a == [] {
      assert a + b == b;
    } else {
      ExecutesConcat(Do(st, a[0]), a[1..], mid, b, last);
      assert (a + b)[1..] == a[1..] + b;
    }
  }

  lemma {:induction false} RunsConcat(st: State, a: seq<Action>, mid: State, b: seq<Action>, last: State)
    requires RunsWell(st, a, mid) && RunsWell(mid, b, last)
    ensures RunsWell(st, a + b, last)
  {
    ExecutesConcat(st, a, mid, b, last);
  }

  // A good run in which no update starts.
  ghost predicate Finishes(st: State, actions: seq<Action>, last: State) {
    RunsWell(st, actions, last) && forall k :: 0 <= k < |actions| ==> !actions[k].BeginUpdate?
  }

  lemma {:induction false} FinishStep(st: State, a: Action)
    requires Enabled(st, a) && Succeeds(a) && !a.BeginUpdate?
    ensures Finishes(st, [a], Do(st, a))
  {
    RunStep(st, a);
  }

  lemma {:induction false} FinishesConcat(st: State, a: seq<Action>, mid: State, b: seq<Action>, last: State)
    requires Finishes(st, a, mid) && Finishes(mid, b, last)
    ensures Finishes(st, a + b, last)
  {
    ExecutesConcat(st, a, mid, b, last);
  }

  // ----- Finishing a call -----

  predicate Writer(c: Call) {
    c.Created? || c.Anchored? || c.Checked? || c.Logged?
  }

  // Only call c has moved on; a writer stays with its shipment and its target until it has saved.
  ghost predicate Moved(st: State, next: State, c: CallId) {
    && Inv(next) && (forall id :: id in st.rows ==> id in next.rows)
    && (forall b :: b != c ==> (b in next.calls <==> b in st.calls))
    && (forall b :: b != c && b in st.calls ==> next.calls[b] == st.calls[b])
  }

  lemma {:induction false} MovedTwice(st: State, mid: State, next: State, c: CallId)
    requires Moved(st, mid, c) && Moved(mid, next, c)
    ensures Moved(st, next, c)
  {
  }

  lemma {:induction false} RowsStay(st: State, a: Action)
    requires Enabled(st, a)
    ensures forall id :: id in st.rows ==> id in Do(st, a).rows
  {
  }

  lemma {:induction false} StepMoves(st: State, a: Action, c: CallId)
    requires Inv(st) && Enabled(st, a) && ActsFor(a, c)
    ensures Moved(st, Do(st, a), c)
  {
    StepKeepsInv(st, a);
    RowsStay(st, a);
    forall b | b != c
      ensures b in Do(st, a).calls <==> b in st.calls
      ensures b in st.calls ==> Do(st, a).calls[b] == st.calls[b]
    {
      OthersUntouched(st, a, b);
    }
  }

  // The copy a writer is about to save is in its hands.
  predicate Poised(c: Call) {
    c.Anchored? || c.Logged?
  }

  lemma {:induction false} BecomePoised(st: State, c: CallId) returns (actions: seq<Action>, next: State)
    requires Inv(st) && c in st.calls && Writer(st.calls[c])
    ensures Finishes(st, actions, next) && Moved(st, next, c)
    ensures c in next.calls && Poised(next.calls[c])
    ensures next.calls[c].s.id == st.calls[c].s.id && Target(next.calls[c]) == Target(st.calls[c])
    ensures !st.calls[c].Checked? ==> next.events == st.events
  {
    if Poised(st.calls[c]) {
      actions, next := [], st;
    } else {
      var a := ChainAnswer(c, Some(0));
      if st.calls[c].Checked? {
        var eventId := FreshEventId(st.events);
        a := LogEvent(c, eventId, DONE);
      }
      FinishStep(st, a);
      StepMoves(st, a, c);
      actions, next := [a], Do(st, a);
    }
  }

  function SaveOf(c: CallId, call: Call): Action {
    if call.Anchored? then SaveAnchor(c, DONE) else SaveUpdate(c, DONE)
  }

  lemma {:induction false} SavePoised(st: State, c: CallId)
    requires Inv(st) && c in st.calls && Poised(st.calls[c])
    ensures var a, next := SaveOf(c, st.calls[c]), Do(st, SaveOf(c, st.calls[c]));
            && Finishes(st, [a], next) && Moved(st, next, c)
            && (c in next.calls ==> !Writer(next.calls[c]))
            && next.rows == st.rows[st.calls[c].s.id := st.calls[c].s] && next.events == st.events
  {
    var a := SaveOf(c, st.calls[c]);
    FinishStep(st, a);
    StepMoves(st, a, c);
  }

  lemma {:induction false} FinishWriter(st: State, c: CallId) returns (actions: seq<Action>, next: State)
    requires Inv(st) && c in st.calls && Writer(st.calls[c])
    ensures Finishes(st, actions, next) && Moved(st, next, c)
    ensures c in next.calls ==> !Writer(next.calls[c])
  {
    var mid;
    actions, mid := BecomePoised(st, c);
    var a := SaveOf(c, mid.calls[c]);
    SavePoised(mid, c);
    next := Do(mid, a);
    FinishesConcat(st, actions, mid, [a], next);
    MovedTwice(st, mid, next, c);
    actions := actions + [a];
  }

  function Writers(st: State, id: Id): set<CallId> {
    set c | c in st.calls && WritesTo(st.calls[c], id)
  }

  // All other calls that write the shipment finish.
  lemma {:induction false} FinishOthers(st: State, id: Id, keep: set<CallId>)
    returns (actions: seq<Action>, next: State)
    requires Inv(st) && id in st.rows
    ensures Finishes(st, actions, next) && Inv(next) && id in next.rows
    ensures Writers(next, id) <= keep
    ensures forall c :: c in keep ==> (c in next.calls <==> c in st.calls)
    ensures forall c :: c in keep && c in st.calls ==> next.calls[c] == st.calls[c]
    decreases |Writers(st, id) - keep|
  {
    if Writers(st, id) <= keep {
      actions, next := [], st;
    } else {
      var c :| c in Writers(st, id) && c !in keep;
      var first, mid := FinishWriter(st, c);
      assert Writers(mid, id) - keep < Writers(st, id) - keep by {
        assert c in Writers(st, id) - keep && c !in Writers(mid, id);
      }
      SmallerSet(Writers(mid, id) - keep, Writers(st, id) - keep);
      var rest;
      rest, next := FinishOthers(mid, id, keep);
      FinishesConcat(st, first, mid, rest, next);
      actions := first + rest;
    }
  }

  lemma {:induction false} SmallerSet(a: set<CallId>, b: set<CallId>)
    requires a < b
    ensures |a| < |b|
  {
    var rest := b - a;
    assert b == a + rest;
    assert |b| == |a| + |rest|;
  }

  // ----- Two targets -----

  // Two calls write the shipment, one of them about to save a status other than the other's target.
  ghost predicate Conflict(st: State, id: Id, w: CallId, b: CallId, to: Status) {
    && Inv(st) && w != b && Writers(st, id) <= {w, b}
    && w in st.calls && WritesTo(st.calls[w], id) && Target(st.calls[w]) != to
    && b in st.calls && st.calls[b].Checked? && st.calls[b].s.id == id && st.calls[b].to == to
  }

  ghost predicate Lost(st: State, id: Id) {
    Idle(st, id) && id in st.rows && !Agrees(st, id)
  }

  lemma {:induction false} LogChecked(st: State, b: CallId) returns (a: Action, next: State)
    requires Inv(st) && b in st.calls && st.calls[b].Checked?
    ensures a.LogEvent? && a.outcome == DONE && Finishes(st, [a], next) && Moved(st, next, b)
    ensures b in next.calls && Poised(next.calls[b]) && next.calls[b].s.id == st.calls[b].s.id
    ensures LastStatus(next.events, st.calls[b].s.id) == st.calls[b].to
    ensures next.events == st.events + [EventRow(a.eventId, st.calls[b].s.id, st.calls[b].to)]
  {
    var eventId := FreshEventId(st.events);
    a := LogEvent(b, eventId, DONE);
    next := Do(st, a);
    FinishStep(st, a);
    StepMoves(st, a, b);
    EventLogged(st, a);
  }

  // b logs and saves, then w saves the copy it holds.
  lemma {:induction false} Overwritten(st: State, id: Id, w: CallId, b: CallId, to: Status)
    returns (actions: seq<Action>, last: State)
    requires Conflict(st, id, w, b, to) && Poised(st.calls[w])
    ensures Finishes(st, actions, last) && Lost(last, id) && Inv(last)
    ensures last.rows[id].status == Target(st.calls[w]) && LastStatus(last.events, id) == to
  {
    var a1, s1 := LogChecked(st, b);
    var a2 := SaveOf(b, s1.calls[b]);
    SavePoised(s1, b);
    var s2 := Do(s1, a2);
    FinishesConcat(st, [a1], s1, [a2], s2);
    MovedTwice(st, s1, s2, b);
    var a3 := SaveOf(w, s2.calls[w]);
    SavePoised(s2, w);
    last := Do(s2, a3);
    FinishesConcat(st, [a1] + [a2], s2, [a3], last);
    actions := [a1] + [a2] + [a3];
    BothDone(st, s2, last, id, w, b);
  }

  lemma {:induction false} BothDone(st: State, mid: State, last: State, id: Id, w: CallId, b: CallId)
    requires Moved(st, mid, b) && (b in mid.calls ==> !Writer(mid.calls[b])) && w != b
    requires Moved(mid, last, w) && (w in last.calls ==> !Writer(last.calls[w]))
    requires Writers(st, id) <= {w, b}
    ensures Idle(last, id)
  {
    forall c | c in last.calls ensures !WritesTo(last.calls[c], id) {
      assert c != w && c != b ==> c !in Writers(st, id);
    }
  }

  lemma {:induction false} ConflictLoses(st: State, id: Id, w: CallId, b: CallId, to: Status)
    returns (actions: seq<Action>, last: State)
    requires Conflict(st, id, w, b, to)
    ensures Finishes(st, actions, last) && Lost(last, id)
  {
    var first, mid := BecomePoised(st, w);
    assert Conflict(mid, id, w, b, to) by {
      forall c | c in Writers(mid, id) ensures c in {w, b} {
        assert c != w ==> c in Writers(st, id);
      }
    }
    var rest;
    rest, last := Overwritten(mid, id, w, b, to);
    FinishesConcat(st, first, mid, rest, last);
    actions := first + rest;
  }

  lemma {:induction false} Begin(st: State, call: CallId, id: Id, to: Status) returns (begun: State)
    requires Inv(st) && Enabled(st, BeginUpdate(call, id, to))
    ensures begun == Do(st, BeginUpdate(call, id, to)) && Moved(st, begun, call)
    ensures call in begun.calls && begun.calls[call] == Checked(st.rows[id], to) && st.rows[id].id == id
    ensures begun.events == st.events && begun.rows == st.rows
  {
    begun := Do(st, BeginUpdate(call, id, to));
    StepMoves(st, BeginUpdate(call, id, to), call);
    assert st.rows[id].id == id;
  }

  // An update that starts while a call aiming at another status is writing the shipment: the calls can all succeed,
  // without another update, and leave the row disagreeing with the log.
  lemma {:induction false} MisalignedLoses(st: State, w: CallId, call: CallId, id: Id, to: Status)
    returns (actions: seq<Action>, last: State)
    requires Inv(st) && Enabled(st, BeginUpdate(call, id, to))
    requires w in st.calls && WritesTo(st.calls[w], id) && Target(st.calls[w]) != to
    ensures Finishes(Do(st, BeginUpdate(call, id, to)), actions, last) && Lost(last, id)
  {
    var begun := Begin(st, call, id, to);
    var others, mid := FinishOthers(begun, id, {w, call});
    assert Conflict(mid, id, w, call, to);
    var rest;
    rest, last := ConflictLoses(mid, id, w, call, to);
    FinishesConcat(begun, others, mid, rest, last);
    actions := others + rest;
  }

  // ----- Failing calls -----

  // The update is over and has left the rows as they were.
  ghost predicate AsBefore(st: State, last: State, call: CallId, id: Id) {
    Inv(last) && last.rows == st.rows && Idle(last, id) && call !in last.calls
  }

  lemma {:induction false} BeginAndLog(st: State, call: CallId, id: Id, to: Status, o: Outcome)
    returns (log: Action, next: State)
    requires Inv(st) && Idle(st, id) && Enabled(st, BeginUpdate(call, id, to)) && o.applied
    ensures log.LogEvent? && log.outcome == o
    ensures Executes(st, [BeginUpdate(call, id, to)] + [log], next) && Moved(st, next, call)
    ensures next.rows == st.rows && LastStatus(next.events, id) == to
    ensures if o.ok then call in next.calls && next.calls[call].Logged? && next.calls[call].s.id == id
            else call !in next.calls
    ensures st.rows[id].status != to
  {
    NoSelfStep(to);
    var begun := Begin(st, call, id, to);
    var eventId := FreshEventId(begun.events);
    log := LogEvent(call, eventId, o);
    next := Do(begun, log);
    RunStep(st, BeginUpdate(call, id, to));
    RunStep(begun, log);
    ExecutesConcat(st, [BeginUpdate(call, id, to)], begun, [log], next);
    EventLogged(begun, log);
    StepMoves(begun, log, call);
    MovedTwice(st, begun, next, call);
  }

  // An event insert that is stored although it reports failure ends the update with the log ahead of the row.
  lemma {:induction false} StoredInsertLoses(st: State, call: CallId, id: Id, to: Status)
    returns (actions: seq<Action>, last: State)
    requires Inv(st) && Idle(st, id) && Enabled(st, BeginUpdate(call, id, to))
    ensures Executes(st, actions, last) && Lost(last, id)
    ensures |actions| == 2 && actions[0] == BeginUpdate(call, id, to)
    ensures actions[1].LogEvent? && actions[1].outcome == Outcome(false, true)
    ensures AsBefore(st, last, call, id) && LastStatus(last.events, id) == to
  {
    var log;
    log, last := BeginAndLog(st, call, id, to, Outcome(false, true));
    actions := [BeginUpdate(call, id, to)] + [log];
  }

  // So does a save of the changed row that does not reach the store.
  lemma {:induction false} LostSaveLoses(st: State, call: CallId, id: Id, to: Status, saved: Outcome)
    returns (actions: seq<Action>, last: State)
    requires Inv(st) && Idle(st, id) && Enabled(st, BeginUpdate(call, id, to)) && !saved.applied && !saved.ok
    ensures Executes(st, actions, last) && Lost(last, id)
    ensures |actions| == 3 && actions[0] == BeginUpdate(call, id, to)
    ensures actions[1].LogEvent? && actions[1].outcome == DONE && actions[2] == SaveUpdate(call, saved)
    ensures AsBefore(st, last, call, id) && LastStatus(last.events, id) == to
  {
    var log, logged := BeginAndLog(st, call, id, to, DONE);
    var save := SaveUpdate(call, saved);
    last := Do(logged, save);
    RunStep(logged, save);
    ExecutesConcat(st, [BeginUpdate(call, id, to)] + [log], logged, [save], last);
    StepMoves(logged, save, call);
    MovedTwice(st, logged, last, call);
    actions := [BeginUpdate(call, id, to)] + [log] + [save];
  }

  // ----- The log -----

  // Every step keeps to the serial discipline.
  ghost predicate Disciplined(st: State, actions: seq<Action>)
    decreases |actions|
  {
    actions == [] ||
    (Enabled(st, actions[0]) && Serial(st, actions[0]) && Disciplined(Do(st, actions[0]), actions[1..]))
  }

  lemma {:induction false} FinishIsDisciplined(st: State, actions: seq<Action>, last: State)
    requires Finishes(st, actions, last)
    ensures Disciplined(st, actions)
    decreases |actions|
  {
    if actions != [] {
      var a, rest := actions[0], actions[1..];
      assert forall k :: 0 <= k < |rest| ==> rest[k] == actions[k + 1];
      FinishIsDisciplined(Do(st, a), rest, last);
    }
  }

  lemma {:induction false} DisciplinedConcat(st: State, a: seq<Action>, mid: State, b: seq<Action>)
    requires Executes(st, a, mid) && Disciplined(st, a) && Disciplined(mid, b)
    ensures Disciplined(st, a + b)
    decreases |a|
  {
    if a == [] {
      assert a + b == b;
    } else {
      DisciplinedConcat(Do(st, a[0]), a[1..], mid, b);
      assert (a + b)[1..] == a[1..] + b;
    }
  }

  lemma {:induction false} BadStep(events: seq<EventRow>, e: EventRow)
    requires !IsValidTransition(LastStatus(events, e.shipmentId), e.status)
    ensures !StepByStep(events + [e])
  {
    var next := events + [e];
    assert next[..|events|] == events;
    assert !IsValidTransition(LastStatus(next[..|events|], next[|events|].shipmentId), next[|events|].status);
  }

  // Two statuses that can both follow one cannot follow each other both ways.
  lemma {:induction false} NotBothWays(from: Status, a: Status, b: Status)
    requires IsValidTransition(from, a) && IsValidTransition(from, b)
    ensures !IsValidTransition(a, b) || !IsValidTransition(b, a)
  {
  }

  lemma {:induction false} NoSelfStep(status: Status)
    ensures !IsValidTransition(status, status)
  {
  }

  lemma {:induction false} LogBadly(st: State, c: CallId) returns (actions: seq<Action>, last: State)
    requires Inv(st) && c in st.calls && st.calls[c].Checked?
    requires !IsValidTransition(LastStatus(st.events, st.calls[c].s.id), st.calls[c].to)
    ensures Finishes(st, actions, last) && !StepByStep(last.events)
  {
    var a;
    a, last := LogChecked(st, c);
    BadStep(st.events, EventRow(a.eventId, st.calls[c].s.id, st.calls[c].to));
    actions := [a];
  }

  lemma {:induction false} LogBoth(st: State, id: Id, c: CallId, b: CallId) returns (actions: seq<Action>, last: State)
    requires Inv(st) && c != b && c in st.calls && b in st.calls
    requires st.calls[c].Checked? && st.calls[b].Checked? && st.calls[c].s.id == st.calls[b].s.id == id
    requires !IsValidTransition(st.calls[c].to, st.calls[b].to)
    ensures Finishes(st, actions, last) && !StepByStep(last.events)
  {
    var a, mid := LogChecked(st, c);
    var rest;
    rest, last := LogBadly(mid, b);
    FinishesConcat(st, [a], mid, rest, last);
    actions := [a] + rest;
  }

  lemma {:induction false} FreshCall(used: set<CallId>) returns (call: CallId)
    ensures forall c :: c in used ==> c < call
  {
    if used == {} {
      call := 0;
    } else {
      var c :| c in used;
      var rest := FreshCall(used - {c});
      call := if c < rest then rest else c + 1;
      assert forall b :: b in used ==> b == c || b in used - {c};
    }
  }

  lemma {:induction false} StepDisciplined(st: State, a: Action)
    requires Enabled(st, a) && Serial(st, a)
    ensures Disciplined(st, [a])
  {
    assert [a][1..] == [];
  }

  // The update to the last event's status is begun again from a row that has fallen back.
  lemma {:induction false} Repeat(st: State, call: CallId, id: Id, to: Status) returns (log: Action, last: State)
    requires Inv(st) && Idle(st, id) && Enabled(st, BeginUpdate(call, id, to)) && LastStatus(st.events, id) == to
    ensures var actions := [BeginUpdate(call, id, to)] + [log];
            RunsWell(st, actions, last) && Disciplined(st, actions)
    ensures log.LogEvent? && log.outcome == DONE && !StepByStep(last.events)
  {
    var begin := BeginUpdate(call, id, to);
    var begun := Begin(st, call, id, to);
    log, last := LogChecked(begun, call);
    NoSelfStep(to);
    BadStep(begun.events, EventRow(log.eventId, id, to));
    RunStep(st, begin);
    RunsConcat(st, [begin], begun, [log], last);
    FinishIsDisciplined(begun, [log], last);
    StepDisciplined(st, begin);
    DisciplinedConcat(st, [begin], begun, [log]);
  }

  // Good and disciplined steps that end with a log that is no walk.
  ghost predicate BreaksLog(st: State, actions: seq<Action>) {
    Disciplined(st, actions) &&
    exists last :: RunsWell(st, actions, last) && !StepByStep(last.events)
  }

  lemma {:induction false} FinishBreaksLog(st: State, actions: seq<Action>, last: State)
    requires Finishes(st, actions, last) && !StepByStep(last.events)
    ensures BreaksLog(st, actions)
  {
    FinishIsDisciplined(st, actions, last);
  }

  lemma {:induction false} AfterBreaksLog(st: State, first: seq<Action>, mid: State, rest: seq<Action>)
    requires Finishes(st, first, mid) && BreaksLog(mid, rest)
    ensures BreaksLog(st, first + rest)
  {
    var last :| RunsWell(mid, rest, last) && !StepByStep(last.events);
    RunsConcat(st, first, mid, rest, last);
    FinishIsDisciplined(st, first, mid);
    DisciplinedConcat(st, first, mid, rest);
  }

  // A call is about to save a status that the other's target may follow: it saves last, and the update is repeated.
  lemma {:induction false} FallBackAndRepeat(st: State, id: Id, w: CallId, b: CallId, to: Status)
    returns (actions: seq<Action>)
    requires Conflict(st, id, w, b, to) && Poised(st.calls[w]) && IsValidTransition(Target(st.calls[w]), to)
    ensures BreaksLog(st, actions)
  {
    var first, mid := Overwritten(st, id, w, b, to);
    var call := FreshCall(mid.calls.Keys);
    assert call !in mid.calls.Keys;
    var log, last := Repeat(mid, call, id, to);
    var again := [BeginUpdate(call, id, to)] + [log];
    AfterBreaksLog(st, first, mid, again);
    actions := first + again;
  }

  // Both updates are still to be logged, from one status.
  lemma {:induction false} BothChecked(st: State, id: Id, w: CallId, b: CallId, from: Status)
    returns (actions: seq<Action>)
    requires Inv(st) && w != b && w in st.calls && b in st.calls
    requires st.calls[w].Checked? && st.calls[b].Checked? && st.calls[w].s.id == st.calls[b].s.id == id
    requires IsValidTransition(from, st.calls[w].to) && IsValidTransition(from, st.calls[b].to)
    ensures BreaksLog(st, actions)
  {
    NotBothWays(from, st.calls[w].to, st.calls[b].to);
    var last;
    if IsValidTransition(st.calls[w].to, st.calls[b].to) {
      actions, last := LogBoth(st, id, b, w);
    } else {
      actions, last := LogBoth(st, id, w, b);
    }
    FinishBreaksLog(st, actions, last);
  }

  // What an update finds when it starts beside the only writer of the shipment.
  ghost predicate Beside(st: State, id: Id, w: CallId, b: CallId, to: Status) {
    && Inv(st) && w != b && Writers(st, id) <= {w, b}
    && w in st.calls && WritesTo(st.calls[w], id)
    && b in st.calls && st.calls[b].Checked? && st.calls[b].s.id == id && st.calls[b].to == to
  }

  // The writer has logged its status, or has none to log.
  lemma {:induction false} BesideLogged(st: State, id: Id, w: CallId, b: CallId, to: Status)
    returns (actions: seq<Action>)
    requires Beside(st, id, w, b, to) && !st.calls[w].Checked?
    requires LastStatus(st.events, id) == Target(st.calls[w])
    ensures BreaksLog(st, actions)
  {
    if IsValidTransition(Target(st.calls[w]), to) {
      NoSelfStep(to);
      var first, mid := BecomePoised(st, w);
      ConflictAfter(st, mid, id, w, b, to);
      var rest := FallBackAndRepeat(mid, id, w, b, to);
      actions := first + rest;
      AfterBreaksLog(st, first, mid, rest);
    } else {
      var last;
      actions, last := LogBadly(st, b);
      FinishBreaksLog(st, actions, last);
    }
  }

  lemma {:induction false} ConflictAfter(st: State, mid: State, id: Id, w: CallId, b: CallId, to: Status)
    requires Beside(st, id, w, b, to) && Moved(st, mid, w) && w in mid.calls && Poised(mid.calls[w])
    requires mid.calls[w].s.id == st.calls[w].s.id && Target(mid.calls[w]) != to
    ensures Conflict(mid, id, w, b, to)
  {
    forall c | c in Writers(mid, id) ensures c in {w, b} {
      assert c != w ==> c in Writers(st, id);
    }
  }

  // An update that starts while another call is writing the shipment: the calls can all succeed, keep to the
  // discipline from then on, and leave a log that is no walk.
  lemma {:induction false} OverlapBreaksLog(st: State, w: CallId, call: CallId, id: Id, to: Status)
    returns (actions: seq<Action>)
    requires SerialInv(st) && Enabled(st, BeginUpdate(call, id, to))
    requires w in st.calls && WritesTo(st.calls[w], id)
    ensures BreaksLog(Do(st, BeginUpdate(call, id, to)), actions)
  {
    var begun := Begin(st, call, id, to);
    BeginBeside(st, begun, w, call, id, to);
    if st.calls[w].Checked? {
      CheckedSameStatus(st, w, id);
      actions := BothChecked(begun, id, w, call, st.rows[id].status);
    } else {
      assert WriterInStep(st, st.calls[w]) && GoodCall(st, st.calls[w]);
      actions := BesideLogged(begun, id, w, call, to);
    }
  }

  lemma {:induction false} BeginBeside(st: State, begun: State, w: CallId, call: CallId, id: Id, to: Status)
    requires SerialInv(st) && Enabled(st, BeginUpdate(call, id, to)) && w in st.calls && WritesTo(st.calls[w], id)
    requires Moved(st, begun, call) && call in begun.calls && begun.calls[call] == Checked(st.rows[id], to)
    requires st.rows[id].id == id
    ensures Beside(begun, id, w, call, to)
  {
    forall c | c in Writers(begun, id) ensures c in {w, call} {
      assert c != call ==> c in st.calls && WritesTo(st.calls[c], id);
    }
  }

  // The row read is that of the last event, and so was the one the checked update read.
  lemma {:induction false} CheckedSameStatus(st: State, w: CallId, id: Id)
    requires SerialInv(st) && w in st.calls && st.calls[w].Checked? && st.calls[w].s.id == id && id in st.rows
    ensures IsValidTransition(st.rows[id].status, st.calls[w].to)
  {
    assert GoodCall(st, st.calls[w]) && AgreesOrLogged(st, id);
    forall c | c in st.calls && st.calls[c].Logged? ensures st.calls[c].s.id != id {
      assert WritesTo(st.calls[w], id);
      assert c == w || !WritesTo(st.calls[c], id);
    }
  }

  // An event insert that is stored but reports failure, and the same update again: the event is in the log twice.
  lemma {:induction false} StoredInsertRepeats(st: State, call: CallId, id: Id, to: Status)
    returns (actions: seq<Action>, mid: State, again: seq<Action>)
    requires Inv(st) && Idle(st, id) && Enabled(st, BeginUpdate(call, id, to))
    ensures Executes(st, actions, mid) && BreaksLog(mid, again)
    ensures |actions| == 2 && actions[0] == BeginUpdate(call, id, to)
    ensures actions[1].LogEvent? && actions[1].outcome == Outcome(false, true)
  {
    actions, mid := StoredInsertLoses(st, call, id, to);
    var log, last := Repeat(mid, call, id, to);
    again := [BeginUpdate(call, id, to)] + [log];
  }

  // So it is after a save that does not reach the store.
  lemma {:induction false} LostSaveRepeats(st: State, call: CallId, id: Id, to: Status, saved: Outcome)
    returns (actions: seq<Action>, mid: State, again: seq<Action>)
    requires Inv(st) && Idle(st, id) && Enabled(st, BeginUpdate(call, id, to)) && !saved.applied && !saved.ok
    ensures Executes(st, actions, mid) && BreaksLog(mid, again)
    ensures |actions| == 3 && actions[0] == BeginUpdate(call, id, to)
    ensures actions[1].LogEvent? && actions[1].outcome == DONE && actions[2] == SaveUpdate(call, saved)
  {
    actions, mid := LostSaveLoses(st, call, id, to, saved);
    var log, last := Repeat(mid, call, id, to);
    again := [BeginUpdate(call, id, to)] + [log];
  }
}
