// What every interleaving of the shipment protocol keeps.
module ShipmentSafety {
  import opened Wrappers
  import opened Shipments

  // ----- The event log -----

  ghost predicate HasEvent(events: seq<EventRow>, id: Id, status: Status) {
    exists k :: 0 <= k < |events| && events[k].shipmentId == id && events[k].status == status
  }

  // Event k is a valid step from a status that is PENDING or that an earlier event of its shipment has.
  ghost predicate Follows(events: seq<EventRow>, k: nat, from: Status)
    requires k < |events|
  {
    && IsValidTransition(from, events[k].status)
    && (from == Pending || HasEvent(events[..k], events[k].shipmentId, from))
  }

  ghost predicate Caused(events: seq<EventRow>, k: nat)
    requires k < |events|
  {
    exists from :: Follows(events, k, from)
  }

  ghost predicate Causal(events: seq<EventRow>) {
    forall k :: 0 <= k < |events| ==> Caused(events, k)
  }

  // ----- The invariant -----

  // A copy of a row a reader could get to see: stamped when delivered, logged when not pending, of a stored shipment.
  ghost predicate Good(st: State, s: Shipment) {
    && (s.deliveredAt.Some? <==> s.status == Delivered)
    && (s.status == Pending || HasEvent(st.events, s.id, s.status))
    && s.id in st.rows && st.rows[s.id].details == s.details
  }

  ghost predicate GoodCall(st: State, c: Call) {
    match c
    case Created(s) => Good(st, s) && s.status == Pending
    case Anchored(s) => Good(st, s) && s.status == Pending
    case Checked(s, to) => Good(st, s) && IsValidTransition(s.status, to)
    case Logged(s, e) => Good(st, s) && e in st.events && e.shipmentId == s.id && e.status == s.status
    case Saved(e) => e in st.events
    case Relogging(e) => e in st.events
    case Missed(_) => true
    case Found(s, readAt) => Good(st, s) && readAt <= st.now
  }

  ghost predicate Inv(st: State) {
    && (forall id :: id in st.rows ==> st.rows[id].id == id && Good(st, st.rows[id]))
    && (forall id :: id in st.cache ==>
          && st.cache[id].value.id == id && Good(st, st.cache[id].value)
          && st.cache[id].readAt <= st.cache[id].filledAt <= st.now)
    && (forall c :: c in st.calls ==> GoodCall(st, st.calls[c]))
    && Causal(st.events)
  }

  // What may change under a copy: more events, more rows, the same details.
  ghost predicate Extends(st: State, next: State) {
    && st.now <= next.now
    && st.events <= next.events
    && (forall id :: id in st.rows ==> id in next.rows && next.rows[id].details == st.rows[id].details)
  }

  lemma {:induction false} GoodStays(st: State, next: State, s: Shipment)
    requires Extends(st, next) && Good(st, s)
    ensures Good(next, s)
  {
    if s.status != Pending {
      var k :| 0 <= k < |st.events| && st.events[k].shipmentId == s.id && st.events[k].status == s.status;
      assert next.events[k] == st.events[k];
    }
  }

  lemma {:induction false} GoodCallStays(st: State, next: State, c: Call)
    requires Extends(st, next) && GoodCall(st, c)
    ensures GoodCall(next, c)
  {
    match c
    case Created(s) => GoodStays(st, next, s);
    case Anchored(s) => GoodStays(st, next, s);
    case Checked(s, _) => GoodStays(st, next, s);
    case Logged(s, _) => GoodStays(st, next, s);
    case Found(s, _) => GoodStays(st, next, s);
    case _ =>
  }

  lemma {:induction false} DoExtends(st: State, a: Action)
    requires Inv(st) && Enabled(st, a)
    ensures Extends(st, Do(st, a))
  {
    if (a.SaveAnchor? || a.SaveUpdate?) {
      assert GoodCall(st, st.calls[a.call]);
    }
  }

  lemma {:induction false} InsertCausal(events: seq<EventRow>, e: EventRow, from: Status)
    requires Causal(events)
    requires IsValidTransition(from, e.status) && (from == Pending || HasEvent(events, e.shipmentId, from))
    ensures Causal(InsertEvent(events, e))
  {
    var next := InsertEvent(events, e);
    forall k | 0 <= k < |next| ensures Caused(next, k) {
      if k < |events| {
        assert Caused(events, k);
        var before :| Follows(events, k, before);
        assert next[..k] == events[..k];
        assert Follows(next, k, before);
      } else {
        assert next[..k] == events;
        assert Follows(next, k, from);
      }
    }
  }

  // The second insert of an event finds its id taken: it never changes the log.
  lemma {:induction false} RelogIsNoOp(st: State, a: Action)
    requires Inv(st) && Enabled(st, a) && a.Relog?
    ensures Do(st, a).events == st.events
  {
    assert GoodCall(st, st.calls[a.call]);
  }

  lemma {:induction false} DoCausal(st: State, a: Action)
    requires Inv(st) && Enabled(st, a)
    ensures Causal(Do(st, a).events)
  {
    match a
    case LogEvent(call, eventId, o) =>
      var c := st.calls[call];
      assert GoodCall(st, c);
      InsertCausal(st.events, EventRow(eventId, c.s.id, c.to), c.s.status);
    case Relog(_, _) => RelogIsNoOp(st, a);
    case _ =>
  }

  lemma {:induction false} StampGood(st: State, call: CallId, eventId: Id, o: Outcome)
    requires Inv(st) && Enabled(st, LogEvent(call, eventId, o)) && o.ok
    ensures var next := Do(st, LogEvent(call, eventId, o)); GoodCall(next, next.calls[call])
  {
    var c, next := st.calls[call], Do(st, LogEvent(call, eventId, o));
    assert GoodCall(st, c);
    GoodStays(st, next, c.s);
    assert next.events[|next.events| - 1] == EventRow(eventId, c.s.id, c.to);
    assert HasEvent(next.events, c.s.id, c.to);
  }

  // The call that acted is in a good place afterwards.
  lemma {:induction false} ActorGood(st: State, a: Action, call: CallId)
    requires Inv(st) && Enabled(st, a)
    requires call in Do(st, a).calls && (call !in st.calls || Do(st, a).calls[call] != st.calls[call])
    ensures GoodCall(Do(st, a), Do(st, a).calls[call])
  {
    DoExtends(st, a);
    if call in st.calls {
      GoodCallStays(st, Do(st, a), st.calls[call]);
    }
    match a
    case LogEvent(c, eventId, o) => StampGood(st, c, eventId, o);
    case BeginUpdate(_, id, _) => GoodStays(st, Do(st, a), st.rows[id]);
    case ReadRow(c, _) => GoodStays(st, Do(st, a), st.rows[st.calls[c].id]);
    case _ =>
  }

  lemma {:induction false} CallsGood(st: State, a: Action)
    requires Inv(st) && Enabled(st, a)
    ensures forall c :: c in Do(st, a).calls ==> GoodCall(Do(st, a), Do(st, a).calls[c])
  {
    DoExtends(st, a);
    forall c | c in Do(st, a).calls ensures GoodCall(Do(st, a), Do(st, a).calls[c]) {
      if c in st.calls && Do(st, a).calls[c] == st.calls[c] {
        GoodCallStays(st, Do(st, a), st.calls[c]);
      } else {
        ActorGood(st, a, c);
      }
    }
  }

  lemma {:induction false} RowsGood(st: State, a: Action)
    requires Inv(st) && Enabled(st, a)
    ensures forall id :: id in Do(st, a).rows ==> Do(st, a).rows[id].id == id && Good(Do(st, a), Do(st, a).rows[id])
  {
    var next := Do(st, a);
    DoExtends(st, a);
    forall id | id in next.rows ensures next.rows[id].id == id && Good(next, next.rows[id]) {
      if id in st.rows && next.rows[id] == st.rows[id] {
        GoodStays(st, next, st.rows[id]);
      } else if a.SaveAnchor? || a.SaveUpdate? {
        assert GoodCall(st, st.calls[a.call]);
        GoodStays(st, next, st.calls[a.call].s);
      }
    }
  }

  lemma {:induction false} CacheGood(st: State, a: Action)
    requires Inv(st) && Enabled(st, a)
    ensures forall id :: id in Do(st, a).cache ==>
              && Do(st, a).cache[id].value.id == id && Good(Do(st, a), Do(st, a).cache[id].value)
              && Do(st, a).cache[id].readAt <= Do(st, a).cache[id].filledAt <= Do(st, a).now
  {
    var next := Do(st, a);
    DoExtends(st, a);
    forall id | id in next.cache
      ensures next.cache[id].value.id == id && Good(next, next.cache[id].value)
      ensures next.cache[id].readAt <= next.cache[id].filledAt <= next.now
    {
      if id in st.cache && next.cache[id] == st.cache[id] {
        GoodStays(st, next, st.cache[id].value);
      } else {
        assert GoodCall(st, st.calls[a.call]);
        GoodStays(st, next, st.calls[a.call].s);
      }
    }
  }

  lemma {:induction false} StepKeepsInv(st: State, a: Action)
    requires Inv(st) && Enabled(st, a)
    ensures Inv(Do(st, a))
  {
    RowsGood(st, a);
    CacheGood(st, a);
    CallsGood(st, a);
    DoCausal(st, a);
  }

  // The invariant holds in every state of every run.
  lemma {:induction false} RunKeepsInv(states: seq<State>, actions: seq<Action>, k: nat)
    requires IsRun(states, actions) && k < |states|
    ensures Inv(states[k])
  {
    if k > 0 {
      RunKeepsInv(states, actions, k - 1);
      StepKeepsInv(states[k - 1], actions[k - 1]);
    }
  }

  // ----- What it means -----

  // A value some reader could be handed: a stored row, a cache entry, or a copy a call holds.
  ghost predicate Visible(st: State, s: Shipment) {
    || (exists id :: id in st.rows && st.rows[id] == s)
    || (exists id :: id in st.cache && st.cache[id].value == s)
    || (exists c :: c in st.calls && !st.calls[c].Saved? && !st.calls[c].Relogging? && !st.calls[c].Missed? &&
                    st.calls[c].s == s)
  }

  // In every interleaving each copy has a delivery time exactly when it is DELIVERED, and a status other than
  // PENDING is never seen before the event that explains it is stored.
  lemma {:induction false} DeliveryStampCoherent(states: seq<State>, actions: seq<Action>, k: nat, s: Shipment)
    requires IsRun(states, actions) && k < |states| && Visible(states[k], s)
    ensures s.deliveredAt.Some? <==> s.status == Delivered
    ensures s.status == Pending || HasEvent(states[k].events, s.id, s.status)
  {
    RunKeepsInv(states, actions, k);
    var st := states[k];
    if c :| c in st.calls && !st.calls[c].Saved? && !st.calls[c].Relogging? && !st.calls[c].Missed? &&
            st.calls[c].s == s {
      assert GoodCall(st, st.calls[c]);
    }
  }

  // A legal path through the status graph, from PENDING to event k, picked out of the log in log order.
  ghost predicate IsPath(events: seq<EventRow>, path: seq<nat>) {
    && path != []
    && (forall i :: 0 <= i < |path| ==> path[i] < |events|)
    && (forall i :: 0 <= i < |path| - 1 ==>
          && path[i] < path[i + 1]
          && events[path[i]].shipmentId == events[path[i + 1]].shipmentId
          && IsValidTransition(events[path[i]].status, events[path[i + 1]].status))
    && IsValidTransition(Pending, events[path[0]].status)
  }

  lemma {:induction false} CausalPath(events: seq<EventRow>, k: nat) returns (path: seq<nat>)
    requires Causal(events) && k < |events|
    ensures IsPath(events, path) && path[|path| - 1] == k
    decreases k
  {
    assert Caused(events, k);
    var from :| Follows(events, k, from);
    if from == Pending {
      path := [k];
    } else {
      var m :| 0 <= m < |events[..k]| && events[..k][m].shipmentId == events[k].shipmentId
               && events[..k][m].status == from;
      path := CausalPath(events, m);
      path := path + [k];
    }
  }

  // Every event of every run ends a legal path from PENDING, whatever races produced the log.
  lemma {:induction false} EventsAreCaused(states: seq<State>, actions: seq<Action>, n: nat, k: nat)
    returns (path: seq<nat>)
    requires IsRun(states, actions) && n < |states| && k < |states[n].events|
    ensures IsPath(states[n].events, path) && path[|path| - 1] == k
  {
    RunKeepsInv(states, actions, n);
    path := CausalPath(states[n].events, k);
  }

  ghost predicate Precedes(events: seq<EventRow>, k: nat, status: Status)
    requires k < |events|
  {
    HasEvent(events[..k], events[k].shipmentId, status)
  }

  lemma {:induction false} PrecedesEarlier(events: seq<EventRow>, m: nat, k: nat, status: Status)
    requires m <= k < |events| && events[m].shipmentId == events[k].shipmentId && Precedes(events, m, status)
    ensures Precedes(events, k, status)
  {
    var i :| 0 <= i < |events[..m]| && events[..m][i].shipmentId == events[m].shipmentId
             && events[..m][i].status == status;
    assert events[..k][i] == events[..m][i];
  }

  lemma {:induction false} TransitAfterPickUp(events: seq<EventRow>, k: nat)
    requires Causal(events) && k < |events| && events[k].status in {InTransit, AtHub}
    ensures Precedes(events, k, PickedUp)
    ensures events[k].status == AtHub ==> Precedes(events, k, InTransit)
    decreases k
  {
    assert Caused(events, k);
    var from :| Follows(events, k, from);
    if from != PickedUp {
      var m :| 0 <= m < |events[..k]| && events[..k][m].shipmentId == events[k].shipmentId
               && events[..k][m].status == from;
      TransitAfterPickUp(events, m);
      PrecedesEarlier(events, m, k, PickedUp);
    }
  }

  // In the log of any shipment the first PICKED_UP, IN_TRANSIT, OUT_FOR_DELIVERY and DELIVERED come in that order,
  // and no RETURNED comes without an earlier FAILED: each such event has its predecessor before it.
  lemma {:induction false} MilestonesInOrder(states: seq<State>, actions: seq<Action>, n: nat, k: nat)
    requires IsRun(states, actions) && n < |states| && k < |states[n].events|
    ensures var events := states[n].events;
            && (events[k].status == InTransit ==> Precedes(events, k, PickedUp))
            && (events[k].status == OutForDelivery ==> Precedes(events, k, InTransit))
            && (events[k].status == Delivered ==> Precedes(events, k, OutForDelivery))
            && (events[k].status == Returned ==> Precedes(events, k, Failed))
            && events[k].status != Pending
  {
    RunKeepsInv(states, actions, n);
    var events := states[n].events;
    assert Caused(events, k);
    var from :| Follows(events, k, from);
    if events[k].status == InTransit {
      TransitAfterPickUp(events, k);
    } else if events[k].status == OutForDelivery && from == AtHub {
      var m :| 0 <= m < |events[..k]| && events[..k][m].shipmentId == events[k].shipmentId
               && events[..k][m].status == from;
      TransitAfterPickUp(events, m);
      PrecedesEarlier(events, m, k, InTransit);
    }
  }

  // ----- Staleness -----

  // The repository held this value for the shipment in some state up to k, at that time.
  ghost predicate HeldAt(states: seq<State>, k: nat, s: Shipment, time: Time) {
    exists m :: 0 <= m <= k && m < |states| && s.id in states[m].rows && states[m].rows[s.id] == s
                && states[m].now == time
  }

  lemma {:induction false} HeldStays(states: seq<State>, k: nat, s: Shipment, time: Time)
    requires HeldAt(states, k, s, time)
    ensures HeldAt(states, k + 1, s, time)
  {
  }

  ghost predicate EntriesHeld(states: seq<State>, k: nat)
    requires k < |states|
  {
    forall id :: id in states[k].cache ==> HeldAt(states, k, states[k].cache[id].value, states[k].cache[id].readAt)
  }

  ghost predicate ReadsHeld(states: seq<State>, k: nat)
    requires k < |states|
  {
    forall c :: c in states[k].calls && states[k].calls[c].Found? ==>
      HeldAt(states, k, states[k].calls[c].s, states[k].calls[c].readAt)
  }

  // A call holds a freshly read row only right after reading it.
  lemma {:induction false} FoundByReading(st: State, a: Action, c: CallId)
    requires Inv(st) && Enabled(st, a) && c in Do(st, a).calls && Do(st, a).calls[c].Found?
    requires !(c in st.calls && Do(st, a).calls[c] == st.calls[c])
    ensures var s := Do(st, a).calls[c].s;
            && s.id in Do(st, a).rows && Do(st, a).rows[s.id] == s
            && Do(st, a).calls[c].readAt == Do(st, a).now
  {
    assert a.ReadRow?;
  }

  lemma {:induction false} ReadsStayHeld(states: seq<State>, actions: seq<Action>, k: nat)
    requires IsRun(states, actions) && k + 1 < |states| && Inv(states[k]) && ReadsHeld(states, k)
    ensures ReadsHeld(states, k + 1)
  {
    var st, a := states[k], actions[k];
    var next := states[k + 1];
    forall c | c in next.calls && next.calls[c].Found?
      ensures HeldAt(states, k + 1, next.calls[c].s, next.calls[c].readAt)
    {
      if c in st.calls && next.calls[c] == st.calls[c] {
        HeldStays(states, k, st.calls[c].s, st.calls[c].readAt);
      } else {
        FoundByReading(st, a, c);
      }
    }
  }

  // A cache entry is kept, or comes from a call that had read the row.
  lemma {:induction false} EntryFilledOrKept(st: State, a: Action, id: Id)
    requires Enabled(st, a) && id in Do(st, a).cache
    ensures var entry := Do(st, a).cache[id];
            || (id in st.cache && st.cache[id] == entry)
            || (a.FillCache? && st.calls[a.call].s == entry.value && st.calls[a.call].readAt == entry.readAt)
  {
  }

  lemma {:induction false} EntriesStayHeld(states: seq<State>, actions: seq<Action>, k: nat)
    requires IsRun(states, actions) && k + 1 < |states| && EntriesHeld(states, k) && ReadsHeld(states, k)
    ensures EntriesHeld(states, k + 1)
  {
    var st, next := states[k], states[k + 1];
    assert next == Do(st, actions[k]);
    forall id | id in next.cache ensures HeldAt(states, k + 1, next.cache[id].value, next.cache[id].readAt) {
      EntryFilledOrKept(st, actions[k], id);
      HeldStays(states, k, next.cache[id].value, next.cache[id].readAt);
    }
  }

  // Every cache entry and every value about to be returned was a stored row when it was read.
  lemma {:induction false} CopiesWereHeld(states: seq<State>, actions: seq<Action>, k: nat)
    requires IsRun(states, actions) && k < |states|
    ensures EntriesHeld(states, k) && ReadsHeld(states, k)
  {
    if k > 0 {
      CopiesWereHeld(states, actions, k - 1);
      RunKeepsInv(states, actions, k - 1);
      ReadsStayHeld(states, actions, k - 1);
      EntriesStayHeld(states, actions, k - 1);
    }
  }

  // Bounded staleness, answered from the cache: the value was really stored at an instant less than 30 seconds
  // plus the entry's own read-to-fill delay ago, however many saves and failed invalidations came since.
  lemma {:induction false} CachedAnswerFresh(states: seq<State>, actions: seq<Action>, k: nat)
    requires IsRun(states, actions) && k < |actions| && actions[k].GetHit?
    ensures var st, entry := states[k], states[k].cache[actions[k].id];
            && entry.value.id == actions[k].id
            && HeldAt(states, k, entry.value, entry.readAt)
            && st.now - entry.readAt < 30 + (entry.filledAt - entry.readAt)
  {
    CopiesWereHeld(states, actions, k);
    RunKeepsInv(states, actions, k);
  }

  // Answered from the repository: the value was stored when the call read it.
  lemma {:induction false} ReadAnswerFresh(states: seq<State>, actions: seq<Action>, k: nat)
    requires IsRun(states, actions) && k < |actions| && actions[k].FillCache?
    ensures var c := states[k].calls[actions[k].call];
            HeldAt(states, k, c.s, c.readAt) && c.readAt <= states[k].now
  {
    CopiesWereHeld(states, actions, k);
    RunKeepsInv(states, actions, k);
    assert GoodCall(states[k], states[k].calls[actions[k].call]);
  }
}
