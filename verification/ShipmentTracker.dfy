// The contract's storage and functions, updated in place.
module ShipmentTracker {
  import opened Wrappers
  import opened Ledger

  datatype Receipt = Success | Reverted(error: Error)

  class Tracker {
    var events: map<Str, seq<Entry>>
    var totalEvents: nat
    var admins: set<Address>
    var recorders: set<Address>
    var paused: bool

    constructor (admin: Address)
      requires admin != ZERO_ADDRESS
      ensures Deployed(admin) == Ok(View())
    {
      events, totalEvents, admins, recorders, paused := map[], 0, {admin}, {admin}, false;
    }

    function View(): State
      reads this
    {
      State(events, totalEvents, admins, recorders, paused)
    }

    method RecordEvent(sender: Address, timestamp: nat, shipmentId: Str, status: Str, notes: Str)
      returns (r: Receipt)
      modifies this
      ensures Receives(old(View()), Call.RecordEvent(sender, shipmentId, status, notes, timestamp), r, View())
      ensures r == Success <==>
                && sender in old(recorders) && !old(paused)
                && 1 <= |shipmentId| <= 36 && 1 <= |status| <= 64 && |notes| <= 256
                && |old(GetEvents(shipmentId))| < 200
      ensures r == Success ==>
                GetEvents(shipmentId) == old(GetEvents(shipmentId)) + [Entry(status, notes, sender, timestamp)]
      ensures r != Success ==> View() == old(View())
    {
      if sender !in recorders {
        return Reverted(MissingRole);
      }
      if paused {
        return Reverted(IsPaused);
      }
      if |shipmentId| == 0 || |shipmentId| > MAX_ID_LEN {
        return Reverted(InvalidShipmentIdLength);
      }
      if |status| == 0 || |status| > MAX_STATUS_LEN {
        return Reverted(InvalidStatusLength);
      }
      if |notes| > MAX_STR_LEN {
        return Reverted(NotesTooLong);
      }
      if |GetEvents(shipmentId)| >= MAX_EVENTS_PER_SHIPMENT {
        return Reverted(TooManyEventsForShipment);
      }
      events := events[shipmentId := GetEvents(shipmentId) + [Entry(status, notes, sender, timestamp)]];
      totalEvents := (totalEvents + 1) % UINT256;
      return Success;
    }

    function GetEvents(shipmentId: Str): seq<Entry>
      reads this
    {
      EventsOf(events, shipmentId)
    }

    // The newest entry, or a revert when there is none.
    function GetLatestEvent(shipmentId: Str): (r: Result<Entry, Error>)
      reads this
      ensures GetEvents(shipmentId) == [] <==> r == Err(NoEvents)
      ensures forall older, e :: GetEvents(shipmentId) == older + [e] ==> r == Ok(e)
    {
      var entries := EventsOf(events, shipmentId);
      if |entries| > 0 then Ok(entries[|entries| - 1]) else Err(NoEvents)
    }

    method GrantRecorder(sender: Address, account: Address) returns (r: Receipt)
      modifies this
      ensures Receives(old(View()), Call.GrantRecorder(sender, account), r, View())
      ensures r == Success <==> sender in old(admins)
      ensures r == Success ==> View() == old(View()).(recorders := old(recorders) + {account})
      ensures r != Success ==> View() == old(View())
    {
      if sender !in admins {
        return Reverted(MissingRole);
      }
      recorders := recorders + {account};
      return Success;
    }

    method RevokeRecorder(sender: Address, account: Address) returns (r: Receipt)
      modifies this
      ensures Receives(old(View()), Call.RevokeRecorder(sender, account), r, View())
      ensures r == Success <==> sender in old(admins)
      ensures r == Success ==> View() == old(View()).(recorders := old(recorders) - {account})
      ensures r != Success ==> View() == old(View())
    {
      if sender !in admins {
        return Reverted(MissingRole);
      }
      recorders := recorders - {account};
      return Success;
    }

    method Pause(sender: Address) returns (r: Receipt)
      modifies this
      ensures Receives(old(View()), Call.Pause(sender), r, View())
      ensures r == Success <==> sender in old(admins) && !old(paused)
      ensures r == Success ==> View() == old(View()).(paused := true)
      ensures r != Success ==> View() == old(View())
    {
      if sender !in admins {
        return Reverted(MissingRole);
      }
      if paused {
        return Reverted(IsPaused);
      }
      paused := true;
      return Success;
    }

    method Unpause(sender: Address) returns (r: Receipt)
      modifies this
      ensures Receives(old(View()), Call.Unpause(sender), r, View())
      ensures r == Success <==> sender in old(admins) && old(paused)
      ensures r == Success ==> View() == old(View()).(paused := false)
      ensures r != Success ==> View() == old(View())
    {
      if sender !in admins {
        return Reverted(MissingRole);
      }
      if !paused {
        return Reverted(IsNotPaused);
      }
      paused := false;
      return Success;
    }
  }

  // The receipt and the new storage are those of the call.
  predicate Receives(before: State, call: Call, r: Receipt, after: State) {
    match Exec(before, call)
    case Ok(next) => r == Success && after == next
    case Err(e) => r == Reverted(e) && after == before
  }
}
