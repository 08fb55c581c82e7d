// Places for a failing request: two sides of a hub, nearer to each other across than along.
module Hubs {
  import opened Models
  import opened Tours
  import opened Merging
  import opened Savings

  function Demands(stops: seq<Stop>): (demands: seq<real>)
    ensures |demands| == |stops| && forall k :: 0 <= k < |stops| ==> demands[k] == stops[k].demand
  {
    seq(|stops|, k requires 0 <= k < |stops| => stops[k].demand)
  }

  // Two places are 2 apart, unless one is on side 1 and the other on side 2: then they are 1 apart.
  function Hub(a: Coordinate, b: Coordinate): real {
    if a == b then 0.0
    else if (a.lng == 1.0 && b.lng == 2.0) || (a.lng == 2.0 && b.lng == 1.0) then 1.0
    else 2.0
  }

  lemma {:induction false} HubMetric()
    ensures NonNegative(Hub) && Symmetric(Hub) && Triangle(Hub)
  {
  }

  // The stops in near are on side 1, the others on side 2; the depot is on neither.
  function HubStops(demands: seq<real>, near: set<nat>): (stops: seq<Stop>)
    ensures Demands(stops) == demands
    ensures forall k: nat :: k < |stops| ==>
              stops[k] == Stop(k, Coordinate(k as real, if k in near then 1.0 else 2.0), 0, demands[k])
  {
    seq(|demands|, (k: nat) requires k < |demands| =>
      Stop(k, Coordinate(k as real, if k in near then 1.0 else 2.0), 0, demands[k]))
  }

  // Pairs across the hub save more.
  lemma {:induction false} HubSaving(demands: seq<real>, near: set<nat>, i: nat, j: nat)
    requires i < j < |demands|
    ensures SavingOf(Hub, ORIGIN, HubStops(demands, near)[i], HubStops(demands, near)[j]) ==
            if (i in near) != (j in near) then 3.0 else 2.0
  {
  }
}
