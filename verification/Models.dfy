// The request the route optimizer reads. Labels, time windows and the objective are never read by the solver.
module Models {

  type Uuid = int

  datatype Coordinate = Coordinate(lat: real, lng: real)

  datatype Stop = Stop(id: Uuid, coordinate: Coordinate, serviceMinutes: nat, demand: real)

  datatype Vehicle = Vehicle(id: Uuid, capacity: real, maxStops: nat)

  datatype RouteOptimizationRequest =
    RouteOptimizationRequest(depot: Coordinate, stops: seq<Stop>, vehicles: seq<Vehicle>)

  // The distance between two coordinates; the three hypotheses below are asked for only where used.
  type Distance = (Coordinate, Coordinate) -> real

  ghost predicate NonNegative(d: Distance) {
    forall a, b :: d(a, b) >= 0.0
  }

  ghost predicate Symmetric(d: Distance) {
    forall a, b :: d(a, b) == d(b, a)
  }

  ghost predicate Triangle(d: Distance) {
    forall a, b, c :: d(a, c) <= d(a, b) + d(b, c)
  }

  function Abs(x: real): real {
    if x >= 0.0 then x else -x
  }

  // A distance with all three.
  function Manhattan(a: Coordinate, b: Coordinate): real {
    Abs(a.lat - b.lat) + Abs(a.lng - b.lng)
  }

  lemma {:induction false} ManhattanMetric()
    ensures NonNegative(Manhattan) && Symmetric(Manhattan) && Triangle(Manhattan)
  {
  }

  const ORIGIN: Coordinate := Coordinate(0.0, 0.0)

  function DemandOf(s: Stop): real { s.demand }

  function ServiceOf(s: Stop): real { s.serviceMinutes as real }
}
