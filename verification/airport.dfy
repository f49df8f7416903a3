/** The airport engine: the registered planes by flight number, the queue of circling
    flights, and the runway registry. Every public operation either returns the new engine
    state or is rejected; the operations other than take-off check all of their conditions
    before they change anything, so a rejected call leaves the state as it was. */
module Airports {
  import opened Wrappers
  import opened Errors
  import opened PlaneStatuses
  import opened Runways
  import opened Planes

  datatype Airport = Airport(planes: map<string, Plane>, circlingQ: seq<string>, runways: seq<bool>)

  /** The state after a call that may fail part-way, and what the call returned. */
  datatype Outcome<+T> = Outcome(airport: Airport, result: Result<T, AirportError>)

  /** An accepted arrival: the new state and the runway granted, 0 when the flight circles. */
  datatype Arrival = Arrival(airport: Airport, runway: int)

  /** Builds an airport with runways 1..n, all free, no planes and an empty queue. A
      negative count is rejected; zero runways is accepted. */
  function NewAirport(n: int): (r: Result<Airport, AirportError>)
    ensures r.Failure? <==> n < 0
    ensures r.Failure? ==> r.error == BadRunwayCount
    ensures r.Success? ==> |r.value.runways| == n && r.value.planes == map[] && r.value.circlingQ == []
    ensures r.Success? ==> forall k :: IsRunwayOf(r.value.runways, k) ==> RunwayAt(r.value.runways, k) == Runway(k, false)
  {
    if n < 0 then Failure(BadRunwayCount) else Success(Airport(map[], [], NewRegistry(n)))
  }

  /** The registered plane with flight number `id`. */
  function GetPlane(a: Airport, id: string): (r: Result<Plane, AirportError>)
    ensures r.Success? <==> id in a.planes
    ensures r.Success? ==> r.value == a.planes[id]
    ensures r.Failure? ==> r.error == UnknownFlight
  {
    if id !in a.planes then Failure(UnknownFlight) else Success(a.planes[id])
  }

  /** Registers a new flight coming from `city`. */
  function RegisterFlight(a: Airport, id: string, city: string): (r: Result<Airport, AirportError>)
    ensures r.Failure? <==> id in a.planes
    ensures r.Failure? ==> r.error == DuplicateFlight
    ensures r.Success? ==> r.value.planes.Keys == a.planes.Keys + {id}
    ensures r.Success? ==> var p := r.value.planes[id];
              p.flight == id && p.city == city && p.status == Due && p.runway.None?
    ensures r.Success? ==> forall f :: f in a.planes ==> r.value.planes[f] == a.planes[f]
    ensures r.Success? ==> r.value.circlingQ == a.circlingQ && r.value.runways == a.runways
  {
    if id in a.planes then Failure(DuplicateFlight)
    else Success(a.(planes := a.planes[id := NewPlane(id, city)]))
  }

  /** `b` differs from `a` at most in the plane registered as `id`. */
  predicate OthersUnchanged(a: Airport, b: Airport, id: string) {
    && b.planes.Keys == a.planes.Keys
    && forall f :: f in a.planes && f != id ==> b.planes[f] == a.planes[f]
  }

  /** Gives flight `id` runway `r` (None for no runway). Rejected when the flight is
      unknown, has landed, already holds a runway, or the runway is missing or booked.
      A `Due` flight becomes `Waiting`; a `Waiting` one stays so. */
  function Descend(a: Airport, id: string, r: Option<int>): (res: Result<Airport, AirportError>)
    requires r.Some? ==> IsRunwayOf(a.runways, r.value)
    ensures res.Failure? <==>
              || id !in a.planes
              || Ordinal(Waiting) < Ordinal(a.planes[id].status)
              || a.planes[id].runway.Some?
              || r.None? || a.runways[r.value - 1]
    ensures res.Failure? ==> res.error == DescendError(a, id, r)
    ensures res.Success? ==> OthersUnchanged(a, res.value, id) && res.value.circlingQ == a.circlingQ
    ensures res.Success? ==> var p, q := a.planes[id], res.value.planes[id];
              q.flight == p.flight && q.city == p.city && q.status == Waiting && q.runway == r
    ensures res.Success? ==> res.value.runways == BookAt(a.runways, r.value)
  {
    var p :- GetPlane(a, id);
    if CompareTo(p.status, Waiting) > 0 then Failure(AlreadyInAirport)
    else if IsAllocatedRunway(p) then Failure(AlreadyHasRunway)
    else
      var al :- AllocateRunway(p, a.runways, r);
      var q := if al.plane.status == Due then UpgradeStatus(al.plane).value else al.plane;
      Success(a.(planes := a.planes[id := q], runways := al.runways))
  }

  /** The error a rejected `Descend` reports: its checks in the order they are made. */
  function DescendError(a: Airport, id: string, r: Option<int>): AirportError
    requires r.Some? ==> IsRunwayOf(a.runways, r.value)
  {
    if id !in a.planes then UnknownFlight
    else if Ordinal(Waiting) < Ordinal(a.planes[id].status) then AlreadyInAirport
    else if a.planes[id].runway.Some? then AlreadyHasRunway
    else if r.None? then NullRunway
    else RunwayTaken
  }

  /** Puts a `Due` flight into the circling queue as `Waiting`. */
  function Circle(a: Airport, id: string): (res: Result<Airport, AirportError>)
    ensures res.Failure? <==> id !in a.planes || a.planes[id].status != Due
    ensures res.Failure? ==> res.error == if id !in a.planes then UnknownFlight else AlreadyArrived
    ensures res.Success? ==> OthersUnchanged(a, res.value, id)
    ensures res.Success? ==> res.value.planes[id] == a.planes[id].(status := Waiting)
    ensures res.Success? ==> res.value.circlingQ == a.circlingQ + [id] && res.value.runways == a.runways
  {
    var p :- GetPlane(a, id);
    if p.status != Due then Failure(AlreadyArrived)
    else
      var q := UpgradeStatus(p).value;
      Success(a.(planes := a.planes[id := q], circlingQ := a.circlingQ + [id]))
  }

  /** Flight `id` announces its arrival. When a runway is free it is granted the
      lowest-numbered one, whose number is returned; otherwise a `Due` flight joins the
      tail of the circling queue and 0 is returned. */
  function ArriveAtAirport(a: Airport, id: string): (r: Result<Arrival, AirportError>)
    // some runway is free
    ensures NextFreeRunway(a.runways).Some? ==>
              (r.Failure? <==> id !in a.planes || Ordinal(Waiting) < Ordinal(a.planes[id].status) || a.planes[id].runway.Some?)
    ensures NextFreeRunway(a.runways).Some? && r.Failure? ==>
              r.error == DescendError(a, id, NextFreeRunway(a.runways))
    ensures NextFreeRunway(a.runways).Some? && r.Success? ==>
              var k, b := r.value.runway, r.value.airport;
              && IsRunwayOf(a.runways, k) && !a.runways[k - 1]
              && id in a.planes && OthersUnchanged(a, b, id)
              && (forall i :: 0 <= i < k - 1 ==> a.runways[i])
              && b.runways == BookAt(a.runways, k)
              && b.planes[id] == a.planes[id].(status := Waiting, runway := Some(k))
              && b.circlingQ == a.circlingQ
    // every runway is booked
    ensures NextFreeRunway(a.runways).None? ==>
              (r.Failure? <==> id !in a.planes || a.planes[id].status != Due)
    ensures NextFreeRunway(a.runways).None? && r.Failure? ==>
              r.error == if id !in a.planes then UnknownFlight else AlreadyArrived
    ensures NextFreeRunway(a.runways).None? && r.Success? ==>
              var b := r.value.airport;
              && r.value.runway == 0
              && id in a.planes && OthersUnchanged(a, b, id)
              && b.planes[id] == a.planes[id].(status := Waiting)
              && b.circlingQ == a.circlingQ + [id] && b.runways == a.runways
  {
    match NextFreeRunway(a.runways)
    case Some(k) =>
      var b :- Descend(a, id, Some(k));
      Success(Arrival(b, k))
    case None =>
      var b :- Circle(a, id);
      Success(Arrival(b, 0))
  }

  /** Flight `id` reports that it has landed on runway `n`. The runway number is read
      before the status is looked at, so a plane holding no runway is rejected for that
      reason whatever its status. */
  function LandAtAirport(a: Airport, id: string, n: int): (r: Result<Airport, AirportError>)
    ensures r.Failure? <==>
              || id !in a.planes
              || a.planes[id].runway != Some(n)
              || a.planes[id].status != Waiting
    ensures r.Failure? ==> r.error == LandingError(a, id, n)
    ensures r.Success? ==> OthersUnchanged(a, r.value, id)
    ensures r.Success? ==> r.value.planes[id] == a.planes[id].(status := Landed)
    ensures r.Success? ==> r.value.circlingQ == a.circlingQ && r.value.runways == a.runways
  {
    var p :- GetPlane(a, id);
    var k :- GetRunwayNumber(p);
    if k != n then Failure(WrongRunway)
    else if p.status == Due then Failure(NeverArrived)
    else if CompareTo(p.status, Waiting) > 0 then Failure(AlreadyLanded)
    else
      var q := UpgradeStatus(p).value;
      Success(a.(planes := a.planes[id := q]))
  }

  /** The error a rejected landing reports: its checks in the order they are made. */
  function LandingError(a: Airport, id: string, n: int): AirportError {
    if id !in a.planes then UnknownFlight
    else if a.planes[id].runway.None? then NoRunwayAssigned
    else if a.planes[id].runway != Some(n) then WrongRunway
    else if a.planes[id].status == Due then NeverArrived
    else AlreadyLanded
  }

  /** Boarding is announced for landed flight `id`, which now leaves for `destination`. */
  function ReadyForBoarding(a: Airport, id: string, destination: string): (r: Result<Airport, AirportError>)
    ensures r.Failure? <==> id !in a.planes || a.planes[id].status != Landed
    ensures r.Failure? ==>
              r.error == if id !in a.planes then UnknownFlight
                         else if a.planes[id].status == Departing then AlreadyDeparting
                         else NotLanded
    ensures r.Success? ==> OthersUnchanged(a, r.value, id)
    ensures r.Success? ==> r.value.planes[id] == a.planes[id].(status := Departing, city := destination)
    ensures r.Success? ==> r.value.circlingQ == a.circlingQ && r.value.runways == a.runways
  {
    var p :- GetPlane(a, id);
    if CompareTo(p.status, Landed) < 0 then Failure(NotLanded)
    else if p.status == Departing then Failure(AlreadyDeparting)
    else
      var q := UpgradeStatus(p).value;
      Success(a.(planes := a.planes[id := ChangeCity(q, destination)]))
  }

  /** The departing flight `id` frees its runway and is removed. */
  function Leave(a: Airport, id: string): (r: Result<Airport, AirportError>)
    ensures r.Failure? <==> id !in a.planes || a.planes[id].status != Departing || a.planes[id].runway.None?
    ensures r.Failure? ==>
              r.error == if id !in a.planes then UnknownFlight
                         else if Ordinal(a.planes[id].status) < Ordinal(Landed) then NotLanded
                         else if a.planes[id].status == Landed then BoardingNotAnnounced
                         else NoRunwayToVacate
    ensures r.Success? ==> r.value.planes == a.planes - {id}
    ensures r.Success? ==> r.value.runways == VacateAt(a.runways, a.planes[id].runway.value)
    ensures r.Success? ==> r.value.circlingQ == a.circlingQ
  {
    var p :- GetPlane(a, id);
    if CompareTo(p.status, Landed) < 0 then Failure(NotLanded)
    else if p.status == Landed then Failure(BoardingNotAnnounced)
    else
      var v :- VacateRunway(p, a.runways);
      Success(a.(planes := a.planes - {id}, runways := v.runways))
  }

  /** Takes the head of the circling queue off the queue and returns its plane, or None
      when the queue is empty. The head is removed even when it is not registered. */
  function NextToLand(a: Airport): (o: Outcome<Option<Plane>>)
    ensures |a.circlingQ| == 0 ==> o == Outcome(a, Success(None))
    ensures |a.circlingQ| > 0 ==> o.airport == a.(circlingQ := a.circlingQ[1..])
    ensures |a.circlingQ| > 0 ==> (o.result.Success? <==> a.circlingQ[0] in a.planes)
    ensures |a.circlingQ| > 0 && o.result.Success? ==> o.result.value == Some(a.planes[a.circlingQ[0]])
  {
    if |a.circlingQ| == 0 then Outcome(a, Success(None))
    else
      var head := a.circlingQ[0];
      var b := a.(circlingQ := a.circlingQ[1..]);
      match GetPlane(b, head)
      case Failure(e) => Outcome(b, Failure(e))
      case Success(p) => Outcome(b, Success(Some(p)))
  }

  /** Departing flight `id` takes off: its runway is freed and its record removed, and then
      the head of the circling queue, if any, is given the lowest free runway and returned.
      The take-off is committed before the promotion is tried, so a failed promotion
      leaves the take-off in place. */
  function TakeOff(a: Airport, id: string): (o: Outcome<Option<Plane>>)
    ensures Leave(a, id).Failure? ==> o == Outcome(a, Failure(Leave(a, id).error))
    ensures Leave(a, id).Success? && |a.circlingQ| == 0 ==> o == Outcome(Leave(a, id).value, Success(None))
    ensures o.result.Success? && o.result.value.Some? ==>
              && |a.circlingQ| > 0
              && var head := a.circlingQ[0];
              && head in o.airport.planes
              && o.result.value == Some(o.airport.planes[head])
              && o.airport.circlingQ == a.circlingQ[1..]
              && o.airport.planes.Keys == a.planes.Keys - {id}
  {
    match Leave(a, id)
    case Failure(e) => Outcome(a, Failure(e))
    case Success(b) =>
      var next := NextToLand(b);
      match next.result
      case Failure(e) => next
      case Success(None) => next
      case Success(Some(p)) =>
        var c := next.airport;
        var vacant := NextFreeRunway(c.runways);
        match Descend(c, p.flight, vacant)
        case Failure(e) => Outcome(c, Failure(e))
        case Success(d) => Outcome(d, Success(Some(d.planes[b.circlingQ[0]])))
  }

  /** The registered planes that are not departing. */
  function GetArrivals(a: Airport): (s: set<Plane>)
    ensures forall p :: p in s <==> p in a.planes.Values && p.status != Departing
  {
    set f | f in a.planes && a.planes[f].status != Departing :: a.planes[f]
  }

  /** The registered planes that are departing. */
  function GetDepartures(a: Airport): (s: set<Plane>)
    ensures forall p :: p in s <==> p in a.planes.Values && p.status == Departing
  {
    set f | f in a.planes && a.planes[f].status == Departing :: a.planes[f]
  }

  /** The number of runways, fixed at construction. */
  function GetNumberOfRunways(a: Airport): (n: nat)
    ensures n == |a.runways|
  {
    |a.runways|
  }

  /** Arrivals and departures split the registered planes between them. */
  lemma ArrivalsAndDeparturesPartition(a: Airport)
    ensures GetArrivals(a) + GetDepartures(a) == a.planes.Values
    ensures GetArrivals(a) !! GetDepartures(a)
  {
  }

  /** Announcing boarding moves the plane from the arrivals to the departures. */
  lemma BoardingMovesPlaneToDepartures(a: Airport, id: string, destination: string)
    requires ReadyForBoarding(a, id, destination).Success?
    ensures var b := ReadyForBoarding(a, id, destination).value;
            && a.planes[id] in GetArrivals(a) && a.planes[id] !in GetDepartures(a)
            && b.planes[id] in GetDepartures(b) && b.planes[id] !in GetArrivals(b)
            && b.planes[id].city == destination
  {
  }

  /** After a take-off its flight number is free to be registered again. */
  lemma TakeOffFreesFlightNumber(a: Airport, id: string, city: string)
    requires TakeOff(a, id).result.Success?
    ensures id !in TakeOff(a, id).airport.planes
    ensures RegisterFlight(TakeOff(a, id).airport, id, city).Success?
  {
  }

  /** A take-off that gets past `leave` stays done whatever the promotion does: the flight
      is gone and the queue head has been dequeued, and when the promotion fails the state
      is the departed one with the shorter queue. */
  lemma TakeOffCommitsBeforePromoting(a: Airport, id: string)
    requires Leave(a, id).Success? && |a.circlingQ| > 0
    ensures var o := TakeOff(a, id);
            && id !in o.airport.planes
            && o.airport.circlingQ == a.circlingQ[1..]
            && (o.result.Failure? ==> o.airport == Leave(a, id).value.(circlingQ := a.circlingQ[1..]))
  {
  }
}
