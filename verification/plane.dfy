/** The record the airport keeps for one flight. The plane refers to the runway it holds
    by number; runway numbers are unique within the airport's registry. */
module Planes {
  import opened Wrappers
  import opened Errors
  import opened PlaneStatuses
  import opened Runways

  datatype Plane = Plane(flight: string, city: string, status: PlaneStatus, runway: Option<int>)

  /** A plane on its way in: status `Due`, no runway. */
  function NewPlane(flight: string, city: string): (p: Plane)
    ensures p.flight == flight && p.city == city
    ensures p.status == Due && Ordinal(p.status) == 0
    ensures !IsAllocatedRunway(p)
  {
    Plane(flight, city, Due, None)
  }

  /** Whether the plane holds a runway. */
  predicate IsAllocatedRunway(p: Plane) {
    p.runway.Some?
  }

  /** The number of the runway the plane holds; fails when it holds none. */
  function GetRunwayNumber(p: Plane): (r: Result<int, AirportError>)
    ensures r.Success? <==> IsAllocatedRunway(p)
    ensures r.Success? ==> p.runway == Some(r.value)
    ensures r.Failure? ==> r.error == NoRunwayAssigned
  {
    match p.runway
    case None => Failure(NoRunwayAssigned)
    case Some(k) => Success(k)
  }

  /** A plane together with the runway registry it shares with the airport. */
  datatype Allocation = Allocation(plane: Plane, runways: seq<bool>)

  /** Gives the plane runway `r` (None stands for a null runway) and books it. Fails on a
      null or already booked runway. Whether the plane already holds a runway is NOT
      checked here; the airport checks that before it calls. */
  function AllocateRunway(p: Plane, rs: seq<bool>, r: Option<int>): (res: Result<Allocation, AirportError>)
    requires r.Some? ==> IsRunwayOf(rs, r.value)
    ensures res.Failure? <==> r.None? || rs[r.value - 1]
    ensures res.Failure? ==> res.error == if r.None? then NullRunway else RunwayTaken
    ensures res.Success? ==> res.value.plane.runway == r
    ensures res.Success? ==> SameFlightSameStatus(p, res.value.plane) && res.value.plane.city == p.city
    ensures res.Success? ==> res.value.runways == BookAt(rs, r.value)
    ensures res.Success? ==> RunwayAt(res.value.runways, r.value).isAllocated
  {
    match r
    case None => Failure(NullRunway)
    case Some(k) =>
      if RunwayAt(rs, k).isAllocated then Failure(RunwayTaken)
      else Success(Allocation(p.(runway := r), BookAt(rs, k)))
  }

  /** Frees the runway the plane holds, keeping the plane's reference to it; fails when it
      holds none. */
  function VacateRunway(p: Plane, rs: seq<bool>): (res: Result<Allocation, AirportError>)
    ensures res.Failure? <==> !IsAllocatedRunway(p)
    ensures res.Failure? ==> res.error == NoRunwayToVacate
    ensures res.Success? ==> res.value.plane == p
    ensures res.Success? ==> res.value.runways == VacateAt(rs, p.runway.value)
    ensures res.Success? && IsRunwayOf(rs, p.runway.value) ==> !RunwayAt(res.value.runways, p.runway.value).isAllocated
  {
    match p.runway
    case None => Failure(NoRunwayToVacate)
    case Some(k) => Success(Allocation(p, VacateAt(rs, k)))
  }

  /** Allocating a free runway and then vacating it leaves the registry as it was, with the
      plane still referring to the runway. */
  lemma VacateUndoesAllocate(p: Plane, rs: seq<bool>, k: int)
    requires IsRunwayOf(rs, k) && !rs[k - 1]
    ensures AllocateRunway(p, rs, Some(k)).Success?
    ensures var al := AllocateRunway(p, rs, Some(k)).value;
            VacateRunway(al.plane, al.runways) == Success(Allocation(al.plane, rs))
  {
    VacateUndoesBook(rs, k);
  }

  /** Same flight number and status. */
  predicate SameFlightSameStatus(p: Plane, q: Plane) {
    p.flight == q.flight && p.status == q.status
  }

  /** Advances the status one step along the lifecycle; fails from `Departing`. */
  function UpgradeStatus(p: Plane): (r: Result<Plane, AirportError>)
    ensures r.Failure? <==> p.status == Departing
    ensures r.Failure? ==> r.error == StatusIsTerminal
    ensures r.Success? ==> Next(p.status) == Some(r.value.status)
    ensures r.Success? ==> Ordinal(r.value.status) == Ordinal(p.status) + 1
    ensures r.Success? ==> r.value.flight == p.flight && r.value.city == p.city && r.value.runway == p.runway
  {
    match p.status
    case Due => Success(p.(status := Waiting))
    case Waiting => Success(p.(status := Landed))
    case Landed => Success(p.(status := Departing))
    case Departing => Failure(StatusIsTerminal)
  }

  /** Replaces the city the flight is associated with; nothing else changes. */
  function ChangeCity(p: Plane, destination: string): (p': Plane)
    ensures p'.city == destination
    ensures SameFlightSameStatus(p, p') && p'.runway == p.runway
  {
    p.(city := destination)
  }

  /** A call that changes a plane on its own. */
  datatype PlaneCall = Upgrade | Relocate(destination: string)

  /** The plane after the call, and whether the call was accepted. */
  function ApplyCall(p: Plane, c: PlaneCall): Plane {
    match c
    case Upgrade => (match UpgradeStatus(p) case Success(q) => q case Failure(_) => p)
    case Relocate(d) => ChangeCity(p, d)
  }

  function ReplayCalls(p: Plane, calls: seq<PlaneCall>): Plane
    decreases |calls|
  {
    if |calls| == 0 then p else ApplyCall(ReplayCalls(p, calls[..|calls| - 1]), calls[|calls| - 1])
  }

  /** Over any sequence of calls the flight number and the runway stay fixed and the
      status never moves backwards. */
  lemma {:induction false} FlightNumberFixedStatusMonotone(p: Plane, calls: seq<PlaneCall>)
    ensures ReplayCalls(p, calls).flight == p.flight
    ensures ReplayCalls(p, calls).runway == p.runway
    ensures Ordinal(p.status) <= Ordinal(ReplayCalls(p, calls).status)
    decreases |calls|
  {
    if |calls| > 0 {
      FlightNumberFixedStatusMonotone(p, calls[..|calls| - 1]);
    }
  }

  /** Plane equality: a non-null plane with the same flight number. */
  function Equals(p: Plane, other: Option<Plane>): (b: bool)
    ensures other.None? ==> !b
    ensures b ==> HashCode(p) == HashCode(other.value)
  {
    other.Some? && p.flight == other.value.flight
  }

  /** Equality of planes is an equivalence relation determined by the flight number. */
  lemma EqualsIsEquivalence(p: Plane, q: Plane, r: Plane)
    ensures Equals(p, Some(p))
    ensures Equals(p, Some(q)) <==> Equals(q, Some(p))
    ensures Equals(p, Some(q)) && Equals(q, Some(r)) ==> Equals(p, Some(r))
    ensures Equals(p, Some(q)) <==> p.flight == q.flight
    ensures !Equals(p, None)
  {
  }

  // ---- hashing, in 32-bit two's-complement arithmetic ----

  const TwoTo32: int := 0x1_0000_0000
  const TwoTo31: int := 0x8000_0000

  /** Wraps an integer into the signed 32-bit range, as Java int arithmetic does. */
  function Wrap32(x: int): (r: int)
    ensures -TwoTo31 <= r < TwoTo31
    ensures (r - x) % TwoTo32 == 0
  {
    (x + TwoTo31) % TwoTo32 - TwoTo31
  }

  /** The string hash: h := 31 * h + c over the characters, in int arithmetic. */
  function StringHash(s: string): (h: int)
    ensures -TwoTo31 <= h < TwoTo31
    decreases |s|
  {
    if |s| == 0 then 0 else Wrap32(31 * StringHash(s[..|s| - 1]) + s[|s| - 1] as int)
  }

  /** The plane's hash code: the hash of the one-element array holding its flight number. */
  function HashCode(p: Plane): (h: int)
    ensures -TwoTo31 <= h < TwoTo31
  {
    Wrap32(31 + StringHash(p.flight))
  }

  /** Equal planes have equal hash codes, so a hash set of planes keeps one per flight number. */
  lemma HashCodeAgreesWithEquals(p: Plane, q: Plane)
    requires Equals(p, Some(q))
    ensures HashCode(p) == HashCode(q)
  {
  }
}
