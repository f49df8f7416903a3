/** The invariant the engine keeps, and proofs that every operation keeps it. */
module AirportInvariant {
  import opened Wrappers
  import opened Errors
  import opened PlaneStatuses
  import opened Runways
  import opened Planes
  import opened Airports

  /** Registered flight `id` holds runway `k`. */
  predicate Holds(a: Airport, id: string, k: int) {
    id in a.planes && a.planes[id].runway == Some(k)
  }

  /** Registered flight `id` is waiting without a runway. */
  predicate Circling(a: Airport, id: string) {
    id in a.planes && a.planes[id].status == Waiting && a.planes[id].runway.None?
  }

  /** Each plane is registered under its own flight number. */
  ghost predicate KeysMatch(a: Airport) {
    forall id :: id in a.planes ==> a.planes[id].flight == id
  }

  /** Every runway a plane holds is one of the airport's. */
  ghost predicate HeldInRange(a: Airport) {
    forall id, k :: Holds(a, id, k) ==> IsRunwayOf(a.runways, k)
  }

  /** No runway is held by two planes. */
  ghost predicate Exclusive(a: Airport) {
    forall i, j, k :: Holds(a, i, k) && Holds(a, j, k) ==> i == j
  }

  /** A runway is booked exactly when some plane holds it. */
  ghost predicate Occupancy(a: Airport) {
    forall k :: IsRunwayOf(a.runways, k) ==> (a.runways[k - 1] <==> exists id :: Holds(a, id, k))
  }

  /** A plane holds a runway from its arrival until it leaves: never while `Due`, always
      once it has landed. */
  ghost predicate RunwayMatchesStatus(a: Airport) {
    forall id :: id in a.planes ==>
      && (a.planes[id].status == Due ==> a.planes[id].runway.None?)
      && (Ordinal(Waiting) < Ordinal(a.planes[id].status) ==> a.planes[id].runway.Some?)
  }

  /** The queue holds no flight twice. */
  ghost predicate QueueDistinct(a: Airport) {
    forall i, j :: 0 <= i < j < |a.circlingQ| ==> a.circlingQ[i] != a.circlingQ[j]
  }

  /** The queue holds exactly the circling flights. */
  ghost predicate QueueIsCircling(a: Airport) {
    && (forall i :: 0 <= i < |a.circlingQ| ==> Circling(a, a.circlingQ[i]))
    && (forall id :: Circling(a, id) ==> id in a.circlingQ)
  }

  /** A flight circles only while every runway is booked. */
  ghost predicate QueueMeansFull(a: Airport) {
    |a.circlingQ| > 0 ==> forall i :: 0 <= i < |a.runways| ==> a.runways[i]
  }

  ghost predicate Valid(a: Airport) {
    && KeysMatch(a)
    && HeldInRange(a)
    && Exclusive(a)
    && Occupancy(a)
    && RunwayMatchesStatus(a)
    && QueueDistinct(a)
    && QueueIsCircling(a)
    && QueueMeansFull(a)
  }

  /** A booked runway is held by exactly one plane and a free one by none. */
  lemma ValidMeansOneHolderPerBookedRunway(a: Airport, k: int)
    requires Valid(a) && IsRunwayOf(a.runways, k)
    ensures a.runways[k - 1] ==> exists id :: Holds(a, id, k) && forall j :: Holds(a, j, k) ==> j == id
    ensures !a.runways[k - 1] ==> forall j :: !Holds(a, j, k)
  {
  }

  // ---- construction and the simple operations ----

  lemma NewAirportIsValid(n: int)
    requires n >= 0
    ensures NewAirport(n).Success? && Valid(NewAirport(n).value)
  {
  }

  lemma RegisterFlightKeepsValid(a: Airport, id: string, city: string)
    requires Valid(a)
    requires RegisterFlight(a, id, city).Success?
    ensures Valid(RegisterFlight(a, id, city).value)
  {
    var b := RegisterFlight(a, id, city).value;
    assert forall f, k :: Holds(b, f, k) ==> f != id && Holds(a, f, k);
    assert forall f, k :: Holds(a, f, k) ==> Holds(b, f, k);
    assert forall f :: Circling(b, f) ==> Circling(a, f);
    assert forall f :: Circling(a, f) ==> Circling(b, f);
  }

  lemma LandAtAirportKeepsValid(a: Airport, id: string, n: int)
    requires Valid(a)
    requires LandAtAirport(a, id, n).Success?
    ensures Valid(LandAtAirport(a, id, n).value)
  {
    var b := LandAtAirport(a, id, n).value;
    assert forall f, k :: Holds(b, f, k) <==> Holds(a, f, k);
    assert !Circling(a, id);
    assert forall f :: Circling(b, f) <==> Circling(a, f);
  }

  lemma ReadyForBoardingKeepsValid(a: Airport, id: string, destination: string)
    requires Valid(a)
    requires ReadyForBoarding(a, id, destination).Success?
    ensures Valid(ReadyForBoarding(a, id, destination).value)
  {
    var b := ReadyForBoarding(a, id, destination).value;
    assert forall f, k :: Holds(b, f, k) <==> Holds(a, f, k);
    assert forall f :: Circling(b, f) <==> Circling(a, f);
  }

  // ---- arrival ----

  /** In a valid state a free runway means nobody circles, so a flight granted a runway
      on arrival was `Due`. */
  lemma ArrivalWithFreeRunwayKeepsValid(a: Airport, id: string)
    requires Valid(a)
    requires NextFreeRunway(a.runways).Some?
    requires ArriveAtAirport(a, id).Success?
    ensures Valid(ArriveAtAirport(a, id).value.airport)
    ensures a.planes[id].status == Due
  {
    var k := NextFreeRunway(a.runways).value;
    var b := ArriveAtAirport(a, id).value.airport;
    assert |a.circlingQ| == 0;
    assert !Circling(a, id);
    assert forall f, j :: Holds(b, f, j) <==> (f != id && Holds(a, f, j)) || (f == id && j == k);
    assert forall f :: !Circling(a, f);
    forall f ensures !Circling(b, f) {
      if f == id {
        assert b.planes[id].runway == Some(k);
      } else if f in a.planes {
        assert b.planes[f] == a.planes[f];
        assert !Circling(a, f);
      } else {
        assert f !in b.planes;
      }
    }
    forall j | IsRunwayOf(b.runways, j)
      ensures b.runways[j - 1] <==> exists f :: Holds(b, f, j)
    {
      if j == k {
        assert Holds(b, id, k);
      } else {
        SameHoldersSameOccupancy(a, b, j);
      }
    }
  }

  /** A flight that finds every runway booked joins the queue, and every runway stays booked. */
  lemma ArrivalWithoutFreeRunwayKeepsValid(a: Airport, id: string)
    requires Valid(a)
    requires NextFreeRunway(a.runways).None?
    requires ArriveAtAirport(a, id).Success?
    ensures Valid(ArriveAtAirport(a, id).value.airport)
  {
    var b := ArriveAtAirport(a, id).value.airport;
    assert id !in a.circlingQ;
    assert forall f, j :: Holds(b, f, j) <==> Holds(a, f, j);
    assert forall f :: Circling(b, f) <==> Circling(a, f) || f == id;
    assert forall i :: 0 <= i < |a.circlingQ| ==> b.circlingQ[i] == a.circlingQ[i];
  }

  lemma ArriveAtAirportKeepsValid(a: Airport, id: string)
    requires Valid(a)
    requires ArriveAtAirport(a, id).Success?
    ensures Valid(ArriveAtAirport(a, id).value.airport)
  {
    if NextFreeRunway(a.runways).Some? {
      ArrivalWithFreeRunwayKeepsValid(a, id);
    } else {
      ArrivalWithoutFreeRunwayKeepsValid(a, id);
    }
  }

  /** Runway `j` keeps its flag and its holders, so occupancy carries over. */
  lemma SameHoldersSameOccupancy(a: Airport, b: Airport, j: int)
    requires Occupancy(a) && IsRunwayOf(a.runways, j) && IsRunwayOf(b.runways, j)
    requires b.runways[j - 1] == a.runways[j - 1]
    requires forall f :: Holds(b, f, j) <==> Holds(a, f, j)
    ensures b.runways[j - 1] <==> exists f :: Holds(b, f, j)
  {
  }

  // ---- take-off ----

  /** What removing a departing flight does: its runway, held by it alone, becomes free,
      and nothing else changes. */
  lemma LeaveFreesOnlyItsRunway(a: Airport, id: string)
    requires Valid(a)
    requires Leave(a, id).Success?
    ensures var b, k := Leave(a, id).value, a.planes[id].runway.value;
            && IsRunwayOf(a.runways, k) && a.runways[k - 1] && !b.runways[k - 1]
            && (forall i :: 0 <= i < |a.runways| && i != k - 1 ==> b.runways[i] == a.runways[i])
            && (forall f, j :: Holds(b, f, j) <==> f != id && Holds(a, f, j))
            && (forall f :: Circling(b, f) <==> Circling(a, f))
            && !Circling(a, id) && id !in a.circlingQ
            && b.circlingQ == a.circlingQ && |b.runways| == |a.runways|
  {
    var k := a.planes[id].runway.value;
    assert Holds(a, id, k);
  }

  lemma {:induction false} LeaveKeepsValid(a: Airport, id: string)
    requires Valid(a)
    requires Leave(a, id).Success?
    requires |a.circlingQ| == 0
    ensures Valid(Leave(a, id).value)
  {
    var b, k := Leave(a, id).value, a.planes[id].runway.value;
    LeaveFreesOnlyItsRunway(a, id);
    forall j | IsRunwayOf(b.runways, j)
      ensures b.runways[j - 1] <==> exists f :: Holds(b, f, j)
    {
      if j != k {
        assert !Holds(a, id, j);
        SameHoldersSameOccupancy(a, b, j);
      } else {
        assert Holds(a, id, k);
      }
    }
  }

  /** With flights circling, the one at the head is given the runway the departing flight
      has just freed; afterwards every runway is booked again. */
  lemma PromotionReusesFreedRunway(a: Airport, id: string)
    requires Valid(a)
    requires Leave(a, id).Success?
    requires |a.circlingQ| > 0
    ensures var o, head := TakeOff(a, id), a.circlingQ[0];
            && o.result.Success?
            && o.result.value == Some(o.airport.planes[head])
            && o.airport.planes[head] == a.planes[head].(runway := a.planes[id].runway)
            && o.airport.runways == a.runways
            && o.airport.circlingQ == a.circlingQ[1..]
            && o.airport.planes.Keys == a.planes.Keys - {id}
            && (forall f :: f in o.airport.planes && f != head ==> o.airport.planes[f] == a.planes[f])
            && Valid(o.airport)
  {
    var k, head := a.planes[id].runway.value, a.circlingQ[0];
    PromotionOutcome(a, id);
    var d := TakeOff(a, id).airport;
    PromotedRunwaysStayValid(a, d, id, head, k);
    QueueTailStaysValid(a, d, head);
  }

  /** The state a promotion leaves behind: the departing flight is gone, the queue head
      holds the freed runway `k`, and nobody else gains or loses a runway or starts or
      stops circling. */
  lemma PromotionOutcome(a: Airport, id: string)
    requires Valid(a)
    requires Leave(a, id).Success?
    requires |a.circlingQ| > 0
    ensures var o, head, k := TakeOff(a, id), a.circlingQ[0], a.planes[id].runway.value;
            && Holds(a, id, k)
            && Circling(a, head)
            && o.result.Success?
            && o.result.value == Some(o.airport.planes[head])
            && o.airport.planes[head] == a.planes[head].(runway := Some(k))
            && o.airport.runways == a.runways
            && o.airport.circlingQ == a.circlingQ[1..]
            && o.airport.planes.Keys == a.planes.Keys - {id}
            && (forall f :: f in o.airport.planes && f != head ==> o.airport.planes[f] == a.planes[f])
            && (forall f, j :: Holds(o.airport, f, j) <==> (f != id && f != head && Holds(a, f, j)) || (f == head && j == k))
            && (forall f :: Circling(o.airport, f) <==> Circling(a, f) && f != head)
  {
    var b, k, head := Leave(a, id).value, a.planes[id].runway.value, a.circlingQ[0];
    LeaveFreesOnlyItsRunway(a, id);
    assert Holds(a, id, k);
    assert Circling(a, head);
    var c := b.(circlingQ := b.circlingQ[1..]);
    assert NextToLand(b) == Outcome(c, Success(Some(a.planes[head])));
    assert a.planes[head].flight == head;
    // only runway k is free
    assert forall i :: 0 <= i < |c.runways| && i != k - 1 ==> c.runways[i];
    assert NextFreeRunway(c.runways) == Some(k);
    assert Descend(c, head, Some(k)).Success?;
    var d := Descend(c, head, Some(k)).value;
    assert TakeOff(a, id) == Outcome(d, Success(Some(d.planes[head])));
  }

  /** Handing the freed runway `k` of `id` to the circling `head` keeps every runway with
      one holder, booked exactly when held. */
  lemma PromotedRunwaysStayValid(a: Airport, d: Airport, id: string, head: string, k: int)
    requires Valid(a) && Holds(a, id, k) && Circling(a, head)
    requires d.runways == a.runways
    requires forall f, j :: Holds(d, f, j) <==> (f != id && f != head && Holds(a, f, j)) || (f == head && j == k)
    ensures HeldInRange(d) && Exclusive(d) && Occupancy(d)
  {
    forall f, g, j | Holds(d, f, j) && Holds(d, g, j)
      ensures f == g
    {
      if j == k {
        assert f == head && g == head;
      }
    }
    forall j | IsRunwayOf(d.runways, j)
      ensures d.runways[j - 1] <==> exists f :: Holds(d, f, j)
    {
      if j == k {
        assert Holds(d, head, k);
      } else {
        var f :| Holds(a, f, j);
        assert f != id && f != head;
        assert Holds(d, f, j);
      }
    }
  }

  /** Dropping the head of the queue, and only the head from the circling flights, keeps
      the rest of the queue distinct and exactly the circling flights. */
  lemma QueueTailStaysValid(a: Airport, d: Airport, head: string)
    requires QueueDistinct(a) && QueueIsCircling(a)
    requires |a.circlingQ| > 0 && head == a.circlingQ[0]
    requires d.circlingQ == a.circlingQ[1..]
    requires forall f :: Circling(d, f) <==> Circling(a, f) && f != head
    ensures QueueDistinct(d) && QueueIsCircling(d)
  {
    forall i, j | 0 <= i < j < |d.circlingQ|
      ensures d.circlingQ[i] != d.circlingQ[j]
    {
      assert d.circlingQ[i] == a.circlingQ[i + 1] && d.circlingQ[j] == a.circlingQ[j + 1];
    }
    forall f | Circling(d, f)
      ensures f in d.circlingQ
    {
      assert Circling(a, f) && f != head;
      var i :| 0 <= i < |a.circlingQ| && a.circlingQ[i] == f;
      assert i > 0;
      assert d.circlingQ[i - 1] == f;
    }
    forall i | 0 <= i < |d.circlingQ|
      ensures Circling(d, d.circlingQ[i])
    {
      assert d.circlingQ[i] == a.circlingQ[i + 1];
      assert a.circlingQ[i + 1] != head;
    }
  }

  /** Take-off in a valid state: it succeeds exactly for a departing flight, a rejected
      call changes nothing, the queue head (if any) is promoted onto the freed runway, and
      the invariant is kept. */
  lemma TakeOffKeepsValid(a: Airport, id: string)
    requires Valid(a)
    ensures var o := TakeOff(a, id);
            && (o.result.Success? <==> id in a.planes && a.planes[id].status == Departing)
            && (o.result.Failure? ==> o.airport == a)
            && (o.result.Success? ==> (o.result.value.None? <==> |a.circlingQ| == 0))
            && Valid(o.airport)
  {
    if Leave(a, id).Success? {
      if |a.circlingQ| == 0 {
        LeaveKeepsValid(a, id);
      } else {
        PromotionReusesFreedRunway(a, id);
      }
    }
  }

  // ---- consequences for callers ----

  /** In a valid state the `Due` check of a landing is never the reason for a rejection:
      a `Due` plane holds no runway, so reading its runway number fails first. */
  lemma LandingNeverSaysNeverArrived(a: Airport, id: string, n: int)
    requires Valid(a)
    ensures LandAtAirport(a, id, n) != Failure(NeverArrived)
  {
  }

  /** In a valid state only a `Due` flight may announce its arrival; a second announcement
      is rejected, whether the flight circles or already holds a runway. */
  lemma ArrivalIsAcceptedOnlyFromDue(a: Airport, id: string)
    requires Valid(a)
    ensures ArriveAtAirport(a, id).Success? <==> id in a.planes && a.planes[id].status == Due
  {
    if id in a.planes && a.planes[id].status == Waiting && a.planes[id].runway.None? {
      assert Circling(a, id);
      assert |a.circlingQ| > 0;
    }
  }

  /** In a valid state a flight lands exactly when it holds the named runway and waits. */
  lemma LandingNeedsTheGrantedRunway(a: Airport, id: string, n: int)
    requires Valid(a)
    requires id in a.planes && a.planes[id].status == Waiting
    ensures LandAtAirport(a, id, n).Success? <==> Holds(a, id, n)
    ensures Circling(a, id) ==> LandAtAirport(a, id, n) == Failure(NoRunwayAssigned)
  {
  }
}
