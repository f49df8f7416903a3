/** Worked runs of the engine with one or two runways. */
module Scenarios {
  import opened Wrappers
  import opened Errors
  import opened PlaneStatuses
  import opened Runways
  import opened Planes
  import opened Airports

  /** Two flights compete for one runway: the first is granted it, the second circles, and
      the first's take-off hands the runway to the second. */
  lemma OneRunwayHandOver()
    ensures var a0 := NewAirport(1).value;
            var a1 := RegisterFlight(a0, "AB1", "Paris").value;
            var r1 := ArriveAtAirport(a1, "AB1").value;
            var a2 := RegisterFlight(r1.airport, "CD2", "Rome").value;
            var r2 := ArriveAtAirport(a2, "CD2").value;
            var a3 := LandAtAirport(r2.airport, "AB1", 1).value;
            var a4 := ReadyForBoarding(a3, "AB1", "Rome").value;
            var o := TakeOff(a4, "AB1");
            && r1.runway == 1 && r1.airport.planes["AB1"].status == Waiting
            && r2.runway == 0 && r2.airport.planes["CD2"].status == Waiting
            && r2.airport.circlingQ == ["CD2"]
            && a3.planes["AB1"].status == Landed
            && a4.planes["AB1"].status == Departing && a4.planes["AB1"].city == "Rome"
            && o.result == Success(Some(Plane("CD2", "Rome", Waiting, Some(1))))
            && "AB1" !in o.airport.planes
            && o.airport.circlingQ == []
            && o.airport.runways == [true]
  {
    var a0 := NewAirport(1).value;
    assert a0.runways == [false];
    var a1 := RegisterFlight(a0, "AB1", "Paris").value;
    assert NextFreeRunway(a1.runways) == Some(1);
    var r1 := ArriveAtAirport(a1, "AB1").value;
    assert r1.airport.runways == [true];
    var a2 := RegisterFlight(r1.airport, "CD2", "Rome").value;
    assert NextFreeRunway(a2.runways) == None;
    var r2 := ArriveAtAirport(a2, "CD2").value;
    var a3 := LandAtAirport(r2.airport, "AB1", 1).value;
    var a4 := ReadyForBoarding(a3, "AB1", "Rome").value;
    assert Leave(a4, "AB1").value.runways == [false];
  }

  /** A circling flight holds no runway, so reporting its landing is rejected when its
      runway number is read. */
  lemma CirclingFlightCannotLand()
    ensures var a0 := NewAirport(1).value;
            var a1 := RegisterFlight(a0, "AB1", "Paris").value;
            var b1 := ArriveAtAirport(a1, "AB1").value.airport;
            var a2 := RegisterFlight(b1, "CD2", "Rome").value;
            var b2 := ArriveAtAirport(a2, "CD2").value.airport;
            LandAtAirport(b2, "CD2", 1) == Failure(NoRunwayAssigned)
  {
  }

  /** A circling flight that announces its arrival again is rejected. */
  lemma SecondArrivalWhileCirclingIsRejected()
    ensures var a0 := NewAirport(1).value;
            var a1 := RegisterFlight(a0, "AB1", "Paris").value;
            var b1 := ArriveAtAirport(a1, "AB1").value.airport;
            var a2 := RegisterFlight(b1, "CD2", "Rome").value;
            var b2 := ArriveAtAirport(a2, "CD2").value.airport;
            ArriveAtAirport(b2, "CD2") == Failure(AlreadyArrived)
  {
  }

  /** With a second runway free, a flight that holds a runway and announces its arrival
      again is rejected. */
  lemma SecondArrivalWithRunwayIsRejected()
    ensures var a0 := NewAirport(2).value;
            var a1 := RegisterFlight(a0, "AB1", "Paris").value;
            var b1 := ArriveAtAirport(a1, "AB1").value;
            && b1.runway == 1
            && ArriveAtAirport(b1.airport, "AB1") == Failure(AlreadyHasRunway)
  {
  }
}
