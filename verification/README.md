# Airport flight-lifecycle and runway-allocation engine, in Dafny

This project models the engine of the `org.airport` package. The engine is an `Airport`.
It holds three things:

- the registered planes, keyed by flight number;
- the circling queue of flights that found every runway booked;
- a fixed registry of runways numbered 1..N.

Each plane moves through the statuses `DUE < WAITING < LANDED < DEPARTING`. The public
operations are `registerFlight`, `arriveAtAirport`, `landAtAirport`, `readyForBoarding`
and `takeOff`. Each one checks the flight's status and then does one of two things:

- it rejects the call with an `AirportException`;
- or it advances the status and books or frees a runway.

On take-off the head of the circling queue is given the freed runway.

The model is functional:

- `Airport` is an immutable datatype.
- Runways are a `seq<bool>`. Index `k - 1` holds the flag of runway `k`.
- A plane refers to its runway by number instead of by object reference. This is sound
  because the constructor numbers runways uniquely and numbers never change.
- Operations are pure functions that return `Result` values. The error variants of
  `Errors.AirportError` stand for the places that throw.
- `takeOff` is different: it changes the state before its promotion step can throw. So
  `Airports.TakeOff` returns the state after the call as well as the result.

Modules:

- `Wrappers`: option and result types.
- `Errors`: the error reasons.
- `PlaneStatuses`: the status enum and its order.
- `Runways`: a runway, and the registry of runways.
- `Planes`: the flight record.
- `Airports`: the engine's operations.
- `AirportInvariant`: the invariant `Valid` and a proof that each operation keeps it.
- `AirportRuns`: properties of arbitrary sequences of calls.
- `Lifecycle`: each flight's status and runway read as one explicit phase, and proof that calls move flights only along the lifecycle.
- `Scenarios`: worked runs with one or two runways.

The invariant `AirportInvariant.Valid` says:

- every plane is keyed by its own flight number;
- every runway a plane holds is numbered between 1 and the runway count;
- a runway is booked exactly when one plane holds it, and no runway has two holders;
- a `DUE` plane holds no runway, and a `LANDED` or `DEPARTING` plane holds one;
- the queue holds no duplicates, and it holds exactly the `WAITING` planes that have no runway;
- the queue is non-empty only while every runway is booked.

Some consequences of the invariant are proved:

- A take-off always succeeds for a departing flight.
- A rejected take-off changes nothing.
- Promotion hands the queue head the runway that was just freed.
- The `DUE` check in `landAtAirport` never fires.

Some behaviour of the code differs from what the lifecycle alone suggests; the model follows the code:

- **Zero runways.** An airport with zero runways is accepted. Only a negative count is
  rejected.
- **Landing while circling.** A flight that is still circling gets `NoRunwayAssigned` when it
  reports its landing, not a "never arrived" error. That is because its runway number is
  read before its status is checked.
- **`book` and `vacate`.** These never fail. The only guard against double booking is in
  `allocateRunway`.
- **Allocating a second runway.** `allocateRunway` does not check whether the plane already
  holds a runway. `descend` checks this before it calls.

## Model

| member | source | states |
|---|---|---|
| PlaneStatuses.OrdinalIsBijection | src/main/java/org/airport/PlaneStatus.java:6-11 | there are exactly four statuses: declaration position is a bijection between them and 0..3 |
| PlaneStatuses.CompareTo | src/main/java/org/airport/PlaneStatus.java:6-11 | enum comparison is negative, zero or positive exactly as the first status is declared before, at or after the second |
| PlaneStatuses.AtMostIsTotalOrder | src/main/java/org/airport/PlaneStatus.java:7-10 | the declaration order used by the engine's status guards is reflexive, antisymmetric, transitive and total |
| PlaneStatuses.Next | src/main/java/org/airport/Plane.java:114-121 | the successor exists exactly for the three non-terminal statuses and is declared one place later |
| PlaneStatuses.NextIsUnique | src/main/java/org/airport/Plane.java:114-121 | a status's successor is exactly the status declared immediately after it |
| PlaneStatuses.AdvanceWalksTheOrder | src/main/java/org/airport/Plane.java:114-121 | k successive upgrades succeed exactly when they stay within the four statuses, and then move exactly k places forward |
| PlaneStatuses.EveryStatusFollowsDue | src/main/java/org/airport/Plane.java:114-121 | starting from DUE, n upgrades reach the status declared at position n, so the lifecycle is DUE, WAITING, LANDED, DEPARTING |
| Runways.NewRunway | src/main/java/org/airport/Runway.java:16-21 | construction fails exactly for numbers below 1; otherwise the runway has that number and is free |
| Runways.Book | src/main/java/org/airport/Runway.java:42-44 | booking leaves the runway allocated and its number unchanged, whatever its prior flag |
| Runways.Vacate | src/main/java/org/airport/Runway.java:49-51 | vacating leaves the runway free and its number unchanged, whatever its prior flag |
| Runways.BookAndVacateAreUnguarded | src/main/java/org/airport/Runway.java:42-51 | book and vacate are idempotent and each overrides the other: neither depends on the prior flag |
| Runways.ReplayReportsLastCall | src/main/java/org/airport/Runway.java:27-51 | after any sequence of book/vacate calls the number is unchanged and the flag reports the most recent call, or the initial flag if none |
| Runways.NewRunwayReportsLastCall | src/main/java/org/airport/Runway.java:16-51 | a newly built runway reports allocated exactly when the most recent call was a booking, so false before any call |
| Runways.RunwayAt | src/main/java/org/airport/Airport.java:32-33 | the runway numbered k, whose allocated flag is the registry entry at index k - 1 |
| Runways.NewRegistry | src/main/java/org/airport/Airport.java:31-34 | the constructor's registry has n entries, and entry k is what the runway constructor makes for number k, which never fails for k >= 1 |
| Runways.BookAt | src/main/java/org/airport/Runway.java:42-44 | booking runway k in the registry books that runway and leaves every other runway as it was |
| Runways.VacateAt | src/main/java/org/airport/Runway.java:49-51 | vacating runway k in the registry frees that runway and leaves every other runway as it was |
| Runways.VacateUndoesBook | src/main/java/org/airport/Runway.java:42-51 | vacating a runway that was free before it was booked restores the registry |
| Runways.NextFreeRunway | src/main/java/org/airport/Airport.java:195-201 | returns the lowest-numbered free runway, and returns none exactly when every runway is booked |
| Planes.NewPlane | src/main/java/org/airport/Plane.java:20-25 | a new plane has the given flight number and city, the first status in the order (DUE), and no runway |
| Planes.GetRunwayNumber | src/main/java/org/airport/Plane.java:64-68 | fails exactly when the plane holds no runway, and otherwise returns the held runway's number |
| Planes.AllocateRunway | src/main/java/org/airport/Plane.java:83-90 | fails exactly for a null or already-booked runway; otherwise the plane holds it, the runway is booked, and the flight, status and city are unchanged |
| Planes.VacateRunway | src/main/java/org/airport/Plane.java:96-100 | fails exactly when no runway is held; otherwise frees that runway and leaves the plane, including its reference, unchanged |
| Planes.VacateUndoesAllocate | src/main/java/org/airport/Plane.java:83-100 | allocating a free runway and then vacating it restores the registry, while the plane keeps its reference |
| Planes.UpgradeStatus | src/main/java/org/airport/Plane.java:114-121 | fails exactly from DEPARTING; otherwise moves the status to its successor, one place up, changing nothing else |
| Planes.ChangeCity | src/main/java/org/airport/Plane.java:127-129 | the city becomes the destination; flight number, status and runway are unchanged |
| Planes.FlightNumberFixedStatusMonotone | src/main/java/org/airport/Plane.java:114-129 | over any sequence of upgrades and city changes the flight number and runway stay fixed and the status never decreases |
| Planes.EqualsIsEquivalence | src/main/java/org/airport/Plane.java:149-155 | plane equality is reflexive, symmetric and transitive, is false against null, and holds exactly for equal flight numbers |
| Planes.Equals | src/main/java/org/airport/Plane.java:149-155 | a plane never equals null, and planes it equals have its hash code; that it is exactly flight-number equality is stated by Planes.EqualsIsEquivalence |
| Planes.HashCode | src/main/java/org/airport/Plane.java:162-164 | the hash code is a signed 32-bit value computed from the flight number alone |
| Planes.HashCodeAgreesWithEquals | src/main/java/org/airport/Plane.java:149-164 | equal planes have equal hash codes |
| Airports.NewAirport | src/main/java/org/airport/Airport.java:29-41 | fails exactly for a negative count; otherwise creates runways numbered 1..n, all free, no planes and an empty queue |
| Airports.GetPlane | src/main/java/org/airport/Airport.java:209-213 | fails with unknown-flight exactly when the flight is not registered, otherwise returns its plane |
| Airports.RegisterFlight | src/main/java/org/airport/Airport.java:49-54 | fails exactly on a registered flight number; otherwise adds exactly one DUE plane with the given number and city and no runway, and changes nothing else |
| Airports.Descend | src/main/java/org/airport/Airport.java:221-232 | fails exactly when the flight is unknown, has landed, already holds a runway, or the runway is null or booked, reporting the first of these in that order; otherwise only that plane changes: it holds the runway, which is booked, and its status is WAITING |
| Airports.Circle | src/main/java/org/airport/Airport.java:239-245 | fails exactly unless the flight is registered and DUE, with unknown-flight or already-arrived; otherwise the flight becomes WAITING and is appended at the tail of the queue, runways untouched |
| Airports.ArriveAtAirport | src/main/java/org/airport/Airport.java:62-72 | with a free runway: it fails exactly for unknown, landed or runway-holding flights, otherwise returns and books the lowest free runway for the flight, now WAITING with its flight number and city unchanged. With every runway booked: it fails exactly unless the flight is DUE, otherwise returns 0 and appends the flight to the queue as WAITING |
| Airports.LandAtAirport | src/main/java/org/airport/Airport.java:80-89 | fails exactly when the flight is unknown, holds no runway or another runway, or is not WAITING. The error is the first failing check in the order unknown flight, no runway, wrong runway, never arrived, already landed. Otherwise only the status changes, to LANDED |
| Airports.ReadyForBoarding | src/main/java/org/airport/Airport.java:97-105 | succeeds exactly from LANDED, with unknown-flight, not-landed or already-departing errors otherwise; the plane becomes DEPARTING with the new city and nothing else changes |
| Airports.Leave | src/main/java/org/airport/Airport.java:252-260 | fails exactly unless the flight is DEPARTING and holds a runway, with unknown-flight, not-landed, boarding-not-announced or no-runway errors in that order; otherwise frees that runway and removes the plane, queue untouched |
| Airports.NextToLand | src/main/java/org/airport/Airport.java:266-273 | with an empty queue returns none and changes nothing; otherwise drops the head from the queue and succeeds exactly when the head is registered, returning its plane |
| Airports.TakeOff | src/main/java/org/airport/Airport.java:113-122 | a rejected departure changes nothing; with an empty queue the take-off returns none; a returned plane is the former queue head, now off the queue, and the departing flight is gone |
| Airports.TakeOffCommitsBeforePromoting | src/main/java/org/airport/Airport.java:113-122 | once `leave` succeeds with flights circling, the departing flight stays removed and the queue head stays dequeued, and a failed promotion returns exactly the departed state with the shorter queue |
| Airports.GetArrivals | src/main/java/org/airport/Airport.java:128-137 | holds exactly the registered planes that are not DEPARTING |
| Airports.GetDepartures | src/main/java/org/airport/Airport.java:143-152 | holds exactly the registered planes that are DEPARTING |
| Airports.GetNumberOfRunways | src/main/java/org/airport/Airport.java:158-160 | the length of the registry; that this is the constructor's count after any run is stated by AirportRuns.RunwayCountNeverChanges |
| Airports.ArrivalsAndDeparturesPartition | src/main/java/org/airport/Airport.java:128-152 | arrivals and departures are disjoint and together are all registered planes |
| Airports.BoardingMovesPlaneToDepartures | src/main/java/org/airport/Airport.java:97-105 | announcing boarding moves the plane from the arrivals to the departures with its new city |
| Airports.TakeOffFreesFlightNumber | src/main/java/org/airport/Airport.java:252-260 | after a successful take-off the flight number is unregistered and may be registered again |
| AirportInvariant.ValidMeansOneHolderPerBookedRunway | src/main/java/org/airport/Plane.java:83-90 | in a valid state a booked runway has exactly one holder and a free runway none |
| AirportInvariant.NewAirportIsValid | src/main/java/org/airport/Airport.java:29-41 | a newly constructed airport satisfies the invariant |
| AirportInvariant.RegisterFlightKeepsValid | src/main/java/org/airport/Airport.java:49-54 | registration keeps the invariant |
| AirportInvariant.ArrivalWithFreeRunwayKeepsValid | src/main/java/org/airport/Airport.java:62-67 | in a valid state, an arrival that is granted a runway keeps the invariant, and the flight was DUE |
| AirportInvariant.ArrivalWithoutFreeRunwayKeepsValid | src/main/java/org/airport/Airport.java:68-71 | an arrival that joins the queue keeps the invariant: no duplicates, and every runway is still booked |
| AirportInvariant.ArriveAtAirportKeepsValid | src/main/java/org/airport/Airport.java:62-72 | every accepted arrival keeps the invariant |
| AirportInvariant.LandAtAirportKeepsValid | src/main/java/org/airport/Airport.java:80-89 | every accepted landing keeps the invariant |
| AirportInvariant.ReadyForBoardingKeepsValid | src/main/java/org/airport/Airport.java:97-105 | every accepted boarding announcement keeps the invariant |
| AirportInvariant.LeaveFreesOnlyItsRunway | src/main/java/org/airport/Airport.java:252-260 | in a valid state the departing plane's runway was booked by it alone and becomes free; no other runway, holder or queue entry changes |
| AirportInvariant.LeaveKeepsValid | src/main/java/org/airport/Airport.java:252-260 | with nobody circling, removing a departing flight keeps the invariant |
| AirportInvariant.PromotionReusesFreedRunway | src/main/java/org/airport/Airport.java:113-122 | with flights circling, take-off succeeds and the queue head is dequeued and holds the runway just freed, with its status unchanged. The registry ends as it began and the invariant holds |
| AirportInvariant.PromotionOutcome | src/main/java/org/airport/Airport.java:113-122 | in a valid state with flights circling, take-off removes the departing flight and gives the queue head the freed runway; no other flight gains or loses a runway or starts or stops circling |
| AirportInvariant.PromotedRunwaysStayValid | src/main/java/org/airport/Airport.java:113-122 | moving the freed runway from the departing flight to the circling head keeps every runway with at most one holder and booked exactly when held |
| AirportInvariant.QueueTailStaysValid | src/main/java/org/airport/Airport.java:266-273 | dropping the head from the queue and from the circling flights keeps the queue free of duplicates and equal to the circling flights |
| AirportInvariant.TakeOffKeepsValid | src/main/java/org/airport/Airport.java:113-122 | in a valid state take-off succeeds exactly for a DEPARTING flight and a rejected call changes nothing. It returns a plane exactly when the queue was non-empty, and the invariant holds after |
| AirportInvariant.LandingNeverSaysNeverArrived | src/main/java/org/airport/Airport.java:80-85 | in a valid state landing never fails with the never-arrived error: that check cannot fire |
| AirportInvariant.ArrivalIsAcceptedOnlyFromDue | src/main/java/org/airport/Airport.java:62-71 | in a valid state an arrival is accepted exactly for a registered DUE flight, so a second arrival is always rejected |
| AirportInvariant.LandingNeedsTheGrantedRunway | src/main/java/org/airport/Airport.java:80-89 | in a valid state a WAITING flight lands exactly when it holds the named runway; a circling one is told it holds no runway |
| AirportRuns.StepKeepsValid | src/main/java/org/airport/Airport.java:49-122 | any single public call, accepted or rejected, keeps the invariant |
| AirportRuns.RunKeepsValid | src/main/java/org/airport/Airport.java:49-122 | any sequence of public calls from a valid state keeps the invariant |
| AirportRuns.ReachableStatesAreValid | src/main/java/org/airport/Airport.java:29-122 | every state reachable from the constructor by public calls satisfies the invariant |
| AirportRuns.StepNeverLowersStatus | src/main/java/org/airport/Airport.java:80-122 | no call changes a remaining flight's number or moves its status backwards, in any state |
| AirportRuns.TakeOffNeverLowersStatus | src/main/java/org/airport/Airport.java:113-122 | a take-off, even one whose promotion fails, changes no remaining flight's number and lowers no remaining flight's status |
| AirportRuns.PlaneStaysUntilItDeparts | src/main/java/org/airport/Airport.java:252-260 | only a flight's own take-off removes it |
| AirportRuns.RunNeverLowersStatus | src/main/java/org/airport/Airport.java:49-122 | over any run, a flight that is never told to take off stays registered, keeps its number, and its status never decreases |
| AirportRuns.StepIsFirstComeFirstServed | src/main/java/org/airport/Airport.java:239-273 | in a valid state, each call appends the flight it sent circling to the queue or takes from the head the flight it promoted |
| AirportRuns.TakeOffIsFirstComeFirstServed | src/main/java/org/airport/Airport.java:113-122 | in a valid state a take-off sends nobody circling and promotes, if anyone, the head of the queue |
| AirportRuns.RunIsFirstComeFirstServed | src/main/java/org/airport/Airport.java:239-273 | over any run, promoted flights followed by those still circling equal the initially queued flights followed by those sent circling, in order |
| AirportRuns.PromotionOrderIsArrivalOrder | src/main/java/org/airport/Airport.java:239-273 | from a fresh airport, flights are promoted in exactly the order their arrivals returned 0 |
| AirportRuns.StepKeepsRunwayCount | src/main/java/org/airport/Airport.java:158-160 | no call adds or removes a runway |
| AirportRuns.RunwayCountNeverChanges | src/main/java/org/airport/Airport.java:158-160 | after any run from the constructor, the reported number of runways is the count the airport was built with |
| Lifecycle.PhaseOf | src/main/java/org/airport/Airport.java:221-245 | reads a plane's status and runway as one of five phases: expected, queued, on approach, on ground, boarding. WAITING without a runway is queued and WAITING with one is on approach; combinations the engine never produces have no phase |
| Lifecycle.ValidPlanesHaveAPhase | src/main/java/org/airport/Airport.java:221-245 | in a valid state every registered plane is in one of the five phases |
| Lifecycle.StepFollowsLifecycle | src/main/java/org/airport/Airport.java:62-122 | in a valid state one call moves each remaining flight along one lifecycle edge at most. The edges are: expected to queued or on approach, queued to on approach, on approach to on ground, and on ground to boarding, with the granted runway kept throughout |
| Lifecycle.RunFollowsLifecycle | src/main/java/org/airport/Airport.java:49-122 | over any run from a valid state, a flight never told to take off stays registered, its phase moves only forward, and once it holds a runway it keeps that runway |
| Scenarios.OneRunwayHandOver | src/main/java/org/airport/Airport.java:62-122 | with one runway the first arrival gets runway 1 and the second circles; the first lands, boards for Rome and takes off, and the second is returned holding runway 1 |
| Scenarios.CirclingFlightCannotLand | src/main/java/org/airport/Plane.java:64-66 | a circling flight's landing report is rejected because it holds no runway |
| Scenarios.SecondArrivalWhileCirclingIsRejected | src/main/java/org/airport/Airport.java:239-242 | a circling flight that announces arrival again is rejected as already arrived |
| Scenarios.SecondArrivalWithRunwayIsRejected | src/main/java/org/airport/Airport.java:221-228 | with a second runway free, a flight holding runway 1 that announces arrival again is rejected as already holding a runway |

## Left out

- `Airport(String)`, `save` and `load` are not modelled. They do file I/O and Java object serialization, and a loaded state is whatever the file held.
- `AirportFrame.java` is not modelled. It is the JavaFX front end: dialogs, parsing of operator input, and exiting the application.
- `AirportException` messages are not modelled. Errors are variants of `Errors.AirportError`, without message text.
- `Plane.toString` and `getStatusName` are not modelled because they only format text. The plain getters (`getFlightNumber`, `getCity`, `getStatus`, `getTheRunway`, `Runway.getNumber`, `Runway.isAllocated`) are the datatype fields.
- `Plane.isAllocatedRunway` is the predicate `Planes.IsAllocatedRunway`; its meaning is stated by `Planes.GetRunwayNumber`.
- `Planes.Equals` does not model the `ClassCastException` the source throws for a non-`Plane` argument. Only a plane or null can be passed.
- `Planes.HashCode` treats each `char` as one Unicode scalar value. Java hashes UTF-16 code units, so the two differ on characters outside the Basic Multilingual Plane.
- `Airports.NewAirport` uses an unbounded integer. It does not model the `OutOfMemoryError` a huge count would raise, which the source does not catch.
- Plane objects are values here. Two map keys that share one mutable `Plane` object cannot be expressed. In reachable states every plane is stored under its own flight number (`AirportInvariant.KeysMatch`), so this does not arise.
- A runway object outside the registry cannot be expressed either. A number outside 1..N names no runway, and vacating it leaves the registry unchanged.
- `Airports.GetArrivals` and `Airports.GetDepartures` return sets of plane values. The source's hash sets merge planes that have equal flight numbers. Under the invariant the flight numbers are distinct, so the two agree.
- Iteration order of the source's hash maps and sets is not modelled.
