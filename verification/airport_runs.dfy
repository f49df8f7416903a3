/** Sequences of calls made by the front end, one at a time, and what holds over any of
    them: the invariant, forward-only statuses, and first-come-first-served promotion. */
module AirportRuns {
  import opened Wrappers
  import opened Errors
  import opened PlaneStatuses
  import opened Runways
  import opened Planes
  import opened Airports
  import opened AirportInvariant

  /** One public operation with its arguments. */
  datatype Call =
    | Register(id: string, city: string)
    | Arrive(id: string)
    | Land(id: string, runway: int)
    | Board(id: string, destination: string)
    | Depart(id: string)

  /** The state after a call, the flights it sent circling, and the flights it promoted
      from the queue onto a runway, as the caller sees them in the returned values. */
  datatype Effect = Effect(after: Airport, joined: seq<string>, promoted: seq<string>)

  function Step(a: Airport, c: Call): (e: Effect)
    ensures |e.joined| <= 1 && |e.promoted| <= 1
  {
    match c
    case Register(id, city) =>
      var r := RegisterFlight(a, id, city);
      Effect(if r.Success? then r.value else a, [], [])
    case Arrive(id) =>
      (match ArriveAtAirport(a, id)
       case Success(arr) => Effect(arr.airport, if arr.runway == 0 then [id] else [], [])
       case Failure(_) => Effect(a, [], []))
    case Land(id, n) =>
      var r := LandAtAirport(a, id, n);
      Effect(if r.Success? then r.value else a, [], [])
    case Board(id, destination) =>
      var r := ReadyForBoarding(a, id, destination);
      Effect(if r.Success? then r.value else a, [], [])
    case Depart(id) =>
      var o := TakeOff(a, id);
      Effect(o.airport, [], if o.result.Success? && o.result.value.Some? then [o.result.value.value.flight] else [])
  }

  /** The effect of the calls, made in order from `a`. */
  function Run(a: Airport, calls: seq<Call>): Effect
    decreases |calls|
  {
    if |calls| == 0 then Effect(a, [], [])
    else
      var r := Run(a, calls[..|calls| - 1]);
      var e := Step(r.after, calls[|calls| - 1]);
      Effect(e.after, r.joined + e.joined, r.promoted + e.promoted)
  }

  lemma StepKeepsValid(a: Airport, c: Call)
    requires Valid(a)
    ensures Valid(Step(a, c).after)
  {
    match c
    case Register(id, city) =>
      if RegisterFlight(a, id, city).Success? { RegisterFlightKeepsValid(a, id, city); }
    case Arrive(id) =>
      if ArriveAtAirport(a, id).Success? { ArriveAtAirportKeepsValid(a, id); }
    case Land(id, n) =>
      if LandAtAirport(a, id, n).Success? { LandAtAirportKeepsValid(a, id, n); }
    case Board(id, destination) =>
      if ReadyForBoarding(a, id, destination).Success? { ReadyForBoardingKeepsValid(a, id, destination); }
    case Depart(id) =>
      TakeOffKeepsValid(a, id);
  }

  lemma {:induction false} RunKeepsValid(a: Airport, calls: seq<Call>)
    requires Valid(a)
    ensures Valid(Run(a, calls).after)
    decreases |calls|
  {
    if |calls| > 0 {
      RunKeepsValid(a, calls[..|calls| - 1]);
      StepKeepsValid(Run(a, calls[..|calls| - 1]).after, calls[|calls| - 1]);
    }
  }

  /** Every state the engine can reach from its constructor satisfies the invariant: each
      booked runway has exactly one holder, and the queue holds exactly the circling
      flights, each once, and only while every runway is booked. */
  lemma ReachableStatesAreValid(n: int, calls: seq<Call>)
    requires n >= 0
    ensures NewAirport(n).Success?
    ensures Valid(Run(NewAirport(n).value, calls).after)
  {
    NewAirportIsValid(n);
    RunKeepsValid(NewAirport(n).value, calls);
  }

  /** `b` keeps each flight number that `a` also has on the same flight, at a status no
      earlier than in `a`. */
  ghost predicate StatusesAdvance(a: Airport, b: Airport) {
    forall id :: id in a.planes && id in b.planes ==>
      && b.planes[id].flight == a.planes[id].flight
      && Ordinal(a.planes[id].status) <= Ordinal(b.planes[id].status)
  }

  /** No call moves any flight's status backwards or changes its flight number, in any state. */
  lemma StepNeverLowersStatus(a: Airport, c: Call)
    ensures StatusesAdvance(a, Step(a, c).after)
  {
    if c.Depart? {
      TakeOffNeverLowersStatus(a, c.id);
    }
  }

  /** A take-off, whether its promotion succeeds or not, lowers no remaining flight's status. */
  lemma TakeOffNeverLowersStatus(a: Airport, id: string)
    ensures StatusesAdvance(a, TakeOff(a, id).airport)
  {
  }

  /** Only its own take-off removes a registered flight. */
  lemma PlaneStaysUntilItDeparts(a: Airport, c: Call, id: string)
    requires id in a.planes
    requires c != Depart(id)
    ensures id in Step(a, c).after.planes
  {
  }

  /** `calls` holds no take-off of flight `id`. */
  predicate NeverDeparts(calls: seq<Call>, id: string) {
    forall i :: 0 <= i < |calls| ==> calls[i] != Depart(id)
  }

  /** Over a run of calls, a flight registered at the start that is never told to take off
      stays registered, on the same flight number, and its status moves only forward. */
  lemma {:induction false} RunNeverLowersStatus(a: Airport, calls: seq<Call>, id: string)
    requires id in a.planes && NeverDeparts(calls, id)
    ensures id in Run(a, calls).after.planes
    ensures Run(a, calls).after.planes[id].flight == a.planes[id].flight
    ensures Ordinal(a.planes[id].status) <= Ordinal(Run(a, calls).after.planes[id].status)
    decreases |calls|
  {
    if |calls| > 0 {
      var init := calls[..|calls| - 1];
      assert NeverDeparts(init, id) by {
        assert forall i :: 0 <= i < |init| ==> init[i] == calls[i];
      }
      RunNeverLowersStatus(a, init, id);
      var r := Run(a, init);
      PlaneStaysUntilItDeparts(r.after, calls[|calls| - 1], id);
      StepNeverLowersStatus(r.after, calls[|calls| - 1]);
    }
  }

  /** One call, in a valid state, either appends the flight it sends circling to the queue
      or removes from its head the flight it promotes, or leaves the queue alone. */
  lemma StepIsFirstComeFirstServed(a: Airport, c: Call)
    requires Valid(a)
    ensures a.circlingQ + Step(a, c).joined == Step(a, c).promoted + Step(a, c).after.circlingQ
  {
    if c.Depart? {
      TakeOffIsFirstComeFirstServed(a, c.id);
    }
  }

  /** A take-off in a valid state promotes the head of the queue, if it promotes anyone. */
  lemma TakeOffIsFirstComeFirstServed(a: Airport, id: string)
    requires Valid(a)
    ensures Step(a, Depart(id)).joined == []
    ensures a.circlingQ == Step(a, Depart(id)).promoted + Step(a, Depart(id)).after.circlingQ
  {
    TakeOffKeepsValid(a, id);
    if Leave(a, id).Success? && |a.circlingQ| > 0 {
      PromotionOutcome(a, id);
      var o := TakeOff(a, id);
      assert a.planes[a.circlingQ[0]].flight == a.circlingQ[0];
      assert o.result.value.value.flight == a.circlingQ[0];
      assert a.circlingQ == [a.circlingQ[0]] + a.circlingQ[1..];
    }
  }

  /** Flights leave the queue in the order they joined it: over any run from a valid state,
      the flights promoted on take-offs, followed by those still circling, are exactly the
      flights circling at the start followed by those sent circling by arrivals. */
  lemma {:induction false} RunIsFirstComeFirstServed(a: Airport, calls: seq<Call>)
    requires Valid(a)
    ensures var r := Run(a, calls);
            a.circlingQ + r.joined == r.promoted + r.after.circlingQ
    decreases |calls|
  {
    if |calls| > 0 {
      var r := Run(a, calls[..|calls| - 1]);
      RunIsFirstComeFirstServed(a, calls[..|calls| - 1]);
      RunKeepsValid(a, calls[..|calls| - 1]);
      var e := Step(r.after, calls[|calls| - 1]);
      StepIsFirstComeFirstServed(r.after, calls[|calls| - 1]);
      assert Run(a, calls) == Effect(e.after, r.joined + e.joined, r.promoted + e.promoted);
      QueueLedgersCompose(a.circlingQ, r.joined, r.promoted, r.after.circlingQ, e.joined, e.promoted, e.after.circlingQ);
    }
  }

  /** Two queue ledgers, one after the other, add up. */
  lemma QueueLedgersCompose<T>(q0: seq<T>, joined0: seq<T>, left0: seq<T>, q1: seq<T>, joined1: seq<T>, left1: seq<T>, q2: seq<T>)
    requires q0 + joined0 == left0 + q1
    requires q1 + joined1 == left1 + q2
    ensures q0 + (joined0 + joined1) == (left0 + left1) + q2
  {
    calc {
      q0 + (joined0 + joined1);
      (q0 + joined0) + joined1;
      (left0 + q1) + joined1;  // first ledger
      left0 + (q1 + joined1);
      left0 + (left1 + q2);    // second ledger
    }
  }

  /** From a fresh airport, flights are promoted in the order they were sent circling. */
  lemma PromotionOrderIsArrivalOrder(n: int, calls: seq<Call>)
    requires n >= 0
    ensures NewAirport(n).Success?
    ensures var r := Run(NewAirport(n).value, calls);
            r.joined == r.promoted + r.after.circlingQ
  {
    NewAirportIsValid(n);
    RunIsFirstComeFirstServed(NewAirport(n).value, calls);
    assert NewAirport(n).value.circlingQ == [];
  }

  /** The number of runways fixed at construction is what every later state reports. */
  lemma {:induction false} RunwayCountNeverChanges(n: int, calls: seq<Call>)
    requires n >= 0
    ensures NewAirport(n).Success?
    ensures GetNumberOfRunways(Run(NewAirport(n).value, calls).after) == n
    decreases |calls|
  {
    if |calls| > 0 {
      RunwayCountNeverChanges(n, calls[..|calls| - 1]);
      var r := Run(NewAirport(n).value, calls[..|calls| - 1]);
      StepKeepsRunwayCount(r.after, calls[|calls| - 1]);
    }
  }

  /** No call adds or removes a runway. */
  lemma StepKeepsRunwayCount(a: Airport, c: Call)
    ensures |Step(a, c).after.runways| == |a.runways|
  {
  }
}
