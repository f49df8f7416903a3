/** The lifecycle of one flight as an explicit phase that names the runway it holds, and
    the proof that the engine's status-and-runway encoding moves every flight only along
    the edges of that lifecycle. In the engine a `Waiting` plane is either circling or on
    approach, told apart only by whether it holds a runway; here they are two phases. */
module Lifecycle {
  import opened Wrappers
  import opened PlaneStatuses
  import opened Planes
  import opened Airports
  import opened AirportInvariant
  import opened AirportRuns

  datatype Phase =
    | Expected               // registered, arrival not yet announced
    | Queued                 // circling, waiting for a runway
    | OnApproach(runway: int) // cleared to land on the runway
    | OnGround(runway: int)   // landed, still holding the runway
    | Boarding(runway: int)   // boarding for departure, still holding the runway

  /** The phase a plane's status and runway encode, or None for a combination the engine
      never produces. */
  function PhaseOf(p: Plane): (r: Option<Phase>)
    ensures r.Some? ==> match r.value
      case Expected => p.status == Due && p.runway.None?
      case Queued => p.status == Waiting && p.runway.None?
      case OnApproach(k) => p.status == Waiting && p.runway == Some(k)
      case OnGround(k) => p.status == Landed && p.runway == Some(k)
      case Boarding(k) => p.status == Departing && p.runway == Some(k)
    ensures r.None? <==> (p.status == Due && p.runway.Some?) || (Ordinal(Waiting) < Ordinal(p.status) && p.runway.None?)
  {
    match (p.status, p.runway)
    case (Due, None) => Some(Expected)
    case (Waiting, None) => Some(Queued)
    case (Waiting, Some(k)) => Some(OnApproach(k))
    case (Landed, Some(k)) => Some(OnGround(k))
    case (Departing, Some(k)) => Some(Boarding(k))
    case _ => None
  }

  /** The edges of the lifecycle, plus staying put. A runway, once granted, is kept. */
  predicate Advances(x: Phase, y: Phase) {
    || x == y
    || (x == Expected && (y == Queued || y.OnApproach?))
    || (x == Queued && y.OnApproach?)
    || (x.OnApproach? && y == OnGround(x.runway))
    || (x.OnGround? && y == Boarding(x.runway))
  }

  /** In a valid state every plane is in one of the five phases. */
  lemma ValidPlanesHaveAPhase(a: Airport, id: string)
    requires Valid(a) && id in a.planes
    ensures PhaseOf(a.planes[id]).Some?
  {
  }

  /** One call, in a valid state, moves each flight that stays registered along one
      lifecycle edge at most. */
  lemma StepFollowsLifecycle(a: Airport, c: Call, id: string)
    requires Valid(a)
    requires id in a.planes && id in Step(a, c).after.planes
    ensures PhaseOf(a.planes[id]).Some? && PhaseOf(Step(a, c).after.planes[id]).Some?
    ensures Advances(PhaseOf(a.planes[id]).value, PhaseOf(Step(a, c).after.planes[id]).value)
  {
    StepKeepsValid(a, c);
    if c.Depart? && Leave(a, c.id).Success? && |a.circlingQ| > 0 {
      PromotionOutcome(a, c.id);
    }
  }

  /** Over a run from a valid state, a flight that is never told to take off goes through
      the lifecycle in order: its phase at the end is reachable from its phase at the start. */
  lemma {:induction false} RunFollowsLifecycle(a: Airport, calls: seq<Call>, id: string)
    requires Valid(a) && id in a.planes && NeverDeparts(calls, id)
    ensures id in Run(a, calls).after.planes
    ensures PhaseOf(a.planes[id]).Some? && PhaseOf(Run(a, calls).after.planes[id]).Some?
    ensures Reaches(PhaseOf(a.planes[id]).value, PhaseOf(Run(a, calls).after.planes[id]).value)
    decreases |calls|
  {
    if |calls| == 0 {
    } else {
      var init := calls[..|calls| - 1];
      assert NeverDeparts(init, id) by {
        assert forall i :: 0 <= i < |init| ==> init[i] == calls[i];
      }
      RunFollowsLifecycle(a, init, id);
      RunKeepsValid(a, init);
      var r := Run(a, init);
      PlaneStaysUntilItDeparts(r.after, calls[|calls| - 1], id);
      StepFollowsLifecycle(r.after, calls[|calls| - 1], id);
      ReachesExtends(PhaseOf(a.planes[id]).value, PhaseOf(r.after.planes[id]).value,
                     PhaseOf(Run(a, calls).after.planes[id]).value);
    }
  }

  /** Position of a phase along the lifecycle. */
  function Rank(x: Phase): nat {
    match x
    case Expected => 0
    case Queued => 1
    case OnApproach(_) => 2
    case OnGround(_) => 3
    case Boarding(_) => 4
  }

  /** `y` lies on the lifecycle at or after `x`, holding the same runway once `x` holds one. */
  predicate Reaches(x: Phase, y: Phase) {
    && Rank(x) <= Rank(y)
    && (Rank(x) >= 2 ==> y.runway == x.runway)
  }

  lemma ReachesExtends(x: Phase, y: Phase, z: Phase)
    requires Reaches(x, y) && Advances(y, z)
    ensures Reaches(x, z)
  {
  }
}
