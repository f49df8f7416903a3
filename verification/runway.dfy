/** A landing runway, and the airport's fixed registry of runways numbered 1..N.
    Runways are referred to by number: the registry holds the flag of runway `k`
    at index `k - 1`, and a runway's number never changes after construction. */
module Runways {
  import opened Wrappers
  import opened Errors

  datatype Runway = Runway(number: int, isAllocated: bool)

  /** Constructs a free runway; numbers below 1 are rejected. */
  function NewRunway(n: int): (r: Result<Runway, AirportError>)
    ensures r.Failure? <==> n < 1
    ensures r.Failure? ==> r.error == BadRunwayNumber
    ensures r.Success? ==> r.value.number == n && !r.value.isAllocated
  {
    if n < 1 then Failure(BadRunwayNumber) else Success(Runway(n, false))
  }

  /** Marks the runway as allocated, whatever it was before. */
  function Book(r: Runway): (r': Runway)
    ensures r'.number == r.number
    ensures r'.isAllocated
  {
    r.(isAllocated := true)
  }

  /** Marks the runway as free, whatever it was before. */
  function Vacate(r: Runway): (r': Runway)
    ensures r'.number == r.number
    ensures !r'.isAllocated
  {
    r.(isAllocated := false)
  }

  /** Neither mutator looks at the flag it overwrites. */
  lemma BookAndVacateAreUnguarded(r: Runway)
    ensures Book(Book(r)) == Book(r) && Book(Vacate(r)) == Book(r)
    ensures Vacate(Vacate(r)) == Vacate(r) && Vacate(Book(r)) == Vacate(r)
  {
  }

  /** A call that changes a runway. */
  datatype RunwayCall = BookCall | VacateCall

  function Apply(r: Runway, c: RunwayCall): Runway {
    match c
    case BookCall => Book(r)
    case VacateCall => Vacate(r)
  }

  /** The runway after the calls `calls`, made in order. */
  function Replay(r: Runway, calls: seq<RunwayCall>): Runway
    decreases |calls|
  {
    if |calls| == 0 then r else Apply(Replay(r, calls[..|calls| - 1]), calls[|calls| - 1])
  }

  /** The flag reports the most recent call, or its initial value when there was none,
      and the number is never changed. */
  lemma {:induction false} ReplayReportsLastCall(r: Runway, calls: seq<RunwayCall>)
    ensures Replay(r, calls).number == r.number
    ensures Replay(r, calls).isAllocated
         == if |calls| == 0 then r.isAllocated else calls[|calls| - 1] == BookCall
    decreases |calls|
  {
    if |calls| > 0 {
      ReplayReportsLastCall(r, calls[..|calls| - 1]);
    }
  }

  /** A freshly constructed runway is allocated exactly when the last call was a booking. */
  lemma NewRunwayReportsLastCall(n: int, calls: seq<RunwayCall>)
    requires n >= 1
    ensures Replay(NewRunway(n).value, calls).number == n
    ensures Replay(NewRunway(n).value, calls).isAllocated <==> |calls| > 0 && calls[|calls| - 1] == BookCall
  {
  }

  // ---- the registry ----

  /** `k` numbers one of the runways of registry `rs`. */
  predicate IsRunwayOf(rs: seq<bool>, k: int) {
    1 <= k <= |rs|
  }

  /** The runway object numbered `k` of the registry. */
  function RunwayAt(rs: seq<bool>, k: int): (r: Runway)
    requires IsRunwayOf(rs, k)
    ensures r.number == k
    ensures r.isAllocated == rs[k - 1]
  {
    Runway(k, rs[k - 1])
  }

  /** The registry of `n` runways built by the engine's constructor: runway `i + 1` at
      index `i`, each as the runway constructor makes it. */
  function NewRegistry(n: nat): (rs: seq<bool>)
    ensures |rs| == n
    ensures forall k :: IsRunwayOf(rs, k) ==> NewRunway(k).Success? && RunwayAt(rs, k) == NewRunway(k).value
  {
    seq(n, _ => false)
  }

  /** Books runway `k`; a number outside the registry names no runway of it. */
  function BookAt(rs: seq<bool>, k: int): (rs': seq<bool>)
    ensures |rs'| == |rs|
    ensures IsRunwayOf(rs, k) ==> RunwayAt(rs', k) == Book(RunwayAt(rs, k))
    ensures forall i :: 0 <= i < |rs| && i != k - 1 ==> rs'[i] == rs[i]
  {
    if IsRunwayOf(rs, k) then rs[k - 1 := true] else rs
  }

  /** Vacates runway `k`; a number outside the registry names no runway of it. */
  function VacateAt(rs: seq<bool>, k: int): (rs': seq<bool>)
    ensures |rs'| == |rs|
    ensures IsRunwayOf(rs, k) ==> RunwayAt(rs', k) == Vacate(RunwayAt(rs, k))
    ensures forall i :: 0 <= i < |rs| && i != k - 1 ==> rs'[i] == rs[i]
  {
    if IsRunwayOf(rs, k) then rs[k - 1 := false] else rs
  }

  /** Vacating a runway that was free before it was booked restores the registry. */
  lemma VacateUndoesBook(rs: seq<bool>, k: int)
    requires IsRunwayOf(rs, k) && !rs[k - 1]
    ensures VacateAt(BookAt(rs, k), k) == rs
  {
  }

  /** The number of the lowest-numbered free runway, or None when every runway is booked. */
  function NextFreeRunway(rs: seq<bool>): (r: Option<int>)
    ensures r.Some? ==> IsRunwayOf(rs, r.value) && !rs[r.value - 1]
    ensures r.Some? ==> forall i :: 0 <= i < r.value - 1 ==> rs[i]
    ensures r.None? <==> forall i :: 0 <= i < |rs| ==> rs[i]
  {
    FreeFrom(rs, 0)
  }

  /** Scans the registry upwards from index `i`. */
  function FreeFrom(rs: seq<bool>, i: nat): (r: Option<int>)
    requires i <= |rs|
    requires forall j :: 0 <= j < i ==> rs[j]
    ensures r.Some? ==> i < r.value <= |rs| && !rs[r.value - 1]
    ensures r.Some? ==> forall j :: 0 <= j < r.value - 1 ==> rs[j]
    ensures r.None? <==> forall j :: 0 <= j < |rs| ==> rs[j]
    decreases |rs| - i
  {
    if i == |rs| then None
    else if !rs[i] then Some(i + 1)
    else FreeFrom(rs, i + 1)
  }
}
