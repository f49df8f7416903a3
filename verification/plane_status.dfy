/** The four lifecycle statuses of a flight, ordered as they are declared. */
module PlaneStatuses {
  import opened Wrappers

  datatype PlaneStatus = Due | Waiting | Landed | Departing

  /** Position in declaration order; enum comparison is defined by it. */
  function Ordinal(s: PlaneStatus): (n: nat)
    ensures n < 4
  {
    match s
    case Due => 0
    case Waiting => 1
    case Landed => 2
    case Departing => 3
  }

  /** The status declared at position `n`. */
  function FromOrdinal(n: nat): (s: PlaneStatus)
    requires n < 4
    ensures Ordinal(s) == n
  {
    if n == 0 then Due
    else if n == 1 then Waiting
    else if n == 2 then Landed
    else Departing
  }

  /** There are exactly four statuses: the ordinal is a bijection onto 0..3. */
  lemma OrdinalIsBijection()
    ensures forall s: PlaneStatus :: FromOrdinal(Ordinal(s)) == s
    ensures forall s, t: PlaneStatus :: Ordinal(s) == Ordinal(t) ==> s == t
    ensures forall n: nat :: n < 4 ==> Ordinal(FromOrdinal(n)) == n
  {
  }

  /** Enum comparison: negative, zero or positive as `a` is declared before, at or after `b`. */
  function CompareTo(a: PlaneStatus, b: PlaneStatus): (c: int)
    ensures c < 0 <==> Ordinal(a) < Ordinal(b)
    ensures c == 0 <==> a == b
    ensures c > 0 <==> Ordinal(b) < Ordinal(a)
  {
    Ordinal(a) - Ordinal(b)
  }

  /** `a` is not declared after `b`. */
  predicate AtMost(a: PlaneStatus, b: PlaneStatus) {
    CompareTo(a, b) <= 0
  }

  /** Declaration order is a total order on the statuses. */
  lemma AtMostIsTotalOrder()
    ensures forall a :: AtMost(a, a)
    ensures forall a, b :: AtMost(a, b) && AtMost(b, a) ==> a == b
    ensures forall a, b, c :: AtMost(a, b) && AtMost(b, c) ==> AtMost(a, c)
    ensures forall a, b :: AtMost(a, b) || AtMost(b, a)
  {
  }

  /** The status a plane advances to, or None from the terminal status. */
  function Next(s: PlaneStatus): (r: Option<PlaneStatus>)
    ensures r.None? <==> s == Departing
    ensures r.Some? ==> Ordinal(r.value) == Ordinal(s) + 1
  {
    match s
    case Due => Some(Waiting)
    case Waiting => Some(Landed)
    case Landed => Some(Departing)
    case Departing => None
  }

  /** The successor is the unique status declared immediately after. */
  lemma NextIsUnique(s: PlaneStatus, t: PlaneStatus)
    ensures Next(s) == Some(t) <==> Ordinal(t) == Ordinal(s) + 1
  {
  }

  /** The status reached from `s` by `k` advances, if none of them hits the terminal status. */
  function Advance(s: PlaneStatus, k: nat): Option<PlaneStatus>
    decreases k
  {
    if k == 0 then Some(s)
    else match Next(s)
      case None => None
      case Some(t) => Advance(t, k - 1)
  }

  /** Advancing `k` times moves exactly `k` places along the declaration order, and fails
      exactly when that would go past the last status. */
  lemma {:induction false} AdvanceWalksTheOrder(s: PlaneStatus, k: nat)
    ensures Advance(s, k).Some? <==> Ordinal(s) + k < 4
    ensures Advance(s, k).Some? ==> Ordinal(Advance(s, k).value) == Ordinal(s) + k
    decreases k
  {
    if k > 0 && s != Departing {
      AdvanceWalksTheOrder(Next(s).value, k - 1);
    }
  }

  /** Every status is reached from the initial status `Due`, in declaration order. */
  lemma EveryStatusFollowsDue(n: nat)
    requires n < 4
    ensures Advance(Due, n) == Some(FromOrdinal(n))
  {
  }
}
