/** Rides, offers and their state machines. Identifiers are only ever compared. */
module RideDomain {
  import opened Options

  datatype Error = NotFound | Conflict | InvalidTransition | InvalidOfferTransition | Storage

  datatype Result<+T> = Ok(value: T) | Err(error: Error)

  type RideID = nat
  type OfferID = nat
  type DriverID = nat
  type RiderID = nat

  /** Pickup and drop-off coordinates, which are only ever copied. */
  type Route = nat

  datatype RideStatus = Requested | Matching | Offered | DriverAssigned | InProgress | Completed | Cancelled

  datatype Ride = Ride(id: RideID, rider: RiderID, driver: Option<DriverID>, status: RideStatus, route: Route)
  {
    /** Moving to the present status is always allowed and changes nothing. */
    function Transition(next: RideStatus): Result<Ride> {
      if status == next then Ok(this)
      else match status
        case Requested =>
          if next == Matching || next == Cancelled then Ok(this.(status := next)) else Err(InvalidTransition)
        case Matching =>
          if next == Offered || next == Cancelled then Ok(this.(status := next)) else Err(InvalidTransition)
        case Offered =>
          if next == DriverAssigned || next == Cancelled then Ok(this.(status := next)) else Err(InvalidTransition)
        case DriverAssigned =>
          if next == InProgress || next == Cancelled then Ok(this.(status := next)) else Err(InvalidTransition)
        case InProgress => if next == Completed then Ok(this.(status := next)) else Err(InvalidTransition)
        case Completed => Err(InvalidTransition)
        case Cancelled => Err(InvalidTransition)
    }
  }

  /** The arrows of the ride state machine, the idle ones left out. */
  predicate Arrow(from: RideStatus, to: RideStatus) {
    (from, to) in {
      (Requested, Matching), (Requested, Cancelled), (Matching, Offered), (Matching, Cancelled),
      (Offered, DriverAssigned), (Offered, Cancelled), (DriverAssigned, InProgress), (DriverAssigned, Cancelled),
      (InProgress, Completed)}
  }

  /** Transition follows the arrows, allows standing still, and touches nothing but the status. */
  lemma TransitionFollowsArrows(r: Ride, next: RideStatus)
    ensures r.Transition(next).Ok? <==> r.status == next || Arrow(r.status, next)
    ensures r.Transition(next).Ok? ==> r.Transition(next).value == r.(status := next)
    ensures r.Transition(next).Err? ==> r.Transition(next).error == InvalidTransition
  {
  }

  /** How far along a ride is; every arrow goes up, so no run returns to a status it has left. */
  function Rank(s: RideStatus): nat {
    match s
    case Requested => 0
    case Matching => 1
    case Offered => 2
    case DriverAssigned => 3
    case InProgress => 4
    case Completed => 5
    case Cancelled => 6
  }

  lemma ArrowsRise(from: RideStatus, to: RideStatus)
    requires Arrow(from, to)
    ensures Rank(from) < Rank(to)
  {
  }

  datatype OfferStatus = Pending | Accepted | Declined | Expired

  datatype Offer = Offer(
      id: OfferID, ride: RideID, driver: DriverID, status: OfferStatus, expiresAt: int, createdAt: int)
  {
    function Transition(next: OfferStatus): Result<Offer> {
      if status == next then Ok(this)
      else if status == Pending && next != Pending then Ok(this.(status := next))
      else Err(InvalidOfferTransition)
    }
  }

  /** A non-positive time to live means 15 seconds. */
  function NewOffer(ride: RideID, driver: DriverID, ttl: int, now: int, id: OfferID): Offer {
    Offer(id, ride, driver, Pending, now + (if ttl <= 0 then 15 else ttl), now)
  }

  /** Live: still open, or accepted. */
  predicate IsLive(o: Offer) {
    o.status == Pending || o.status == Accepted
  }
}
