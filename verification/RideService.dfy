/** The ride service: operations over rides and offers that write rows, an event and an idempotency key in one
    transaction. */
module RideService {
  import opened Options
  import opened RideDomain

  datatype Topic =
    | RideRequested | RideCancelled | MatchingStarted | RideDriverAssigned | RideInProgress | RideCompleted
    | OfferSent | OfferAccepted | OfferDeclined | OfferExpired

  datatype Event =
    | RideEvent(topic: Topic, ride: RideID, status: RideStatus)
    | OfferEvent(topic: Topic, ride: RideID, offer: OfferID, driver: DriverID, outcome: OfferStatus)

  datatype Response = RideReply(ride: Ride) | OfferReply(offer: Offer)

  /** An idempotency key; the empty key is None. */
  type Key = Option<nat>

  datatype DB = DB(rides: map<RideID, Ride>, offers: map<OfferID, Offer>, keys: map<nat, Response>, outbox: seq<Event>)

  /** Identifiers of new rows and the clock are inputs. */
  datatype Op =
    | CreateRide(ride: RideID, rider: RiderID, route: Route)
    | CancelRide(ride: RideID)
    | StartMatching(ride: RideID)
    | AssignDriver(ride: RideID, driver: DriverID)
    | StartRide(ride: RideID)
    | CompleteRide(ride: RideID)
    | CreateOffer(offer: OfferID, ride: RideID, driver: DriverID, ttl: int, now: int)
    | AcceptOffer(offer: OfferID)
    | DeclineOffer(offer: OfferID)
    | ExpireOffer(offer: OfferID)

  predicate UpdatesRide(op: Op) {
    op.CancelRide? || op.StartMatching? || op.AssignDriver? || op.StartRide? || op.CompleteRide?
  }

  predicate UpdatesOffer(op: Op) {
    op.AcceptOffer? || op.DeclineOffer? || op.ExpireOffer?
  }

  function NextRideStatus(op: Op): RideStatus
    requires UpdatesRide(op)
  {
    match op
    case CancelRide(_) => Cancelled
    case StartMatching(_) => Matching
    case AssignDriver(_, _) => DriverAssigned
    case StartRide(_) => InProgress
    case CompleteRide(_) => Completed
  }

  function NextOfferStatus(op: Op): OfferStatus
    requires UpdatesOffer(op)
  {
    match op
    case AcceptOffer(_) => Accepted
    case DeclineOffer(_) => Declined
    case ExpireOffer(_) => Expired
  }

  function TopicOf(op: Op): Topic {
    match op
    case CreateRide(_, _, _) => RideRequested
    case CancelRide(_) => RideCancelled
    case StartMatching(_) => MatchingStarted
    case AssignDriver(_, _) => RideDriverAssigned
    case StartRide(_) => RideInProgress
    case CompleteRide(_) => RideCompleted
    case CreateOffer(_, _, _, _, _) => OfferSent
    case AcceptOffer(_) => OfferAccepted
    case DeclineOffer(_) => OfferDeclined
    case ExpireOffer(_) => OfferExpired
  }

  function EventOf(op: Op, response: Response): Event {
    match response
    case RideReply(r) => RideEvent(TopicOf(op), r.id, r.status)
    case OfferReply(o) => OfferEvent(TopicOf(op), o.ride, o.id, o.driver, o.status)
  }

  /** The response that an operation builds from the row it read: it names a driver only if the operation assigns one.
      */
  function RideAfter(op: Op, r: Ride): Ride
    requires UpdatesRide(op)
  {
    if op.AssignDriver? then r.(status := DriverAssigned, driver := Some(op.driver))
    else r.(status := NextRideStatus(op))
  }

  /** What an operation answers if nothing else is going on. */
  function Answer(db: DB, op: Op): Result<Response> {
    if op.CreateRide? then
      if op.ride in db.rides then Err(Storage) else Ok(RideReply(Ride(op.ride, op.rider, None, Requested, op.route)))
    else if op.CreateOffer? then
      if op.offer in db.offers || op.ride !in db.rides then Err(Storage)
      else Ok(OfferReply(NewOffer(op.ride, op.driver, op.ttl, op.now, op.offer)))
    else if UpdatesRide(op) then
      if op.ride !in db.rides then Err(NotFound)
      else match db.rides[op.ride].Transition(NextRideStatus(op))
        case Ok(_) => Ok(RideReply(RideAfter(op, db.rides[op.ride])))
        case Err(e) => Err(e)
    else
      if op.offer !in db.offers then Err(NotFound)
      else match db.offers[op.offer].Transition(NextOfferStatus(op))
        case Ok(o) => Ok(OfferReply(o))
        case Err(e) => Err(e)
  }

  /** Writes the row of a response and its event. */
  function Write(db: DB, op: Op, response: Response): DB {
    var log := db.outbox + [EventOf(op, response)];
    match response
    case RideReply(r) => db.(rides := db.rides[r.id := r], outbox := log)
    case OfferReply(o) => db.(offers := db.offers[o.id := o], outbox := log)
  }

  function Remember(db: DB, key: Key, response: Response): DB {
    if key.Some? then db.(keys := db.keys[key.value := response]) else db
  }

  /** One uninterrupted request. `lookupFails` says that reading the key table failed, which the service ignores:
      it then runs the operation, and a key that is already there makes the commit fail. */
  function Apply(db: DB, op: Op, key: Key, lookupFails: bool): (DB, Result<Response>) {
    if key.Some? && key.value in db.keys && !lookupFails then (db, Ok(db.keys[key.value]))
    else match Answer(db, op)
      case Err(e) => (db, Err(e))
      case Ok(response) =>
        if key.Some? && key.value in db.keys then (db, Err(Storage))
        else (Remember(Write(db, op, response), key, response), Ok(response))
  }

  /** The request gets as far as saving its key. */
  predicate Saves(db: DB, op: Op, key: Key, lookupFails: bool) {
    key.Some? && (key.value !in db.keys || lookupFails) && Answer(db, op).Ok?
  }

  /** The database connection: the tables, and what a transaction in progress must restore. */
  class Store {
    var rides: map<RideID, Ride>
    var offers: map<OfferID, Offer>
    var keys: map<nat, Response>
    var outbox: seq<Event>
    var saved: DB
    var aborted: bool

    function Tables(): DB
      reads this
    {
      DB(rides, offers, keys, outbox)
    }

    constructor ()
      ensures Tables() == DB(map[], map[], map[], [])
    {
      rides, offers, keys, outbox := map[], map[], map[], [];
      saved, aborted := DB(map[], map[], map[], []), false;
    }

    method Begin()
      modifies this`saved, this`aborted
      ensures saved == Tables() && !aborted
    {
      saved, aborted := DB(rides, offers, keys, outbox), false;
    }

    method Rollback()
      modifies this
      ensures Tables() == old(saved)
    {
      rides, offers, keys, outbox := saved.rides, saved.offers, saved.keys, saved.outbox;
    }

    /** A transaction in which a statement failed cannot commit. */
    method Commit() returns (ok: bool)
      modifies this
      ensures ok == !old(aborted)
      ensures Tables() == if ok then old(Tables()) else old(saved)
    {
      ok := !aborted;
      if !ok {
        Rollback();
      }
    }

    method InsertRide(r: Ride) returns (ok: bool)
      modifies this`rides
      ensures ok == (r.id !in old(rides))
      ensures rides == if ok then old(rides)[r.id := r] else old(rides)
    {
      ok := r.id !in rides;
      if ok {
        rides := rides[r.id := r];
      }
    }

    method UpdateStatusIfCurrent(id: RideID, current: RideStatus, next: RideStatus) returns (result: Result<()>)
      modifies this`rides
      ensures result == (if id !in old(rides) then Err(NotFound)
                         else if old(rides)[id].status != current then Err(Conflict) else Ok(()))
      ensures rides == if result.Ok? then old(rides)[id := old(rides)[id].(status := next)] else old(rides)
    {
      if id in rides && rides[id].status == current {
        rides := rides[id := rides[id].(status := next)];
        return Ok(());
      }
      return if id in rides then Err(Conflict) else Err(NotFound);
    }

    method AssignDriverIfCurrent(
        id: RideID, driver: DriverID, current: RideStatus, next: RideStatus) returns (result: Result<()>)
      modifies this`rides
      ensures result == (if id !in old(rides) then Err(NotFound)
                         else if old(rides)[id].status != current then Err(Conflict) else Ok(()))
      ensures rides == if result.Ok?
                       then old(rides)[id := old(rides)[id].(status := next, driver := Some(driver))] else old(rides)
    {
      if id in rides && rides[id].status == current {
        rides := rides[id := rides[id].(status := next, driver := Some(driver))];
        return Ok(());
      }
      return if id in rides then Err(Conflict) else Err(NotFound);
    }

    /** The foreign key rejects an offer for a ride that does not exist. */
    method InsertOffer(o: Offer) returns (ok: bool)
      modifies this`offers
      ensures ok == (o.id !in old(offers) && o.ride in rides)
      ensures offers == if ok then old(offers)[o.id := o] else old(offers)
    {
      ok := o.id !in offers && o.ride in rides;
      if ok {
        offers := offers[o.id := o];
      }
    }

    method UpdateOfferIfCurrent(id: OfferID, current: OfferStatus, next: OfferStatus) returns (result: Result<()>)
      modifies this`offers
      ensures result == (if id !in old(offers) then Err(NotFound)
                         else if old(offers)[id].status != current then Err(Conflict) else Ok(()))
      ensures offers == if result.Ok? then old(offers)[id := old(offers)[id].(status := next)] else old(offers)
    {
      if id in offers && offers[id].status == current {
        offers := offers[id := offers[id].(status := next)];
        return Ok(());
      }
      return if id in offers then Err(Conflict) else Err(NotFound);
    }

    method Enqueue(event: Event)
      modifies this`outbox
      ensures outbox == old(outbox) + [event]
    {
      outbox := outbox + [event];
    }

    /** A duplicate key is an error, the insert may fail in other ways, and an error dooms the transaction. */
    method SaveKey(key: nat, response: Response, fails: bool)
      modifies this`keys, this`aborted
      ensures aborted == (old(aborted) || fails || key in old(keys))
      ensures keys == if fails || key in old(keys) then old(keys) else old(keys)[key := response]
    {
      if fails || key in keys {
        aborted := true;
      } else {
        keys := keys[key := response];
      }
    }
  }

  class Service {
    const store: Store

    constructor (store: Store)
      ensures this.store == store
    {
      this.store := store;
    }

    /** The part of a ride operation that runs inside the transaction. */
    method PerformOnRide(op: Op) returns (result: Result<Response>)
      requires Valid() && (op.CreateRide? || UpdatesRide(op))
      modifies store`rides, store`outbox
      ensures result == Answer(old(store.Tables()), op)
      ensures result.Ok? ==> store.Tables() == Write(old(store.Tables()), op, result.value)
    {
      if op.CreateRide? {
        var ride := Ride(op.ride, op.rider, None, Requested, op.route);
        var ok := store.InsertRide(ride);
        if !ok {
          return Err(Storage);
        }
        store.Enqueue(RideEvent(RideRequested, ride.id, Requested));
        return Ok(RideReply(ride));
      }
      if op.ride !in store.rides {
        return Err(NotFound);
      }
      var ride := store.rides[op.ride];
      var moved := ride.Transition(NextRideStatus(op));
      if moved.Err? {
        return Err(moved.error);
      }
      var updated := moved.value;
      var written: Result<()>;
      if op.AssignDriver? {
        updated := updated.(driver := Some(op.driver));
        written := store.AssignDriverIfCurrent(op.ride, op.driver, ride.status, updated.status);
      } else {
        written := store.UpdateStatusIfCurrent(op.ride, ride.status, updated.status);
      }
      assert written.Ok?;  // nothing runs between the read and the compare-and-set here
      store.Enqueue(RideEvent(TopicOf(op), op.ride, updated.status));
      return Ok(RideReply(updated));
    }

    /** The part of an offer operation that runs inside the transaction. */
    method PerformOnOffer(op: Op) returns (result: Result<Response>)
      requires Valid() && (op.CreateOffer? || UpdatesOffer(op))
      modifies store`offers, store`outbox
      ensures result == Answer(old(store.Tables()), op)
      ensures result.Ok? ==> store.Tables() == Write(old(store.Tables()), op, result.value)
    {
      if op.CreateOffer? {
        var offer := NewOffer(op.ride, op.driver, op.ttl, op.now, op.offer);
        var ok := store.InsertOffer(offer);
        if !ok {
          return Err(Storage);
        }
        store.Enqueue(OfferEvent(OfferSent, offer.ride, offer.id, offer.driver, offer.status));
        return Ok(OfferReply(offer));
      }
      if op.offer !in store.offers {
        return Err(NotFound);
      }
      var offer := store.offers[op.offer];
      var moved := offer.Transition(NextOfferStatus(op));
      if moved.Err? {
        return Err(moved.error);
      }
      var updated := moved.value;
      var written := store.UpdateOfferIfCurrent(op.offer, offer.status, updated.status);
      assert written.Ok?;  // nothing runs between the read and the compare-and-set here
      store.Enqueue(OfferEvent(TopicOf(op), updated.ride, updated.id, updated.driver, updated.status));
      return Ok(OfferReply(updated));
    }

    /** Rows are stored under their own identifiers. */
    ghost predicate Valid()
      reads store
    {
      WellKeyed(store.Tables())
    }

    /** One request: look the key up, otherwise perform the operation, save the key and commit. */
    method WithIdempotency(op: Op, key: Key, lookupFails: bool, saveFails: bool) returns (result: Result<Response>)
      requires Valid()
      modifies store
      ensures (store.Tables(), result) ==
              if saveFails && Saves(old(store.Tables()), op, key, lookupFails) then (old(store.Tables()), Err(Storage))
              else Apply(old(store.Tables()), op, key, lookupFails)
      ensures Valid()
    {
      WellKeyedIsKept(store.Tables(), op, key, lookupFails);
      if key.Some? && !lookupFails && key.value in store.keys {
        return Ok(store.keys[key.value]);
      }
      store.Begin();
      if op.CreateRide? || UpdatesRide(op) {
        result := PerformOnRide(op);
      } else {
        result := PerformOnOffer(op);
      }
      if result.Err? {
        store.Rollback();
        return;
      }
      if key.Some? {
        store.SaveKey(key.value, result.value, saveFails);
      }
      var committed := store.Commit();
      if !committed {
        result := Err(Storage);
      }
    }

    /** Expires the listed offers one by one; an offer that has been resolved meanwhile is left alone. */
    method ExpireAll(offers: seq<OfferID>)
      requires Valid()
      modifies store
      ensures Valid()
      ensures store.Tables() == AfterExpiry(old(store.Tables()), offers)
    {
      for i := 0 to |offers|
        invariant Valid()
        invariant store.Tables() == AfterExpiry(old(store.Tables()), offers[..i])
      {
        assert offers[..i + 1][..i] == offers[..i];
        var result := WithIdempotency(ExpireOffer(offers[i]), None, false, false);
      }
      assert offers[..|offers|] == offers;
    }
  }

  ghost predicate WellKeyed(db: DB) {
    && (forall id :: id in db.rides ==> db.rides[id].id == id)
    && (forall id :: id in db.offers ==> db.offers[id].id == id)
  }

  lemma WellKeyedIsKept(db: DB, op: Op, key: Key, lookupFails: bool)
    requires WellKeyed(db)
    ensures WellKeyed(Apply(db, op, key, lookupFails).0)
  {
  }

  function AfterExpiry(db: DB, offers: seq<OfferID>): DB {
    if offers == [] then db
    else
      Apply(AfterExpiry(db, offers[..|offers| - 1]), ExpireOffer(offers[|offers| - 1]), None, false).0
  }

  /** A sweep of the expiry worker expires exactly the listed offers that are still open, and no other. */
  lemma {:induction false} ExpirySparesTheResolved(db: DB, offers: seq<OfferID>, id: OfferID)
    requires WellKeyed(db)
    ensures var after := AfterExpiry(db, offers);
            && WellKeyed(after) && after.offers.Keys == db.offers.Keys && after.rides == db.rides
            && (id in db.offers ==>
                  after.offers[id] == if id in offers && db.offers[id].status == Pending
                                      then db.offers[id].(status := Expired) else db.offers[id])
    decreases |offers|
  {
    if offers == [] {
    } else {
      var front, last := offers[..|offers| - 1], offers[|offers| - 1];
      assert offers == front + [last];
      ExpirySparesTheResolved(db, front, id);
      ExpirySparesTheResolved(db, front, last);
      WellKeyedIsKept(AfterExpiry(db, front), ExpireOffer(last), None, false);
    }
  }

  /** A failed request leaves no trace. */
  lemma ErrorsLeaveNoTrace(db: DB, op: Op, key: Key, lookupFails: bool)
    requires Apply(db, op, key, lookupFails).1.Err?
    ensures Apply(db, op, key, lookupFails).0 == db
  {
  }

  /** Repeating a successful request under the same key repeats the reply and does nothing else. */
  lemma RetryIsIdempotent(db: DB, op: Op, key: Key, lookupFails: bool, again: Op)
    requires key.Some? && Apply(db, op, key, lookupFails).1.Ok?
    ensures var (after, reply) := Apply(db, op, key, lookupFails);
            Apply(after, again, key, false) == (after, reply)
  {
  }
}
