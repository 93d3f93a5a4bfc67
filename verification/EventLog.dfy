/** What the outbox says, event by event and in its own words: which events every offer leaves, and which event and row
    every committed operation leaves. */
module EventLog {
  import opened Options
  import opened RideDomain
  import opened RideService
  import opened RideTransactions

  predicate Has(log: seq<Event>, e: Event) {
    exists i :: 0 <= i < |log| && log[i] == e
  }

  lemma HasGrows(log: seq<Event>, last: Event, e: Event)
    ensures Has(log, e) ==> Has(log + [last], e)
    ensures Has(log + [last], last)
  {
    if Has(log, e) {
      var i :| 0 <= i < |log| && log[i] == e;
      assert (log + [last])[i] == e;
    }
    assert (log + [last])[|log|] == last;
  }

  // ---------- What each operation leaves ----------

  ghost predicate LeavesRide(before: DB, after: DB, ride: Ride, topic: Topic) {
    && after.rides == before.rides[ride.id := ride] && after.offers == before.offers
    && after.outbox == before.outbox + [RideEvent(topic, ride.id, ride.status)]
  }

  ghost predicate MovesRide(before: DB, after: DB, r: RideID, status: RideStatus, topic: Topic) {
    && r in before.rides
    && (before.rides[r].status == status || Arrow(before.rides[r].status, status))
    && LeavesRide(before, after, before.rides[r].(status := status), topic)
  }

  ghost predicate LeavesOffer(before: DB, after: DB, o: Offer, topic: Topic) {
    && after.rides == before.rides && after.offers == before.offers[o.id := o]
    && after.outbox == before.outbox + [OfferEvent(topic, o.ride, o.id, o.driver, o.status)]
  }

  ghost predicate ResolvesOffer(before: DB, after: DB, o: OfferID, status: OfferStatus, topic: Topic) {
    && o in before.offers && (before.offers[o].status == Pending || before.offers[o].status == status)
    && LeavesOffer(before, after, before.offers[o].(status := status), topic)
  }

  /** The row and the event of each operation, written out. */
  ghost predicate Leaves(before: DB, op: Op, after: DB) {
    match op
    case CreateRide(r, rider, route) =>
      r !in before.rides && LeavesRide(before, after, Ride(r, rider, None, Requested, route), RideRequested)
    case CancelRide(r) => MovesRide(before, after, r, Cancelled, RideCancelled)
    case StartMatching(r) => MovesRide(before, after, r, Matching, MatchingStarted)
    case AssignDriver(r, d) =>
      && r in before.rides && (before.rides[r].status == Offered || before.rides[r].status == DriverAssigned)
      && LeavesRide(before, after, before.rides[r].(status := DriverAssigned, driver := Some(d)), RideDriverAssigned)
    case StartRide(r) => MovesRide(before, after, r, InProgress, RideInProgress)
    case CompleteRide(r) => MovesRide(before, after, r, Completed, RideCompleted)
    case CreateOffer(o, r, d, ttl, now) =>
      && o !in before.offers && r in before.rides
      && LeavesOffer(before, after, Offer(o, r, d, Pending, now + (if ttl <= 0 then 15 else ttl), now), OfferSent)
    case AcceptOffer(o) => ResolvesOffer(before, after, o, OfferStatus.Accepted, OfferAccepted)
    case DeclineOffer(o) => ResolvesOffer(before, after, o, Declined, OfferDeclined)
    case ExpireOffer(o) => ResolvesOffer(before, after, o, Expired, OfferExpired)
  }

  /** Every commit, whatever it interleaved with, leaves what its operation says, applied to the tables as they now are.
      */
  lemma CommitsLeaveWhatTheySay(w: World, t: TxID)
    requires Consistent(w) && Enabled(w, TryCommit(t)) && !w.txs[t].phase.doomed
    ensures Leaves(w.db, w.txs[t].op, Next(w, TryCommit(t)).db)
  {
    assert TxMatches(w.db, w.txs[t]);
  }

  /** A request that succeeds and is not a repetition leaves the same, and replies with the row it wrote. */
  lemma RequestsLeaveWhatTheySay(db: DB, op: Op, key: Key, lookupFails: bool)
    requires WellKeyed(db) && Apply(db, op, key, lookupFails).1.Ok?
    requires key.Some? && key.value in db.keys ==> lookupFails
    ensures var (after, reply) := Apply(db, op, key, lookupFails);
            && Leaves(db, op, after)
            && match reply.value
               case RideReply(r) =>
                 && r.id in after.rides
                 && r == after.rides[r.id].(driver := if op.AssignDriver? then Some(op.driver) else r.driver)
               case OfferReply(o) => o.id in after.offers && o == after.offers[o.id]
  {
  }

  /** The errors of a request: its row is missing, or the row's status does not allow the change. */
  lemma RequestsFailAsTheyShould(db: DB, op: Op)
    requires WellKeyed(db)
    ensures match Apply(db, op, None, false).1
            case Ok(_) => true
            case Err(e) =>
              match op
              case CreateRide(r, _, _) => e == Storage && r in db.rides
              case CreateOffer(o, r, _, _, _) => e == Storage && (o in db.offers || r !in db.rides)
              case AcceptOffer(o) =>
                if o in db.offers then e == InvalidOfferTransition && db.offers[o].status in {Declined, Expired}
                else e == NotFound
              case DeclineOffer(o) =>
                if o in db.offers then
                  e == InvalidOfferTransition && db.offers[o].status in {OfferStatus.Accepted, Expired}
                else e == NotFound
              case ExpireOffer(o) =>
                if o in db.offers then
                  e == InvalidOfferTransition && db.offers[o].status in {OfferStatus.Accepted, Declined}
                else e == NotFound
              case _ =>
                if op.ride in db.rides then e == InvalidTransition else e == NotFound
  {
  }

  // ---------- Offers and their events ----------

  /** The offer was announced when it was sent and when it was resolved, under the topic of its outcome. */
  ghost predicate Told(log: seq<Event>, o: Offer) {
    && Has(log, OfferEvent(OfferSent, o.ride, o.id, o.driver, Pending))
    && match o.status
       case Pending => true
       case Accepted => Has(log, OfferEvent(OfferAccepted, o.ride, o.id, o.driver, OfferStatus.Accepted))
       case Declined => Has(log, OfferEvent(OfferDeclined, o.ride, o.id, o.driver, Declined))
       case Expired => Has(log, OfferEvent(OfferExpired, o.ride, o.id, o.driver, Expired))
  }

  /** The event is about an offer that exists, and if it names an outcome that is the offer's. */
  predicate Right(offers: map<OfferID, Offer>, e: Event) {
    e.OfferEvent? ==>
      && e.offer in offers && offers[e.offer].ride == e.ride && offers[e.offer].driver == e.driver
      && match e.topic
         case OfferSent => e.outcome == Pending
         case OfferAccepted => e.outcome == OfferStatus.Accepted && offers[e.offer].status == OfferStatus.Accepted
         case OfferDeclined => e.outcome == Declined && offers[e.offer].status == Declined
         case OfferExpired => e.outcome == Expired && offers[e.offer].status == Expired
         case _ => false
  }

  ghost predicate OffersAgree(db: DB) {
    && (forall o :: o in db.offers ==> Told(db.outbox, db.offers[o]))
    && (forall i :: 0 <= i < |db.outbox| ==> Right(db.offers, db.outbox[i]))
  }

  lemma ToldGrows(log: seq<Event>, last: Event, o: Offer)
    requires Told(log, o)
    ensures Told(log + [last], o)
  {
    HasGrows(log, last, OfferEvent(OfferSent, o.ride, o.id, o.driver, Pending));
    HasGrows(log, last, OfferEvent(OfferAccepted, o.ride, o.id, o.driver, OfferStatus.Accepted));
    HasGrows(log, last, OfferEvent(OfferDeclined, o.ride, o.id, o.driver, Declined));
    HasGrows(log, last, OfferEvent(OfferExpired, o.ride, o.id, o.driver, Expired));
  }

  /** A commit that writes an offer: the row it leaves, and its event. */
  lemma CommitWritesOffer(w: World, t: TxID, o: Offer, e: Event)
    requires Consistent(w) && Enabled(w, TryCommit(t)) && !w.txs[t].phase.doomed
    requires OffersAgree(w.db)
    requires var v := Next(w, TryCommit(t));
             && v.db.offers == w.db.offers[o.id := o] && v.db.outbox == w.db.outbox + [e]
    requires o.id in w.db.offers ==>
               && w.db.offers[o.id] == o.(status := w.db.offers[o.id].status)
               && (w.db.offers[o.id].status == Pending || w.db.offers[o.id].status == o.status)
    requires Right(map[o.id := o], e) && Told(w.db.outbox + [e], o)
    ensures OffersAgree(Next(w, TryCommit(t)).db)
  {
    var v := Next(w, TryCommit(t));
    forall x | x in v.db.offers
      ensures Told(v.db.outbox, v.db.offers[x])
    {
      if x != o.id {
        ToldGrows(w.db.outbox, e, w.db.offers[x]);
      }
    }
    forall i | 0 <= i < |v.db.outbox|
      ensures Right(v.db.offers, v.db.outbox[i])
    {
      if i < |w.db.outbox| {
        assert Right(w.db.offers, w.db.outbox[i]);
      }
    }
  }

  lemma CommitKeepsOffersAgree(w: World, t: TxID)
    requires Consistent(w) && Enabled(w, TryCommit(t)) && !w.txs[t].phase.doomed && OffersAgree(w.db)
    ensures OffersAgree(Next(w, TryCommit(t)).db)
  {
    var v, op := Next(w, TryCommit(t)), w.txs[t].op;
    CommitsLeaveWhatTheySay(w, t);
    var e := v.db.outbox[|w.db.outbox|];
    HasGrows(w.db.outbox, e, e);
    if op.CreateOffer? || UpdatesOffer(op) {
      var o := v.db.offers[op.offer];
      if op.offer in w.db.offers {
        HasGrows(w.db.outbox, e, OfferEvent(OfferSent, o.ride, o.id, o.driver, Pending));
      }
      CommitWritesOffer(w, t, o, e);
    } else {
      RideCommitKeepsOffersAgree(w.db, v.db, e);
    }
  }

  lemma RideCommitKeepsOffersAgree(before: DB, after: DB, e: Event)
    requires OffersAgree(before) && after.offers == before.offers && after.outbox == before.outbox + [e] && e.RideEvent?
    ensures OffersAgree(after)
  {
    forall o | o in after.offers
      ensures Told(after.outbox, after.offers[o])
    {
      ToldGrows(before.outbox, e, before.offers[o]);
    }
    forall i | 0 <= i < |after.outbox|
      ensures Right(after.offers, after.outbox[i])
    {
      if i < |before.outbox| {
        assert Right(before.offers, before.outbox[i]);
      }
    }
  }

  lemma StepKeepsOffersAgree(w: World, step: Step)
    requires Consistent(w) && OffersAgree(w.db) && Enabled(w, step)
    ensures OffersAgree(Next(w, step).db)
  {
    if step.TryCommit? && !w.txs[step.tx].phase.doomed {
      CommitKeepsOffersAgree(w, step.tx);
    } else {
      assert Next(w, step).db.offers == w.db.offers && Next(w, step).db.outbox == w.db.outbox;
    }
  }

  lemma {:induction false} RunKeepsOffersAgree(w: World, steps: seq<Step>)
    requires Consistent(w) && OffersAgree(w.db) && IsRun(w, steps)
    ensures OffersAgree(Final(w, steps).db) && WellKeyed(Final(w, steps).db)
    decreases |steps|
  {
    if steps == [] {
    } else {
      StepKeepsConsistent(w, steps[0]);
      StepKeepsOffersAgree(w, steps[0]);
      RunKeepsOffersAgree(Next(w, steps[0]), steps[1..]);
    }
  }

  /** In every run each offer has been announced as sent, and once resolved under the topic of its outcome, with its own
      ride, identifier and driver. */
  lemma EveryOfferIsAnnounced(steps: seq<Step>, o: OfferID)
    requires IsRun(EMPTY, steps) && o in Final(EMPTY, steps).db.offers
    ensures var db := Final(EMPTY, steps).db;
            var offer := db.offers[o];
            && Has(db.outbox, OfferEvent(OfferSent, offer.ride, o, offer.driver, Pending))
            && (offer.status == OfferStatus.Accepted ==>
                  Has(db.outbox, OfferEvent(OfferAccepted, offer.ride, o, offer.driver, OfferStatus.Accepted)))
            && (offer.status == Declined ==>
                  Has(db.outbox, OfferEvent(OfferDeclined, offer.ride, o, offer.driver, Declined)))
            && (offer.status == Expired ==>
                  Has(db.outbox, OfferEvent(OfferExpired, offer.ride, o, offer.driver, Expired)))
  {
    RunKeepsOffersAgree(EMPTY, steps);
  }

  /** And every event about an offer is right: the offer exists with that ride and driver, and an outcome is its
      outcome. */
  lemma EveryAnnouncementIsRight(steps: seq<Step>, i: nat)
    requires IsRun(EMPTY, steps) && i < |Final(EMPTY, steps).db.outbox|
    ensures Right(Final(EMPTY, steps).db.offers, Final(EMPTY, steps).db.outbox[i])
  {
    RunKeepsOffersAgree(EMPTY, steps);
  }
}
