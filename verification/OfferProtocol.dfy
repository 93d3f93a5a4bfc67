/** The ride service and the matching service together: offers and their events on one side, the keys of a ride on the
    other, and events delivered at least once, in any order, never before they are committed. */
module OfferProtocol {
  import opened Options
  import opened RideDomain
  import opened RideService
  import opened MatchingService
  import opened MatchingRuns
  import opened Redelivery
  import MatchingSends

  datatype System = System(db: DB, redis: Redis)

  /** A request to the ride service, or a step of the matching service. A matching step that creates an offer does so
      under a fresh identifier, and `cancels` says whether its cancellation, if it makes one, reaches the ride service.
      */
  datatype Move =
    | Serve(op: Op, key: Key, lookupFails: bool)
    | Match(step: Step, id: OfferID, key: Key, lookupFails: bool, now: int, cancels: bool)

  // ---------- Delivery ----------

  predicate Tells(e: Event, topic: Topic, r: RideID) {
    e.topic == topic && e.ride == r
  }

  predicate TellsOffer(e: Event, topic: Topic, r: RideID, o: OfferID) {
    e.OfferEvent? && e.topic == topic && e.ride == r && e.offer == o
  }

  predicate Announced(log: seq<Event>, topic: Topic, r: RideID) {
    exists i :: 0 <= i < |log| && Tells(log[i], topic, r)
  }

  predicate AnnouncedOffer(log: seq<Event>, topic: Topic, r: RideID, o: OfferID) {
    exists i :: 0 <= i < |log| && TellsOffer(log[i], topic, r, o)
  }

  /** An event can be handled once it is in the outbox, and from then on any number of times. */
  predicate Deliverable(log: seq<Event>, step: Step) {
    match step
    case Requested(q, _) => Announced(log, RideRequested, q.ride)
    case Completed(r, o, _, _, _, _) =>
      AnnouncedOffer(log, OfferDeclined, r, o) || AnnouncedOffer(log, OfferExpired, r, o)
    case Accepted(r) => Announced(log, OfferAccepted, r)
    case _ => true
  }

  function RideOf(step: Step): RideID {
    match step
    case Requested(q, _) => q.ride
    case Completed(r, _, _, _, _, _) => r
    case _ => 0
  }

  // ---------- Moves ----------

  /** The offer that a matching step asks the ride service to create, and the answer. */
  function Creation(c: Config, w: System, m: Move, d: DriverID): (DB, Result<Response>)
    requires m.Match?
  {
    Apply(w.db, CreateOffer(m.id, RideOf(m.step), d, c.OfferSeconds(), m.now), m.key, m.lookupFails)
  }

  /** Offers are created only by the matching service, and a CreateOffer that is answered with an offer is answered by
      the ride service. */
  predicate Enabled(c: Config, w: System, m: Move)
    requires Terminating(c)
  {
    match m
    case Serve(op, _, _) => !op.CreateOffer?
    case Match(step, _, _, _, _, _) =>
      && Possible(c, step) && Deliverable(w.db.outbox, step)
      && match Do(c, w.redis, step).outcome
         case Sent(o, d) =>
           var reply := Creation(c, w, m, d).1;
           reply.Ok? && reply.value.OfferReply? && reply.value.offer.id == o
         case _ => true
  }

  function Next(c: Config, w: System, m: Move): System
    requires Terminating(c)
  {
    match m
    case Serve(op, key, fails) => w.(db := Apply(w.db, op, key, fails).0)
    case Match(step, _, key, fails, _, cancels) =>
      var result := Do(c, w.redis, step);
      match result.outcome
      case Sent(_, d) => System(Creation(c, w, m, d).0, result.redis)
      case GaveUp =>
        System(if cancels then Apply(w.db, CancelRide(RideOf(step)), key, fails).0 else w.db, result.redis)
      case _ => w.(redis := result.redis)
  }

  /** Empty tables and keys, and any drivers. */
  predicate IsStart(w: System) {
    w.db == DB(map[], map[], map[], []) && w.redis.rides == map[] && w.redis.offered == map[]
  }

  function Run(c: Config, start: System, moves: seq<Move>): System
    requires Terminating(c)
  {
    if moves == [] then start else Next(c, Run(c, start, moves[..|moves| - 1]), moves[|moves| - 1])
  }

  predicate IsRun(c: Config, start: System, moves: seq<Move>)
    requires Terminating(c)
  {
    if moves == [] then IsStart(start)
    else
      var before := moves[..|moves| - 1];
      IsRun(c, start, before) && Enabled(c, Run(c, start, before), moves[|moves| - 1])
  }

  // ---------- What is to be shown ----------

  predicate HasLive(db: DB, r: RideID) {
    exists o :: o in db.offers && db.offers[o].ride == r && IsLive(db.offers[o])
  }

  predicate AreRivals(a: Offer, b: Offer) {
    a.ride == b.ride && IsLive(a) && IsLive(b)
  }

  /** All of a ride's offers except at most one are declined or expired. */
  predicate AtMostOneLive(db: DB) {
    forall a, b ::
      a in db.offers && b in db.offers && AreRivals(db.offers[a], db.offers[b]) ==> a == b
  }

  /** A ride.requested event makes the matching service send an offer while one of the ride is live. */
  predicate Late(c: Config, w: System, m: Move)
    requires Terminating(c)
  {
    m.Match? && m.step.Requested? && Do(c, w.redis, m.step).outcome.Sent? && HasLive(w.db, m.step.q.ride)
  }

  // ---------- The invariant ----------

  /** If an offer is active, every other offer of the ride is dead. */
  predicate OthersAreDead(w: System) {
    forall o :: o in w.db.offers && IsLive(w.db.offers[o]) ==>
      var active := KeysOf(w.redis, w.db.offers[o].ride).active; active.Some? ==> active.value.offer == o
  }

  predicate Outcome(topic: Topic) {
    topic == OfferAccepted || topic == OfferDeclined || topic == OfferExpired
  }

  function StatusTold(topic: Topic): OfferStatus
    requires Outcome(topic)
  {
    if topic == OfferAccepted then OfferStatus.Accepted else if topic == OfferDeclined then Declined else Expired
  }

  predicate IsTrue(offers: map<OfferID, Offer>, e: Event) {
    Outcome(e.topic) ==>
      && e.OfferEvent? && e.offer in offers && offers[e.offer].ride == e.ride
      && offers[e.offer].status == StatusTold(e.topic)
  }

  /** An outcome in the outbox is the offer's outcome. */
  predicate EventsAreTrue(db: DB) {
    forall i :: 0 <= i < |db.outbox| ==> IsTrue(db.offers, db.outbox[i])
  }

  ghost predicate Sound(db: DB) {
    WellKeyed(db) && EventsAreTrue(db)
  }

  /** Offers stay, keep their ride, and once dead or accepted keep their status; no offer becomes live. */
  predicate OffersSettle(before: map<OfferID, Offer>, after: map<OfferID, Offer>) {
    && before.Keys <= after.Keys
    && forall o :: o in before ==>
         && after[o].ride == before[o].ride
         && (before[o].status != Pending ==> after[o] == before[o])
  }

  lemma EventsStayTrue(before: DB, after: DB, e: Event)
    requires EventsAreTrue(before) && OffersSettle(before.offers, after.offers)
    requires after.outbox == before.outbox + [e] && IsTrue(after.offers, e)
    ensures EventsAreTrue(after)
  {
    forall i | 0 <= i < |after.outbox|
      ensures IsTrue(after.offers, after.outbox[i])
    {
      if i < |before.outbox| {
        assert IsTrue(before.offers, before.outbox[i]);
      }
    }
  }

  lemma OfferUpdateSettles(db: DB, op: Op)
    requires WellKeyed(db) && UpdatesOffer(op) && Answer(db, op).Ok?
    ensures var reply := Answer(db, op).value;
            && reply.OfferReply? && reply.offer == db.offers[op.offer].(status := NextOfferStatus(op))
            && OffersSettle(db.offers, db.offers[reply.offer.id := reply.offer])
            && db.offers[reply.offer.id := reply.offer].Keys == db.offers.Keys
            && IsTrue(db.offers[reply.offer.id := reply.offer], EventOf(op, reply))
  {
  }

  lemma RideUpdateIsSilent(db: DB, op: Op)
    requires !op.CreateOffer? && !UpdatesOffer(op) && Answer(db, op).Ok?
    ensures Answer(db, op).value.RideReply? && !Outcome(EventOf(op, Answer(db, op).value).topic)
  {
  }

  /** No request other than CreateOffer makes an offer or revives one. */
  lemma RequestSettles(db: DB, op: Op, key: Key, fails: bool)
    requires Sound(db) && !op.CreateOffer?
    ensures var after := Apply(db, op, key, fails).0;
            Sound(after) && OffersSettle(db.offers, after.offers) && after.offers.Keys == db.offers.Keys
  {
    var after := Apply(db, op, key, fails).0;
    WellKeyedIsKept(db, op, key, fails);
    if after != db {
      var reply := Answer(db, op).value;
      if UpdatesOffer(op) {
        OfferUpdateSettles(db, op);
      } else {
        RideUpdateIsSilent(db, op);
      }
      EventsStayTrue(db, after, EventOf(op, reply));
    }
  }

  /** CreateOffer makes the one offer it was asked for, or, under a used key, none. */
  lemma CreationSettles(db: DB, o: OfferID, r: RideID, d: DriverID, ttl: int, now: int, key: Key, fails: bool)
    requires Sound(db)
    ensures var (after, reply) := Apply(db, CreateOffer(o, r, d, ttl, now), key, fails);
            && Sound(after)
            && if after.offers == db.offers then after == db
               else && o !in db.offers && after.offers == db.offers[o := NewOffer(r, d, ttl, now, o)]
                    && reply == Ok(OfferReply(after.offers[o]))
  {
    var op := CreateOffer(o, r, d, ttl, now);
    var after := Apply(db, op, key, fails).0;
    WellKeyedIsKept(db, op, key, fails);
    if after != db {
      EventsStayTrue(db, after, EventOf(op, Answer(db, op).value));
    }
  }

  ghost predicate Inv(w: System) {
    Sound(w.db) && AtMostOneLive(w.db) && OthersAreDead(w)
  }

  lemma ServeMoveKeepsInv(c: Config, w: System, m: Move)
    requires Terminating(c) && Inv(w) && Enabled(c, w, m) && m.Serve?
    ensures Inv(Next(c, w, m)) && OffersSettle(w.db.offers, Next(c, w, m).db.offers)
  {
    RequestSettles(w.db, m.op, m.key, m.lookupFails);
  }

  /** A step can only take the active offer away, unless it sends one: a request when none is active, a completion
      when its own offer is. */
  lemma ActiveAfter(c: Config, s: Redis, step: Step, r: RideID)
    requires Terminating(c) && Possible(c, step)
    ensures var result := Do(c, s, step);
            var before, after := KeysOf(s, r).active, KeysOf(result.redis, r).active;
            if result.outcome.Sent? && RideOf(step) == r then
              && after == Some(Active(result.outcome.offer, result.outcome.driver))
              && (step.Requested? || (step.Completed? && before.Some? && before.value.offer == step.offer))
            else after == None || after == before
    ensures Do(c, s, step).outcome.Sent? ==> step.Requested? || step.Completed?
  {
    if !Concerns(step, r) {
      OtherRidesAreUntouched(c, s, step, r);
    } else if step.Requested? {
      if Seeds(c, s, step.q) {
        MatchingSends.TryEnds(c, Seeded(c, s, step.q), r, step.env.attempts);
        RequestSends(c, s, step.q, step.env);
      } else {
        RequestIsIgnored(c, s, step.q, step.env);
      }
    } else if step.Completed? {
      MatchingSends.TryEnds(c, Reopened(c, s, r, step.driver, step.at), r, step.env.attempts);
    }
  }

  /** The matching service asks another driver only when all earlier offers of the ride are dead. */
  lemma SendsOnlyWithoutLiveOffer(c: Config, w: System, m: Move)
    requires Terminating(c) && Inv(w) && Enabled(c, w, m) && !Late(c, w, m)
    requires m.Match? && Do(c, w.redis, m.step).outcome.Sent?
    ensures !HasLive(w.db, RideOf(m.step))
  {
    var r := RideOf(m.step);
    ActiveAfter(c, w.redis, m.step, r);
    if m.step.Completed? {
      var o := m.step.offer;
      assert KeysOf(w.redis, r).active.value.offer == o;
      assert forall i :: 0 <= i < |w.db.outbox| ==> IsTrue(w.db.offers, w.db.outbox[i]);
      assert o in w.db.offers && !IsLive(w.db.offers[o]);
    }
  }

  lemma MatchMoveSettles(c: Config, w: System, m: Move)
    requires Terminating(c) && Sound(w.db) && m.Match?
    ensures var after := Next(c, w, m).db;
            && Sound(after) && OffersSettle(w.db.offers, after.offers)
            && (after.offers.Keys == w.db.offers.Keys ==> after.offers == w.db.offers)
    ensures var outcome, after := Do(c, w.redis, m.step).outcome, Next(c, w, m).db;
            after.offers != w.db.offers ==>
              && outcome.Sent? && m.id !in w.db.offers
              && after.offers
                 == w.db.offers[m.id := NewOffer(RideOf(m.step), outcome.driver, c.OfferSeconds(), m.now, m.id)]
              && Creation(c, w, m, outcome.driver).1 == Ok(OfferReply(after.offers[m.id]))
  {
    var result := Do(c, w.redis, m.step);
    match result.outcome
    case Sent(o, d) =>
      CreationSettles(w.db, m.id, RideOf(m.step), d, c.OfferSeconds(), m.now, m.key, m.lookupFails);
    case GaveUp =>
      RequestSettles(w.db, CancelRide(RideOf(m.step)), m.key, m.lookupFails);
    case _ =>
  }

  /** An offer that matching creates names the ride and the driver it was sent for, is open, and expires after the
      configured time, or ten seconds. */
  lemma CreatedOfferIsOpen(c: Config, w: System, m: Move)
    requires Terminating(c) && Sound(w.db) && m.Match? && m.id !in w.db.offers && m.id in Next(c, w, m).db.offers
    ensures Do(c, w.redis, m.step).outcome.Sent?
    ensures var d, life := Do(c, w.redis, m.step).outcome.driver, if c.offerTTL <= 0 then 10 else c.offerTTL;
            Next(c, w, m).db.offers[m.id] == Offer(m.id, RideOf(m.step), d, Pending, m.now + life, m.now)
  {
    MatchMoveSettles(c, w, m);
  }

  lemma MatchMoveKeepsInv(c: Config, w: System, m: Move)
    requires Terminating(c) && Inv(w) && Enabled(c, w, m) && m.Match? && !Late(c, w, m)
    ensures Inv(Next(c, w, m))
  {
    var after := Next(c, w, m);
    MatchMoveSettles(c, w, m);
    if Do(c, w.redis, m.step).outcome.Sent? {
      SendsOnlyWithoutLiveOffer(c, w, m);
    }
    forall o | o in after.db.offers && IsLive(after.db.offers[o])
      ensures var active := KeysOf(after.redis, after.db.offers[o].ride).active;
              active.Some? ==> active.value.offer == o
    {
      ActiveAfter(c, w.redis, m.step, after.db.offers[o].ride);
    }
  }

  lemma MoveKeepsInv(c: Config, w: System, m: Move)
    requires Terminating(c) && Inv(w) && Enabled(c, w, m) && !Late(c, w, m)
    ensures Inv(Next(c, w, m))
  {
    if m.Match? {
      MatchMoveKeepsInv(c, w, m);
    } else {
      ServeMoveKeepsInv(c, w, m);
    }
  }

  // ---------- Whole runs ----------

  /** No ride.requested event sends while an offer of the ride is live. */
  predicate Timely(c: Config, start: System, moves: seq<Move>)
    requires Terminating(c)
  {
    moves == []
    || (Timely(c, start, moves[..|moves| - 1])
        && !Late(c, Run(c, start, moves[..|moves| - 1]), moves[|moves| - 1]))
  }

  /** No ride.requested event is handled once its ride has an offer. */
  predicate RequestsComeFirst(c: Config, start: System, moves: seq<Move>)
    requires Terminating(c)
  {
    moves == []
    || (var last := moves[|moves| - 1];
        && RequestsComeFirst(c, start, moves[..|moves| - 1])
        && (last.Match? && last.step.Requested? ==>
              var offers := Run(c, start, moves[..|moves| - 1]).db.offers;
              forall o :: o in offers ==> offers[o].ride != last.step.q.ride))
  }

  predicate AlwaysSafe(c: Config, start: System, moves: seq<Move>)
    requires Terminating(c)
  {
    AtMostOneLive(Run(c, start, moves).db) && (moves != [] ==> AlwaysSafe(c, start, moves[..|moves| - 1]))
  }

  lemma {:induction false} RunKeepsInv(c: Config, start: System, moves: seq<Move>)
    requires Terminating(c) && IsRun(c, start, moves) && Timely(c, start, moves)
    ensures Inv(Run(c, start, moves))
  {
    if moves == [] {
    } else {
      var before := moves[..|moves| - 1];
      RunKeepsInv(c, start, before);
      MoveKeepsInv(c, Run(c, start, before), moves[|moves| - 1]);
    }
  }

  lemma {:induction false} RunIsSound(c: Config, start: System, moves: seq<Move>)
    requires Terminating(c) && IsRun(c, start, moves)
    ensures Sound(Run(c, start, moves).db)
  {
    if moves == [] {
    } else {
      var before := moves[..|moves| - 1];
      RunIsSound(c, start, before);
      MoveSettles(c, Run(c, start, before), moves[|moves| - 1]);
    }
  }

  lemma MoveSettles(c: Config, w: System, m: Move)
    requires Terminating(c) && Sound(w.db) && Enabled(c, w, m)
    ensures Sound(Next(c, w, m).db) && OffersSettle(w.db.offers, Next(c, w, m).db.offers)
  {
    if m.Match? {
      MatchMoveSettles(c, w, m);
    } else {
      RequestSettles(w.db, m.op, m.key, m.lookupFails);
    }
  }

  lemma {:induction false} RunSettles(c: Config, start: System, moves: seq<Move>, n: nat)
    requires Terminating(c) && IsRun(c, start, moves) && n <= |moves|
    ensures OffersSettle(Run(c, start, moves[..n]).db.offers, Run(c, start, moves).db.offers)
  {
    if n == |moves| {
      assert moves[..n] == moves;
    } else {
      var before := moves[..|moves| - 1];
      RunSettles(c, start, before, n);
      assert before[..n] == moves[..n];
      RunIsSound(c, start, before);
      MoveSettles(c, Run(c, start, before), moves[|moves| - 1]);
    }
  }

  lemma {:induction false} FirstRequestsAreTimely(c: Config, start: System, moves: seq<Move>)
    requires Terminating(c) && RequestsComeFirst(c, start, moves)
    ensures Timely(c, start, moves)
  {
    if moves == [] {
    } else {
      FirstRequestsAreTimely(c, start, moves[..|moves| - 1]);
    }
  }

  /** In every run in which no ride.requested event is handled once its ride has an offer, all offers of a ride except
      at most one are declined or expired. */
  lemma AtMostOneOfferSurvives(c: Config, start: System, moves: seq<Move>, a: OfferID, b: OfferID)
    requires Terminating(c) && IsRun(c, start, moves) && RequestsComeFirst(c, start, moves)
    requires var offers := Run(c, start, moves).db.offers;
             a in offers && b in offers && a != b && offers[a].ride == offers[b].ride
    ensures var offers := Run(c, start, moves).db.offers;
            offers[a].status == Declined || offers[a].status == Expired
            || offers[b].status == Declined || offers[b].status == Expired
  {
    FirstRequestsAreTimely(c, start, moves);
    RunKeepsInv(c, start, moves);
    var offers := Run(c, start, moves).db.offers;
    assert AreRivals(offers[a], offers[b]) ==> a == b;
  }

  predicate IsAccepted(db: DB, o: OfferID, r: RideID) {
    o in db.offers && db.offers[o].ride == r && db.offers[o].status == OfferStatus.Accepted
  }

  /** Hence at most one offer of a ride is ever accepted, at whatever times the two are looked at. */
  lemma AtMostOneOfferIsEverAccepted(
      c: Config, start: System, moves: seq<Move>, m: nat, n: nat, r: RideID, a: OfferID, b: OfferID)
    requires Terminating(c) && IsRun(c, start, moves) && RequestsComeFirst(c, start, moves)
    requires m <= |moves| && IsAccepted(Run(c, start, moves[..m]).db, a, r)
    requires n <= |moves| && IsAccepted(Run(c, start, moves[..n]).db, b, r)
    ensures a == b
  {
    RunSettles(c, start, moves, m);
    RunSettles(c, start, moves, n);
    if a != b {
      AtMostOneOfferSurvives(c, start, moves, a, b);
    }
  }

  // ---------- Exactly when it fails ----------

  /** The requests that start the offering carry no idempotency key. */
  predicate Unkeyed(moves: seq<Move>) {
    forall i :: 0 <= i < |moves| && moves[i].Match? && moves[i].step.Requested? ==> moves[i].key == None
  }

  /** A late request makes a second live offer at once. */
  lemma LateMoveDoubles(c: Config, w: System, m: Move)
    requires Terminating(c) && Sound(w.db) && Enabled(c, w, m) && Late(c, w, m) && m.key == None
    ensures !AtMostOneLive(Next(c, w, m).db)
  {
    var r, offers := m.step.q.ride, Next(c, w, m).db.offers;
    MatchMoveSettles(c, w, m);
    var live :| live in w.db.offers && w.db.offers[live].ride == r && IsLive(w.db.offers[live]);
    var d := Do(c, w.redis, m.step).outcome.driver;
    assert Answer(w.db, CreateOffer(m.id, r, d, c.OfferSeconds(), m.now)).Ok?;
    assert m.id !in w.db.offers && offers[live] == w.db.offers[live];
    assert offers[m.id] == NewOffer(r, d, c.OfferSeconds(), m.now, m.id);
    assert AreRivals(offers[live], offers[m.id]);
  }

  /** A run is safe throughout if and only if no ride.requested event sends while an offer of its ride is live. */
  lemma {:induction false} SafeIffTimely(c: Config, start: System, moves: seq<Move>)
    requires Terminating(c) && IsRun(c, start, moves) && Unkeyed(moves)
    ensures AlwaysSafe(c, start, moves) <==> Timely(c, start, moves)
  {
    if moves == [] {
    } else {
      var before, last := moves[..|moves| - 1], moves[|moves| - 1];
      assert Unkeyed(before);
      SafeIffTimely(c, start, before);
      if Timely(c, start, before) {
        if Late(c, Run(c, start, before), last) {
          RunIsSound(c, start, before);
          LateMoveDoubles(c, Run(c, start, before), last);
        } else {
          RunKeepsInv(c, start, moves);
        }
      }
    }
  }
}
