/** A ride.requested event that comes after its ride's first offer: exactly when the protocol can then be broken, and a
    run in which it is. */
module LateRequests {
  import opened Options
  import opened RideDomain
  import opened RideService
  import opened Candidates
  import opened MatchingService
  import opened MatchingRuns
  import opened Redelivery
  import opened OfferProtocol

  // ---------- The condition ----------

  /** Some driver who is available and not marked as asked for ever. */
  predicate SomeoneCanBeAsked(s: Redis) {
    exists d :: d in s.drivers.available && (d in s.offered ==> s.offered[d].Some?)
  }

  /** A delivery of ride.requested for the ride could send now or later: an offer of the ride is live, the event exists,
      the guards of its handler let it pass, a search can run, the offer limit is not used up, and there is somebody to
      ask. */
  predicate Exposed(c: Config, w: System, r: RideID)
    requires Terminating(c)
  {
    && HasLive(w.db, r) && r in w.db.rides && Announced(w.db.outbox, RideRequested, r)
    && RideIsFree(c, KeysOf(w.redis, r)) && !NeverSearches(c) && SomeoneCanBeAsked(w.redis)
  }

  /** A ride.requested event for the ride, handled without an idempotency key. */
  predicate Asks(m: Move, r: RideID) {
    m.Match? && m.step.Requested? && m.step.q.ride == r && m.key == None
  }

  // ---------- What a request that sends needs ----------

  lemma DriversInMembers(cs: seq<Candidate>, d: DriverID)
    requires d in DriversIn(cs)
    ensures exists x :: x in cs && x.driver == d
  {
    DriversInAt(cs);
    var i: nat :| i < |cs| && DriversIn(cs)[i] == d;
    assert cs[i] in cs;
  }

  lemma {:induction false} SearchFindsAvailable(
      c: Search, d: Drivers, geo: seq<Candidate>, radius: real, limit: int, now: int, k: nat)
    requires 0.0 < StepOf(c, radius) && DistinctDrivers(geo)
    ensures forall x :: x in SearchFrom(c, d, geo, radius, limit, now, k) ==> x.driver in d.available
    decreases Probes(c, radius) - k
  {
    ProbeMembers(c, d, geo, radius, limit, now, k);
    if Probes(c, radius) <= k {
    } else {
      SearchFindsAvailable(c, d, geo, radius, limit, now, k + 1);
    }
  }

  /** Only available drivers are found. */
  lemma FoundAreAvailable(c: Config, s: Redis, q: Request, d: DriverID)
    requires Terminating(c) && DistinctDrivers(q.geo) && d in Found(c, s, q)
    ensures !NeverSearches(c) && d in s.drivers.available
  {
    var search := c.search;
    var found := SearchFrom(search, s.drivers, q.geo, search.matchRadius, search.matchLimit, q.at, 0);
    var order := Order(search, s.drivers, found, q.pick);
    DriversInMembers(order, d);
    var x :| x in order && x.driver == d;
    SearchFindsDistinctDrivers(search, s.drivers, q.geo, search.matchRadius, search.matchLimit, q.at, 0);
    RankedIsSorted(s.drivers, found);
    assert x in multiset(order) && x in multiset(found);
    SearchFindsAvailable(search, s.drivers, q.geo, search.matchRadius, search.matchLimit, q.at, 0);
  }

  /** The driver who gets the offer is on the list, and not marked as asked for ever. */
  lemma {:induction false} TrySendsTo(c: Config, s: Redis, r: RideID, attempts: seq<Attempt>)
    requires Try(c, s, r, attempts).outcome.Sent?
    ensures var d := Try(c, s, r, attempts).outcome.driver;
            d in KeysOf(s, r).candidates && (d in s.offered ==> s.offered[d].Some?)
    decreases |attempts|
  {
    var once := Turn(c, s, r, attempts[0]);
    if once.outcome == OutOfRetries {
      assert once.redis.offered == s.offered;
      assert KeysOf(once.redis, r).candidates == KeysOf(s, r).candidates[1..];
      TrySendsTo(c, once.redis, r, attempts[1..]);
    } else {
      assert KeysOf(s, r).candidates[0] == once.outcome.driver;
    }
  }

  lemma SendingRequestNeeds(c: Config, s: Redis, q: Request, env: Env)
    requires Terminating(c) && DistinctDrivers(q.geo)
    requires HandleRequested(c, s, q, env).outcome.Sent?
    ensures RideIsFree(c, KeysOf(s, q.ride)) && !NeverSearches(c) && SomeoneCanBeAsked(s)
  {
    var t := Seeded(c, s, q);
    RequestSends(c, s, q, env);
    TrySendsTo(c, t, q.ride, env.attempts);
    TryStaysWithinLimit(c, t, q.ride, env.attempts);
    FoundAreAvailable(c, s, q, SendNext(c, t, q.ride, env).outcome.driver);
  }

  lemma LateNeedsExposure(c: Config, w: System, m: Move, r: RideID)
    requires Terminating(c) && Asks(m, r) && Enabled(c, w, m) && Late(c, w, m)
    ensures Exposed(c, w, r)
  {
    SendingRequestNeeds(c, w.redis, m.step.q, m.step.env);
    assert Creation(c, w, m, Do(c, w.redis, m.step).outcome.driver).1.Ok?;
  }

  // ---------- A request that sends ----------

  lemma FreshID(used: set<OfferID>) returns (o: OfferID)
    ensures o !in used
  {
    o := 0;
    var rest := used;
    while rest != {}
      invariant rest <= used && forall x :: x in used && x !in rest ==> x < o
      decreases rest
    {
      var x :| x in rest;
      o, rest := if x < o then o else x + 1, rest - {x};
    }
  }

  /** A time at which the driver neither cools down nor has an offer. */
  function FreeFrom(s: Redis, d: DriverID): int {
    var cooled := if d in s.drivers.cooldown then s.drivers.cooldown[d] else 0;
    var answered := if d in s.offered && s.offered[d].Some? then s.offered[d].value else 0;
    if cooled < answered then answered else cooled
  }

  function AskLate(c: Config, r: RideID, d: DriverID, o: OfferID, at: int): Move {
    Match(Step.Requested(RequestNear(c, r, d, at), Willing(c, o, at)), o, None, false, at, false)
  }

  lemma ExposureAllowsLate(c: Config, w: System, r: RideID) returns (m: Move)
    requires Terminating(c) && Exposed(c, w, r)
    ensures Asks(m, r) && Enabled(c, w, m) && Late(c, w, m)
  {
    var d :| d in w.redis.drivers.available && (d in w.redis.offered ==> w.redis.offered[d].Some?);
    var o := FreshID(w.db.offers.Keys);
    var at := FreeFrom(w.redis, d);
    m := AskLate(c, r, d, o, at);
    RequestOffers(c, w.redis, r, d, o, at);
  }

  // ---------- Exactly when a request can break the protocol ----------

  /** In any state, a delivery of ride.requested for the ride can be late, that is, send while an offer of the ride is
      live, if and only if the ride is exposed. */
  lemma LateIffExposed(c: Config, w: System, r: RideID)
    requires Terminating(c)
    ensures (exists m :: Asks(m, r) && Enabled(c, w, m) && Late(c, w, m)) <==> Exposed(c, w, r)
  {
    if Exposed(c, w, r) {
      var m := ExposureAllowsLate(c, w, r);
    }
    forall m | Asks(m, r) && Enabled(c, w, m) && Late(c, w, m)
      ensures Exposed(c, w, r)
    {
      LateNeedsExposure(c, w, m, r);
    }
  }

  /** After any safe run, one more ride.requested for the ride can make a second live offer if and only if the ride is
      exposed. */
  lemma RequestBreaksSafetyIffExposed(c: Config, start: System, moves: seq<Move>, w: System, r: RideID)
    requires Terminating(c) && OfferProtocol.IsRun(c, start, moves) && Timely(c, start, moves)
    requires w == Run(c, start, moves)
    ensures (exists m :: Asks(m, r) && Enabled(c, w, m) && !AtMostOneLive(Next(c, w, m).db)) <==> Exposed(c, w, r)
  {
    RunKeepsInv(c, start, moves);
    if Exposed(c, w, r) {
      var m := ExposureAllowsLate(c, w, r);
      LateMoveDoubles(c, w, m);
    }
    forall m | Asks(m, r) && Enabled(c, w, m) && !AtMostOneLive(Next(c, w, m).db)
      ensures Exposed(c, w, r)
    {
      if Late(c, w, m) {
        LateNeedsExposure(c, w, m, r);
      } else {
        MoveKeepsInv(c, w, m);
      }
    }
  }

  /** No ride.requested event is handled while its ride is exposed. */
  predicate Guarded(c: Config, start: System, moves: seq<Move>)
    requires Terminating(c)
  {
    moves == []
    || (var last := moves[|moves| - 1];
        && Guarded(c, start, moves[..|moves| - 1])
        && (last.Match? && last.step.Requested? ==> !Exposed(c, Run(c, start, moves[..|moves| - 1]), last.step.q.ride)))
  }

  /** A run in which exposed rides get no ride.requested event is safe throughout. */
  lemma {:induction false} GuardedRunsAreSafe(c: Config, start: System, moves: seq<Move>)
    requires Terminating(c) && OfferProtocol.IsRun(c, start, moves) && Unkeyed(moves) && Guarded(c, start, moves)
    ensures Timely(c, start, moves) && AlwaysSafe(c, start, moves)
  {
    if moves == [] {
    } else {
      var before, last := moves[..|moves| - 1], moves[|moves| - 1];
      assert Unkeyed(before);
      GuardedRunsAreSafe(c, start, before);
      if last.Match? && last.step.Requested? && Late(c, Run(c, start, before), last) {
        LateNeedsExposure(c, Run(c, start, before), last, last.step.q.ride);
      }
    }
    SafeIffTimely(c, start, moves);
  }

  // ---------- A run that fails ----------

  const FIRST: OfferID := 10
  const SECOND: OfferID := 11
  const OTHER_DRIVER: DriverID := 8

  function TwoDrivers(): System {
    System(DB(map[], map[], map[], []), Redis(map[], map[], Drivers({DRIVER, OTHER_DRIVER}, map[], map[])))
  }

  function Handle(step: Step, o: OfferID): Move {
    Match(step, o, None, false, 0, false)
  }

  function Ask(c: Config, d: DriverID, o: OfferID): Move {
    Handle(Step.Requested(RequestNear(c, RIDE, d, 0), Willing(c, o, 0)), o)
  }

  /** The ride is offered, the offer accepted, and its acceptance told to the matching service, which clears the ride's
      keys, the lock among them. */
  function OfferedAndAccepted(c: Config, d: DriverID, o: OfferID): seq<Move> {
    [Ask(c, d, o), Serve(AcceptOffer(o), None, false), Handle(Step.Accepted(RIDE), 0)]
  }

  const CREATE := Serve(CreateRide(RIDE, 0, 0), None, false)

  /** After all that, ride.requested is delivered again. */
  function Redelivered(c: Config): seq<Move> {
    [CREATE] + OfferedAndAccepted(c, DRIVER, FIRST) + OfferedAndAccepted(c, OTHER_DRIVER, SECOND)
  }

  ghost predicate Reaches(c: Config, moves: seq<Move>, w: System)
    requires Terminating(c)
  {
    OfferProtocol.IsRun(c, TwoDrivers(), moves) && Unkeyed(moves) && Run(c, TwoDrivers(), moves) == w
  }

  lemma ReachesNext(c: Config, moves: seq<Move>, w: System, m: Move)
    requires Terminating(c) && Reaches(c, moves, w) && Enabled(c, w, m)
    requires m.Match? ==> m.key == None
    ensures Reaches(c, moves + [m], Next(c, w, m))
  {
    assert (moves + [m])[..|moves + [m]| - 1] == moves;
  }

  /** The ride can be offered to a driver who was not asked yet. */
  ghost predicate CanAsk(w: System, offers: map<OfferID, Offer>, available: set<DriverID>, asked: set<DriverID>) {
    && RIDE in w.db.rides && w.db.offers == offers && Announced(w.db.outbox, RideRequested, RIDE)
    && w.redis.drivers.available == available && w.redis.drivers.cooldown == map[] && w.redis.offered.Keys == asked
  }

  lemma AnnouncedGrows(log: seq<Event>, more: seq<Event>, topic: Topic, r: RideID)
    requires Announced(log, topic, r) && log <= more
    ensures Announced(more, topic, r)
  {
    var i :| 0 <= i < |log| && Tells(log[i], topic, r);
    assert more[i] == log[i];
  }

  lemma AskOffers(
      c: Config, w: System, offers: map<OfferID, Offer>, available: set<DriverID>, asked: set<DriverID>,
      d: DriverID, o: OfferID)
    requires Terminating(c) && !NeverSearches(c)
    requires CanAsk(w, offers, available, asked) && KeysOf(w.redis, RIDE) == NO_KEYS
    requires d in available && d !in asked && o !in offers
    ensures Enabled(c, w, Ask(c, d, o))
    ensures CanAsk(Next(c, w, Ask(c, d, o)), offers[o := NewOffer(RIDE, d, c.OfferSeconds(), 0, o)],
                   available - {d}, asked + {d})
  {
    RequestOffers(c, w.redis, RIDE, d, o, 0);
    AnnouncedGrows(w.db.outbox, Next(c, w, Ask(c, d, o)).db.outbox, RideRequested, RIDE);
  }

  lemma OfferIsAccepted(
      c: Config, w: System, offers: map<OfferID, Offer>, available: set<DriverID>, asked: set<DriverID>, o: OfferID)
    requires Terminating(c) && CanAsk(w, offers, available, asked)
    requires o in offers && offers[o].id == o && offers[o].status == Pending && offers[o].ride == RIDE
    ensures var m := Serve(AcceptOffer(o), None, false);
            && Enabled(c, w, m)
            && CanAsk(Next(c, w, m), offers[o := offers[o].(status := OfferStatus.Accepted)], available, asked)
            && Announced(Next(c, w, m).db.outbox, OfferAccepted, RIDE)
  {
    var after := Next(c, w, Serve(AcceptOffer(o), None, false));
    assert Tells(after.db.outbox[|w.db.outbox|], OfferAccepted, RIDE);
    AnnouncedGrows(w.db.outbox, after.db.outbox, RideRequested, RIDE);
  }

  lemma Joined(moves: seq<Move>, a: Move, b: Move, c: Move)
    ensures moves + [a] + [b] + [c] == moves + [a, b, c]
  {
  }

  lemma Overwritten(offers: map<OfferID, Offer>, o: OfferID, first: Offer, second: Offer)
    ensures offers[o := first][o := second] == offers[o := second]
  {
  }

  lemma RideIsOfferedAndAccepted(
      c: Config, moves: seq<Move>, w: System,
      offers: map<OfferID, Offer>, available: set<DriverID>, asked: set<DriverID>, d: DriverID, o: OfferID)
    returns (after: System)
    requires Terminating(c) && !NeverSearches(c) && Reaches(c, moves, w)
    requires CanAsk(w, offers, available, asked) && KeysOf(w.redis, RIDE) == NO_KEYS
    requires d in available && d !in asked && o !in offers
    ensures Reaches(c, moves + OfferedAndAccepted(c, d, o), after)
    ensures KeysOf(after.redis, RIDE) == NO_KEYS
    ensures CanAsk(after, offers[o := NewOffer(RIDE, d, c.OfferSeconds(), 0, o).(status := OfferStatus.Accepted)],
                   available - {d}, asked + {d})
  {
    var ask, accept, told := Ask(c, d, o), Serve(AcceptOffer(o), None, false), Handle(Step.Accepted(RIDE), 0);
    var offer := NewOffer(RIDE, d, c.OfferSeconds(), 0, o);
    AskOffers(c, w, offers, available, asked, d, o);
    ReachesNext(c, moves, w, ask);
    var asking := Next(c, w, ask);
    OfferIsAccepted(c, asking, offers[o := offer], available - {d}, asked + {d}, o);
    ReachesNext(c, moves + [ask], asking, accept);
    var accepted := Next(c, asking, accept);
    ReachesNext(c, moves + [ask] + [accept], accepted, told);
    after := Next(c, accepted, told);
    Joined(moves, ask, accept, told);
    Overwritten(offers, o, offer, offer.(status := OfferStatus.Accepted));
  }

  lemma RideIsCreated(c: Config) returns (w: System)
    requires Terminating(c)
    ensures Reaches(c, [CREATE], w)
    ensures CanAsk(w, map[], {DRIVER, OTHER_DRIVER}, {}) && KeysOf(w.redis, RIDE) == NO_KEYS
  {
    assert Reaches(c, [], TwoDrivers());
    ReachesNext(c, [], TwoDrivers(), CREATE);
    assert [] + [CREATE] == [CREATE];
    w := Next(c, TwoDrivers(), CREATE);
    assert Tells(w.db.outbox[0], RideRequested, RIDE);
  }

  /** Without the assumption, a redelivered ride.requested event lets two drivers be accepted for one ride. */
  lemma RedeliveredRequestDoubles(c: Config)
    requires Terminating(c) && !NeverSearches(c)
    ensures var moves := Redelivered(c);
            && OfferProtocol.IsRun(c, TwoDrivers(), moves) && Unkeyed(moves)
            && var offers := Run(c, TwoDrivers(), moves).db.offers;
            && FIRST in offers && SECOND in offers && offers[FIRST].ride == offers[SECOND].ride
            && offers[FIRST].status == OfferStatus.Accepted && offers[SECOND].status == OfferStatus.Accepted
  {
    var w := RideIsCreated(c);
    var first := RideIsOfferedAndAccepted(c, [CREATE], w, map[], {DRIVER, OTHER_DRIVER}, {}, DRIVER, FIRST);
    var second := RideIsOfferedAndAccepted(
      c, [CREATE] + OfferedAndAccepted(c, DRIVER, FIRST), first, first.db.offers,
      {DRIVER, OTHER_DRIVER} - {DRIVER}, {} + {DRIVER}, OTHER_DRIVER, SECOND);
  }
}
