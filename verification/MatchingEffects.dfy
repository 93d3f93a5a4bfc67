/** What the matching service does to drivers, locks and lists, on the fields themselves: who is found, in which order
    they are asked, and what a sent offer, a completed one and a failed request leave. */
module MatchingEffects {
  import opened Options
  import opened RideDomain
  import opened Candidates
  import opened MatchingService
  import opened MatchingSends
  import opened MatchingRuns

  // ---------- Order ----------

  /** When a driver was last asked, zero if never. */
  function AskedAt(d: Drivers, driver: DriverID): int {
    if driver in d.lastOffer then d.lastOffer[driver] else 0
  }

  /** Without jitter the nearer driver comes first; at equal distance the one asked longer ago; then the smaller
      identifier. */
  lemma NearestThenLongestWaiting(c: Search, d: Drivers, found: seq<Candidate>, pick: seq<Candidate>, i: nat, j: nat)
    requires c.etaJitter <= 0 && DistinctDrivers(found) && i < j < |Order(c, d, found, pick)|
    ensures var a, b := Order(c, d, found, pick)[i], Order(c, d, found, pick)[j];
            && a.distance <= b.distance
            && (a.distance == b.distance ==> AskedAt(d, a.driver) <= AskedAt(d, b.driver))
            && (a.distance == b.distance && AskedAt(d, a.driver) == AskedAt(d, b.driver) ==> a.driver < b.driver)
  {
    RankedIsSorted(d, found);
    assert Precedes(d, Ranked(d, found)[i], Ranked(d, found)[j]);
  }

  // ---------- Who is found ----------

  predicate NearestFirst(geo: seq<Candidate>) {
    forall i, j :: 0 <= i < j < |geo| ==> geo[i].distance <= geo[j].distance
  }

  /** A position query returns the nearest drivers within the radius, up to the limit or ten. */
  lemma {:induction false} QueryReturnsTheNearest(geo: seq<Candidate>, radius: real, limit: int)
    requires NearestFirst(geo)
    ensures var near, count := Nearby(geo, radius, limit), if 0 < limit then limit else 10;
            && near <= geo && |near| <= count
            && (forall i :: 0 <= i < |near| ==> geo[i].distance <= radius)
            && (|near| < count && |near| < |geo| ==> radius < geo[|near|].distance)
  {
    WithinIsPrefix(geo, radius);
  }

  lemma {:induction false} WithinIsPrefix(geo: seq<Candidate>, radius: real)
    requires NearestFirst(geo)
    ensures var inside := Within(geo, radius);
            && inside <= geo && (forall i :: 0 <= i < |inside| ==> geo[i].distance <= radius)
            && (|inside| < |geo| ==> radius < geo[|inside|].distance)
    decreases |geo|
  {
    if geo == [] {
    } else {
      var front, last := geo[..|geo| - 1], geo[|geo| - 1];
      WithinIsPrefix(front, radius);
      if |Within(front, radius)| < |front| {
        assert geo[|Within(front, radius)|].distance <= last.distance;
      }
      assert front + [last] == geo;
    }
  }

  /** A probe finds exactly the drivers returned who are available and whose cool-down, if any, is over. */
  lemma ProbeFindsTheFree(
      c: Search, d: Drivers, geo: seq<Candidate>, radius: real, limit: int, now: int, k: nat, x: Candidate)
    requires DistinctDrivers(geo)
    ensures x in ProbeAt(c, d, geo, radius, limit, now, k)
            <==> && x in Nearby(geo, RadiusAt(c, radius, k), LimitOf(c, limit)) && x.driver in d.available
                 && (x.driver in d.cooldown ==> d.cooldown[x.driver] <= now)
  {
    ProbeMembers(c, d, geo, radius, limit, now, k);
  }

  /** The radii: from the wanted or configured one, in configured steps or by its own length, up to the configured
      maximum or only itself. */
  lemma RadiiInNumbers(c: Search, radius: real, k: nat)
    ensures var first := if 0.0 < radius then radius else c.matchRadius;
            var step := if 0.0 < c.radiusStep then c.radiusStep else first;
            && RadiusAt(c, radius, k) == first + k as real * step
            && MaxRadius(c, radius) == if 0.0 < c.radiusMax then c.radiusMax else first
    ensures forall limit :: LimitOf(c, limit) == if 0 < limit then limit else c.matchLimit
  {
  }

  // ---------- Sent offers ----------

  /** The marks of an offer sent to a driver at a time: in numbers, when the driver was last asked, that the driver is
      not available, and until when no other offer is sent. */
  predicate MarksDriver(c: Config, before: Redis, after: Redis, d: DriverID, at: int) {
    && after.drivers.lastOffer == before.drivers.lastOffer[d := at]
    && after.drivers.available == before.drivers.available - {d}
    && after.drivers.cooldown == before.drivers.cooldown
    && after.offered == before.offered[d := if c.offerTTL <= 0 then None else Some(at + c.offerTTL)]
  }

  predicate SameDrivers(before: Redis, after: Redis) {
    after.drivers == before.drivers && after.offered == before.offered
  }

  lemma TurnMarksItsDriver(c: Config, s: Redis, r: RideID, a: Attempt)
    ensures var once := Turn(c, s, r, a);
            if once.outcome.Sent? then
              a.reply == Some(once.outcome.offer) && MarksDriver(c, s, once.redis, once.outcome.driver, a.at + a.delay)
            else SameDrivers(s, once.redis)
  {
  }

  /** A send marks the driver of the offer it created, at the time of the turn that created it, and no other; a send
      that creates none marks nobody. */
  lemma {:induction false} SendMarksItsDriver(c: Config, s: Redis, r: RideID, attempts: seq<Attempt>) returns (i: nat)
    ensures var result := Try(c, s, r, attempts);
            if result.outcome.Sent? then
              && i < |attempts| && attempts[i].reply == Some(result.outcome.offer)
              && MarksDriver(c, s, result.redis, result.outcome.driver, attempts[i].at + attempts[i].delay)
            else SameDrivers(s, result.redis)
    decreases |attempts|
  {
    if attempts == [] {
      i := 0;
    } else {
      var once := Turn(c, s, r, attempts[0]);
      TurnMarksItsDriver(c, s, r, attempts[0]);
      i := 0;
      if once.outcome == OutOfRetries {
        var j := SendMarksItsDriver(c, once.redis, r, attempts[1..]);
        i := j + 1;
      }
    }
  }

  /** A step that sends does so in one send, from keys in which at most a cool-down was started. */
  lemma SendingStepSends(c: Config, s: Redis, step: Step) returns (from: Redis)
    requires Terminating(c) && Do(c, s, step).outcome.Sent?
    ensures step.Requested? || step.Completed?
    ensures from.drivers.lastOffer == s.drivers.lastOffer && from.drivers.available == s.drivers.available
    ensures from.offered == s.offered
    ensures var sent := Try(c, from, if step.Requested? then step.q.ride else step.ride, step.env.attempts);
            sent.outcome == Do(c, s, step).outcome && sent.redis.drivers == Do(c, s, step).redis.drivers
            && sent.redis.offered == Do(c, s, step).redis.offered
  {
    from := if step.Completed? then Reopened(c, s, step.ride, step.driver, step.at) else Seeded(c, s, step.q);
  }

  /** Whatever step sends an offer, its driver was last asked when the offer was marked, is not available any more, and is
      marked as asked from then on. */
  lemma StepMarksItsDriver(c: Config, s: Redis, step: Step) returns (i: nat, at: int)
    requires Terminating(c) && Do(c, s, step).outcome.Sent?
    ensures (step.Requested? || step.Completed?) && i < |step.env.attempts|
    ensures at == step.env.attempts[i].at + step.env.attempts[i].delay
    ensures step.env.attempts[i].reply == Some(Do(c, s, step).outcome.offer)
    ensures var after, d := Do(c, s, step).redis, Do(c, s, step).outcome.driver;
            && after.drivers.lastOffer == s.drivers.lastOffer[d := at]
            && after.drivers.available == s.drivers.available - {d}
            && after.offered == s.offered[d := if c.offerTTL <= 0 then None else Some(at + c.offerTTL)]
  {
    var from := SendingStepSends(c, s, step);
    i := SendMarksItsDriver(c, from, if step.Requested? then step.q.ride else step.ride, step.env.attempts);
    at := step.env.attempts[i].at + step.env.attempts[i].delay;
  }

  /** A marked driver counts as asked until the time to live is over, or for ever without one. */
  lemma MarkLastsExactly(c: Config, before: Redis, after: Redis, d: DriverID, at: int, now: int)
    requires MarksDriver(c, before, after, d, at)
    ensures HasOffer(after, d, now) <==> c.offerTTL <= 0 || now < at + c.offerTTL
  {
  }

  /** A driver with an offer is skipped, and no call is made. */
  lemma AskedDriversAreSkipped(c: Config, s: Redis, r: RideID, a: Attempt)
    requires KeysOf(s, r).candidates != [] && !a.popFails && !a.countFails && !a.existsFails
    requires 0 < c.maxOffers ==> KeysOf(s, r).count < c.maxOffers
    ensures var d := KeysOf(s, r).candidates[0];
            Turn(c, s, r, a).calls == []
            <==> d in s.offered && (s.offered[d] == None || a.at < s.offered[d].value)
  {
  }

  // ---------- Requests ----------

  /** The lock after a request: as it was if the request is refused; held if it was admitted, unless nobody was found,
      the ride was given up or the send failed. A failing search leaves it held. */
  lemma RequestLeavesLock(c: Config, s: Redis, q: Request, env: Env)
    requires Terminating(c) && Fits(c, env)
    ensures var result := HandleRequested(c, s, q, env);
            KeysOf(result.redis, q.ride).locked ==
            if Admission(s, q).Some? then KeysOf(s, q.ride).locked
            else SearchFails(c, q) || result.outcome.Sent? || result.outcome == OutOfRetries
  {
    if Seeds(c, s, q) {
      TryEnds(c, Seeded(c, s, q), q.ride, env.attempts);
      RequestSends(c, s, q, env);
    }
  }

  /** Who is refused: a ride with an active offer, with candidates waiting, or locked. */
  lemma RequestIsAdmittedExactly(s: Redis, q: Request)
    ensures var k := KeysOf(s, q.ride);
            q.fault == NoFault || q.fault == SearchFault ==>
              Admission(s, q) == if k.active.Some? || k.candidates != [] || k.locked then Some(Ignored) else None
  {
  }

  /** A refused request changes nothing and calls nobody; one that finds nobody cancels the ride and gives the lock
      back. */
  lemma RequestWithoutOffer(c: Config, s: Redis, q: Request, env: Env)
    requires Terminating(c)
    ensures var result := HandleRequested(c, s, q, env);
            && (Admission(s, q).Some? ==> result.redis == s && result.calls == [] && result.popped == [])
            && (Admission(s, q) == None && !SearchFails(c, q) && Found(c, s, q) == [] ==>
                  && result.calls == [CancelCall(q.ride)] && result.popped == []
                  && KeysOf(result.redis, q.ride) == KeysOf(s, q.ride).(locked := false))
  {
  }

  // ---------- Completions ----------

  /** Every delivery of a decline or an expiry, stale or not, makes its driver cool down from then on; a request makes
      nobody cool down. */
  lemma CompletionCoolsItsDriver(c: Config, s: Redis, step: Step)
    requires Terminating(c) && (step.Completed? || step.Requested?)
    ensures Do(c, s, step).redis.drivers.cooldown ==
            if step.Completed? && step.driver.Some? && 0 < c.cooldown
            then s.drivers.cooldown[step.driver.value := step.at + c.cooldown] else s.drivers.cooldown
  {
    if step.Completed? {
      var i := SendMarksItsDriver(c, Reopened(c, s, step.ride, step.driver, step.at), step.ride, step.env.attempts);
    } else {
      var i := SendMarksItsDriver(c, Seeded(c, s, step.q), step.q.ride, step.env.attempts);
    }
  }

  /** A completion is acted on if and only if its offer is the active one. If it is not, no call is made and no key of a
      ride changes; if it is, it is active no more, and only an offer sent now is. */
  lemma CompletionIsActedOnExactly(c: Config, s: Redis, step: Step)
    requires Terminating(c) && Possible(c, step) && step.Completed? && !step.activeFails
    ensures var result, active := Do(c, s, step), KeysOf(s, step.ride).active;
            && (result.outcome == Ignored <==> active == None || active.value.offer != step.offer)
            && (result.outcome == Ignored ==> result.calls == [] && result.redis.rides == s.rides)
            && result.outcome != AlreadyActive
            && (result.outcome != Ignored ==>
                  KeysOf(result.redis, step.ride).active
                  == if result.outcome.Sent? then Some(Active(result.outcome.offer, result.outcome.driver)) else None)
  {
    TryEnds(c, Reopened(c, s, step.ride, step.driver, step.at), step.ride, step.env.attempts);
  }

  /** An acceptance leaves no key of its ride, and every key of the others. */
  lemma AcceptanceClearsItsRide(s: Redis, r: RideID, x: RideID)
    ensures KeysOf(HandleAccepted(s, r), x) == if x == r then RideKeys([], None, 0, false) else KeysOf(s, x)
    ensures SameDrivers(s, HandleAccepted(s, r))
  {
  }

  /** And so does giving a ride up. */
  lemma GivingUpClearsTheRide(c: Config, s: Redis, r: RideID, env: Env)
    requires Fits(c, env) && SendNext(c, s, r, env).outcome == GaveUp
    ensures KeysOf(SendNext(c, s, r, env).redis, r) == RideKeys([], None, 0, false)
    ensures Cancels(SendNext(c, s, r, env).calls) == 1
  {
    TryEnds(c, s, r, env.attempts);
  }
}
