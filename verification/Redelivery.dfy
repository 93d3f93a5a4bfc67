/** Decline and expiry events that come late or again: whether deleting them changes what the matching service does. */
module Redelivery {
  import opened Options
  import opened RideDomain
  import opened Candidates
  import opened MatchingService
  import opened MatchingSends
  import opened MatchingRuns

  datatype Played = Played(redis: Redis, calls: seq<Call>)

  /** All steps from a given state, with the calls they make. */
  function Play(c: Config, s: Redis, steps: seq<Step>): Played
    requires Terminating(c)
    decreases |steps|
  {
    if steps == [] then Played(s, [])
    else
      var first := Do(c, s, steps[0]);
      var rest := Play(c, first.redis, steps[1..]);
      Played(rest.redis, first.calls + rest.calls)
  }

  // ---------- Stale deliveries ----------

  /** A completion whose offer is not the active one when it is delivered. */
  predicate Stale(s: Redis, step: Step) {
    step.Completed? && (KeysOf(s, step.ride).active == None || KeysOf(s, step.ride).active.value.offer != step.offer)
  }

  /** The same steps without the stale deliveries. */
  function Strip(c: Config, s: Redis, steps: seq<Step>): seq<Step>
    requires Terminating(c)
    decreases |steps|
  {
    if steps == [] then []
    else
      var rest := Strip(c, Do(c, s, steps[0]).redis, steps[1..]);
      if Stale(s, steps[0]) then rest else [steps[0]] + rest
  }

  predicate Alike(s: Redis, t: Redis) {
    && s.rides == t.rides && s.offered == t.offered
    && s.drivers.available == t.drivers.available && s.drivers.lastOffer == t.drivers.lastOffer
  }

  predicate SameTurn(a: SendResult, b: SendResult) {
    Alike(a.redis, b.redis) && a.outcome == b.outcome && a.calls == b.calls && a.popped == b.popped
  }

  lemma {:induction false} TryIgnoresCooldowns(c: Config, s: Redis, t: Redis, r: RideID, attempts: seq<Attempt>)
    requires Alike(s, t)
    ensures SameTurn(Try(c, s, r, attempts), Try(c, t, r, attempts))
    decreases |attempts|
  {
    if attempts == [] {
    } else {
      var a := attempts[0];
      assert SameTurn(Turn(c, s, r, a), Turn(c, t, r, a));
      TryIgnoresCooldowns(c, Turn(c, s, r, a).redis, Turn(c, t, r, a).redis, r, attempts[1..]);
    }
  }

  lemma CompletionIgnoresCooldowns(c: Config, s: Redis, t: Redis, step: Step)
    requires Terminating(c) && step.Completed? && Alike(s, t)
    ensures SameTurn(Do(c, s, step), Do(c, t, step))
    ensures Stale(s, step) ==> Alike(Do(c, s, step).redis, t) && Do(c, s, step).calls == []
  {
    var u, v := Reopened(c, s, step.ride, step.driver, step.at), Reopened(c, t, step.ride, step.driver, step.at);
    TryIgnoresCooldowns(c, u, v, step.ride, step.env.attempts);
  }

  /** No search can find anybody: the first radius is refused, or above the widest. */
  predicate NeverSearches(c: Config)
    requires Terminating(c)
  {
    Refused(c.search, c.search.matchRadius) || Probes(c.search, c.search.matchRadius) == 0
  }

  lemma NobodyIsFound(c: Config, s: Redis, q: Request)
    requires Terminating(c) && NeverSearches(c)
    ensures Found(c, s, q) == []
  {
  }

  lemma StepIgnoresCooldowns(c: Config, s: Redis, t: Redis, step: Step)
    requires Terminating(c) && Alike(s, t) && (step.Requested? ==> NeverSearches(c))
    ensures SameTurn(Do(c, s, step), Do(c, t, step))
  {
    if step.Completed? {
      CompletionIgnoresCooldowns(c, s, t, step);
    } else if step.Requested? {
      NobodyIsFound(c, s, step.q);
      NobodyIsFound(c, t, step.q);
    }
  }

  lemma {:induction false} StrippedPlaysAlike(c: Config, s: Redis, t: Redis, steps: seq<Step>)
    requires Terminating(c) && Alike(s, t)
    requires (forall i :: 0 <= i < |steps| ==> !steps[i].Requested?) || NeverSearches(c)
    ensures var p, q := Play(c, s, steps), Play(c, t, Strip(c, s, steps)); p.calls == q.calls && Alike(p.redis, q.redis)
    decreases |steps|
  {
    if steps == [] {
    } else {
      var first, rest := steps[0], steps[1..];
      var after := Do(c, s, first);
      if Stale(s, first) {
        CompletionIgnoresCooldowns(c, s, t, first);
        StrippedPlaysAlike(c, after.redis, t, rest);
        assert [] + Play(c, after.redis, rest).calls == Play(c, after.redis, rest).calls;
      } else {
        StepIgnoresCooldowns(c, s, t, first);
        StrippedPlaysAlike(c, after.redis, Do(c, t, first).redis, rest);
        assert ([first] + Strip(c, after.redis, rest))[1..] == Strip(c, after.redis, rest);
      }
    }
  }

  /** As long as no request follows, stale deliveries change neither a call nor a key of a ride, whatever the
      configuration. */
  lemma StaleDeliveriesAreHarmlessWithoutRequests(c: Config, s: Redis, steps: seq<Step>)
    requires Terminating(c) && forall i :: 0 <= i < |steps| ==> !steps[i].Requested?
    ensures var p, q := Play(c, s, steps), Play(c, s, Strip(c, s, steps));
            p.calls == q.calls && p.redis.rides == q.redis.rides
  {
    StrippedPlaysAlike(c, s, s, steps);
  }

  // ---------- With requests ----------

  /** Without cool-downs a stale delivery does nothing at all. */
  lemma {:induction false} StrippedPlaysTheSame(c: Config, s: Redis, steps: seq<Step>)
    requires Terminating(c) && c.cooldown <= 0
    ensures Play(c, s, steps) == Play(c, s, Strip(c, s, steps))
    decreases |steps|
  {
    if steps == [] {
    } else {
      var after, rest := Do(c, s, steps[0]), steps[1..];
      StrippedPlaysTheSame(c, after.redis, rest);
      if Stale(s, steps[0]) {
        assert [] + Play(c, s, rest).calls == Play(c, s, rest).calls;
      } else {
        assert ([steps[0]] + Strip(c, after.redis, rest))[1..] == Strip(c, after.redis, rest);
      }
    }
  }

  /** Deleting the stale deliveries never changes a call or a key of a ride. */
  ghost predicate Harmless(c: Config)
    requires Terminating(c)
  {
    forall s, steps :: IsRun(c, steps) ==>
      var p, q := Play(c, s, steps), Play(c, s, Strip(c, s, steps));
      p.calls == q.calls && p.redis.rides == q.redis.rides
  }

  /** Deletion is harmless for every sequence exactly if no stale delivery can start a cool-down that a search would
      see. */
  lemma HarmlessIffNoCooldownIsSeen(c: Config)
    requires Terminating(c)
    ensures Harmless(c) <==> c.cooldown <= 0 || NeverSearches(c)
  {
    if c.cooldown <= 0 {
      forall s, steps
        ensures Play(c, s, steps) == Play(c, s, Strip(c, s, steps))
      {
        StrippedPlaysTheSame(c, s, steps);
      }
    } else if NeverSearches(c) {
      forall s, steps
        ensures var p, q := Play(c, s, steps), Play(c, s, Strip(c, s, steps));
                p.calls == q.calls && p.redis.rides == q.redis.rides
      {
        StrippedPlaysAlike(c, s, s, steps);
      }
    } else {
      StaleDeliveryCancelsRide(c);
    }
  }

  const DRIVER: DriverID := 7
  const RIDE: RideID := 1
  const OLD_OFFER: OfferID := 3
  const NEW_OFFER: OfferID := 4

  function OneDriver(): Redis {
    Redis(map[], map[], Drivers({DRIVER}, map[], map[]))
  }

  /** Nothing fails, and the first offer asked for is created. */
  function Willing(c: Config, o: OfferID, at: int): Env {
    Env(false, seq(c.Retries(), _ => Attempt(at, 0, false, false, false, Some(o))), false)
  }

  /** A request with one driver around. */
  function RequestNear(c: Config, r: RideID, d: DriverID, at: int): Request {
    Request(r, [Candidate(d, c.search.matchRadius)], [], at, NoFault)
  }

  /** A late decline of an offer that is gone, then a request for the ride. */
  function LateDeclineThenRequest(c: Config): seq<Step> {
    [Step.Completed(RIDE, OLD_OFFER, Some(DRIVER), 0, false, Willing(c, NEW_OFFER, 0)),
     Step.Requested(RequestNear(c, RIDE, DRIVER, 0), Willing(c, NEW_OFFER, 0))]
  }

  lemma OnlyDriverIsFound(c: Config, s: Redis, r: RideID, d: DriverID, at: int)
    requires Terminating(c) && !NeverSearches(c) && d in s.drivers.available
    ensures Found(c, s, RequestNear(c, r, d, at)) == if CoolingDown(s.drivers, d, at) then [] else [d]
  {
    var geo, search := RequestNear(c, r, d, at).geo, c.search;
    var x := geo[0];
    assert geo[..|geo| - 1] == [];
    assert RadiusAt(search, search.matchRadius, 0) == search.matchRadius;
    assert Within(geo, search.matchRadius) == geo;
    assert Nearby(geo, search.matchRadius, LimitOf(search, search.matchLimit)) == geo;
    var found := SearchFrom(search, s.drivers, geo, search.matchRadius, search.matchLimit, at, 0);
    if CoolingDown(s.drivers, d, at) {
      NobodyEligible(c, s, r, d, at, 0);
      assert found == [];
    } else {
      assert Eligible(s.drivers, geo[..0], at) == [] && geo[|geo| - 1] == x;
      assert Eligible(s.drivers, geo, at) == geo;
      assert ProbeAt(search, s.drivers, geo, search.matchRadius, search.matchLimit, at, 0) == geo;
      assert found == geo;
      assert Ranked(s.drivers, geo) == geo && DriversIn(geo) == [d];
    }
  }

  lemma {:induction false} CoolingDriversAreLeftOut(d: Drivers, cs: seq<Candidate>, now: int)
    requires forall x :: x in cs ==> CoolingDown(d, x.driver, now)
    ensures Eligible(d, cs, now) == []
  {
    if cs == [] {
    } else {
      assert cs[|cs| - 1] in cs;
      CoolingDriversAreLeftOut(d, cs[..|cs| - 1], now);
    }
  }

  lemma {:induction false} NobodyEligible(c: Config, s: Redis, r: RideID, d: DriverID, at: int, k: nat)
    requires 0.0 < StepOf(c.search, c.search.matchRadius) && CoolingDown(s.drivers, d, at)
    ensures var q := RequestNear(c, r, d, at);
            SearchFrom(c.search, s.drivers, q.geo, c.search.matchRadius, c.search.matchLimit, at, k) == []
    decreases Probes(c.search, c.search.matchRadius) - k
  {
    if Probes(c.search, c.search.matchRadius) <= k {
    } else {
      var geo, radius := RequestNear(c, r, d, at).geo, RadiusAt(c.search, c.search.matchRadius, k);
      var near := Nearby(geo, radius, LimitOf(c.search, c.search.matchLimit));
      NearbyMembers(geo, radius, LimitOf(c.search, c.search.matchLimit));
      CoolingDriversAreLeftOut(s.drivers, near, at);
      NobodyEligible(c, s, r, d, at, k + 1);
    }
  }

  /** A request can be answered with an offer: nothing is under way for the ride, and its limit is not used up. */
  predicate RideIsFree(c: Config, k: RideKeys) {
    k.active == None && k.candidates == [] && !k.locked && (0 < c.maxOffers ==> k.count < c.maxOffers)
  }

  /** A request for such a ride offers it to the one driver around, who neither cools down nor has an offer. */
  lemma RequestOffers(c: Config, s: Redis, r: RideID, d: DriverID, o: OfferID, at: int)
    requires Terminating(c) && !NeverSearches(c) && RideIsFree(c, KeysOf(s, r))
    requires d in s.drivers.available && !CoolingDown(s.drivers, d, at) && !HasOffer(s, d, at)
    ensures var result := Do(c, s, Step.Requested(RequestNear(c, r, d, at), Willing(c, o, at)));
            && result.calls == [CreateCall(r, d, at, Some(o))] && result.outcome == Sent(o, d)
            && KeysOf(result.redis, r) == RideKeys([], Some(Active(o, d)), KeysOf(s, r).count + 1, true)
            && result.redis.rides.Keys == s.rides.Keys + {r}
            && result.redis.offered == s.offered[d := if 0 < c.offerTTL then Some(at + c.offerTTL) else None]
            && result.redis.drivers.available == s.drivers.available - {d}
            && result.redis.drivers.cooldown == s.drivers.cooldown
  {
    var q, env := RequestNear(c, r, d, at), Willing(c, o, at);
    OnlyDriverIsFound(c, s, r, d, at);
    var t := Seeded(c, s, q);
    assert KeysOf(t, r).candidates == [d];
    assert Turn(c, t, r, env.attempts[0]).outcome == Sent(o, d);
  }

  /** With a cool-down, the late decline makes the request cancel the ride; without the late decline the driver is
      offered. */
  lemma StaleDeliveryCancelsRide(c: Config)
    requires Terminating(c) && 0 < c.cooldown && !NeverSearches(c)
    ensures var s, steps := OneDriver(), LateDeclineThenRequest(c);
            && IsRun(c, steps) && Stale(s, steps[0]) && Strip(c, s, steps) == steps[1..]
            && Play(c, s, steps).calls == [CancelCall(RIDE)]
            && Play(c, s, Strip(c, s, steps)).calls == [CreateCall(RIDE, DRIVER, 0, Some(NEW_OFFER))]
    ensures !Harmless(c)
  {
    var s, steps := OneDriver(), LateDeclineThenRequest(c);
    var t, request := Do(c, s, steps[0]).redis, steps[1];
    assert steps[1..] == [request] && [request][1..] == [] && steps[1..][1..] == [];
    OnlyDriverIsFound(c, t, RIDE, DRIVER, 0);
    assert Strip(c, t, [request]) == [request] + Strip(c, Do(c, t, request).redis, []);
    assert Strip(c, s, steps) == [request];
    assert Do(c, s, steps[0]).calls == [] && Do(c, t, request).calls == [CancelCall(RIDE)];
    assert Play(c, Do(c, t, request).redis, []).calls == [];
    assert Play(c, t, [request]).calls == [CancelCall(RIDE)];
    RequestOffers(c, s, RIDE, DRIVER, NEW_OFFER, 0);
    var p, q := Play(c, s, steps), Play(c, s, Strip(c, s, steps));
    assert p.calls[0] != q.calls[0];
  }

  // ---------- How often an offer advances its ride ----------

  /** Deliveries that make the ride go on to its next driver. */
  function Advances(c: Config, s: Redis, steps: seq<Step>, r: RideID, o: OfferID): nat
    requires Terminating(c)
    decreases |steps|
  {
    if steps == [] then 0
    else
      var step := steps[0];
      (if step.Completed? && step.ride == r && step.offer == o && !step.activeFails && !Stale(s, step) then 1 else 0)
      + Advances(c, Do(c, s, step).redis, steps[1..], r, o)
  }

  /** How often an offer was created for a ride. */
  function Creations(calls: seq<Call>, r: RideID, o: OfferID): nat {
    if calls == [] then 0
    else
      var last := calls[|calls| - 1];
      Creations(calls[..|calls| - 1], r, o)
      + if last.CreateCall? && last.ride == r && last.reply == Some(o) then 1 else 0
  }

  lemma {:induction false} CreationsConcat(a: seq<Call>, b: seq<Call>, r: RideID, o: OfferID)
    ensures Creations(a + b, r, o) == Creations(a, r, o) + Creations(b, r, o)
  {
    if b == [] {
      assert a + b == a;
    } else {
      assert (a + b)[..|a + b| - 1] == a + b[..|b| - 1];
      CreationsConcat(a, b[..|b| - 1], r, o);
    }
  }

  function IsActive(s: Redis, r: RideID, o: OfferID): nat {
    var a := KeysOf(s, r).active; if a.Some? && a.value.offer == o then 1 else 0
  }

  lemma SendBalances(c: Config, s: Redis, r: RideID, env: Env, o: OfferID)
    requires Fits(c, env)
    ensures var result := SendNext(c, s, r, env);
            IsActive(result.redis, r, o) <= IsActive(s, r, o) + Creations(result.calls, r, o)
  {
    TryEnds(c, s, r, env.attempts);
  }

  lemma StepBalances(c: Config, s: Redis, step: Step, r: RideID, o: OfferID)
    requires Terminating(c) && Possible(c, step)
    ensures var result := Do(c, s, step);
            Advances(c, s, [step], r, o) + IsActive(result.redis, r, o)
            <= IsActive(s, r, o) + Creations(result.calls, r, o)
  {
    assert [step][1..] == [];
    if !Concerns(step, r) {
      OtherRidesAreUntouched(c, s, step, r);
    } else if step.Requested? {
      if Seeds(c, s, step.q) {
        RequestSends(c, s, step.q, step.env);
        SendBalances(c, Seeded(c, s, step.q), r, step.env, o);
      } else {
        RequestIsIgnored(c, s, step.q, step.env);
      }
    } else if step.Completed? {
      SendBalances(c, Reopened(c, s, r, step.driver, step.at), r, step.env, o);
    }
  }

  lemma {:induction false} AdvancesBalance(c: Config, s: Redis, steps: seq<Step>, r: RideID, o: OfferID)
    requires Terminating(c) && IsRun(c, steps)
    ensures var p := Play(c, s, steps);
            Advances(c, s, steps, r, o) + IsActive(p.redis, r, o) <= IsActive(s, r, o) + Creations(p.calls, r, o)
    decreases |steps|
  {
    if steps == [] {
    } else {
      var first := Do(c, s, steps[0]);
      assert [steps[0]][1..] == [];
      StepBalances(c, s, steps[0], r, o);
      AdvancesBalance(c, first.redis, steps[1..], r, o);
      CreationsConcat(first.calls, Play(c, first.redis, steps[1..]).calls, r, o);
    }
  }

  /** However often its completion is delivered, an offer advances its ride at most once for each time the ride service
      answered CreateOffer with it. */
  lemma AdvancesWithinCreations(c: Config, d: Drivers, steps: seq<Step>, r: RideID, o: OfferID)
    requires Terminating(c) && IsRun(c, steps)
    ensures var s := Redis(map[], map[], d); Advances(c, s, steps, r, o) <= Creations(Play(c, s, steps).calls, r, o)
  {
    AdvancesBalance(c, Redis(map[], map[], d), steps, r, o);
  }
}
