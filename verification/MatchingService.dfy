/** The matching service over its Redis keys: who is asked next for a ride, and what each event does to the ride's keys.
    */
module MatchingService {
  import opened Options
  import opened RideDomain
  import opened Candidates

  datatype Active = Active(offer: OfferID, driver: DriverID)

  /** The keys of one ride; an absent key reads as an empty list, no offer, zero or unlocked. */
  datatype RideKeys = RideKeys(candidates: seq<DriverID>, active: Option<Active>, count: nat, locked: bool)

  const NO_KEYS := RideKeys([], None, 0, false)

  /** `offered` is the key that marks a driver as asked, with its expiry; None never expires. */
  datatype Redis = Redis(rides: map<RideID, RideKeys>, offered: map<DriverID, Option<int>>, drivers: Drivers)

  datatype Config = Config(
    search: Search, offerTTL: int, retryMax: int, cooldown: int, maxOffers: int)
  {
    function Retries(): nat {
      if retryMax <= 0 then 1 else retryMax
    }

    /** The time to live that offers themselves get. */
    function OfferSeconds(): int {
      if offerTTL <= 0 then 10 else offerTTL
    }
  }

  function KeysOf(s: Redis, r: RideID): RideKeys {
    if r in s.rides then s.rides[r] else NO_KEYS
  }

  function SetKeys(s: Redis, r: RideID, k: RideKeys): Redis {
    s.(rides := s.rides[r := k])
  }

  predicate HasOffer(s: Redis, d: DriverID, now: int) {
    d in s.offered && (s.offered[d].Some? ==> now < s.offered[d].value)
  }

  /** One turn of the retry loop: when it starts, when its offer is marked, which reads fail, and what CreateOffer
      answers. The marking is never earlier than the start. */
  datatype Attempt = Attempt(
    at: int, delay: nat, popFails: bool, countFails: bool, existsFails: bool, reply: Option<OfferID>)

  /** Everything the outside world contributes to one run of sendNextOffer. */
  datatype Env = Env(activeFails: bool, attempts: seq<Attempt>, cancelFails: bool)

  datatype Call =
    | CreateCall(ride: RideID, driver: DriverID, at: int, reply: Option<OfferID>)
    | CancelCall(ride: RideID)

  datatype Outcome =
    | Ignored
    | AlreadyActive
    | Sent(offer: OfferID, driver: DriverID)
    | GaveUp
    | OutOfRetries
    | ReadFailed

  /** The new keys, how the send ended, the calls made to the ride service, and the candidates taken off the list. */
  datatype SendResult = SendResult(redis: Redis, outcome: Outcome, calls: seq<Call>, popped: seq<DriverID>)
  {
    /** This result, after the given calls were made and the given candidates taken off. */
    function After(made: seq<Call>, taken: seq<DriverID>): SendResult {
      this.(calls := made + calls, popped := taken + popped)
    }
  }

  function Pop(s: Redis, r: RideID): Redis
    requires KeysOf(s, r).candidates != []
  {
    SetKeys(s, r, KeysOf(s, r).(candidates := KeysOf(s, r).candidates[1..]))
  }

  function Clear(s: Redis, r: RideID): Redis {
    SetKeys(s, r, NO_KEYS)
  }

  /** Marks the driver as asked and the offer as active, and counts it. */
  function MarkSent(c: Config, s: Redis, r: RideID, d: DriverID, o: OfferID, now: int): Redis {
    var k := KeysOf(s, r);
    Redis(s.rides[r := k.(active := Some(Active(o, d)), count := k.count + 1)],
          s.offered[d := if 0 < c.offerTTL then Some(now + c.offerTTL) else None],
          s.drivers.(available := s.drivers.available - {d}, lastOffer := s.drivers.lastOffer[d := now]))
  }

  /** One turn of the retry loop; its outcome is OutOfRetries if the loop goes on. */
  function Turn(c: Config, s: Redis, r: RideID, a: Attempt): SendResult {
    var k := KeysOf(s, r);
    if a.popFails then SendResult(s, ReadFailed, [], [])
    else if k.candidates == [] then SendResult(Clear(s, r), GaveUp, [CancelCall(r)], [])
    else
      var d, t := k.candidates[0], Pop(s, r);
      if 0 < c.maxOffers && a.countFails then SendResult(t, ReadFailed, [], [d])
      else if 0 < c.maxOffers <= k.count then SendResult(Clear(t, r), GaveUp, [CancelCall(r)], [d])
      else if a.existsFails then SendResult(t, ReadFailed, [], [d])
      else if HasOffer(t, d, a.at) then SendResult(t, OutOfRetries, [], [d])
      else if a.reply == None then SendResult(t, OutOfRetries, [CreateCall(r, d, a.at, None)], [d])
      else
        SendResult(MarkSent(c, t, r, d, a.reply.value, a.at + a.delay), Sent(a.reply.value, d),
                   [CreateCall(r, d, a.at, a.reply)], [d])
  }

  /** The retry loop, given the turns it has left. */
  function Try(c: Config, s: Redis, r: RideID, attempts: seq<Attempt>): SendResult
    decreases |attempts|
  {
    if attempts == [] then SendResult(s, OutOfRetries, [], [])
    else
      var once := Turn(c, s, r, attempts[0]);
      if once.outcome != OutOfRetries then once
      else Try(c, once.redis, r, attempts[1..]).After(once.calls, once.popped)
  }

  /** The environment offers one turn per retry. */
  predicate Fits(c: Config, env: Env) {
    |env.attempts| == c.Retries()
  }

  function SendNext(c: Config, s: Redis, r: RideID, env: Env): SendResult {
    if env.activeFails then SendResult(s, ReadFailed, [], [])
    else if KeysOf(s, r).active.Some? then SendResult(s, AlreadyActive, [], [])
    else Try(c, s, r, env.attempts)
  }

  /** Whether the handler sees an error. */
  predicate Failed(result: SendResult, env: Env) {
    result.outcome == ReadFailed || (result.outcome == GaveUp && env.cancelFails)
  }

  /** Which read of the request handler fails, if any, before it starts to send. */
  datatype Fault = NoFault | ActiveFault | CandidatesFault | LockFault | SearchFault

  /** A ride.requested event with the positions around its pickup point. */
  datatype Request = Request(ride: RideID, geo: seq<Candidate>, pick: seq<Candidate>, at: int, fault: Fault)

  function DriversIn(cs: seq<Candidate>): seq<DriverID> {
    if cs == [] then [] else DriversIn(cs[..|cs| - 1]) + [cs[|cs| - 1].driver]
  }

  /** The search ends: it has a positive step, or its first query is refused. */
  predicate Terminating(c: Config) {
    0.0 < StepOf(c.search, c.search.matchRadius) || Refused(c.search, c.search.matchRadius)
  }

  /** Whether the search ends in an error. */
  predicate SearchFails(c: Config, q: Request) {
    q.fault == SearchFault || Refused(c.search, c.search.matchRadius)
  }

  /** The drivers that a request finds, in the order in which they will be asked. */
  function Found(c: Config, s: Redis, q: Request): seq<DriverID>
    requires Terminating(c)
  {
    if Refused(c.search, c.search.matchRadius) then []
    else
      DriversIn(Order(c.search, s.drivers,
        SearchFrom(c.search, s.drivers, q.geo, c.search.matchRadius, c.search.matchLimit, q.at, 0), q.pick))
  }

  /** The guards of a request, in the order in which they are read: no active offer, no candidates waiting, the lock
      free. */
  function Admission(s: Redis, q: Request): Option<Outcome> {
    var k := KeysOf(s, q.ride);
    if q.fault == ActiveFault then Some(ReadFailed)
    else if k.active.Some? then Some(Ignored)
    else if q.fault == CandidatesFault then Some(ReadFailed)
    else if k.candidates != [] then Some(Ignored)
    else if q.fault == LockFault then Some(ReadFailed)
    else if k.locked then Some(Ignored)
    else None
  }

  function Unlock(s: Redis, r: RideID): Redis {
    SetKeys(s, r, KeysOf(s, r).(locked := false))
  }

  /** The keys from which an admitted request starts to send. */
  function Seeded(c: Config, s: Redis, q: Request): Redis
    requires Terminating(c)
  {
    SetKeys(s, q.ride, KeysOf(s, q.ride).(locked := true, candidates := Found(c, s, q)))
  }

  function HandleRequested(c: Config, s: Redis, q: Request, env: Env): SendResult
    requires Terminating(c)
  {
    if Admission(s, q).Some? then SendResult(s, Admission(s, q).value, [], [])
    else if SearchFails(c, q) then
      SendResult(SetKeys(s, q.ride, KeysOf(s, q.ride).(locked := true)), ReadFailed, [], [])
    else if Found(c, s, q) == [] then SendResult(Unlock(s, q.ride), GaveUp, [CancelCall(q.ride)], [])
    else
      var result := SendNext(c, Seeded(c, s, q), q.ride, env);
      if Failed(result, env) then result.(redis := Unlock(result.redis, q.ride)) else result
  }

  function CoolDown(c: Config, s: Redis, driver: Option<DriverID>, now: int): Redis {
    if driver.Some? && 0 < c.cooldown
    then s.(drivers := s.drivers.(cooldown := s.drivers.cooldown[driver.value := now + c.cooldown])) else s
  }

  /** A declined or expired offer: the driver cools down, and if the offer was the active one the next driver is asked.
      */
  function HandleCompletion(
      c: Config, s: Redis, r: RideID, o: OfferID, driver: Option<DriverID>, at: int, activeFails: bool, env: Env):
      SendResult
  {
    var t := CoolDown(c, s, driver, at);
    var k := KeysOf(t, r);
    if activeFails then SendResult(t, ReadFailed, [], [])
    else if k.active == None || k.active.value.offer != o then SendResult(t, Ignored, [], [])
    else SendNext(c, SetKeys(t, r, k.(active := None)), r, env)
  }

  function HandleAccepted(s: Redis, r: RideID): Redis {
    Clear(s, r)
  }

  // ---------- The Redis adapter ----------

  class DriverRepo {
    var rides: map<RideID, RideKeys>
    var offered: map<DriverID, Option<int>>
    var available: set<DriverID>
    var cooldown: map<DriverID, int>
    var lastOffer: map<DriverID, int>

    function Value(): Redis
      reads this
    {
      Redis(rides, offered, Drivers(available, cooldown, lastOffer))
    }

    constructor ()
      ensures Value() == Redis(map[], map[], Drivers({}, map[], map[]))
    {
      rides, offered, available, cooldown, lastOffer := map[], map[], {}, map[], map[];
    }

    function Keys(r: RideID): RideKeys
      reads this`rides
    {
      if r in rides then rides[r] else NO_KEYS
    }

    method UpdateStatus(d: DriverID, online: bool)
      modifies this`available
      ensures available == if online then old(available) + {d} else old(available) - {d}
    {
      available := if online then available + {d} else available - {d};
    }

    method MarkOfferSent(d: DriverID, ttl: int, now: int)
      modifies this`offered, this`available
      ensures offered == old(offered)[d := if 0 < ttl then Some(now + ttl) else None]
      ensures available == old(available) - {d}
    {
      offered := offered[d := None];
      if ttl > 0 {
        offered := offered[d := Some(now + ttl)];
      }
      available := available - {d};
    }

    method SetCooldown(d: DriverID, ttl: int, now: int)
      modifies this`cooldown
      ensures cooldown == if ttl <= 0 then old(cooldown) else old(cooldown)[d := now + ttl]
    {
      if ttl > 0 {
        cooldown := cooldown[d := now + ttl];
      }
    }

    /** SETNX: fails if somebody holds the lock. */
    method AcquireRideLock(r: RideID) returns (ok: bool)
      modifies this`rides
      ensures ok == !old(Keys(r)).locked
      ensures rides == if ok then old(rides)[r := old(Keys(r)).(locked := true)] else old(rides)
    {
      ok := !Keys(r).locked;
      if ok {
        rides := rides[r := Keys(r).(locked := true)];
      }
    }

    method ReleaseRideLock(r: RideID)
      modifies this`rides
      ensures rides == old(rides)[r := old(Keys(r)).(locked := false)]
    {
      rides := rides[r := Keys(r).(locked := false)];
    }

    method StoreRideCandidates(r: RideID, drivers: seq<DriverID>)
      modifies this`rides
      ensures rides == if drivers == [] then old(rides) else old(rides)[r := old(Keys(r)).(candidates := drivers)]
    {
      if drivers != [] {
        rides := rides[r := Keys(r).(candidates := drivers)];
      }
    }

    method PopRideCandidate(r: RideID) returns (d: Option<DriverID>)
      modifies this`rides
      ensures d == if old(Keys(r)).candidates == [] then None else Some(old(Keys(r)).candidates[0])
      ensures rides == if d == None then old(rides)
                       else old(rides)[r := old(Keys(r)).(candidates := old(Keys(r)).candidates[1..])]
    {
      if Keys(r).candidates == [] {
        return None;
      }
      d := Some(Keys(r).candidates[0]);
      rides := rides[r := Keys(r).(candidates := Keys(r).candidates[1..])];
    }

    method SetActiveOffer(r: RideID, o: OfferID, d: DriverID)
      modifies this`rides
      ensures rides == old(rides)[r := old(Keys(r)).(active := Some(Active(o, d)))]
    {
      rides := rides[r := Keys(r).(active := Some(Active(o, d)))];
    }

    method ClearActiveOffer(r: RideID)
      modifies this`rides
      ensures rides == old(rides)[r := old(Keys(r)).(active := None)]
    {
      rides := rides[r := Keys(r).(active := None)];
    }

    method SetLastOfferAt(d: DriverID, now: int)
      modifies this`lastOffer
      ensures lastOffer == old(lastOffer)[d := now]
    {
      lastOffer := lastOffer[d := now];
    }

    method IncrementOfferCount(r: RideID)
      modifies this`rides
      ensures rides == old(rides)[r := old(Keys(r)).(count := old(Keys(r)).count + 1)]
    {
      rides := rides[r := Keys(r).(count := Keys(r).count + 1)];
    }

    method ClearRide(r: RideID)
      modifies this`rides
      ensures rides == old(rides)[r := NO_KEYS]
    {
      rides := rides[r := NO_KEYS];
    }
  }

  // ---------- The service ----------

  class Service {
    const config: Config
    const repo: DriverRepo
    var calls: seq<Call>

    constructor (config: Config, repo: DriverRepo)
      ensures this.config == config && this.repo == repo && calls == []
    {
      this.config, this.repo, this.calls := config, repo, [];
    }

    method CancelRide(r: RideID)
      modifies this
      ensures calls == old(calls) + [CancelCall(r)]
    {
      calls := calls + [CancelCall(r)];
    }

    /** Nobody is left, or the limit is reached. */
    method GiveUp(r: RideID)
      modifies this, repo
      ensures repo.Value() == Clear(old(repo.Value()), r) && calls == old(calls) + [CancelCall(r)]
    {
      repo.ReleaseRideLock(r);
      repo.ClearRide(r);
      CancelRide(r);
    }

    method RecordSent(r: RideID, d: DriverID, o: OfferID, now: int)
      modifies repo
      ensures repo.Value() == MarkSent(config, old(repo.Value()), r, d, o, now)
    {
      repo.MarkOfferSent(d, config.offerTTL, now);
      repo.SetActiveOffer(r, o, d);
      repo.SetLastOfferAt(d, now);
      repo.IncrementOfferCount(r);
    }

    /** One turn of the retry loop. It either settles the send or leaves it to the next turn. */
    method TryOnce(r: RideID, a: Attempt) returns (settled: Option<Outcome>, ghost popped: seq<DriverID>)
      modifies this, repo
      ensures var next := Turn(config, old(repo.Value()), r, a);
              && repo.Value() == next.redis && calls == old(calls) + next.calls && popped == next.popped
              && settled == if next.outcome == OutOfRetries then None else Some(next.outcome)
    {
      popped := [];
      if a.popFails {
        return Some(ReadFailed), [];
      }
      var d := repo.PopRideCandidate(r);
      if d == None {
        GiveUp(r);
        return Some(GaveUp), [];
      }
      popped := [d.value];
      if config.maxOffers > 0 {
        if a.countFails {
          return Some(ReadFailed), popped;
        }
        if repo.Keys(r).count >= config.maxOffers {
          GiveUp(r);
          return Some(GaveUp), popped;
        }
      }
      if a.existsFails {
        return Some(ReadFailed), popped;
      }
      if HasOffer(repo.Value(), d.value, a.at) {
        return None, popped;
      }
      calls := calls + [CreateCall(r, d.value, a.at, a.reply)];
      if a.reply == None {
        return None, popped;
      }
      RecordSent(r, d.value, a.reply.value, a.at + a.delay);
      return Some(Sent(a.reply.value, d.value)), popped;
    }

    method SendNextOffer(r: RideID, env: Env) returns (outcome: Outcome, ghost popped: seq<DriverID>)
      requires Fits(config, env)
      modifies this, repo
      ensures var next := SendNext(config, old(repo.Value()), r, env);
              && repo.Value() == next.redis && outcome == next.outcome
              && calls == old(calls) + next.calls && popped == next.popped
    {
      popped := [];
      if env.activeFails {
        return ReadFailed, [];
      }
      if repo.Keys(r).active.Some? {
        return AlreadyActive, [];
      }
      ghost var start, keys := repo.Value(), repo.Value();
      assert env.attempts[0..] == env.attempts;
      assert [] + Try(config, start, r, env.attempts).popped == Try(config, start, r, env.attempts).popped;
      for attempt := 0 to config.Retries()
        invariant repo.Value() == keys
        invariant Try(config, start, r, env.attempts).After(old(calls), [])
                  == Try(config, keys, r, env.attempts[attempt..]).After(calls, popped)
      {
        TryUnfolds(config, keys, r, env.attempts, attempt, calls, popped);
        var settled, taken := TryOnce(r, env.attempts[attempt]);
        keys, popped := Turn(config, keys, r, env.attempts[attempt]).redis, popped + taken;
        if settled.Some? {
          return settled.value, popped;
        }
      }
      return OutOfRetries, popped;
    }

    method SeedCandidates(r: RideID, found: seq<Candidate>)
      requires found != []
      modifies repo
      ensures var before := old(repo.Value());
              repo.Value() == SetKeys(before, r, KeysOf(before, r).(candidates := DriversIn(found)))
    {
      var drivers := [];
      for i := 0 to |found|
        invariant drivers == DriversIn(found[..i]) && |drivers| == i
      {
        assert found[..i + 1][..i] == found[..i];
        drivers := drivers + [found[i].driver];
      }
      assert found[..|found|] == found;
      repo.StoreRideCandidates(r, drivers);
    }

    /** The guards of a request: refused, or admitted with the lock taken. */
    method Admit(q: Request) returns (refused: Option<Outcome>)
      modifies repo`rides
      ensures refused == Admission(old(repo.Value()), q)
      ensures var before := old(repo.Value());
              repo.Value() == if refused.Some? then before
                              else SetKeys(before, q.ride, KeysOf(before, q.ride).(locked := true))
    {
      if q.fault == ActiveFault {
        return Some(ReadFailed);
      }
      if repo.Keys(q.ride).active.Some? {
        return Some(Ignored);
      }
      if q.fault == CandidatesFault {
        return Some(ReadFailed);
      }
      if repo.Keys(q.ride).candidates != [] {
        return Some(Ignored);
      }
      if q.fault == LockFault {
        return Some(ReadFailed);
      }
      var locked := repo.AcquireRideLock(q.ride);
      return if locked then None else Some(Ignored);
    }

    /** Handles ride.requested. */
    method HandleRideRequested(q: Request, env: Env) returns (outcome: Outcome, ghost popped: seq<DriverID>)
      requires Terminating(config) && Fits(config, env) && DistinctDrivers(q.geo)
      modifies this, repo
      ensures var next := HandleRequested(config, old(repo.Value()), q, env);
              && repo.Value() == next.redis && outcome == next.outcome
              && calls == old(calls) + next.calls && popped == next.popped
    {
      ghost var start := repo.Value();
      var refused := Admit(q);
      if refused.Some? {
        return refused.value, [];
      }
      if q.fault == SearchFault {
        return ReadFailed, [];
      }
      var search := config.search;
      var ranked := FindCandidates(
        search, repo.Value().drivers, q.geo, search.matchRadius, search.matchLimit, q.at, q.pick);
      if ranked == None {
        return ReadFailed, [];
      }
      var found := ranked.value;
      assert DriversIn(found) == Found(config, start, q);
      if |found| == 0 {
        assert Found(config, start, q) == [];
        repo.ReleaseRideLock(q.ride);
        CancelRide(q.ride);
        return GaveUp, [];
      }
      SeedCandidates(q.ride, found);
      assert repo.Value() == Seeded(config, start, q);
      outcome, popped := SendNextOffer(q.ride, env);
      if outcome == ReadFailed || (outcome == GaveUp && env.cancelFails) {
        repo.ReleaseRideLock(q.ride);
      }
    }

    /** Handles ride.offer.declined and ride.offer.expired. */
    method HandleOfferCompletion(r: RideID, o: OfferID, driver: Option<DriverID>, at: int, activeFails: bool, env: Env)
      returns (outcome: Outcome, ghost popped: seq<DriverID>)
      requires Fits(config, env)
      modifies this, repo
      ensures var next := HandleCompletion(config, old(repo.Value()), r, o, driver, at, activeFails, env);
              && repo.Value() == next.redis && outcome == next.outcome
              && calls == old(calls) + next.calls && popped == next.popped
    {
      if driver.Some? && config.cooldown > 0 {
        repo.SetCooldown(driver.value, config.cooldown, at);
      }
      if activeFails {
        return ReadFailed, [];
      }
      var active := repo.Keys(r).active;
      if active == None || active.value.offer != o {
        return Ignored, [];
      }
      repo.ClearActiveOffer(r);
      outcome, popped := SendNextOffer(r, env);
    }

    /** Handles ride.offer.accepted. */
    method HandleOfferAccepted(r: RideID)
      modifies repo
      ensures repo.Value() == HandleAccepted(old(repo.Value()), r)
    {
      repo.ClearRide(r);
      repo.ReleaseRideLock(r);
    }
  }

  /** The turns left at some point of the retry loop, one of them taken apart. */
  lemma TryUnfolds(
      c: Config, s: Redis, r: RideID, attempts: seq<Attempt>, i: nat, made: seq<Call>, taken: seq<DriverID>)
    requires i < |attempts|
    ensures var once := Turn(c, s, r, attempts[i]);
            Try(c, s, r, attempts[i..]).After(made, taken) ==
            if once.outcome != OutOfRetries then once.After(made, taken)
            else Try(c, once.redis, r, attempts[i + 1..]).After(made + once.calls, taken + once.popped)
  {
    var once := Turn(c, s, r, attempts[i]);
    assert attempts[i..][1..] == attempts[i + 1..];
    if once.outcome == OutOfRetries {
      var tail := Try(c, once.redis, r, attempts[i + 1..]);
      assert made + (once.calls + tail.calls) == (made + once.calls) + tail.calls;
      assert taken + (once.popped + tail.popped) == (taken + once.popped) + tail.popped;
    }
  }
}
