/** How close together two offers to the same driver can be, over all rides. */
module DriverExclusivity {
  import opened Options
  import opened RideDomain
  import opened Candidates
  import opened MatchingService
  import opened MatchingRuns

  // ---------- Time ----------

  /** The turns come one after the other, none before `now`. */
  predicate InTime(now: int, attempts: seq<Attempt>)
    decreases |attempts|
  {
    attempts != [] ==> now <= attempts[0].at && InTime(attempts[0].at + attempts[0].delay, attempts[1..])
  }

  function Finish(now: int, attempts: seq<Attempt>): int
    decreases |attempts|
  {
    if attempts == [] then now else Finish(attempts[0].at + attempts[0].delay, attempts[1..])
  }

  predicate StartsBy(now: int, step: Step) {
    match step
    case Requested(q, env) => now <= q.at && InTime(q.at, env.attempts)
    case Completed(_, _, _, at, _, env) => now <= at && InTime(at, env.attempts)
    case Notified(_, at) => now <= at
    case _ => true
  }

  function EndsAt(now: int, step: Step): int {
    match step
    case Requested(q, env) => Finish(q.at, env.attempts)
    case Completed(_, _, _, at, _, env) => Finish(at, env.attempts)
    case Notified(_, at) => at
    case _ => now
  }

  function Clock(start: int, steps: seq<Step>): int {
    if steps == [] then start else EndsAt(Clock(start, steps[..|steps| - 1]), steps[|steps| - 1])
  }

  /** The clock never runs backwards: every step starts after the one before it has ended. */
  predicate Monotone(start: int, steps: seq<Step>) {
    steps == []
    || (Monotone(start, steps[..|steps| - 1]) && StartsBy(Clock(start, steps[..|steps| - 1]), steps[|steps| - 1]))
  }

  lemma {:induction false} FinishIsLater(now: int, attempts: seq<Attempt>)
    requires InTime(now, attempts)
    ensures now <= Finish(now, attempts)
    decreases |attempts|
  {
    if attempts == [] {
    } else {
      FinishIsLater(attempts[0].at + attempts[0].delay, attempts[1..]);
    }
  }

  // ---------- The calls of a run ----------

  function Log(c: Config, d: Drivers, steps: seq<Step>): seq<Call>
    requires Terminating(c)
  {
    if steps == [] then []
    else
      var before := steps[..|steps| - 1];
      Log(c, d, before) + Do(c, End(c, d, before), steps[|steps| - 1]).calls
  }

  predicate Offers(call: Call, d: DriverID) {
    call.CreateCall? && call.reply.Some? && call.driver == d
  }

  /** Any two offers to one driver are at least the time to live apart; without one, there are no two. */
  predicate Spaced(c: Config, log: seq<Call>) {
    forall i, j :: 0 <= i < j < |log| && log[i].CreateCall? && log[i].reply.Some? && Offers(log[j], log[i].driver)
                   ==> 0 < c.offerTTL && log[i].at + c.offerTTL <= log[j].at
  }

  /** The driver's key outlives each of its offers, and no key lives longer than one marked now would. */
  ghost predicate Marked(c: Config, offered: map<DriverID, Option<int>>, now: int, log: seq<Call>) {
    && (forall i :: 0 <= i < |log| && log[i].CreateCall? && log[i].reply.Some? ==>
          && log[i].driver in offered
          && (0 < c.offerTTL ==>
                offered[log[i].driver].Some? && log[i].at + c.offerTTL <= offered[log[i].driver].value))
    && (forall d :: d in offered ==>
          if 0 < c.offerTTL then offered[d].Some? && offered[d].value <= now + c.offerTTL else offered[d] == None)
  }

  ghost predicate Books(c: Config, offered: map<DriverID, Option<int>>, now: int, log: seq<Call>) {
    Spaced(c, log) && Marked(c, offered, now, log)
  }

  lemma Later(c: Config, offered: map<DriverID, Option<int>>, now: int, later: int, log: seq<Call>)
    requires Books(c, offered, now, log) && now <= later
    ensures Books(c, offered, later, log)
  {
  }

  /** Marking a driver again only extends its key. */
  lemma MarkKeepsBooks(c: Config, offered: map<DriverID, Option<int>>, now: int, log: seq<Call>, d: DriverID, at: int)
    requires Books(c, offered, now, log) && now <= at
    ensures Books(c, offered[d := if 0 < c.offerTTL then Some(at + c.offerTTL) else None], at, log)
  {
  }

  /** A call that offers nothing changes nothing. */
  lemma OtherCallKeepsBooks(c: Config, offered: map<DriverID, Option<int>>, now: int, log: seq<Call>, call: Call)
    requires Books(c, offered, now, log) && (call.CreateCall? ==> call.reply == None)
    ensures Books(c, offered, now, log + [call])
  {
  }

  /** An offer to a driver without a key is far enough from all earlier ones, and its own key outlives it. */
  lemma OfferKeepsBooks(
      c: Config, offered: map<DriverID, Option<int>>, now: int, log: seq<Call>,
      r: RideID, d: DriverID, o: OfferID, at: int, delay: nat)
    requires Books(c, offered, now, log) && now <= at
    requires d in offered ==> offered[d].Some? && offered[d].value <= at
    ensures Books(c, offered[d := if 0 < c.offerTTL then Some(at + delay + c.offerTTL) else None], at + delay,
                  log + [CreateCall(r, d, at, Some(o))])
  {
    var call := CreateCall(r, d, at, Some(o));
    var more := log + [call];
    forall i, j | 0 <= i < j < |more| && more[i].CreateCall? && more[i].reply.Some? && Offers(more[j], more[i].driver)
      ensures 0 < c.offerTTL && more[i].at + c.offerTTL <= more[j].at
    {
      assert more[i] == log[i];
      if j < |log| {
        assert more[j] == log[j];
      }
    }
    MarkKeepsBooks(c, offered, now, log, d, at + delay);
  }

  lemma TurnKeepsBooks(c: Config, s: Redis, r: RideID, a: Attempt, now: int, log: seq<Call>)
    requires Books(c, s.offered, now, log) && now <= a.at
    ensures var result := Turn(c, s, r, a); Books(c, result.redis.offered, a.at + a.delay, log + result.calls)
  {
    var result := Turn(c, s, r, a);
    Later(c, s.offered, now, a.at + a.delay, log);
    if result.calls == [] {
      assert log + [] == log;
    } else if result.outcome.Sent? {
      OfferKeepsBooks(c, s.offered, now, log, r, result.outcome.driver, result.outcome.offer, a.at, a.delay);
    } else {
      OtherCallKeepsBooks(c, s.offered, a.at + a.delay, log, result.calls[0]);
    }
  }

  lemma {:induction false} TryKeepsBooks(
      c: Config, s: Redis, r: RideID, attempts: seq<Attempt>, now: int, log: seq<Call>)
    requires Books(c, s.offered, now, log) && InTime(now, attempts)
    ensures var result := Try(c, s, r, attempts);
            Books(c, result.redis.offered, Finish(now, attempts), log + result.calls)
    decreases |attempts|
  {
    if attempts == [] {
      assert log + [] == log;
    } else {
      var a, rest := attempts[0], attempts[1..];
      var once, after := Turn(c, s, r, a), a.at + a.delay;
      TurnKeepsBooks(c, s, r, a, now, log);
      if once.outcome == OutOfRetries {
        TryKeepsBooks(c, once.redis, r, rest, after, log + once.calls);
        var more := Try(c, once.redis, r, rest).calls;
        assert log + once.calls + more == log + (once.calls + more);
      } else {
        FinishIsLater(after, rest);
        Later(c, once.redis.offered, after, Finish(now, attempts), log + once.calls);
      }
    }
  }

  lemma SendKeepsBooks(c: Config, s: Redis, r: RideID, env: Env, now: int, log: seq<Call>)
    requires Books(c, s.offered, now, log) && InTime(now, env.attempts)
    ensures var result := SendNext(c, s, r, env);
            Books(c, result.redis.offered, Finish(now, env.attempts), log + result.calls)
  {
    TryKeepsBooks(c, s, r, env.attempts, now, log);
    FinishIsLater(now, env.attempts);
    Later(c, s.offered, now, Finish(now, env.attempts), log);
    assert log + [] == log;
  }

  lemma StepKeepsBooks(c: Config, s: Redis, step: Step, now: int, log: seq<Call>)
    requires Terminating(c) && Books(c, s.offered, now, log) && StartsBy(now, step)
    ensures var result := Do(c, s, step); Books(c, result.redis.offered, EndsAt(now, step), log + result.calls)
  {
    assert log + [] == log;
    match step
    case Requested(q, env) =>
      Later(c, s.offered, now, q.at, log);
      FinishIsLater(q.at, env.attempts);
      Later(c, s.offered, now, EndsAt(now, step), log);
      if Seeds(c, s, q) {
        SendKeepsBooks(c, Seeded(c, s, q), q.ride, env, q.at, log);
      } else {
        OtherCallKeepsBooks(c, s.offered, EndsAt(now, step), log, CancelCall(q.ride));
      }
    case Completed(x, o, d, at, fails, env) =>
      Later(c, s.offered, now, at, log);
      FinishIsLater(at, env.attempts);
      Later(c, s.offered, now, EndsAt(now, step), log);
      SendKeepsBooks(c, Reopened(c, s, x, d, at), x, env, at, log);
    case Notified(d, at) =>
      MarkKeepsBooks(c, s.offered, now, log, d, at);
    case _ =>
  }

  lemma {:induction false} RunKeepsBooks(c: Config, d: Drivers, start: int, steps: seq<Step>)
    requires Terminating(c) && Monotone(start, steps)
    ensures Books(c, End(c, d, steps).offered, Clock(start, steps), Log(c, d, steps))
  {
    if steps == [] {
    } else {
      var before := steps[..|steps| - 1];
      RunKeepsBooks(c, d, start, before);
      StepKeepsBooks(c, End(c, d, before), steps[|steps| - 1], Clock(start, before), Log(c, d, before));
    }
  }

  /** With a positive time to live, two offers to one driver are at least that far apart, whatever rides they are for;
      without one, a driver is offered at most once, ever. */
  lemma DriverIsAskedOnceAtATime(
      c: Config, d: Drivers, start: int, steps: seq<Step>, log: seq<Call>, i: nat, j: nat, driver: DriverID)
    requires Terminating(c) && Monotone(start, steps) && log == Log(c, d, steps)
    requires i < j < |log| && Offers(log[i], driver) && Offers(log[j], driver)
    ensures 0 < c.offerTTL && log[i].at + c.offerTTL <= log[j].at
  {
    RunKeepsBooks(c, d, start, steps);
  }
}
