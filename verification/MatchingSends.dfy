/** What one run of sendNextOffer can end in, told from the keys and the calls alone. */
module MatchingSends {
  import opened Options
  import opened RideDomain
  import opened MatchingService

  /** The drivers whose offers were created, in order. */
  function Created(calls: seq<Call>): seq<DriverID> {
    if calls == [] then []
    else
      var c := calls[|calls| - 1];
      Created(calls[..|calls| - 1]) + if c.CreateCall? && c.reply.Some? then [c.driver] else []
  }

  function Cancels(calls: seq<Call>): nat {
    if calls == [] then 0
    else Cancels(calls[..|calls| - 1]) + if calls[|calls| - 1].CancelCall? then 1 else 0
  }

  lemma {:induction false} CreatedConcat(a: seq<Call>, b: seq<Call>)
    ensures Created(a + b) == Created(a) + Created(b)
    ensures Cancels(a + b) == Cancels(a) + Cancels(b)
  {
    if b == [] {
      assert a + b == a;
    } else {
      var init := b[..|b| - 1];
      assert (a + b)[..|a + b| - 1] == a + init;
      CreatedConcat(a, init);
    }
  }

  // ---------- The four ways to return without an error ----------

  predicate WasActive(s: Redis, r: RideID, result: SendResult) {
    KeysOf(s, r).active.Some? && result.redis == s && result.calls == [] && result.popped == []
  }

  /** Exactly one offer was created, for the last candidate taken, and it is the active one. */
  predicate OfferedOnce(s: Redis, r: RideID, result: SendResult) {
    && result.calls != [] && result.popped != [] && result.popped <= KeysOf(s, r).candidates
    && var last := result.calls[|result.calls| - 1];
    && last.CreateCall? && last.ride == r && last.reply.Some?
    && last.driver == result.popped[|result.popped| - 1]
    && Created(result.calls) == [last.driver] && Cancels(result.calls) == 0
    && KeysOf(result.redis, r) == RideKeys(
         KeysOf(s, r).candidates[|result.popped|..], Some(Active(last.reply.value, last.driver)),
         KeysOf(s, r).count + 1, KeysOf(s, r).locked)
  }

  /** The ride was cancelled once, nothing was created and no key is left. */
  predicate CancelledOnce(r: RideID, result: SendResult) {
    && Created(result.calls) == [] && Cancels(result.calls) == 1
    && result.calls[|result.calls| - 1] == CancelCall(r)
    && KeysOf(result.redis, r) == NO_KEYS
  }

  /** Exactly as many candidates as there are retries were taken, in vain. */
  predicate RanOut(c: Config, s: Redis, r: RideID, result: SendResult) {
    && |result.popped| == (if c.retryMax <= 0 then 1 else c.retryMax) && result.popped <= KeysOf(s, r).candidates
    && Created(result.calls) == [] && Cancels(result.calls) == 0
    && KeysOf(result.redis, r) == KeysOf(s, r).(candidates := KeysOf(s, r).candidates[|result.popped|..])
  }

  function AsNat(b: bool): nat {
    if b then 1 else 0
  }

  /** The candidates taken are the front of the list, and no other ride is touched. */
  ghost predicate TakesFromTheFront(s: Redis, r: RideID, result: SendResult) {
    && result.popped <= KeysOf(s, r).candidates
    && (KeysOf(result.redis, r).candidates == []
        || KeysOf(result.redis, r).candidates == KeysOf(s, r).candidates[|result.popped|..])
    && forall x :: x != r ==> KeysOf(result.redis, x) == KeysOf(s, x)
  }

  /** What the rest of the loop ends in, given that no offer is active. */
  ghost predicate Ends(s: Redis, r: RideID, n: nat, result: SendResult) {
    && TakesFromTheFront(s, r, result)
    && match result.outcome
       case Sent(o, d) => OfferedOnce(s, r, result) && result.calls[|result.calls| - 1].reply == Some(o)
                          && result.calls[|result.calls| - 1].driver == d
       case GaveUp => CancelledOnce(r, result)
       case OutOfRetries =>
         && |result.popped| == n && Created(result.calls) == [] && Cancels(result.calls) == 0
         && KeysOf(result.redis, r) == KeysOf(s, r).(candidates := KeysOf(s, r).candidates[|result.popped|..])
       case ReadFailed =>
         && |result.popped| <= n && Created(result.calls) == [] && Cancels(result.calls) == 0
         && KeysOf(result.redis, r) == KeysOf(s, r).(candidates := KeysOf(s, r).candidates[|result.popped|..])
       case _ => false
  }

  lemma TurnEnds(c: Config, s: Redis, r: RideID, a: Attempt)
    ensures Ends(s, r, 1, Turn(c, s, r, a))
  {
    var result := Turn(c, s, r, a);
    if result.calls != [] {
      assert result.calls[..|result.calls| - 1] == [];
    }
  }

  lemma Follows(s: Redis, t: Redis, r: RideID, n: nat, first: SendResult, rest: SendResult)
    requires Ends(s, r, 1, first) && first.outcome == OutOfRetries && first.redis == t
    requires Ends(t, r, n, rest)
    ensures Ends(s, r, n + 1, rest.After(first.calls, first.popped))
  {
    var whole := rest.After(first.calls, first.popped);
    CreatedConcat(first.calls, rest.calls);
    var all := KeysOf(s, r).candidates;
    assert first.popped == [all[0]] && KeysOf(t, r).candidates == all[1..];
    assert all[1..][|rest.popped|..] == all[|whole.popped|..];
    assert whole.popped <= all;
  }

  lemma {:induction false} TryEnds(c: Config, s: Redis, r: RideID, attempts: seq<Attempt>)
    ensures Ends(s, r, |attempts|, Try(c, s, r, attempts))
    decreases |attempts|
  {
    if attempts == [] {
    } else {
      var once := Turn(c, s, r, attempts[0]);
      TurnEnds(c, s, r, attempts[0]);
      if once.outcome == OutOfRetries {
        TryEnds(c, once.redis, r, attempts[1..]);
        Follows(s, once.redis, r, |attempts| - 1, once, Try(c, once.redis, r, attempts[1..]));
      }
    }
  }

  /** Every return without an error is exactly one of four things. */
  lemma SendIsExactlyOneThing(c: Config, s: Redis, r: RideID, env: Env)
    requires Fits(c, env)
    requires !Failed(SendNext(c, s, r, env), env)
    ensures var result := SendNext(c, s, r, env);
            AsNat(WasActive(s, r, result)) + AsNat(OfferedOnce(s, r, result))
            + AsNat(CancelledOnce(r, result)) + AsNat(RanOut(c, s, r, result)) == 1
  {
    TryEnds(c, s, r, env.attempts);
  }

  /** An error either comes from a read, with the keys as far as they were, or from the cancellation after the keys were
      cleared. */
  lemma SendErrors(c: Config, s: Redis, r: RideID, env: Env)
    requires Fits(c, env)
    requires Failed(SendNext(c, s, r, env), env)
    ensures var result := SendNext(c, s, r, env);
            || (env.cancelFails && CancelledOnce(r, result))
            || (&& result.popped <= KeysOf(s, r).candidates
                && Created(result.calls) == [] && Cancels(result.calls) == 0
                && KeysOf(result.redis, r) == KeysOf(s, r).(candidates := KeysOf(s, r).candidates[|result.popped|..]))
  {
    TryEnds(c, s, r, env.attempts);
  }
}
