/** Redelivered outcomes in the protocol of both services: how often an offer makes its ride go on, what a repeated
    idempotency key does to that, and what a late decline of one ride does to another. */
module OfferAdvances {
  import opened Options
  import opened RideDomain
  import opened RideService
  import opened Candidates
  import opened MatchingService
  import opened MatchingRuns
  import opened Redelivery
  import opened OfferProtocol
  import opened LateRequests

  /** A delivery of the offer's outcome that makes the ride go on to its next driver. */
  predicate Advancing(s: Redis, step: Step, r: RideID, o: OfferID) {
    step.Completed? && step.ride == r && step.offer == o && !step.activeFails && !Stale(s, step)
  }

  function AdvancesIn(c: Config, start: System, moves: seq<Move>, r: RideID, o: OfferID): nat
    requires Terminating(c)
  {
    if moves == [] then 0
    else
      var before, last := moves[..|moves| - 1], moves[|moves| - 1];
      AdvancesIn(c, start, before, r, o)
      + if last.Match? && Advancing(Run(c, start, before).redis, last.step, r, o) then 1 else 0
  }

  predicate KeyUsed(db: DB, key: Key) {
    key.Some? && key.value in db.keys
  }

  predicate Sends(c: Config, w: System, m: Move, r: RideID, o: OfferID)
    requires Terminating(c)
  {
    m.Match? && RideOf(m.step) == r
    && Do(c, w.redis, m.step).outcome.Sent? && Do(c, w.redis, m.step).outcome.offer == o
  }

  /** The moves whose CreateOffer is answered with the offer from the key table. */
  function ReplaysIn(c: Config, start: System, moves: seq<Move>, r: RideID, o: OfferID): nat
    requires Terminating(c)
  {
    if moves == [] then 0
    else
      var before, last := moves[..|moves| - 1], moves[|moves| - 1];
      var w := Run(c, start, before);
      ReplaysIn(c, start, before, r, o) + if Sends(c, w, last, r, o) && KeyUsed(w.db, last.key) then 1 else 0
  }

  // ---------- What one move does ----------

  lemma {:induction false} TryCreates(c: Config, s: Redis, x: RideID, attempts: seq<Attempt>, r: RideID, o: OfferID)
    ensures var result := Try(c, s, x, attempts);
            Creations(result.calls, r, o)
            <= if x == r && result.outcome.Sent? && result.outcome.offer == o then 1 else 0
    decreases |attempts|
  {
    if attempts == [] {
    } else {
      var once := Turn(c, s, x, attempts[0]);
      if once.calls != [] {
        assert once.calls[..|once.calls| - 1] == [];
      }
      if once.outcome == OutOfRetries {
        TryCreates(c, once.redis, x, attempts[1..], r, o);
        CreationsConcat(once.calls, Try(c, once.redis, x, attempts[1..]).calls, r, o);
      }
    }
  }

  lemma StepCreates(c: Config, s: Redis, step: Step, r: RideID, o: OfferID)
    requires Terminating(c)
    ensures var result := Do(c, s, step);
            Creations(result.calls, r, o)
            <= if RideOf(step) == r && result.outcome.Sent? && result.outcome.offer == o then 1 else 0
  {
    assert [CancelCall(RideOf(step))][..0] == [];
    if step.Requested? {
      TryCreates(c, Seeded(c, s, step.q), step.q.ride, step.env.attempts, r, o);
    } else if step.Completed? {
      TryCreates(c, Reopened(c, s, step.ride, step.driver, step.at), step.ride, step.env.attempts, r, o);
    }
  }

  /** A send is answered with a new offer, under the identifier asked for, if and only if its key is unused;
      under a used key it is answered with the stored, older offer, and the database stays as it is. */
  lemma NewOfferIffKeyIsUnused(c: Config, w: System, m: Move, r: RideID, o: OfferID)
    requires Terminating(c) && Enabled(c, w, m) && Sends(c, w, m, r, o)
    ensures !KeyUsed(w.db, m.key) <==> o == m.id && o !in w.db.offers && o in Next(c, w, m).db.offers
    ensures KeyUsed(w.db, m.key) ==>
              Next(c, w, m).db == w.db && w.db.keys[m.key.value].OfferReply? && w.db.keys[m.key.value].offer.id == o
  {
    assert Creation(c, w, m, Do(c, w.redis, m.step).outcome.driver).1.Ok?;
  }

  function Exists(db: DB, o: OfferID): nat {
    if o in db.offers then 1 else 0
  }

  lemma MoveBalances(c: Config, w: System, m: Move, r: RideID, o: OfferID)
    requires Terminating(c) && Sound(w.db) && Enabled(c, w, m)
    ensures var after := Next(c, w, m);
            (if m.Match? && Advancing(w.redis, m.step, r, o) then 1 else 0)
            + IsActive(after.redis, r, o) + Exists(w.db, o)
            <= IsActive(w.redis, r, o) + Exists(after.db, o)
               + if Sends(c, w, m, r, o) && KeyUsed(w.db, m.key) then 1 else 0
  {
    MoveSettles(c, w, m);
    if m.Match? {
      assert [m.step][1..] == [];
      StepBalances(c, w.redis, m.step, r, o);
      StepCreates(c, w.redis, m.step, r, o);
      if Sends(c, w, m, r, o) {
        NewOfferIffKeyIsUnused(c, w, m, r, o);
      }
    }
  }

  // ---------- How often an offer advances its ride ----------

  /** In every run an offer advances its ride at most once for existing, and once more for each time a used key replayed
      it. */
  lemma {:induction false} AdvancesAreBounded(c: Config, start: System, moves: seq<Move>, r: RideID, o: OfferID)
    requires Terminating(c) && OfferProtocol.IsRun(c, start, moves)
    ensures var w := Run(c, start, moves);
            AdvancesIn(c, start, moves, r, o) + IsActive(w.redis, r, o)
            <= Exists(w.db, o) + ReplaysIn(c, start, moves, r, o)
  {
    if moves == [] {
    } else {
      var before, last := moves[..|moves| - 1], moves[|moves| - 1];
      AdvancesAreBounded(c, start, before, r, o);
      RunIsSound(c, start, before);
      MoveBalances(c, Run(c, start, before), last, r, o);
    }
  }

  predicate WithoutKeys(moves: seq<Move>) {
    forall i :: 0 <= i < |moves| && moves[i].Match? ==> moves[i].key == None
  }

  lemma {:induction false} NothingIsReplayed(c: Config, start: System, moves: seq<Move>, r: RideID, o: OfferID)
    requires Terminating(c) && WithoutKeys(moves)
    ensures ReplaysIn(c, start, moves, r, o) == 0
  {
    if moves == [] {
    } else {
      var before := moves[..|moves| - 1];
      assert WithoutKeys(before);
      NothingIsReplayed(c, start, before, r, o);
    }
  }

  /** Each offer advances its ride at most once, however often and in whatever order its outcome is delivered. */
  lemma OfferAdvancesRideOnce(c: Config, start: System, moves: seq<Move>, r: RideID, o: OfferID)
    requires Terminating(c) && OfferProtocol.IsRun(c, start, moves) && WithoutKeys(moves)
    ensures AdvancesIn(c, start, moves, r, o) <= 1
    ensures o !in Run(c, start, moves).db.offers || IsActive(Run(c, start, moves).redis, r, o) == 1 ==>
              AdvancesIn(c, start, moves, r, o) == 0
  {
    AdvancesAreBounded(c, start, moves, r, o);
    NothingIsReplayed(c, start, moves, r, o);
  }

  // ---------- What a used key does ----------

  predicate OutcomeAnnounced(log: seq<Event>, r: RideID, o: OfferID) {
    AnnouncedOffer(log, OfferDeclined, r, o) || AnnouncedOffer(log, OfferExpired, r, o)
  }

  /** Right after a send, an event that is already there can advance the ride again if and only if the send was answered
      under a used key with an offer whose outcome had been announced. */
  lemma OldOutcomeAdvancesIffReplayed(c: Config, w: System, m: Move, again: Step, r: RideID, o: OfferID)
    requires Terminating(c) && Sound(w.db) && Enabled(c, w, m) && Sends(c, w, m, r, o)
    requires again.Completed? && again.ride == r && again.offer == o && !again.activeFails
    ensures var after := Next(c, w, m);
            && Advancing(after.redis, again, r, o)
            && (Deliverable(after.db.outbox, again) <==> KeyUsed(w.db, m.key) && OutcomeAnnounced(w.db.outbox, r, o))
  {
    var after := Next(c, w, m);
    ActiveAfter(c, w.redis, m.step, r);
    NewOfferIffKeyIsUnused(c, w, m, r, o);
    if !KeyUsed(w.db, m.key) {
      MoveSettles(c, w, m);
      assert after.db.offers[o].status == Pending;
      forall i | 0 <= i < |after.db.outbox|
        ensures !TellsOffer(after.db.outbox[i], OfferDeclined, r, o)
        ensures !TellsOffer(after.db.outbox[i], OfferExpired, r, o)
      {
        assert IsTrue(after.db.offers, after.db.outbox[i]);
      }
    }
  }
}
