/** Two runs of the whole protocol in which an outcome is delivered twice: one in which a repeated idempotency key lets
    an offer advance its ride twice, and one in which a late decline of one ride costs another ride its driver. */
module RepeatedOutcomes {
  import opened Options
  import opened RideDomain
  import opened RideService
  import opened Candidates
  import opened MatchingService
  import opened MatchingRuns
  import MatchingSends
  import opened Redelivery
  import opened OfferProtocol
  import opened LateRequests
  import opened OfferAdvances

  ghost predicate At(c: Config, moves: seq<Move>, w: System)
    requires Terminating(c)
  {
    OfferProtocol.IsRun(c, TwoDrivers(), moves) && Run(c, TwoDrivers(), moves) == w
  }

  /** The move is no request, or its ride has no offer yet. */
  predicate IsFirst(w: System, m: Move) {
    m.Match? && m.step.Requested? ==> forall o :: o in w.db.offers ==> w.db.offers[o].ride != m.step.q.ride
  }

  lemma AtNext(c: Config, moves: seq<Move>, w: System, m: Move)
    requires Terminating(c) && At(c, moves, w) && Enabled(c, w, m)
    ensures At(c, moves + [m], Next(c, w, m))
    ensures AdvancesIn(c, TwoDrivers(), moves + [m], RIDE, FIRST)
            == AdvancesIn(c, TwoDrivers(), moves, RIDE, FIRST)
               + if m.Match? && Advancing(w.redis, m.step, RIDE, FIRST) then 1 else 0
  {
    assert (moves + [m])[..|moves + [m]| - 1] == moves;
  }

  lemma FirstNext(c: Config, moves: seq<Move>, w: System, m: Move)
    requires Terminating(c) && At(c, moves, w) && IsFirst(w, m) && RequestsComeFirst(c, TwoDrivers(), moves)
    ensures RequestsComeFirst(c, TwoDrivers(), moves + [m])
  {
    assert (moves + [m])[..|moves + [m]| - 1] == moves;
  }

  // ---------- An offer that is declined ----------

  const DECLINE := Serve(DeclineOffer(FIRST), None, false)

  function AskWith(c: Config, d: DriverID, key: Key): Move {
    Ask(c, d, FIRST).(key := key)
  }

  /** The decline of the first offer is delivered. */
  function Tell(c: Config, at: int): Move {
    Handle(Step.Completed(RIDE, FIRST, Some(DRIVER), at, false, Willing(c, SECOND, at)), 0)
  }

  function FirstOffer(c: Config): Offer {
    NewOffer(RIDE, DRIVER, c.OfferSeconds(), 0, FIRST)
  }

  function DriverMark(c: Config): map<DriverID, Option<int>> {
    map[DRIVER := if 0 < c.offerTTL then Some(c.offerTTL) else None]
  }

  function KeyTable(c: Config, key: Key): map<nat, Response> {
    if key.Some? then map[key.value := OfferReply(FirstOffer(c))] else map[]
  }

  ghost predicate Stored(c: Config, db: DB, key: Key, status: OfferStatus) {
    && RIDE in db.rides && db.rides.Keys == {RIDE} && db.keys == KeyTable(c, key)
    && db.offers == map[FIRST := FirstOffer(c).(status := status)] && Announced(db.outbox, RideRequested, RIDE)
  }

  ghost predicate Marked(c: Config, s: Redis, cooldown: map<DriverID, int>) {
    s.drivers.available == {OTHER_DRIVER} && s.drivers.cooldown == cooldown && s.offered == DriverMark(c)
    && s.rides.Keys == {RIDE}
  }

  lemma RideIsCreatedFirst(c: Config) returns (w: System)
    requires Terminating(c)
    ensures At(c, [CREATE], w) && RequestsComeFirst(c, TwoDrivers(), [CREATE])
    ensures AdvancesIn(c, TwoDrivers(), [CREATE], RIDE, FIRST) == 0
    ensures w.redis == TwoDrivers().redis && w.db.keys == map[] && w.db.offers == map[] && w.db.rides.Keys == {RIDE}
    ensures Announced(w.db.outbox, RideRequested, RIDE)
  {
    AtNext(c, [], TwoDrivers(), CREATE);
    FirstNext(c, [], TwoDrivers(), CREATE);
    assert [] + [CREATE] == [CREATE];
    w := Next(c, TwoDrivers(), CREATE);
    assert Tells(w.db.outbox[0], RideRequested, RIDE);
  }

  lemma FirstOfferIsStored(c: Config, w: System, key: Key)
    requires Terminating(c) && Do(c, w.redis, AskWith(c, DRIVER, key).step).outcome == Sent(FIRST, DRIVER)
    requires w.db.keys == map[] && w.db.offers == map[] && w.db.rides.Keys == {RIDE}
    requires Announced(w.db.outbox, RideRequested, RIDE)
    ensures var ask := AskWith(c, DRIVER, key);
            Enabled(c, w, ask) && Stored(c, Next(c, w, ask).db, key, Pending)
  {
    AnnouncedGrows(w.db.outbox, Next(c, w, AskWith(c, DRIVER, key)).db.outbox, RideRequested, RIDE);
  }

  lemma FirstOfferIsSent(c: Config, w: System, key: Key)
    requires Terminating(c) && !NeverSearches(c)
    requires w.redis == TwoDrivers().redis && w.db.keys == map[] && w.db.offers == map[] && w.db.rides.Keys == {RIDE}
    requires Announced(w.db.outbox, RideRequested, RIDE)
    ensures var ask := AskWith(c, DRIVER, key);
            && Enabled(c, w, ask)
            && var after := Next(c, w, ask);
            && Stored(c, after.db, key, Pending) && Marked(c, after.redis, map[])
            && KeysOf(after.redis, RIDE) == RideKeys([], Some(Active(FIRST, DRIVER)), 1, true)
  {
    RequestOffers(c, w.redis, RIDE, DRIVER, FIRST, 0);
    FirstOfferIsStored(c, w, key);
  }

  lemma FirstIsAsked(c: Config, key: Key) returns (w: System)
    requires Terminating(c) && !NeverSearches(c)
    ensures At(c, [CREATE, AskWith(c, DRIVER, key)], w)
    ensures RequestsComeFirst(c, TwoDrivers(), [CREATE, AskWith(c, DRIVER, key)])
    ensures AdvancesIn(c, TwoDrivers(), [CREATE, AskWith(c, DRIVER, key)], RIDE, FIRST) == 0
    ensures Stored(c, w.db, key, Pending) && Marked(c, w.redis, map[])
    ensures KeysOf(w.redis, RIDE) == RideKeys([], Some(Active(FIRST, DRIVER)), 1, true)
  {
    var ask := AskWith(c, DRIVER, key);
    var created := RideIsCreatedFirst(c);
    FirstOfferIsSent(c, created, key);
    AtNext(c, [CREATE], created, ask);
    FirstNext(c, [CREATE], created, ask);
    assert [CREATE] + [ask] == [CREATE, ask];
    w := Next(c, created, ask);
  }

  lemma FirstIsDeclined(c: Config, w: System, key: Key)
    requires Terminating(c) && Stored(c, w.db, key, Pending)
    ensures var after := Next(c, w, DECLINE);
            && Enabled(c, w, DECLINE) && Stored(c, after.db, key, Declined) && after.redis == w.redis
            && AnnouncedOffer(after.db.outbox, OfferDeclined, RIDE, FIRST)
  {
    var after := Next(c, w, DECLINE);
    assert TellsOffer(after.db.outbox[|w.db.outbox|], OfferDeclined, RIDE, FIRST);
    AnnouncedGrows(w.db.outbox, after.db.outbox, RideRequested, RIDE);
  }

  /** Nobody is left on the list, so the ride is given up. */
  lemma RideIsGivenUp(c: Config, w: System)
    requires Terminating(c) && AnnouncedOffer(w.db.outbox, OfferDeclined, RIDE, FIRST)
    requires Marked(c, w.redis, map[])
    requires KeysOf(w.redis, RIDE).active.Some? && KeysOf(w.redis, RIDE).active.value.offer == FIRST
    requires KeysOf(w.redis, RIDE).candidates == []
    ensures var after := Next(c, w, Tell(c, 0));
            && Enabled(c, w, Tell(c, 0)) && Advancing(w.redis, Tell(c, 0).step, RIDE, FIRST)
            && after.db == w.db && KeysOf(after.redis, RIDE) == NO_KEYS
            && Marked(c, after.redis, if 0 < c.cooldown then map[DRIVER := c.cooldown] else map[])
  {
    var step := Tell(c, 0).step;
    var s := Reopened(c, w.redis, RIDE, Some(DRIVER), 0);
    assert Turn(c, s, RIDE, step.env.attempts[0]) == SendResult(Clear(s, RIDE), GaveUp, [CancelCall(RIDE)], []);
  }

  function DeclinedAndTold(c: Config, key: Key): seq<Move> {
    [CREATE, AskWith(c, DRIVER, key), DECLINE, Tell(c, 0)]
  }

  /** The ride after its only offer was declined and the decline delivered once. */
  ghost predicate Idle(c: Config, w: System, key: Key) {
    && Stored(c, w.db, key, Declined) && AnnouncedOffer(w.db.outbox, OfferDeclined, RIDE, FIRST)
    && KeysOf(w.redis, RIDE) == NO_KEYS
    && Marked(c, w.redis, if 0 < c.cooldown then map[DRIVER := c.cooldown] else map[])
  }

  lemma OfferIsDeclined(c: Config, key: Key) returns (w: System)
    requires Terminating(c) && !NeverSearches(c)
    ensures At(c, [CREATE, AskWith(c, DRIVER, key), DECLINE], w)
    ensures RequestsComeFirst(c, TwoDrivers(), [CREATE, AskWith(c, DRIVER, key), DECLINE])
    ensures AdvancesIn(c, TwoDrivers(), [CREATE, AskWith(c, DRIVER, key), DECLINE], RIDE, FIRST) == 0
    ensures Stored(c, w.db, key, Declined) && AnnouncedOffer(w.db.outbox, OfferDeclined, RIDE, FIRST)
    ensures Marked(c, w.redis, map[]) && KeysOf(w.redis, RIDE) == RideKeys([], Some(Active(FIRST, DRIVER)), 1, true)
  {
    var moves := [CREATE, AskWith(c, DRIVER, key)];
    var asked := FirstIsAsked(c, key);
    FirstIsDeclined(c, asked, key);
    AtNext(c, moves, asked, DECLINE);
    FirstNext(c, moves, asked, DECLINE);
    assert moves + [DECLINE] == [CREATE, AskWith(c, DRIVER, key), DECLINE];
    w := Next(c, asked, DECLINE);
  }

  lemma DeclineIsDelivered(c: Config, key: Key) returns (w: System)
    requires Terminating(c) && !NeverSearches(c)
    ensures At(c, DeclinedAndTold(c, key), w) && Idle(c, w, key)
    ensures RequestsComeFirst(c, TwoDrivers(), DeclinedAndTold(c, key))
    ensures AdvancesIn(c, TwoDrivers(), DeclinedAndTold(c, key), RIDE, FIRST) == 1
  {
    var moves := [CREATE, AskWith(c, DRIVER, key), DECLINE];
    var declined := OfferIsDeclined(c, key);
    RideIsGivenUp(c, declined);
    AtNext(c, moves, declined, Tell(c, 0));
    FirstNext(c, moves, declined, Tell(c, 0));
    assert moves + [Tell(c, 0)] == DeclinedAndTold(c, key);
    w := Next(c, declined, Tell(c, 0));
  }

  // ---------- A repeated key ----------

  const KEY: Key := Some(0)

  /** The request comes again, under its key, and is answered with the declined offer, whose decline comes again too. */
  function DeclinedTwice(c: Config): seq<Move> {
    DeclinedAndTold(c, KEY) + [AskWith(c, OTHER_DRIVER, KEY)] + [Tell(c, 0)]
  }

  lemma DeclinedOfferIsReplayed(c: Config, w: System)
    requires Terminating(c) && !NeverSearches(c) && Idle(c, w, KEY)
    ensures var ask := AskWith(c, OTHER_DRIVER, KEY);
            && Enabled(c, w, ask) && Next(c, w, ask).db == w.db
            && Advancing(Next(c, w, ask).redis, Tell(c, 0).step, RIDE, FIRST)
            && !Advancing(w.redis, ask.step, RIDE, FIRST)
            && KeysOf(Next(c, w, ask).redis, RIDE).candidates == []
  {
    RequestOffers(c, w.redis, RIDE, OTHER_DRIVER, FIRST, 0);
  }

  lemma TellIsPossible(c: Config, w: System)
    requires Terminating(c) && AnnouncedOffer(w.db.outbox, OfferDeclined, RIDE, FIRST)
    requires KeysOf(w.redis, RIDE).candidates == []
    ensures Enabled(c, w, Tell(c, 0))
  {
    MatchingSends.TryEnds(c, Reopened(c, w.redis, RIDE, Some(DRIVER), 0), RIDE, Tell(c, 0).step.env.attempts);
  }

  /** Under a repeated key one offer advances its ride twice. */
  lemma RepeatedKeyAdvancesTwice(c: Config)
    requires Terminating(c) && !NeverSearches(c)
    ensures OfferProtocol.IsRun(c, TwoDrivers(), DeclinedTwice(c))
    ensures AdvancesIn(c, TwoDrivers(), DeclinedTwice(c), RIDE, FIRST) == 2
  {
    var ask := AskWith(c, OTHER_DRIVER, KEY);
    var w := DeclineIsDelivered(c, KEY);
    DeclinedOfferIsReplayed(c, w);
    AtNext(c, DeclinedAndTold(c, KEY), w, ask);
    var replayed := Next(c, w, ask);
    TellIsPossible(c, replayed);
    AtNext(c, DeclinedAndTold(c, KEY) + [ask], replayed, Tell(c, 0));
  }

  // ---------- A late decline ----------

  const OTHER_RIDE: RideID := 2
  const ONLINE := Handle(StatusChanged(DRIVER, true), 0)
  const CREATE_OTHER := Serve(CreateRide(OTHER_RIDE, 0, 0), None, false)

  /** The driver is back, and another ride has been requested. */
  function Back(c: Config): seq<Move> {
    DeclinedAndTold(c, None) + [ONLINE] + [CREATE_OTHER]
  }

  /** When the driver has cooled down and is free of the first offer. */
  function Later(c: Config): int {
    if c.cooldown < c.offerTTL then c.offerTTL else c.cooldown
  }

  function RequestOther(c: Config): Move {
    Handle(Step.Requested(RequestNear(c, OTHER_RIDE, DRIVER, Later(c)), Willing(c, SECOND, Later(c))), SECOND)
  }

  ghost predicate Ready(c: Config, w: System) {
    && OTHER_RIDE in w.db.rides && w.db.offers == map[FIRST := FirstOffer(c).(status := Declined)]
    && Announced(w.db.outbox, RideRequested, OTHER_RIDE) && AnnouncedOffer(w.db.outbox, OfferDeclined, RIDE, FIRST)
    && KeysOf(w.redis, RIDE) == NO_KEYS && KeysOf(w.redis, OTHER_RIDE) == NO_KEYS
    && DRIVER in w.redis.drivers.available && w.redis.drivers.cooldown == map[DRIVER := c.cooldown]
    && w.redis.offered == DriverMark(c)
  }

  lemma OtherRideIsRequested(c: Config) returns (w: System)
    requires Terminating(c) && !NeverSearches(c) && 0 < c.cooldown
    ensures At(c, Back(c), w) && RequestsComeFirst(c, TwoDrivers(), Back(c)) && Ready(c, w)
  {
    var idle := DeclineIsDelivered(c, None);
    AtNext(c, DeclinedAndTold(c, None), idle, ONLINE);
    FirstNext(c, DeclinedAndTold(c, None), idle, ONLINE);
    var online := Next(c, idle, ONLINE);
    AtNext(c, DeclinedAndTold(c, None) + [ONLINE], online, CREATE_OTHER);
    FirstNext(c, DeclinedAndTold(c, None) + [ONLINE], online, CREATE_OTHER);
    w := Next(c, online, CREATE_OTHER);
    assert Tells(w.db.outbox[|online.db.outbox|], RideRequested, OTHER_RIDE);
    var i :| 0 <= i < |idle.db.outbox| && TellsOffer(idle.db.outbox[i], OfferDeclined, RIDE, FIRST);
    assert w.db.outbox[i] == idle.db.outbox[i];
  }

  /** In time, the request for the other ride offers it to the driver. */
  lemma OtherRideIsOffered(c: Config, w: System)
    requires Terminating(c) && !NeverSearches(c) && 0 < c.cooldown && 0 < c.offerTTL && Ready(c, w)
    ensures Enabled(c, w, RequestOther(c))
    ensures Do(c, w.redis, RequestOther(c).step).calls == [CreateCall(OTHER_RIDE, DRIVER, Later(c), Some(SECOND))]
  {
    RequestOffers(c, w.redis, OTHER_RIDE, DRIVER, SECOND, Later(c));
  }

  /** But if the decline is delivered again just before, the driver cools down again and the other ride is cancelled. */
  lemma OtherRideIsCancelled(c: Config, w: System)
    requires Terminating(c) && !NeverSearches(c) && 0 < c.cooldown && Ready(c, w)
    ensures var tell := Tell(c, Later(c));
            && Enabled(c, w, tell) && Stale(w.redis, tell.step)
            && var after := Next(c, w, tell);
            && Enabled(c, after, RequestOther(c)) && after.db == w.db
            && Do(c, after.redis, RequestOther(c).step).calls == [CancelCall(OTHER_RIDE)]
  {
    var after := Next(c, w, Tell(c, Later(c)));
    OnlyDriverIsFound(c, after.redis, OTHER_RIDE, DRIVER, Later(c));
  }

  /** For every configuration with a cool-down there is a run of the protocol, with every request before its ride's
      first offer, in which a second delivery of a decline makes another ride's first request cancel that ride; without
      the second delivery the request offers the ride to the driver. */
  lemma LateDeclineCancelsAnotherRide(c: Config) returns (w: System)
    requires Terminating(c) && !NeverSearches(c) && 0 < c.cooldown && 0 < c.offerTTL
    ensures At(c, Back(c), w) && Stale(w.redis, Tell(c, Later(c)).step)
    ensures var late, prompt := Back(c) + [Tell(c, Later(c))] + [RequestOther(c)], Back(c) + [RequestOther(c)];
            && OfferProtocol.IsRun(c, TwoDrivers(), late) && RequestsComeFirst(c, TwoDrivers(), late)
            && OfferProtocol.IsRun(c, TwoDrivers(), prompt) && RequestsComeFirst(c, TwoDrivers(), prompt)
    ensures Do(c, Next(c, w, Tell(c, Later(c))).redis, RequestOther(c).step).calls == [CancelCall(OTHER_RIDE)]
    ensures Do(c, w.redis, RequestOther(c).step).calls == [CreateCall(OTHER_RIDE, DRIVER, Later(c), Some(SECOND))]
  {
    w := OtherRideIsRequested(c);
    OtherRideIsOffered(c, w);
    OtherRideIsCancelled(c, w);
    var told := Next(c, w, Tell(c, Later(c)));
    AtNext(c, Back(c), w, RequestOther(c));
    FirstNext(c, Back(c), w, RequestOther(c));
    AtNext(c, Back(c), w, Tell(c, Later(c)));
    FirstNext(c, Back(c), w, Tell(c, Later(c)));
    AtNext(c, Back(c) + [Tell(c, Later(c))], told, RequestOther(c));
    FirstNext(c, Back(c) + [Tell(c, Later(c))], told, RequestOther(c));
  }
}
