/** Runs of the matching service: which drivers a ride's offers go to, in which order, and how many there are. */
module MatchingRuns {
  import opened Options
  import opened Sequences
  import opened RideDomain
  import opened Candidates
  import opened MatchingService
  import opened MatchingSends

  /** One handled event or call, or a key of a ride that expires. Every step is atomic. */
  datatype Step =
    | Requested(q: Request, env: Env)
    | Completed(ride: RideID, offer: OfferID, driver: Option<DriverID>, at: int, activeFails: bool, env: Env)
    | Accepted(ride: RideID)
    | StatusChanged(who: DriverID, online: bool)
    | Notified(who: DriverID, at: int)
    | CandidatesVanish(ride: RideID)
    | ActiveVanish(ride: RideID)
    | CountVanish(ride: RideID)
    | LockVanish(ride: RideID)

  function Mark(c: Config, s: Redis, d: DriverID, now: int): Redis {
    s.(offered := s.offered[d := if 0 < c.offerTTL then Some(now + c.offerTTL) else None],
       drivers := s.drivers.(available := s.drivers.available - {d}))
  }

  function Quiet(s: Redis): SendResult {
    SendResult(s, Ignored, [], [])
  }

  function Do(c: Config, s: Redis, step: Step): SendResult
    requires Terminating(c)
  {
    match step
    case Requested(q, env) => HandleRequested(c, s, q, env)
    case Completed(r, o, d, at, fails, env) => HandleCompletion(c, s, r, o, d, at, fails, env)
    case Accepted(r) => Quiet(HandleAccepted(s, r))
    case StatusChanged(d, online) =>
      var available := s.drivers.available;
      Quiet(s.(drivers := s.drivers.(available := if online then available + {d} else available - {d})))
    case Notified(d, at) => Quiet(Mark(c, s, d, at))
    case CandidatesVanish(r) => Quiet(SetKeys(s, r, KeysOf(s, r).(candidates := [])))
    case ActiveVanish(r) => Quiet(SetKeys(s, r, KeysOf(s, r).(active := None)))
    case CountVanish(r) => Quiet(SetKeys(s, r, KeysOf(s, r).(count := 0)))
    case LockVanish(r) => Quiet(Unlock(s, r))
  }

  /** What the outside world guarantees: a retry loop can always take its turns, and a position set has one entry per
      driver. */
  predicate Possible(c: Config, step: Step) {
    && (step.Requested? ==> Fits(c, step.env) && DistinctDrivers(step.q.geo))
    && (step.Completed? ==> Fits(c, step.env))
  }

  predicate IsRun(c: Config, steps: seq<Step>) {
    forall i :: 0 <= i < |steps| ==> Possible(c, steps[i])
  }

  function End(c: Config, d: Drivers, steps: seq<Step>): Redis
    requires Terminating(c)
  {
    if steps == [] then Redis(map[], map[], d)
    else Do(c, End(c, d, steps[..|steps| - 1]), steps[|steps| - 1]).redis
  }

  // ---------- The history of one ride ----------

  /** The list last seeded for a ride, the part of it taken since, the drivers offered since,
      and those offered since the ride's keys were last cleared. */
  datatype History = History(
      seeded: seq<DriverID>, taken: seq<DriverID>, offered: seq<DriverID>, sinceClear: seq<DriverID>)

  predicate Seeds(c: Config, s: Redis, q: Request)
    requires Terminating(c)
  {
    Admission(s, q) == None && !SearchFails(c, q) && Found(c, s, q) != []
  }

  function SinceClear(h: History, result: SendResult): seq<DriverID> {
    if result.outcome == GaveUp then [] else h.sinceClear + Created(result.calls)
  }

  function Record(c: Config, s: Redis, r: RideID, h: History, step: Step): History
    requires Terminating(c)
  {
    var result := Do(c, s, step);
    if step.Requested? && step.q.ride == r && Seeds(c, s, step.q) then
      History(Found(c, s, step.q), result.popped, Created(result.calls), SinceClear(h, result))
    else if step.Completed? && step.ride == r then
      History(h.seeded, h.taken + result.popped, h.offered + Created(result.calls), SinceClear(h, result))
    else if step == Step.Accepted(r) then h.(sinceClear := [])
    else h
  }

  function HistoryOf(c: Config, d: Drivers, steps: seq<Step>, r: RideID): History
    requires Terminating(c)
  {
    if steps == [] then History([], [], [], [])
    else
      var before := steps[..|steps| - 1];
      Record(c, End(c, d, before), r, HistoryOf(c, d, before, r), steps[|steps| - 1])
  }

  // ---------- Order without repetition ----------

  /** xs can be had from ys by leaving elements out. */
  predicate InOrder(xs: seq<DriverID>, ys: seq<DriverID>)
    decreases |ys|
  {
    || xs == []
    || (&& ys != []
        && (|| InOrder(xs, ys[..|ys| - 1])
            || (xs[|xs| - 1] == ys[|ys| - 1] && InOrder(xs[..|xs| - 1], ys[..|ys| - 1]))))
  }

  lemma {:induction false} InOrderMembers(xs: seq<DriverID>, ys: seq<DriverID>)
    requires InOrder(xs, ys)
    ensures forall x :: x in xs ==> x in ys
    decreases |ys|
  {
    if xs == [] {
    } else {
      var init := ys[..|ys| - 1];
      assert ys == init + [ys[|ys| - 1]];
      if InOrder(xs, init) {
        InOrderMembers(xs, init);
      } else {
        InOrderMembers(xs[..|xs| - 1], init);
        assert xs == xs[..|xs| - 1] + [ys[|ys| - 1]];
      }
    }
  }

  lemma {:induction false} InOrderIsDistinct(xs: seq<DriverID>, ys: seq<DriverID>)
    requires InOrder(xs, ys) && NoRepeats(ys)
    ensures NoRepeats(xs)
    decreases |ys|
  {
    if xs == [] {
    } else {
      var init, last := ys[..|ys| - 1], ys[|ys| - 1];
      if InOrder(xs, init) {
        InOrderIsDistinct(xs, init);
      } else {
        InOrderIsDistinct(xs[..|xs| - 1], init);
        InOrderMembers(xs[..|xs| - 1], init);
        forall i, j | 0 <= i < j < |xs|
          ensures xs[i] != xs[j]
        {
          assert xs[i] in xs[..|xs| - 1];
          assert xs[i] in init;
          if j < |xs| - 1 {
            assert xs[j] == xs[..|xs| - 1][j] && xs[i] == xs[..|xs| - 1][i];
          } else {
            assert last !in init;
          }
        }
      }
    }
  }

  lemma {:induction false} InOrderMore(xs: seq<DriverID>, ys: seq<DriverID>, more: seq<DriverID>)
    requires InOrder(xs, ys)
    ensures InOrder(xs, ys + more)
  {
    if more == [] {
      assert ys + more == ys;
    } else {
      var init := more[..|more| - 1];
      InOrderMore(xs, ys, init);
      assert (ys + more)[..|ys + more| - 1] == ys + init;
    }
  }

  /** Appending what was taken to one and at most its last element to the other keeps the order. */
  lemma InOrderGrows(xs: seq<DriverID>, ys: seq<DriverID>, taken: seq<DriverID>, created: seq<DriverID>)
    requires InOrder(xs, ys)
    requires created == [] || (taken != [] && created == [taken[|taken| - 1]])
    ensures InOrder(xs + created, ys + taken)
  {
    if created == [] {
      assert xs + created == xs;
      InOrderMore(xs, ys, taken);
    } else {
      var init := taken[..|taken| - 1];
      InOrderMore(xs, ys, init);
      assert (ys + taken)[..|ys + taken| - 1] == ys + init;
      assert (xs + created)[..|xs + created| - 1] == xs;
    }
  }

  // ---------- Seeds are distinct ----------

  lemma {:induction false} CountsOnce(cs: seq<Candidate>, x: Candidate)
    requires DistinctDrivers(cs)
    ensures multiset(cs)[x] <= 1
    ensures multiset(cs)[x] == 1 <==> x in cs
  {
    if cs == [] {
    } else {
      var init, last := cs[..|cs| - 1], cs[|cs| - 1];
      CountsOnce(init, x);
      assert cs == init + [last];
      assert last !in init;
    }
  }

  lemma CountsTwice(cs: seq<Candidate>, i: nat, j: nat)
    requires i < j < |cs| && cs[i] == cs[j]
    ensures 2 <= multiset(cs)[cs[i]]
  {
    assert cs == cs[..j] + cs[j..];
    assert cs[..j][i] == cs[i] && cs[j..][0] == cs[i];
    assert multiset(cs[..j])[cs[i]] >= 1 && multiset(cs[j..])[cs[i]] >= 1;
  }

  lemma PermutationIsDistinct(a: seq<Candidate>, b: seq<Candidate>)
    requires multiset(a) == multiset(b) && DistinctDrivers(a)
    ensures DistinctDrivers(b)
  {
    forall i, j | 0 <= i < j < |b|
      ensures b[i].driver != b[j].driver
    {
      assert b[i] in multiset(b) && b[j] in multiset(b);
      CountsOnce(a, b[i]);
      if b[i] == b[j] {
        CountsTwice(b, i, j);
      } else {
        assert b[i] in a && b[j] in a;
        var m: nat :| m < |a| && a[m] == b[i];
        var n: nat :| n < |a| && a[n] == b[j];
        assert m < n || n < m;
      }
    }
  }

  lemma {:induction false} DriversInAt(cs: seq<Candidate>)
    ensures |DriversIn(cs)| == |cs| && forall i :: 0 <= i < |cs| ==> DriversIn(cs)[i] == cs[i].driver
  {
    if cs == [] {
    } else {
      DriversInAt(cs[..|cs| - 1]);
    }
  }

  lemma FoundIsDistinct(c: Config, s: Redis, q: Request)
    requires Terminating(c) && DistinctDrivers(q.geo)
    ensures NoRepeats(Found(c, s, q))
  {
    if !Refused(c.search, c.search.matchRadius) {
      var found := SearchFrom(c.search, s.drivers, q.geo, c.search.matchRadius, c.search.matchLimit, q.at, 0);
      SearchFindsDistinctDrivers(c.search, s.drivers, q.geo, c.search.matchRadius, c.search.matchLimit, q.at, 0);
      RankedIsSorted(s.drivers, found);
      PermutationIsDistinct(found, Order(c.search, s.drivers, found, q.pick));
      DriversInAt(Order(c.search, s.drivers, found, q.pick));
    }
  }

  // ---------- What a step sends ----------

  predicate Concerns(step: Step, r: RideID) {
    match step
    case Requested(q, _) => q.ride == r
    case StatusChanged(_, _) => false
    case Notified(_, _) => false
    case _ => step.ride == r
  }

  /** A step leaves every key of the rides it does not name. */
  lemma OtherRidesAreUntouched(c: Config, s: Redis, step: Step, r: RideID)
    requires Terminating(c) && Possible(c, step) && !Concerns(step, r)
    ensures KeysOf(Do(c, s, step).redis, r) == KeysOf(s, r)
  {
    match step
    case Requested(q, env) =>
      var result := SendNext(c, Seeded(c, s, q), q.ride, env);
      TryEnds(c, Seeded(c, s, q), q.ride, env.attempts);
      assert KeysOf(result.redis, r) == KeysOf(s, r);
    case Completed(x, o, d, at, fails, env) =>
      var u := Reopened(c, s, x, d, at);
      TryEnds(c, u, x, env.attempts);
      assert KeysOf(u, r) == KeysOf(s, r);
    case _ =>
  }

  /** The keys from which a completed offer's handler goes on to send. */
  function Reopened(c: Config, s: Redis, r: RideID, d: Option<DriverID>, at: int): Redis {
    var t := CoolDown(c, s, d, at);
    SetKeys(t, r, KeysOf(t, r).(active := None))
  }

  /** Apart from the lock, an admitted request leaves what its send leaves. */
  lemma RequestSends(c: Config, s: Redis, q: Request, env: Env)
    requires Terminating(c) && Seeds(c, s, q)
    ensures var sent, result := SendNext(c, Seeded(c, s, q), q.ride, env), HandleRequested(c, s, q, env);
            && result.outcome == sent.outcome && result.calls == sent.calls && result.popped == sent.popped
            && KeysOf(result.redis, q.ride).(locked := false) == KeysOf(sent.redis, q.ride).(locked := false)
  {
  }

  /** A request that seeds nothing neither sends nor takes anything. */
  lemma RequestIsIgnored(c: Config, s: Redis, q: Request, env: Env)
    requires Terminating(c) && !Seeds(c, s, q)
    ensures KeysOf(HandleRequested(c, s, q, env).redis, q.ride).(locked := false) == KeysOf(s, q.ride).(locked := false)
  {
  }

  // ---------- Sequential offering ----------

  /** The stored list is what is left of the seeded one, and the offers went to drivers taken from it, in order. */
  predicate Sequential(k: RideKeys, h: History) {
    && NoRepeats(h.seeded)
    && h.taken <= h.seeded
    && (k.candidates == [] || k.candidates == h.seeded[|h.taken|..])
    && InOrder(h.offered, h.taken)
  }

  /** What one send does to the list and the history. */
  lemma SendIsSequential(c: Config, s: Redis, r: RideID, env: Env, h: History)
    requires Fits(c, env) && Sequential(KeysOf(s, r), h)
    ensures var result := SendNext(c, s, r, env);
            Sequential(KeysOf(result.redis, r),
                       History(h.seeded, h.taken + result.popped, h.offered + Created(result.calls),
                               SinceClear(h, result)))
  {
    var result := SendNext(c, s, r, env);
    TryEnds(c, s, r, env.attempts);
    InOrderGrows(h.offered, h.taken, result.popped, Created(result.calls));
    if result.popped != [] {
      assert h.seeded == h.taken + KeysOf(s, r).candidates;
      assert h.seeded[|h.taken|..][|result.popped|..] == h.seeded[|h.taken + result.popped|..];
    } else {
      assert h.taken + result.popped == h.taken;
      assert KeysOf(s, r).candidates[0..] == KeysOf(s, r).candidates;
    }
  }

  lemma RequestIsSequential(c: Config, s: Redis, r: RideID, h: History, step: Step)
    requires Terminating(c) && Possible(c, step) && step.Requested? && step.q.ride == r && Sequential(KeysOf(s, r), h)
    ensures Sequential(KeysOf(Do(c, s, step).redis, r), Record(c, s, r, h, step))
  {
    var q, env := step.q, step.env;
    if Seeds(c, s, q) {
      var t, found := Seeded(c, s, q), Found(c, s, q);
      FoundIsDistinct(c, s, q);
      assert found[0..] == found;
      SendIsSequential(c, t, r, env, History(found, [], [], h.sinceClear));
      var sent := SendNext(c, t, r, env);
      assert [] + sent.popped == sent.popped && [] + Created(sent.calls) == Created(sent.calls);
      RequestSends(c, s, q, env);
    } else {
      RequestIsIgnored(c, s, q, env);
    }
  }

  lemma CompletionIsSequential(c: Config, s: Redis, r: RideID, h: History, step: Step)
    requires Terminating(c) && Possible(c, step) && step.Completed? && step.ride == r && Sequential(KeysOf(s, r), h)
    ensures Sequential(KeysOf(Do(c, s, step).redis, r), Record(c, s, r, h, step))
  {
    assert h.taken + [] == h.taken && h.offered + [] == h.offered;
    SendIsSequential(c, Reopened(c, s, r, step.driver, step.at), r, step.env, h);
  }

  lemma StepIsSequential(c: Config, s: Redis, r: RideID, h: History, step: Step)
    requires Terminating(c) && Possible(c, step) && Sequential(KeysOf(s, r), h)
    ensures Sequential(KeysOf(Do(c, s, step).redis, r), Record(c, s, r, h, step))
  {
    if !Concerns(step, r) {
      OtherRidesAreUntouched(c, s, step, r);
    } else if step.Requested? {
      RequestIsSequential(c, s, r, h, step);
    } else if step.Completed? {
      CompletionIsSequential(c, s, r, h, step);
    }
  }

  /** Within one seeding the drivers offered are an in-order part of the ranked list, without repetition,
      and the stored list is always a rest of it. */
  lemma {:induction false} OffersGoInOrder(c: Config, d: Drivers, steps: seq<Step>, r: RideID)
    requires Terminating(c) && IsRun(c, steps)
    ensures var h, k := HistoryOf(c, d, steps, r), KeysOf(End(c, d, steps), r);
            && h.taken <= h.seeded
            && (k.candidates == [] || k.candidates == h.seeded[|h.taken|..])
            && InOrder(h.offered, h.seeded) && NoRepeats(h.offered)
  {
    OffersAreSequential(c, d, steps, r);
    var h := HistoryOf(c, d, steps, r);
    assert h.seeded == h.taken + h.seeded[|h.taken|..];
    InOrderMore(h.offered, h.taken, h.seeded[|h.taken|..]);
    InOrderIsDistinct(h.offered, h.seeded);
  }

  lemma {:induction false} OffersAreSequential(c: Config, d: Drivers, steps: seq<Step>, r: RideID)
    requires Terminating(c) && IsRun(c, steps)
    ensures Sequential(KeysOf(End(c, d, steps), r), HistoryOf(c, d, steps, r))
  {
    if steps == [] {
    } else {
      var before, last := steps[..|steps| - 1], steps[|steps| - 1];
      OffersAreSequential(c, d, before, r);
      StepIsSequential(c, End(c, d, before), r, HistoryOf(c, d, before, r), last);
    }
  }

  // ---------- The offer limit ----------

  /** Without an expiry of its counter, a ride's count is the number of offers since its keys were cleared. */
  predicate Counted(c: Config, k: RideKeys, h: History) {
    k.count == |h.sinceClear| && (0 < c.maxOffers ==> k.count <= c.maxOffers)
  }

  lemma {:induction false} TryStaysWithinLimit(c: Config, s: Redis, r: RideID, attempts: seq<Attempt>)
    ensures Try(c, s, r, attempts).outcome.Sent? && 0 < c.maxOffers ==> KeysOf(s, r).count < c.maxOffers
    decreases |attempts|
  {
    if attempts == [] {
    } else {
      TryStaysWithinLimit(c, Turn(c, s, r, attempts[0]).redis, r, attempts[1..]);
    }
  }

  lemma SendIsCounted(c: Config, s: Redis, r: RideID, env: Env, h: History)
    requires Fits(c, env) && Counted(c, KeysOf(s, r), h)
    ensures var result := SendNext(c, s, r, env);
            Counted(c, KeysOf(result.redis, r), h.(sinceClear := SinceClear(h, result)))
  {
    TryEnds(c, s, r, env.attempts);
    TryStaysWithinLimit(c, s, r, env.attempts);
  }

  lemma RequestIsCounted(c: Config, s: Redis, r: RideID, h: History, step: Step)
    requires Terminating(c) && Possible(c, step) && step.Requested? && step.q.ride == r && Counted(c, KeysOf(s, r), h)
    ensures Counted(c, KeysOf(Do(c, s, step).redis, r), Record(c, s, r, h, step))
  {
    if Seeds(c, s, step.q) {
      SendIsCounted(c, Seeded(c, s, step.q), r, step.env, h);
      RequestSends(c, s, step.q, step.env);
    } else {
      RequestIsIgnored(c, s, step.q, step.env);
    }
  }

  lemma CompletionIsCounted(c: Config, s: Redis, r: RideID, h: History, step: Step)
    requires Terminating(c) && Possible(c, step) && step.Completed? && step.ride == r && Counted(c, KeysOf(s, r), h)
    ensures Counted(c, KeysOf(Do(c, s, step).redis, r), Record(c, s, r, h, step))
  {
    SendIsCounted(c, Reopened(c, s, r, step.driver, step.at), r, step.env, h);
  }

  lemma StepIsCounted(c: Config, s: Redis, r: RideID, h: History, step: Step)
    requires Terminating(c) && Possible(c, step) && step != CountVanish(r) && Counted(c, KeysOf(s, r), h)
    ensures Counted(c, KeysOf(Do(c, s, step).redis, r), Record(c, s, r, h, step))
  {
    if !Concerns(step, r) {
      OtherRidesAreUntouched(c, s, step, r);
    } else if step.Requested? {
      RequestIsCounted(c, s, r, h, step);
    } else if step.Completed? {
      CompletionIsCounted(c, s, r, h, step);
    }
  }

  /** Even across re-seedings, no more offers than the limit go out between two clearings of a ride's keys. */
  lemma {:induction false} OffersStayWithinLimit(c: Config, d: Drivers, steps: seq<Step>, r: RideID)
    requires Terminating(c) && IsRun(c, steps) && CountVanish(r) !in steps
    ensures var h := HistoryOf(c, d, steps, r);
            && KeysOf(End(c, d, steps), r).count == |h.sinceClear|
            && (0 < c.maxOffers ==> |h.sinceClear| <= c.maxOffers)
  {
    if steps == [] {
    } else {
      var before, last := steps[..|steps| - 1], steps[|steps| - 1];
      OffersStayWithinLimit(c, d, before, r);
      StepIsCounted(c, End(c, d, before), r, HistoryOf(c, d, before, r), last);
    }
  }
}
