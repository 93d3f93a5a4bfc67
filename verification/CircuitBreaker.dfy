/** The gRPC circuit breaker: three states, a failure counter and a clock.
    `fn` runs outside the mutex, so a call admitted in one state may finish in another. */
module CircuitBreaker {

  datatype State = Closed | Open | HalfOpen

  datatype Settings = Settings(
    maxRequests: nat, interval: int, timeout: int, failureRatio: real, minRequests: nat)
  {
    /** A MaxRequests of zero means one. */
    function Quota(): nat {
      if maxRequests == 0 then 1 else maxRequests
    }
  }

  /** The fields that the mutex protects. */
  datatype Fields = Fields(
    state: State,
    requests: nat, failures: nat,
    openedAt: int, intervalStarted: int,
    halfOpenRequests: nat, halfOpenSuccess: nat,
    openCount: nat, halfOpenCount: nat, closedCount: nat, rejectCount: nat)

  function Fresh(now: int): Fields {
    Fields(Closed, 0, 0, 0, now, 0, 0, 0, 0, 0, 0)
  }

  predicate ShouldTrip(s: Settings, f: Fields) {
    && 0 < f.requests
    && s.minRequests <= f.requests
    && 0.0 < s.failureRatio
    && s.failureRatio <= f.failures as real / f.requests as real
  }

  function ResetCounts(f: Fields, now: int): Fields {
    f.(requests := 0, failures := 0, intervalStarted := now)
  }

  function SetState(f: Fields, state: State, now: int): Fields {
    if f.state == state then f
    else match state
      case HalfOpen => f.(state := HalfOpen, halfOpenRequests := 0, halfOpenSuccess := 0,
                          halfOpenCount := f.halfOpenCount + 1)
      case Closed => ResetCounts(f, now).(state := Closed, closedCount := f.closedCount + 1)
      case Open => f.(state := Open, openCount := f.openCount + 1)
  }

  /** What a call sees before `fn` runs: the new fields, and whether it was admitted. */
  function Before(s: Settings, f: Fields, now: int): (Fields, bool) {
    match f.state
    case Open =>
      if 0 < s.timeout && s.timeout <= now - f.openedAt then (SetState(f, HalfOpen, now), true)
      else (f.(rejectCount := f.rejectCount + 1), false)
    case HalfOpen =>
      if s.Quota() <= f.halfOpenRequests then (f.(rejectCount := f.rejectCount + 1), false)
      else (f.(halfOpenRequests := f.halfOpenRequests + 1), true)
    case Closed =>
      (if 0 < s.interval && s.interval <= now - f.intervalStarted then ResetCounts(f, now) else f, true)
  }

  /** What a finished call does to the fields. */
  function After(s: Settings, f: Fields, failed: bool, now: int): Fields {
    var g := f.(requests := f.requests + 1, failures := f.failures + if failed then 1 else 0);
    match g.state
    case HalfOpen =>
      if failed then SetState(g.(openedAt := now), Open, now)
      else
        var h := g.(halfOpenSuccess := g.halfOpenSuccess + 1);
        if s.Quota() <= h.halfOpenSuccess then ResetCounts(SetState(h, Closed, now), now) else h
    case Closed =>
      if ShouldTrip(s, g) then SetState(g.(openedAt := now), Open, now) else g
    case Open => g
  }

  class CircuitBreaker {
    const settings: Settings
    var state: State
    var requests: nat
    var failures: nat
    var openedAt: int
    var intervalStarted: int
    var halfOpenRequests: nat
    var halfOpenSuccess: nat
    var openCount: nat
    var halfOpenCount: nat
    var closedCount: nat
    var rejectCount: nat

    function Value(): Fields
      reads this
    {
      Fields(state, requests, failures, openedAt, intervalStarted, halfOpenRequests, halfOpenSuccess,
             openCount, halfOpenCount, closedCount, rejectCount)
    }

    constructor (settings: Settings, now: int)
      ensures this.settings == settings && Value() == Fresh(now)
    {
      this.settings := settings;
      state := Closed;
      requests, failures, openedAt, intervalStarted := 0, 0, 0, now;
      halfOpenRequests, halfOpenSuccess := 0, 0;
      openCount, halfOpenCount, closedCount, rejectCount := 0, 0, 0, 0;
    }

    method ResetCounters(now: int)
      modifies this
      ensures Value() == ResetCounts(old(Value()), now)
    {
      requests, failures := 0, 0;
      intervalStarted := now;
    }

    method ChangeState(next: State, now: int)
      modifies this
      ensures Value() == SetState(old(Value()), next, now)
    {
      if state == next {
        return;
      }
      state := next;
      if next == HalfOpen {
        halfOpenRequests, halfOpenSuccess := 0, 0;
        halfOpenCount := halfOpenCount + 1;
      }
      if next == Closed {
        ResetCounters(now);
        closedCount := closedCount + 1;
      }
      if next == Open {
        openCount := openCount + 1;
      }
    }

    method BeforeRequest(now: int) returns (admitted: bool)
      modifies this
      ensures (Value(), admitted) == Before(settings, old(Value()), now)
    {
      if state == Open {
        if !(0 < settings.timeout && now - openedAt >= settings.timeout) {
          rejectCount := rejectCount + 1;
          return false;
        }
        ChangeState(HalfOpen, now);
        return true;
      }
      if state == HalfOpen {
        if halfOpenRequests >= settings.Quota() {
          rejectCount := rejectCount + 1;
          return false;
        }
        halfOpenRequests := halfOpenRequests + 1;
        return true;
      }
      if settings.interval > 0 && now - intervalStarted >= settings.interval {
        ResetCounters(now);
      }
      return true;
    }

    method AfterRequest(failed: bool, now: int)
      modifies this
      ensures Value() == After(settings, old(Value()), failed, now)
    {
      requests := requests + 1;
      if failed {
        failures := failures + 1;
      }
      if state == HalfOpen {
        if failed {
          openedAt := now;
          ChangeState(Open, now);
          return;
        }
        halfOpenSuccess := halfOpenSuccess + 1;
        if halfOpenSuccess >= settings.Quota() {
          ChangeState(Closed, now);
          ResetCounters(now);
        }
      } else if state == Closed {
        if ShouldTrip(settings, Value()) {
          openedAt := now;
          ChangeState(Open, now);
        }
      }
    }

    /** One uninterrupted call: `failed` is the outcome of `fn`, which runs between the two readings of the clock. */
    method Execute(failed: bool, begun: int, ended: int) returns (admitted: bool)
      modifies this
      ensures admitted == Before(settings, old(Value()), begun).1
      ensures Value() ==
              var (f, ok) := Before(settings, old(Value()), begun);
              if ok then After(settings, f, failed, ended) else f
    {
      admitted := BeforeRequest(begun);
      if admitted {
        AfterRequest(failed, ended);
      }
    }
  }

  // ---------- Runs: any number of overlapping calls ----------

  type CallId = nat

  /** `inflight` tags each running call with the half-open epoch that admitted it; 0 means it was admitted while Closed.
      */
  datatype World = World(fields: Fields, inflight: map<CallId, nat>, now: int)

  datatype Step =
    | Begin(id: CallId, at: int)
    | End(id: CallId, failed: bool, at: int)

  predicate Enabled(w: World, step: Step) {
    && w.now <= step.at
    && match step
       case Begin(id, _) => id !in w.inflight
       case End(id, _, _) => id in w.inflight
  }

  function Admits(s: Settings, w: World, step: Step): bool {
    step.Begin? && Before(s, w.fields, step.at).1
  }

  function Epoch(f: Fields): nat {
    if f.state == HalfOpen then f.halfOpenCount else 0
  }

  function Next(s: Settings, w: World, step: Step): World
    requires Enabled(w, step)
  {
    match step
    case Begin(id, at) =>
      var (f, admitted) := Before(s, w.fields, at);
      World(f, if admitted then w.inflight[id := Epoch(f)] else w.inflight, at)
    case End(id, failed, at) =>
      World(After(s, w.fields, failed, at), w.inflight - {id}, at)
  }

  ghost predicate IsRun(s: Settings, w: World, steps: seq<Step>)
    decreases |steps|
  {
    steps == [] || (Enabled(w, steps[0]) && IsRun(s, Next(s, w, steps[0]), steps[1..]))
  }

  ghost function Final(s: Settings, w: World, steps: seq<Step>): World
    requires IsRun(s, w, steps)
    decreases |steps|
  {
    if steps == [] then w else Final(s, Next(s, w, steps[0]), steps[1..])
  }

  function Start(now: int): World {
    World(Fresh(now), map[], now)
  }

  /** The running calls that epoch `e` admitted. */
  function CallsOf(inflight: map<CallId, nat>, e: nat): set<CallId> {
    set id | id in inflight && inflight[id] == e
  }

  /** The counters agree with the state, and the breaker is never Closed with counts that should have tripped it. */
  ghost predicate Sound(s: Settings, f: Fields) {
    && (f.state == Closed ==> !ShouldTrip(s, f))
    && f.failures <= f.requests
    && f.openCount == f.halfOpenCount + (if f.state == Open then 1 else 0)
    && f.closedCount + (if f.state == HalfOpen then 1 else 0) <= f.halfOpenCount
  }

  /** In HalfOpen the epoch's unfinished calls cover every admission that no success has paid for. */
  ghost predicate EpochBooks(s: Settings, w: World) {
    && (forall id :: id in w.inflight ==> w.inflight[id] <= w.fields.halfOpenCount)
    && (w.fields.state == HalfOpen ==>
          && w.fields.halfOpenSuccess < s.Quota()
          && w.fields.halfOpenRequests <= s.Quota()
          && 1 + w.fields.halfOpenRequests <= |CallsOf(w.inflight, w.fields.halfOpenCount)| + w.fields.halfOpenSuccess)
  }

  ghost predicate Invariant(s: Settings, w: World) {
    Sound(s, w.fields) && EpochBooks(s, w)
  }

  lemma BeforeIsSound(s: Settings, f: Fields, now: int)
    requires Sound(s, f)
    ensures Sound(s, Before(s, f, now).0)
  {
  }

  lemma AfterIsSound(s: Settings, f: Fields, failed: bool, now: int)
    requires Sound(s, f)
    ensures Sound(s, After(s, f, failed, now))
  {
  }

  /** Admitting one more call adds exactly that call to its epoch and disturbs no other. */
  lemma AdmitOne(inflight: map<CallId, nat>, id: CallId, e: nat)
    requires id !in inflight
    ensures |CallsOf(inflight[id := e], e)| == |CallsOf(inflight, e)| + 1
  {
    assert CallsOf(inflight[id := e], e) == CallsOf(inflight, e) + {id};
  }

  lemma BeginKeepsBooks(s: Settings, w: World, id: CallId, at: int)
    requires Invariant(s, w) && Enabled(w, Begin(id, at))
    ensures EpochBooks(s, Next(s, w, Begin(id, at)))
  {
    var v := Next(s, w, Begin(id, at));
    AdmitOne(w.inflight, id, v.fields.halfOpenCount);
  }

  lemma EndKeepsBooks(s: Settings, w: World, id: CallId, failed: bool, at: int)
    requires Invariant(s, w) && Enabled(w, End(id, failed, at))
    ensures EpochBooks(s, Next(s, w, End(id, failed, at)))
  {
    var v := Next(s, w, End(id, failed, at));
    var e := w.fields.halfOpenCount;
    if v.fields.state == HalfOpen {
      assert CallsOf(v.inflight, e) == CallsOf(w.inflight, e) - {id};
    }
  }

  /** Every reachable world satisfies the invariant, however the calls overlap. */
  lemma {:induction false} RunsKeepInvariant(s: Settings, w: World, steps: seq<Step>)
    requires Invariant(s, w) && IsRun(s, w, steps)
    ensures Invariant(s, Final(s, w, steps))
    decreases |steps|
  {
    if steps == [] {
    } else {
      match steps[0] {
        case Begin(id, at) =>
          BeforeIsSound(s, w.fields, at);
          BeginKeepsBooks(s, w, id, at);
        case End(id, failed, at) =>
          AfterIsSound(s, w.fields, failed, at);
          EndKeepsBooks(s, w, id, failed, at);
      }
      RunsKeepInvariant(s, Next(s, w, steps[0]), steps[1..]);
    }
  }

  /** Counters: in every run, Closed never holds counts that should trip, failures never exceed requests,
      and the three transition counters determine each other up to the present state. */
  lemma CountersAgree(s: Settings, now: int, steps: seq<Step>)
    requires IsRun(s, Start(now), steps)
    ensures Sound(s, Final(s, Start(now), steps).fields)
  {
    RunsKeepInvariant(s, Start(now), steps);
  }

  /** The breaker cannot wedge: a rejection in HalfOpen means two calls of this very epoch have yet to report. */
  lemma RejectionLeavesTwoInFlight(s: Settings, now: int, steps: seq<Step>, at: int)
    requires IsRun(s, Start(now), steps)
    requires Final(s, Start(now), steps).fields.state == HalfOpen
    requires !Before(s, Final(s, Start(now), steps).fields, at).1
    ensures var w := Final(s, Start(now), steps);
            |CallsOf(w.inflight, w.fields.halfOpenCount)| >= 2
  {
    RunsKeepInvariant(s, Start(now), steps);
  }

  /** The number of calls that epoch `e` admits during a run, its opening probe included. */
  ghost function Admissions(s: Settings, w: World, steps: seq<Step>, e: nat): nat
    requires IsRun(s, w, steps)
    decreases |steps|
  {
    if steps == [] then 0
    else
      var v := Next(s, w, steps[0]);
      (if Admits(s, w, steps[0]) && v.inflight[steps[0].id] == e then 1 else 0) + Admissions(s, v, steps[1..], e)
  }

  /** What epoch `e` may still admit. */
  function Allowance(s: Settings, f: Fields, e: nat): nat {
    if f.halfOpenCount < e then s.Quota() + 1
    else if f.state == HalfOpen && e == f.halfOpenCount && f.halfOpenRequests <= s.Quota() then
      s.Quota() - f.halfOpenRequests
    else 0
  }

  lemma {:induction false} AdmissionsWithinAllowance(s: Settings, w: World, steps: seq<Step>, e: nat)
    requires 0 < e && IsRun(s, w, steps)
    ensures Admissions(s, w, steps, e) <= Allowance(s, w.fields, e)
    decreases |steps|
  {
    if steps == [] {
    } else {
      AdmissionsWithinAllowance(s, Next(s, w, steps[0]), steps[1..], e);
    }
  }

  /** One half-open epoch admits its probe and at most Quota() further calls. */
  lemma EpochAdmitsAtMostQuotaPlusProbe(s: Settings, now: int, steps: seq<Step>, e: nat)
    requires 0 < e && IsRun(s, Start(now), steps)
    ensures Admissions(s, Start(now), steps, e) <= s.Quota() + 1
  {
    AdmissionsWithinAllowance(s, Start(now), steps, e);
  }

  /** Every admission in a run happens at `bound` or later. */
  ghost predicate AdmitsFrom(s: Settings, w: World, steps: seq<Step>, bound: int)
    requires IsRun(s, w, steps)
    decreases |steps|
  {
    steps == [] ||
    ((Admits(s, w, steps[0]) ==> bound <= steps[0].at) && AdmitsFrom(s, Next(s, w, steps[0]), steps[1..], bound))
  }

  lemma {:induction false} LateRunsAdmitLate(s: Settings, w: World, steps: seq<Step>, bound: int)
    requires IsRun(s, w, steps) && bound <= w.now
    ensures AdmitsFrom(s, w, steps, bound)
    decreases |steps|
  {
    if steps == [] {
    } else {
      LateRunsAdmitLate(s, Next(s, w, steps[0]), steps[1..], bound);
    }
  }

  lemma {:induction false} OpenRejects(s: Settings, w: World, steps: seq<Step>, bound: int)
    requires IsRun(s, w, steps)
    requires w.fields.state == Open
    requires s.timeout <= 0 || bound <= w.fields.openedAt + s.timeout
    ensures AdmitsFrom(s, w, steps, bound)
    decreases |steps|
  {
    if steps == [] {
    } else {
      var v := Next(s, w, steps[0]);
      if v.fields.state == Open {
        OpenRejects(s, v, steps[1..], bound);
      } else {
        LateRunsAdmitLate(s, v, steps[1..], bound);
      }
    }
  }

  /** After each entry to Open at time t nothing is admitted before t + Timeout; with Timeout <= 0, nothing ever is. */
  lemma NothingAdmittedBeforeTimeout(s: Settings, w: World, step: Step, steps: seq<Step>, bound: int)
    requires Enabled(w, step) && w.fields.state != Open && Next(s, w, step).fields.state == Open
    requires IsRun(s, Next(s, w, step), steps)
    requires s.timeout <= 0 || bound <= step.at + s.timeout
    ensures AdmitsFrom(s, Next(s, w, step), steps, bound)
  {
    OpenRejects(s, Next(s, w, step), steps, bound);
  }
}
