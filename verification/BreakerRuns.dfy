/** When the breaker opens, lets calls through again and closes, in numbers, and what its statistics count. */
module BreakerRuns {
  import opened CircuitBreaker

  function AtLeastOne(n: nat): nat {
    if n == 0 then 1 else n
  }

  function OneIf(b: bool): nat {
    if b then 1 else 0
  }

  lemma RatioBound(a: nat, b: nat, r: real)
    requires 0 < b
    ensures r <= a as real / b as real <==> r * b as real <= a as real
  {
    assert (a as real / b as real) * b as real == a as real;
  }

  // ---------- One call ----------

  /** A call that finishes while the breaker is closed opens it if and only if a ratio is set, enough calls have been
      counted, and the failures among them reach the ratio. */
  lemma OpensExactly(s: Settings, f: Fields, failed: bool, now: int)
    requires f.state == Closed
    ensures var g := After(s, f, failed, now);
            && (g.state == Open
                <==> && 0.0 < s.failureRatio && AtLeastOne(s.minRequests) <= f.requests + 1
                     && s.failureRatio * (f.requests + 1) as real <= (f.failures + OneIf(failed)) as real)
            && (g.state == Open || g.state == Closed)
            && (g.state == Open ==> g.openedAt == now)
            && g.requests == f.requests + 1 && g.failures == f.failures + OneIf(failed)
  {
    RatioBound(f.failures + OneIf(failed), f.requests + 1, s.failureRatio);
  }

  /** A call that finishes in half-open: a failure opens the breaker again from now on, and the last of the wanted
      successes closes it with all counts at zero. */
  lemma HalfOpenDecides(s: Settings, f: Fields, failed: bool, now: int)
    requires f.state == HalfOpen
    ensures var g := After(s, f, failed, now);
            if failed then g.state == Open && g.openedAt == now && g.requests == f.requests + 1
            else if AtLeastOne(s.maxRequests) <= f.halfOpenSuccess + 1 then
              g.state == Closed && g.requests == 0 && g.failures == 0 && g.intervalStarted == now
            else g.state == HalfOpen && g.halfOpenSuccess == f.halfOpenSuccess + 1 && g.requests == f.requests + 1
  {
  }

  /** A call that finishes while the breaker is open is counted and changes nothing else. */
  lemma OpenOnlyCounts(s: Settings, f: Fields, failed: bool, now: int)
    requires f.state == Open
    ensures After(s, f, failed, now) == f.(requests := f.requests + 1, failures := f.failures + OneIf(failed))
  {
  }

  /** Who is let through, in each state. */
  lemma AdmitsExactly(s: Settings, f: Fields, now: int)
    ensures var (g, admitted) := Before(s, f, now);
            && (admitted <==> match f.state
                              case Closed => true
                              case Open => 0 < s.timeout && f.openedAt + s.timeout <= now
                              case HalfOpen => f.halfOpenRequests < AtLeastOne(s.maxRequests))
            && (f.state == Open && admitted ==>
                  g.state == HalfOpen && g.halfOpenRequests == 0 && g.halfOpenSuccess == 0)
            && (f.state == HalfOpen && admitted ==> g == f.(halfOpenRequests := f.halfOpenRequests + 1))
            && (!admitted ==> g == f.(rejectCount := f.rejectCount + 1))
            && (f.state == Closed ==>
                  if 0 < s.interval && f.intervalStarted + s.interval <= now
                  then g == f.(requests := 0, failures := 0, intervalStarted := now) else g == f)
  {
  }

  // ---------- Joining runs ----------

  lemma {:induction false} RunConcat(s: Settings, w: World, a: seq<Step>, b: seq<Step>)
    requires IsRun(s, w, a)
    ensures IsRun(s, w, a + b) <==> IsRun(s, Final(s, w, a), b)
    ensures IsRun(s, w, a + b) ==> Final(s, w, a + b) == Final(s, Final(s, w, a), b)
    decreases |a|
  {
    if a == [] {
      assert a + b == b;
    } else {
      assert (a + b)[1..] == a[1..] + b;
      RunConcat(s, Next(s, w, a[0]), a[1..], b);
    }
  }

  /** One call after another, all with one outcome. */
  function Calls(n: nat, failed: bool, at: int): seq<Step> {
    if n == 0 then [] else Calls(n - 1, failed, at) + [Begin(0, at), End(0, failed, at)]
  }

  lemma CallAfter(s: Settings, w: World, before: seq<Step>, failed: bool, at: int)
    requires IsRun(s, w, before) && Final(s, w, before).now <= at && Final(s, w, before).inflight == map[]
    requires Before(s, Final(s, w, before).fields, at).1
    ensures var steps := before + [Begin(0, at), End(0, failed, at)];
            && IsRun(s, w, steps)
            && Final(s, w, steps).fields == After(s, Before(s, Final(s, w, before).fields, at).0, failed, at)
            && Final(s, w, steps).inflight == map[] && Final(s, w, steps).now == at
  {
    var u := Final(s, w, before);
    var v := Next(s, u, Begin(0, at));
    var steps := [Begin(0, at), End(0, failed, at)];
    assert steps[1..] == [End(0, failed, at)] && steps[1..][1..] == [];
    assert IsRun(s, v, steps[1..]);
    RunConcat(s, w, before, steps);
    var x := Next(s, v, End(0, failed, at));
    assert Final(s, v, steps[1..]) == Final(s, x, []) == x;
    assert Final(s, u, steps) == x && x.inflight == map[];
  }

  // ---------- Runs ----------

  /** As long as no call fails the breaker stays closed. */
  lemma {:induction false} SuccessesKeepItClosed(s: Settings, w: World, steps: seq<Step>)
    requires IsRun(s, w, steps) && w.fields.state == Closed && w.fields.failures == 0
    requires forall i :: 0 <= i < |steps| && steps[i].End? ==> !steps[i].failed
    ensures Final(s, w, steps).fields.state == Closed
    decreases |steps|
  {
    if steps == [] {
    } else {
      var v := Next(s, w, steps[0]);
      if steps[0].End? {
        OpensExactly(s, w.fields, false, steps[0].at);
        Positive(s.failureRatio, w.fields.requests + 1);
      }
      SuccessesKeepItClosed(s, v, steps[1..]);
    }
  }

  lemma Positive(r: real, n: nat)
    requires 0 < n
    ensures 0.0 < r ==> 0.0 < r * n as real
  {
  }

  /** From the start a run without failures never leaves Closed, so nothing is ever rejected. */
  lemma SuccessesNeverOpen(s: Settings, now: int, steps: seq<Step>)
    requires IsRun(s, Start(now), steps)
    requires forall i :: 0 <= i < |steps| && steps[i].End? ==> !steps[i].failed
    ensures Final(s, Start(now), steps).fields.state == Closed
  {
    SuccessesKeepItClosed(s, Start(now), steps);
  }

  /** Failures in a row open the breaker exactly when there are enough of them. */
  lemma {:induction false} FailuresInARowOpen(s: Settings, now: int, n: nat)
    requires 0.0 < s.failureRatio <= 1.0 && s.interval <= 0 && n <= AtLeastOne(s.minRequests)
    ensures IsRun(s, Start(now), Calls(n, true, now))
    ensures var w := Final(s, Start(now), Calls(n, true, now));
            && w.inflight == map[] && w.now == now && w.fields.requests == n && w.fields.failures == n
            && w.fields.state == if n == AtLeastOne(s.minRequests) then Open else Closed
    decreases n
  {
    if n == 0 {
    } else {
      FailuresInARowOpen(s, now, n - 1);
      CallAfter(s, Start(now), Calls(n - 1, true, now), true, now);
      var f := Final(s, Start(now), Calls(n - 1, true, now)).fields;
      OpensExactly(s, f, true, now);
      assert s.failureRatio * n as real <= n as real;
    }
  }

  /** Once the timeout has passed, successes in a row close an open breaker exactly when there are enough of them. */
  lemma {:induction false} SuccessesInARowClose(s: Settings, w: World, at: int, n: nat)
    requires w.fields.state == Open && w.inflight == map[] && w.now <= at
    requires 0 < s.timeout && w.fields.openedAt + s.timeout <= at
    requires n <= AtLeastOne(s.maxRequests)
    ensures IsRun(s, w, Calls(n, false, at))
    ensures var v := Final(s, w, Calls(n, false, at));
            && v.inflight == map[] && v.now <= at
            && if n == 0 then v.fields == w.fields
               else if n == AtLeastOne(s.maxRequests) then
                 v.fields.state == Closed && v.fields.requests == 0 && v.fields.failures == 0
               else v.fields.state == HalfOpen && v.fields.halfOpenSuccess == n && v.fields.halfOpenRequests == n - 1
    decreases n
  {
    if n == 0 {
    } else {
      SuccessesInARowClose(s, w, at, n - 1);
      CallAfter(s, w, Calls(n - 1, false, at), false, at);
    }
  }

  // ---------- Statistics ----------

  /** How often a run enters a state. */
  ghost function Entries(s: Settings, w: World, steps: seq<Step>, state: State): nat
    requires IsRun(s, w, steps)
    decreases |steps|
  {
    if steps == [] then 0
    else
      var v := Next(s, w, steps[0]);
      OneIf(w.fields.state != state && v.fields.state == state) + Entries(s, v, steps[1..], state)
  }

  ghost function Rejections(s: Settings, w: World, steps: seq<Step>): nat
    requires IsRun(s, w, steps)
    decreases |steps|
  {
    if steps == [] then 0
    else OneIf(steps[0].Begin? && !Admits(s, w, steps[0])) + Rejections(s, Next(s, w, steps[0]), steps[1..])
  }

  lemma StepIsCounted(s: Settings, w: World, step: Step)
    requires Enabled(w, step)
    ensures var f, g := w.fields, Next(s, w, step).fields;
            && g.openCount == f.openCount + OneIf(f.state != Open && g.state == Open)
            && g.halfOpenCount == f.halfOpenCount + OneIf(f.state != HalfOpen && g.state == HalfOpen)
            && g.closedCount == f.closedCount + OneIf(f.state != Closed && g.state == Closed)
            && g.rejectCount == f.rejectCount + OneIf(step.Begin? && !Admits(s, w, step))
  {
  }

  /** The statistics count what happened: entries into each state, and rejected calls. */
  lemma {:induction false} StatisticsCountWhatHappened(s: Settings, w: World, steps: seq<Step>)
    requires IsRun(s, w, steps)
    ensures var f, g := w.fields, Final(s, w, steps).fields;
            && g.openCount == f.openCount + Entries(s, w, steps, Open)
            && g.halfOpenCount == f.halfOpenCount + Entries(s, w, steps, HalfOpen)
            && g.closedCount == f.closedCount + Entries(s, w, steps, Closed)
            && g.rejectCount == f.rejectCount + Rejections(s, w, steps)
    decreases |steps|
  {
    if steps == [] {
    } else {
      StepIsCounted(s, w, steps[0]);
      StatisticsCountWhatHappened(s, Next(s, w, steps[0]), steps[1..]);
    }
  }
}
