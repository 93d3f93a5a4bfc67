/** Finding and ranking drivers: the widening search around the pickup point and the order in which drivers are asked.
    */
module Candidates {
  import opened Options
  import opened RideDomain

  datatype Candidate = Candidate(driver: DriverID, distance: real)

  datatype Search = Search(
    matchRadius: real, matchLimit: int, radiusStep: real, radiusMax: real, avgSpeed: real, etaJitter: int)

  /** What the search sees of the drivers: who is available, until when a driver cools down, when each was last asked.
      */
  datatype Drivers = Drivers(available: set<DriverID>, cooldown: map<DriverID, int>, lastOffer: map<DriverID, int>)

  // ---------- Ranking ----------

  function SpeedMps(c: Search): (speed: real)
    ensures 0.0 < speed
  {
    (if c.avgSpeed <= 0.0 then 24.0 else c.avgSpeed) * 1000.0 / 3600.0
  }

  function EtaMs(c: Search, distance: real): real {
    distance / SpeedMps(c) * 1000.0
  }

  function LastOffer(d: Drivers, driver: DriverID): int {
    if driver in d.lastOffer then d.lastOffer[driver] else 0
  }

  /** The comparison of the sort: arrival time, then the time of the last offer, then the identifier. */
  predicate Less(c: Search, d: Drivers, a: Candidate, b: Candidate) {
    if EtaMs(c, a.distance) != EtaMs(c, b.distance) then EtaMs(c, a.distance) < EtaMs(c, b.distance)
    else if LastOffer(d, a.driver) != LastOffer(d, b.driver) then LastOffer(d, a.driver) < LastOffer(d, b.driver)
    else a.driver < b.driver
  }

  /** Nearer first, then longer without an offer, then the smaller identifier. */
  predicate Precedes(d: Drivers, a: Candidate, b: Candidate) {
    || a.distance < b.distance
    || (a.distance == b.distance && LastOffer(d, a.driver) < LastOffer(d, b.driver))
    || (a.distance == b.distance && LastOffer(d, a.driver) == LastOffer(d, b.driver) && a.driver < b.driver)
  }

  lemma ScaleKeepsOrder(x: real, y: real, s: real)
    requires 0.0 < s
    ensures x < y <==> x / s < y / s
    ensures x == y <==> x / s == y / s
  {
    assert (x / s) * s == x && (y / s) * s == y;
  }

  /** The average speed, whatever it is, does not matter: drivers are ranked by distance. */
  lemma SpeedDoesNotMatter(c: Search, d: Drivers, a: Candidate, b: Candidate)
    ensures Less(c, d, a, b) <==> Precedes(d, a, b)
  {
    ScaleKeepsOrder(a.distance, b.distance, SpeedMps(c));
    ScaleKeepsOrder(b.distance, a.distance, SpeedMps(c));
  }

  predicate Sorted(d: Drivers, cs: seq<Candidate>) {
    forall i, j :: 0 <= i < j < |cs| ==> Precedes(d, cs[i], cs[j])
  }

  predicate DistinctDrivers(cs: seq<Candidate>) {
    forall i, j :: 0 <= i < j < |cs| ==> cs[i].driver != cs[j].driver
  }

  function Insert(d: Drivers, x: Candidate, cs: seq<Candidate>): seq<Candidate> {
    if cs == [] then [x]
    else if Precedes(d, cs[|cs| - 1], x) then cs + [x]
    else Insert(d, x, cs[..|cs| - 1]) + [cs[|cs| - 1]]
  }

  /** The ranked list. */
  function Ranked(d: Drivers, cs: seq<Candidate>): seq<Candidate> {
    if cs == [] then [] else Insert(d, cs[|cs| - 1], Ranked(d, cs[..|cs| - 1]))
  }

  lemma {:induction false} InsertKeeps(d: Drivers, x: Candidate, cs: seq<Candidate>)
    ensures multiset(Insert(d, x, cs)) == multiset(cs) + multiset{x}
    ensures |Insert(d, x, cs)| == |cs| + 1
    decreases |cs|
  {
    if cs == [] {
    } else {
      var front, last := cs[..|cs| - 1], cs[|cs| - 1];
      assert cs == front + [last];
      InsertKeeps(d, x, front);
    }
  }

  lemma {:induction false} InsertSorts(d: Drivers, x: Candidate, cs: seq<Candidate>)
    requires Sorted(d, cs) && forall i :: 0 <= i < |cs| ==> cs[i].driver != x.driver
    ensures Sorted(d, Insert(d, x, cs))
    ensures forall y :: y in Insert(d, x, cs) ==> y == x || y in cs
    decreases |cs|
  {
    if cs == [] || Precedes(d, cs[|cs| - 1], x) {
    } else {
      var front, last := cs[..|cs| - 1], cs[|cs| - 1];
      InsertSorts(d, x, front);
      var head := Insert(d, x, front);
      forall i | 0 <= i < |head| ensures Precedes(d, head[i], last) {
        assert head[i] in head;
      }
    }
  }

  /** Ranking permutes the candidates and puts them in strictly increasing order. */
  lemma {:induction false} RankedIsSorted(d: Drivers, cs: seq<Candidate>)
    requires DistinctDrivers(cs)
    ensures multiset(Ranked(d, cs)) == multiset(cs)
    ensures Sorted(d, Ranked(d, cs))
    ensures |Ranked(d, cs)| == |cs|
    decreases |cs|
  {
    if cs == [] {
    } else {
      var front, last := cs[..|cs| - 1], cs[|cs| - 1];
      assert cs == front + [last];
      RankedIsSorted(d, front);
      forall i | 0 <= i < |Ranked(d, front)| ensures Ranked(d, front)[i].driver != last.driver {
        assert Ranked(d, front)[i] in multiset(front);
      }
      InsertKeeps(d, last, Ranked(d, front));
      InsertSorts(d, last, Ranked(d, front));
    }
  }

  /** The last of a sorted list comes after everything else, so two arrangements of the same candidates end alike. */
  lemma SameLast(d: Drivers, a: seq<Candidate>, b: seq<Candidate>)
    requires Sorted(d, a) && Sorted(d, b) && multiset(a) == multiset(b) && a != [] && b != []
    ensures a[|a| - 1] == b[|b| - 1]
  {
    var x, y := a[|a| - 1], b[|b| - 1];
    assert x in multiset(b) && y in multiset(a);
    var i, j :| 0 <= i < |a| && a[i] == y && 0 <= j < |b| && b[j] == x;
    assert i < |a| - 1 ==> Precedes(d, y, x);
    assert j < |b| - 1 ==> Precedes(d, x, y);
  }

  lemma WithoutLast(a: seq<Candidate>)
    requires a != []
    ensures a == a[..|a| - 1] + [a[|a| - 1]]
    ensures multiset(a[..|a| - 1]) == multiset(a) - multiset{a[|a| - 1]}
  {
    assert a == a[..|a| - 1] + [a[|a| - 1]];
  }

  /** Two strictly sorted arrangements of the same candidates are the same list. */
  lemma {:induction false} SortedIsUnique(d: Drivers, a: seq<Candidate>, b: seq<Candidate>)
    requires Sorted(d, a) && Sorted(d, b) && multiset(a) == multiset(b)
    ensures a == b
    decreases |a|
  {
    if a == [] || b == [] {
      assert |multiset(a)| == |multiset(b)|;
    } else {
      SameLast(d, a, b);
      WithoutLast(a);
      WithoutLast(b);
      SortedIsUnique(d, a[..|a| - 1], b[..|b| - 1]);
    }
  }

  /** The order in which the drivers happen to be found does not matter. */
  lemma RankingIgnoresInputOrder(d: Drivers, a: seq<Candidate>, b: seq<Candidate>)
    requires DistinctDrivers(a) && DistinctDrivers(b) && multiset(a) == multiset(b)
    ensures Ranked(d, a) == Ranked(d, b)
  {
    RankedIsSorted(d, a);
    RankedIsSorted(d, b);
    SortedIsUnique(d, Ranked(d, a), Ranked(d, b));
  }

  /** The order in which the found drivers are asked. With jitter the comparison is random: `pick` is the arrangement
      it happens to lead to. */
  function Order(c: Search, d: Drivers, found: seq<Candidate>, pick: seq<Candidate>): seq<Candidate> {
    if 0 < c.etaJitter && 1 < |found| && multiset(pick) == multiset(found) then pick else Ranked(d, found)
  }

  method RankCandidates(
      c: Search, d: Drivers, found: seq<Candidate>, pick: seq<Candidate>) returns (ordered: seq<Candidate>)
    requires DistinctDrivers(found)
    ensures multiset(ordered) == multiset(found)
    ensures c.etaJitter <= 0 ==> Sorted(d, ordered)
    ensures ordered == Order(c, d, found, pick)
  {
    if |found| <= 1 {
      RankedIsSorted(d, found);
      if |found| == 1 {
        assert found[..0] == [];
        assert Ranked(d, found) == Insert(d, found[0], Ranked(d, found[..0]));
      }
      return found;
    }
    if c.etaJitter > 0 && multiset(pick) == multiset(found) {
      return pick;
    }
    ordered := [];
    for i := 0 to |found|
      invariant ordered == Ranked(d, found[..i])
    {
      assert found[..i + 1][..i] == found[..i];
      var j := |ordered|;
      assert ordered[..j] == ordered;
      while j > 0 && Less(c, d, found[i], ordered[j - 1])
        invariant 0 <= j <= |ordered|
        invariant Insert(d, found[i], ordered) == Insert(d, found[i], ordered[..j]) + ordered[j..]
      {
        InsertionMovesOn(c, d, found[i], ordered, j);
        j := j - 1;
      }
      InsertionPoint(c, d, found, i, ordered, j);
      ordered := ordered[..j] + [found[i]] + ordered[j..];
    }
    assert found[..|found|] == found;
    RankedIsSorted(d, found);
  }

  /** One step of the insertion: the element goes before `ordered[j - 1]`. */
  lemma InsertionMovesOn(c: Search, d: Drivers, x: Candidate, ordered: seq<Candidate>, j: nat)
    requires 0 < j <= |ordered| && Less(c, d, x, ordered[j - 1])
    requires Insert(d, x, ordered) == Insert(d, x, ordered[..j]) + ordered[j..]
    ensures Insert(d, x, ordered) == Insert(d, x, ordered[..j - 1]) + ordered[j - 1..]
  {
    SpeedDoesNotMatter(c, d, x, ordered[j - 1]);
    assert ordered[..j][..j - 1] == ordered[..j - 1];
    assert [ordered[j - 1]] + ordered[j..] == ordered[j - 1..];
  }

  lemma InsertionPoint(c: Search, d: Drivers, found: seq<Candidate>, i: nat, ordered: seq<Candidate>, j: nat)
    requires DistinctDrivers(found) && i < |found| && ordered == Ranked(d, found[..i]) && j <= |ordered|
    requires j == 0 || !Less(c, d, found[i], ordered[j - 1])
    ensures Insert(d, found[i], ordered[..j]) == ordered[..j] + [found[i]]
  {
    if j > 0 {
      SpeedDoesNotMatter(c, d, found[i], ordered[j - 1]);
      RankedIsSorted(d, found[..i]);
      assert ordered[j - 1] in multiset(found[..i]);
      assert ordered[j - 1].driver != found[i].driver;
      assert ordered[..j][|ordered[..j]| - 1] == ordered[j - 1];
    }
  }

  // ---------- The widening search ----------

  function Within(geo: seq<Candidate>, radius: real): seq<Candidate> {
    if geo == [] then []
    else
      var front := Within(geo[..|geo| - 1], radius);
      if geo[|geo| - 1].distance <= radius then front + [geo[|geo| - 1]] else front
  }

  /** The positions around the pickup point, nearest first, are `geo`; a query returns the nearest of those within the
      radius. */
  function Nearby(geo: seq<Candidate>, radius: real, limit: int): seq<Candidate> {
    var inside, count := Within(geo, radius), if limit <= 0 then 10 else limit;
    if |inside| <= count then inside else inside[..count]
  }

  predicate CoolingDown(d: Drivers, driver: DriverID, now: int) {
    driver in d.cooldown && now < d.cooldown[driver]
  }

  function Eligible(d: Drivers, cs: seq<Candidate>, now: int): seq<Candidate> {
    if cs == [] then []
    else
      var front, last := Eligible(d, cs[..|cs| - 1], now), cs[|cs| - 1];
      if last.driver in d.available && !CoolingDown(d, last.driver, now) then front + [last] else front
  }

  function StartRadius(c: Search, radius: real): real {
    if radius <= 0.0 then c.matchRadius else radius
  }

  function StepOf(c: Search, radius: real): real {
    if c.radiusStep <= 0.0 then StartRadius(c, radius) else c.radiusStep
  }

  function MaxRadius(c: Search, radius: real): real {
    if c.radiusMax <= 0.0 then StartRadius(c, radius) else c.radiusMax
  }

  function LimitOf(c: Search, limit: int): int {
    if limit <= 0 then c.matchLimit else limit
  }

  /** The k-th radius tried. */
  function RadiusAt(c: Search, radius: real, k: nat): real {
    StartRadius(c, radius) + k as real * StepOf(c, radius)
  }

  function ProbeAt(
      c: Search, d: Drivers, geo: seq<Candidate>, radius: real, limit: int, now: int, k: nat): seq<Candidate> {
    Eligible(d, Nearby(geo, RadiusAt(c, radius, k), LimitOf(c, limit)), now)
  }

  /** How many radii there are to try. */
  function Probes(c: Search, radius: real): nat
    requires 0.0 < StepOf(c, radius)
  {
    if StartRadius(c, radius) <= MaxRadius(c, radius)
    then ((MaxRadius(c, radius) - StartRadius(c, radius)) / StepOf(c, radius)).Floor + 1 else 0
  }

  lemma DivideBound(x: real, s: real, k: nat)
    requires 0.0 < s
    ensures k as real * s <= x <==> k as real <= x / s
  {
    assert (x / s) * s == x;
    if k as real <= x / s {
      assert k as real * s <= (x / s) * s;
    } else {
      assert (x / s) * s < k as real * s;
    }
  }

  lemma ProbesBound(c: Search, radius: real, k: nat)
    requires 0.0 < StepOf(c, radius)
    ensures RadiusAt(c, radius, k) <= MaxRadius(c, radius) <==> k < Probes(c, radius)
  {
    var x, s := MaxRadius(c, radius) - StartRadius(c, radius), StepOf(c, radius);
    DivideBound(x, s, k);
    if x < 0.0 {
      assert 0.0 <= k as real * s;
    }
  }

  /** The drivers found by the first radius, from the k-th on, that finds any. */
  function SearchFrom(
      c: Search, d: Drivers, geo: seq<Candidate>, radius: real, limit: int, now: int, k: nat): seq<Candidate>
    requires 0.0 < StepOf(c, radius)
    decreases Probes(c, radius) - k
  {
    if Probes(c, radius) <= k then []
    else
      var found := ProbeAt(c, d, geo, radius, limit, now, k);
      if found != [] then found else SearchFrom(c, d, geo, radius, limit, now, k + 1)
  }

  /** The search returns what the smallest successful radius returns, or nothing if no radius up to the maximum
      succeeds. */
  lemma {:induction false} SearchFindsSmallestRadius(
      c: Search, d: Drivers, geo: seq<Candidate>, radius: real, limit: int, now: int, k: nat)
    requires 0.0 < StepOf(c, radius)
    ensures var found := SearchFrom(c, d, geo, radius, limit, now, k);
            if found == [] then
              forall j: nat :: k <= j && RadiusAt(c, radius, j) <= MaxRadius(c, radius) ==>
                ProbeAt(c, d, geo, radius, limit, now, j) == []
            else
              exists n: nat ::
                && k <= n && RadiusAt(c, radius, n) <= MaxRadius(c, radius)
                && found == ProbeAt(c, d, geo, radius, limit, now, n)
                && forall j: nat :: k <= j < n ==> ProbeAt(c, d, geo, radius, limit, now, j) == []
    decreases Probes(c, radius) - k
  {
    ProbesBound(c, radius, k);
    if Probes(c, radius) <= k {
      forall j: nat | k <= j && RadiusAt(c, radius, j) <= MaxRadius(c, radius) ensures false {
        ProbesBound(c, radius, j);
      }
    } else if ProbeAt(c, d, geo, radius, limit, now, k) == [] {
      SearchFindsSmallestRadius(c, d, geo, radius, limit, now, k + 1);
    }
  }

  lemma {:induction false} WithinMembers(geo: seq<Candidate>, radius: real)
    requires DistinctDrivers(geo)
    ensures DistinctDrivers(Within(geo, radius))
    ensures forall x :: x in Within(geo, radius) <==> x in geo && x.distance <= radius
    decreases |geo|
  {
    if geo == [] {
    } else {
      assert geo == geo[..|geo| - 1] + [geo[|geo| - 1]];
      WithinMembers(geo[..|geo| - 1], radius);
    }
  }

  lemma NearbyMembers(geo: seq<Candidate>, radius: real, limit: int)
    requires DistinctDrivers(geo)
    ensures DistinctDrivers(Nearby(geo, radius, limit))
    ensures forall x :: x in Nearby(geo, radius, limit) ==> x in geo && x.distance <= radius
  {
    WithinMembers(geo, radius);
    var inside, near := Within(geo, radius), Nearby(geo, radius, limit);
    forall x | x in near
      ensures x in inside
    {
      var i :| 0 <= i < |near| && near[i] == x;
      assert inside[i] == x;
    }
  }

  lemma {:induction false} EligibleMembers(d: Drivers, cs: seq<Candidate>, now: int)
    requires DistinctDrivers(cs)
    ensures DistinctDrivers(Eligible(d, cs, now))
    ensures forall x :: x in Eligible(d, cs, now) <==>
              x in cs && x.driver in d.available && !CoolingDown(d, x.driver, now)
    decreases |cs|
  {
    if cs == [] {
    } else {
      assert cs == cs[..|cs| - 1] + [cs[|cs| - 1]];
      EligibleMembers(d, cs[..|cs| - 1], now);
    }
  }

  lemma ProbeMembers(c: Search, d: Drivers, geo: seq<Candidate>, radius: real, limit: int, now: int, k: nat)
    requires DistinctDrivers(geo)
    ensures var found := ProbeAt(c, d, geo, radius, limit, now, k);
            && DistinctDrivers(found)
            && (forall x :: x in found <==>
                  && x in Nearby(geo, RadiusAt(c, radius, k), LimitOf(c, limit))
                  && x.driver in d.available && !CoolingDown(d, x.driver, now))
            && forall x :: x in found ==> x in geo && x.distance <= RadiusAt(c, radius, k)
  {
    NearbyMembers(geo, RadiusAt(c, radius, k), LimitOf(c, limit));
    EligibleMembers(d, Nearby(geo, RadiusAt(c, radius, k), LimitOf(c, limit)), now);
  }

  lemma {:induction false} SearchFindsDistinctDrivers(
      c: Search, d: Drivers, geo: seq<Candidate>, radius: real, limit: int, now: int, k: nat)
    requires 0.0 < StepOf(c, radius) && DistinctDrivers(geo)
    ensures DistinctDrivers(SearchFrom(c, d, geo, radius, limit, now, k))
    decreases Probes(c, radius) - k
  {
    ProbeMembers(c, d, geo, radius, limit, now, k);
    if Probes(c, radius) <= k {
    } else {
      SearchFindsDistinctDrivers(c, d, geo, radius, limit, now, k + 1);
    }
  }

  /** The position query answers a negative radius with an error, which ends the search. */
  predicate Refused(c: Search, radius: real) {
    StartRadius(c, radius) < 0.0
  }

  /** While it finds nobody, the loop ends at a radius beyond the maximum or at one that the query refuses. There is one
      unless the search starts from radius zero and has no positive step: then it asks for radius zero for ever. */
  lemma SearchEndsUnlessStuckAtZero(c: Search, radius: real)
    ensures (exists k: nat :: MaxRadius(c, radius) < RadiusAt(c, radius, k) || RadiusAt(c, radius, k) < 0.0)
            <==> 0.0 < StepOf(c, radius) || Refused(c, radius)
    ensures 0.0 < StepOf(c, radius) || Refused(c, radius) <==> 0.0 < c.radiusStep || StartRadius(c, radius) != 0.0
  {
    if Refused(c, radius) {
      assert RadiusAt(c, radius, 0) < 0.0;
    } else if 0.0 < StepOf(c, radius) {
      ProbesBound(c, radius, Probes(c, radius));
    } else {
      forall k: nat
        ensures 0.0 <= RadiusAt(c, radius, k) <= MaxRadius(c, radius)
      {
        assert k as real * StepOf(c, radius) == 0.0;
      }
    }
  }

  /** The whole search: it widens until somebody is found, then ranks; None if the query refuses the radius. */
  method FindCandidates(
      c: Search, d: Drivers, geo: seq<Candidate>, radius: real, limit: int, now: int, pick: seq<Candidate>)
    returns (ordered: Option<seq<Candidate>>)
    requires 0.0 < StepOf(c, radius) || Refused(c, radius)
    requires DistinctDrivers(geo)
    ensures ordered == None <==> Refused(c, radius)
    ensures !Refused(c, radius) ==>
              && ordered == Some(Order(c, d, SearchFrom(c, d, geo, radius, limit, now, 0), pick))
              && multiset(ordered.value) == multiset(SearchFrom(c, d, geo, radius, limit, now, 0))
              && (c.etaJitter <= 0 ==> Sorted(d, ordered.value))
  {
    var current, step, maxRadius := StartRadius(c, radius), StepOf(c, radius), MaxRadius(c, radius);
    if current < 0.0 {
      return None;  // a negative radius is never above the maximum, so the first query is made, and refused
    }
    ghost var k: nat := 0;
    ProbesBound(c, radius, k);
    while current <= maxRadius
      invariant current == RadiusAt(c, radius, k)
      invariant current <= maxRadius <==> k < Probes(c, radius)
      invariant SearchFrom(c, d, geo, radius, limit, now, 0) == SearchFrom(c, d, geo, radius, limit, now, k)
      decreases Probes(c, radius) - k
    {
      var candidates := Nearby(geo, current, LimitOf(c, limit));
      var available: seq<Candidate> := [];
      for i := 0 to |candidates|
        invariant available == Eligible(d, candidates[..i], now)
      {
        assert candidates[..i + 1][..i] == candidates[..i];
        if candidates[i].driver !in d.available {
          continue;
        }
        if CoolingDown(d, candidates[i].driver, now) {
          continue;
        }
        available := available + [candidates[i]];
      }
      assert candidates[..|candidates|] == candidates;
      if |available| > 0 {
        ProbeMembers(c, d, geo, radius, limit, now, k);
        var ranked := RankCandidates(c, d, available, pick);
        return Some(ranked);
      }
      current := current + step;
      k := k + 1;
      ProbesBound(c, radius, k);
    }
    ordered := Some([]);
  }
}
