/** The per-backend circuit breaker (src/localgateway/circuitbreaker.py). Times are monotonic
    seconds, never negative. */
module CircuitBreaker {
  import opened Wrappers

  const MAX_BACKOFF: real := 1800.0

  /** openUntil is 0 while the circuit has never tripped or has been closed by a success. */
  datatype Circuit = Circuit(failures: nat, openUntil: real, trips: nat)

  const FRESH := Circuit(0, 0.0, 0)

  datatype Settings = Settings(enabled: bool, threshold: int, backoff: real)

  function Pow2(n: nat): real {
    if n == 0 then 1.0 else 2.0 * Pow2(n - 1)
  }

  function Min(a: real, b: real): real {
    if a <= b then a else b
  }

  /** The base backoff, so many times. */
  function Times(base: real, p: real): real {
    base * p
  }

  /** How long trip number k keeps the circuit open. */
  function Backoff(base: real, k: nat): real
    requires k >= 1
  {
    Min(Times(base, Pow2(k - 1)), MAX_BACKOFF)
  }

  predicate TripsNow(c: Circuit, s: Settings, now: real) {
    s.enabled && c.failures + 1 >= s.threshold && now >= c.openUntil
  }

  function AfterFailure(c: Circuit, s: Settings, now: real): Circuit {
    if TripsNow(c, s, now)
    then Circuit(c.failures + 1, now + Backoff(s.backoff, c.trips + 1), c.trips + 1)
    else c.(failures := c.failures + 1)
  }

  function AfterSuccess(c: Circuit): Circuit {
    Circuit(0, 0.0, 0)
  }

  predicate OpenAt(c: Circuit, s: Settings, now: real) {
    s.enabled && c.openUntil > 0.0 && now < c.openUntil
  }

  function Lookup(circuits: map<string, Circuit>, key: string): Circuit {
    if key in circuits then circuits[key] else FRESH
  }

  class Breaker {
    var circuits: map<string, Circuit>
    var settings: Settings

    constructor ()
      ensures circuits == map[] && settings == Settings(false, 3, 60.0)
    {
      circuits := map[];
      settings := Settings(false, 3, 60.0);
    }

    /** Zero means the default; the threshold is at least 1 and the backoff at least 0.05 s. */
    method Configure(enabled: bool, threshold: int, backoff: real)
      modifies this`settings
      ensures settings.enabled == enabled
      ensures settings.threshold >= 1 && settings.backoff >= 0.05
      ensures threshold >= 1 ==> settings.threshold == threshold
      ensures backoff >= 0.05 ==> settings.backoff == backoff
      ensures (threshold == 0 ==> settings.threshold == 3) && (backoff == 0.0 ==> settings.backoff == 60.0)
      ensures threshold < 0 ==> settings.threshold == 1
      ensures backoff < 0.05 && backoff != 0.0 ==> settings.backoff == 0.05
    {
      var t := if threshold == 0 then 3 else threshold;
      var b := if backoff == 0.0 then 60.0 else backoff;
      settings := Settings(enabled, if t < 1 then 1 else t, if b < 0.05 then 0.05 else b);
    }

    method RecordOutcome(key: string, success: bool, now: real) returns (tripped: bool)
      modifies this`circuits
      ensures tripped <==> !success && TripsNow(Lookup(old(circuits), key), settings, now)
      ensures circuits == old(circuits)[key := if success then AfterSuccess(Lookup(old(circuits), key))
                                               else AfterFailure(Lookup(old(circuits), key), settings, now)]
    {
      tripped := false;
      if key !in circuits {
        circuits := circuits[key := FRESH];
      }
      var c := circuits[key];
      if success {
        c := c.(failures := 0);
        c := c.(trips := 0);
        c := c.(openUntil := 0.0);
        assert circuits[key := c] == old(circuits)[key := c];
        circuits := circuits[key := c];
        return false;
      }
      c := c.(failures := c.failures + 1);
      if settings.enabled && c.failures >= settings.threshold && now >= c.openUntil {
        c := c.(trips := c.trips + 1);
        c := c.(openUntil := now + Backoff(settings.backoff, c.trips));
        tripped := true;
      }
      assert circuits[key := c] == old(circuits)[key := c];
      circuits := circuits[key := c];
    }

    method IsOpen(key: string, now: real) returns (open: bool)
      ensures open <==> OpenAt(Lookup(circuits, key), settings, now)
    {
      if !settings.enabled {
        return false;
      }
      if key !in circuits || circuits[key].openUntil <= 0.0 {
        return false;
      }
      if now >= circuits[key].openUntil {
        return false;
      }
      return true;
    }

    /** Closes one circuit, or all of them; returns how many entries were cleared. */
    method Reset(key: Option<string>) returns (cleared: nat)
      modifies this`circuits
      ensures key.None? ==> circuits == map[] && cleared == |old(circuits)|
      ensures key.Some? ==> circuits == old(circuits) - {key.value}
      ensures key.Some? ==> cleared == if key.value in old(circuits) then 1 else 0
    {
      if key.Some? {
        if key.value in circuits {
          circuits := circuits - {key.value};
          return 1;
        }
        assert circuits - {key.value} == circuits;
        return 0;
      }
      cleared := |circuits|;
      circuits := map[];
    }
  }

  // ---------- runs of failures ----------

  /** The circuit after failures at the given times, from a fresh one. */
  function AfterRun(s: Settings, times: seq<real>): Circuit {
    if times == [] then FRESH
    else AfterFailure(AfterRun(s, times[..|times| - 1]), s, times[|times| - 1])
  }

  /** The times of that run at which the circuit trips. */
  function TripTimes(s: Settings, times: seq<real>): seq<real> {
    if times == [] then []
    else
      var before, now := times[..|times| - 1], times[|times| - 1];
      TripTimes(s, before) + (if TripsNow(AfterRun(s, before), s, now) then [now] else [])
  }

  predicate Usable(s: Settings) {
    s.enabled && s.threshold >= 1 && s.backoff > 0.0
  }

  predicate Nondecreasing(times: seq<real>) {
    (forall i :: 0 <= i < |times| ==> times[i] >= 0.0)
    && forall i, j :: 0 <= i <= j < |times| ==> times[i] <= times[j]
  }

  lemma {:induction false} Pow2Positive(n: nat)
    ensures Pow2(n) >= 1.0
  {
    if n == 0 {
    } else {
      Pow2Positive(n - 1);
    }
  }

  lemma BackoffPositive(s: Settings, k: nat)
    requires Usable(s) && k >= 1
    ensures Backoff(s.backoff, k) > 0.0
  {
    Pow2Positive(k - 1);
    TimesGrows(s.backoff, 1.0, Pow2(k - 1));
  }

  lemma TimesGrows(base: real, p: real, q: real)
    requires base > 0.0 && p <= q
    ensures Times(base, p) <= Times(base, q) && (p == 1.0 ==> Times(base, p) == base)
  {
  }

  /** What the circuit remembers of a run: every failure is counted, and it stays open for exactly
      the backoff of the latest trip. */
  lemma {:induction false} RunState(s: Settings, times: seq<real>)
    requires Usable(s) && Nondecreasing(times)
    ensures var c, trips := AfterRun(s, times), TripTimes(s, times);
            && c.failures == |times| && c.trips == |trips|
            && c.openUntil == (if trips == [] then 0.0 else trips[|trips| - 1] + Backoff(s.backoff, |trips|))
            && (trips == [] <==> |times| < s.threshold)
            && (trips != [] ==> trips[0] == times[s.threshold - 1])
            && forall t :: t in trips ==> t in times
  {
    if times == [] {
    } else {
      RunState(s, times[..|times| - 1]);
    }
  }

  /** The first trip happens exactly at the threshold-th failure. */
  lemma FirstTripAtThreshold(s: Settings, times: seq<real>)
    requires Usable(s) && Nondecreasing(times)
    ensures TripTimes(s, times) == [] <==> |times| < s.threshold
    ensures |times| >= s.threshold ==> TripTimes(s, times)[0] == times[s.threshold - 1]
  {
    RunState(s, times);
  }

  /** Trip k+1 comes no sooner than the backoff of trip k after trip k. */
  lemma {:induction false} TripsAreSpaced(s: Settings, times: seq<real>)
    requires Usable(s) && Nondecreasing(times)
    ensures var trips := TripTimes(s, times);
            forall k :: 1 <= k < |trips| ==> trips[k] >= trips[k - 1] + Backoff(s.backoff, k)
  {
    if times == [] {
    } else {
      var before := times[..|times| - 1];
      TripsAreSpaced(s, before);
      RunState(s, before);
    }
  }

  /** The backoffs of the first n trips together. */
  function TotalBackoff(base: real, n: nat): real {
    if n == 0 then 0.0 else TotalBackoff(base, n - 1) + Backoff(base, n)
  }

  /** k trips take at least the first k-1 backoffs. */
  lemma {:induction false} TripsTakeTime(s: Settings, times: seq<real>, k: nat)
    requires Usable(s) && Nondecreasing(times) && 1 <= k <= |TripTimes(s, times)|
    ensures TripTimes(s, times)[k - 1] - TripTimes(s, times)[0] >= TotalBackoff(s.backoff, k - 1)
  {
    if k <= 1 {
    } else {
      TripsAreSpaced(s, times);
      TripsTakeTime(s, times, k - 1);
    }
  }

  /** The first backoff is the configured one and every further one twice that before it, but never more than
      half an hour. */
  lemma BackoffDoubles(base: real, k: nat)
    requires base > 0.0 && k >= 1
    ensures Backoff(base, 1) == if base <= 1800.0 then base else 1800.0
    ensures Backoff(base, k + 1) == if 2.0 * Backoff(base, k) <= 1800.0 then 2.0 * Backoff(base, k) else 1800.0
  {
    Pow2Positive(k - 1);
    TimesGrows(base, 1.0, Pow2(k - 1));
    TwiceTimes(base, Pow2(k - 1));
    assert Pow2(k) == 2.0 * Pow2(k - 1) && Pow2(0) == 1.0;
  }

  lemma TwiceTimes(base: real, p: real)
    ensures Times(base, 2.0 * p) == 2.0 * Times(base, p) && Times(base, 1.0) == base
  {
  }

  lemma DoubledBackoff(base: real, p: real)
    ensures Times(base, p - 1.0) + Times(base, p) == Times(base, 2.0 * p - 1.0)
    ensures Times(base, 0.0) == 0.0
  {
  }

  /** Below the cap the backoffs add up to base * (2^n - 1). */
  lemma {:induction false} TotalBackoffBelowCap(base: real, n: nat)
    requires base > 0.0 && (n > 0 ==> Times(base, Pow2(n - 1)) <= MAX_BACKOFF)
    ensures TotalBackoff(base, n) == Times(base, Pow2(n) - 1.0)
    decreases n
  {
    if n == 0 {
      DoubledBackoff(base, 1.0);
    } else {
      var p := Pow2(n - 1);
      if n > 1 {
        Pow2Positive(n - 2);
        TimesGrows(base, Pow2(n - 2), p);
      }
      TotalBackoffBelowCap(base, n - 1);
      DoubledBackoff(base, p);
    }
  }

  /** A failure while the circuit is open neither trips it nor moves the end of its window. */
  lemma OpenFailuresChangeNothing(c: Circuit, s: Settings, now: real)
    requires OpenAt(c, s, now)
    ensures !TripsNow(c, s, now)
    ensures AfterFailure(c, s, now).openUntil == c.openUntil && AfterFailure(c, s, now).trips == c.trips
    ensures forall t :: OpenAt(AfterFailure(c, s, now), s, t) <==> OpenAt(c, s, t)
  {
  }

  /** Over a whole run the circuit is open exactly from each trip until its backoff has passed. */
  lemma OpenExactlyDuringBackoff(s: Settings, times: seq<real>, now: real)
    requires Usable(s) && Nondecreasing(times) && |times| >= s.threshold
    ensures var trips := TripTimes(s, times);
            trips != []
            && (OpenAt(AfterRun(s, times), s, now)
                <==> now < trips[|trips| - 1] + Backoff(s.backoff, |trips|))
  {
    RunState(s, times);
    var trips := TripTimes(s, times);
    BackoffPositive(s, |trips|);
    assert trips[|trips| - 1] in times;
  }
}
