/** Request pacing and the rate-limit breaker of src/evalops/pilot/rate_limit.py. */
module RateLimits {
  import opened Results

  predicate Limited(errorClass: Option<string>) { errorClass == Some("API_RATE_LIMIT") }

  predicate DailyQuota(errorClass: Option<string>, dimension: Option<string>) {
    Limited(errorClass) && dimension == Some("RPD")
  }

  function NextCount(count: nat, errorClass: Option<string>): nat {
    if Limited(errorClass) then count + 1 else 0
  }

  /** A daily quota stops the run at once; other limits stop it when they have come often enough in a row. */
  predicate Stops(limit: int, count: nat, errorClass: Option<string>, dimension: Option<string>) {
    Limited(errorClass) && (DailyQuota(errorClass, dimension) || NextCount(count, errorClass) >= limit)
  }

  datatype StopError = DailyQuotaExhausted | CircuitBroken

  /** The clock and the sleep a scheduler is given: time never runs backwards, and a sleep lasts at least as asked. */
  class World {
    var now: real

    constructor (start: real)
      ensures now == start
    {
      now := start;
    }

    method Clock() returns (time: real)
      modifies this
      ensures old(now) <= now == time
    {
      var passed: real := *;
      now := now + if passed > 0.0 then passed else 0.0;
      time := now;
    }

    method Sleep(seconds: real)
      requires seconds > 0.0
      modifies this
      ensures now >= old(now) + seconds
    {
      var more: real := *;
      now := now + seconds + if more > 0.0 then more else 0.0;
    }
  }

  /** Each start is at least the interval after the one before it. */
  predicate Spaced(starts: seq<real>, interval: real) {
    forall i :: 0 <= i < |starts| - 1 ==> starts[i + 1] >= starts[i] + interval
  }

  /** k starts later is at least k intervals later, so a stretch of time holds boundedly many requests. */
  lemma {:induction false} SpacedApart(starts: seq<real>, interval: real, i: nat, j: nat)
    requires Spaced(starts, interval) && i <= j < |starts|
    ensures starts[j] - starts[i] >= (j - i) as real * interval
    decreases j - i
  {
    if i < j {
      SpacedApart(starts, interval, i, j - 1);
      assert starts[j - 1 + 1] >= starts[j - 1] + interval;
      OneMoreInterval(j - 1 - i, interval);
    }
  }

  lemma OneMoreInterval(k: int, interval: real)
    ensures (k + 1) as real * interval == k as real * interval + interval
  {
    assert (k + 1) as real == k as real + 1.0;
  }

  class RateAwareRequestScheduler {
    const minInterval: real
    const maxConsecutive: int
    const world: World
    var lastRequestAt: Option<real>
    var consecutive: nat
    var rateLimitCount: nat
    var dimensions: seq<string>
    var lastRetryAfter: Option<real>
    /** When each request was let through. */
    ghost var starts: seq<real>

    ghost predicate Valid()
      reads this, world
    {
      && minInterval >= 0.0 && maxConsecutive >= 1
      && Spaced(starts, minInterval)
      && consecutive <= rateLimitCount
      && lastRequestAt == (if starts == [] then None else Some(starts[|starts| - 1]))
      && (starts != [] ==> starts[|starts| - 1] <= world.now)
    }

    constructor (minInterval: real, maxConsecutive: int, world: World)
      requires minInterval >= 0.0 && maxConsecutive >= 1
      ensures Valid() && starts == [] && consecutive == 0 && rateLimitCount == 0
      ensures this.minInterval == minInterval && this.maxConsecutive == maxConsecutive && this.world == world
    {
      this.minInterval, this.maxConsecutive, this.world := minInterval, maxConsecutive, world;
      lastRequestAt, consecutive, rateLimitCount, dimensions, lastRetryAfter := None, 0, 0, [], None;
      starts := [];
    }

    /** A scheduler, unless the settings are refused. */
    static method Create(minInterval: real, maxConsecutive: int, world: World)
      returns (made: Result<RateAwareRequestScheduler, string>)
      ensures made.Ok? <==> minInterval >= 0.0 && maxConsecutive >= 1
      ensures made.Ok? ==>
                && fresh(made.value) && made.value.Valid() && made.value.starts == []
                && made.value.minInterval == minInterval && made.value.maxConsecutive == maxConsecutive
    {
      if minInterval < 0.0 {
        return Err("minimum request interval cannot be negative");
      }
      if maxConsecutive < 1 {
        return Err("maximum consecutive rate limits must be positive");
      }
      var scheduler := new RateAwareRequestScheduler(minInterval, maxConsecutive, world);
      return Ok(scheduler);
    }

    /** Lets one request start now, at least the interval after the last one. */
    method BeforeRequest()
      requires Valid()
      modifies this`lastRequestAt, this`starts, world
      ensures Valid()
      ensures world.now >= old(world.now)
      ensures starts == old(starts) + [world.now]
    {
      if lastRequestAt.Some? {
        var time := world.Clock();
        var remaining := minInterval - (time - lastRequestAt.value);
        if remaining > 0.0 {
          world.Sleep(remaining);
        }
      }
      var time := world.Clock();
      lastRequestAt := Some(time);
      starts := starts + [time];
    }

    /** Counts an answer; an error exactly when the run must stop here. */
    method Observe(errorClass: Option<string>, retryAfter: Option<real>, dimension: Option<string>)
      returns (verdict: Result<(), StopError>)
      requires Valid()
      modifies this`consecutive, this`rateLimitCount, this`dimensions, this`lastRetryAfter
      ensures Valid()
      ensures consecutive == NextCount(old(consecutive), errorClass)
      ensures rateLimitCount == old(rateLimitCount) + if Limited(errorClass) then 1 else 0
      ensures lastRetryAfter == if Limited(errorClass) then retryAfter else None
      ensures dimensions == old(dimensions) + if Limited(errorClass) && dimension.Some? && dimension.value != ""
                                              then [dimension.value] else []
      ensures verdict.Err? <==> Stops(maxConsecutive, old(consecutive), errorClass, dimension)
      ensures verdict == Err(DailyQuotaExhausted) <==> DailyQuota(errorClass, dimension)
    {
      if errorClass == Some("API_RATE_LIMIT") {
        rateLimitCount := rateLimitCount + 1;
        consecutive := consecutive + 1;
        lastRetryAfter := retryAfter;
        if dimension.Some? && dimension.value != "" {
          dimensions := dimensions + [dimension.value];
        }
        if dimension == Some("RPD") {
          return Err(DailyQuotaExhausted);
        }
        if consecutive >= maxConsecutive {
          return Err(CircuitBroken);
        }
      } else {
        consecutive := 0;
        lastRetryAfter := None;
      }
      return Ok(());
    }

    /** Waits the interval at least, and as long as the provider asked, now or else with its last limit. */
    method WaitBeforeRetry(retryAfter: Option<real>)
      requires Valid()
      modifies world
      ensures Valid()
      ensures world.now >= old(world.now) + minInterval
      ensures retryAfter.Some? ==> world.now >= old(world.now) + retryAfter.value
      ensures retryAfter.None? && lastRetryAfter.Some? ==> world.now >= old(world.now) + lastRetryAfter.value
    {
      var requested := if retryAfter.Some? then retryAfter else lastRetryAfter;
      var delay := minInterval;
      if requested.Some? && requested.value > delay {
        delay := requested.value;
      }
      if delay > 0.0 {
        world.Sleep(delay);
      }
    }
  }
}
