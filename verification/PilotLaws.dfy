/** What every pilot session keeps, whatever the evaluator answers and wherever the session stops. */
module PilotLaws {
  import opened Orders
  import opened Results
  import opened PilotProtocol

  function CallKey(c: Call): string { Key(c.provider, c.exampleId) }

  /** The calls a session made since an earlier state of it. */
  function New(s: Session, s': Session): seq<Call>
    requires |s.log| <= |s'.log|
  {
    s'.log[|s.log|..]
  }

  ghost predicate SuccessKept(store: Store, store': Store) {
    forall k :: IsSuccessful(store, k) ==> k in store' && store'[k] == store[k]
  }

  ghost predicate OnlyAt(store: Store, store': Store, key: string) {
    forall k :: k != key ==> (k in store <==> k in store') && (k in store ==> store'[k] == store[k])
  }

  /** Successes survive, paid requests are exactly the calls, and no call is for an example already successful. */
  ghost predicate Progress(plan: Plan, s: Session, s': Session) {
    && s.log <= s'.log
    && s'.used - s.used == |s'.log| - |s.log|
    && (plan.ceiling.Some? && s.used <= plan.ceiling.value ==> s'.used <= plan.ceiling.value)
    && SuccessKept(s.store, s'.store)
    && (forall i :: |s.log| <= i < |s'.log| ==> !IsSuccessful(s.store, CallKey(s'.log[i])))
    && (forall i :: |s.log| <= i < |s'.log| ==>
          s'.log[i].answer == plan.oracle(i, s'.log[i].provider, s'.log[i].exampleId))
  }

  lemma ProgressTransitive(plan: Plan, a: Session, b: Session, c: Session)
    requires Progress(plan, a, b) && Progress(plan, b, c)
    ensures Progress(plan, a, c)
  {
    forall i | |a.log| <= i < |c.log|
      ensures !IsSuccessful(a.store, CallKey(c.log[i]))
      ensures c.log[i].answer == plan.oracle(i, c.log[i].provider, c.log[i].exampleId)
    {
      if i < |b.log| {
        assert c.log[i] == b.log[i];
      }
    }
  }

  /** Recording an answer touches the store at this example only, and never fails. */
  lemma SettleKeeps(plan: Plan, s: Session, provider: string, exampleId: string, retry: nat, regeneration: nat,
                    trace: Trace)
    requires !IsSuccessful(s.store, Key(provider, exampleId))
    ensures var (s', v) := Settle(plan, s, provider, exampleId, retry, regeneration, trace);
            && s'.log == s.log && s'.used == s.used && s'.consecutive == s.consecutive
            && StepEnd(s, s', v, Key(provider, exampleId), retry + regeneration + 1)
            && (v.Stop? ==> v.reason == VersionChanged && s' == s)
  {
  }

  ghost predicate StepEnd(s: Session, s': Session, v: Verdict, key: string, attempt: nat) {
    && OnlyAt(s.store, s'.store, key)
    && v != Stop(StoreConflict)
    && (v.Again? ==> !IsSuccessful(s'.store, key))
    && (v.Done? ==> key in s'.store && s'.store[key] == v.record && v.record.attempt == attempt)
  }

  /** Paying for and logging one call, and changing the store at that example only, is progress. */
  lemma OneCallProgress(plan: Plan, s: Session, s': Session, provider: string, exampleId: string)
    requires !IsSuccessful(s.store, Key(provider, exampleId))
    requires plan.ceiling.Some? ==> s.used < plan.ceiling.value
    requires s'.used == s.used + 1
    requires s'.log == s.log + [Call(provider, exampleId, plan.oracle(|s.log|, provider, exampleId))]
    requires OnlyAt(s.store, s'.store, Key(provider, exampleId))
    ensures Progress(plan, s, s')
    ensures New(s, s') == [Call(provider, exampleId, plan.oracle(|s.log|, provider, exampleId))]
  {
    hide Key;
  }

  /** One call on an example not yet successful. */
  lemma StepProgress(plan: Plan, s: Session, provider: string, exampleId: string, retry: nat, regeneration: nat)
    requires !IsSuccessful(s.store, Key(provider, exampleId))
    ensures var (s', v) := CallOnce(plan, s, provider, exampleId, retry, regeneration);
            && Progress(plan, s, s')
            && StepEnd(s, s', v, Key(provider, exampleId), retry + regeneration + 1)
            && (if v == Stop(BudgetExhausted) then s' == s
                else New(s, s') == [Call(provider, exampleId, plan.oracle(|s.log|, provider, exampleId))])
  {
    var asked := Asked(plan, s, provider, exampleId);
    var answer := plan.oracle(|s.log|, provider, exampleId);
    if answer.Traced? {
      var counted := asked.(consecutive := CounterAfter(s.consecutive, answer.trace));
      SettleKeeps(plan, asked, provider, exampleId, retry, regeneration, answer.trace);
      SettleKeeps(plan, counted, provider, exampleId, retry, regeneration, answer.trace);
    }
    hide Settle, Key, Trips, CounterAfter, Progress, New;
    var s' := CallOnce(plan, s, provider, exampleId, retry, regeneration).0;
    if !(plan.ceiling.Some? && s.used >= plan.ceiling.value) {
      OneCallProgress(plan, s, s', provider, exampleId);
    } else {
      NoProgress(plan, s);
    }
  }

  lemma NoProgress(plan: Plan, s: Session)
    ensures Progress(plan, s, s)
  {
  }

  /** One example: all its calls are its own, there are not too many, and a record says how many there were. */
  lemma {:induction false} PairProgress(plan: Plan, s: Session, provider: string, exampleId: string, retry: nat,
                                        regeneration: nat)
    requires !IsSuccessful(s.store, Key(provider, exampleId))
    ensures var (s', end) := RunPair(plan, s, provider, exampleId, retry, regeneration);
            && Progress(plan, s, s')
            && OnlyAt(s.store, s'.store, Key(provider, exampleId))
            && end != Halted(StoreConflict)
            && (forall i :: 0 <= i < |New(s, s')| ==>
                  New(s, s')[i].provider == provider && New(s, s')[i].exampleId == exampleId)
            && |New(s, s')| <= 1 + Left(plan.maxRetries, retry) + Left(plan.Allowance(provider), regeneration)
            && (end.Recorded? ==> Key(provider, exampleId) in s'.store
                                  && s'.store[Key(provider, exampleId)] == end.record
                                  && end.record.attempt == retry + regeneration + |New(s, s')|)
    decreases Left(plan.maxRetries, retry) + Left(plan.Allowance(provider), regeneration)
  {
    var (s1, v) := CallOnce(plan, s, provider, exampleId, retry, regeneration);
    StepProgress(plan, s, provider, exampleId, retry, regeneration);
    AgainUsesUp(plan, s, provider, exampleId, retry, regeneration);
    if v.Again? {
      PairProgress(plan, s1, provider, exampleId, v.retry, v.regeneration);
      var s2 := RunPair(plan, s1, provider, exampleId, v.retry, v.regeneration).0;
      hide CallOnce, RunPair, Left;
      ProgressTransitive(plan, s, s1, s2);
      NewSplits(s, s1, s2);
    }
  }

  lemma NewSplits(a: Session, b: Session, c: Session)
    requires a.log <= b.log && b.log <= c.log
    ensures New(a, c) == New(a, b) + New(b, c)
  {
  }

  // ----- the rate-limit breaker -----

  /** The scheduler's counter after a list of calls; a call that raised is never observed. */
  function Fold(counter: nat, calls: seq<Call>): nat {
    if calls == [] then counter
    else
      var last := calls[|calls| - 1].answer;
      var before := Fold(counter, calls[..|calls| - 1]);
      if last.Traced? then CounterAfter(before, last.trace) else before
  }

  /** Call i is where the breaker trips: a daily quota, or the limit-th rate limit in a row. */
  predicate TripsAt(limit: nat, counter: nat, calls: seq<Call>, i: nat)
    requires i < |calls|
  {
    calls[i].answer.Traced? && Trips(limit, Fold(counter, calls[..i]), calls[i].answer.trace)
  }

  predicate IsLimited(c: Call) { c.answer.Traced? && c.answer.trace.errorClass == Some("API_RATE_LIMIT") }

  /** From a fresh scheduler the counter is the length of the current run of rate limits. */
  lemma {:induction false} CounterIsSuffixLength(calls: seq<Call>)
    requires forall i :: 0 <= i < |calls| ==> calls[i].answer.Traced?
    ensures var k := Fold(0, calls);
            && k <= |calls|
            && (forall i :: |calls| - k <= i < |calls| ==> IsLimited(calls[i]))
            && (k < |calls| ==> !IsLimited(calls[|calls| - k - 1]))
  {
    if calls != [] {
      CounterIsSuffixLength(calls[..|calls| - 1]);
    }
  }

  lemma {:induction false} FoldSplits(counter: nat, a: seq<Call>, b: seq<Call>)
    ensures Fold(counter, a + b) == Fold(Fold(counter, a), b)
  {
    if b == [] {
      assert a + b == a;
    } else {
      assert (a + b)[..|a + b| - 1] == a + b[..|b| - 1];
      FoldSplits(counter, a, b[..|b| - 1]);
    }
  }

  /**
   * The counter follows the calls; they trip the breaker at the last one if the session was stopped there, else
   * nowhere.
   */
  ghost predicate Watched(plan: Plan, s: Session, s': Session, tripped: bool)
    requires |s.log| <= |s'.log|
  {
    var calls := New(s, s');
    && (plan.breaker.None? ==> !tripped)
    && (plan.breaker.Some? ==>
          && s'.consecutive == Fold(s.consecutive, calls)
          && (forall i :: 0 <= i < |calls| ==>
                (TripsAt(plan.breaker.value, s.consecutive, calls, i) <==> tripped && i == |calls| - 1)))
    && (tripped ==> calls != [] && StopRecorded(s', calls[|calls| - 1]))
  }

  /** The call that tripped the breaker left a FAILED record with its trace. */
  ghost predicate StopRecorded(s: Session, c: Call) {
    && c.answer.Traced? && CallKey(c) in s.store
    && s.store[CallKey(c)].status == Failed && s.store[CallKey(c)].trace == c.answer.trace
  }

  lemma WatchedJoins(plan: Plan, a: Session, b: Session, c: Session, tripped: bool)
    requires a.log <= b.log && b.log <= c.log
    requires Watched(plan, a, b, false) && Watched(plan, b, c, tripped)
    requires tripped ==> |b.log| < |c.log|
    ensures Watched(plan, a, c, tripped)
  {
    NewSplits(a, b, c);
    var x, y := New(a, b), New(b, c);
    FoldSplits(a.consecutive, x, y);
    hide Fold, TripsAt, StopRecorded, New;
    if plan.breaker.Some? {
      var limit := plan.breaker.value;
      forall i | 0 <= i < |x + y|
        ensures TripsAt(limit, a.consecutive, x + y, i) <==> tripped && i == |x + y| - 1
      {
        TripsAtSplits(limit, a.consecutive, x, y, i);
        if i < |x| {
          assert !TripsAt(limit, a.consecutive, x, i);
        } else {
          assert TripsAt(limit, b.consecutive, y, i - |x|) <==> tripped && i - |x| == |y| - 1;
        }
      }
    }
  }

  lemma TripsAtSplits(limit: nat, counter: nat, x: seq<Call>, y: seq<Call>, i: nat)
    requires i < |x + y|
    ensures i < |x| ==> (TripsAt(limit, counter, x + y, i) <==> TripsAt(limit, counter, x, i))
    ensures i >= |x| ==> (TripsAt(limit, counter, x + y, i) <==> TripsAt(limit, Fold(counter, x), y, i - |x|))
  {
    hide Trips, Fold;
    if i < |x| {
      assert (x + y)[..i] == x[..i];
    } else {
      FoldSplits(counter, x, y[..i - |x|]);
      assert (x + y)[..i] == x + y[..i - |x|];
    }
  }

  lemma OneCallWatched(plan: Plan, s: Session, s': Session, c: Call, tripped: bool)
    requires s'.log == s.log + [c]
    requires plan.breaker.Some? ==>
               s'.consecutive == if c.answer.Traced? then CounterAfter(s.consecutive, c.answer.trace) else s.consecutive
    requires tripped <==> plan.breaker.Some? && c.answer.Traced?
                          && Trips(plan.breaker.value, s.consecutive, c.answer.trace)
    requires tripped ==> StopRecorded(s', c)
    ensures Watched(plan, s, s', tripped)
  {
    var calls := New(s, s');
    assert calls == [c] && calls[..0] == [];
    assert Fold(s.consecutive, []) == s.consecutive;
    assert Fold(s.consecutive, calls)
        == if c.answer.Traced? then CounterAfter(s.consecutive, c.answer.trace) else s.consecutive;
    if plan.breaker.Some? {
      assert TripsAt(plan.breaker.value, s.consecutive, calls, 0) <==> tripped;
    }
  }

  lemma StepWatched(plan: Plan, s: Session, provider: string, exampleId: string, retry: nat, regeneration: nat)
    requires !IsSuccessful(s.store, Key(provider, exampleId))
    ensures var (s', v) := CallOnce(plan, s, provider, exampleId, retry, regeneration);
            s.log <= s'.log && Watched(plan, s, s', v == Stop(RateLimited))
  {
    var answer := plan.oracle(|s.log|, provider, exampleId);
    var c := Call(provider, exampleId, answer);
    var asked := Asked(plan, s, provider, exampleId);
    if answer.Traced? {
      SettleKeeps(plan, asked, provider, exampleId, retry, regeneration, answer.trace);
      SettleKeeps(plan, asked.(consecutive := CounterAfter(s.consecutive, answer.trace)), provider, exampleId,
                  retry, regeneration, answer.trace);
    }
    hide Settle, Trips, CounterAfter, Watched, Key;
    var (s', v) := CallOnce(plan, s, provider, exampleId, retry, regeneration);
    if plan.ceiling.Some? && s.used >= plan.ceiling.value {
      NotWatched(plan, s);
    } else {
      OneCallWatched(plan, s, s', c, v == Stop(RateLimited));
    }
  }

  lemma NotWatched(plan: Plan, s: Session)
    ensures Watched(plan, s, s, false)
  {
  }

  lemma {:induction false} PairWatched(plan: Plan, s: Session, provider: string, exampleId: string, retry: nat,
                                       regeneration: nat)
    requires !IsSuccessful(s.store, Key(provider, exampleId))
    ensures var (s', end) := RunPair(plan, s, provider, exampleId, retry, regeneration);
            s.log <= s'.log && Watched(plan, s, s', end == Halted(RateLimited))
    decreases Left(plan.maxRetries, retry) + Left(plan.Allowance(provider), regeneration)
  {
    var (s1, v) := CallOnce(plan, s, provider, exampleId, retry, regeneration);
    StepProgress(plan, s, provider, exampleId, retry, regeneration);
    StepWatched(plan, s, provider, exampleId, retry, regeneration);
    AgainUsesUp(plan, s, provider, exampleId, retry, regeneration);
    if v.Again? {
      PairWatched(plan, s1, provider, exampleId, v.retry, v.regeneration);
      var (s2, end) := RunPair(plan, s1, provider, exampleId, v.retry, v.regeneration);
      hide CallOnce, RunPair, Left, Progress, Watched;
      WatchedNonEmpty(plan, s1, s2, end == Halted(RateLimited));
      WatchedJoins(plan, s, s1, s2, end == Halted(RateLimited));
    }
  }

  lemma WatchedNonEmpty(plan: Plan, s: Session, s': Session, tripped: bool)
    requires |s.log| <= |s'.log| && Watched(plan, s, s', tripped)
    ensures tripped ==> |s.log| < |s'.log|
  {
  }

  // ----- the model-version guard -----

  /** New successes carry an accepted version, or none; accepted versions do not change once there are some. */
  ghost predicate Guarded(plan: Plan, s: Session, s': Session) {
    plan.guard.Some? ==>
      && s.resumed <= s'.resumed
      && (s.resumed != {} ==> s'.resumed == s.resumed)
      && (s.resumed == {} ==> s'.resumed == {} || exists v :: s'.resumed == {v})
      && (plan.guard.value != {} ==> s'.resumed - s.resumed <= plan.guard.value)
      && forall k :: IsSuccessful(s'.store, k) && !IsSuccessful(s.store, k) && HasVersion(s'.store[k].trace) ==>
           && s'.store[k].trace.modelVersion.value in s'.resumed
           && (plan.guard.value != {} ==> s'.store[k].trace.modelVersion.value in plan.guard.value)
  }

  lemma GuardedJoins(plan: Plan, a: Session, b: Session, c: Session)
    requires Guarded(plan, a, b) && Guarded(plan, b, c) && SuccessKept(b.store, c.store)
    ensures Guarded(plan, a, c)
  {
    if plan.guard.Some? {
      forall k | IsSuccessful(c.store, k) && !IsSuccessful(a.store, k) && HasVersion(c.store[k].trace)
        ensures c.store[k].trace.modelVersion.Some?
        ensures c.store[k].trace.modelVersion.value in c.resumed
        ensures plan.guard.value != {} ==> c.store[k].trace.modelVersion.value in plan.guard.value
      {
        if IsSuccessful(b.store, k) {
          assert c.store[k] == b.store[k];
        }
      }
    }
  }

  lemma SettleGuarded(plan: Plan, s: Session, provider: string, exampleId: string, retry: nat, regeneration: nat,
                      trace: Trace)
    requires !IsSuccessful(s.store, Key(provider, exampleId))
    ensures Guarded(plan, s, Settle(plan, s, provider, exampleId, retry, regeneration, trace).0)
  {
    hide Key, IsRegenerable, IsRetryable;
  }

  lemma StepGuarded(plan: Plan, s: Session, provider: string, exampleId: string, retry: nat, regeneration: nat)
    requires !IsSuccessful(s.store, Key(provider, exampleId))
    ensures Guarded(plan, s, CallOnce(plan, s, provider, exampleId, retry, regeneration).0)
  {
    var answer := plan.oracle(|s.log|, provider, exampleId);
    var asked := Asked(plan, s, provider, exampleId);
    if answer.Traced? {
      SettleGuarded(plan, asked, provider, exampleId, retry, regeneration, answer.trace);
      var counted := asked.(consecutive := CounterAfter(s.consecutive, answer.trace));
      SettleGuarded(plan, counted, provider, exampleId, retry, regeneration, answer.trace);
      FailureGuarded(plan, counted, Record(provider, exampleId, retry + regeneration + 1, Failed, answer.trace),
                     Stop(RateLimited));
    }
    hide Settle, Keep, Trips, CounterAfter, HasVersion, Key;
  }

  lemma FailureGuarded(plan: Plan, s: Session, record: Record, verdict: Verdict)
    requires record.status == Failed
    ensures Guarded(plan, s, Keep(s, record, verdict).0)
  {
    hide Key, HasVersion;
  }

  lemma {:induction false} PairGuarded(plan: Plan, s: Session, provider: string, exampleId: string, retry: nat,
                                       regeneration: nat)
    requires !IsSuccessful(s.store, Key(provider, exampleId))
    ensures Guarded(plan, s, RunPair(plan, s, provider, exampleId, retry, regeneration).0)
    decreases Left(plan.maxRetries, retry) + Left(plan.Allowance(provider), regeneration)
  {
    var (s1, v) := CallOnce(plan, s, provider, exampleId, retry, regeneration);
    StepProgress(plan, s, provider, exampleId, retry, regeneration);
    StepGuarded(plan, s, provider, exampleId, retry, regeneration);
    AgainUsesUp(plan, s, provider, exampleId, retry, regeneration);
    if v.Again? {
      PairGuarded(plan, s1, provider, exampleId, v.retry, v.regeneration);
      PairProgress(plan, s1, provider, exampleId, v.retry, v.regeneration);
      var s2 := RunPair(plan, s1, provider, exampleId, v.retry, v.regeneration).0;
      hide CallOnce, RunPair, Left, Guarded, New, OnlyAt;
      GuardedJoins(plan, s, s1, s2);
    }
  }

  // ----- the whole grid -----

  ghost predicate Lawful(plan: Plan, s: Session, s': Session, outcome: Outcome) {
    && Progress(plan, s, s')
    && Guarded(plan, s, s')
    && outcome != Stopped(StoreConflict)
    && Watched(plan, s, s', outcome == Stopped(RateLimited))
  }

  /** Any run over any grid, complete or cut short, obeys all of these laws. */
  lemma {:induction false} GridLawful(plan: Plan, s: Session, pairs: seq<Pair>, results: seq<Record>)
    ensures var (s', outcome) := RunGrid(plan, s, pairs, results);
            Lawful(plan, s, s', outcome)
    decreases |pairs|
  {
    if pairs == [] {
      NoProgress(plan, s);
      NotWatched(plan, s);
    } else {
      var (provider, exampleId) := pairs[0];
      if IsSuccessful(s.store, KeyOf(pairs[0])) {
        GridLawful(plan, s, pairs[1..], results + [s.store[KeyOf(pairs[0])]]);
      } else {
        var (s1, end) := RunPair(plan, s, provider, exampleId, 0, 0);
        PairProgress(plan, s, provider, exampleId, 0, 0);
        PairWatched(plan, s, provider, exampleId, 0, 0);
        PairGuarded(plan, s, provider, exampleId, 0, 0);
        if end.Recorded? {
          GridLawful(plan, s1, pairs[1..], results + [end.record]);
          var (s2, outcome) := RunGrid(plan, s1, pairs[1..], results + [end.record]);
          hide RunPair, RunGrid, Progress, Watched, Guarded, New, OnlyAt;
          LawfulJoins(plan, s, s1, s2, outcome);
        }
      }
    }
  }

  lemma LawfulJoins(plan: Plan, a: Session, b: Session, c: Session, outcome: Outcome)
    requires Progress(plan, a, b) && Guarded(plan, a, b) && Watched(plan, a, b, false)
    requires Lawful(plan, b, c, outcome)
    ensures Lawful(plan, a, c, outcome)
  {
    ProgressTransitive(plan, a, b, c);
    GuardedJoins(plan, a, b, c);
    WatchedNonEmpty(plan, b, c, outcome == Stopped(RateLimited));
    WatchedJoins(plan, a, b, c, outcome == Stopped(RateLimited));
  }

  // ----- calls per example -----

  function PairOf(c: Call): Pair { (c.provider, c.exampleId) }

  /** The calls, in order, on one example. */
  function CallsOn(calls: seq<Call>, pair: Pair): seq<Call> {
    if calls == [] then []
    else
      var last := calls[|calls| - 1];
      CallsOn(calls[..|calls| - 1], pair) + if PairOf(last) == pair then [last] else []
  }

  lemma {:induction false} CallsOnSplits(a: seq<Call>, b: seq<Call>, pair: Pair)
    ensures CallsOn(a + b, pair) == CallsOn(a, pair) + CallsOn(b, pair)
  {
    if b == [] {
      assert a + b == a;
    } else {
      assert (a + b)[..|a + b| - 1] == a + b[..|b| - 1];
      CallsOnSplits(a, b[..|b| - 1], pair);
    }
  }

  lemma {:induction false} CallsOnOne(calls: seq<Call>, pair: Pair)
    ensures (forall c :: c in calls ==> PairOf(c) == pair) ==> CallsOn(calls, pair) == calls
    ensures (forall c :: c in calls ==> PairOf(c) != pair) ==> CallsOn(calls, pair) == []
  {
    if calls != [] {
      CallsOnOne(calls[..|calls| - 1], pair);
      assert calls == calls[..|calls| - 1] + [calls[|calls| - 1]];
    }
  }

  function CallBound(plan: Plan, provider: string): nat {
    1 + Left(plan.maxRetries, 0) + Left(plan.Allowance(provider), 0)
  }

  /** In one session an example is asked at most 1 + max_retries + its regeneration allowance times. */
  lemma {:induction false} CallsBounded(plan: Plan, s: Session, pairs: seq<Pair>, results: seq<Record>, pair: Pair)
    requires NoDuplicates(pairs)
    ensures var s' := RunGrid(plan, s, pairs, results).0;
            && s.log <= s'.log
            && |CallsOn(New(s, s'), pair)| <= (if pair in pairs then CallBound(plan, pair.0) else 0)
    decreases |pairs|
  {
    if pairs == [] {
      CallsOnOne(New(s, s), pair);
    } else {
      var (provider, exampleId) := pairs[0];
      assert pairs == [pairs[0]] + pairs[1..];
      DistinctTail(pairs);
      if IsSuccessful(s.store, KeyOf(pairs[0])) {
        CallsBounded(plan, s, pairs[1..], results + [s.store[KeyOf(pairs[0])]], pair);
      } else {
        var (s1, end) := RunPair(plan, s, provider, exampleId, 0, 0);
        PairProgress(plan, s, provider, exampleId, 0, 0);
        CallsOnOne(New(s, s1), pair);
        if end.Recorded? {
          CallsBounded(plan, s1, pairs[1..], results + [end.record], pair);
          var s2 := RunGrid(plan, s1, pairs[1..], results + [end.record]).0;
          hide RunPair, RunGrid, Progress, OnlyAt;
          NewSplits(s, s1, s2);
          CallsOnSplits(New(s, s1), New(s1, s2), pair);
        }
      }
    }
  }

  // ----- the results of a complete run -----

  ghost predicate DistinctKeys(pairs: seq<Pair>) {
    forall i, j :: 0 <= i < j < |pairs| ==> KeyOf(pairs[i]) != KeyOf(pairs[j])
  }

  /** Examples outside the pairs still to do keep their records. */
  lemma {:induction false} GridTouchesOnly(plan: Plan, s: Session, pairs: seq<Pair>, results: seq<Record>, key: string)
    requires forall i :: 0 <= i < |pairs| ==> KeyOf(pairs[i]) != key
    ensures var s' := RunGrid(plan, s, pairs, results).0;
            (key in s.store <==> key in s'.store) && (key in s.store ==> s'.store[key] == s.store[key])
    decreases |pairs|
  {
    if pairs != [] {
      var (provider, exampleId) := pairs[0];
      if IsSuccessful(s.store, KeyOf(pairs[0])) {
        GridTouchesOnly(plan, s, pairs[1..], results + [s.store[KeyOf(pairs[0])]], key);
      } else {
        var (s1, end) := RunPair(plan, s, provider, exampleId, 0, 0);
        PairProgress(plan, s, provider, exampleId, 0, 0);
        if end.Recorded? {
          GridTouchesOnly(plan, s1, pairs[1..], results + [end.record], key);
        }
      }
    }
  }

  /** A run that returns reports one record per example, in grid order, each exactly as stored. */
  lemma {:induction false} ResultsMatchStore(plan: Plan, s: Session, pairs: seq<Pair>, results: seq<Record>)
    requires DistinctKeys(pairs)
    ensures var (s', outcome) := RunGrid(plan, s, pairs, results);
            outcome.Returned? ==>
              && |outcome.results| == |results| + |pairs|
              && outcome.results[..|results|] == results
              && forall i :: 0 <= i < |pairs| ==>
                   KeyOf(pairs[i]) in s'.store && outcome.results[|results| + i] == s'.store[KeyOf(pairs[i])]
    decreases |pairs|, 1
  {
    if pairs != [] {
      var (provider, exampleId) := pairs[0];
      if IsSuccessful(s.store, KeyOf(pairs[0])) {
        ResultsFollow(plan, s, pairs, results, s.store[KeyOf(pairs[0])]);
      } else {
        var (s1, end) := RunPair(plan, s, provider, exampleId, 0, 0);
        PairProgress(plan, s, provider, exampleId, 0, 0);
        if end.Recorded? {
          ResultsFollow(plan, s1, pairs, results, end.record);
        }
      }
    }
  }

  /** The rest of the grid, after the first example has ended with a record that is stored. */
  lemma {:induction false} ResultsFollow(plan: Plan, s: Session, pairs: seq<Pair>, results: seq<Record>, record: Record)
    requires DistinctKeys(pairs) && pairs != []
    requires KeyOf(pairs[0]) in s.store && s.store[KeyOf(pairs[0])] == record
    ensures var (s', outcome) := RunGrid(plan, s, pairs[1..], results + [record]);
            outcome.Returned? ==>
              && |outcome.results| == |results| + |pairs|
              && outcome.results[..|results|] == results
              && forall i :: 0 <= i < |pairs| ==>
                   KeyOf(pairs[i]) in s'.store && outcome.results[|results| + i] == s'.store[KeyOf(pairs[i])]
    decreases |pairs|, 0
  {
    var rest, longer := pairs[1..], results + [record];
    ResultsMatchStore(plan, s, rest, longer);
    GridTouchesOnly(plan, s, rest, longer, KeyOf(pairs[0]));
    var (s', outcome) := RunGrid(plan, s, rest, longer);
    hide RunGrid, Key;
    if outcome.Returned? {
      assert outcome.results[..|results|] == outcome.results[..|longer|][..|results|];
      assert outcome.results[|results|] == outcome.results[..|longer|][|results|];
      forall i | 0 <= i < |pairs|
        ensures KeyOf(pairs[i]) in s'.store && outcome.results[|results| + i] == s'.store[KeyOf(pairs[i])]
      {
        if i > 0 {
          assert rest[i - 1] == pairs[i];
        }
      }
    }
  }
}
