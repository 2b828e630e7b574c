/** Why a pilot session stops: each reason holds at the last call and at no call before it. */
module PilotStops {
  import opened Results
  import opened PilotProtocol
  import opened PilotLaws

  /** A trace a guard refuses leaves the whole store, and the accepted versions, as they were before the call. */
  lemma ViolationStoresNothing(plan: Plan, s: Session, provider: string, exampleId: string, retry: nat,
                               regeneration: nat)
    ensures var (s', v) := CallOnce(plan, s, provider, exampleId, retry, regeneration);
            v == Stop(VersionChanged) ==>
              && s'.store == s.store && s'.resumed == s.resumed
              && RefusedAnswer(plan, s', plan.oracle(|s.log|, provider, exampleId))
  {
    hide Key, Trips, VersionAllowed;
  }

  ghost predicate RefusedAnswer(plan: Plan, s: Session, answer: Answer) {
    && answer.Traced? && answer.trace.prediction.Some?
    && plan.guard.Some? && !VersionAllowed(plan.guard.value, s.resumed, answer.trace)
  }

  /** Raising ends the session; a spent budget, a raised call or a refused version is what its reason says. */
  ghost predicate Explained(plan: Plan, s: Session, s': Session, ended: Option<Reason>)
    requires |s.log| <= |s'.log|
  {
    var calls := New(s, s');
    && (forall i :: 0 <= i < |calls| ==>
          (calls[i].answer.Raised? <==> ended == Some(EvaluatorRaised) && i == |calls| - 1))
    && (ended == Some(BudgetExhausted) ==> plan.ceiling.Some? && s'.used >= plan.ceiling.value)
    && (ended == Some(EvaluatorRaised) || ended == Some(VersionChanged) ==>
          calls != [] && !IsSuccessful(s'.store, CallKey(calls[|calls| - 1])))
    && (ended == Some(VersionChanged) ==> RefusedAnswer(plan, s', calls[|calls| - 1].answer))
  }

  lemma ExplainedJoins(plan: Plan, a: Session, b: Session, c: Session, ended: Option<Reason>)
    requires a.log <= b.log && b.log <= c.log
    requires Explained(plan, a, b, None) && Explained(plan, b, c, ended)
    requires ended == Some(EvaluatorRaised) ==> |b.log| < |c.log|
    ensures Explained(plan, a, c, ended)
  {
    NewSplits(a, b, c);
    hide New, RefusedAnswer, CallKey, IsSuccessful;
  }

  function WhyStep(v: Verdict): Option<Reason> { if v.Stop? then Some(v.reason) else None }

  function WhyPair(end: PairEnd): Option<Reason> { if end.Halted? then Some(end.reason) else None }

  function Why(outcome: Outcome): Option<Reason> { if outcome.Stopped? then Some(outcome.reason) else None }

  lemma StepExplained(plan: Plan, s: Session, provider: string, exampleId: string, retry: nat, regeneration: nat)
    requires !IsSuccessful(s.store, Key(provider, exampleId))
    ensures var (s', v) := CallOnce(plan, s, provider, exampleId, retry, regeneration);
            s.log <= s'.log && Explained(plan, s, s', WhyStep(v))
  {
    StepProgress(plan, s, provider, exampleId, retry, regeneration);
    ViolationStoresNothing(plan, s, provider, exampleId, retry, regeneration);
    StopsForReason(plan, s, provider, exampleId, retry, regeneration);
    hide Settle, Key, Trips, CounterAfter, Progress, RefusedAnswer, CallOnce, IsSuccessful, StepEnd;
  }

  lemma StopsForReason(plan: Plan, s: Session, provider: string, exampleId: string, retry: nat, regeneration: nat)
    requires !IsSuccessful(s.store, Key(provider, exampleId))
    ensures var (s', v) := CallOnce(plan, s, provider, exampleId, retry, regeneration);
            var spent := plan.ceiling.Some? && s.used >= plan.ceiling.value;
            && (v == Stop(BudgetExhausted) <==> spent)
            && (v == Stop(EvaluatorRaised) <==> !spent && plan.oracle(|s.log|, provider, exampleId).Raised?)
            && (v == Stop(EvaluatorRaised) ==> s'.store == s.store)
  {
    var asked := Asked(plan, s, provider, exampleId);
    var answer := plan.oracle(|s.log|, provider, exampleId);
    if answer.Traced? {
      SettleKeeps(plan, asked, provider, exampleId, retry, regeneration, answer.trace);
      SettleKeeps(plan, asked.(consecutive := CounterAfter(s.consecutive, answer.trace)), provider, exampleId,
                  retry, regeneration, answer.trace);
    }
    hide Settle, Key, Trips, CounterAfter, StepEnd;
  }

  lemma {:induction false} PairExplained(plan: Plan, s: Session, provider: string, exampleId: string, retry: nat,
                                         regeneration: nat)
    requires !IsSuccessful(s.store, Key(provider, exampleId))
    ensures var (s', end) := RunPair(plan, s, provider, exampleId, retry, regeneration);
            s.log <= s'.log && Explained(plan, s, s', WhyPair(end))
    decreases Left(plan.maxRetries, retry) + Left(plan.Allowance(provider), regeneration)
  {
    var (s1, v) := CallOnce(plan, s, provider, exampleId, retry, regeneration);
    StepProgress(plan, s, provider, exampleId, retry, regeneration);
    StepExplained(plan, s, provider, exampleId, retry, regeneration);
    AgainUsesUp(plan, s, provider, exampleId, retry, regeneration);
    if v.Again? {
      PairExplained(plan, s1, provider, exampleId, v.retry, v.regeneration);
      var (s2, end) := RunPair(plan, s1, provider, exampleId, v.retry, v.regeneration);
      RaisedAddsACall(plan, s1, s2, WhyPair(end));
      hide CallOnce, RunPair, Left, Progress, Explained;
      ExplainedJoins(plan, s, s1, s2, WhyPair(end));
    }
  }

  lemma RaisedAddsACall(plan: Plan, s: Session, s': Session, ended: Option<Reason>)
    requires |s.log| <= |s'.log| && Explained(plan, s, s', ended)
    ensures ended == Some(EvaluatorRaised) ==> |s.log| < |s'.log|
  {
  }

  /** A session that stops does so for the reason it gives. */
  lemma {:induction false} GridExplained(plan: Plan, s: Session, pairs: seq<Pair>, results: seq<Record>)
    ensures var (s', outcome) := RunGrid(plan, s, pairs, results);
            s.log <= s'.log && Explained(plan, s, s', Why(outcome))
    decreases |pairs|
  {
    if pairs == [] {
    } else {
      var (provider, exampleId) := pairs[0];
      if IsSuccessful(s.store, KeyOf(pairs[0])) {
        GridExplained(plan, s, pairs[1..], results + [s.store[KeyOf(pairs[0])]]);
      } else {
        var (s1, end) := RunPair(plan, s, provider, exampleId, 0, 0);
        PairExplained(plan, s, provider, exampleId, 0, 0);
        if end.Recorded? {
          GridExplained(plan, s1, pairs[1..], results + [end.record]);
          var (s2, outcome) := RunGrid(plan, s1, pairs[1..], results + [end.record]);
          RaisedAddsACall(plan, s1, s2, Why(outcome));
          hide RunPair, RunGrid, Explained;
          ExplainedJoins(plan, s, s1, s2, Why(outcome));
        }
      }
    }
  }

  // ----- the breaker, from a fresh scheduler -----

  /** The last `limit` calls up to call i all hit the rate limit. */
  ghost predicate Window(limit: nat, calls: seq<Call>, i: nat)
    requires i < |calls|
  {
    i + 1 >= limit && forall j :: i + 1 - limit <= j <= i ==> IsLimited(calls[j])
  }

  lemma TripsExactly(limit: nat, calls: seq<Call>, i: nat)
    requires limit >= 1 && i < |calls|
    requires forall j :: 0 <= j < i ==> calls[j].answer.Traced?
    ensures TripsAt(limit, 0, calls, i) <==>
            IsLimited(calls[i]) && (calls[i].answer.trace.dimension == Some("RPD") || Window(limit, calls, i))
  {
    if IsLimited(calls[i]) {
      CounterIsSuffixLength(calls[..i]);
      var k := Fold(0, calls[..i]);
      assert forall j :: i - k <= j < i ==> calls[j] == calls[..i][j];
      hide Fold;
      if k < i {
        assert calls[i - k - 1] == calls[..i][i - k - 1];
        assert !IsLimited(calls[i - k - 1]);
      }
    }
  }

  /**
   * From a fresh scheduler a session is stopped for rate limits at exactly the first call that reports a daily
   * quota or is the limit-th rate limit in a row; no call follows, and that call left a FAILED record.
   */
  lemma BreakerExact(plan: Plan, s: Session, pairs: seq<Pair>, limit: nat)
    requires plan.breaker == Some(limit) && limit >= 1 && s.consecutive == 0
    ensures var (s', outcome) := RunGrid(plan, s, pairs, []);
            && s.log <= s'.log
            && var calls := New(s, s');
            && (forall i :: 0 <= i < |calls| ==>
                  (IsLimited(calls[i]) && (calls[i].answer.trace.dimension == Some("RPD") || Window(limit, calls, i))
                   <==> outcome == Stopped(RateLimited) && i == |calls| - 1))
            && (outcome == Stopped(RateLimited) ==> calls != [] && StopRecorded(s', calls[|calls| - 1]))
  {
    GridLawful(plan, s, pairs, []);
    GridExplained(plan, s, pairs, []);
    var (s', outcome) := RunGrid(plan, s, pairs, []);
    var calls := New(s, s');
    hide RunGrid, New, Fold, Guarded, StopRecorded, IsLimited, Window;
    forall i | 0 <= i < |calls|
      ensures IsLimited(calls[i]) && (calls[i].answer.trace.dimension == Some("RPD") || Window(limit, calls, i))
              <==> outcome == Stopped(RateLimited) && i == |calls| - 1
    {
      assert forall j :: 0 <= j < i ==> calls[j].answer.Traced?;
      TripsExactly(limit, calls, i);
      hide TripsAt;
    }
  }
}
