/** The objects of src/evalops/pilot/execution.py, and the run loop that drives them. */
module PilotExecution {
  import opened Results
  import opened Orders
  import opened RateLimits
  import opened Provenance
  import P = PilotProtocol
  import opened PilotLaws
  import opened PilotRecords

  /** A hard count of requests; none may start once it is spent. */
  class RequestBudget {
    const maxRequests: Option<nat>
    var used: nat

    constructor (maxRequests: Option<nat>)
      ensures used == 0 && this.maxRequests == maxRequests
    {
      this.maxRequests, used := maxRequests, 0;
    }

    static method Create(maxRequests: Option<int>) returns (made: Result<RequestBudget, string>)
      ensures made.Ok? <==> maxRequests.None? || maxRequests.value >= 1
      ensures made.Ok? ==> fresh(made.value) && made.value.used == 0 && made.value.maxRequests == maxRequests
    {
      if maxRequests.Some? && maxRequests.value < 1 {
        return Err("max_requests must be positive");
      }
      var limit: Option<nat> := if maxRequests.Some? then Some(maxRequests.value) else None;
      var budget := new RequestBudget(limit);
      return Ok(budget);
    }

    method Reserve() returns (granted: bool)
      modifies this
      ensures granted <==> maxRequests.None? || old(used) < maxRequests.value
      ensures used == old(used) + if granted then 1 else 0
    {
      if maxRequests.Some? && used >= maxRequests.value {
        return false;
      }
      used := used + 1;
      return true;
    }
  }

  class PilotStateStore {
    var records: P.Store

    constructor (loaded: P.Store)
      ensures records == loaded
    {
      records := loaded;
    }

    predicate IsSuccessful(provider: string, exampleId: string)
      reads this
    {
      P.IsSuccessful(records, P.Key(provider, exampleId))
    }

    function Get(provider: string, exampleId: string): Option<P.Record>
      reads this
    {
      if P.Key(provider, exampleId) in records then Some(records[P.Key(provider, exampleId)]) else None
    }

    /** Writes the record unless a success is already there; refuses a different success. */
    method Upsert(record: P.Record) returns (accepted: bool)
      modifies this
      ensures P.Upsert(old(records), record) == if accepted then Some(records) else None
      ensures !accepted ==> records == old(records)
    {
      var key := P.Key(record.provider, record.exampleId);
      if key in records && records[key].status == P.Success {
        return !(record.status == P.Success && records[key] != record);
      }
      records := records[key := record];
      return true;
    }
  }

  /** The providers' evaluators: any oracle, with the calls made so far. */
  class Evaluators {
    const oracle: P.Oracle
    var log: seq<P.Call>

    constructor (oracle: P.Oracle)
      ensures this.oracle == oracle && log == []
    {
      this.oracle, log := oracle, [];
    }

    method Evaluate(provider: string, exampleId: string) returns (answer: P.Answer)
      modifies this
      ensures answer == oracle(|old(log)|, provider, exampleId)
      ensures log == old(log) + [P.Call(provider, exampleId, answer)]
    {
      answer := oracle(|log|, provider, exampleId);
      log := log + [P.Call(provider, exampleId, answer)];
    }
  }

  datatype PilotError = MissingExamples | SessionStopped(reason: P.Reason)

  /** One call of run_provider_pilot: its arguments, and its loops. */
  class ProviderPilot {
    const maxRetries: int
    const regenerations: map<string, int>
    const store: PilotStateStore
    const budget: RequestBudget
    const evaluators: Evaluators
    const scheduler: RateAwareRequestScheduler?
    const continuity: ModelVersionContinuity?

    constructor (maxRetries: int, regenerations: map<string, int>, store: PilotStateStore, budget: RequestBudget,
                 evaluators: Evaluators, scheduler: RateAwareRequestScheduler?, continuity: ModelVersionContinuity?)
      ensures this.maxRetries == maxRetries && this.regenerations == regenerations && this.store == store
      ensures this.budget == budget && this.evaluators == evaluators
      ensures this.scheduler == scheduler && this.continuity == continuity
    {
      this.maxRetries, this.regenerations, this.store, this.budget := maxRetries, regenerations, store, budget;
      this.evaluators, this.scheduler, this.continuity := evaluators, scheduler, continuity;
    }

    ghost function Parts(): set<object> {
      {store, budget, evaluators}
      + (if scheduler != null then {scheduler, scheduler.world} else {})
      + (if continuity != null then {continuity} else {})
    }

    ghost predicate Valid()
      reads Parts()
    {
      && (scheduler != null ==> scheduler.Valid())
      && (continuity != null ==> continuity.Valid())
    }

    /** The plan these arguments amount to. */
    ghost function Settings(): P.Plan
      requires scheduler != null ==> scheduler.maxConsecutive >= 1
    {
      P.Plan(maxRetries, regenerations, budget.maxRequests,
             if scheduler != null then Some(scheduler.maxConsecutive) else None,
             if continuity != null then Some(continuity.historical) else None,
             evaluators.oracle)
    }

    /** What a session has changed so far, read off the objects. */
    ghost function State(): P.Session
      reads Parts()
    {
      P.Session(store.records, budget.used,
                if scheduler != null then scheduler.consecutive else 0,
                if continuity != null then continuity.resumed else {},
                evaluators.log)
    }

    /** How many requests the scheduler has let through, or zero without one. */
    ghost function Started(): nat
      reads Parts()
    {
      if scheduler != null then |scheduler.starts| else 0
    }

    /** Stores a record, and then goes on as told unless the store refuses it. */
    method Keep(record: P.Record, next: P.Verdict) returns (verdict: P.Verdict)
      requires Valid()
      modifies store
      ensures Valid() && Started() == old(Started())
      ensures (State(), verdict) == P.Keep(old(State()), record, next)
      ensures verdict.Again? ==> next.Again?
    {
      var accepted := store.Upsert(record);
      verdict := if accepted then next else P.Stop(P.StoreConflict);
    }

    /** Stores a record with a prediction, unless its model version is refused. */
    method KeepPrediction(record: P.Record) returns (verdict: P.Verdict)
      requires Valid()
      modifies Parts()
      ensures Valid() && Started() == old(Started()) && evaluators.log == old(evaluators.log)
      ensures scheduler != null ==> scheduler.starts == old(scheduler.starts)
      ensures !verdict.Again?
      ensures (State(), verdict) == P.KeepPrediction(Settings(), old(State()), record)
    {
      hide P.Key, Replay, Spaced;
      if continuity != null {
        var accepted := continuity.Observe(record.trace.modelVersion);
        if !accepted {
          return P.Stop(P.VersionChanged);
        }
      }
      verdict := Keep(record, P.Done(record));
    }

    /** Stores a failure that is to be retried, and waits if it was a rate limit. */
    method KeepAndWait(record: P.Record, next: P.Verdict) returns (verdict: P.Verdict)
      requires Valid() && next.Again?
      modifies Parts()
      ensures Valid() && Started() == old(Started()) && evaluators.log == old(evaluators.log)
      ensures scheduler != null ==> scheduler.starts == old(scheduler.starts)
      ensures (State(), verdict) == P.Keep(old(State()), record, next)
      ensures verdict.Again? && record.trace.errorClass == Some("API_RATE_LIMIT") && scheduler != null ==>
                && scheduler.world.now >= old(scheduler.world.now) + scheduler.minInterval
                && (record.trace.retryAfter.Some? ==>
                      scheduler.world.now >= old(scheduler.world.now) + record.trace.retryAfter.value)
    {
      hide P.Keep, Replay, Spaced;
      verdict := Keep(record, next);
      if verdict.Again? && record.trace.errorClass == Some("API_RATE_LIMIT") && scheduler != null {
        scheduler.WaitBeforeRetry(record.trace.retryAfter);
      }
    }

    /** Acts on an answer that did not trip the breaker. */
    method Settle(provider: string, exampleId: string, retry: nat, regeneration: nat, trace: P.Trace)
      returns (verdict: P.Verdict)
      requires Valid()
      modifies Parts()
      ensures Valid() && Started() == old(Started()) && evaluators.log == old(evaluators.log)
      ensures (State(), verdict) == P.Settle(Settings(), old(State()), provider, exampleId, retry, regeneration, trace)
      ensures scheduler != null ==> scheduler.starts == old(scheduler.starts)
      ensures verdict.Again? && trace.errorClass == Some("API_RATE_LIMIT") && scheduler != null ==>
                && scheduler.world.now >= old(scheduler.world.now) + scheduler.minInterval
                && (trace.retryAfter.Some? ==>
                      scheduler.world.now >= old(scheduler.world.now) + trace.retryAfter.value)
    {
      hide P.Key, P.Keep, P.KeepPrediction, Replay, Spaced;
      var allowance := if provider in regenerations then regenerations[provider] else 0;
      if trace.prediction.None? && trace.apiSuccess
         && (trace.errorClass == Some("PARSE_ERROR") || trace.errorClass == Some("SCHEMA_VALIDATION_ERROR"))
         && regeneration < allowance
      {
        return P.Again(retry, regeneration + 1);
      }
      var status := if trace.prediction.Some? then P.Success else P.Failed;
      var record := P.Record(provider, exampleId, retry + regeneration + 1, status, trace);
      if trace.prediction.Some? {
        verdict := KeepPrediction(record);
      } else if trace.errorClass.None? || trace.errorClass.value !in P.RETRYABLE || retry >= maxRetries {
        verdict := Keep(record, P.Done(record));
      } else {
        verdict := KeepAndWait(record, P.Again(retry + 1, regeneration));
      }
    }

    /** Reserves a request, waits for its turn and makes the call; nothing once the budget is spent. */
    method Ask(provider: string, exampleId: string) returns (answer: Option<P.Answer>)
      requires Valid()
      modifies Parts()
      ensures Valid()
      ensures answer.None? <==> budget.maxRequests.Some? && old(budget.used) >= budget.maxRequests.value
      ensures answer.None? ==> State() == old(State()) && Started() == old(Started())
      ensures answer.Some? ==>
                && answer.value == evaluators.oracle(|old(State()).log|, provider, exampleId)
                && State() == P.Asked(Settings(), old(State()), provider, exampleId)
                && (scheduler != null ==>
                      && Started() == old(Started()) + 1
                      && scheduler.starts[|scheduler.starts| - 1] <= scheduler.world.now)
    {
      var granted := budget.Reserve();
      if !granted {
        return None;
      }
      if scheduler != null {
        scheduler.BeforeRequest();
      }
      var made := evaluators.Evaluate(provider, exampleId);
      return Some(made);
    }

    /** Lets the scheduler, if there is one, see the answer; true when the run must stop here. */
    method Observe(trace: P.Trace) returns (stop: bool)
      requires Valid()
      modifies Parts()
      ensures Valid() && Started() == old(Started())
      ensures scheduler != null ==>
                scheduler.starts == old(scheduler.starts) && scheduler.world.now == old(scheduler.world.now)
      ensures scheduler == null ==> !stop && State() == old(State())
      ensures scheduler != null ==>
                && State() == old(State()).(consecutive := P.CounterAfter(old(State()).consecutive, trace))
                && (stop <==> P.Trips(scheduler.maxConsecutive, old(State()).consecutive, trace))
    {
      if scheduler == null {
        return false;
      }
      var observed := scheduler.Observe(trace.errorClass, trace.retryAfter, trace.dimension);
      return observed.Err?;
    }

    /** One pass of the retry loop: reserve, wait, ask, observe, and act on the answer. */
    method CallOnce(provider: string, exampleId: string, retry: nat, regeneration: nat) returns (verdict: P.Verdict)
      requires Valid()
      modifies Parts()
      ensures Valid()
      ensures scheduler != null ==>
                Started() - old(Started()) == |State().log| - |old(State()).log|
      ensures (State(), verdict) == P.CallOnce(Settings(), old(State()), provider, exampleId, retry, regeneration)
      ensures var answer := evaluators.oracle(|old(State()).log|, provider, exampleId);
              verdict.Again? && answer.trace.errorClass == Some("API_RATE_LIMIT") && scheduler != null ==>
                var start := scheduler.starts[|scheduler.starts| - 1];
                && scheduler.world.now >= start + scheduler.minInterval
                && (answer.trace.retryAfter.Some? ==> scheduler.world.now >= start + answer.trace.retryAfter.value)
    {
      hide P.Settle, P.Keep, P.Trips, P.CounterAfter, P.Key, Replay, Spaced;
      var asked := Ask(provider, exampleId);
      if asked.None? {
        return P.Stop(P.BudgetExhausted);
      }
      if asked.value.Raised? {
        return P.Stop(P.EvaluatorRaised);
      }
      var trace := asked.value.trace;
      var stop := Observe(trace);
      if stop {
        var failed := P.Record(provider, exampleId, retry + regeneration + 1, P.Failed, trace);
        verdict := Keep(failed, P.Stop(P.RateLimited));
        return;
      }
      verdict := Settle(provider, exampleId, retry, regeneration, trace);
    }

    /** Retries and regenerates one example until it is recorded or the session stops. */
    method EvaluateExample(provider: string, exampleId: string) returns (end: P.PairEnd)
      requires Valid()
      modifies Parts()
      ensures Valid()
      ensures scheduler != null ==>
                Started() - old(Started()) == |State().log| - |old(State()).log|
      ensures (State(), end) == P.RunPair(Settings(), old(State()), provider, exampleId, 0, 0)
    {
      ghost var plan := Settings();
      var retry, regeneration := 0, 0;
      while true
        invariant Valid()
        invariant scheduler != null ==> Started() - old(Started()) == |State().log| - |old(State()).log|
        invariant P.RunPair(plan, State(), provider, exampleId, retry, regeneration)
                  == P.RunPair(plan, old(State()), provider, exampleId, 0, 0)
        decreases P.Left(maxRetries, retry) + P.Left(plan.Allowance(provider), regeneration)
      {
        P.AgainUsesUp(plan, State(), provider, exampleId, retry, regeneration);
        hide P.CallOnce;
        var verdict := CallOnce(provider, exampleId, retry, regeneration);
        match verdict
        case Done(record) => return P.Recorded(record);
        case Stop(reason) => return P.Halted(reason);
        case Again(r, g) => retry, regeneration := r, g;
      }
    }

    lemma RowStep(provider: string, ids: seq<string>, rest: seq<P.Pair>, j: nat)
      requires j < |ids|
      ensures var row := P.Row(provider, ids);
              && (row[j..] + rest)[0] == (provider, ids[j]) && (row[j..] + rest)[1..] == row[j + 1..] + rest
    {
    }

    /** Every provider in this order, and for each the manifest in order, skipping what is already successful. */
    method RunSorted(ids: seq<string>, sorted: seq<string>) returns (results: Result<seq<P.Record>, P.Reason>)
      requires Valid()
      modifies Parts()
      ensures Valid()
      ensures P.RunGrid(Settings(), old(State()), P.Grid(sorted, ids), [])
              == (State(), if results.Ok? then P.Returned(results.value) else P.Stopped(results.error))
      ensures scheduler != null ==> Started() - old(Started()) == |State().log| - |old(State()).log|
    {
      hide P.RunPair;
      ghost var plan, start := Settings(), State();
      var done: seq<P.Record> := [];
      for i := 0 to |sorted|
        invariant Valid()
        invariant scheduler != null ==> Started() - old(Started()) == |State().log| - |old(State()).log|
        invariant P.RunGrid(plan, State(), P.Grid(sorted[i..], ids), done)
                  == P.RunGrid(plan, start, P.Grid(sorted, ids), [])
      {
        var provider := sorted[i];
        ghost var row, rest := P.Row(provider, ids), P.Grid(sorted[i + 1..], ids);
        assert sorted[i..][1..] == sorted[i + 1..] && row[0..] == row;
        for j := 0 to |ids|
          invariant Valid()
          invariant scheduler != null ==> Started() - old(Started()) == |State().log| - |old(State()).log|
          invariant P.RunGrid(plan, State(), row[j..] + rest, done)
                    == P.RunGrid(plan, start, P.Grid(sorted, ids), [])
        {
          var id := ids[j];
          RowStep(provider, ids, rest, j);
          if store.IsSuccessful(provider, id) {
            var previous := store.Get(provider, id);
            done := done + [previous.value];
            continue;
          }
          var end := EvaluateExample(provider, id);
          match end
          case Halted(reason) => return Err(reason);
          case Recorded(record) => done := done + [record];
        }
        assert row[|ids|..] + rest == rest;
      }
      return Ok(done);
    }

    /** Missing examples are refused at once; else the session goes through the providers in sorted order. */
    method Run(ids: seq<string>, examples: map<string, (string, string)>, providers: set<string>)
      returns (results: Result<seq<P.Record>, PilotError>, ghost order: seq<string>)
      requires Valid()
      modifies Parts()
      ensures Valid()
      ensures SortedBy(StringLe, order) && NoDuplicates(order) && forall p :: p in order <==> p in providers
      ensures results == Err(MissingExamples) <==> exists id :: id in ids && id !in examples
      ensures results == Err(MissingExamples) ==> State() == old(State())
      ensures results != Err(MissingExamples) ==>
                && P.RunGrid(Settings(), old(State()), P.Grid(order, ids), [])
                   == (State(), if results.Ok? then P.Returned(results.value) else P.Stopped(results.error.reason))
      ensures results != Err(MissingExamples) && DistinctKeys(P.Grid(order, ids)) ==>
                Accounted(Settings(), old(State()), State(),
                          if results.Ok? then None else Some(results.error.reason))
      ensures scheduler != null ==> Started() - old(Started()) == |State().log| - |old(State()).log|
    {
      var sorted := SortedStrings(providers);
      order := sorted;
      if DistinctKeys(P.Grid(sorted, ids)) {
        SessionAccounted(Settings(), State(), P.Grid(sorted, ids), []);
      }
      hide *;
      if exists id :: id in ids && id !in examples {
        return Err(MissingExamples), order;
      }
      var ran := RunSorted(ids, sorted);
      results := if ran.Ok? then Ok(ran.value) else Err(SessionStopped(ran.error));
    }
  }
}
