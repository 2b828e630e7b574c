/** The resumable pilot run of src/evalops/pilot/execution.py as a state machine over evaluator calls. */
module PilotProtocol {
  import opened Results
  import opened Confusion
  import Provenance
  import RateLimits

  // ----- traces, records and the store -----

  datatype Trace = Trace(
    prediction: Option<Prediction>, apiSuccess: bool, errorClass: Option<string>,
    retryAfter: Option<real>, dimension: Option<string>, modelVersion: Option<string>)

  datatype Status = Success | Failed

  datatype Record = Record(provider: string, exampleId: string, attempt: nat, status: Status, trace: Trace)

  /** Records are kept under "provider:example". */
  type Store = map<string, Record>

  function Key(provider: string, exampleId: string): string {
    provider + ":" + exampleId
  }

  predicate IsSuccessful(store: Store, key: string) {
    key in store && store[key].status == Success
  }

  /** A success is never replaced; storing a different success over it is an error. */
  function Upsert(store: Store, record: Record): Option<Store> {
    var key := Key(record.provider, record.exampleId);
    if IsSuccessful(store, key) then
      if record.status == Success && store[key] != record then None else Some(store)
    else Some(store[key := record])
  }

  const RETRYABLE: set<string> := {
    "API_RATE_LIMIT", "API_SERVER_ERROR", "API_TIMEOUT",
    "LOCAL_CONNECTION_ERROR", "LOCAL_SERVER_ERROR", "LOCAL_TIMEOUT"}

  const PARSE_ERRORS: set<string> := {"PARSE_ERROR", "SCHEMA_VALIDATION_ERROR"}

  predicate IsRateLimit(trace: Trace) { RateLimits.Limited(trace.errorClass) }

  predicate IsRetryable(trace: Trace) {
    trace.errorClass.Some? && trace.errorClass.value in RETRYABLE
  }

  predicate IsRegenerable(trace: Trace) {
    trace.prediction.None? && trace.apiSuccess && trace.errorClass.Some? && trace.errorClass.value in PARSE_ERRORS
  }

  // ----- plans, calls and sessions -----

  /** An evaluator is any oracle: its answer may depend on the number of the call, and it may raise. */
  datatype Answer = Traced(trace: Trace) | Raised

  type Oracle = (nat, string, string) -> Answer

  datatype Plan = Plan(
    maxRetries: int,
    regenerations: map<string, int>,
    ceiling: Option<nat>,
    breaker: Option<nat>,
    guard: Option<set<string>>,
    oracle: Oracle)
  {
    function Allowance(provider: string): int {
      if provider in regenerations then regenerations[provider] else 0
    }
  }

  datatype Call = Call(provider: string, exampleId: string, answer: Answer)

  /** What a session can change: the store, the request count, the rate-limit counter, the accepted versions. */
  datatype Session = Session(store: Store, used: nat, consecutive: nat, resumed: set<string>, log: seq<Call>)

  datatype Reason = BudgetExhausted | EvaluatorRaised | RateLimited | VersionChanged | StoreConflict

  datatype Verdict = Again(retry: nat, regeneration: nat) | Done(record: Record) | Stop(reason: Reason)

  // ----- the observers -----

  function CounterAfter(consecutive: nat, trace: Trace): nat {
    RateLimits.NextCount(consecutive, trace.errorClass)
  }

  /** The breaker trips on a daily quota, or when the run of rate limits reaches its maximum. */
  predicate Trips(limit: nat, consecutive: nat, trace: Trace) {
    RateLimits.Stops(limit, consecutive, trace.errorClass, trace.dimension)
  }

  predicate HasVersion(trace: Trace) {
    Provenance.Present(trace.modelVersion)
  }

  predicate VersionAllowed(historical: set<string>, resumed: set<string>, trace: Trace) {
    Provenance.Accepts(historical, resumed, trace.modelVersion)
  }

  function AcceptVersion(resumed: set<string>, trace: Trace): set<string> {
    Provenance.Adopt(resumed, trace.modelVersion)
  }

  // ----- one evaluator call -----

  function MakeRecord(provider: string, exampleId: string, attempt: nat, trace: Trace): Record {
    Record(provider, exampleId, attempt, if trace.prediction.Some? then Success else Failed, trace)
  }

  /** The call is paid for and made; its answer goes on the log. */
  function Asked(plan: Plan, s: Session, provider: string, exampleId: string): Session {
    s.(used := s.used + 1, log := s.log + [Call(provider, exampleId, plan.oracle(|s.log|, provider, exampleId))])
  }

  /** The store after a record, or a conflict. */
  function Keep(s: Session, record: Record, verdict: Verdict): (Session, Verdict) {
    var stored := Upsert(s.store, record);
    if stored.None? then (s, Stop(StoreConflict)) else (s.(store := stored.value), verdict)
  }

  /** A prediction is stored only if the guard, where there is one, accepts its model version. */
  function KeepPrediction(plan: Plan, s: Session, record: Record): (Session, Verdict) {
    if plan.guard.Some? && !VersionAllowed(plan.guard.value, s.resumed, record.trace) then (s, Stop(VersionChanged))
    else
      var accepted := if plan.guard.Some? then s.(resumed := AcceptVersion(s.resumed, record.trace)) else s;
      Keep(accepted, record, Done(record))
  }

  /** After an answer that did not trip the breaker: regenerate, or record and decide whether to go on. */
  function Settle(plan: Plan, s: Session, provider: string, exampleId: string, retry: nat, regeneration: nat,
                  trace: Trace)
    : (Session, Verdict)
  {
    var record := MakeRecord(provider, exampleId, retry + regeneration + 1, trace);
    if IsRegenerable(trace) && regeneration < plan.Allowance(provider) then
      (s, Again(retry, regeneration + 1))
    else if trace.prediction.Some? then
      KeepPrediction(plan, s, record)
    else if !IsRetryable(trace) || retry >= plan.maxRetries then
      Keep(s, record, Done(record))
    else
      Keep(s, record, Again(retry + 1, regeneration))
  }

  function CallOnce(plan: Plan, s: Session, provider: string, exampleId: string, retry: nat, regeneration: nat)
    : (Session, Verdict)
  {
    if plan.ceiling.Some? && s.used >= plan.ceiling.value then (s, Stop(BudgetExhausted))
    else
      var asked := Asked(plan, s, provider, exampleId);
      match plan.oracle(|s.log|, provider, exampleId)
      case Raised => (asked, Stop(EvaluatorRaised))
      case Traced(trace) =>
        if plan.breaker.None? then Settle(plan, asked, provider, exampleId, retry, regeneration, trace)
        else
          var counted := asked.(consecutive := CounterAfter(s.consecutive, trace));
          if Trips(plan.breaker.value, s.consecutive, trace) then
            var record := Record(provider, exampleId, retry + regeneration + 1, Failed, trace);
            Keep(counted, record, Stop(RateLimited))
          else Settle(plan, counted, provider, exampleId, retry, regeneration, trace)
  }

  // ----- one example, and the whole grid -----

  function Left(limit: int, done: nat): nat {
    if done < limit then limit - done else 0
  }

  lemma AgainUsesUp(plan: Plan, s: Session, provider: string, exampleId: string, retry: nat, regeneration: nat)
    ensures var v := CallOnce(plan, s, provider, exampleId, retry, regeneration).1;
            v.Again? ==>
              && v.retry + v.regeneration == retry + regeneration + 1
              && Left(plan.maxRetries, v.retry) + Left(plan.Allowance(provider), v.regeneration) + 1
                 == Left(plan.maxRetries, retry) + Left(plan.Allowance(provider), regeneration)
  {
  }

  datatype PairEnd = Recorded(record: Record) | Halted(reason: Reason)

  function RunPair(plan: Plan, s: Session, provider: string, exampleId: string, retry: nat, regeneration: nat)
    : (Session, PairEnd)
    decreases Left(plan.maxRetries, retry) + Left(plan.Allowance(provider), regeneration)
  {
    AgainUsesUp(plan, s, provider, exampleId, retry, regeneration);
    var (s', v) := CallOnce(plan, s, provider, exampleId, retry, regeneration);
    match v
    case Done(record) => (s', Recorded(record))
    case Stop(reason) => (s', Halted(reason))
    case Again(r, g) => RunPair(plan, s', provider, exampleId, r, g)
  }

  type Pair = (string, string)

  function KeyOf(pair: Pair): string { Key(pair.0, pair.1) }

  datatype Outcome = Returned(results: seq<Record>) | Stopped(reason: Reason)

  /** Examples already successful are reported as stored; the others are evaluated, in order. */
  function RunGrid(plan: Plan, s: Session, pairs: seq<Pair>, results: seq<Record>): (Session, Outcome)
    decreases |pairs|
  {
    if pairs == [] then (s, Returned(results))
    else
      var (provider, exampleId) := pairs[0];
      if IsSuccessful(s.store, KeyOf(pairs[0])) then
        RunGrid(plan, s, pairs[1..], results + [s.store[KeyOf(pairs[0])]])
      else
        var (s', end) := RunPair(plan, s, provider, exampleId, 0, 0);
        match end
        case Halted(reason) => (s', Stopped(reason))
        case Recorded(record) => RunGrid(plan, s', pairs[1..], results + [record])
  }

  /** Providers in sorted order, and for each the manifest order. */
  function Grid(providers: seq<string>, ids: seq<string>): seq<Pair> {
    if providers == [] then []
    else Row(providers[0], ids) + Grid(providers[1..], ids)
  }

  function Row(provider: string, ids: seq<string>): seq<Pair> {
    seq(|ids|, i requires 0 <= i < |ids| => (provider, ids[i]))
  }
}
