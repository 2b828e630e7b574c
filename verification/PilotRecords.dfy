/** What a pilot session leaves in its store, read off its calls alone: which are retried, which are recorded, how. */
module PilotRecords {
  import opened Results
  import opened PilotProtocol
  import opened PilotLaws
  import opened PilotStops

  /** The API worked, but what came back could not be parsed. */
  predicate Unparsed(a: Answer) {
    && a.Traced? && a.trace.prediction.None? && a.trace.apiSuccess
    && a.trace.errorClass in {Some("PARSE_ERROR"), Some("SCHEMA_VALIDATION_ERROR")}
  }

  predicate Transient(a: Answer) {
    && a.Traced? && a.trace.prediction.None?
    && a.trace.errorClass in {Some("API_RATE_LIMIT"), Some("API_SERVER_ERROR"), Some("API_TIMEOUT"),
                              Some("LOCAL_CONNECTION_ERROR"), Some("LOCAL_SERVER_ERROR"), Some("LOCAL_TIMEOUT")}
  }

  function Unparsings(calls: seq<Call>): nat {
    if calls == [] then 0
    else Unparsings(calls[..|calls| - 1]) + if Unparsed(calls[|calls| - 1].answer) then 1 else 0
  }

  /** After these earlier calls on its example, the answer is thrown away and asked for again. */
  predicate Regenerated(plan: Plan, earlier: seq<Call>, c: Call) {
    Unparsed(c.answer) && c.provider in plan.regenerations && Unparsings(earlier) < plan.regenerations[c.provider]
  }

  /** After these earlier calls on its example, a transient failure is tried again. */
  predicate Retried(plan: Plan, earlier: seq<Call>, c: Call) {
    Transient(c.answer) && |earlier| - Unparsings(earlier) < plan.maxRetries
  }

  predicate GoesOn(plan: Plan, earlier: seq<Call>, c: Call) {
    Regenerated(plan, earlier, c) || Retried(plan, earlier, c)
  }

  /** The call's own record is the one stored for its example; only a call that tripped the breaker fails regardless. */
  predicate Recorded(store: Store, c: Call, attempt: nat, tripped: bool)
    requires c.answer.Traced?
  {
    && CallKey(c) in store
    && store[CallKey(c)].provider == c.provider && store[CallKey(c)].exampleId == c.exampleId
    && store[CallKey(c)].attempt == attempt && store[CallKey(c)].trace == c.answer.trace
    && (store[CallKey(c)].status == Success <==> c.answer.trace.prediction.Some? && !tripped)
  }

  /** What one answered call comes to: retried or regenerated as it says, recorded unless regenerated or refused. */
  ghost predicate StepSettled(plan: Plan, earlier: seq<Call>, c: Call, before: Store, after: Store, v: Verdict) {
    && (v.Again? <==> GoesOn(plan, earlier, c) && v != Stop(RateLimited))
    && (v.Again? ==> v.retry + v.regeneration == |earlier| + 1 && v.regeneration == Unparsings(earlier + [c]))
    && (if c.answer.Traced? && !Regenerated(plan, earlier, c) && v != Stop(VersionChanged)
        then Recorded(after, c, |earlier| + 1, v == Stop(RateLimited))
        else after == before)
  }

  lemma UnparsingsNext(earlier: seq<Call>, c: Call)
    ensures Unparsings(earlier + [c]) == Unparsings(earlier) + if Unparsed(c.answer) then 1 else 0
  {
    assert (earlier + [c])[..|earlier|] == earlier;
  }

  lemma SettleSettled(plan: Plan, s: Session, c: Call, retry: nat, regeneration: nat, earlier: seq<Call>)
    requires c.answer.Traced? && !IsSuccessful(s.store, CallKey(c))
    requires |earlier| == retry + regeneration && Unparsings(earlier) == regeneration
    ensures var (s', v) := Settle(plan, s, c.provider, c.exampleId, retry, regeneration, c.answer.trace);
            StepSettled(plan, earlier, c, s.store, s'.store, v) && v != Stop(RateLimited)
  {
    UnparsingsNext(earlier, c);
    hide Key, VersionAllowed, AcceptVersion, Unparsings;
  }

  lemma StepAccounted(plan: Plan, s: Session, provider: string, exampleId: string, retry: nat, regeneration: nat,
                      earlier: seq<Call>)
    requires !IsSuccessful(s.store, Key(provider, exampleId))
    requires |earlier| == retry + regeneration && Unparsings(earlier) == regeneration
    ensures var (s', v) := CallOnce(plan, s, provider, exampleId, retry, regeneration);
            var c := Call(provider, exampleId, plan.oracle(|s.log|, provider, exampleId));
            v != Stop(BudgetExhausted) ==> StepSettled(plan, earlier, c, s.store, s'.store, v)
  {
    var c := Call(provider, exampleId, plan.oracle(|s.log|, provider, exampleId));
    var asked := Asked(plan, s, provider, exampleId);
    if c.answer.Traced? {
      var counted := asked.(consecutive := CounterAfter(s.consecutive, c.answer.trace));
      SettleSettled(plan, asked, c, retry, regeneration, earlier);
      SettleSettled(plan, counted, c, retry, regeneration, earlier);
      TrippedSettled(plan, counted, c, retry + regeneration, earlier);
    } else {
      UnansweredSettled(plan, s.store, c, earlier);
    }
    hide Settle, Keep, Key, CounterAfter, StepSettled;
  }

  lemma TrippedSettled(plan: Plan, s: Session, c: Call, tried: nat, earlier: seq<Call>)
    requires c.answer.Traced? && !IsSuccessful(s.store, CallKey(c)) && |earlier| == tried
    ensures var record := Record(c.provider, c.exampleId, tried + 1, Failed, c.answer.trace);
            var (s', v) := Keep(s, record, Stop(RateLimited));
            IsRateLimit(c.answer.trace) ==>
              StepSettled(plan, earlier, c, s.store, s'.store, v) && v == Stop(RateLimited)
  {
    hide Key, Unparsings;
  }

  lemma UnansweredSettled(plan: Plan, store: Store, c: Call, earlier: seq<Call>)
    requires c.answer.Raised?
    ensures StepSettled(plan, earlier, c, store, store, Stop(EvaluatorRaised))
  {
  }

  // ----- the calls on one example -----

  /** The call was answered, and the answer neither thrown away nor refused for its model version. */
  predicate Kept(plan: Plan, earlier: seq<Call>, c: Call, refused: bool) {
    c.answer.Traced? && !Regenerated(plan, earlier, c) && !refused
  }

  predicate KeptAt(plan: Plan, earlier: seq<Call>, calls: seq<Call>, ended: Option<Reason>, n: nat)
    requires n < |calls|
  {
    Kept(plan, earlier + calls[..n], calls[n], n == |calls| - 1 && ended == Some(VersionChanged))
  }

  predicate SameEntry(before: Store, after: Store, key: string) {
    (key in before <==> key in after) && (key in before ==> after[key] == before[key])
  }

  predicate GoesOnAt(plan: Plan, earlier: seq<Call>, calls: seq<Call>, n: nat)
    requires n < |calls|
  {
    GoesOn(plan, earlier + calls[..n], calls[n])
  }

  /** All these calls go on, but for the last one, which does so only if the session ended there. */
  ghost predicate AllGoOn(plan: Plan, earlier: seq<Call>, calls: seq<Call>, ended: Option<Reason>) {
    && (forall n :: 0 <= n < |calls| - 1 ==> GoesOnAt(plan, earlier, calls, n))
    && (calls != [] && GoesOnAt(plan, earlier, calls, |calls| - 1) ==>
          ended in {Some(BudgetExhausted), Some(RateLimited)})
  }

  ghost predicate NoneKept(plan: Plan, earlier: seq<Call>, calls: seq<Call>, ended: Option<Reason>, from: nat) {
    forall n :: from <= n < |calls| ==> !KeptAt(plan, earlier, calls, ended, n)
  }

  /** The last of these calls that is kept is recorded; if none is, nothing changes. */
  ghost predicate LastRecorded(plan: Plan, earlier: seq<Call>, calls: seq<Call>, key: string, before: Store,
                               after: Store, ended: Option<Reason>) {
    && (forall n :: 0 <= n < |calls| && KeptAt(plan, earlier, calls, ended, n)
                    && NoneKept(plan, earlier, calls, ended, n + 1) ==>
          Recorded(after, calls[n], |earlier| + n + 1, n == |calls| - 1 && ended == Some(RateLimited)))
    && (NoneKept(plan, earlier, calls, ended, 0) ==> SameEntry(before, after, key))
  }

  lemma Shifted(plan: Plan, earlier: seq<Call>, c: Call, rest: seq<Call>, ended: Option<Reason>, n: nat)
    requires 1 <= n <= |rest|
    ensures ([c] + rest)[n] == rest[n - 1]
    ensures GoesOnAt(plan, earlier, [c] + rest, n) <==> GoesOnAt(plan, earlier + [c], rest, n - 1)
    ensures KeptAt(plan, earlier, [c] + rest, ended, n) <==> KeptAt(plan, earlier + [c], rest, ended, n - 1)
  {
    hide GoesOn, Kept;
    assert earlier + ([c] + rest)[..n] == earlier + [c] + rest[..n - 1];
  }

  lemma FirstCall(plan: Plan, earlier: seq<Call>, c: Call, rest: seq<Call>, ended: Option<Reason>)
    ensures GoesOnAt(plan, earlier, [c] + rest, 0) <==> GoesOn(plan, earlier, c)
    ensures KeptAt(plan, earlier, [c] + rest, ended, 0)
       <==> Kept(plan, earlier, c, rest == [] && ended == Some(VersionChanged))
  {
    hide GoesOn, Kept;
    assert earlier + ([c] + rest)[..0] == earlier;
  }

  /** One more call in front, which goes on. */
  lemma AllGoOnJoins(plan: Plan, earlier: seq<Call>, c: Call, rest: seq<Call>, ended: Option<Reason>)
    requires AllGoOn(plan, earlier + [c], rest, ended) && GoesOn(plan, earlier, c)
    requires rest == [] ==> ended == Some(BudgetExhausted)
    ensures AllGoOn(plan, earlier, [c] + rest, ended)
  {
    hide GoesOn, GoesOnAt, KeptAt;
    FirstCall(plan, earlier, c, rest, ended);
    forall n: nat | 1 <= n <= |rest|
      ensures GoesOnAt(plan, earlier, [c] + rest, n) <==> GoesOnAt(plan, earlier + [c], rest, n - 1)
    {
      Shifted(plan, earlier, c, rest, ended, n);
    }
  }

  lemma NoneKeptShifts(plan: Plan, earlier: seq<Call>, c: Call, rest: seq<Call>, ended: Option<Reason>, from: nat)
    requires 1 <= from
    ensures NoneKept(plan, earlier, [c] + rest, ended, from) <==> NoneKept(plan, earlier + [c], rest, ended, from - 1)
  {
    hide GoesOnAt, KeptAt;
    forall n: nat | from <= n <= |rest|
      ensures KeptAt(plan, earlier, [c] + rest, ended, n) <==> KeptAt(plan, earlier + [c], rest, ended, n - 1)
    {
      Shifted(plan, earlier, c, rest, ended, n);
    }
    if NoneKept(plan, earlier, [c] + rest, ended, from) {
      forall n | from - 1 <= n < |rest|
        ensures !KeptAt(plan, earlier + [c], rest, ended, n)
      {
        assert !KeptAt(plan, earlier, [c] + rest, ended, n + 1);
      }
    }
  }

  lemma LastRecordedJoins(plan: Plan, earlier: seq<Call>, c: Call, rest: seq<Call>, before: Store, middle: Store,
                          after: Store, ended: Option<Reason>)
    requires LastRecorded(plan, earlier + [c], rest, CallKey(c), middle, after, ended)
    requires c.answer.Traced? && (rest == [] ==> ended == Some(BudgetExhausted))
    requires if Regenerated(plan, earlier, c) then middle == before else Recorded(middle, c, |earlier| + 1, false)
    ensures LastRecorded(plan, earlier, [c] + rest, CallKey(c), before, after, ended)
  {
    var calls := [c] + rest;
    FirstCall(plan, earlier, c, rest, ended);
    NoneKeptShifts(plan, earlier, c, rest, ended, 1);
    hide GoesOnAt, KeptAt, NoneKept, Key, Regenerated;
    forall n | 0 <= n < |calls| && KeptAt(plan, earlier, calls, ended, n)
               && NoneKept(plan, earlier, calls, ended, n + 1)
      ensures calls[n].answer.Traced?
      ensures Recorded(after, calls[n], |earlier| + n + 1, n == |calls| - 1 && ended == Some(RateLimited))
    {
      if n > 0 {
        Shifted(plan, earlier, c, rest, ended, n);
        NoneKeptShifts(plan, earlier, c, rest, ended, n + 1);
        KeptIsTraced(plan, earlier, calls, ended, n);
      }
    }
    if NoneKept(plan, earlier, calls, ended, 0) {
      KeptFrom(plan, earlier, calls, ended);
    }
  }

  lemma KeptIsTraced(plan: Plan, earlier: seq<Call>, calls: seq<Call>, ended: Option<Reason>, n: nat)
    requires n < |calls| && KeptAt(plan, earlier, calls, ended, n)
    ensures calls[n].answer.Traced?
  {
  }

  lemma KeptFrom(plan: Plan, earlier: seq<Call>, calls: seq<Call>, ended: Option<Reason>)
    requires calls != [] && NoneKept(plan, earlier, calls, ended, 0)
    ensures !KeptAt(plan, earlier, calls, ended, 0) && NoneKept(plan, earlier, calls, ended, 1)
  {
    hide KeptAt;
  }

  lemma OneCallAccounted(plan: Plan, earlier: seq<Call>, c: Call, before: Store, after: Store, v: Verdict)
    requires StepSettled(plan, earlier, c, before, after, v) && !v.Again? && v != Stop(BudgetExhausted)
    ensures AllGoOn(plan, earlier, [c], WhyStep(v))
    ensures LastRecorded(plan, earlier, [c], CallKey(c), before, after, WhyStep(v))
  {
    FirstCall(plan, earlier, c, [], WhyStep(v));
    assert [c] + [] == [c];
    hide GoesOn, Regenerated, Key, GoesOnAt, KeptAt;
  }

  lemma NoCallsAccounted(plan: Plan, earlier: seq<Call>, key: string, store: Store, ended: Option<Reason>)
    ensures AllGoOn(plan, earlier, [], ended) && LastRecorded(plan, earlier, [], key, store, store, ended)
  {
  }

  lemma {:induction false} PairIsAccounted(plan: Plan, s: Session, provider: string, exampleId: string, retry: nat,
                                           regeneration: nat, earlier: seq<Call>)
    requires !IsSuccessful(s.store, Key(provider, exampleId))
    requires |earlier| == retry + regeneration && Unparsings(earlier) == regeneration
    ensures var (s', end) := RunPair(plan, s, provider, exampleId, retry, regeneration);
            && s.log <= s'.log && (New(s, s') == [] ==> end == Halted(BudgetExhausted))
            && AllGoOn(plan, earlier, New(s, s'), WhyPair(end))
            && LastRecorded(plan, earlier, New(s, s'), Key(provider, exampleId), s.store, s'.store, WhyPair(end))
    decreases Left(plan.maxRetries, retry) + Left(plan.Allowance(provider), regeneration)
  {
    var (s1, v) := CallOnce(plan, s, provider, exampleId, retry, regeneration);
    var c := Call(provider, exampleId, plan.oracle(|s.log|, provider, exampleId));
    StepProgress(plan, s, provider, exampleId, retry, regeneration);
    StepAccounted(plan, s, provider, exampleId, retry, regeneration, earlier);
    AgainUsesUp(plan, s, provider, exampleId, retry, regeneration);
    if v.Again? {
      PairIsAccounted(plan, s1, provider, exampleId, v.retry, v.regeneration, earlier + [c]);
      var (s2, end) := RunPair(plan, s1, provider, exampleId, v.retry, v.regeneration);
      hide CallOnce, RunPair, Left, Progress, AllGoOn, LastRecorded, OnlyAt, New;
      NewSplits(s, s1, s2);
      AllGoOnJoins(plan, earlier, c, New(s1, s2), WhyPair(end));
      LastRecordedJoins(plan, earlier, c, New(s1, s2), s.store, s1.store, s2.store, WhyPair(end));
    } else if v == Stop(BudgetExhausted) {
      NoCallsAccounted(plan, earlier, Key(provider, exampleId), s.store, Some(BudgetExhausted));
    } else {
      hide CallOnce, Progress, StepSettled, AllGoOn, LastRecorded, OnlyAt, New;
      OneCallAccounted(plan, earlier, c, s.store, s1.store, v);
    }
  }

  // ----- the calls of a session -----

  predicate GoesOnIn(plan: Plan, calls: seq<Call>, n: nat)
    requires n < |calls|
  {
    GoesOn(plan, CallsOn(calls[..n], PairOf(calls[n])), calls[n])
  }

  predicate KeptIn(plan: Plan, calls: seq<Call>, ended: Option<Reason>, n: nat)
    requires n < |calls|
  {
    Kept(plan, CallsOn(calls[..n], PairOf(calls[n])), calls[n], n == |calls| - 1 && ended == Some(VersionChanged))
  }

  /** An example is called again at once exactly if its answer goes on; else the session moves to another, or ends. */
  ghost predicate CallsAgree(plan: Plan, calls: seq<Call>, ended: Option<Reason>) {
    && (forall n :: 0 <= n < |calls| - 1 ==> (GoesOnIn(plan, calls, n) <==> PairOf(calls[n + 1]) == PairOf(calls[n])))
    && (calls != [] && GoesOnIn(plan, calls, |calls| - 1) ==> ended in {Some(BudgetExhausted), Some(RateLimited)})
  }

  /** No call after these first ones is kept for the key. */
  ghost predicate NoneKeptAt(plan: Plan, calls: seq<Call>, ended: Option<Reason>, key: string, from: nat) {
    forall n :: from <= n < |calls| && CallKey(calls[n]) == key ==> !KeptIn(plan, calls, ended, n)
  }

  /** The last call that is kept on its example has its own record stored, with the number of calls made by then. */
  ghost predicate RecordsAgree(plan: Plan, calls: seq<Call>, before: Store, after: Store, ended: Option<Reason>) {
    && (forall n :: 0 <= n < |calls| && KeptIn(plan, calls, ended, n)
                    && NoneKeptAt(plan, calls, ended, CallKey(calls[n]), n + 1) ==>
          Recorded(after, calls[n], |CallsOn(calls[..n + 1], PairOf(calls[n]))|,
                   n == |calls| - 1 && ended == Some(RateLimited)))
    && (forall key :: NoneKeptAt(plan, calls, ended, key, 0) ==> SameEntry(before, after, key))
  }

  lemma OwnCalls(plan: Plan, calls: seq<Call>, pair: Pair, ended: Option<Reason>, n: nat)
    requires n < |calls| && forall c :: c in calls ==> PairOf(c) == pair
    ensures CallsOn(calls[..n], PairOf(calls[n])) == calls[..n] && CallsOn(calls[..n + 1], pair) == calls[..n + 1]
    ensures GoesOnIn(plan, calls, n) <==> GoesOnAt(plan, [], calls, n)
    ensures KeptIn(plan, calls, ended, n) <==> KeptAt(plan, [], calls, ended, n)
  {
    hide GoesOn, Kept, CallsOn;
    assert [] + calls[..n] == calls[..n];
    CallsOnOne(calls[..n], pair);
    CallsOnOne(calls[..n + 1], pair);
  }

  lemma PairCallsAgree(plan: Plan, calls: seq<Call>, pair: Pair, ended: Option<Reason>)
    requires forall c :: c in calls ==> PairOf(c) == pair
    requires AllGoOn(plan, [], calls, ended)
    ensures CallsAgree(plan, calls, ended)
  {
    hide GoesOnIn, GoesOnAt;
    forall n | 0 <= n < |calls|
      ensures GoesOnIn(plan, calls, n) <==> GoesOnAt(plan, [], calls, n)
    {
      OwnCalls(plan, calls, pair, ended, n);
    }
  }

  lemma NoneKeptOwn(plan: Plan, calls: seq<Call>, pair: Pair, ended: Option<Reason>, from: nat)
    requires forall c :: c in calls ==> PairOf(c) == pair
    ensures NoneKeptAt(plan, calls, ended, KeyOf(pair), from) <==> NoneKept(plan, [], calls, ended, from)
  {
    hide KeptIn, KeptAt, Key;
    forall n: nat | n < |calls|
      ensures KeptIn(plan, calls, ended, n) <==> KeptAt(plan, [], calls, ended, n)
      ensures CallKey(calls[n]) == KeyOf(pair)
    {
      OwnCalls(plan, calls, pair, ended, n);
    }
  }

  lemma PairRecordsAgree(plan: Plan, calls: seq<Call>, pair: Pair, before: Store, after: Store, ended: Option<Reason>)
    requires forall c :: c in calls ==> PairOf(c) == pair
    requires LastRecorded(plan, [], calls, KeyOf(pair), before, after, ended) && OnlyAt(before, after, KeyOf(pair))
    ensures RecordsAgree(plan, calls, before, after, ended)
  {
    hide KeptIn, KeptAt, GoesOnIn, GoesOnAt, Key, CallsOn, NoneKept, NoneKeptAt, Recorded;
    forall n | 0 <= n < |calls| && KeptIn(plan, calls, ended, n)
               && NoneKeptAt(plan, calls, ended, CallKey(calls[n]), n + 1)
      ensures calls[n].answer.Traced?
      ensures Recorded(after, calls[n], |CallsOn(calls[..n + 1], PairOf(calls[n]))|,
                       n == |calls| - 1 && ended == Some(RateLimited))
    {
      OwnCalls(plan, calls, pair, ended, n);
      KeptIsTraced(plan, [], calls, ended, n);
      NoneKeptOwn(plan, calls, pair, ended, n + 1);
    }
    forall key | NoneKeptAt(plan, calls, ended, key, 0)
      ensures SameEntry(before, after, key)
    {
      if key == KeyOf(pair) {
        NoneKeptOwn(plan, calls, pair, ended, 0);
      }
    }
  }

  /** Two stretches of calls on examples with different keys. */
  ghost predicate Apart(x: seq<Call>, y: seq<Call>) {
    forall i, j :: 0 <= i < |x| && 0 <= j < |y| ==> CallKey(x[i]) != CallKey(y[j])
  }

  lemma EarlierPart(plan: Plan, x: seq<Call>, y: seq<Call>, ended: Option<Reason>, n: nat)
    requires n < |x| && (y == [] ==> ended in {None, Some(BudgetExhausted)})
    ensures (x + y)[n] == x[n] && (x + y)[..n] == x[..n] && (x + y)[..n + 1] == x[..n + 1]
    ensures GoesOnIn(plan, x + y, n) <==> GoesOnIn(plan, x, n)
    ensures KeptIn(plan, x + y, ended, n) <==> KeptIn(plan, x, None, n)
  {
    hide GoesOn, Kept, CallsOn, Regenerated;
  }

  lemma NoCallsOn(x: seq<Call>, y: seq<Call>, j: nat)
    requires Apart(x, y) && j < |y|
    ensures CallsOn(x, PairOf(y[j])) == []
  {
    forall c | c in x ensures PairOf(c) != PairOf(y[j]) {
      var i :| 0 <= i < |x| && x[i] == c;
      assert CallKey(x[i]) != CallKey(y[j]);
    }
    CallsOnOne(x, PairOf(y[j]));
  }

  lemma LaterPart(plan: Plan, x: seq<Call>, y: seq<Call>, ended: Option<Reason>, n: nat)
    requires Apart(x, y) && |x| <= n < |x + y|
    ensures (x + y)[n] == y[n - |x|]
    ensures CallsOn((x + y)[..n + 1], PairOf((x + y)[n])) == CallsOn(y[..n - |x| + 1], PairOf(y[n - |x|]))
    ensures GoesOnIn(plan, x + y, n) <==> GoesOnIn(plan, y, n - |x|)
    ensures KeptIn(plan, x + y, ended, n) <==> KeptIn(plan, y, ended, n - |x|)
  {
    var j := n - |x|;
    NoCallsOn(x, y, j);
    hide GoesOn, Kept, CallsOn, Regenerated, Apart, PairOf;
    assert (x + y)[..n] == x + y[..j] && (x + y)[..n + 1] == x + y[..j + 1];
    CallsOnSplits(x, y[..j], PairOf(y[j]));
    CallsOnSplits(x, y[..j + 1], PairOf(y[j]));
    assert [] + CallsOn(y[..j], PairOf(y[j])) == CallsOn(y[..j], PairOf(y[j]));
  }

  lemma CallsAgreeJoins(plan: Plan, x: seq<Call>, y: seq<Call>, ended: Option<Reason>)
    requires CallsAgree(plan, x, None) && CallsAgree(plan, y, ended) && Apart(x, y)
    requires y == [] ==> ended in {None, Some(BudgetExhausted)}
    ensures CallsAgree(plan, x + y, ended)
  {
    hide GoesOnIn, KeptIn;
    forall n | 0 <= n < |x + y|
      ensures GoesOnIn(plan, x + y, n) <==> if n < |x| then GoesOnIn(plan, x, n) else GoesOnIn(plan, y, n - |x|)
    {
      if n < |x| {
        EarlierPart(plan, x, y, ended, n);
      } else {
        LaterPart(plan, x, y, ended, n);
      }
    }
    if x != [] && y != [] {
      assert CallKey(x[|x| - 1]) != CallKey(y[0]);
    }
  }

  lemma NoneKeptEarlier(plan: Plan, x: seq<Call>, y: seq<Call>, ended: Option<Reason>, key: string, from: nat)
    requires Apart(x, y) && (y == [] ==> ended in {None, Some(BudgetExhausted)})
    requires NoneKeptAt(plan, x + y, ended, key, from)
    ensures NoneKeptAt(plan, x, None, key, from)
  {
    hide KeptIn, Key, GoesOnIn;
    forall n | from <= n < |x| && CallKey(x[n]) == key
      ensures !KeptIn(plan, x, None, n)
    {
      EarlierPart(plan, x, y, ended, n);
    }
  }

  lemma NoneKeptLater(plan: Plan, x: seq<Call>, y: seq<Call>, ended: Option<Reason>, key: string, from: nat)
    requires Apart(x, y) && NoneKeptAt(plan, x + y, ended, key, from)
    ensures NoneKeptAt(plan, y, ended, key, if from <= |x| then 0 else from - |x|)
  {
    hide KeptIn, Key, GoesOnIn, CallsOn, Apart;
    forall n | (if from <= |x| then 0 else from - |x|) <= n < |y| && CallKey(y[n]) == key
      ensures !KeptIn(plan, y, ended, n)
    {
      LaterPart(plan, x, y, ended, |x| + n);
    }
  }

  /** The key of an earlier call has no call in the later stretch. */
  lemma NoneKeptElsewhere(plan: Plan, x: seq<Call>, y: seq<Call>, ended: Option<Reason>, n: nat)
    requires Apart(x, y) && n < |x|
    ensures NoneKeptAt(plan, y, ended, CallKey(x[n]), 0)
  {
    hide KeptIn, Key;
  }

  lemma RecordsAgreeJoins(plan: Plan, x: seq<Call>, y: seq<Call>, before: Store, middle: Store, after: Store,
                          ended: Option<Reason>)
    requires RecordsAgree(plan, x, before, middle, None) && RecordsAgree(plan, y, middle, after, ended) && Apart(x, y)
    requires y == [] ==> ended in {None, Some(BudgetExhausted)}
    ensures RecordsAgree(plan, x + y, before, after, ended)
  {
    hide KeptIn, GoesOnIn, Key, CallsOn, NoneKeptAt, Recorded, SameEntry, Apart;
    forall n | 0 <= n < |x + y| && KeptIn(plan, x + y, ended, n)
               && NoneKeptAt(plan, x + y, ended, CallKey((x + y)[n]), n + 1)
      ensures (x + y)[n].answer.Traced?
      ensures Recorded(after, (x + y)[n], |CallsOn((x + y)[..n + 1], PairOf((x + y)[n]))|,
                       n == |x + y| - 1 && ended == Some(RateLimited))
    {
      KeptInIsTraced(plan, x + y, ended, n);
      if n < |x| {
        EarlierPart(plan, x, y, ended, n);
        NoneKeptEarlier(plan, x, y, ended, CallKey(x[n]), n + 1);
        NoneKeptElsewhere(plan, x, y, ended, n);
        RecordedStays(middle, after, x[n], |CallsOn(x[..n + 1], PairOf(x[n]))|);
      } else {
        LaterPart(plan, x, y, ended, n);
        NoneKeptLater(plan, x, y, ended, CallKey((x + y)[n]), n + 1);
      }
    }
    forall key | NoneKeptAt(plan, x + y, ended, key, 0)
      ensures SameEntry(before, after, key)
    {
      NoneKeptEarlier(plan, x, y, ended, key, 0);
      NoneKeptLater(plan, x, y, ended, key, 0);
      SameEntryJoins(before, middle, after, key);
    }
  }

  lemma KeptInIsTraced(plan: Plan, calls: seq<Call>, ended: Option<Reason>, n: nat)
    requires n < |calls| && KeptIn(plan, calls, ended, n)
    ensures calls[n].answer.Traced?
  {
  }

  lemma SameEntryJoins(a: Store, b: Store, c: Store, key: string)
    requires SameEntry(a, b, key) && SameEntry(b, c, key)
    ensures SameEntry(a, c, key)
  {
  }

  lemma RecordedStays(before: Store, after: Store, c: Call, attempt: nat)
    requires c.answer.Traced? && SameEntry(before, after, CallKey(c))
    ensures Recorded(before, c, attempt, false) ==> Recorded(after, c, attempt, false)
  {
  }

  // ----- refused versions -----

  /** A prediction whose version is not historical, or not the one accepted so far. */
  predicate Foreign(historical: set<string>, resumed: set<string>, a: Answer) {
    && a.Traced? && a.trace.prediction.Some? && a.trace.modelVersion.Some? && a.trace.modelVersion.value != ""
    && ((historical != {} && a.trace.modelVersion.value !in historical)
        || (resumed != {} && a.trace.modelVersion.value !in resumed))
  }

  predicate Vouched(historical: set<string>, resumed: set<string>, a: Answer) {
    a.Traced? && a.trace.prediction.Some? && a.trace.modelVersion.Some? && a.trace.modelVersion.value != "" ==>
      && a.trace.modelVersion.value in resumed
      && (historical != {} ==> a.trace.modelVersion.value in historical)
  }

  /** The guard ends the session at its first prediction with a foreign version, and vouches for all others. */
  ghost predicate VersionsAgree(plan: Plan, calls: seq<Call>, resumed: set<string>, ended: Option<Reason>) {
    && (ended == Some(VersionChanged) ==>
          plan.guard.Some? && calls != [] && Foreign(plan.guard.value, resumed, calls[|calls| - 1].answer))
    && (plan.guard.Some? ==>
          forall n :: 0 <= n < |calls| && !(n == |calls| - 1 && ended in {Some(VersionChanged), Some(RateLimited)}) ==>
            Vouched(plan.guard.value, resumed, calls[n].answer))
  }

  lemma StepVersions(plan: Plan, s: Session, provider: string, exampleId: string, retry: nat, regeneration: nat)
    requires !IsSuccessful(s.store, Key(provider, exampleId))
    ensures var (s', v) := CallOnce(plan, s, provider, exampleId, retry, regeneration);
            && s.log <= s'.log && VersionsAgree(plan, New(s, s'), s'.resumed, WhyStep(v))
            && (plan.guard.Some? ==> s.resumed <= s'.resumed)
  {
    var answer := plan.oracle(|s.log|, provider, exampleId);
    var asked := Asked(plan, s, provider, exampleId);
    if answer.Traced? {
      SettleVersions(plan, asked, provider, exampleId, retry, regeneration, answer.trace);
      SettleVersions(plan, asked.(consecutive := CounterAfter(s.consecutive, answer.trace)), provider, exampleId,
                     retry, regeneration, answer.trace);
    }
    StepProgress(plan, s, provider, exampleId, retry, regeneration);
    hide Settle, Trips, CounterAfter, Key, Foreign, Progress, StepEnd;
  }

  lemma SettleVersions(plan: Plan, s: Session, provider: string, exampleId: string, retry: nat, regeneration: nat,
                       trace: Trace)
    requires !IsSuccessful(s.store, Key(provider, exampleId))
    ensures var (s', v) := Settle(plan, s, provider, exampleId, retry, regeneration, trace);
            && (v == Stop(VersionChanged) ==>
                  plan.guard.Some? && Foreign(plan.guard.value, s'.resumed, Traced(trace)))
            && (plan.guard.Some? && v != Stop(VersionChanged) ==>
                  Vouched(plan.guard.value, s'.resumed, Traced(trace)))
            && v != Stop(RateLimited) && (plan.guard.Some? ==> s.resumed <= s'.resumed)
  {
    hide Key, IsRetryable;
  }

  lemma VersionsJoin(plan: Plan, x: seq<Call>, y: seq<Call>, first: set<string>, resumed: set<string>,
                     ended: Option<Reason>)
    requires VersionsAgree(plan, x, first, None) && VersionsAgree(plan, y, resumed, ended)
    requires plan.guard.Some? ==> first <= resumed
    requires y == [] ==> ended in {None, Some(BudgetExhausted)}
    ensures VersionsAgree(plan, x + y, resumed, ended)
  {
    hide Foreign;
  }

  lemma {:induction false} PairVersions(plan: Plan, s: Session, provider: string, exampleId: string, retry: nat,
                                        regeneration: nat)
    requires !IsSuccessful(s.store, Key(provider, exampleId))
    ensures var (s', end) := RunPair(plan, s, provider, exampleId, retry, regeneration);
            && s.log <= s'.log && VersionsAgree(plan, New(s, s'), s'.resumed, WhyPair(end))
            && (plan.guard.Some? ==> s.resumed <= s'.resumed)
            && (New(s, s') == [] ==> WhyPair(end) in {None, Some(BudgetExhausted)})
    decreases Left(plan.maxRetries, retry) + Left(plan.Allowance(provider), regeneration)
  {
    var (s1, v) := CallOnce(plan, s, provider, exampleId, retry, regeneration);
    StepProgress(plan, s, provider, exampleId, retry, regeneration);
    StepVersions(plan, s, provider, exampleId, retry, regeneration);
    AgainUsesUp(plan, s, provider, exampleId, retry, regeneration);
    if v.Again? {
      PairVersions(plan, s1, provider, exampleId, v.retry, v.regeneration);
      var (s2, end) := RunPair(plan, s1, provider, exampleId, v.retry, v.regeneration);
      hide CallOnce, RunPair, Left, Progress, VersionsAgree, OnlyAt, New;
      NewSplits(s, s1, s2);
      VersionsJoin(plan, New(s, s1), New(s1, s2), s1.resumed, s2.resumed, WhyPair(end));
    }
  }

  // ----- the whole session -----

  /** Calls are made on the examples of the grid only. */
  lemma {:induction false} GridCallsElsewhere(plan: Plan, s: Session, pairs: seq<Pair>, results: seq<Record>,
                                              key: string)
    requires forall i :: 0 <= i < |pairs| ==> KeyOf(pairs[i]) != key
    ensures var s' := RunGrid(plan, s, pairs, results).0;
            s.log <= s'.log && forall c :: c in New(s, s') ==> CallKey(c) != key
    decreases |pairs|
  {
    hide Key;
    if pairs != [] {
      var (provider, exampleId) := pairs[0];
      if IsSuccessful(s.store, KeyOf(pairs[0])) {
        GridCallsElsewhere(plan, s, pairs[1..], results + [s.store[KeyOf(pairs[0])]], key);
      } else {
        var (s1, end) := RunPair(plan, s, provider, exampleId, 0, 0);
        PairProgress(plan, s, provider, exampleId, 0, 0);
        if end.Recorded? {
          GridCallsElsewhere(plan, s1, pairs[1..], results + [end.record], key);
          NewSplits(s, s1, RunGrid(plan, s1, pairs[1..], results + [end.record]).0);
        }
      }
    }
  }

  ghost predicate Accounted(plan: Plan, s: Session, s': Session, ended: Option<Reason>) {
    && s.log <= s'.log
    && CallsAgree(plan, New(s, s'), ended)
    && RecordsAgree(plan, New(s, s'), s.store, s'.store, ended)
    && VersionsAgree(plan, New(s, s'), s'.resumed, ended)
    && (plan.guard.Some? ==> s.resumed <= s'.resumed)
    && (New(s, s') == [] ==> ended in {None, Some(BudgetExhausted)})
  }

  lemma NothingAccounted(plan: Plan, s: Session)
    ensures Accounted(plan, s, s, None)
  {
  }

  lemma PairEndAccounted(plan: Plan, s: Session, pair: Pair)
    requires !IsSuccessful(s.store, KeyOf(pair))
    ensures var (s', end) := RunPair(plan, s, pair.0, pair.1, 0, 0);
            && Accounted(plan, s, s', WhyPair(end))
            && (forall c :: c in New(s, s') ==> CallKey(c) == KeyOf(pair))
  {
    PairProgress(plan, s, pair.0, pair.1, 0, 0);
    PairIsAccounted(plan, s, pair.0, pair.1, 0, 0, []);
    PairVersions(plan, s, pair.0, pair.1, 0, 0);
    var (s', end) := RunPair(plan, s, pair.0, pair.1, 0, 0);
    hide RunPair, AllGoOn, LastRecorded, CallsAgree, RecordsAgree, VersionsAgree, Progress, New, Key, OnlyAt;
    var calls := New(s, s');
    assert forall c :: c in calls ==> PairOf(c) == pair;
    PairCallsAgree(plan, calls, pair, WhyPair(end));
    PairRecordsAgree(plan, calls, pair, s.store, s'.store, WhyPair(end));
  }

  /**
   * Wherever a session ends, its calls and its store agree: an example is called again exactly while its answers are
   * unparsed or transient and the allowances last, and the last of its calls that was answered, and neither thrown
   * away nor refused, has its own record in the store.
   */
  lemma {:induction false} SessionAccounted(plan: Plan, s: Session, pairs: seq<Pair>, results: seq<Record>)
    requires DistinctKeys(pairs)
    ensures var (s', outcome) := RunGrid(plan, s, pairs, results);
            Accounted(plan, s, s', Why(outcome))
    decreases |pairs|
  {
    if pairs == [] {
      NothingAccounted(plan, s);
    } else {
      var (provider, exampleId) := pairs[0];
      if IsSuccessful(s.store, KeyOf(pairs[0])) {
        SessionAccounted(plan, s, pairs[1..], results + [s.store[KeyOf(pairs[0])]]);
      } else {
        var (s1, end) := RunPair(plan, s, provider, exampleId, 0, 0);
        PairEndAccounted(plan, s, pairs[0]);
        if end.Recorded? {
          SessionAccounted(plan, s1, pairs[1..], results + [end.record]);
          GridCallsElsewhere(plan, s1, pairs[1..], results + [end.record], KeyOf(pairs[0]));
          var (s2, outcome) := RunGrid(plan, s1, pairs[1..], results + [end.record]);
          hide RunPair, RunGrid, New, CallsAgree, RecordsAgree, VersionsAgree, Key;
          NewSplits(s, s1, s2);
          VersionsJoin(plan, New(s, s1), New(s1, s2), s1.resumed, s2.resumed, Why(outcome));
          CallsAgreeJoins(plan, New(s, s1), New(s1, s2), Why(outcome));
          RecordsAgreeJoins(plan, New(s, s1), New(s1, s2), s.store, s1.store, s2.store, Why(outcome));
        }
      }
    }
  }
}
