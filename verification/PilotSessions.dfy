/** Series of pilot sessions over one store: successes last, and a finished series is as good as one long session. */
module PilotSessions {
  import opened Results
  import opened Orders
  import opened PilotProtocol
  import opened PilotLaws

  /** How one session is started: its plan, the counts it starts from, and the examples it walks. */
  datatype Launch = Launch(plan: Plan, used: nat, consecutive: nat, resumed: set<string>, pairs: seq<Pair>)
  {
    function Start(store: Store): Session { Session(store, used, consecutive, resumed, []) }

    function Run(store: Store): (Session, Outcome) { RunGrid(plan, Start(store), pairs, []) }
  }

  /** The store after a series of sessions, each resuming what the one before it left. */
  function RunAll(store: Store, launches: seq<Launch>): Store
    decreases |launches|
  {
    if launches == [] then store else RunAll(launches[0].Run(store).0.store, launches[1..])
  }

  function AllCalls(store: Store, launches: seq<Launch>): seq<Call>
    decreases |launches|
  {
    if launches == [] then []
    else launches[0].Run(store).0.log + AllCalls(launches[0].Run(store).0.store, launches[1..])
  }

  lemma RunLawful(launch: Launch, store: Store)
    ensures var (s', outcome) := launch.Run(store); Lawful(launch.plan, launch.Start(store), s', outcome)
    ensures var (s', outcome) := launch.Run(store); SuccessKept(store, s'.store)
    ensures forall c :: c in launch.Run(store).0.log ==> !IsSuccessful(store, CallKey(c))
  {
    GridLawful(launch.plan, launch.Start(store), launch.pairs, []);
  }

  /** No later session changes or drops a success, or pays for another call on it. */
  lemma {:induction false} SuccessesLast(store: Store, launches: seq<Launch>)
    ensures SuccessKept(store, RunAll(store, launches))
    ensures forall c :: c in AllCalls(store, launches) ==> !IsSuccessful(store, CallKey(c))
    decreases |launches|
  {
    if launches != [] {
      RunLawful(launches[0], store);
      var s' := launches[0].Run(store).0;
      SuccessesLast(s'.store, launches[1..]);
      hide RunGrid, Lawful, Key;
    }
  }

  /** With one historical set guarding every session, each versioned success gained carries a historical version. */
  lemma {:induction false} VersionsStayHistorical(store: Store, launches: seq<Launch>, historical: set<string>,
                                                  key: string)
    requires historical != {}
    requires forall i :: 0 <= i < |launches| ==> launches[i].plan.guard == Some(historical)
    ensures var end := RunAll(store, launches);
            IsSuccessful(end, key) && !IsSuccessful(store, key) && HasVersion(end[key].trace) ==>
              end[key].trace.modelVersion.value in historical
    decreases |launches|
  {
    if launches != [] {
      RunLawful(launches[0], store);
      var s' := launches[0].Run(store).0;
      VersionsStayHistorical(s'.store, launches[1..], historical, key);
      SuccessesLast(s'.store, launches[1..]);
      assert launches[0].plan.guard == Some(historical);
      hide RunGrid, Progress, Watched, Key;
    }
  }

  // ----- resume confluence -----

  /** The evaluator is deterministic per example, though any call may also raise. */
  ghost predicate Agrees(plan: Plan, f: (string, string) -> Trace) {
    forall n, provider, id :: plan.oracle(n, provider, id) in {Raised, Traced(f(provider, id))}
  }

  /** What a session that reaches the end records for one example. */
  function FinalRecord(maxRetries: int, allowance: int, pair: Pair, trace: Trace): Record {
    var attempt: nat :=
      if trace.prediction.Some? then 1
      else if IsRegenerable(trace) then Left(allowance, 0) + 1
      else if IsRetryable(trace) then Left(maxRetries, 0) + 1
      else 1;
    MakeRecord(pair.0, pair.1, attempt, trace)
  }

  function Final(plan: Plan, f: (string, string) -> Trace, pair: Pair): Record {
    FinalRecord(plan.maxRetries, plan.Allowance(pair.0), pair, f(pair.0, pair.1))
  }

  /** The counters an example can have reached under a deterministic evaluator. */
  predicate Reached(plan: Plan, provider: string, trace: Trace, retry: nat, regeneration: nat) {
    && retry <= Left(plan.maxRetries, 0) && regeneration <= Left(plan.Allowance(provider), 0)
    && (retry > 0 ==> trace.prediction.None? && IsRetryable(trace))
    && (regeneration > 0 ==> IsRegenerable(trace))
  }

  lemma SettleReaches(plan: Plan, s: Session, provider: string, id: string, retry: nat, regeneration: nat, trace: Trace)
    requires !IsSuccessful(s.store, Key(provider, id))
    requires Reached(plan, provider, trace, retry, regeneration)
    ensures var v := Settle(plan, s, provider, id, retry, regeneration, trace).1;
            && (v.Again? ==> Reached(plan, provider, trace, v.retry, v.regeneration))
            && (v.Done? ==> v.record == FinalRecord(plan.maxRetries, plan.Allowance(provider), (provider, id), trace))
  {
    hide Key;
  }

  lemma StepReaches(plan: Plan, f: (string, string) -> Trace, s: Session, provider: string, id: string,
                    retry: nat, regeneration: nat)
    requires Agrees(plan, f)
    requires !IsSuccessful(s.store, Key(provider, id))
    requires Reached(plan, provider, f(provider, id), retry, regeneration)
    ensures var v := CallOnce(plan, s, provider, id, retry, regeneration).1;
            && (v.Again? ==> Reached(plan, provider, f(provider, id), v.retry, v.regeneration))
            && (v.Done? ==> v.record == Final(plan, f, (provider, id)))
  {
    var trace := f(provider, id);
    var asked := Asked(plan, s, provider, id);
    SettleReaches(plan, asked, provider, id, retry, regeneration, trace);
    SettleReaches(plan, asked.(consecutive := CounterAfter(s.consecutive, trace)), provider, id, retry, regeneration,
                  trace);
    assert plan.oracle(|s.log|, provider, id) in {Raised, Traced(trace)};
    hide Settle, Trips, CounterAfter, Key, Reached, FinalRecord;
  }

  /** A successful record stored for this example is the one any session would store. */
  ghost predicate SoundAt(f: (string, string) -> Trace, store: Store, pair: Pair) {
    IsSuccessful(store, KeyOf(pair)) ==> store[KeyOf(pair)] == MakeRecord(pair.0, pair.1, 1, f(pair.0, pair.1))
  }

  lemma SuccessIsFinal(plan: Plan, f: (string, string) -> Trace, store: Store, pair: Pair)
    requires SoundAt(f, store, pair) && IsSuccessful(store, KeyOf(pair))
    ensures store[KeyOf(pair)] == Final(plan, f, pair)
  {
  }

  lemma StepSound(plan: Plan, f: (string, string) -> Trace, s: Session, provider: string, id: string,
                  retry: nat, regeneration: nat)
    requires Agrees(plan, f)
    requires !IsSuccessful(s.store, Key(provider, id))
    requires Reached(plan, provider, f(provider, id), retry, regeneration)
    ensures SoundAt(f, CallOnce(plan, s, provider, id, retry, regeneration).0.store, (provider, id))
  {
    var trace := f(provider, id);
    assert plan.oracle(|s.log|, provider, id) in {Raised, Traced(trace)};
    hide Trips, CounterAfter, Key, HasVersion, IsRateLimit;
  }

  lemma {:induction false} PairSettles(plan: Plan, f: (string, string) -> Trace, s: Session, provider: string,
                                       id: string, retry: nat, regeneration: nat)
    requires Agrees(plan, f)
    requires !IsSuccessful(s.store, Key(provider, id))
    requires Reached(plan, provider, f(provider, id), retry, regeneration)
    ensures var (s', end) := RunPair(plan, s, provider, id, retry, regeneration);
            && SoundAt(f, s'.store, (provider, id))
            && (end.Recorded? ==> end.record == Final(plan, f, (provider, id)))
    decreases Left(plan.maxRetries, retry) + Left(plan.Allowance(provider), regeneration)
  {
    var (s1, v) := CallOnce(plan, s, provider, id, retry, regeneration);
    StepProgress(plan, s, provider, id, retry, regeneration);
    StepReaches(plan, f, s, provider, id, retry, regeneration);
    StepSound(plan, f, s, provider, id, retry, regeneration);
    AgainUsesUp(plan, s, provider, id, retry, regeneration);
    if v.Again? {
      hide CallOnce, Reached, SoundAt, Final, Agrees, Progress;
      PairSettles(plan, f, s1, provider, id, v.retry, v.regeneration);
    }
  }

  /** Every stored record belongs to one of these examples, and the successes among them are the ones expected. */
  ghost predicate Sound(f: (string, string) -> Trace, store: Store, pairs: seq<Pair>) {
    && (forall k :: k in store ==> exists i :: 0 <= i < |pairs| && KeyOf(pairs[i]) == k)
    && (forall i :: 0 <= i < |pairs| ==> SoundAt(f, store, pairs[i]))
  }

  /** Running one example keeps the rest of the store as it is. */
  lemma SoundAfterPair(f: (string, string) -> Trace, before: Store, after: Store, all: seq<Pair>, i: nat)
    requires DistinctKeys(all) && i < |all| && Sound(f, before, all)
    requires OnlyAt(before, after, KeyOf(all[i])) && SoundAt(f, after, all[i])
    ensures Sound(f, after, all)
  {
    hide KeyOf;
    forall j | 0 <= j < |all|
      ensures SoundAt(f, after, all[j])
    {
      if j != i {
        assert KeyOf(all[j]) != KeyOf(all[i]);
        assert SoundAt(f, before, all[j]);
      }
    }
  }

  ghost predicate AllFinal(plan: Plan, f: (string, string) -> Trace, store: Store, pairs: seq<Pair>) {
    forall i :: 0 <= i < |pairs| ==> KeyOf(pairs[i]) in store && store[KeyOf(pairs[i])] == Final(plan, f, pairs[i])
  }

  lemma OthersElsewhere(all: seq<Pair>, from: nat)
    requires DistinctKeys(all) && from < |all|
    ensures var rest := all[from + 1..]; forall i :: 0 <= i < |rest| ==> KeyOf(rest[i]) != KeyOf(all[from])
  {
  }

  lemma {:induction false} GridSettles(plan: Plan, f: (string, string) -> Trace, s: Session, all: seq<Pair>, from: nat,
                                       results: seq<Record>)
    requires Agrees(plan, f) && DistinctKeys(all) && from <= |all| && Sound(f, s.store, all)
    ensures var (s', outcome) := RunGrid(plan, s, all[from..], results);
            && Sound(f, s'.store, all)
            && (outcome.Returned? ==> AllFinal(plan, f, s'.store, all[from..]))
    decreases |all| - from, 1
  {
    if from < |all| {
      var pair, rest := all[from], all[from..][1..];
      assert all[from..][0] == pair && rest == all[from + 1..];
      assert SoundAt(f, s.store, pair);
      OthersElsewhere(all, from);
      if IsSuccessful(s.store, KeyOf(pair)) {
        SuccessIsFinal(plan, f, s.store, pair);
        GridAfterFirst(plan, f, s, all, from, results + [s.store[KeyOf(pair)]]);
      } else {
        PairProgress(plan, s, pair.0, pair.1, 0, 0);
        PairSettles(plan, f, s, pair.0, pair.1, 0, 0);
        var (s1, end) := RunPair(plan, s, pair.0, pair.1, 0, 0);
        SoundAfterPair(f, s.store, s1.store, all, from);
        if end.Recorded? {
          GridAfterFirst(plan, f, s1, all, from, results + [end.record]);
        }
      }
    }
  }

  lemma {:induction false} GridAfterFirst(plan: Plan, f: (string, string) -> Trace, s: Session, all: seq<Pair>,
                                          from: nat, results: seq<Record>)
    requires Agrees(plan, f) && DistinctKeys(all) && from < |all| && Sound(f, s.store, all)
    requires KeyOf(all[from]) in s.store && s.store[KeyOf(all[from])] == Final(plan, f, all[from])
    ensures var (s', outcome) := RunGrid(plan, s, all[from + 1..], results);
            && Sound(f, s'.store, all)
            && (outcome.Returned? ==> AllFinal(plan, f, s'.store, all[from..]))
    decreases |all| - from, 0
  {
    GridSettles(plan, f, s, all, from + 1, results);
    OthersElsewhere(all, from);
    GridTouchesOnly(plan, s, all[from + 1..], results, KeyOf(all[from]));
    hide RunGrid, Sound, Final, Agrees, DistinctKeys, Key;
    var (s', outcome) := RunGrid(plan, s, all[from + 1..], results);
    if outcome.Returned? {
      forall i | 0 <= i < |all[from..]|
        ensures KeyOf(all[from..][i]) in s'.store && s'.store[KeyOf(all[from..][i])] == Final(plan, f, all[from..][i])
      {
        if i > 0 {
          assert all[from..][i] == all[from + 1..][i - 1];
        }
      }
    }
  }

  ghost predicate SameWork(launches: seq<Launch>, f: (string, string) -> Trace, pairs: seq<Pair>) {
    forall i :: 0 <= i < |launches| ==> launches[i].pairs == pairs && Agrees(launches[i].plan, f)
  }

  /** The last session of a series. */
  function LastOutcome(store: Store, launches: seq<Launch>): Outcome
    requires launches != []
    decreases |launches|
  {
    var (s', outcome) := launches[0].Run(store);
    if |launches| == 1 then outcome else LastOutcome(s'.store, launches[1..])
  }

  lemma RunSettles(launch: Launch, store: Store, f: (string, string) -> Trace)
    requires Agrees(launch.plan, f) && DistinctKeys(launch.pairs) && Sound(f, store, launch.pairs)
    ensures var (s', outcome) := launch.Run(store);
            && Sound(f, s'.store, launch.pairs)
            && (outcome.Returned? ==> AllFinal(launch.plan, f, s'.store, launch.pairs))
  {
    hide Agrees, DistinctKeys, Sound, AllFinal, RunGrid;
    assert launch.pairs[0..] == launch.pairs;
    GridSettles(launch.plan, f, launch.Start(store), launch.pairs, 0, []);
  }

  lemma {:induction false} SeriesSettles(store: Store, launches: seq<Launch>, f: (string, string) -> Trace,
                                         pairs: seq<Pair>)
    requires launches != [] && SameWork(launches, f, pairs) && DistinctKeys(pairs) && Sound(f, store, pairs)
    ensures Sound(f, RunAll(store, launches), pairs)
    ensures LastOutcome(store, launches).Returned? ==>
              AllFinal(launches[|launches| - 1].plan, f, RunAll(store, launches), pairs)
    decreases |launches|
  {
    hide Agrees, DistinctKeys, Sound, AllFinal, RunGrid, Launch.Run;
    assert launches[0].pairs == pairs && Agrees(launches[0].plan, f);
    RunSettles(launches[0], store, f);
    var (s', outcome) := launches[0].Run(store);
    if |launches| > 1 {
      SeriesSettles(s'.store, launches[1..], f, pairs);
    } else {
      assert RunAll(store, launches) == RunAll(s'.store, launches[1..]) == s'.store;
    }
  }

  lemma StoreDetermined(plan: Plan, f: (string, string) -> Trace, a: Store, b: Store, pairs: seq<Pair>)
    requires Sound(f, a, pairs) && AllFinal(plan, f, a, pairs)
    requires Sound(f, b, pairs) && AllFinal(plan, f, b, pairs)
    ensures a == b
  {
    hide KeyOf, Final, SoundAt;
    forall k | k in a || k in b
      ensures k in a && k in b && a[k] == b[k]
    {
      var i :| 0 <= i < |pairs| && KeyOf(pairs[i]) == k;
    }
  }

  lemma SameFinal(a: Plan, b: Plan, f: (string, string) -> Trace, store: Store, pairs: seq<Pair>)
    requires a.maxRetries == b.maxRetries && a.regenerations == b.regenerations
    ensures AllFinal(a, f, store, pairs) <==> AllFinal(b, f, store, pairs)
  {
    hide KeyOf, FinalRecord;
  }

  /** No ceiling, no breaker, no guard, and an evaluator that never raises. */
  ghost predicate NeverCut(plan: Plan, f: (string, string) -> Trace) {
    && plan.ceiling.None? && plan.breaker.None? && plan.guard.None?
    && forall n, provider, id :: plan.oracle(n, provider, id) == Traced(f(provider, id))
  }

  lemma {:induction false} UnlimitedPairEnds(plan: Plan, f: (string, string) -> Trace, s: Session, provider: string,
                                             id: string, retry: nat, regeneration: nat)
    requires NeverCut(plan, f)
    requires !IsSuccessful(s.store, Key(provider, id))
    ensures RunPair(plan, s, provider, id, retry, regeneration).1.Recorded?
    decreases Left(plan.maxRetries, retry) + Left(plan.Allowance(provider), regeneration)
  {
    var (s1, v) := CallOnce(plan, s, provider, id, retry, regeneration);
    StepProgress(plan, s, provider, id, retry, regeneration);
    AgainUsesUp(plan, s, provider, id, retry, regeneration);
    SettleKeeps(plan, Asked(plan, s, provider, id), provider, id, retry, regeneration, f(provider, id));
    hide Progress, Key, OnlyAt, New;
    if v.Again? {
      UnlimitedPairEnds(plan, f, s1, provider, id, v.retry, v.regeneration);
    }
  }

  lemma {:induction false} UnlimitedReturns(plan: Plan, f: (string, string) -> Trace, s: Session, pairs: seq<Pair>,
                                            results: seq<Record>)
    requires NeverCut(plan, f)
    ensures RunGrid(plan, s, pairs, results).1.Returned?
    decreases |pairs|
  {
    if pairs != [] {
      if IsSuccessful(s.store, KeyOf(pairs[0])) {
        UnlimitedReturns(plan, f, s, pairs[1..], results + [s.store[KeyOf(pairs[0])]]);
      } else {
        UnlimitedPairEnds(plan, f, s, pairs[0].0, pairs[0].1, 0, 0);
        var (s1, end) := RunPair(plan, s, pairs[0].0, pairs[0].1, 0, 0);
        UnlimitedReturns(plan, f, s1, pairs[1..], results + [end.record]);
      }
    }
  }

  lemma NeverCutAgrees(plan: Plan, f: (string, string) -> Trace)
    requires NeverCut(plan, f)
    ensures Agrees(plan, f)
  {
  }

  lemma EmptySound(f: (string, string) -> Trace, pairs: seq<Pair>)
    ensures Sound(f, map[], pairs)
  {
  }

  /**
   * From an empty store, sessions cut by budgets, quotas, version checks or raising evaluators, of which the last one
   * returns, leave exactly the store of a single session that nothing cuts.
   */
  lemma ResumeConfluence(launches: seq<Launch>, single: Launch, f: (string, string) -> Trace, pairs: seq<Pair>)
    requires launches != [] && SameWork(launches, f, pairs) && DistinctKeys(pairs)
    requires LastOutcome(map[], launches).Returned?
    requires single.pairs == pairs && NeverCut(single.plan, f)
    requires var last := launches[|launches| - 1].plan;
             single.plan.maxRetries == last.maxRetries && single.plan.regenerations == last.regenerations
    ensures single.Run(map[]).1.Returned?
    ensures RunAll(map[], launches) == single.Run(map[]).0.store
  {
    var last := launches[|launches| - 1].plan;
    NeverCutAgrees(single.plan, f);
    EmptySound(f, pairs);
    UnlimitedReturns(single.plan, f, single.Start(map[]), pairs, []);
    hide NeverCut, Agrees, DistinctKeys, Sound, AllFinal, RunGrid, RunAll, SameWork, LastOutcome;
    SeriesSettles(map[], launches, f, pairs);
    RunSettles(single, map[], f);
    var alone := single.Run(map[]).0.store;
    SameFinal(single.plan, last, f, alone, pairs);
    StoreDetermined(last, f, RunAll(map[], launches), alone, pairs);
  }

  // ----- keys -----

  /** Two providers can share a key exactly when one name with its colon begins the other with its colon. */
  lemma KeysCollideExactly(p: string, q: string)
    ensures (exists d: string, e: string :: Key(p, d) == Key(q, e)) <==> p + ":" <= q + ":" || q + ":" <= p + ":"
  {
    if d: string, e: string :| Key(p, d) == Key(q, e) {
      PrefixesOfOne(p + ":", d, q + ":", e);
    }
    if p + ":" <= q + ":" {
      var d := (q + ":")[|p + ":"|..];
      assert Key(p, d) == Key(q, "");
    }
    if q + ":" <= p + ":" {
      var e := (p + ":")[|q + ":"|..];
      assert Key(p, "") == Key(q, e);
    }
  }

  lemma PrefixesOfOne(a: string, x: string, b: string, y: string)
    requires a + x == b + y
    ensures a <= b || b <= a
  {
    if |a| <= |b| {
      assert a == (a + x)[..|a|] == (b + y)[..|a|] == b[..|a|];
    } else {
      assert b == (b + y)[..|b|] == (a + x)[..|b|] == a[..|b|];
    }
  }

  lemma {:induction false} GridExtends(plan: Plan, s: Session, pairs: seq<Pair>, results: seq<Record>)
    ensures var outcome := RunGrid(plan, s, pairs, results).1;
            outcome.Returned? ==> |outcome.results| == |results| + |pairs| && outcome.results[..|results|] == results
    decreases |pairs|, 1
  {
    if pairs != [] {
      var (s1, end) := RunPair(plan, s, pairs[0].0, pairs[0].1, 0, 0);
      if IsSuccessful(s.store, KeyOf(pairs[0])) {
        ExtendsByOne(plan, s, pairs[1..], results, s.store[KeyOf(pairs[0])]);
      } else if end.Recorded? {
        ExtendsByOne(plan, s1, pairs[1..], results, end.record);
      }
    }
  }

  lemma {:induction false} ExtendsByOne(plan: Plan, s: Session, pairs: seq<Pair>, results: seq<Record>, record: Record)
    ensures var outcome := RunGrid(plan, s, pairs, results + [record]).1;
            outcome.Returned? ==>
              && |outcome.results| == |results| + 1 + |pairs|
              && outcome.results[..|results|] == results && outcome.results[|results|] == record
    decreases |pairs|, 2
  {
    var longer := results + [record];
    GridExtends(plan, s, pairs, longer);
    var outcome := RunGrid(plan, s, pairs, longer).1;
    hide RunGrid;
    if outcome.Returned? {
      assert outcome.results[..|results|] == outcome.results[..|longer|][..|results|];
      assert outcome.results[|results|] == outcome.results[..|longer|][|results|];
    }
  }

  /** An example whose key has a success when the session starts is reported with that success, whoever earned it. */
  lemma {:induction false} StoredIsReported(plan: Plan, s: Session, pairs: seq<Pair>, results: seq<Record>, j: nat)
    requires j < |pairs| && IsSuccessful(s.store, KeyOf(pairs[j]))
    ensures var outcome := RunGrid(plan, s, pairs, results).1;
            outcome.Returned? ==>
              |results| + j < |outcome.results| && outcome.results[|results| + j] == s.store[KeyOf(pairs[j])]
    decreases |pairs|
  {
    hide Key, RunPair, New;
    var rest := pairs[1..];
    if IsSuccessful(s.store, KeyOf(pairs[0])) {
      var longer := results + [s.store[KeyOf(pairs[0])]];
      if j == 0 {
        ExtendsByOne(plan, s, rest, results, s.store[KeyOf(pairs[0])]);
      } else {
        StoredIsReported(plan, s, rest, longer, j - 1);
      }
    } else {
      PairProgress(plan, s, pairs[0].0, pairs[0].1, 0, 0);
      var (s1, end) := RunPair(plan, s, pairs[0].0, pairs[0].1, 0, 0);
      if end.Recorded? {
        StoredIsReported(plan, s1, rest, results + [end.record], j - 1);
      }
    }
  }

  lemma FirstSucceeds(plan: Plan, f: (string, string) -> Trace, s: Session, pair: Pair)
    requires NeverCut(plan, f) && f(pair.0, pair.1).prediction.Some? && !IsSuccessful(s.store, KeyOf(pair))
    ensures var (s1, end) := RunPair(plan, s, pair.0, pair.1, 0, 0);
            && end == Recorded(MakeRecord(pair.0, pair.1, 1, f(pair.0, pair.1)))
            && IsSuccessful(s1.store, KeyOf(pair)) && s1.store[KeyOf(pair)] == end.record
            && s.log <= s1.log && (forall c :: c in New(s, s1) ==> (c.provider, c.exampleId) == pair)
  {
    NeverCutAgrees(plan, f);
    hide RunPair, NeverCut, Agrees;
    UnlimitedPairEnds(plan, f, s, pair.0, pair.1, 0, 0);
    PairSettles(plan, f, s, pair.0, pair.1, 0, 0);
    PairProgress(plan, s, pair.0, pair.1, 0, 0);
  }

  lemma GridAfterRecorded(plan: Plan, s: Session, pairs: seq<Pair>)
    requires pairs != [] && !IsSuccessful(s.store, KeyOf(pairs[0]))
    ensures var (s1, end) := RunPair(plan, s, pairs[0].0, pairs[0].1, 0, 0);
            end.Recorded? ==> RunGrid(plan, s, pairs, []) == RunGrid(plan, s1, pairs[1..], [end.record])
  {
    hide RunPair;
    var end := RunPair(plan, s, pairs[0].0, pairs[0].1, 0, 0).1;
    if end.Recorded? {
      var before: seq<Record> := [];
      assert before + [end.record] == [end.record];
    }
  }

  /**
   * What a shared key costs: once an example succeeds, another pair with its key is not evaluated, and is reported with
   * the record of the first.
   */
  lemma SharedKeySkips(plan: Plan, f: (string, string) -> Trace, s: Session, pairs: seq<Pair>, j: nat)
    requires NeverCut(plan, f) && 0 < j < |pairs|
    requires pairs[j] != pairs[0] && KeyOf(pairs[j]) == KeyOf(pairs[0])
    requires f(pairs[0].0, pairs[0].1).prediction.Some? && !IsSuccessful(s.store, KeyOf(pairs[0]))
    ensures var (s', outcome) := RunGrid(plan, s, pairs, []);
            && s.log <= s'.log && CallsOn(New(s, s'), pairs[j]) == []
            && outcome.Returned? && |outcome.results| == |pairs|
            && outcome.results[j] == MakeRecord(pairs[0].0, pairs[0].1, 1, f(pairs[0].0, pairs[0].1))
  {
    hide RunPair, RunGrid, NeverCut, Key, MakeRecord;
    var first, rest := pairs[0], pairs[1..];
    FirstSucceeds(plan, f, s, first);
    UnlimitedReturns(plan, f, s, pairs, []);
    GridAfterRecorded(plan, s, pairs);
    var (s1, end) := RunPair(plan, s, first.0, first.1, 0, 0);
    assert rest[j - 1] == pairs[j] && KeyOf(rest[j - 1]) == KeyOf(first);
    StoredIsReported(plan, s1, rest, [end.record], j - 1);
    assert |[end.record]| + (j - 1) == j;
    GridExtends(plan, s1, rest, [end.record]);
    SkippedCalls(plan, s, s1, rest, end.record, pairs[j]);
  }

  lemma SkippedCalls(plan: Plan, s: Session, s1: Session, rest: seq<Pair>, record: Record, pair: Pair)
    requires s.log <= s1.log && IsSuccessful(s1.store, KeyOf(pair))
    requires forall c :: c in New(s, s1) ==> (c.provider, c.exampleId) != pair
    ensures var s' := RunGrid(plan, s1, rest, [record]).0;
            s.log <= s'.log && CallsOn(New(s, s'), pair) == []
  {
    GridLawful(plan, s1, rest, [record]);
    hide RunGrid, Guarded, Watched;
    var s' := RunGrid(plan, s1, rest, [record]).0;
    NewSplits(s, s1, s');
    CallsOnSplits(New(s, s1), New(s1, s'), pair);
    CallsOnOne(New(s, s1), pair);
    NoCallsOn(plan, s1, s', pair);
  }

  /** For instance: with providers "a" and "a:b", example "c" of the second is reported as "b:c" of the first. */
  lemma SharedKeyExample(plan: Plan, f: (string, string) -> Trace, s: Session)
    requires NeverCut(plan, f) && f("a", "b:c").prediction.Some? && s.store == map[]
    ensures var grid := Grid(["a", "a:b"], ["b:c", "c"]);
            var (s', outcome) := RunGrid(plan, s, grid, []);
            && |grid| == 4 && grid[3] == ("a:b", "c") && s.log <= s'.log && CallsOn(New(s, s'), grid[3]) == []
            && outcome.Returned? && |outcome.results| == 4
            && outcome.results[3] == MakeRecord("a", "b:c", 1, f("a", "b:c"))
  {
    FourPairs();
    assert |"a"| != |"a:b"|;
    hide RunGrid, NeverCut, Grid, MakeRecord;
    SharedKeySkips(plan, f, s, Grid(["a", "a:b"], ["b:c", "c"]), 3);
  }

  lemma FourPairs()
    ensures Grid(["a", "a:b"], ["b:c", "c"]) == [("a", "b:c"), ("a", "c"), ("a:b", "b:c"), ("a:b", "c")]
    ensures KeyOf(("a", "b:c")) == KeyOf(("a:b", "c"))
  {
    var providers, ids := ["a", "a:b"], ["b:c", "c"];
    assert providers[1..] == ["a:b"] && ["a:b"][1..] == [];
    assert Row("a", ids) == [("a", "b:c"), ("a", "c")] && Row("a:b", ids) == [("a:b", "b:c"), ("a:b", "c")];
    assert Grid(["a:b"], ids) == Row("a:b", ids) + [];
  }

  lemma NoCallsOn(plan: Plan, s: Session, s': Session, pair: Pair)
    requires Progress(plan, s, s') && IsSuccessful(s.store, KeyOf(pair))
    ensures CallsOn(New(s, s'), pair) == []
  {
    CallsOnOne(New(s, s'), pair);
    forall c | c in New(s, s')
      ensures (c.provider, c.exampleId) != pair
    {
      var i :| 0 <= i < |New(s, s')| && New(s, s')[i] == c;
      assert s'.log[|s.log| + i] == c;
    }
  }

  /** The provider list is safe: no name, with its colon, begins another. */
  ghost predicate Unambiguous(providers: seq<string>) {
    forall i, j :: 0 <= i < |providers| && 0 <= j < |providers| && i != j ==>
      !(providers[i] + ":" <= providers[j] + ":")
  }

  lemma ColonFreeIsUnambiguous(providers: seq<string>)
    requires NoDuplicates(providers)
    requires forall i :: 0 <= i < |providers| ==> ':' !in providers[i]
    ensures Unambiguous(providers)
  {
    forall i, j | 0 <= i < |providers| && 0 <= j < |providers| && i != j
      ensures !(providers[i] + ":" <= providers[j] + ":")
    {
      ColonMarksTheEnd(providers[i], providers[j]);
    }
  }

  lemma ColonMarksTheEnd(p: string, q: string)
    requires p != q && ':' !in p && ':' !in q
    ensures !(p + ":" <= q + ":")
  {
    assert p == (p + ":")[..|p|] && q == (q + ":")[..|q|];
    assert (p + ":")[|p|] == ':';
    assert |p| < |q| ==> (q + ":")[|p|] == q[|p|];
  }

  lemma KeysDiffer(p: string, d: string, q: string, e: string)
    requires (p, d) != (q, e)
    requires p != q ==> !(p + ":" <= q + ":") && !(q + ":" <= p + ":")
    ensures Key(p, d) != Key(q, e)
  {
    KeysCollideExactly(p, q);
    assert d == Key(p, d)[|p| + 1..] && e == Key(q, e)[|q| + 1..];
  }

  /** The grid walks providers in order and, for each, the manifest in order. */
  lemma {:induction false} GridAt(providers: seq<string>, ids: seq<string>, i: nat, j: nat)
    requires i < |providers| && j < |ids|
    ensures i * |ids| + j < |Grid(providers, ids)| == |providers| * |ids|
    ensures Grid(providers, ids)[i * |ids| + j] == (providers[i], ids[j])
  {
    GridSize(providers, ids);
    GridSize(providers[1..], ids);
    var row, rest := Row(providers[0], ids), Grid(providers[1..], ids);
    assert Grid(providers, ids) == row + rest;
    Widen(|providers|, i + 1, |ids|);
    OneMore(i, |ids|);
    if i > 0 {
      GridAt(providers[1..], ids, i - 1, j);
      hide Grid;
      OneMore(i - 1, |ids|);
      assert (row + rest)[i * |ids| + j] == rest[(i - 1) * |ids| + j];
    }
  }

  lemma OneMore(a: int, c: int)
    ensures (a + 1) * c == a * c + c
  {
  }

  lemma {:induction false} GridSize(providers: seq<string>, ids: seq<string>)
    ensures |Grid(providers, ids)| == |providers| * |ids|
  {
    if providers != [] {
      GridSize(providers[1..], ids);
    }
  }

  lemma GridKeysDistinct(providers: seq<string>, ids: seq<string>)
    requires Unambiguous(providers) && NoDuplicates(ids)
    ensures DistinctKeys(Grid(providers, ids))
  {
    var grid := Grid(providers, ids);
    GridSize(providers, ids);
    hide Grid, Key, Unambiguous, NoDuplicates;
    forall m, n | 0 <= m < n < |grid|
      ensures KeyOf(grid[m]) != KeyOf(grid[n])
    {
      Place(m, |ids|, |providers|);
      Place(n, |ids|, |providers|);
      PlacesDiffer(m, n, |ids|);
      EntriesDiffer(providers, ids, m / |ids|, m % |ids|, n / |ids|, n % |ids|);
    }
  }

  lemma EntriesDiffer(providers: seq<string>, ids: seq<string>, i: nat, j: nat, k: nat, l: nat)
    requires Unambiguous(providers) && NoDuplicates(ids)
    requires i < |providers| && k < |providers| && j < |ids| && l < |ids| && (i, j) != (k, l)
    ensures i * |ids| + j < |Grid(providers, ids)| && k * |ids| + l < |Grid(providers, ids)|
    ensures KeyOf(Grid(providers, ids)[i * |ids| + j]) != KeyOf(Grid(providers, ids)[k * |ids| + l])
  {
    GridAt(providers, ids, i, j);
    GridAt(providers, ids, k, l);
    assert providers[i] == providers[k] ==> i == k by {
      assert i != k ==> !(providers[i] + ":" <= providers[k] + ":");
    }
    hide Grid, Key;
    KeysDiffer(providers[i], ids[j], providers[k], ids[l]);
  }

  lemma PlacesDiffer(m: nat, n: nat, width: nat)
    requires m != n && width > 0
    ensures (m / width, m % width) != (n / width, n % width)
  {
    assert m == m / width * width + m % width && n == n / width * width + n % width;
  }

  /** A session that returns reports, provider by provider and in manifest order, exactly what the store then holds. */
  lemma ReportsInOrder(plan: Plan, s: Session, providers: seq<string>, ids: seq<string>, i: nat, j: nat)
    requires Unambiguous(providers) && NoDuplicates(ids) && i < |providers| && j < |ids|
    ensures var (s', outcome) := RunGrid(plan, s, Grid(providers, ids), []);
            outcome.Returned? ==>
              && i * |ids| + j < |outcome.results| == |providers| * |ids|
              && Key(providers[i], ids[j]) in s'.store
              && outcome.results[i * |ids| + j] == s'.store[Key(providers[i], ids[j])]
  {
    GridKeysDistinct(providers, ids);
    GridAt(providers, ids, i, j);
    ResultsMatchStore(plan, s, Grid(providers, ids), []);
    hide Grid, RunGrid, DistinctKeys, Key;
    var k := i * |ids| + j;
    assert KeyOf(Grid(providers, ids)[k]) == Key(providers[i], ids[j]);
  }

  lemma Place(m: nat, width: nat, height: nat)
    requires m < height * width
    ensures width > 0 && m / width < height && m == m / width * width + m % width
  {
    if m / width >= height {
      Widen(m / width, height, width);
    }
  }

  lemma Widen(a: nat, b: nat, c: nat)
    requires a >= b
    ensures a * c >= b * c
  {
  }
}
