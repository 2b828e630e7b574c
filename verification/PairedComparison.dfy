/** Paired comparison of two evaluators: evaluators/hallucination/comparison.py and pilot/analysis.py. */
module PairedComparison {
  import opened Orders
  import opened Results
  import opened Confusion
  import McNemar

  /** One example as the paired comparison sees it: the human label and the two predicted ones. */
  datatype Case = Case(actual: Label, first: Label, second: Label) {
    predicate FirstCorrect() { first == actual }
    predicate SecondCorrect() { second == actual }
  }

  const BOTH_CORRECT: set<Case> := {Case(Grounded, Grounded, Grounded), Case(Hallucinated, Hallucinated, Hallucinated)}
  const FIRST_ONLY: set<Case> := {Case(Grounded, Grounded, Hallucinated), Case(Hallucinated, Hallucinated, Grounded)}
  const SECOND_ONLY: set<Case> := {Case(Grounded, Hallucinated, Grounded), Case(Hallucinated, Grounded, Hallucinated)}
  const BOTH_WRONG: set<Case> := {Case(Grounded, Hallucinated, Hallucinated), Case(Hallucinated, Grounded, Grounded)}
  const FN_FIXED: set<Case> := {Case(Hallucinated, Grounded, Hallucinated)}
  const FP_FIXED: set<Case> := {Case(Grounded, Hallucinated, Grounded)}
  const FN_INTRODUCED: set<Case> := {Case(Hallucinated, Hallucinated, Grounded)}
  const FP_INTRODUCED: set<Case> := {Case(Grounded, Grounded, Hallucinated)}
  const SECOND_FN: set<Case> := {Case(Hallucinated, Hallucinated, Grounded), Case(Hallucinated, Grounded, Grounded)}
  const SECOND_FP: set<Case> := {Case(Grounded, Grounded, Hallucinated), Case(Grounded, Hallucinated, Hallucinated)}

  datatype Population = Population(ids: seq<string>, truth: map<string, Label>, first: map<string, Label>,
                                   second: map<string, Label>) {
    predicate Aligned() {
      forall id :: id in ids ==> id in truth && id in first && id in second
    }

    function CaseOf(id: string): Case
      requires id in truth && id in first && id in second
    {
      Case(truth[id], first[id], second[id])
    }

    function Front(n: nat): Population
      requires n <= |ids|
    {
      Population(ids[..n], truth, first, second)
    }
  }

  /** The IDs of the population, in order, whose case is among the wanted ones. */
  function Pick(p: Population, wanted: set<Case>): seq<string>
    requires p.Aligned()
    decreases |p.ids|
  {
    if p.ids == [] then []
    else
      var n := |p.ids| - 1;
      Pick(p.Front(n), wanted) + if p.CaseOf(p.ids[n]) in wanted then [p.ids[n]] else []
  }

  datatype Categories = Categories(
    bothCorrect: seq<string>, firstOnly: seq<string>, secondOnly: seq<string>, bothWrong: seq<string>)

  datatype Errors = Errors(
    fnFixed: seq<string>, fpFixed: seq<string>, fnIntroduced: seq<string>, fpIntroduced: seq<string>,
    secondFp: seq<string>, secondFn: seq<string>)

  /** The pilot's report keeps no list of newly introduced errors. */
  datatype PilotErrors = PilotErrors(fnFixed: seq<string>, fpFixed: seq<string>, secondFn: seq<string>,
                                     secondFp: seq<string>)

  datatype PilotComparison = PilotComparison(categories: Categories, errors: PilotErrors, mcnemar: McNemar.Report)

  datatype Comparison = Comparison(categories: Categories, errors: Errors, mcnemar: McNemar.Report)

  function CategoriesOf(p: Population): Categories
    requires p.Aligned()
  {
    Categories(Pick(p, BOTH_CORRECT), Pick(p, FIRST_ONLY), Pick(p, SECOND_ONLY), Pick(p, BOTH_WRONG))
  }

  function ErrorsOf(p: Population): Errors
    requires p.Aligned()
  {
    Errors(Pick(p, FN_FIXED), Pick(p, FP_FIXED), Pick(p, FN_INTRODUCED), Pick(p, FP_INTRODUCED),
           Pick(p, SECOND_FP), Pick(p, SECOND_FN))
  }

  /** Whether the first evaluator was right, example by example. */
  function FirstCorrectness(p: Population): (r: seq<bool>)
    requires p.Aligned()
    ensures |r| == |p.ids|
    decreases |p.ids|
  {
    if p.ids == [] then []
    else
      var n := |p.ids| - 1;
      FirstCorrectness(p.Front(n)) + [p.CaseOf(p.ids[n]).FirstCorrect()]
  }

  function SecondCorrectness(p: Population): (r: seq<bool>)
    requires p.Aligned()
    ensures |r| == |p.ids|
    decreases |p.ids|
  {
    if p.ids == [] then []
    else
      var n := |p.ids| - 1;
      SecondCorrectness(p.Front(n)) + [p.CaseOf(p.ids[n]).SecondCorrect()]
  }

  ghost predicate DescribesPairs(r: McNemar.Report, p: Population)
    requires p.Aligned()
  {
    && r.b == McNemar.OnlyFirst(FirstCorrectness(p), SecondCorrectness(p))
    && r.c == McNemar.OnlyFirst(SecondCorrectness(p), FirstCorrectness(p))
    && r.statistic == McNemar.Statistic(r.b, r.c)
    && r.pValue == McNemar.PValue(r.b, r.c)
  }

  ghost predicate Describes(r: Comparison, p: Population)
    requires p.Aligned()
  {
    r.categories == CategoriesOf(p) && r.errors == ErrorsOf(p) && DescribesPairs(r.mcnemar, p)
  }

  lemma CorrectnessNext(p: Population, n: nat)
    requires p.Aligned() && n < |p.ids|
    ensures FirstCorrectness(p.Front(n + 1)) == FirstCorrectness(p.Front(n)) + [p.CaseOf(p.ids[n]).FirstCorrect()]
    ensures SecondCorrectness(p.Front(n + 1)) == SecondCorrectness(p.Front(n)) + [p.CaseOf(p.ids[n]).SecondCorrect()]
  {
    assert p.Front(n + 1).Front(n) == p.Front(n);
  }

  lemma PickNext(p: Population, n: nat, wanted: set<Case>)
    requires p.Aligned() && n < |p.ids|
    ensures Pick(p.Front(n + 1), wanted)
         == Pick(p.Front(n), wanted) + if p.CaseOf(p.ids[n]) in wanted then [p.ids[n]] else []
  {
    assert p.Front(n + 1).Front(n) == p.Front(n);
  }

  lemma PickWhole(p: Population)
    ensures p.Front(|p.ids|) == p
  {
    assert p.ids[..|p.ids|] == p.ids;
  }

  function When(c: bool, id: string): seq<string> {
    if c then [id] else []
  }

  method AddCategory(c: Categories, id: string, k: Case) returns (r: Categories)
    ensures r == Categories(c.bothCorrect + When(k in BOTH_CORRECT, id), c.firstOnly + When(k in FIRST_ONLY, id),
                            c.secondOnly + When(k in SECOND_ONLY, id), c.bothWrong + When(k in BOTH_WRONG, id))
  {
    if k.FirstCorrect() && k.SecondCorrect() {
      r := c.(bothCorrect := c.bothCorrect + [id]);
    } else if k.FirstCorrect() {
      r := c.(firstOnly := c.firstOnly + [id]);
    } else if k.SecondCorrect() {
      r := c.(secondOnly := c.secondOnly + [id]);
    } else {
      r := c.(bothWrong := c.bothWrong + [id]);
    }
  }

  ghost predicate ErrorsAdded(e: Errors, r: Errors, id: string, k: Case) {
    && r.fnFixed == e.fnFixed + When(k in FN_FIXED, id)
    && r.fpFixed == e.fpFixed + When(k in FP_FIXED, id)
    && r.fnIntroduced == e.fnIntroduced + When(k in FN_INTRODUCED, id)
    && r.fpIntroduced == e.fpIntroduced + When(k in FP_INTRODUCED, id)
    && r.secondFp == e.secondFp + When(k in SECOND_FP, id)
    && r.secondFn == e.secondFn + When(k in SECOND_FN, id)
  }

  method AddErrors(e: Errors, id: string, k: Case) returns (r: Errors)
    ensures ErrorsAdded(e, r, id, k)
  {
    r := e;
    var firstFn := k.actual == Hallucinated && k.first == Grounded;
    var firstFp := k.actual == Grounded && k.first == Hallucinated;
    var secondFn := k.actual == Hallucinated && k.second == Grounded;
    var secondFp := k.actual == Grounded && k.second == Hallucinated;
    if firstFn {
      if k.SecondCorrect() {
        r := r.(fnFixed := r.fnFixed + [id]);
      }
    }
    if firstFp {
      if k.SecondCorrect() {
        r := r.(fpFixed := r.fpFixed + [id]);
      }
    }
    if k.FirstCorrect() && secondFn {
      r := r.(fnIntroduced := r.fnIntroduced + [id]);
    }
    if k.FirstCorrect() && secondFp {
      r := r.(fpIntroduced := r.fpIntroduced + [id]);
    }
    if secondFp {
      r := r.(secondFp := r.secondFp + [id]);
    }
    if secondFn {
      r := r.(secondFn := r.secondFn + [id]);
    }
  }

  /** The same bookkeeping as `compare_pilot_predictions` nests it, by human label first. */
  method AddPilotErrors(e: PilotErrors, id: string, k: Case) returns (r: PilotErrors)
    ensures r == PilotErrors(e.fnFixed + When(k in FN_FIXED, id), e.fpFixed + When(k in FP_FIXED, id),
                             e.secondFn + When(k in SECOND_FN, id), e.secondFp + When(k in SECOND_FP, id))
  {
    r := e;
    if k.actual == Hallucinated {
      if k.first == Grounded {
        if k.SecondCorrect() {
          r := r.(fnFixed := r.fnFixed + [id]);
        }
      }
      if k.second == Grounded {
        r := r.(secondFn := r.secondFn + [id]);
      }
    } else {
      if k.first == Hallucinated {
        if k.SecondCorrect() {
          r := r.(fpFixed := r.fpFixed + [id]);
        }
      }
      if k.second == Hallucinated {
        r := r.(secondFp := r.secondFp + [id]);
      }
    }
  }

  function Restricted(e: Errors): PilotErrors {
    PilotErrors(e.fnFixed, e.fpFixed, e.secondFn, e.secondFp)
  }

  lemma CategoriesNext(p: Population, n: nat)
    requires p.Aligned() && n < |p.ids|
    ensures var c, id, k := CategoriesOf(p.Front(n)), p.ids[n], p.CaseOf(p.ids[n]);
            CategoriesOf(p.Front(n + 1))
            == Categories(c.bothCorrect + When(k in BOTH_CORRECT, id), c.firstOnly + When(k in FIRST_ONLY, id),
                          c.secondOnly + When(k in SECOND_ONLY, id), c.bothWrong + When(k in BOTH_WRONG, id))
  {
    hide Pick, BOTH_CORRECT, FIRST_ONLY, SECOND_ONLY, BOTH_WRONG;
    PickNext(p, n, BOTH_CORRECT);
    PickNext(p, n, FIRST_ONLY);
    PickNext(p, n, SECOND_ONLY);
    PickNext(p, n, BOTH_WRONG);
  }

  lemma ErrorsNext(p: Population, n: nat)
    requires p.Aligned() && n < |p.ids|
    ensures ErrorsAdded(ErrorsOf(p.Front(n)), ErrorsOf(p.Front(n + 1)), p.ids[n], p.CaseOf(p.ids[n]))
  {
    hide Pick;
    PickNext(p, n, FN_FIXED);
    PickNext(p, n, FP_FIXED);
    PickNext(p, n, FN_INTRODUCED);
    PickNext(p, n, FP_INTRODUCED);
    PickNext(p, n, SECOND_FP);
    PickNext(p, n, SECOND_FN);
  }

  /** The loop of `compare_hallucination_predictions`: one pass fills every list. */
  method FillLists(p: Population) returns (categories: Categories, errors: Errors, first: seq<bool>, second: seq<bool>)
    requires p.Aligned()
    ensures categories == CategoriesOf(p) && errors == ErrorsOf(p)
    ensures first == FirstCorrectness(p) && second == SecondCorrectness(p)
  {
    categories, first, second := Categories([], [], [], []), [], [];
    errors := Errors([], [], [], [], [], []);
    for i := 0 to |p.ids|
      invariant categories == CategoriesOf(p.Front(i)) && errors == ErrorsOf(p.Front(i))
      invariant first == FirstCorrectness(p.Front(i)) && second == SecondCorrectness(p.Front(i))
    {
      hide CategoriesOf, ErrorsOf, FirstCorrectness, SecondCorrectness;
      var k := p.CaseOf(p.ids[i]);
      first, second := first + [k.FirstCorrect()], second + [k.SecondCorrect()];
      categories := AddCategory(categories, p.ids[i], k);
      errors := AddErrors(errors, p.ids[i], k);
      CategoriesNext(p, i);
      ErrorsNext(p, i);
      CorrectnessNext(p, i);
    }
    PickWhole(p);
  }

  /** The loop of `compare_pilot_predictions`. */
  method FillPilotLists(p: Population)
    returns (categories: Categories, errors: PilotErrors, first: seq<bool>, second: seq<bool>)
    requires p.Aligned()
    ensures categories == CategoriesOf(p) && errors == Restricted(ErrorsOf(p))
    ensures first == FirstCorrectness(p) && second == SecondCorrectness(p)
  {
    categories, first, second := Categories([], [], [], []), [], [];
    errors := PilotErrors([], [], [], []);
    for i := 0 to |p.ids|
      invariant categories == CategoriesOf(p.Front(i)) && errors == Restricted(ErrorsOf(p.Front(i)))
      invariant first == FirstCorrectness(p.Front(i)) && second == SecondCorrectness(p.Front(i))
    {
      hide CategoriesOf, ErrorsOf, FirstCorrectness, SecondCorrectness;
      var k := p.CaseOf(p.ids[i]);
      first, second := first + [k.FirstCorrect()], second + [k.SecondCorrect()];
      categories := AddCategory(categories, p.ids[i], k);
      errors := AddPilotErrors(errors, p.ids[i], k);
      CategoriesNext(p, i);
      ErrorsNext(p, i);
      CorrectnessNext(p, i);
    }
    PickWhole(p);
  }

  predicate SameIds(p: Population) {
    SetOf(p.ids) == p.truth.Keys && p.first.Keys == p.truth.Keys && p.second.Keys == p.truth.Keys
  }

  lemma SameIdsAlign(p: Population)
    requires SameIds(p)
    ensures p.Aligned()
  {
    assert forall id :: id in p.ids ==> id in SetOf(p.ids);
  }

  method CompareHallucinationPredictions(p: Population) returns (r: Result<Comparison, Error>)
    requires SetOf(p.ids) == p.truth.Keys
    ensures r.Ok? <==> SameIds(p)
    ensures r.Ok? ==> p.Aligned() && Describes(r.value, p)
  {
    if p.first.Keys != p.truth.Keys || p.second.Keys != p.truth.Keys {
      return Err(IdMismatch);
    }
    SameIdsAlign(p);
    var categories, errors, first, second := FillLists(p);
    var mcnemar := McNemar.ExactMcNemar(first, second);
    return Ok(Comparison(categories, errors, mcnemar.report));
  }

  /** The pilot's own comparison reports the same categories, the same error lists and the same statistic. */
  method ComparePilotPredictions(p: Population) returns (r: Result<PilotComparison, Error>)
    requires SetOf(p.ids) == p.truth.Keys
    ensures r.Ok? <==> SameIds(p)
    ensures r.Ok? ==> p.Aligned() && DescribesPairs(r.value.mcnemar, p)
                      && r.value.categories == CategoriesOf(p) && r.value.errors == Restricted(ErrorsOf(p))
  {
    if p.first.Keys != p.truth.Keys || p.second.Keys != p.truth.Keys {
      return Err(IdMismatch);
    }
    SameIdsAlign(p);
    var categories, errors, first, second := FillPilotLists(p);
    var mcnemar := McNemar.ExactMcNemar(first, second);
    return Ok(PilotComparison(categories, errors, mcnemar.report));
  }

  // ----- conservation -----

  lemma {:induction false} PickMembers(p: Population, wanted: set<Case>)
    requires p.Aligned()
    ensures forall id :: id in Pick(p, wanted) <==> id in p.ids && p.CaseOf(id) in wanted
    decreases |p.ids|
  {
    if p.ids != [] {
      var n := |p.ids| - 1;
      PickMembers(p.Front(n), wanted);
      assert p.ids == p.ids[..n] + [p.ids[n]];
    }
  }

  lemma {:induction false} PickSplit(p: Population, a: set<Case>, b: set<Case>)
    requires p.Aligned() && a !! b
    ensures |Pick(p, a + b)| == |Pick(p, a)| + |Pick(p, b)|
    decreases |p.ids|
  {
    if p.ids != [] {
      PickSplit(p.Front(|p.ids| - 1), a, b);
    }
  }

  lemma {:induction false} PickAll(p: Population, n: nat, wanted: set<Case>)
    requires p.Aligned() && n <= |p.ids| && forall k: Case :: k in wanted
    ensures Pick(p.Front(n), wanted) == p.ids[..n]
    decreases n
  {
    if n > 0 {
      hide Pick;
      PickAll(p, n - 1, wanted);
      PickNext(p, n - 1, wanted);
      assert p.CaseOf(p.ids[n - 1]) in wanted;
    }
  }

  lemma EveryCase()
    ensures forall k: Case :: k in BOTH_CORRECT + FIRST_ONLY + SECOND_ONLY + BOTH_WRONG
    ensures BOTH_CORRECT !! FIRST_ONLY !! SECOND_ONLY !! BOTH_WRONG
  {
    forall k: Case ensures k in BOTH_CORRECT + FIRST_ONLY + SECOND_ONLY + BOTH_WRONG {
      assert k == Case(k.actual, k.first, k.second);
      assert k.actual == Grounded || k.actual == Hallucinated;
      assert k.first == Grounded || k.first == Hallucinated;
      assert k.second == Grounded || k.second == Hallucinated;
    }
  }

  /** The four categories partition the population. */
  lemma CategoriesPartition(p: Population)
    requires p.Aligned()
    ensures var c := CategoriesOf(p);
            && |c.bothCorrect| + |c.firstOnly| + |c.secondOnly| + |c.bothWrong| == |p.ids|
            && (forall id :: id in p.ids
                  <==> id in c.bothCorrect || id in c.firstOnly || id in c.secondOnly || id in c.bothWrong)
            && SetOf(c.bothCorrect) !! SetOf(c.firstOnly) !! SetOf(c.secondOnly) !! SetOf(c.bothWrong)
  {
    EveryCase();
    hide Pick, BOTH_CORRECT, FIRST_ONLY, SECOND_ONLY, BOTH_WRONG;
    PickSplit(p, BOTH_CORRECT, FIRST_ONLY);
    PickSplit(p, BOTH_CORRECT + FIRST_ONLY, SECOND_ONLY);
    PickSplit(p, BOTH_CORRECT + FIRST_ONLY + SECOND_ONLY, BOTH_WRONG);
    PickAll(p, |p.ids|, BOTH_CORRECT + FIRST_ONLY + SECOND_ONLY + BOTH_WRONG);
    PickWhole(p);
    PickMembers(p, BOTH_CORRECT);
    PickMembers(p, FIRST_ONLY);
    PickMembers(p, SECOND_ONLY);
    PickMembers(p, BOTH_WRONG);
  }

  /** The counts and the picks over the first n examples grow together. */
  lemma {:induction false} OneSidedCounts(p: Population, n: nat, first: set<Case>, second: set<Case>)
    requires p.Aligned() && n <= |p.ids|
    requires forall k: Case :: k in first <==> k.FirstCorrect() && !k.SecondCorrect()
    requires forall k: Case :: k in second <==> k.SecondCorrect() && !k.FirstCorrect()
    ensures var q := p.Front(n);
            && McNemar.OnlyFirst(FirstCorrectness(q), SecondCorrectness(q)) == |Pick(q, first)|
            && McNemar.OnlyFirst(SecondCorrectness(q), FirstCorrectness(q)) == |Pick(q, second)|
    decreases n
  {
    hide McNemar.OnlyFirst, FirstCorrectness, SecondCorrectness, Pick;
    if n == 0 {
      NothingCounted(p, first, second);
    } else {
      OneSidedCounts(p, n - 1, first, second);
      CorrectnessNext(p, n - 1);
      PickNext(p, n - 1, first);
      PickNext(p, n - 1, second);
      var q, k := p.Front(n - 1), p.CaseOf(p.ids[n - 1]);
      McNemar.OnlyFirstNext(FirstCorrectness(q), SecondCorrectness(q), k.FirstCorrect(), k.SecondCorrect());
      McNemar.OnlyFirstNext(SecondCorrectness(q), FirstCorrectness(q), k.SecondCorrect(), k.FirstCorrect());
    }
  }

  lemma NothingCounted(p: Population, first: set<Case>, second: set<Case>)
    requires p.Aligned()
    ensures var q := p.Front(0);
            && McNemar.OnlyFirst(FirstCorrectness(q), SecondCorrectness(q)) == |Pick(q, first)|
            && McNemar.OnlyFirst(SecondCorrectness(q), FirstCorrectness(q)) == |Pick(q, second)|
  {
  }

  /** McNemar's two counts are the sizes of the two one-sided categories. */
  lemma DiscordantCounts(p: Population)
    requires p.Aligned()
    ensures McNemar.OnlyFirst(FirstCorrectness(p), SecondCorrectness(p)) == |Pick(p, FIRST_ONLY)|
    ensures McNemar.OnlyFirst(SecondCorrectness(p), FirstCorrectness(p)) == |Pick(p, SECOND_ONLY)|
  {
    forall k: Case
      ensures k in FIRST_ONLY <==> k.FirstCorrect() && !k.SecondCorrect()
      ensures k in SECOND_ONLY <==> k.SecondCorrect() && !k.FirstCorrect()
    {
      assert k == Case(k.actual, k.first, k.second);
      assert k.actual == Grounded || k.actual == Hallucinated;
      assert k.first == Grounded || k.first == Hallucinated;
      assert k.second == Grounded || k.second == Hallucinated;
    }
    hide *;
    OneSidedCounts(p, |p.ids|, FIRST_ONLY, SECOND_ONLY);
    PickWhole(p);
  }

  lemma {:induction false} FirstCellPicked(p: Population, actual: Label, guess: Label, wanted: set<Case>)
    requires p.Aligned() && forall k: Case :: k in wanted <==> k.actual == actual && k.first == guess
    ensures Cell(p.ids, p.truth, p.first, actual, guess) == Pick(p, wanted)
    decreases |p.ids|
  {
    if p.ids != [] {
      FirstCellPicked(p.Front(|p.ids| - 1), actual, guess, wanted);
    }
  }

  lemma {:induction false} SecondCellPicked(p: Population, actual: Label, guess: Label, wanted: set<Case>)
    requires p.Aligned() && forall k: Case :: k in wanted <==> k.actual == actual && k.second == guess
    ensures Cell(p.ids, p.truth, p.second, actual, guess) == Pick(p, wanted)
    decreases |p.ids|
  {
    if p.ids != [] {
      SecondCellPicked(p.Front(|p.ids| - 1), actual, guess, wanted);
    }
  }

  lemma FirstCell(p: Population, actual: Label, guess: Label)
    requires p.Aligned()
    ensures Cell(p.ids, p.truth, p.first, actual, guess)
         == Pick(p, {Case(actual, guess, Grounded), Case(actual, guess, Hallucinated)})
  {
    var wanted := {Case(actual, guess, Grounded), Case(actual, guess, Hallucinated)};
    forall k: Case ensures k in wanted <==> k.actual == actual && k.first == guess {
      assert k == Case(k.actual, k.first, k.second);
      assert k.second == Grounded || k.second == Hallucinated;
    }
    FirstCellPicked(p, actual, guess, wanted);
  }

  lemma SecondCell(p: Population, actual: Label, guess: Label)
    requires p.Aligned()
    ensures Cell(p.ids, p.truth, p.second, actual, guess)
         == Pick(p, {Case(actual, Grounded, guess), Case(actual, Hallucinated, guess)})
  {
    var wanted := {Case(actual, Grounded, guess), Case(actual, Hallucinated, guess)};
    forall k: Case ensures k in wanted <==> k.actual == actual && k.second == guess {
      assert k == Case(k.actual, k.first, k.second);
      assert k.first == Grounded || k.first == Hallucinated;
    }
    SecondCellPicked(p, actual, guess, wanted);
  }

  lemma PickPair(p: Population, a: Case, b: Case)
    requires p.Aligned() && a != b
    ensures |Pick(p, {a, b})| == |Pick(p, {a})| + |Pick(p, {b})|
  {
    PickSplit(p, {a}, {b});
    assert {a} + {b} == {a, b};
  }

  /** The candidate's errors are the baseline's, less the fixed ones, plus the newly introduced ones. */
  lemma ErrorsConserved(p: Population)
    requires p.Aligned()
    ensures var e := ErrorsOf(p);
            var first, second := MatrixOf(p.ids, p.truth, p.first), MatrixOf(p.ids, p.truth, p.second);
            && second.fn == |e.secondFn| && second.fp == |e.secondFp|
            && second.fn == first.fn - |e.fnFixed| + |e.fnIntroduced|
            && second.fp == first.fp - |e.fpFixed| + |e.fpIntroduced|
  {
    FirstCell(p, Hallucinated, Grounded);
    FirstCell(p, Grounded, Hallucinated);
    SecondCell(p, Hallucinated, Grounded);
    SecondCell(p, Grounded, Hallucinated);
    PickPair(p, Case(Hallucinated, Grounded, Grounded), Case(Hallucinated, Grounded, Hallucinated));
    PickPair(p, Case(Grounded, Hallucinated, Grounded), Case(Grounded, Hallucinated, Hallucinated));
    PickPair(p, Case(Hallucinated, Grounded, Grounded), Case(Hallucinated, Hallucinated, Grounded));
    PickPair(p, Case(Grounded, Grounded, Hallucinated), Case(Grounded, Hallucinated, Hallucinated));
    assert SECOND_FN == {Case(Hallucinated, Grounded, Grounded), Case(Hallucinated, Hallucinated, Grounded)};
    assert SECOND_FP == {Case(Grounded, Grounded, Hallucinated), Case(Grounded, Hallucinated, Hallucinated)};
  }

  /** What the first evaluator gets right: the diagonal of its matrix, both-correct plus first-only. */
  lemma CorrectCounts(p: Population)
    requires p.Aligned()
    ensures var c := CategoriesOf(p);
            var first, second := MatrixOf(p.ids, p.truth, p.first), MatrixOf(p.ids, p.truth, p.second);
            && first.tp + first.tn == |c.bothCorrect| + |c.firstOnly|
            && second.tp + second.tn == |c.bothCorrect| + |c.secondOnly|
            && first.Total() == |p.ids| && second.Total() == |p.ids|
  {
    FirstCell(p, Hallucinated, Hallucinated);
    FirstCell(p, Grounded, Grounded);
    SecondCell(p, Hallucinated, Hallucinated);
    SecondCell(p, Grounded, Grounded);
    PickPair(p, Case(Hallucinated, Hallucinated, Grounded), Case(Hallucinated, Hallucinated, Hallucinated));
    PickPair(p, Case(Grounded, Grounded, Grounded), Case(Grounded, Grounded, Hallucinated));
    PickPair(p, Case(Hallucinated, Grounded, Hallucinated), Case(Hallucinated, Hallucinated, Hallucinated));
    PickPair(p, Case(Grounded, Grounded, Grounded), Case(Grounded, Hallucinated, Grounded));
    PickPair(p, Case(Grounded, Grounded, Grounded), Case(Hallucinated, Hallucinated, Hallucinated));
    PickPair(p, Case(Grounded, Grounded, Hallucinated), Case(Hallucinated, Hallucinated, Grounded));
    PickPair(p, Case(Grounded, Hallucinated, Grounded), Case(Hallucinated, Grounded, Hallucinated));
    MatrixCountsEveryone(p.ids, p.truth, p.first);
    MatrixCountsEveryone(p.ids, p.truth, p.second);
  }

  /** The metrics layer's accuracy gain of the candidate is (c - b) / n in McNemar's counts. */
  lemma AccuracyGain(p: Population)
    requires p.Aligned() && p.ids != []
    ensures var b := McNemar.OnlyFirst(FirstCorrectness(p), SecondCorrectness(p));
            var c := McNemar.OnlyFirst(SecondCorrectness(p), FirstCorrectness(p));
            MetricsOf(MatrixOf(p.ids, p.truth, p.second)).accuracy
            - MetricsOf(MatrixOf(p.ids, p.truth, p.first)).accuracy
            == (c as real - b as real) / |p.ids| as real
  {
    hide MetricsOf, MatrixOf, McNemar.OnlyFirst, FirstCorrectness, SecondCorrectness, Pick;
    CorrectCounts(p);
    DiscordantCounts(p);
    AccuracyDifference(MatrixOf(p.ids, p.truth, p.first), MatrixOf(p.ids, p.truth, p.second), |p.ids|);
  }

  lemma AccuracyDifference(first: ConfusionMatrix, second: ConfusionMatrix, n: nat)
    requires first.Total() == n && second.Total() == n && n > 0
    ensures MetricsOf(second).accuracy - MetricsOf(first).accuracy
         == ((second.tp + second.tn) as real - (first.tp + first.tn) as real) / n as real
  {
    AccuracyIs(first);
    AccuracyIs(second);
    RatioDifference((second.tp + second.tn) as real, (first.tp + first.tn) as real, n as real);
  }

  lemma AccuracyIs(m: ConfusionMatrix)
    requires m.Total() > 0
    ensures MetricsOf(m).accuracy == (m.tp + m.tn) as real / m.Total() as real
  {
  }

  lemma RatioDifference(x: real, y: real, n: real)
    requires n != 0.0
    ensures x / n - y / n == (x - y) / n
  {
  }
}
