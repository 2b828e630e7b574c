/** `evaluate_retrieval`: per-query metrics, a classification, and macro averages over the queries. */
module RetrievalEvaluation {
  import opened Arithmetic
  import opened Orders
  import opened Results
  import opened RetrievalMetrics
  import opened RetrievalLaws

  datatype Category = Pass | RetrievalMiss | ShouldAbstain

  datatype Metrics = Metrics(precision: real, recall: real, hitRate: real, mrr: real, ndcg: real)

  datatype QueryResult = QueryResult(metrics: Metrics, category: Category)

  datatype Evaluation = Evaluation(macro: Metrics, perQuery: map<string, QueryResult>)

  predicate IsEmptyInput(input: RelevanceInput) {
    if input.Listed? then input.ids == [] else input.order == []
  }

  function Classify(input: RelevanceInput, retrieved: seq<string>, k: nat): Category
    requires input.WellFormed()
  {
    if IsEmptyInput(input) then ShouldAbstain
    else if HitRate(ToRelevanceMap(input), retrieved, k) != 0.0 then Pass
    else RetrievalMiss
  }

  ghost function QueryMetrics(scale: Scale, input: RelevanceInput, retrieved: seq<string>, k: nat): Metrics
    requires scale.Valid() && input.WellFormed() && k > 0
  {
    var rel := ToRelevanceMap(input);
    Metrics(Precision(rel, retrieved, k), Recall(rel, retrieved, k), HitRate(rel, retrieved, k),
            ReciprocalFrom(rel, retrieved, 0), Ndcg(scale, rel, retrieved, k))
  }

  /** A query is classified PASS exactly when its hit rate, hence any other metric at k, is positive. */
  lemma PassExactlyWhenHit(scale: Scale, input: RelevanceInput, retrieved: seq<string>, k: nat)
    requires scale.Valid() && input.WellFormed() && k > 0
    ensures var m := QueryMetrics(scale, input, retrieved, k);
            var pass := Classify(input, retrieved, k) == Pass;
            && m.hitRate == (if pass then 1.0 else 0.0)
            && (pass <==> m.precision > 0.0) && (pass <==> m.recall > 0.0) && (pass <==> m.ndcg > 0.0)
            && (pass <==> m.mrr >= 1.0 / k as real)
            && 0.0 <= m.precision <= 1.0 && 0.0 <= m.recall <= 1.0 && 0.0 <= m.mrr <= 1.0 && 0.0 <= m.ndcg <= 1.0
  {
    var rel := ToRelevanceMap(input);
    if IsEmptyInput(input) {
      assert rel.grades.Keys == {};
    }
    MetricsAgree(scale, rel, retrieved, k);
    NdcgInUnitInterval(scale, rel, retrieved, k);
    ReciprocalAgrees(rel, retrieved, k, 0);
  }

  lemma {:induction false} ReciprocalAgrees(rel: RelevanceMap, retrieved: seq<string>, k: nat, i: nat)
    requires k > 0 && i <= |retrieved|
    requires forall j :: 0 <= j < i ==> retrieved[j] !in rel.grades
    ensures 0.0 <= ReciprocalFrom(rel, retrieved, i) <= 1.0
    ensures ReciprocalFrom(rel, retrieved, i) >= 1.0 / k as real <==> HitRate(rel, retrieved, k) == 1.0
    decreases |retrieved| - i
  {
    if i == |retrieved| {
      assert forall d :: d in Top(retrieved, k) ==> d in retrieved;
    } else if retrieved[i] in rel.grades {
      HitWithin(rel, retrieved, i, k);
      ReciprocalOrder(i + 1, k);
    } else {
      ReciprocalAgrees(rel, retrieved, k, i + 1);
    }
  }

  /** What the five metrics of a query say, without dividing: finds within k, the first find, and the two sums. */
  ghost predicate Measured(scale: Scale, rel: RelevanceMap, retrieved: seq<string>, k: nat, m: Metrics)
    requires scale.Valid() && rel.Valid()
  {
    && m.precision * k as real == |Finds(rel, retrieved, k)| as real
    && m.recall * |rel.grades| as real == |Finds(rel, retrieved, k)| as real
    && (|rel.grades| == 0 ==> m.recall == 0.0)
    && m.hitRate == (if Finds(rel, retrieved, k) != {} then 1.0 else 0.0)
    && IsReciprocal(m.mrr, rel, retrieved)
    && (if Idcg(scale, rel, k) == 0.0 then m.ndcg == 0.0
        else m.ndcg * Idcg(scale, rel, k) == Dcg(scale, rel, retrieved, k))
  }

  /** Its product with the rank of the first relevant document is one; without one, it is zero. */
  ghost predicate IsReciprocal(r: real, rel: RelevanceMap, retrieved: seq<string>) {
    && (forall i :: FirstRelevant(rel, retrieved, i) ==> r * (i + 1) as real == 1.0)
    && ((forall d :: d in retrieved ==> d !in rel.grades) ==> r == 0.0)
  }

  lemma QueryMeasured(scale: Scale, input: RelevanceInput, retrieved: seq<string>, k: nat)
    requires scale.Valid() && input.WellFormed() && k > 0
    ensures Measured(scale, ToRelevanceMap(input), retrieved, k, QueryMetrics(scale, input, retrieved, k))
  {
    var rel := ToRelevanceMap(input);
    hide Measured, Dcg, Idcg, Ndcg, Finds, ToRelevanceMap, ReciprocalFrom, Precision, Recall, HitRate;
    AllMeasured(scale, rel, retrieved, k, Precision(rel, retrieved, k), Recall(rel, retrieved, k),
                HitRate(rel, retrieved, k), ReciprocalFrom(rel, retrieved, 0), Ndcg(scale, rel, retrieved, k));
  }

  lemma AllMeasured(scale: Scale, rel: RelevanceMap, retrieved: seq<string>, k: nat, p: real, r: real, h: real, f: real,
                    g: real)
    requires scale.Valid() && rel.Valid() && k > 0
    requires p == Precision(rel, retrieved, k) && r == Recall(rel, retrieved, k) && h == HitRate(rel, retrieved, k)
    requires f == ReciprocalFrom(rel, retrieved, 0) && g == Ndcg(scale, rel, retrieved, k)
    ensures Measured(scale, rel, retrieved, k, Metrics(p, r, h, f, g))
  {
    hide Dcg, Idcg, Ndcg, Finds, IsReciprocal, ReciprocalFrom, Precision, Recall, HitRate, Scale.Valid,
         RelevanceMap.Valid;
    CountsMeasured(rel, retrieved, k, p, r);
    HitMeasured(rel, retrieved, k);
    FirstFound(rel, retrieved, 0);
    NdcgMeasured(scale, rel, retrieved, k, g);
  }

  lemma HitMeasured(rel: RelevanceMap, retrieved: seq<string>, k: nat)
    ensures HitRate(rel, retrieved, k) == if Finds(rel, retrieved, k) != {} then 1.0 else 0.0
  {
    HitsAreFinds(rel, retrieved, k);
    HitsFound(rel, retrieved, k);
    hide Finds, Hits, HitRate;
    assert Finds(rel, retrieved, k) != {} <==> |Finds(rel, retrieved, k)| > 0;
  }

  lemma CountsMeasured(rel: RelevanceMap, retrieved: seq<string>, k: nat, p: real, r: real)
    requires k > 0 && p == Precision(rel, retrieved, k) && r == Recall(rel, retrieved, k)
    ensures p * k as real == |Finds(rel, retrieved, k)| as real
    ensures r * |rel.grades| as real == |Finds(rel, retrieved, k)| as real
    ensures |rel.grades| == 0 ==> r == 0.0
  {
    HitsAreFinds(rel, retrieved, k);
    HitsFound(rel, retrieved, k);
    hide Finds, Hits, HitRate;
    Undivided(Hits(rel, retrieved, k) as real, k as real);
    if |rel.grades| > 0 {
      Undivided(Hits(rel, retrieved, k) as real, |rel.grades| as real);
    }
  }

  lemma NdcgMeasured(scale: Scale, rel: RelevanceMap, retrieved: seq<string>, k: nat, g: real)
    requires scale.Valid() && rel.Valid() && g == Ndcg(scale, rel, retrieved, k)
    ensures if Idcg(scale, rel, k) == 0.0 then g == 0.0
            else g * Idcg(scale, rel, k) == Dcg(scale, rel, retrieved, k)
  {
    hide Dcg, Idcg;
    if Idcg(scale, rel, k) != 0.0 {
      Undivided(Dcg(scale, rel, retrieved, k), Idcg(scale, rel, k));
    }
  }

  lemma HitsFound(rel: RelevanceMap, retrieved: seq<string>, k: nat)
    ensures HitRate(rel, retrieved, k) == if Hits(rel, retrieved, k) > 0 then 1.0 else 0.0
    ensures |rel.grades| == 0 ==> Hits(rel, retrieved, k) == 0
  {
    if |rel.grades| == 0 {
      assert rel.grades.Keys == {};
    }
  }

  lemma {:induction false} FirstFound(rel: RelevanceMap, retrieved: seq<string>, i: nat)
    requires i <= |retrieved| && forall j :: 0 <= j < i ==> retrieved[j] !in rel.grades
    ensures IsReciprocal(ReciprocalFrom(rel, retrieved, i), rel, retrieved)
    decreases |retrieved| - i
  {
    if i < |retrieved| && retrieved[i] !in rel.grades {
      FirstFound(rel, retrieved, i + 1);
    }
  }

  function Total(perQuery: map<string, QueryResult>, queries: seq<string>): Metrics
    requires forall q :: q in queries ==> q in perQuery
  {
    if queries == [] then Metrics(0.0, 0.0, 0.0, 0.0, 0.0)
    else
      var front := Total(perQuery, queries[..|queries| - 1]);
      var m := perQuery[queries[|queries| - 1]].metrics;
      Metrics(front.precision + m.precision, front.recall + m.recall, front.hitRate + m.hitRate,
              front.mrr + m.mrr, front.ndcg + m.ndcg)
  }

  function Averaged(total: Metrics, n: nat): Metrics {
    if n == 0 then Metrics(0.0, 0.0, 0.0, 0.0, 0.0)
    else Metrics(total.precision / n as real, total.recall / n as real, total.hitRate / n as real,
                 total.mrr / n as real, total.ndcg / n as real)
  }

  /** One metric of every query, as a list. */
  function Column(perQuery: map<string, QueryResult>, queries: seq<string>, f: Metrics -> real): seq<real>
    requires forall q :: q in queries ==> q in perQuery
  {
    seq(|queries|, i requires 0 <= i < |queries| => f(perQuery[queries[i]].metrics))
  }

  /** Each macro metric is the mean of that metric over the queries, and zero without queries. */
  ghost predicate MacroAverages(macro: Metrics, perQuery: map<string, QueryResult>, queries: seq<string>)
    requires forall q :: q in queries ==> q in perQuery
  {
    && IsMean(macro.precision, Column(perQuery, queries, (m: Metrics) => m.precision))
    && IsMean(macro.recall, Column(perQuery, queries, (m: Metrics) => m.recall))
    && IsMean(macro.hitRate, Column(perQuery, queries, (m: Metrics) => m.hitRate))
    && IsMean(macro.mrr, Column(perQuery, queries, (m: Metrics) => m.mrr))
    && IsMean(macro.ndcg, Column(perQuery, queries, (m: Metrics) => m.ndcg))
  }

  lemma ColumnNext(perQuery: map<string, QueryResult>, queries: seq<string>, f: Metrics -> real)
    requires queries != [] && forall q :: q in queries ==> q in perQuery
    ensures var n := |queries| - 1;
            Sum(Column(perQuery, queries, f))
            == Sum(Column(perQuery, queries[..n], f)) + f(perQuery[queries[n]].metrics)
  {
    var n := |queries| - 1;
    assert Column(perQuery, queries, f) == Column(perQuery, queries[..n], f) + [f(perQuery[queries[n]].metrics)];
    SumNext(Column(perQuery, queries[..n], f), f(perQuery[queries[n]].metrics));
  }

  lemma {:induction false} TotalIsSum(perQuery: map<string, QueryResult>, queries: seq<string>)
    requires forall q :: q in queries ==> q in perQuery
    ensures var t := Total(perQuery, queries);
            && t.precision == Sum(Column(perQuery, queries, (m: Metrics) => m.precision))
            && t.recall == Sum(Column(perQuery, queries, (m: Metrics) => m.recall))
            && t.hitRate == Sum(Column(perQuery, queries, (m: Metrics) => m.hitRate))
            && t.mrr == Sum(Column(perQuery, queries, (m: Metrics) => m.mrr))
            && t.ndcg == Sum(Column(perQuery, queries, (m: Metrics) => m.ndcg))
  {
    if queries != [] {
      TotalIsSum(perQuery, queries[..|queries| - 1]);
      ColumnNext(perQuery, queries, (m: Metrics) => m.precision);
      ColumnNext(perQuery, queries, (m: Metrics) => m.recall);
      ColumnNext(perQuery, queries, (m: Metrics) => m.hitRate);
      ColumnNext(perQuery, queries, (m: Metrics) => m.mrr);
      ColumnNext(perQuery, queries, (m: Metrics) => m.ndcg);
      hide Column, Sum;
    }
  }

  lemma AveragedIsMacro(perQuery: map<string, QueryResult>, queries: seq<string>)
    requires forall q :: q in queries ==> q in perQuery
    ensures MacroAverages(Averaged(Total(perQuery, queries), |queries|), perQuery, queries)
  {
    TotalIsSum(perQuery, queries);
    hide Sum, Total, IsMean;
    var t, a := Total(perQuery, queries), Averaged(Total(perQuery, queries), |queries|);
    QuotientIsMean(t.precision, Column(perQuery, queries, (m: Metrics) => m.precision), a.precision);
    QuotientIsMean(t.recall, Column(perQuery, queries, (m: Metrics) => m.recall), a.recall);
    QuotientIsMean(t.hitRate, Column(perQuery, queries, (m: Metrics) => m.hitRate), a.hitRate);
    QuotientIsMean(t.mrr, Column(perQuery, queries, (m: Metrics) => m.mrr), a.mrr);
    QuotientIsMean(t.ndcg, Column(perQuery, queries, (m: Metrics) => m.ndcg), a.ndcg);
  }

  /** A macro metric lies between any bounds of the queries' own values. */
  lemma MacroBetween(mean: real, perQuery: map<string, QueryResult>, queries: seq<string>, f: Metrics -> real,
                     low: real, high: real)
    requires queries != [] && forall q :: q in queries ==> q in perQuery
    requires IsMean(mean, Column(perQuery, queries, f))
    requires forall q :: q in queries ==> low <= f(perQuery[q].metrics) <= high
    ensures low <= mean <= high
  {
    var xs := Column(perQuery, queries, f);
    forall x | x in xs ensures low <= x <= high {
      var i :| 0 <= i < |xs| && xs[i] == x;
      assert x == f(perQuery[queries[i]].metrics);
    }
    MeanBounds(mean, xs, low, high);
  }

  predicate InUnitInterval(m: Metrics) {
    && 0.0 <= m.precision <= 1.0 && 0.0 <= m.recall <= 1.0 && 0.0 <= m.hitRate <= 1.0
    && 0.0 <= m.mrr <= 1.0 && 0.0 <= m.ndcg <= 1.0
  }

  lemma MacroInUnitInterval(macro: Metrics, perQuery: map<string, QueryResult>, queries: seq<string>)
    requires forall q :: q in queries ==> q in perQuery && InUnitInterval(perQuery[q].metrics)
    requires MacroAverages(macro, perQuery, queries)
    ensures InUnitInterval(macro)
  {
    if queries != [] {
      hide IsMean, Column;
      MacroBetween(macro.precision, perQuery, queries, (m: Metrics) => m.precision, 0.0, 1.0);
      MacroBetween(macro.recall, perQuery, queries, (m: Metrics) => m.recall, 0.0, 1.0);
      MacroBetween(macro.hitRate, perQuery, queries, (m: Metrics) => m.hitRate, 0.0, 1.0);
      MacroBetween(macro.mrr, perQuery, queries, (m: Metrics) => m.mrr, 0.0, 1.0);
      MacroBetween(macro.ndcg, perQuery, queries, (m: Metrics) => m.ndcg, 0.0, 1.0);
    }
  }

  function Passes(perQuery: map<string, QueryResult>): set<string> {
    set q | q in perQuery && perQuery[q].category == Pass
  }

  function Retrieved(predictions: map<string, seq<string>>, q: string): seq<string> {
    if q in predictions then predictions[q] else []
  }

  ghost function Evaluated(scale: Scale, groundTruth: map<string, RelevanceInput>,
                           predictions: map<string, seq<string>>, k: nat, q: string): QueryResult
    requires scale.Valid() && k > 0
    requires q in groundTruth && groundTruth[q].WellFormed()
  {
    QueryResult(QueryMetrics(scale, groundTruth[q], Retrieved(predictions, q), k),
                Classify(groundTruth[q], Retrieved(predictions, q), k))
  }

  method EvaluateQuery(scale: Scale, groundTruth: map<string, RelevanceInput>,
                       predictions: map<string, seq<string>>, k: nat, q: string) returns (r: QueryResult)
    requires scale.Valid() && k > 0
    requires q in groundTruth && groundTruth[q].WellFormed()
    ensures r == Evaluated(scale, groundTruth, predictions, k, q)
  {
    var retrieved := Retrieved(predictions, q);
    var rel := ToRelevanceMap(groundTruth[q]);
    var mrr := ReciprocalRank(rel, retrieved);
    var ndcg := NdcgAtK(scale, groundTruth[q], retrieved, k);
    r := QueryResult(
      Metrics(Precision(rel, retrieved, k), Recall(rel, retrieved, k), HitRate(rel, retrieved, k), mrr, ndcg.value),
      Classify(groundTruth[q], retrieved, k));
  }

  method EvaluateQueries(scale: Scale, queries: seq<string>, groundTruth: map<string, RelevanceInput>,
                         predictions: map<string, seq<string>>, k: nat) returns (perQuery: map<string, QueryResult>)
    requires scale.Valid() && k > 0
    requires forall q :: q in queries <==> q in groundTruth
    requires forall q :: q in groundTruth ==> groundTruth[q].WellFormed()
    ensures perQuery.Keys == groundTruth.Keys
    ensures forall q :: q in groundTruth ==> perQuery[q] == Evaluated(scale, groundTruth, predictions, k, q)
  {
    hide *;
    perQuery := map[];
    for i := 0 to |queries|
      invariant forall q :: q in perQuery <==> q in queries[..i]
      invariant forall q :: q in perQuery ==>
                  (q in groundTruth && perQuery[q] == Evaluated(scale, groundTruth, predictions, k, q))
    {
      var q := queries[i];
      assert queries[..i + 1] == queries[..i] + [q];
      var result := EvaluateQuery(scale, groundTruth, predictions, k, q);
      perQuery := perQuery[q := result];
    }
    assert queries[..|queries|] == queries;
  }

  /** Every ground-truth query is evaluated; a query without a prediction has retrieved nothing. */
  method EvaluateRetrieval(scale: Scale, queries: seq<string>, groundTruth: map<string, RelevanceInput>,
                           predictions: map<string, seq<string>>, k: int) returns (r: Result<Evaluation, Error>)
    requires scale.Valid()
    requires NoDuplicates(queries) && forall q :: q in queries <==> q in groundTruth
    requires forall q :: q in groundTruth ==> groundTruth[q].WellFormed()
    ensures r.Err? <==> k <= 0
    ensures r.Ok? ==> r.value.perQuery.Keys == groundTruth.Keys
    ensures r.Ok? ==> forall q :: q in groundTruth ==>
                        r.value.perQuery[q] == Evaluated(scale, groundTruth, predictions, k, q)
    ensures r.Ok? ==> forall q :: q in groundTruth ==>
                        AsMeasured(scale, groundTruth[q], if q in predictions then predictions[q] else [], k,
                                   r.value.perQuery[q])
    ensures r.Ok? ==> (forall q :: q in queries ==> q in r.value.perQuery)
                      && MacroAverages(r.value.macro, r.value.perQuery, queries) && InUnitInterval(r.value.macro)
    ensures r.Ok? ==> r.value.macro.hitRate == Proportion(|Passes(r.value.perQuery)|, |queries|)
  {
    if k <= 0 {
      return Err(InvalidK);
    }
    hide *;
    var perQuery := EvaluateQueries(scale, queries, groundTruth, predictions, k);
    MacroHitRate(scale, queries, groundTruth, predictions, k, perQuery);
    forall q | q in groundTruth
      ensures InUnitInterval(perQuery[q].metrics)
      ensures AsMeasured(scale, groundTruth[q], Retrieved(predictions, q), k, perQuery[q])
    {
      EvaluatedAsMeasured(scale, groundTruth, predictions, k, q);
    }
    AveragedIsMacro(perQuery, queries);
    MacroInUnitInterval(Averaged(Total(perQuery, queries), |queries|), perQuery, queries);
    return Ok(Evaluation(Averaged(Total(perQuery, queries), |queries|), perQuery));
  }

  /** The macro hit rate is the share of queries classified PASS. */
  lemma MacroHitRate(scale: Scale, queries: seq<string>, groundTruth: map<string, RelevanceInput>,
                     predictions: map<string, seq<string>>, k: nat, perQuery: map<string, QueryResult>)
    requires scale.Valid() && k > 0
    requires NoDuplicates(queries) && forall q :: q in queries <==> q in groundTruth
    requires forall q :: q in groundTruth ==> groundTruth[q].WellFormed()
    requires perQuery.Keys == groundTruth.Keys
    requires forall q :: q in groundTruth ==> perQuery[q] == Evaluated(scale, groundTruth, predictions, k, q)
    ensures Averaged(Total(perQuery, queries), |queries|).hitRate == Proportion(|Passes(perQuery)|, |queries|)
  {
    forall q | q in perQuery ensures HitIsPass(perQuery[q]) {
      EvaluatedHitIsPass(scale, groundTruth, predictions, k, q);
    }
    HitsArePasses(perQuery, queries);
    assert PassesIn(perQuery, queries) == Passes(perQuery);
  }

  lemma EvaluatedHitIsPass(scale: Scale, groundTruth: map<string, RelevanceInput>,
                           predictions: map<string, seq<string>>, k: nat, q: string)
    requires scale.Valid() && k > 0
    requires q in groundTruth && groundTruth[q].WellFormed()
    ensures HitIsPass(Evaluated(scale, groundTruth, predictions, k, q))
  {
    PassExactlyWhenHit(scale, groundTruth[q], Retrieved(predictions, q), k);
  }

  /** The metrics say what they are named for; the category is whether there was anything to find, and it was. */
  ghost predicate AsMeasured(scale: Scale, input: RelevanceInput, retrieved: seq<string>, k: nat, r: QueryResult)
    requires scale.Valid() && input.WellFormed()
  {
    && Measured(scale, ToRelevanceMap(input), retrieved, k, r.metrics)
    && (r.category == ShouldAbstain <==> if input.Listed? then input.ids == [] else input.order == [])
    && (r.category == Pass <==> Finds(ToRelevanceMap(input), retrieved, k) != {})
  }

  lemma EvaluatedAsMeasured(scale: Scale, groundTruth: map<string, RelevanceInput>,
                            predictions: map<string, seq<string>>, k: nat, q: string)
    requires scale.Valid() && k > 0
    requires q in groundTruth && groundTruth[q].WellFormed()
    ensures var r := Evaluated(scale, groundTruth, predictions, k, q);
            InUnitInterval(r.metrics) && AsMeasured(scale, groundTruth[q], Retrieved(predictions, q), k, r)
  {
    var input, retrieved := groundTruth[q], Retrieved(predictions, q);
    PassExactlyWhenHit(scale, input, retrieved, k);
    QueryMeasured(scale, input, retrieved, k);
    HitMeasured(ToRelevanceMap(input), retrieved, k);
    hide Measured, Finds, HitRate, ToRelevanceMap;
  }

  predicate HitIsPass(r: QueryResult) {
    r.metrics.hitRate == if r.category == Pass then 1.0 else 0.0
  }

  function PassesIn(perQuery: map<string, QueryResult>, queries: seq<string>): set<string> {
    set q | q in perQuery && q in queries && perQuery[q].category == Pass
  }

  lemma {:induction false} HitsArePasses(perQuery: map<string, QueryResult>, queries: seq<string>)
    requires NoDuplicates(queries)
    requires forall q :: q in queries ==> q in perQuery
    requires forall q :: q in perQuery ==> HitIsPass(perQuery[q])
    ensures Total(perQuery, queries).hitRate == |PassesIn(perQuery, queries)| as real
  {
    if queries == [] {
      assert PassesIn(perQuery, queries) == {};
    } else {
      var front, last := queries[..|queries| - 1], queries[|queries| - 1];
      HitsArePasses(perQuery, front);
      assert queries == front + [last] && last !in front;
      assert HitIsPass(perQuery[last]);
      assert PassesIn(perQuery, queries)
          == PassesIn(perQuery, front) + if perQuery[last].category == Pass then {last} else {};
    }
  }
}
