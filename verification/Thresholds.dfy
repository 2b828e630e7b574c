/** Score-threshold analysis and selection, evaluators/hallucination/thresholds.py. */
module Thresholds {
  import opened Orders
  import opened Results
  import opened Confusion
  import Hhem

  datatype ThresholdError = ScoreIdMismatch | NoThresholds | ThresholdOutOfRange | TestSplitForbidden | UnknownMetric

  datatype Row = Row(threshold: real, metrics: Metrics)

  /** Support scores as a dict: its keys in insertion order, and the score of each. */
  datatype Scores = Scores(order: seq<string>, support: map<string, real>) {
    ghost predicate Valid() {
      NoDuplicates(order) && forall id :: id in order <==> id in support
    }
  }

  /** What a threshold predicts: hallucinated exactly below it. */
  function PredictedAt(support: map<string, real>, threshold: real): map<string, Label> {
    map id | id in support :: if support[id] < threshold then Hallucinated else Grounded
  }

  function MatrixAt(s: Scores, truth: map<string, Label>, threshold: real): ConfusionMatrix
    requires forall id :: id in s.order ==> id in s.support && id in truth
  {
    MatrixOf(s.order, truth, PredictedAt(s.support, threshold))
  }

  /** The counting loop of `_threshold_metrics`, which never builds predictions. */
  method ThresholdMatrix(s: Scores, truth: map<string, Label>, threshold: real) returns (m: ConfusionMatrix)
    requires s.Valid() && s.support.Keys == truth.Keys
    ensures (forall id :: id in s.order ==> id in s.support && id in truth) && m == MatrixAt(s, truth, threshold)
  {
    assert forall id :: id in s.order ==> id in s.support.Keys;
    ghost var predicted := PredictedAt(s.support, threshold);
    var tp, tn, fp, fn := 0, 0, 0, 0;
    for i := 0 to |s.order|
      invariant ConfusionMatrix(tp, tn, fp, fn) == MatrixOf(s.order[..i], truth, predicted)
    {
      var id := s.order[i];
      assert s.order[..i + 1][..i] == s.order[..i];
      var predictedHallucinated := s.support[id] < threshold;
      var actualHallucinated := truth[id] == Hallucinated;
      if actualHallucinated && predictedHallucinated {
        tp := tp + 1;
      } else if !actualHallucinated && !predictedHallucinated {
        tn := tn + 1;
      } else if !actualHallucinated {
        fp := fp + 1;
      } else {
        fn := fn + 1;
      }
    }
    assert s.order[..|s.order|] == s.order;
    m := ConfusionMatrix(tp, tn, fp, fn);
  }

  // ----- the sweep agrees with the real evaluator -----

  lemma {:induction false} CellDistinct(ids: seq<string>, truth: map<string, Label>, predicted: map<string, Label>,
                                        actual: Label, guess: Label)
    requires NoDuplicates(ids) && forall id :: id in ids ==> id in truth && id in predicted
    ensures NoDuplicates(Cell(ids, truth, predicted, actual, guess))
  {
    if ids != [] {
      var front, last := ids[..|ids| - 1], ids[|ids| - 1];
      CellDistinct(front, truth, predicted, actual, guess);
      CellMembers(front, truth, predicted, actual, guess);
      assert last !in front;
    }
  }

  lemma CellOrderIrrelevant(ids: seq<string>, ids': seq<string>, truth: map<string, Label>,
                            predicted: map<string, Label>, actual: Label, guess: Label)
    requires NoDuplicates(ids) && NoDuplicates(ids') && forall id :: id in ids <==> id in ids'
    requires forall id :: id in ids ==> id in truth && id in predicted
    ensures |Cell(ids, truth, predicted, actual, guess)| == |Cell(ids', truth, predicted, actual, guess)|
  {
    var a, b := Cell(ids, truth, predicted, actual, guess), Cell(ids', truth, predicted, actual, guess);
    CellDistinct(ids, truth, predicted, actual, guess);
    CellDistinct(ids', truth, predicted, actual, guess);
    CellMembers(ids, truth, predicted, actual, guess);
    CellMembers(ids', truth, predicted, actual, guess);
    DistinctSize(a);
    DistinctSize(b);
    assert SetOf(a) == SetOf(b);
  }

  /** A confusion matrix does not depend on the order in which the examples are visited. */
  lemma MatrixOrderIrrelevant(ids: seq<string>, ids': seq<string>, truth: map<string, Label>,
                              predicted: map<string, Label>)
    requires NoDuplicates(ids) && NoDuplicates(ids') && forall id :: id in ids <==> id in ids'
    requires forall id :: id in ids ==> id in truth && id in predicted
    ensures MatrixOf(ids, truth, predicted) == MatrixOf(ids', truth, predicted)
  {
    hide Cell;
    CellOrderIrrelevant(ids, ids', truth, predicted, Hallucinated, Hallucinated);
    CellOrderIrrelevant(ids, ids', truth, predicted, Grounded, Grounded);
    CellOrderIrrelevant(ids, ids', truth, predicted, Grounded, Hallucinated);
    CellOrderIrrelevant(ids, ids', truth, predicted, Hallucinated, Grounded);
  }

  /** The scores are the ones a pointwise model gives to these inputs. */
  ghost predicate ScoresFrom(s: Scores, score: (string, string) -> real, inputs: seq<Hhem.Input>) {
    && s.Valid() && |s.order| == |inputs|
    && forall i :: 0 <= i < |inputs| ==>
         s.order[i] == inputs[i].exampleId && s.support[inputs[i].exampleId] == Hhem.ScoreOf(score, inputs[i])
  }

  lemma SweepLabels(s: Scores, score: (string, string) -> real, inputs: seq<Hhem.Input>, threshold: real,
                    r: Hhem.Outcome)
    requires ScoresFrom(s, score, inputs)
    requires Hhem.AgreesWith(score, threshold, inputs, Hhem.Own, r) && r.Scored?
    ensures DistinctIds(r.predictions) && Labels(r.predictions) == PredictedAt(s.support, threshold)
  {
    forall i | 0 <= i < |inputs|
      ensures r.predictions[i].exampleId == s.order[i]
      ensures r.predictions[i].verdict == PredictedAt(s.support, threshold)[s.order[i]]
    {
      assert s.order[i] == inputs[i].exampleId;
    }
    LabelsAlong(r.predictions, s, threshold);
  }

  lemma LabelsAlong(predictions: seq<Prediction>, s: Scores, threshold: real)
    requires s.Valid() && |predictions| == |s.order|
    requires forall i :: 0 <= i < |s.order| ==> predictions[i].exampleId == s.order[i]
    requires forall i :: 0 <= i < |s.order| ==> predictions[i].verdict == PredictedAt(s.support, threshold)[s.order[i]]
    ensures DistinctIds(predictions) && Labels(predictions) == PredictedAt(s.support, threshold)
  {
    hide Labels, PredictedAt;
    var labels, predicted := Labels(predictions), PredictedAt(s.support, threshold);
    SameExamples(predictions, s);
    PredictedKeys(s.support, threshold);
    hide SetOf, NoDuplicates;
    LabelsFound(predictions);
    hide DistinctIds;
    forall id | id in s.support
      ensures id in labels && labels[id] == predicted[id]
    {
      var i :| 0 <= i < |s.order| && s.order[i] == id;
      assert predictions[i].exampleId == id;
    }
  }

  lemma SameExamples(predictions: seq<Prediction>, s: Scores)
    requires s.Valid() && |predictions| == |s.order|
    requires forall i :: 0 <= i < |s.order| ==> predictions[i].exampleId == s.order[i]
    ensures DistinctIds(predictions) && Labels(predictions).Keys == s.support.Keys
    ensures forall id :: id in s.support ==> exists i :: 0 <= i < |s.order| && s.order[i] == id
  {
    hide Labels;
    LabelsFound(predictions);
    forall id
      ensures id in Labels(predictions) <==> id in s.support
    {
      assert id in s.support <==> id in s.order;
      if id in s.order {
        var i :| 0 <= i < |s.order| && s.order[i] == id;
        assert predictions[i].exampleId == id;
      }
    }
  }

  lemma PredictedKeys(support: map<string, real>, threshold: real)
    ensures PredictedAt(support, threshold).Keys == support.Keys
  {
  }

  /**
   * The row at a threshold is the metrics layer's matrix of the predictions HHEM makes with that threshold, whatever
   * the batch size.
   */
  lemma SweepRefinesEvaluator(s: Scores, model: Hhem.ScoreModel, score: (string, string) -> real, batchSize: nat,
                              inputs: seq<Hhem.Input>, threshold: real, ids: seq<string>, truth: map<string, Label>)
    requires batchSize >= 1 && Hhem.Pointwise(model, score) && ScoresFrom(s, score, inputs)
    requires NoDuplicates(ids) && SetOf(ids) == truth.Keys == s.support.Keys
    ensures forall id :: id in s.order ==> id in s.support && id in truth
    ensures Hhem.OutcomeOf(model, threshold, batchSize, inputs, Hhem.Own).Scored? <==> Hhem.AllInRange(score, inputs, 0)
    ensures var r := Hhem.OutcomeOf(model, threshold, batchSize, inputs, Hhem.Own);
            r.Scored? ==>
              && DistinctIds(r.predictions) && Labels(r.predictions).Keys == truth.Keys
              && (forall id :: id in ids ==> id in truth && id in Labels(r.predictions))
              && MatrixOf(ids, truth, Labels(r.predictions)) == MatrixAt(s, truth, threshold)
  {
    var r := Hhem.OutcomeOf(model, threshold, batchSize, inputs, Hhem.Own);
    Hhem.PointwiseOutcome(model, score, threshold, batchSize, inputs, Hhem.Own);
    SameIds(ids, s, truth);
    if r.Scored? {
      SweepLabels(s, score, inputs, threshold, r);
      hide Hhem.Pointwise, Hhem.OutcomeOf, Hhem.AgreesWith, ScoresFrom, SetOf, NoDuplicates, DistinctIds;
      MatrixOrderIrrelevant(ids, s.order, truth, PredictedAt(s.support, threshold));
    }
  }

  lemma SameIds(ids: seq<string>, s: Scores, truth: map<string, Label>)
    requires s.Valid() && SetOf(ids) == truth.Keys == s.support.Keys
    ensures forall id :: (id in ids <==> id in truth) && (id in s.order <==> id in truth)
  {
    forall id
      ensures (id in ids <==> id in truth) && (id in s.order <==> id in truth)
    {
      assert id in ids <==> id in SetOf(ids);
      assert id in s.support <==> id in s.support.Keys;
    }
  }

  // ----- raising the threshold -----

  lemma {:induction false} RaisingMovesCells(ids: seq<string>, support: map<string, real>, truth: map<string, Label>,
                                             t: real, t': real, actual: Label)
    requires t <= t' && forall id :: id in ids ==> id in support && id in truth
    ensures |Cell(ids, truth, PredictedAt(support, t), actual, Hallucinated)|
         <= |Cell(ids, truth, PredictedAt(support, t'), actual, Hallucinated)|
    ensures |Cell(ids, truth, PredictedAt(support, t), actual, Hallucinated)|
            + |Cell(ids, truth, PredictedAt(support, t), actual, Grounded)|
         == |Cell(ids, truth, PredictedAt(support, t'), actual, Hallucinated)|
            + |Cell(ids, truth, PredictedAt(support, t'), actual, Grounded)|
  {
    if ids != [] {
      RaisingMovesCells(ids[..|ids| - 1], support, truth, t, t', actual);
    }
  }

  lemma RatioGrows(x: nat, x': nat, n: nat)
    requires x <= x'
    ensures SafeRatio(x as real, n as real) <= SafeRatio(x' as real, n as real)
  {
  }

  /** Recall and false-positive rate never fall as the threshold rises. */
  lemma RatesRiseWithThreshold(s: Scores, truth: map<string, Label>, t: real, t': real)
    requires t <= t' && forall id :: id in s.order ==> id in s.support && id in truth
    ensures var low, high := MetricsOf(MatrixAt(s, truth, t)), MetricsOf(MatrixAt(s, truth, t'));
            && low.recall <= high.recall
            && low.falsePositiveRate <= high.falsePositiveRate
            && low.specificity >= high.specificity
            && low.falseNegativeRate >= high.falseNegativeRate
  {
    hide MetricsOf, Cell, PredictedAt;
    RaisingMovesCells(s.order, s.support, truth, t, t', Hallucinated);
    RaisingMovesCells(s.order, s.support, truth, t, t', Grounded);
    RatesFollowCells(MatrixAt(s, truth, t), MatrixAt(s, truth, t'));
  }

  /**
   * Moving examples of either class from grounded to hallucinated raises the one pair of rates and lowers the other.
   */
  lemma RatesFollowCells(low: ConfusionMatrix, high: ConfusionMatrix)
    requires low.tp <= high.tp && low.tp + low.fn == high.tp + high.fn
    requires low.fp <= high.fp && low.fp + low.tn == high.fp + high.tn
    ensures MetricsOf(low).recall <= MetricsOf(high).recall
    ensures MetricsOf(low).falsePositiveRate <= MetricsOf(high).falsePositiveRate
    ensures MetricsOf(low).specificity >= MetricsOf(high).specificity
    ensures MetricsOf(low).falseNegativeRate >= MetricsOf(high).falseNegativeRate
  {
    hide SafeRatio, F1;
    RatioGrows(low.tp, high.tp, low.tp + low.fn);
    RatioGrows(low.fp, high.fp, low.fp + low.tn);
    RatioGrows(high.tn, low.tn, low.tn + low.fp);
    RatioGrows(high.fn, low.fn, low.fn + low.tp);
  }

  // ----- the table and the selection -----

  function RowAt(s: Scores, truth: map<string, Label>, threshold: real): Row
    requires forall id :: id in s.order ==> id in s.support && id in truth
  {
    Row(threshold, MetricsOf(MatrixAt(s, truth, threshold)))
  }

  ghost predicate IsTable(table: seq<Row>, s: Scores, truth: map<string, Label>, candidates: set<real>)
    requires forall id :: id in s.order ==> id in s.support && id in truth
  {
    && |table| > 0
    && (forall i, j :: 0 <= i < j < |table| ==> table[i].threshold < table[j].threshold)
    && (forall t :: t in candidates <==> exists i :: 0 <= i < |table| && table[i].threshold == t)
    && (forall i :: 0 <= i < |table| ==> table[i] == RowAt(s, truth, table[i].threshold))
  }

  function Normalized(thresholds: seq<real>): seq<real> {
    Sort(RealLe, Deduplicate(thresholds))
  }

  lemma NormalizedAscends(thresholds: seq<real>)
    ensures forall i, j :: 0 <= i < j < |Normalized(thresholds)| ==>
              Normalized(thresholds)[i] < Normalized(thresholds)[j]
    ensures forall t :: t in Normalized(thresholds) <==> t in thresholds
    ensures Normalized(thresholds) == [] <==> thresholds == []
  {
    var d := Deduplicate(thresholds);
    assert thresholds != [] ==> thresholds[0] in SetOf(thresholds);
    SortCorrect(RealLe, d);
    SortMembers(RealLe, d);
    SortNoDuplicates(RealLe, d);
    forall t ensures t in d <==> t in thresholds {
      assert t in d <==> t in SetOf(d);
      assert t in thresholds <==> t in SetOf(thresholds);
    }
    forall i, j | 0 <= i < j < |Normalized(thresholds)|
      ensures Normalized(thresholds)[i] < Normalized(thresholds)[j]
    {
      assert RealLe(Normalized(thresholds)[i], Normalized(thresholds)[j]);
    }
  }

  method AnalyzeThresholds(s: Scores, truth: map<string, Label>, thresholds: seq<real>)
    returns (r: Result<seq<Row>, ThresholdError>)
    requires s.Valid()
    ensures r == Err(NoThresholds) <==> thresholds == []
    ensures r == Err(ThresholdOutOfRange) <==> exists t :: t in thresholds && !(0.0 <= t <= 1.0)
    ensures r == Err(ScoreIdMismatch)
       <==> thresholds != [] && s.support.Keys != truth.Keys && forall t :: t in thresholds ==> 0.0 <= t <= 1.0
    ensures r.Ok?
       <==> thresholds != [] && s.support.Keys == truth.Keys && forall t :: t in thresholds ==> 0.0 <= t <= 1.0
    ensures r.Ok? ==> (forall id :: id in s.order ==> id in s.support && id in truth)
                      && IsTable(r.value, s, truth, SetOf(thresholds))
  {
    if thresholds == [] {
      return Err(NoThresholds);
    }
    var normalized := Normalized(thresholds);
    NormalizedAscends(thresholds);
    if exists t :: t in normalized && !Hhem.InRange(t) {
      return Err(ThresholdOutOfRange);
    }
    if s.support.Keys != truth.Keys {
      return Err(ScoreIdMismatch);
    }
    assert forall id :: id in s.order ==> id in s.support.Keys;
    var table := BuildTable(s, truth, normalized);
    TableComplete(table, s, truth, thresholds);
    return Ok(table);
  }

  method BuildTable(s: Scores, truth: map<string, Label>, normalized: seq<real>) returns (table: seq<Row>)
    requires s.Valid() && s.support.Keys == truth.Keys
    requires forall id :: id in s.order ==> id in s.support && id in truth
    ensures |table| == |normalized|
    ensures forall i :: 0 <= i < |table| ==> table[i] == RowAt(s, truth, normalized[i])
  {
    hide *;
    table := [];
    for i := 0 to |normalized|
      invariant |table| == i && forall j :: 0 <= j < i ==> table[j] == RowAt(s, truth, normalized[j])
    {
      var matrix := ThresholdMatrix(s, truth, normalized[i]);
      var row := MakeRow(s, truth, normalized[i], matrix);
      table := table + [row];
    }
  }

  method MakeRow(s: Scores, truth: map<string, Label>, threshold: real, matrix: ConfusionMatrix) returns (row: Row)
    requires forall id :: id in s.order ==> id in s.support && id in truth
    requires matrix == MatrixAt(s, truth, threshold)
    ensures row == RowAt(s, truth, threshold)
  {
    row := Row(threshold, MetricsOf(matrix));
  }

  lemma TableComplete(table: seq<Row>, s: Scores, truth: map<string, Label>, thresholds: seq<real>)
    requires forall id :: id in s.order ==> id in s.support && id in truth
    requires thresholds != [] && |table| == |Normalized(thresholds)|
    requires forall i :: 0 <= i < |table| ==> table[i] == RowAt(s, truth, Normalized(thresholds)[i])
    ensures IsTable(table, s, truth, SetOf(thresholds))
  {
    NormalizedAscends(thresholds);
    hide MatrixAt, MetricsOf;
    forall t ensures t in SetOf(thresholds) <==> exists i :: 0 <= i < |table| && table[i].threshold == t {
      if t in SetOf(thresholds) {
        assert t in Normalized(thresholds);
        var i :| 0 <= i < |table| && Normalized(thresholds)[i] == t;
        assert table[i].threshold == t;
      }
    }
  }

  datatype Column = Known(value: real) | Unknown

  /** A row offers its own threshold and the eight metrics by name. */
  function Lookup(row: Row, metric: string): Column {
    if metric == "threshold" then Known(row.threshold)
    else if metric == "precision" then Known(row.metrics.precision)
    else if metric == "recall" then Known(row.metrics.recall)
    else if metric == "f1" then Known(row.metrics.f1)
    else if metric == "accuracy" then Known(row.metrics.accuracy)
    else if metric == "specificity" then Known(row.metrics.specificity)
    else if metric == "balanced_accuracy" then Known(row.metrics.balancedAccuracy)
    else if metric == "false_positive_rate" then Known(row.metrics.falsePositiveRate)
    else if metric == "false_negative_rate" then Known(row.metrics.falseNegativeRate)
    else Unknown
  }

  predicate IsColumn(metric: string) {
    metric in ["threshold", "precision", "recall", "f1", "accuracy", "specificity", "balanced_accuracy",
               "false_positive_rate", "false_negative_rate"]
  }

  function Value(row: Row, metric: string): real
    requires IsColumn(metric)
  {
    Lookup(row, metric).value
  }

  /** The least of the candidates at which the metric is as large as at any candidate. */
  ghost predicate IsSelected(s: Scores, truth: map<string, Label>, candidates: set<real>, metric: string, t: real)
    requires IsColumn(metric) && forall id :: id in s.order ==> id in s.support && id in truth
  {
    && t in candidates
    && (forall u :: u in candidates ==> Value(RowAt(s, truth, u), metric) <= Value(RowAt(s, truth, t), metric))
    && (forall u :: u in candidates && Value(RowAt(s, truth, u), metric) == Value(RowAt(s, truth, t), metric) ==>
        t <= u)
  }

  /** The least of the candidates at which f is as large as at any. */
  ghost predicate IsLeastBest(s: Scores, truth: map<string, Label>, candidates: set<real>, t: real, f: Row -> real)
    requires forall id :: id in s.order ==> id in s.support && id in truth
  {
    && t in candidates
    && forall u :: u in candidates ==>
         f(RowAt(s, truth, u)) < f(RowAt(s, truth, t)) || (f(RowAt(s, truth, u)) == f(RowAt(s, truth, t)) && t <= u)
  }

  /** Every name selects by the rate of that name, and "threshold" by the threshold itself. */
  ghost predicate BestByName(s: Scores, truth: map<string, Label>, candidates: set<real>, metric: string, t: real)
    requires forall id :: id in s.order ==> id in s.support && id in truth
  {
    && (metric == "threshold" ==> IsLeastBest(s, truth, candidates, t, (r: Row) => r.threshold))
    && (metric == "precision" ==> IsLeastBest(s, truth, candidates, t, (r: Row) => r.metrics.precision))
    && (metric == "recall" ==> IsLeastBest(s, truth, candidates, t, (r: Row) => r.metrics.recall))
    && (metric == "f1" ==> IsLeastBest(s, truth, candidates, t, (r: Row) => r.metrics.f1))
    && (metric == "accuracy" ==> IsLeastBest(s, truth, candidates, t, (r: Row) => r.metrics.accuracy))
    && (metric == "specificity" ==> IsLeastBest(s, truth, candidates, t, (r: Row) => r.metrics.specificity))
    && (metric == "balanced_accuracy" ==>
          IsLeastBest(s, truth, candidates, t, (r: Row) => r.metrics.balancedAccuracy))
    && (metric == "false_positive_rate" ==>
          IsLeastBest(s, truth, candidates, t, (r: Row) => r.metrics.falsePositiveRate))
    && (metric == "false_negative_rate" ==>
          IsLeastBest(s, truth, candidates, t, (r: Row) => r.metrics.falseNegativeRate))
  }

  lemma SelectedIsLeastBest(s: Scores, truth: map<string, Label>, candidates: set<real>, metric: string, t: real,
                            f: Row -> real)
    requires IsColumn(metric) && forall id :: id in s.order ==> id in s.support && id in truth
    requires IsSelected(s, truth, candidates, metric, t)
    requires forall row :: Value(row, metric) == f(row)
    ensures IsLeastBest(s, truth, candidates, t, f)
  {
    hide RowAt, Value;
  }

  lemma SelectedByName(s: Scores, truth: map<string, Label>, candidates: set<real>, metric: string, t: real)
    requires IsColumn(metric) && forall id :: id in s.order ==> id in s.support && id in truth
    requires IsSelected(s, truth, candidates, metric, t)
    ensures BestByName(s, truth, candidates, metric, t)
  {
    hide IsSelected, IsLeastBest;
    if metric == "threshold" {
      SelectedIsLeastBest(s, truth, candidates, metric, t, (r: Row) => r.threshold);
    } else if metric == "precision" {
      SelectedIsLeastBest(s, truth, candidates, metric, t, (r: Row) => r.metrics.precision);
    } else if metric == "recall" {
      SelectedIsLeastBest(s, truth, candidates, metric, t, (r: Row) => r.metrics.recall);
    } else if metric == "f1" {
      SelectedIsLeastBest(s, truth, candidates, metric, t, (r: Row) => r.metrics.f1);
    } else if metric == "accuracy" {
      SelectedIsLeastBest(s, truth, candidates, metric, t, (r: Row) => r.metrics.accuracy);
    } else if metric == "specificity" {
      SelectedIsLeastBest(s, truth, candidates, metric, t, (r: Row) => r.metrics.specificity);
    } else if metric == "balanced_accuracy" {
      SelectedIsLeastBest(s, truth, candidates, metric, t, (r: Row) => r.metrics.balancedAccuracy);
    } else if metric == "false_positive_rate" {
      SelectedIsLeastBest(s, truth, candidates, metric, t, (r: Row) => r.metrics.falsePositiveRate);
    } else {
      SelectedIsLeastBest(s, truth, candidates, metric, t, (r: Row) => r.metrics.falseNegativeRate);
    }
  }

  /** So the selection depends only on which candidates there are, not on their order or repeats. */
  lemma SelectionIsUnique(s: Scores, truth: map<string, Label>, a: seq<real>, b: seq<real>, metric: string, t: real,
                          u: real)
    requires IsColumn(metric) && forall id :: id in s.order ==> id in s.support && id in truth
    requires SetOf(a) == SetOf(b)
    requires IsSelected(s, truth, SetOf(a), metric, t) && IsSelected(s, truth, SetOf(b), metric, u)
    ensures t == u
  {
    hide RowAt, Value;
    assert t in SetOf(b) && u in SetOf(a);
  }

  method BestValue(table: seq<Row>, metric: string) returns (best: real)
    requires table != [] && IsColumn(metric)
    ensures exists i :: 0 <= i < |table| && Value(table[i], metric) == best
    ensures forall i :: 0 <= i < |table| ==> Value(table[i], metric) <= best
  {
    best := Value(table[0], metric);
    for i := 1 to |table|
      invariant exists j :: 0 <= j < i && Value(table[j], metric) == best
      invariant forall j :: 0 <= j < i ==> Value(table[j], metric) <= best
    {
      hide Value;
      if Value(table[i], metric) > best {
        best := Value(table[i], metric);
      }
    }
  }

  method LeastThreshold(table: seq<Row>, metric: string, best: real) returns (t: real)
    requires IsColumn(metric) && exists i :: 0 <= i < |table| && Value(table[i], metric) == best
    ensures exists i :: 0 <= i < |table| && Value(table[i], metric) == best && table[i].threshold == t
    ensures forall i :: 0 <= i < |table| && Value(table[i], metric) == best ==> t <= table[i].threshold
  {
    var found := false;
    t := 0.0;
    for i := 0 to |table|
      invariant found ==> exists j :: 0 <= j < i && Value(table[j], metric) == best && table[j].threshold == t
      invariant forall j :: 0 <= j < i && Value(table[j], metric) == best ==> found && t <= table[j].threshold
    {
      hide Value;
      if Value(table[i], metric) == best && (!found || table[i].threshold < t) {
        found, t := true, table[i].threshold;
      }
    }
  }

  /** Selection is refused on the test split; the split name comes already case-folded. */
  method SelectThreshold(s: Scores, truth: map<string, Label>, foldedSplit: string, candidates: seq<real>,
                         metric: string)
    returns (r: Result<real, ThresholdError>)
    requires s.Valid()
    ensures r == Err(TestSplitForbidden) <==> foldedSplit == "test"
    ensures r.Ok? <==> foldedSplit != "test" && candidates != [] && s.support.Keys == truth.Keys
                       && metric in ["threshold", "precision", "recall", "f1", "accuracy", "specificity",
                                     "balanced_accuracy", "false_positive_rate", "false_negative_rate"]
                       && forall t :: t in candidates ==> 0.0 <= t <= 1.0
    ensures r.Ok? ==> (forall id :: id in s.order ==> id in s.support && id in truth)
                      && IsSelected(s, truth, SetOf(candidates), metric, r.value)
                      && BestByName(s, truth, SetOf(candidates), metric, r.value)
  {
    hide Lookup, BestByName;
    if foldedSplit == "test" {
      return Err(TestSplitForbidden);
    }
    var table := AnalyzeThresholds(s, truth, candidates);
    if table.Err? {
      return Err(table.error);
    }
    if !IsColumn(metric) {
      return Err(UnknownMetric);
    }
    var best := BestValue(table.value, metric);
    var t := LeastThreshold(table.value, metric, best);
    SelectedFromTable(table.value, s, truth, SetOf(candidates), metric, best, t);
    SelectedByName(s, truth, SetOf(candidates), metric, t);
    return Ok(t);
  }

  lemma SelectedFromTable(table: seq<Row>, s: Scores, truth: map<string, Label>, candidates: set<real>, metric: string,
                          best: real, t: real)
    requires IsColumn(metric) && forall id :: id in s.order ==> id in s.support && id in truth
    requires IsTable(table, s, truth, candidates)
    requires forall i :: 0 <= i < |table| ==> Value(table[i], metric) <= best
    requires exists i :: 0 <= i < |table| && Value(table[i], metric) == best && table[i].threshold == t
    requires forall i :: 0 <= i < |table| && Value(table[i], metric) == best ==> t <= table[i].threshold
    ensures IsSelected(s, truth, candidates, metric, t)
  {
    hide Value, RowAt;
    var i :| 0 <= i < |table| && Value(table[i], metric) == best && table[i].threshold == t;
    forall u | u in candidates
      ensures Value(RowAt(s, truth, u), metric) <= Value(RowAt(s, truth, t), metric)
      ensures Value(RowAt(s, truth, u), metric) == Value(RowAt(s, truth, t), metric) ==> t <= u
    {
      var j :| 0 <= j < |table| && table[j].threshold == u;
    }
  }
}
