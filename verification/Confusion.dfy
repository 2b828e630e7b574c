/** Labels, confusion matrices and slices: models/hallucination.py and evaluators/hallucination/metrics.py. */
module Confusion {
  import opened Arithmetic
  import opened Orders
  import opened Results

  /** Hallucination is the positive class. */
  datatype Label = Grounded | Hallucinated

  datatype Prediction = Prediction(exampleId: string, verdict: Label, score: real)

  datatype Error = DuplicatePrediction | IdMismatch

  datatype ConfusionMatrix = ConfusionMatrix(tp: nat, tn: nat, fp: nat, fn: nat) {
    function Total(): nat { tp + tn + fp + fn }
  }

  datatype Metrics = Metrics(
    precision: real, recall: real, f1: real, accuracy: real, specificity: real,
    balancedAccuracy: real, falsePositiveRate: real, falseNegativeRate: real)

  datatype Report = Report(
    matrix: ConfusionMatrix, metrics: Metrics, falsePositiveIds: seq<string>, falseNegativeIds: seq<string>)

  function SafeRatio(numerator: real, denominator: real): real {
    if denominator != 0.0 then numerator / denominator else 0.0
  }

  /** The harmonic mean of precision and recall. */
  function F1(precision: real, recall: real): real {
    SafeRatio(2.0 * precision * recall, precision + recall)
  }

  function MetricsOf(m: ConfusionMatrix): Metrics {
    var precision := SafeRatio(m.tp as real, (m.tp + m.fp) as real);
    var recall := SafeRatio(m.tp as real, (m.tp + m.fn) as real);
    var specificity := SafeRatio(m.tn as real, (m.tn + m.fp) as real);
    Metrics(
      precision, recall,
      F1(precision, recall),
      SafeRatio((m.tp + m.tn) as real, m.Total() as real),
      specificity,
      (recall + specificity) / 2.0,
      SafeRatio(m.fp as real, (m.fp + m.tn) as real),
      SafeRatio(m.fn as real, (m.fn + m.tp) as real))
  }

  /** A rate is its part of the whole, and zero of nothing. */
  predicate Share(rate: real, part: nat, whole: nat) {
    rate * whole as real == part as real && (whole == 0 ==> rate == 0.0)
  }

  /** What the eight rates say, in counts. */
  predicate AreRates(m: ConfusionMatrix, r: Metrics) {
    && Share(r.precision, m.tp, m.tp + m.fp)
    && Share(r.recall, m.tp, m.tp + m.fn)
    && Share(r.f1, 2 * m.tp, 2 * m.tp + m.fp + m.fn)
    && Share(r.accuracy, m.tp + m.tn, m.tp + m.tn + m.fp + m.fn)
    && Share(r.specificity, m.tn, m.tn + m.fp)
    && Share(r.falsePositiveRate, m.fp, m.fp + m.tn)
    && Share(r.falseNegativeRate, m.fn, m.fn + m.tp)
    && r.balancedAccuracy + r.balancedAccuracy == r.recall + r.specificity
  }

  lemma RatioIsShare(part: nat, whole: nat)
    requires part <= whole
    ensures Share(SafeRatio(part as real, whole as real), part, whole)
  {
    if whole > 0 {
      Undivided(part as real, whole as real);
    }
  }

  /** The harmonic mean of two shares of one part is twice the part over both wholes. */
  lemma HarmonicShare(tp: nat, a: nat, b: nat, p: real, r: real)
    requires tp <= a && tp <= b && Share(p, tp, a) && Share(r, tp, b)
    ensures Share(F1(p, r), 2 * tp, a + b)
  {
    if tp == 0 {
      NothingShared(a, p);
      NothingShared(b, r);
      assert F1(p, r) == 0.0;
    } else {
      PositiveShare(tp, a, p);
      PositiveShare(tp, b, r);
      HarmonicProduct(tp as real, a as real, b as real, p, r, F1(p, r));
      assert (2 * tp) as real == 2.0 * tp as real && (a + b) as real == a as real + b as real;
    }
  }

  lemma NothingShared(whole: nat, rate: real)
    requires Share(rate, 0, whole)
    ensures rate == 0.0
  {
  }

  lemma PositiveShare(part: nat, whole: nat, rate: real)
    requires 0 < part <= whole && Share(rate, part, whole)
    ensures rate > 0.0
  {
    SignOfProduct(rate, whole as real, part as real);
  }

  lemma HarmonicProduct(t: real, a: real, b: real, p: real, r: real, f: real)
    requires t > 0.0 && a > 0.0 && b > 0.0 && p > 0.0 && r > 0.0
    requires p * a == t && r * b == t && f == 2.0 * p * r / (p + r)
    ensures f * (a + b) == 2.0 * t
  {
    assert f * (p + r) == 2.0 * p * r;
    var x := f * (a + b);
    assert x * (p * r) == f * (t * r + t * p) by {
      assert a * (p * r) == t * r && b * (p * r) == t * p;
      SplitProduct(f, a, b, p * r);
    }
    assert f * (t * r + t * p) == t * (2.0 * p * r) by {
      Gather(f, t, r, p);
    }
    assert (x - 2.0 * t) * (p * r) == 0.0;
    NoFactor(x - 2.0 * t, p, r);
  }

  lemma SplitProduct(f: real, a: real, b: real, z: real)
    ensures (f * (a + b)) * z == f * (a * z + b * z)
  {
  }

  lemma Gather(f: real, t: real, r: real, p: real)
    ensures f * (t * r + t * p) == t * (f * (p + r))
  {
  }

  lemma NoFactor(x: real, p: real, r: real)
    requires p > 0.0 && r > 0.0 && x * (p * r) == 0.0
    ensures x == 0.0
  {
  }

  lemma RatesAreCounts(m: ConfusionMatrix)
    ensures AreRates(m, MetricsOf(m))
  {
    var r := MetricsOf(m);
    hide SafeRatio, F1, Share;
    RatioIsShare(m.tp, m.tp + m.fp);
    RatioIsShare(m.tp, m.tp + m.fn);
    RatioIsShare(m.tp + m.tn, m.Total());
    RatioIsShare(m.tn, m.tn + m.fp);
    RatioIsShare(m.fp, m.fp + m.tn);
    RatioIsShare(m.fn, m.fn + m.tp);
    HarmonicShare(m.tp, m.tp + m.fp, m.tp + m.fn, r.precision, r.recall);
    assert m.tp + m.fp + (m.tp + m.fn) == 2 * m.tp + m.fp + m.fn;
  }

  /** The IDs, in order, with a given true and a given predicted label. */
  function Cell(ids: seq<string>, truth: map<string, Label>, predicted: map<string, Label>, actual: Label,
                guess: Label): seq<string>
    requires forall id :: id in ids ==> id in truth && id in predicted
  {
    if ids == [] then []
    else
      var n := |ids| - 1;
      Cell(ids[..n], truth, predicted, actual, guess)
      + if truth[ids[n]] == actual && predicted[ids[n]] == guess then [ids[n]] else []
  }

  function MatrixOf(ids: seq<string>, truth: map<string, Label>, predicted: map<string, Label>): ConfusionMatrix
    requires forall id :: id in ids ==> id in truth && id in predicted
  {
    ConfusionMatrix(
      |Cell(ids, truth, predicted, Hallucinated, Hallucinated)|, |Cell(ids, truth, predicted, Grounded, Grounded)|,
      |Cell(ids, truth, predicted, Grounded, Hallucinated)|, |Cell(ids, truth, predicted, Hallucinated, Grounded)|)
  }

  function Labels(predictions: seq<Prediction>): map<string, Label> {
    if predictions == [] then map[]
    else
      var n := |predictions| - 1;
      Labels(predictions[..n])[predictions[n].exampleId := predictions[n].verdict]
  }

  predicate DistinctIds(predictions: seq<Prediction>) {
    forall i, j :: 0 <= i < j < |predictions| ==> predictions[i].exampleId != predictions[j].exampleId
  }

  lemma {:induction false} LabelsFound(predictions: seq<Prediction>)
    ensures forall id ::
              id in Labels(predictions) <==> exists i :: 0 <= i < |predictions| && predictions[i].exampleId == id
    ensures DistinctIds(predictions) ==>
              forall i :: 0 <= i < |predictions| ==>
                predictions[i].exampleId in Labels(predictions)
                && Labels(predictions)[predictions[i].exampleId] == predictions[i].verdict
  {
    if predictions != [] {
      LabelsFound(predictions[..|predictions| - 1]);
    }
  }

  /** The counting loop of the source. */
  method CountMatrix(ids: seq<string>, truth: map<string, Label>, predicted: map<string, Label>)
    returns (matrix: ConfusionMatrix, falsePositiveIds: seq<string>, falseNegativeIds: seq<string>)
    requires forall id :: id in ids ==> id in truth && id in predicted
    ensures matrix == MatrixOf(ids, truth, predicted)
    ensures falsePositiveIds == Cell(ids, truth, predicted, Grounded, Hallucinated)
    ensures falseNegativeIds == Cell(ids, truth, predicted, Hallucinated, Grounded)
  {
    var tp, tn, fp, fn := 0, 0, 0, 0;
    falsePositiveIds, falseNegativeIds := [], [];
    for i := 0 to |ids|
      invariant ConfusionMatrix(tp, tn, fp, fn) == MatrixOf(ids[..i], truth, predicted)
      invariant falsePositiveIds == Cell(ids[..i], truth, predicted, Grounded, Hallucinated)
      invariant falseNegativeIds == Cell(ids[..i], truth, predicted, Hallucinated, Grounded)
    {
      var id := ids[i];
      assert ids[..i + 1][..i] == ids[..i];
      var actual := truth[id] == Hallucinated;
      var guess := predicted[id] == Hallucinated;
      if actual && guess {
        tp := tp + 1;
      } else if !actual && !guess {
        tn := tn + 1;
      } else if !actual && guess {
        fp := fp + 1;
        falsePositiveIds := falsePositiveIds + [id];
      } else {
        fn := fn + 1;
        falseNegativeIds := falseNegativeIds + [id];
      }
    }
    assert ids[..|ids|] == ids;
    matrix := ConfusionMatrix(tp, tn, fp, fn);
  }

  method BuildReport(ids: seq<string>, truth: map<string, Label>, predictions: seq<Prediction>)
    returns (r: Result<Report, Error>)
    requires forall id :: id in ids <==> id in truth
    ensures r == Err(DuplicatePrediction) <==> !DistinctIds(predictions)
    ensures r == Err(IdMismatch) <==> DistinctIds(predictions) && Labels(predictions).Keys != truth.Keys
    ensures r.Ok? <==> DistinctIds(predictions) && Labels(predictions).Keys == truth.Keys
    ensures r.Ok? ==>
              && r.value.matrix == MatrixOf(ids, truth, Labels(predictions))
              && r.value.metrics == MetricsOf(r.value.matrix) && AreRates(r.value.matrix, r.value.metrics)
              && r.value.falsePositiveIds == Cell(ids, truth, Labels(predictions), Grounded, Hallucinated)
              && r.value.falseNegativeIds == Cell(ids, truth, Labels(predictions), Hallucinated, Grounded)
  {
    if !DistinctIds(predictions) {
      return Err(DuplicatePrediction);
    }
    var predicted := Labels(predictions);
    if predicted.Keys != truth.Keys {
      return Err(IdMismatch);
    }
    assert forall id :: id in predicted <==> id in truth;
    var matrix, fpIds, fnIds := CountMatrix(ids, truth, predicted);
    RatesAreCounts(matrix);
    hide MetricsOf, AreRates;
    return Ok(Report(matrix, MetricsOf(matrix), fpIds, fnIds));
  }

  // ----- what the matrix and the rates mean -----

  lemma {:induction false} CellMembers(
    ids: seq<string>, truth: map<string, Label>, predicted: map<string, Label>, actual: Label,
                                          guess: Label)
    requires forall id :: id in ids ==> id in truth && id in predicted
    ensures forall id :: id in Cell(ids, truth, predicted, actual, guess)
                    <==> id in ids && truth[id] == actual && predicted[id] == guess
  {
    if ids != [] {
      var n := |ids| - 1;
      CellMembers(ids[..n], truth, predicted, actual, guess);
      assert ids == ids[..n] + [ids[n]];
    }
  }

  /** Every example falls into exactly one cell of the matrix. */
  lemma {:induction false} MatrixCountsEveryone(ids: seq<string>, truth: map<string, Label>,
                                                predicted: map<string, Label>)
    requires forall id :: id in ids ==> id in truth && id in predicted
    ensures MatrixOf(ids, truth, predicted).Total() == |ids|
  {
    if ids != [] {
      MatrixCountsEveryone(ids[..|ids| - 1], truth, predicted);
    }
  }

  lemma RatioBounds(x: nat, y: nat)
    ensures 0.0 <= SafeRatio(x as real, (x + y) as real) <= 1.0
    ensures SafeRatio(x as real, (x + y) as real) > 0.0 <==> x > 0
    ensures x + y > 0 ==> SafeRatio(x as real, (x + y) as real) + SafeRatio(y as real, (y + x) as real) == 1.0
  {
    if x + y > 0 {
      var q := x as real / (x + y) as real;
      assert q * (x + y) as real == x as real;
      assert q >= 0.0;
      assert x == 0 ==> q == 0.0;
      if q > 1.0 {
        assert (q - 1.0) * (x + y) as real > 0.0;
      }
      SumsToOne(x as real, y as real);
    }
  }

  lemma SumsToOne(x: real, y: real)
    requires x + y != 0.0
    ensures x / (x + y) + y / (y + x) == 1.0
  {
    assert y + x == x + y;
  }

  lemma HarmonicMean(p: real, r: real)
    requires 0.0 <= p <= 1.0 && 0.0 <= r <= 1.0
    ensures var f := F1(p, r);
            && 0.0 <= f <= 1.0
            && (p <= r ==> p <= f <= r) && (r <= p ==> r <= f <= p)
            && (f > 0.0 <==> p > 0.0 && r > 0.0)
  {
    if p + r > 0.0 {
      var f := 2.0 * p * r / (p + r);
      assert f * (p + r) == 2.0 * p * r;
      assert (f - p) * (p + r) == p * (r - p);
      assert (f - r) * (p + r) == r * (p - r);
      SignOfProduct(f - p, p + r, p * (r - p));
      SignOfProduct(f - r, p + r, r * (p - r));
      SignOfProduct(f, p + r, 2.0 * p * r);
    }
  }

  lemma SignOfProduct(x: real, y: real, z: real)
    requires x * y == z && y > 0.0
    ensures x > 0.0 <==> z > 0.0
    ensures x < 0.0 <==> z < 0.0
  {
  }

  /** Every rate is in [0, 1]; complementary rates sum to one where defined; F1 lies between its two parts. */
  lemma MetricLaws(m: ConfusionMatrix)
    ensures var r := MetricsOf(m);
            && 0.0 <= r.precision <= 1.0 && 0.0 <= r.recall <= 1.0 && 0.0 <= r.f1 <= 1.0
            && 0.0 <= r.accuracy <= 1.0 && 0.0 <= r.specificity <= 1.0 && 0.0 <= r.balancedAccuracy <= 1.0
            && 0.0 <= r.falsePositiveRate <= 1.0 && 0.0 <= r.falseNegativeRate <= 1.0
            && (m.tp + m.fn > 0 ==> r.recall + r.falseNegativeRate == 1.0)
            && (m.tn + m.fp > 0 ==> r.specificity + r.falsePositiveRate == 1.0)
            && (r.f1 > 0.0 <==> m.tp > 0)
            && (r.precision <= r.recall ==> r.precision <= r.f1 <= r.recall)
            && (r.recall <= r.precision ==> r.recall <= r.f1 <= r.precision)
  {
    hide SafeRatio, F1;
    RatioBounds(m.tp, m.fp);
    RatioBounds(m.tp, m.fn);
    RatioBounds(m.tn, m.fp);
    RatioBounds(m.fp, m.tn);
    RatioBounds(m.fn, m.tp);
    RatioBounds(m.tp + m.tn, m.fp + m.fn);
    assert m.Total() == m.tp + m.tn + (m.fp + m.fn);
    HarmonicMean(MetricsOf(m).precision, MetricsOf(m).recall);
  }

  // ----- slices -----

  /** The IDs, in order, whose metadata has a given value. */
  function Slice(ids: seq<string>, group: map<string, string>, value: string): (r: seq<string>)
    requires forall id :: id in ids ==> id in group
    ensures forall id :: id in r <==> id in ids && group[id] == value
  {
    if ids == [] then []
    else
      var n := |ids| - 1;
      assert ids == ids[..n] + [ids[n]];
      Slice(ids[..n], group, value) + if group[ids[n]] == value then [ids[n]] else []
  }

  /** One cell of the matrix, counted in every slice and added up. */
  function CellAcrossSlices(ids: seq<string>, group: map<string, string>, values: seq<string>,
                            truth: map<string, Label>, predicted: map<string, Label>, actual: Label, guess: Label): nat
    requires forall id :: id in ids ==> id in group && id in truth && id in predicted
  {
    if values == [] then 0
    else
      |Cell(Slice(ids, group, values[0]), truth, predicted, actual, guess)|
      + CellAcrossSlices(ids, group, values[1..], truth, predicted, actual, guess)
  }

  lemma OneMoreInSlice(ids: seq<string>, group: map<string, string>, value: string,
                       truth: map<string, Label>, predicted: map<string, Label>, actual: Label,
                                          guess: Label)
    requires ids != [] && forall id :: id in ids ==> id in group && id in truth && id in predicted
    ensures var front, last := ids[..|ids| - 1], ids[|ids| - 1];
            |Cell(Slice(ids, group, value), truth, predicted, actual, guess)|
            == |Cell(Slice(front, group, value), truth, predicted, actual, guess)|
               + if group[last] == value && truth[last] == actual && predicted[last] == guess then 1 else 0
  {
    var front, last := ids[..|ids| - 1], ids[|ids| - 1];
    var before := Slice(front, group, value);
    if group[last] == value {
      assert Slice(ids, group, value)[..|before|] == before;
    } else {
      assert Slice(ids, group, value) == before;
    }
  }

  lemma {:induction false} OneMoreExample(ids: seq<string>, group: map<string, string>, values: seq<string>,
                                          truth: map<string, Label>, predicted: map<string, Label>, actual: Label,
                                          guess: Label)
    requires ids != [] && forall id :: id in ids ==> id in group && id in truth && id in predicted
    requires NoDuplicates(values)
    ensures var front, last := ids[..|ids| - 1], ids[|ids| - 1];
            CellAcrossSlices(ids, group, values, truth, predicted, actual, guess)
            == CellAcrossSlices(front, group, values, truth, predicted, actual, guess)
               + if group[last] in values && truth[last] == actual && predicted[last] == guess then 1 else 0
  {
    if values != [] {
      DistinctTail(values);
      assert values == [values[0]] + values[1..];
      OneMoreExample(ids, group, values[1..], truth, predicted, actual, guess);
      OneMoreInSlice(ids, group, values[0], truth, predicted, actual, guess);
    }
  }

  lemma {:induction false} EmptySlices(group: map<string, string>, values: seq<string>, truth: map<string, Label>,
                                       predicted: map<string, Label>, actual: Label, guess: Label)
    ensures CellAcrossSlices([], group, values, truth, predicted, actual, guess) == 0
  {
    if values != [] {
      EmptySlices(group, values[1..], truth, predicted, actual, guess);
    }
  }

  /** Along one dimension the slices add up to the whole matrix, cell by cell: nobody is lost or counted twice. */
  lemma {:induction false} SlicesConserve(ids: seq<string>, group: map<string, string>, values: seq<string>,
                                          truth: map<string, Label>, predicted: map<string, Label>, actual: Label,
                                          guess: Label)
    requires forall id :: id in ids ==> id in group && id in truth && id in predicted
    requires NoDuplicates(values) && forall id :: id in ids ==> group[id] in values
    ensures CellAcrossSlices(ids, group, values, truth, predicted, actual, guess)
         == |Cell(ids, truth, predicted, actual, guess)|
  {
    if ids == [] {
      EmptySlices(group, values, truth, predicted, actual, guess);
    } else {
      SlicesConserve(ids[..|ids| - 1], group, values, truth, predicted, actual, guess);
      OneMoreExample(ids, group, values, truth, predicted, actual, guess);
    }
  }

  /** The predictions whose example is among the given IDs. */
  function Keep(predictions: seq<Prediction>, ids: seq<string>): seq<Prediction> {
    if predictions == [] then []
    else
      var n := |predictions| - 1;
      Keep(predictions[..n], ids) + if predictions[n].exampleId in ids then [predictions[n]] else []
  }

  lemma {:induction false} KeepMembers(predictions: seq<Prediction>, ids: seq<string>)
    requires DistinctIds(predictions)
    ensures DistinctIds(Keep(predictions, ids))
    ensures forall p :: p in Keep(predictions, ids) <==> p in predictions && p.exampleId in ids
  {
    if predictions != [] {
      var n := |predictions| - 1;
      KeepMembers(predictions[..n], ids);
      assert predictions == predictions[..n] + [predictions[n]];
      var kept := Keep(predictions[..n], ids);
      forall i | 0 <= i < |kept| ensures kept[i].exampleId != predictions[n].exampleId {
        assert kept[i] in predictions[..n];
      }
    }
  }

  lemma KeepLabels(predictions: seq<Prediction>, ids: seq<string>)
    requires DistinctIds(predictions)
    requires forall id :: id in ids ==> id in Labels(predictions)
    ensures Labels(Keep(predictions, ids)).Keys == SetOf(ids)
    ensures forall id :: id in ids ==> Labels(Keep(predictions, ids))[id] == Labels(predictions)[id]
  {
    var kept := Keep(predictions, ids);
    KeepMembers(predictions, ids);
    LabelsFound(predictions);
    LabelsFound(kept);
    forall id ensures id in Labels(kept) <==> id in ids {
      if id in ids {
        var i :| 0 <= i < |predictions| && predictions[i].exampleId == id;
        assert predictions[i] in kept;
      }
      if id in Labels(kept) {
        var j :| 0 <= j < |kept| && kept[j].exampleId == id;
        assert kept[j] in kept;
      }
    }
    forall id | id in ids ensures Labels(kept)[id] == Labels(predictions)[id] {
      var j :| 0 <= j < |kept| && kept[j].exampleId == id;
      assert kept[j] in kept;
      var i :| 0 <= i < |predictions| && predictions[i] == kept[j];
      assert Labels(predictions)[predictions[i].exampleId] == predictions[i].verdict;
    }
  }

  lemma {:induction false} CellDependsOnLabels(ids: seq<string>, truth: map<string, Label>,
                                               predicted: map<string, Label>,
                                               truth': map<string, Label>, predicted': map<string, Label>,
                                               actual: Label, guess: Label)
    requires forall id :: id in ids ==> id in truth && id in predicted && id in truth' && id in predicted'
    requires forall id :: id in ids ==> truth[id] == truth'[id] && predicted[id] == predicted'[id]
    ensures Cell(ids, truth, predicted, actual, guess) == Cell(ids, truth', predicted', actual, guess)
  {
    if ids != [] {
      CellDependsOnLabels(ids[..|ids| - 1], truth, predicted, truth', predicted', actual, guess);
    }
  }

  lemma MatrixDependsOnLabels(ids: seq<string>, truth: map<string, Label>, predicted: map<string, Label>,
                              truth': map<string, Label>, predicted': map<string, Label>)
    requires forall id :: id in ids ==> id in truth && id in predicted && id in truth' && id in predicted'
    requires forall id :: id in ids ==> truth[id] == truth'[id] && predicted[id] == predicted'[id]
    ensures MatrixOf(ids, truth, predicted) == MatrixOf(ids, truth', predicted')
  {
    CellDependsOnLabels(ids, truth, predicted, truth', predicted', Hallucinated, Hallucinated);
    CellDependsOnLabels(ids, truth, predicted, truth', predicted', Grounded, Grounded);
    CellDependsOnLabels(ids, truth, predicted, truth', predicted', Grounded, Hallucinated);
    CellDependsOnLabels(ids, truth, predicted, truth', predicted', Hallucinated, Grounded);
  }

  /** One slice is reported from its own sub-population; that report never fails. */
  method SliceMetrics(ids: seq<string>, truth: map<string, Label>, predictions: seq<Prediction>,
                      group: map<string, string>, value: string) returns (metrics: Metrics)
    requires DistinctIds(predictions) && Labels(predictions).Keys == truth.Keys
    requires forall id :: id in ids ==> id in truth && id in group
    ensures (forall id :: id in ids ==> id in Labels(predictions))
            && metrics == MetricsOf(MatrixOf(Slice(ids, group, value), truth, Labels(predictions)))
  {
    assert forall id :: id in truth ==> id in Labels(predictions);
    var members := Slice(ids, group, value);
    var subTruth := map id | id in members :: truth[id];
    var subPredictions := Keep(predictions, members);
    KeepMembers(predictions, members);
    KeepLabels(predictions, members);
    assert subTruth.Keys == SetOf(members);
    var report := BuildReport(members, subTruth, subPredictions);
    MatrixDependsOnLabels(members, truth, Labels(predictions), subTruth, Labels(subPredictions));
    metrics := report.value.metrics;
  }

  method EvaluateSlices(ids: seq<string>, truth: map<string, Label>, predictions: seq<Prediction>,
                        group: map<string, string>) returns (slices: map<string, Metrics>)
    requires DistinctIds(predictions) && Labels(predictions).Keys == truth.Keys
    requires forall id :: id in ids ==> id in truth && id in group
    ensures (forall id :: id in ids ==> id in Labels(predictions))
    ensures slices.Keys == set id | id in ids :: group[id]
    ensures forall value :: value in slices ==>
              slices[value] == MetricsOf(MatrixOf(Slice(ids, group, value), truth, Labels(predictions)))
  {
    hide *;
    assert forall id :: id in truth ==> id in Labels(predictions);
    slices := map[];
    var values := set id | id in ids :: group[id];
    var todo := values;
    while todo != {}
      invariant todo <= values && slices.Keys == values - todo
      invariant forall value :: value in slices ==>
                  slices[value] == MetricsOf(MatrixOf(Slice(ids, group, value), truth, Labels(predictions)))
      decreases todo
    {
      var value :| value in todo;
      var metrics := SliceMetrics(ids, truth, predictions, group, value);
      slices := slices[value := metrics];
      todo := todo - {value};
    }
  }
}
