/** Bootstrap confidence intervals of src/evalops/pilot/full_analysis.py; the random draws are given. */
module Bootstrap {
  import opened Orders
  import opened Results
  import opened Confusion
  import opened Percentiles

  datatype BootstrapError = NoExamples | NoReplicates | BadConfidenceLevel | PopulationMismatch

  datatype MetricName = F1Score | BalancedAccuracy | RecallRate | FalsePositiveRate

  datatype Interval = Interval(estimate: real, lower: real, upper: real)

  function MetricValue(m: Metrics, name: MetricName): real {
    match name
    case F1Score => m.f1
    case BalancedAccuracy => m.balancedAccuracy
    case RecallRate => m.recall
    case FalsePositiveRate => m.falsePositiveRate
  }

  /** What a metric's name promises of its value, in counts. */
  ghost predicate IsMetric(value: real, m: ConfusionMatrix, name: MetricName) {
    match name
    case F1Score => Share(value, 2 * m.tp, 2 * m.tp + m.fp + m.fn)
    case RecallRate => Share(value, m.tp, m.tp + m.fn)
    case FalsePositiveRate => Share(value, m.fp, m.fp + m.tn)
    case BalancedAccuracy =>
      exists recall, specificity :: IsBalanced(value, m, recall, specificity)
  }

  predicate IsBalanced(value: real, m: ConfusionMatrix, recall: real, specificity: real) {
    && Share(recall, m.tp, m.tp + m.fn) && Share(specificity, m.tn, m.tn + m.fp)
    && value + value == recall + specificity
  }

  lemma MetricIsMetric(m: ConfusionMatrix, name: MetricName)
    ensures IsMetric(MetricValue(MetricsOf(m), name), m, name)
  {
    var r := MetricsOf(m);
    RatesAreCounts(m);
    hide MetricsOf, Share;
    assert IsBalanced(r.balancedAccuracy, m, r.recall, r.specificity);
  }

  // ----- occurrence-local IDs -----

  function Digit(d: nat): char
    requires d < 10
  {
    ['0', '1', '2', '3', '4', '5', '6', '7', '8', '9'][d]
  }

  /** A natural number in decimal, as an f-string renders it. */
  function Decimal(n: nat): (s: string)
    ensures s != [] && forall i :: 0 <= i < |s| ==> s[i] != '-'
  {
    if n < 10 then [Digit(n)] else Decimal(n / 10) + [Digit(n % 10)]
  }

  lemma {:induction false} DecimalDiffers(m: nat, n: nat)
    requires m != n
    ensures Decimal(m) != Decimal(n)
  {
    var s, t := Decimal(m), Decimal(n);
    assert s[|s| - 1] == Digit(m % 10) && t[|t| - 1] == Digit(n % 10);
    if m >= 10 && n >= 10 && m % 10 == n % 10 {
      DecimalDiffers(m / 10, n / 10);
      assert s[..|s| - 1] == Decimal(m / 10) && t[..|t| - 1] == Decimal(n / 10);
    } else if (m < 10) != (n < 10) {
      assert |s| != |t|;
    } else {
      assert s[|s| - 1] != t[|t| - 1];
    }
  }

  const MARK: string := "#bootstrap-"

  function SampleKey(id: string, index: nat): string {
    id + MARK + Decimal(index)
  }

  /** Occurrences get different keys, whatever the example IDs look like. */
  lemma SampleKeyDiffers(a: string, i: nat, b: string, j: nat)
    requires i != j
    ensures SampleKey(a, i) != SampleKey(b, j)
  {
    var di, dj := Decimal(i), Decimal(j);
    if |di| == |dj| {
      DecimalDiffers(i, j);
      assert SampleKey(a, i)[|a + MARK|..] == di;
      assert |SampleKey(a, i)| == |SampleKey(b, j)| ==> SampleKey(b, j)[|a + MARK|..] == dj;
    } else if |di| < |dj| {
      LongerSuffix(a, di, b, dj);
    } else {
      LongerSuffix(b, dj, a, di);
    }
  }

  /** The dash before the shorter number meets a digit of the longer one. */
  lemma LongerSuffix(a: string, di: string, b: string, dj: string)
    requires |di| < |dj| && forall k :: 0 <= k < |dj| ==> dj[k] != '-'
    ensures a + MARK + di != b + MARK + dj
  {
    var s, t := a + MARK + di, b + MARK + dj;
    var x := |a + MARK| - 1;
    assert s[x] == MARK[|MARK| - 1] == '-';
    if |s| == |t| {
      assert t[x] == dj[|dj| - |di| - 1];
    }
  }

  // ----- the metric of one sample -----

  function Verdicts(predictions: map<string, Prediction>): map<string, Label> {
    map id | id in predictions :: predictions[id].verdict
  }

  /** A sample with replacement is scored occurrence by occurrence. */
  function SampleMetric(sample: seq<string>, truth: map<string, Label>, predictions: map<string, Prediction>,
                        name: MetricName): real
    requires forall id :: id in sample ==> id in truth && id in predictions
  {
    MetricValue(MetricsOf(MatrixOf(sample, truth, Verdicts(predictions))), name)
  }

  lemma {:induction false} CellSizeAlong(
    a: seq<string>, truthA: map<string, Label>, predictedA: map<string, Label>,
    b: seq<string>, truthB: map<string, Label>, predictedB: map<string, Label>, actual: Label, guess: Label)
    requires |a| == |b|
    requires forall id :: id in a ==> id in truthA && id in predictedA
    requires forall id :: id in b ==> id in truthB && id in predictedB
    requires forall i :: 0 <= i < |a| ==> truthA[a[i]] == truthB[b[i]] && predictedA[a[i]] == predictedB[b[i]]
    ensures |Cell(a, truthA, predictedA, actual, guess)| == |Cell(b, truthB, predictedB, actual, guess)|
  {
    if a != [] {
      var n := |a| - 1;
      CellSizeAlong(a[..n], truthA, predictedA, b[..n], truthB, predictedB, actual, guess);
      assert truthA[a[n]] == truthB[b[n]] && predictedA[a[n]] == predictedB[b[n]];
    }
  }

  lemma MatrixAlong(
    a: seq<string>, truthA: map<string, Label>, predictedA: map<string, Label>,
    b: seq<string>, truthB: map<string, Label>, predictedB: map<string, Label>)
    requires |a| == |b|
    requires forall id :: id in a ==> id in truthA && id in predictedA
    requires forall id :: id in b ==> id in truthB && id in predictedB
    requires forall i :: 0 <= i < |a| ==> truthA[a[i]] == truthB[b[i]] && predictedA[a[i]] == predictedB[b[i]]
    ensures MatrixOf(a, truthA, predictedA) == MatrixOf(b, truthB, predictedB)
  {
    hide Cell;
    CellSizeAlong(a, truthA, predictedA, b, truthB, predictedB, Hallucinated, Hallucinated);
    CellSizeAlong(a, truthA, predictedA, b, truthB, predictedB, Grounded, Grounded);
    CellSizeAlong(a, truthA, predictedA, b, truthB, predictedB, Grounded, Hallucinated);
    CellSizeAlong(a, truthA, predictedA, b, truthB, predictedB, Hallucinated, Grounded);
  }

  function Keys(sample: seq<string>): (keys: seq<string>)
    ensures |keys| == |sample| && NoDuplicates(keys)
    ensures forall i :: 0 <= i < |sample| ==> keys[i] == SampleKey(sample[i], i)
  {
    var keys := seq(|sample|, i requires 0 <= i < |sample| => SampleKey(sample[i], i));
    assert NoDuplicates(keys) by {
      forall i, j | 0 <= i < j < |keys| ensures keys[i] != keys[j] {
        SampleKeyDiffers(sample[i], i, sample[j], j);
      }
    }
    keys
  }

  function Rekeyed(sample: seq<string>, predictions: map<string, Prediction>): seq<Prediction>
    requires forall id :: id in sample ==> id in predictions
  {
    seq(|sample|, i requires 0 <= i < |sample| => predictions[sample[i]].(exampleId := Keys(sample)[i]))
  }

  function RekeyedTruth(sample: seq<string>, truth: map<string, Label>): map<string, Label>
    requires forall id :: id in sample ==> id in truth
  {
    var keys := Keys(sample);
    map i | 0 <= i < |sample| :: keys[i] := truth[sample[i]]
  }

  lemma RekeyedTruthAgrees(sample: seq<string>, truth: map<string, Label>)
    requires forall id :: id in sample ==> id in truth
    ensures var keys, rekeyedTruth := Keys(sample), RekeyedTruth(sample, truth);
            && (forall key :: key in rekeyedTruth <==> key in keys)
            && (forall i :: 0 <= i < |sample| ==> rekeyedTruth[keys[i]] == truth[sample[i]])
  {
    hide Keys, SampleKey;
  }

  lemma RekeyedAgrees(sample: seq<string>, predictions: map<string, Prediction>)
    requires forall id :: id in sample ==> id in predictions
    ensures var keys, labels := Keys(sample), Labels(Rekeyed(sample, predictions));
            && DistinctIds(Rekeyed(sample, predictions))
            && (forall key :: key in labels <==> key in keys)
            && (forall i :: 0 <= i < |sample| ==> labels[keys[i]] == predictions[sample[i]].verdict)
  {
    var keys, rekeyed := Keys(sample), Rekeyed(sample, predictions);
    LabelsFound(rekeyed);
    hide Labels, Keys, SampleKey;
    forall i | 0 <= i < |sample|
      ensures keys[i] in Labels(rekeyed) && Labels(rekeyed)[keys[i]] == predictions[sample[i]].verdict
    {
      assert rekeyed[i].exampleId == keys[i];
    }
    forall key | key in Labels(rekeyed) ensures key in keys {
      var i :| 0 <= i < |rekeyed| && rekeyed[i].exampleId == key;
      assert key == keys[i];
    }
  }

  lemma RekeyedMatrix(sample: seq<string>, truth: map<string, Label>, predictions: map<string, Prediction>)
    requires forall id :: id in sample ==> id in truth && id in predictions
    ensures var keys, rekeyed, rekeyedTruth := Keys(sample), Rekeyed(sample, predictions), RekeyedTruth(sample, truth);
            && DistinctIds(rekeyed) && Labels(rekeyed).Keys == rekeyedTruth.Keys
            && (forall key :: key in keys <==> key in rekeyedTruth)
            && (forall key :: key in keys ==> key in Labels(rekeyed))
            && MatrixOf(keys, rekeyedTruth, Labels(rekeyed)) == MatrixOf(sample, truth, Verdicts(predictions))
  {
    RekeyedAgrees(sample, predictions);
    RekeyedTruthAgrees(sample, truth);
    hide Keys, Rekeyed, RekeyedTruth, Labels, SampleKey, MatrixOf, DistinctIds;
    var keys, labels, rekeyedTruth := Keys(sample), Labels(Rekeyed(sample, predictions)), RekeyedTruth(sample, truth);
    assert labels.Keys == rekeyedTruth.Keys;
    MatrixAlong(keys, rekeyedTruth, labels, sample, truth, Verdicts(predictions));
  }

  /** Occurrence-local keys let the metric layer, which refuses repeated IDs, score a sample with repeats. */
  method BootstrapMetric(sample: seq<string>, truth: map<string, Label>, predictions: map<string, Prediction>,
                         name: MetricName)
    returns (value: real)
    requires forall id :: id in sample ==> id in truth && id in predictions
    ensures value == SampleMetric(sample, truth, predictions, name)
    ensures IsMetric(value, MatrixOf(sample, truth, Verdicts(predictions)), name)
  {
    MetricIsMetric(MatrixOf(sample, truth, Verdicts(predictions)), name);
    RekeyedMatrix(sample, truth, predictions);
    hide Keys, Rekeyed, RekeyedTruth, Labels, MetricsOf, MatrixOf, Verdicts, MetricValue, DistinctIds, IsMetric;
    var report := BuildReport(Keys(sample), RekeyedTruth(sample, truth), Rekeyed(sample, predictions));
    value := MetricValue(report.value.metrics, name);
  }

  lemma SampleMetricBounds(sample: seq<string>, truth: map<string, Label>, predictions: map<string, Prediction>,
                           name: MetricName)
    requires forall id :: id in sample ==> id in truth && id in predictions
    ensures 0.0 <= SampleMetric(sample, truth, predictions, name) <= 1.0
  {
    hide MetricsOf, MatrixOf;
    MetricLaws(MatrixOf(sample, truth, Verdicts(predictions)));
  }

  // ----- the intervals -----

  datatype Study = Study(ids: seq<string>, truth: map<string, Label>, local: map<string, Prediction>,
                         hhem: map<string, Prediction>) {
    predicate Aligned() {
      && ids != []
      && forall id :: id in ids ==> id in truth && id in local && id in hhem
    }
  }

  predicate IsDraw(draw: seq<nat>, n: nat) {
    |draw| == n && forall i :: 0 <= i < n ==> draw[i] < n
  }

  function Sampled(ids: seq<string>, draw: seq<nat>): (sample: seq<string>)
    requires IsDraw(draw, |ids|)
    ensures |sample| == |draw| && forall i :: 0 <= i < |draw| ==> sample[i] == ids[draw[i]]
    ensures forall id :: id in sample ==> id in ids
  {
    seq(|draw|, i requires 0 <= i < |draw| => ids[draw[i]])
  }

  function LocalValue(s: Study, draw: seq<nat>, name: MetricName): real
    requires s.Aligned() && IsDraw(draw, |s.ids|)
  {
    SampleMetric(Sampled(s.ids, draw), s.truth, s.local, name)
  }

  function DeltaValue(s: Study, draw: seq<nat>, name: MetricName): real
    requires s.Aligned() && IsDraw(draw, |s.ids|)
  {
    LocalValue(s, draw, name) - SampleMetric(Sampled(s.ids, draw), s.truth, s.hhem, name)
  }

  /** One pair of metric values for every replicate. */
  method Replicate(s: Study, draws: seq<seq<nat>>, name: MetricName) returns (locals: seq<real>, deltas: seq<real>)
    requires s.Aligned() && forall r :: 0 <= r < |draws| ==> IsDraw(draws[r], |s.ids|)
    ensures |locals| == |deltas| == |draws|
    ensures forall r :: 0 <= r < |draws| ==> locals[r] == LocalValue(s, draws[r], name) && 0.0 <= locals[r] <= 1.0
    ensures forall r :: 0 <= r < |draws| ==> deltas[r] == DeltaValue(s, draws[r], name) && -1.0 <= deltas[r] <= 1.0
  {
    hide *;
    locals, deltas := [], [];
    for r := 0 to |draws|
      invariant |locals| == |deltas| == r
      invariant forall q :: 0 <= q < r ==> locals[q] == LocalValue(s, draws[q], name) && 0.0 <= locals[q] <= 1.0
      invariant forall q :: 0 <= q < r ==> deltas[q] == DeltaValue(s, draws[q], name) && -1.0 <= deltas[q] <= 1.0
    {
      var local, delta := ReplicateOnce(s, draws[r], name);
      locals := locals + [local];
      deltas := deltas + [delta];
    }
  }

  method ReplicateOnce(s: Study, draw: seq<nat>, name: MetricName) returns (local: real, delta: real)
    requires s.Aligned() && IsDraw(draw, |s.ids|)
    ensures local == LocalValue(s, draw, name) && 0.0 <= local <= 1.0
    ensures delta == DeltaValue(s, draw, name) && -1.0 <= delta <= 1.0
  {
    hide SampleMetric;
    var sample := Sampled(s.ids, draw);
    local := BootstrapMetric(sample, s.truth, s.local, name);
    var hhem := BootstrapMetric(sample, s.truth, s.hhem, name);
    SampleMetricBounds(sample, s.truth, s.local, name);
    SampleMetricBounds(sample, s.truth, s.hhem, name);
    delta := local - hhem;
  }

  /** The percentile interval: its bounds divide the order statistics of the replicates, and are ordered. */
  method IntervalOf(estimate: real, values: seq<real>, level: real, ghost low: real, ghost high: real)
    returns (r: Interval)
    requires values != [] && 0.0 < level < 1.0
    requires forall x :: x in values ==> low <= x <= high
    ensures r.estimate == estimate && IsInterval(r, values, level)
    ensures low <= r.lower <= r.upper <= high
  {
    var alpha := (1.0 - level) / 2.0;
    PercentileLaws(values, alpha, 1.0 - alpha, low, high);
    r := Interval(estimate, Percentile(values, alpha), Percentile(values, 1.0 - alpha));
    PercentileExactly(values, alpha, r.lower);
    PercentileExactly(values, 1.0 - alpha, r.upper);
    hide Percentile, IsPercentile;
  }

  predicate SamePopulation(s: Study) {
    s.truth.Keys == SetOf(s.ids) && s.local.Keys == SetOf(s.ids) && s.hhem.Keys == SetOf(s.ids)
  }

  ghost predicate IsInterval(r: Interval, values: seq<real>, level: real) {
    && 0.0 < level < 1.0
    && IsPercentile(values, (1.0 - level) / 2.0, r.lower)
    && IsPercentile(values, 1.0 - (1.0 - level) / 2.0, r.upper)
  }

  /** Both intervals are percentile intervals of the replicates, ordered and inside the range of the metric. */
  method BootstrapIntervals(s: Study, draws: seq<seq<nat>>, level: real, name: MetricName)
    returns (r: Result<(Interval, Interval), BootstrapError>, ghost locals: seq<real>, ghost deltas: seq<real>)
    requires forall q :: 0 <= q < |draws| ==> IsDraw(draws[q], |s.ids|)
    ensures r.Ok? <==> s.ids != [] && draws != [] && 0.0 < level < 1.0 && SamePopulation(s)
    ensures r.Ok? ==> s.Aligned() && |locals| == |deltas| == |draws|
    ensures r.Ok? ==> forall q :: 0 <= q < |draws| ==> locals[q] == LocalValue(s, draws[q], name)
    ensures r.Ok? ==> forall q :: 0 <= q < |draws| ==> deltas[q] == DeltaValue(s, draws[q], name)
    ensures r.Ok? ==> IsInterval(r.value.0, locals, level) && 0.0 <= r.value.0.lower <= r.value.0.upper <= 1.0
    ensures r.Ok? ==> IsInterval(r.value.1, deltas, level) && -1.0 <= r.value.1.lower <= r.value.1.upper <= 1.0
    ensures r.Ok? ==> r.value.0.estimate == SampleMetric(s.ids, s.truth, s.local, name)
    ensures r.Ok? ==> r.value.1.estimate == r.value.0.estimate - SampleMetric(s.ids, s.truth, s.hhem, name)
  {
    if s.ids == [] {
      return Err(NoExamples), [], [];
    }
    if draws == [] {
      return Err(NoReplicates), [], [];
    }
    if !(0.0 < level < 1.0) {
      return Err(BadConfidenceLevel), [], [];
    }
    if !SamePopulation(s) {
      return Err(PopulationMismatch), [], [];
    }
    SameIsAligned(s);
    hide *;
    var localValues, deltaValues := Replicate(s, draws, name);
    var local := BootstrapMetric(s.ids, s.truth, s.local, name);
    var hhem := BootstrapMetric(s.ids, s.truth, s.hhem, name);
    var localInterval := IntervalOf(local, localValues, level, 0.0, 1.0);
    var deltaInterval := IntervalOf(local - hhem, deltaValues, level, -1.0, 1.0);
    return Ok((localInterval, deltaInterval)), localValues, deltaValues;
  }

  lemma SameIsAligned(s: Study)
    requires s.ids != [] && SamePopulation(s)
    ensures s.Aligned()
    ensures forall id :: id in s.ids ==> id in s.truth && id in s.local && id in s.hhem
  {
    assert forall id :: id in s.ids ==> id in SetOf(s.ids);
  }
}
