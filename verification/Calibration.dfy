/** Ten-bin calibration error and Brier score, `_calibration` in src/evalops/pilot/full_analysis.py. */
module Calibration {
  import opened Arithmetic
  import opened Results
  import opened Confusion

  datatype CalibrationError = NoExamples

  datatype Bin = Bin(count: nat, meanPrediction: real, meanTarget: real, absoluteGap: real)

  datatype CalibrationReport = CalibrationReport(brier: real, ece: real, bins: seq<Bin>)

  const BINS: nat := 10

  function Abs(x: real): real { if x < 0.0 then -x else x }

  /** Fixed-width bins of [0, 1]; anything outside is clamped into the first or the last bin. */
  function BinIndex(p: real): (j: nat)
    ensures j < BINS
  {
    var raw := (p * 10.0).Floor;
    if raw < 0 then 0 else if raw > 9 then 9 else raw
  }

  // ----- what a bin holds after the first n examples -----

  function CountIn(values: seq<real>, n: nat, j: nat): nat
    requires n <= |values|
  {
    if n == 0 then 0 else CountIn(values, n - 1, j) + if BinIndex(values[n - 1]) == j then 1 else 0
  }

  /** The sum of xs over the examples whose value falls into bin j. */
  function SumIn(values: seq<real>, xs: seq<real>, n: nat, j: nat): real
    requires n <= |values| && n <= |xs|
  {
    if n == 0 then 0.0 else SumIn(values, xs, n - 1, j) + if BinIndex(values[n - 1]) == j then xs[n - 1] else 0.0
  }

  function FilledBin(values: seq<real>, targets: seq<real>, n: nat, j: nat): Bin
    requires n <= |values| && n <= |targets|
  {
    Bin(CountIn(values, n, j), SumIn(values, values, n, j), SumIn(values, targets, n, j), 0.0)
  }

  /** Sums become means, and the gap between them is taken; an empty bin stays as it is. */
  function Averaged(b: Bin): Bin {
    if b.count == 0 then b
    else
      var p, t := b.meanPrediction / b.count as real, b.meanTarget / b.count as real;
      Bin(b.count, p, t, Abs(p - t))
  }

  /** A bin's gap, weighted by its share of n examples. */
  function Weighted(b: Bin, n: nat): real
    requires n > 0
  {
    (b.count as real / n as real) * b.absoluteGap
  }

  function WeightedGaps(bins: seq<Bin>, n: nat): real
    requires n > 0
  {
    if bins == [] then 0.0
    else
      var last := bins[|bins| - 1];
      WeightedGaps(bins[..|bins| - 1], n) + Weighted(last, n)
  }

  function SquareSum(values: seq<real>, targets: seq<real>, n: nat): real
    requires n <= |values| && n <= |targets|
  {
    if n == 0 then 0.0
    else SquareSum(values, targets, n - 1) + (values[n - 1] - targets[n - 1]) * (values[n - 1] - targets[n - 1])
  }

  function Bins(values: seq<real>, targets: seq<real>): (bins: seq<Bin>)
    requires |values| == |targets|
    ensures |bins| == BINS && forall j :: 0 <= j < BINS ==> bins[j] == Averaged(FilledBin(values, targets, |values|, j))
  {
    seq(BINS, j requires 0 <= j < BINS => Averaged(FilledBin(values, targets, |values|, j)))
  }

  function ReportOf(values: seq<real>, targets: seq<real>): CalibrationReport
    requires |values| == |targets| > 0
  {
    var bins := Bins(values, targets);
    CalibrationReport(SquareSum(values, targets, |values|) / |values| as real, WeightedGaps(bins, |values|), bins)
  }

  /** First pass: every example lands in one bin and is added to its running sums, in place. */
  method FillBins(values: seq<real>, targets: seq<real>, bins: array<Bin>)
    requires |values| == |targets| && bins.Length == BINS
    requires forall j :: 0 <= j < BINS ==> bins[j] == Bin(0, 0.0, 0.0, 0.0)
    modifies bins
    ensures forall j :: 0 <= j < BINS ==> bins[j] == FilledBin(values, targets, |values|, j)
  {
    for i := 0 to |values|
      invariant forall j :: 0 <= j < BINS ==> bins[j] == FilledBin(values, targets, i, j)
    {
      var index := BinIndex(values[i]);
      var b := bins[index];
      bins[index] := Bin(b.count + 1, b.meanPrediction + values[i], b.meanTarget + targets[i], b.absoluteGap);
    }
  }

  /** Second pass: every bin is averaged in place. */
  method AverageBins(bins: array<Bin>)
    requires bins.Length == BINS
    modifies bins
    ensures forall j :: 0 <= j < BINS ==> bins[j] == Averaged(old(bins[j]))
  {
    for k := 0 to BINS
      invariant forall j :: 0 <= j < k ==> bins[j] == Averaged(old(bins[j]))
      invariant forall j :: k <= j < BINS ==> bins[j] == old(bins[j])
    {
      bins[k] := Averaged(bins[k]);
    }
  }

  method ExpectedError(bins: array<Bin>, n: nat) returns (ece: real)
    requires n > 0
    ensures ece == WeightedGaps(bins[..], n)
  {
    ece := 0.0;
    for j := 0 to bins.Length
      invariant ece == WeightedGaps(bins[..j], n)
    {
      assert bins[..j + 1][..j] == bins[..j];
      ece := ece + Weighted(bins[j], n);
    }
    assert bins[..bins.Length] == bins[..];
  }

  method Brier(values: seq<real>, targets: seq<real>) returns (score: real)
    requires |values| == |targets| > 0
    ensures score == SquareSum(values, targets, |values|) / |values| as real
  {
    var squares := 0.0;
    for i := 0 to |values|
      invariant squares == SquareSum(values, targets, i)
    {
      squares := squares + (values[i] - targets[i]) * (values[i] - targets[i]);
    }
    score := squares / |values| as real;
  }

  method Calibrate(values: seq<real>, targets: seq<real>) returns (r: Result<CalibrationReport, CalibrationError>)
    requires |values| == |targets|
    ensures r.Err? <==> values == []
    ensures r.Ok? ==> r.value == ReportOf(values, targets) && IsReport(r.value, values, targets)
  {
    if values == [] {
      return Err(NoExamples);
    }
    var bins := new Bin[BINS](_ => Bin(0, 0.0, 0.0, 0.0));
    FillBins(values, targets, bins);
    AverageBins(bins);
    var ece := ExpectedError(bins, |values|);
    var brier := Brier(values, targets);
    assert bins[..] == Bins(values, targets);
    ReportIsReport(values, targets);
    return Ok(CalibrationReport(brier, ece, bins[..]));
  }

  // ----- what a report says -----

  /** Bin j reaches from j / 10 up to (j + 1) / 10; the first also takes what is below, the last what is above. */
  predicate InBin(p: real, j: nat) {
    (j == 0 || j as real / 10.0 <= p) && (j == 9 || p < (j + 1) as real / 10.0)
  }

  /** The xs of the examples whose value lies in bin j. */
  function Members(values: seq<real>, xs: seq<real>, j: nat): seq<real>
    requires |values| == |xs|
  {
    if values == [] then []
    else
      var n := |values| - 1;
      Members(values[..n], xs[..n], j) + if InBin(values[n], j) then [xs[n]] else []
  }

  /** A bin counts its members and has the means of their values and of their targets, and the distance of the two. */
  ghost predicate IsBin(b: Bin, values: seq<real>, targets: seq<real>, j: nat)
    requires |values| == |targets|
  {
    && b.count == |Members(values, values, j)| == |Members(values, targets, j)|
    && IsMean(b.meanPrediction, Members(values, values, j))
    && IsMean(b.meanTarget, Members(values, targets, j))
    && (b.meanPrediction >= b.meanTarget ==> b.absoluteGap == b.meanPrediction - b.meanTarget)
    && (b.meanPrediction <= b.meanTarget ==> b.absoluteGap == b.meanTarget - b.meanPrediction)
  }

  /** A bin's gap, once for each of its members. */
  function GapOf(b: Bin): real { b.count as real * b.absoluteGap }

  function Gaps(bins: seq<Bin>): seq<real> {
    seq(|bins|, j requires 0 <= j < |bins| => GapOf(bins[j]))
  }

  /** The squared distance of each value from its target. */
  function Squares(values: seq<real>, targets: seq<real>): (squares: seq<real>)
    requires |values| == |targets|
    ensures |squares| == |values|
  {
    seq(|values|, i requires 0 <= i < |values| => (values[i] - targets[i]) * (values[i] - targets[i]))
  }

  /** ECE is the mean of the gaps, each counted for every member of its bin; the Brier score that of the squares. */
  ghost predicate IsReport(r: CalibrationReport, values: seq<real>, targets: seq<real>)
    requires |values| == |targets|
  {
    && |r.bins| == 10
    && (forall j :: 0 <= j < 10 ==> IsBin(r.bins[j], values, targets, j))
    && r.ece * |values| as real == Sum(Gaps(r.bins))
    && IsMean(r.brier, Squares(values, targets))
  }

  lemma BinIndexExactly(p: real, j: nat)
    requires j < BINS
    ensures BinIndex(p) == j <==> InBin(p, j)
  {
    var raw := (p * 10.0).Floor;
    assert raw as real <= p * 10.0 < raw as real + 1.0;
    assert j as real / 10.0 <= p <==> j as real <= p * 10.0;
    assert p < (j + 1) as real / 10.0 <==> p * 10.0 < j as real + 1.0;
  }

  lemma MembersNext(values: seq<real>, xs: seq<real>, n: nat, j: nat)
    requires |values| == |xs| && n < |values|
    ensures var before, after := Members(values[..n], xs[..n], j), Members(values[..n + 1], xs[..n + 1], j);
            && |after| == |before| + (if InBin(values[n], j) then 1 else 0)
            && Sum(after) == Sum(before) + if InBin(values[n], j) then xs[n] else 0.0
  {
    var before := Members(values[..n], xs[..n], j);
    assert values[..n + 1][..n] == values[..n] && xs[..n + 1][..n] == xs[..n];
    hide InBin;
    assert Members(values[..n + 1], xs[..n + 1], j) == before + if InBin(values[n], j) then [xs[n]] else [];
    hide Members;
    SumNext(before, xs[n]);
    assert before + [] == before;
  }

  lemma {:induction false} MembersCounted(values: seq<real>, xs: seq<real>, n: nat, j: nat)
    requires |values| == |xs| && n <= |values| && j < BINS
    ensures CountIn(values, n, j) == |Members(values[..n], xs[..n], j)|
    ensures SumIn(values, xs, n, j) == Sum(Members(values[..n], xs[..n], j))
  {
    if n == 0 {
      assert values[..0] == [] && Members(values[..0], xs[..0], j) == [];
    } else {
      hide InBin, BinIndex, Members;
      MembersCounted(values, xs, n - 1, j);
      BinIndexExactly(values[n - 1], j);
      MembersNext(values, xs, n - 1, j);
    }
  }

  lemma BinIsBin(values: seq<real>, targets: seq<real>, j: nat)
    requires |values| == |targets| && j < BINS
    ensures IsBin(Averaged(FilledBin(values, targets, |values|, j)), values, targets, j)
  {
    var n := |values|;
    MembersCounted(values, values, n, j);
    MembersCounted(values, targets, n, j);
    assert values[..n] == values && targets[..n] == targets;
    hide Members, Sum, IsMean, CountIn, SumIn, InBin;
    var b := Averaged(FilledBin(values, targets, n, j));
    EmptyBinSums(values, values, n, j);
    EmptyBinSums(values, targets, n, j);
    QuotientIsMean(Sum(Members(values, values, j)), Members(values, values, j), b.meanPrediction);
    QuotientIsMean(Sum(Members(values, targets, j)), Members(values, targets, j), b.meanTarget);
  }

  lemma WeightedTimes(b: Bin, n: nat)
    requires n > 0
    ensures Weighted(b, n) * n as real == GapOf(b)
  {
    Rescale(b.count as real, b.absoluteGap, n as real);
  }

  lemma Rescale(x: real, y: real, n: real)
    requires n != 0.0
    ensures x / n * y * n == x * y
  {
    Commute(x / n, y, n);
    Undivided(x, n);
  }

  lemma Commute(x: real, y: real, z: real)
    ensures x * y * z == x * z * y
  {
  }

  lemma {:induction false} WeightedGapsTimes(bins: seq<Bin>, n: nat)
    requires n > 0
    ensures WeightedGaps(bins, n) * n as real == Sum(Gaps(bins))
  {
    if bins != [] {
      var m := |bins| - 1;
      WeightedGapsTimes(bins[..m], n);
      WeightedTimes(bins[m], n);
      hide Weighted, GapOf, Sum;
      assert Gaps(bins) == Gaps(bins[..m]) + [GapOf(bins[m])];
      hide Gaps;
      SumNext(Gaps(bins[..m]), GapOf(bins[m]));
      Distribute(WeightedGaps(bins[..m], n), Weighted(bins[m], n), n as real);
    }
  }

  lemma Distribute(x: real, y: real, n: real)
    ensures (x + y) * n == x * n + y * n
  {
  }

  lemma {:induction false} SquaresAddUp(values: seq<real>, targets: seq<real>, n: nat)
    requires |values| == |targets| && n <= |values|
    ensures SquareSum(values, targets, n) == Sum(Squares(values, targets)[..n])
  {
    if n > 0 {
      SquaresAddUp(values, targets, n - 1);
      var squares := Squares(values, targets);
      assert squares[n - 1] == (values[n - 1] - targets[n - 1]) * (values[n - 1] - targets[n - 1]);
      assert squares[..n] == squares[..n - 1] + [squares[n - 1]];
      hide Squares;
      SumNext(squares[..n - 1], squares[n - 1]);
    }
  }

  lemma ReportedBins(values: seq<real>, targets: seq<real>)
    requires |values| == |targets| > 0
    ensures var bins := ReportOf(values, targets).bins;
            |bins| == 10 && forall j :: 0 <= j < 10 ==> IsBin(bins[j], values, targets, j)
  {
    hide IsBin, Averaged, FilledBin, WeightedGaps, SquareSum;
    forall j | 0 <= j < BINS ensures IsBin(Bins(values, targets)[j], values, targets, j) {
      BinIsBin(values, targets, j);
    }
  }

  lemma ReportedBrier(values: seq<real>, targets: seq<real>)
    requires |values| == |targets| > 0
    ensures IsMean(SquareSum(values, targets, |values|) / |values| as real, Squares(values, targets))
  {
    SquaresAddUp(values, targets, |values|);
    assert Squares(values, targets)[..|values|] == Squares(values, targets);
    hide Sum, SquareSum, IsMean, Squares;
    var total := SquareSum(values, targets, |values|);
    QuotientIsMean(total, Squares(values, targets), total / |values| as real);
  }

  lemma ReportIsReport(values: seq<real>, targets: seq<real>)
    requires |values| == |targets| > 0
    ensures IsReport(ReportOf(values, targets), values, targets)
  {
    hide Sum, IsBin, WeightedGaps, SquareSum, IsMean, Bins, Squares, Gaps;
    ReportedBins(values, targets);
    ReportedBrier(values, targets);
    WeightedGapsTimes(Bins(values, targets), |values|);
  }

  /** The mean of what a bin holds lies in that bin. */
  lemma MeanInBin(b: Bin, values: seq<real>, targets: seq<real>, j: nat)
    requires |values| == |targets| && IsBin(b, values, targets, j) && b.count > 0
    ensures InBin(b.meanPrediction, j)
  {
    var xs, mean := Members(values, values, j), b.meanPrediction;
    MembersInBin(values, j);
    MeanBounds(mean, xs, j as real / 10.0, (j + 1) as real / 10.0);
  }

  lemma {:induction false} MembersInBin(values: seq<real>, j: nat)
    ensures forall p :: p in Members(values, values, j) ==> InBin(p, j)
  {
    if values != [] {
      MembersInBin(values[..|values| - 1], j);
      hide InBin;
    }
  }

  // ----- the bins lose nothing -----

  function CountUpTo(values: seq<real>, n: nat, m: nat): nat
    requires n <= |values|
  {
    if m == 0 then 0 else CountUpTo(values, n, m - 1) + CountIn(values, n, m - 1)
  }

  lemma {:induction false} CountNext(values: seq<real>, n: nat, m: nat)
    requires n < |values|
    ensures CountUpTo(values, n + 1, m) == CountUpTo(values, n, m) + if BinIndex(values[n]) < m then 1 else 0
  {
    if m > 0 {
      CountNext(values, n, m - 1);
    }
  }

  lemma {:induction false} EmptyCount(values: seq<real>, m: nat)
    ensures CountUpTo(values, 0, m) == 0
  {
    if m > 0 {
      EmptyCount(values, m - 1);
    }
  }

  /** The bin counts add up to the number of examples. */
  lemma {:induction false} BinsCountEveryone(values: seq<real>, n: nat)
    requires n <= |values|
    ensures CountUpTo(values, n, BINS) == n
  {
    if n == 0 {
      EmptyCount(values, BINS);
    } else {
      BinsCountEveryone(values, n - 1);
      CountNext(values, n - 1, BINS);
    }
  }

  function TotalCount(bins: seq<Bin>): nat {
    if bins == [] then 0 else TotalCount(bins[..|bins| - 1]) + bins[|bins| - 1].count
  }

  lemma {:induction false} TotalCountUpTo(values: seq<real>, bins: seq<Bin>)
    requires forall j :: 0 <= j < |bins| ==> bins[j].count == CountIn(values, |values|, j)
    ensures TotalCount(bins) == CountUpTo(values, |values|, |bins|)
  {
    if bins != [] {
      TotalCountUpTo(values, bins[..|bins| - 1]);
    }
  }

  /** No example is lost: the reported counts add up to the sample size. */
  lemma ReportCountsEveryone(values: seq<real>, targets: seq<real>)
    requires |values| == |targets| > 0
    ensures TotalCount(ReportOf(values, targets).bins) == |values|
  {
    TotalCountUpTo(values, Bins(values, targets));
    BinsCountEveryone(values, |values|);
  }

  function Gap(values: seq<real>, targets: seq<real>, n: nat, j: nat): real
    requires n <= |values| && n <= |targets|
  {
    SumIn(values, values, n, j) - SumIn(values, targets, n, j)
  }

  /** Signed and absolute gaps of the first m bins, after n examples. */
  function GapUpTo(values: seq<real>, targets: seq<real>, n: nat, m: nat): real
    requires n <= |values| && n <= |targets|
  {
    if m == 0 then 0.0 else GapUpTo(values, targets, n, m - 1) + Gap(values, targets, n, m - 1)
  }

  function AbsGapUpTo(values: seq<real>, targets: seq<real>, n: nat, m: nat): real
    requires n <= |values| && n <= |targets|
  {
    if m == 0 then 0.0 else AbsGapUpTo(values, targets, n, m - 1) + Abs(Gap(values, targets, n, m - 1))
  }

  lemma {:induction false} GapNext(values: seq<real>, targets: seq<real>, n: nat, m: nat)
    requires n < |values| && n < |targets|
    ensures var x := if BinIndex(values[n]) < m then values[n] - targets[n] else 0.0;
            && GapUpTo(values, targets, n + 1, m) == GapUpTo(values, targets, n, m) + x
            && AbsGapUpTo(values, targets, n + 1, m) <= AbsGapUpTo(values, targets, n, m) + Abs(x)
  {
    if m > 0 {
      GapNext(values, targets, n, m - 1);
    }
  }

  lemma {:induction false} EmptyGap(values: seq<real>, targets: seq<real>, m: nat)
    ensures GapUpTo(values, targets, 0, m) == 0.0 && AbsGapUpTo(values, targets, 0, m) == 0.0
  {
    if m > 0 {
      EmptyGap(values, targets, m - 1);
    }
  }

  function AbsSum(values: seq<real>, targets: seq<real>, n: nat): real
    requires n <= |values| && n <= |targets|
  {
    if n == 0 then 0.0 else AbsSum(values, targets, n - 1) + Abs(values[n - 1] - targets[n - 1])
  }

  lemma {:induction false} GapTotals(values: seq<real>, targets: seq<real>, n: nat)
    requires n <= |values| && n <= |targets|
    ensures GapUpTo(values, targets, n, BINS) == Sum(values[..n]) - Sum(targets[..n])
    ensures AbsGapUpTo(values, targets, n, BINS) <= AbsSum(values, targets, n)
  {
    if n == 0 {
      EmptyGap(values, targets, BINS);
    } else {
      GapTotals(values, targets, n - 1);
      assert values[..n][..n - 1] == values[..n - 1] && targets[..n][..n - 1] == targets[..n - 1];
      GapNext(values, targets, n - 1, BINS);
    }
  }

  lemma {:induction false} Triangle(values: seq<real>, targets: seq<real>, n: nat, m: nat)
    requires n <= |values| && n <= |targets|
    ensures Abs(GapUpTo(values, targets, n, m)) <= AbsGapUpTo(values, targets, n, m)
  {
    if m > 0 {
      Triangle(values, targets, n, m - 1);
    }
  }

  predicate SquareWithin(a: real, n: real, q: real) { a * a <= n * q }

  /** Cauchy-Schwarz against the constant one: the square of the sum is at most n times the sum of squares. */
  lemma {:induction false} SquareOfSum(values: seq<real>, targets: seq<real>, n: nat)
    requires n <= |values| && n <= |targets|
    ensures AbsSum(values, targets, n) >= 0.0
    ensures SquareWithin(AbsSum(values, targets, n), n as real, SquareSum(values, targets, n))
  {
    if n > 0 {
      SquareOfSum(values, targets, n - 1);
      var x := Abs(values[n - 1] - targets[n - 1]);
      assert x * x == (values[n - 1] - targets[n - 1]) * (values[n - 1] - targets[n - 1]);
      if n > 1 {
        SquareStep(AbsSum(values, targets, n - 1), SquareSum(values, targets, n - 1), x, (n - 1) as real);
      } else {
        assert SquareSum(values, targets, 0) == 0.0 && AbsSum(values, targets, 0) == 0.0;
      }
    }
  }

  lemma SquareStep(s: real, q: real, x: real, n: real)
    requires n >= 1.0 && s * s <= n * q
    ensures (s + x) * (s + x) <= (n + 1.0) * (q + x * x)
  {
    var d := s - n * x;
    assert d * d >= 0.0;
    assert d * d == s * s - 2.0 * n * (s * x) + n * n * (x * x);
    assert n * (q + n * (x * x) - 2.0 * (s * x)) >= 0.0;
    assert q + n * (x * x) - 2.0 * (s * x) >= 0.0;
    assert (s + x) * (s + x) == s * s + 2.0 * (s * x) + x * x;
    assert (n + 1.0) * (q + x * x) == n * q + q + n * (x * x) + x * x;
  }

  // ----- the sandwich -----

  lemma {:induction false} EmptyBinSums(values: seq<real>, xs: seq<real>, n: nat, j: nat)
    requires n <= |values| && n <= |xs|
    ensures CountIn(values, n, j) == 0 ==> SumIn(values, xs, n, j) == 0.0
  {
    if n > 0 {
      EmptyBinSums(values, xs, n - 1, j);
    }
  }

  lemma Divided(x: real, y: real, n: real)
    requires n > 0.0
    ensures x / n + y / n == (x + y) / n && x / n - y / n == (x - y) / n
    ensures x <= y ==> x / n <= y / n
    ensures Abs(x / n) == Abs(x) / n
  {
    AbsDivided(x, n);
  }

  lemma AbsDivided(x: real, n: real)
    requires n > 0.0
    ensures Abs(x / n) == Abs(x) / n
  {
    var q := x / n;
    assert q * n == x;
    if x < 0.0 {
      assert q < 0.0;
      assert (-q) * n == -x;
    } else {
      assert q >= 0.0;
    }
  }

  lemma ShareOfMean(c: real, n: real, d: real)
    requires c > 0.0 && n > 0.0
    ensures (c / n) * (d / c) == d / n
  {
    assert (c / n) * (d / c) * n == d;
  }

  lemma WeightedGap(c: real, n: real, p: real, t: real)
    requires c > 0.0 && n > 0.0
    ensures (c / n) * Abs(p / c - t / c) == Abs(p - t) / n
  {
    Divided(p, t, c);
    AbsDivided(p - t, c);
    ShareOfMean(c, n, Abs(p - t));
  }

  /** A bin's share of the error is its absolute gap of sums, over n. */
  lemma BinShare(values: seq<real>, targets: seq<real>, j: nat)
    requires |values| == |targets| > 0
    ensures Weighted(Averaged(FilledBin(values, targets, |values|, j)), |values|)
            == Abs(Gap(values, targets, |values|, j)) / |values| as real
  {
    var n := |values|;
    EmptyBinSums(values, values, n, j);
    EmptyBinSums(values, targets, n, j);
    var count, p, t := CountIn(values, n, j), SumIn(values, values, n, j), SumIn(values, targets, n, j);
    if count > 0 {
      hide SumIn;
      WeightedGap(count as real, n as real, p, t);
    }
  }

  lemma {:induction false} GapsAddUp(values: seq<real>, targets: seq<real>, bins: seq<Bin>)
    requires |values| == |targets| > 0
    requires forall j :: 0 <= j < |bins| ==> bins[j] == Averaged(FilledBin(values, targets, |values|, j))
    ensures WeightedGaps(bins, |values|) == AbsGapUpTo(values, targets, |values|, |bins|) / |values| as real
  {
    if bins != [] {
      var n, j := |values|, |bins| - 1;
      hide Averaged, FilledBin, Gap, Weighted;
      GapsAddUp(values, targets, bins[..j]);
      BinShare(values, targets, j);
      Divided(AbsGapUpTo(values, targets, n, j), Abs(Gap(values, targets, n, j)), n as real);
    }
  }

  function Mean(xs: seq<real>): real
    requires xs != []
  {
    Sum(xs) / |xs| as real
  }

  function MeanAbsoluteError(values: seq<real>, targets: seq<real>): real
    requires |values| == |targets| > 0
  {
    AbsSum(values, targets, |values|) / |values| as real
  }

  lemma GapBounds(values: seq<real>, targets: seq<real>)
    requires |values| == |targets| > 0
    ensures var g := AbsGapUpTo(values, targets, |values|, BINS) / |values| as real;
            Abs(Mean(values) - Mean(targets)) <= g <= MeanAbsoluteError(values, targets)
  {
    var n := |values|;
    GapTotals(values, targets, n);
    Triangle(values, targets, n, BINS);
    hide AbsSum, Sum, AbsGapUpTo, GapUpTo, Abs;
    assert values[..n] == values && targets[..n] == targets;
    Divided(Sum(values), Sum(targets), n as real);
    ScaledBounds(Sum(values) - Sum(targets), AbsGapUpTo(values, targets, n, BINS), AbsSum(values, targets, n),
                 n as real);
  }

  lemma GapSquare(values: seq<real>, targets: seq<real>)
    requires |values| == |targets| > 0
    ensures var g := AbsGapUpTo(values, targets, |values|, BINS) / |values| as real;
            g * g <= SquareSum(values, targets, |values|) / |values| as real
  {
    var n := |values|;
    GapTotals(values, targets, n);
    Triangle(values, targets, n, BINS);
    SquareOfSum(values, targets, n);
    var g, a, q := AbsGapUpTo(values, targets, n, BINS), AbsSum(values, targets, n), SquareSum(values, targets, n);
    hide *;
    assert 0.0 <= g by { Triangle(values, targets, n, BINS); AbsNonNegative(GapUpTo(values, targets, n, BINS)); }
    ScaledSquare(g, a, q, n as real);
  }

  lemma AbsNonNegative(x: real)
    ensures Abs(x) >= 0.0
  {
  }

  /** Calibration in the large <= ECE <= mean absolute error, and ECE squared <= Brier score. */
  lemma CalibrationSandwich(values: seq<real>, targets: seq<real>)
    requires |values| == |targets| > 0
    ensures var r := ReportOf(values, targets);
            && Abs(Mean(values) - Mean(targets)) <= r.ece <= MeanAbsoluteError(values, targets)
            && r.ece * r.ece <= r.brier
  {
    var r := ReportOf(values, targets);
    hide Bins, WeightedGaps, Averaged, FilledBin, SquareSum, AbsGapUpTo, Mean, MeanAbsoluteError;
    GapsAddUp(values, targets, r.bins);
    GapBounds(values, targets);
    GapSquare(values, targets);
  }

  lemma ScaledBounds(d: real, g: real, a: real, n: real)
    requires n > 0.0 && Abs(d) <= g <= a
    ensures Abs(d / n) <= g / n <= a / n
  {
    Divided(d, d, n);
    Divided(Abs(d), g, n);
    Divided(g, a, n);
  }

  lemma ScaledSquare(g: real, a: real, q: real, n: real)
    requires n > 0.0 && 0.0 <= g <= a && SquareWithin(a, n, q)
    ensures (g / n) * (g / n) <= q / n
  {
    var gg := SquareOfQuotient(g, n);
    var aa := SquareGrows(g, a, gg);
    DivideTwice(gg, aa, q, n);
  }

  lemma SquareOfQuotient(g: real, n: real) returns (gg: real)
    requires n > 0.0
    ensures gg == g * g && (g / n) * (g / n) == gg / n / n
  {
    gg := g * g;
    var u := g / n;
    assert u * n == g;
    Factor(u, g, n);
    assert gg / n == u * g;
    Factor(u, u, n);
    assert u * g / n == u * u;
  }

  lemma Factor(u: real, x: real, n: real)
    requires n != 0.0
    ensures ((u * n) * x) / n == u * x && (u * (x * n)) / n == u * x
  {
    assert (u * n) * x == (u * x) * n && u * (x * n) == (u * x) * n;
    Whole(u * x, n);
  }

  lemma Whole(x: real, n: real)
    requires n != 0.0
    ensures (x * n) / n == x
  {
  }

  lemma SquareGrows(g: real, a: real, gg: real) returns (aa: real)
    requires 0.0 <= g <= a && gg == g * g
    ensures aa == a * a && gg <= aa
  {
    aa := a * a;
  }

  lemma DivideTwice(gg: real, aa: real, q: real, n: real)
    requires n > 0.0 && gg <= aa && aa <= n * q
    ensures gg / n / n <= q / n
  {
    Divided(gg, n * q, n);
    assert n * q / n == q;
    Divided(gg / n, q, n);
  }

  // ----- the two reports of the source -----

  datatype Confidence = Absent | Present(values: map<string, real>)

  function Targets(ids: seq<string>, truth: map<string, Label>): seq<real>
    requires forall id :: id in ids ==> id in truth
  {
    seq(|ids|, i requires 0 <= i < |ids| => if truth[ids[i]] == Hallucinated then 1.0 else 0.0)
  }

  function Correctness(ids: seq<string>, truth: map<string, Label>, predicted: map<string, Label>): seq<real>
    requires forall id :: id in ids ==> id in truth && id in predicted
  {
    seq(|ids|, i requires 0 <= i < |ids| => if predicted[ids[i]] == truth[ids[i]] then 1.0 else 0.0)
  }

  function Along(ids: seq<string>, xs: map<string, real>): seq<real>
    requires forall id :: id in ids ==> id in xs
  {
    seq(|ids|, i requires 0 <= i < |ids| => xs[ids[i]])
  }

  /** The first n examples whose value lies in bin j and whose flag is set. */
  function Flagged(values: seq<real>, flags: seq<bool>, n: nat, j: nat): set<nat>
    requires n <= |values| == |flags|
  {
    set i | 0 <= i < n && InBin(values[i], j) && flags[i]
  }

  lemma {:induction false} FlaggedSum(values: seq<real>, xs: seq<real>, flags: seq<bool>, n: nat, j: nat)
    requires n <= |values| == |xs| == |flags|
    requires forall i :: 0 <= i < |xs| ==> xs[i] == if flags[i] then 1.0 else 0.0
    ensures Sum(Members(values[..n], xs[..n], j)) == |Flagged(values, flags, n, j)| as real
  {
    if n == 0 {
      assert values[..0] == [] && Flagged(values, flags, 0, j) == {};
    } else {
      hide Members, InBin, Flagged, Sum;
      FlaggedSum(values, xs, flags, n - 1, j);
      MembersNext(values, xs, n - 1, j);
      FlaggedNext(values, flags, n - 1, j);
    }
  }

  lemma FlaggedNext(values: seq<real>, flags: seq<bool>, n: nat, j: nat)
    requires n < |values| == |flags|
    ensures |Flagged(values, flags, n + 1, j)|
         == |Flagged(values, flags, n, j)| + if InBin(values[n], j) && flags[n] then 1 else 0
  {
    hide InBin;
    assert Flagged(values, flags, n + 1, j)
        == Flagged(values, flags, n, j) + if InBin(values[n], j) && flags[n] then {n} else {};
  }

  /** The targets of a bin add up to this number. */
  predicate Holds(b: Bin, n: nat) { b.meanTarget * b.count as real == n as real }

  /** The target mean of a bin, once for each member, is the number of its members whose flag is set. */
  lemma TargetsCount(b: Bin, values: seq<real>, xs: seq<real>, flags: seq<bool>, j: nat)
    requires |values| == |xs| == |flags| && IsBin(b, values, xs, j)
    requires forall i :: 0 <= i < |xs| ==> xs[i] == if flags[i] then 1.0 else 0.0
    ensures Holds(b, |Flagged(values, flags, |values|, j)|)
  {
    FlaggedSum(values, xs, flags, |values|, j);
    assert values[..|values|] == values && xs[..|values|] == xs;
    hide Members, Flagged, InBin, Sum, Holds, IsMean;
    MeanHolds(b, Members(values, xs, j), |Flagged(values, flags, |values|, j)|);
  }

  lemma MeanHolds(b: Bin, xs: seq<real>, n: nat)
    requires IsMean(b.meanTarget, xs) && b.count == |xs| && Sum(xs) == n as real
    ensures Holds(b, n)
  {
    hide Sum;
  }

  function HallucinatedIn(ids: seq<string>, truth: map<string, Label>, scores: map<string, real>, j: nat): set<nat>
    requires forall id :: id in ids ==> id in truth && id in scores
  {
    set i | 0 <= i < |ids| && InBin(scores[ids[i]], j) && truth[ids[i]] == Hallucinated
  }

  function RightIn(ids: seq<string>, truth: map<string, Label>, predicted: map<string, Label>,
                   confidence: map<string, real>, j: nat): set<nat>
    requires forall id :: id in ids ==> id in truth && id in predicted && id in confidence
  {
    set i | 0 <= i < |ids| && InBin(confidence[ids[i]], j) && predicted[ids[i]] == truth[ids[i]]
  }

  lemma HallucinatedCounted(r: CalibrationReport, ids: seq<string>, truth: map<string, Label>,
                            scores: map<string, real>, j: nat)
    requires forall id :: id in ids ==> id in truth && id in scores
    requires IsReport(r, Along(ids, scores), Targets(ids, truth)) && j < 10
    ensures Holds(r.bins[j], |HallucinatedIn(ids, truth, scores, j)|)
  {
    var flags := seq(|ids|, i requires 0 <= i < |ids| => truth[ids[i]] == Hallucinated);
    assert IsBin(r.bins[j], Along(ids, scores), Targets(ids, truth), j);
    hide IsReport, IsBin, Holds, InBin, Gaps, Squares, IsMean;
    TargetsCount(r.bins[j], Along(ids, scores), Targets(ids, truth), flags, j);
    assert Flagged(Along(ids, scores), flags, |ids|, j) == HallucinatedIn(ids, truth, scores, j);
  }

  lemma RightCounted(r: CalibrationReport, ids: seq<string>, truth: map<string, Label>, predicted: map<string, Label>,
                     confidence: map<string, real>, j: nat)
    requires forall id :: id in ids ==> id in truth && id in predicted && id in confidence
    requires IsReport(r, Along(ids, confidence), Correctness(ids, truth, predicted)) && j < 10
    ensures Holds(r.bins[j], |RightIn(ids, truth, predicted, confidence, j)|)
  {
    var flags := seq(|ids|, i requires 0 <= i < |ids| => predicted[ids[i]] == truth[ids[i]]);
    assert IsBin(r.bins[j], Along(ids, confidence), Correctness(ids, truth, predicted), j);
    hide IsReport, IsBin, Holds, InBin, Gaps, Squares, IsMean;
    TargetsCount(r.bins[j], Along(ids, confidence), Correctness(ids, truth, predicted), flags, j);
    assert Flagged(Along(ids, confidence), flags, |ids|, j) == RightIn(ids, truth, predicted, confidence, j);
  }

  /** Scores are calibrated against hallucination; stated confidence against being right. Both obey the sandwich. */
  method CalibrateRun(ids: seq<string>, truth: map<string, Label>, predicted: map<string, Label>,
                      scores: map<string, real>, confidence: Confidence)
    returns (probability: Result<CalibrationReport, CalibrationError>,
             decision: Result<CalibrationReport, CalibrationError>)
    requires forall id :: id in ids ==> id in truth && id in predicted && id in scores
    requires confidence.Present? ==> forall id :: id in ids ==> id in confidence.values
    ensures probability.Ok? <==> ids != []
    ensures decision.Ok? <==> ids != [] && confidence.Present?
    ensures probability.Ok? ==>
              && IsReport(probability.value, Along(ids, scores), Targets(ids, truth))
              && (forall j :: 0 <= j < 10 ==>
                    Holds(probability.value.bins[j], |HallucinatedIn(ids, truth, scores, j)|))
              && Abs(Mean(Along(ids, scores)) - Mean(Targets(ids, truth))) <= probability.value.ece
              && probability.value.ece <= MeanAbsoluteError(Along(ids, scores), Targets(ids, truth))
              && probability.value.ece * probability.value.ece <= probability.value.brier
    ensures decision.Ok? ==>
              && IsReport(decision.value, Along(ids, confidence.values), Correctness(ids, truth, predicted))
              && (forall j :: 0 <= j < 10 ==>
                    Holds(decision.value.bins[j], |RightIn(ids, truth, predicted, confidence.values, j)|))
              && Abs(Mean(Along(ids, confidence.values)) - Mean(Correctness(ids, truth, predicted)))
                 <= decision.value.ece
              && decision.value.ece
                 <= MeanAbsoluteError(Along(ids, confidence.values), Correctness(ids, truth, predicted))
              && decision.value.ece * decision.value.ece <= decision.value.brier
  {
    hide ReportOf, Mean, MeanAbsoluteError, HallucinatedIn, RightIn, Holds, IsBin, Gaps, Squares, IsMean;
    probability := Calibrate(Along(ids, scores), Targets(ids, truth));
    if probability.Ok? {
      forall j | 0 <= j < 10
        ensures Holds(probability.value.bins[j], |HallucinatedIn(ids, truth, scores, j)|)
      {
        HallucinatedCounted(probability.value, ids, truth, scores, j);
      }
      CalibrationSandwich(Along(ids, scores), Targets(ids, truth));
    }
    decision := Err(NoExamples);
    if confidence.Present? {
      decision := Calibrate(Along(ids, confidence.values), Correctness(ids, truth, predicted));
      if decision.Ok? {
        forall j | 0 <= j < 10
          ensures Holds(decision.value.bins[j], |RightIn(ids, truth, predicted, confidence.values, j)|)
        {
          RightCounted(decision.value, ids, truth, predicted, confidence.values, j);
        }
        CalibrationSandwich(Along(ids, confidence.values), Correctness(ids, truth, predicted));
      }
    }
  }
}
