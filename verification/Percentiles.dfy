/** Interpolated percentiles of src/evalops/pilot/full_analysis.py. */
module Percentiles {
  import opened Orders

  function Floor(x: real): int { x.Floor }

  function Ceiling(x: real): int { if x.Floor as real == x then x.Floor else x.Floor + 1 }

  /** Linear interpolation between neighbouring order statistics. */
  function Interpolate(ordered: seq<real>, position: real): real
    requires ordered != [] && 0.0 <= position <= (|ordered| - 1) as real
  {
    var lower, upper := Floor(position), Ceiling(position);
    if lower == upper then ordered[lower]
    else ordered[lower] + (position - lower as real) * (ordered[upper] - ordered[lower])
  }

  /** Where a probability falls among the ranks 0 .. n - 1. */
  function Position(probability: real, n: nat): real
    requires n > 0
  {
    probability * (n - 1) as real
  }

  lemma PositionInRange(p: real, n: nat)
    requires 0.0 <= p <= 1.0 && n > 0
    ensures 0.0 <= Position(p, n) <= (n - 1) as real
  {
    ProductMonotone(0.0, p, (n - 1) as real);
    ProductMonotone(p, 1.0, (n - 1) as real);
  }

  lemma ProductMonotone(x: real, y: real, z: real)
    requires x <= y && z >= 0.0
    ensures x * z <= y * z
  {
    assert (y - x) * z >= 0.0;
    assert (y - x) * z == y * z - x * z;
  }

  lemma PositionMonotone(p: real, q: real, n: nat)
    requires p <= q && n > 0
    ensures Position(p, n) <= Position(q, n)
  {
    ProductMonotone(p, q, (n - 1) as real);
  }

  /** The value at that position of the sorted list; nothing at all has percentile 0. */
  function Percentile(values: seq<real>, probability: real): real
    requires 0.0 <= probability <= 1.0
  {
    if values == [] then 0.0
    else
      PositionInRange(probability, |values|);
      Interpolate(Sort(RealLe, values), Position(probability, |values|))
  }

  /** The order in which the values were collected does not matter. */
  lemma PercentilePermutation(a: seq<real>, b: seq<real>, probability: real)
    requires 0.0 <= probability <= 1.0 && multiset(a) == multiset(b)
    ensures Percentile(a, probability) == Percentile(b, probability)
  {
    hide Interpolate, Position;
    assert |a| == |multiset(a)| == |multiset(b)| == |b|;
    SortPermutation(RealLe, a, b);
  }

  lemma Blend(a: real, b: real, f: real)
    requires a <= b && 0.0 <= f <= 1.0
    ensures a <= a + f * (b - a) <= b
  {
    ProductMonotone(0.0, f, b - a);
    ProductMonotone(f, 1.0, b - a);
  }

  lemma BlendMonotone(a: real, b: real, f: real, g: real)
    requires a <= b && f <= g
    ensures a + f * (b - a) <= a + g * (b - a)
  {
    ProductMonotone(f, g, b - a);
  }

  lemma InterpolateBetween(ordered: seq<real>, position: real)
    requires ordered != [] && SortedBy(RealLe, ordered)
    requires 0.0 <= position <= (|ordered| - 1) as real
    ensures 0 <= Floor(position) <= Ceiling(position) < |ordered|
    ensures ordered[Floor(position)] <= Interpolate(ordered, position) <= ordered[Ceiling(position)]
  {
    var lower, upper := Floor(position), Ceiling(position);
    if lower != upper {
      assert RealLe(ordered[lower], ordered[upper]);
      Blend(ordered[lower], ordered[upper], position - lower as real);
    }
  }

  lemma InterpolateMonotone(ordered: seq<real>, p: real, q: real)
    requires ordered != [] && SortedBy(RealLe, ordered)
    requires 0.0 <= p <= q <= (|ordered| - 1) as real
    ensures Interpolate(ordered, p) <= Interpolate(ordered, q)
  {
    InterpolateBetween(ordered, p);
    InterpolateBetween(ordered, q);
    var lower := Floor(p);
    if lower == Floor(q) {
      if Ceiling(q) != lower && Ceiling(p) != lower {
        assert RealLe(ordered[lower], ordered[Ceiling(q)]);
        BlendMonotone(ordered[lower], ordered[Ceiling(q)], p - lower as real, q - lower as real);
      }
    } else {
      assert Ceiling(p) <= Floor(q);
      assert Ceiling(p) == Floor(q) || RealLe(ordered[Ceiling(p)], ordered[Floor(q)]);
    }
  }

  /** A percentile lies between any bounds of its values and never falls as the probability rises. */
  lemma PercentileLaws(values: seq<real>, p: real, q: real, low: real, high: real)
    requires values != [] && 0.0 <= p <= q <= 1.0
    requires forall x :: x in values ==> low <= x <= high
    ensures low <= Percentile(values, p) <= Percentile(values, q) <= high
  {
    hide Interpolate, Position, Floor, Ceiling;
    var ordered, n := Sort(RealLe, values), |values|;
    SortCorrect(RealLe, values);
    SortMembers(RealLe, values);
    PositionInRange(p, n);
    PositionInRange(q, n);
    PositionMonotone(p, q, n);
    InterpolateBetween(ordered, Position(p, n));
    InterpolateBetween(ordered, Position(q, n));
    InterpolateMonotone(ordered, Position(p, n), Position(q, n));
    assert ordered[Floor(Position(p, n))] in ordered;
    assert ordered[Ceiling(Position(q, n))] in ordered;
  }

  /** At the ends of [0, 1] a percentile is the least or the greatest value itself. */
  lemma PercentileExtremes(values: seq<real>)
    requires values != []
    ensures Percentile(values, 0.0) in values && Percentile(values, 1.0) in values
    ensures forall x :: x in values ==> Percentile(values, 0.0) <= x <= Percentile(values, 1.0)
  {
    var ordered := Sort(RealLe, values);
    SortCorrect(RealLe, values);
    SortMembers(RealLe, values);
    var n := |values|;
    assert Position(0.0, n) == 0.0 && Position(1.0, n) == (n - 1) as real;
    assert Percentile(values, 0.0) == ordered[0] && Percentile(values, 1.0) == ordered[n - 1];
    assert ordered[0] in ordered && ordered[n - 1] in ordered;
    forall x | x in values ensures ordered[0] <= x <= ordered[n - 1] {
      assert x in ordered;
      var i :| 0 <= i < n && ordered[i] == x;
      assert i == 0 || RealLe(ordered[0], ordered[i]);
      assert i == n - 1 || RealLe(ordered[i], ordered[n - 1]);
    }
  }

  // ----- what a percentile is, counted from the values -----

  function Counted(p: real -> bool, s: seq<real>): nat {
    if s == [] then 0 else Counted(p, s[1..]) + if p(s[0]) then 1 else 0
  }

  /** x is a value that at most i values are smaller than, and at most n - 1 - i larger. */
  predicate IsOrderStatistic(values: seq<real>, i: nat, x: real) {
    && x in values
    && Counted(v => v < x, values) <= i
    && Counted(v => v > x, values) + i < |values|
  }

  /** Between two neighbouring order statistics, x is as far along as the position is between their ranks. */
  predicate Divides(values: seq<real>, i: nat, low: real, high: real, position: real, x: real) {
    && i < |values| && i as real <= position <= (i + 1) as real
    && IsOrderStatistic(values, i, low)
    && IsOrderStatistic(values, if i + 1 < |values| then i + 1 else i, high)
    && x == low + (position - i as real) * (high - low)
  }

  ghost predicate IsAtPosition(values: seq<real>, position: real, x: real) {
    exists i: nat, low: real, high: real :: Divides(values, i, low, high, position, x)
  }

  /** The ranks 0 .. n - 1 are spread evenly over the probabilities from 0 to 1. */
  ghost predicate IsPercentile(values: seq<real>, p: real, x: real) {
    IsAtPosition(values, p * (|values| - 1) as real, x)
  }

  lemma {:induction false} CountedSplits(p: real -> bool, a: seq<real>, b: seq<real>)
    ensures Counted(p, a + b) == Counted(p, a) + Counted(p, b)
  {
    if a == [] {
      assert a + b == b;
    } else {
      assert (a + b)[1..] == a[1..] + b;
      CountedSplits(p, a[1..], b);
    }
  }

  lemma {:induction false} CountedBounds(p: real -> bool, s: seq<real>)
    ensures Counted(p, s) <= |s|
    ensures (forall x :: x in s ==> !p(x)) ==> Counted(p, s) == 0
  {
    if s != [] {
      var rest := s[1..];
      CountedBounds(p, rest);
      if forall x :: x in s ==> !p(x) {
        assert s[0] in s;
        forall x | x in rest ensures !p(x) {
          assert x in s;
        }
      }
    }
  }

  lemma {:induction false} InsertCounted(p: real -> bool, x: real, s: seq<real>)
    ensures Counted(p, Insert(RealLe, x, s)) == Counted(p, s) + if p(x) then 1 else 0
  {
    if s == [] || RealLe(x, s[0]) {
      assert ([x] + s)[1..] == s;
    } else {
      InsertCounted(p, x, s[1..]);
      assert ([s[0]] + Insert(RealLe, x, s[1..]))[1..] == Insert(RealLe, x, s[1..]);
    }
  }

  lemma {:induction false} SortCounted(p: real -> bool, s: seq<real>)
    ensures Counted(p, Sort(RealLe, s)) == Counted(p, s)
  {
    if s != [] {
      SortCounted(p, s[1..]);
      InsertCounted(p, s[0], Sort(RealLe, s[1..]));
    }
  }

  lemma AroundSorted(ordered: seq<real>, i: nat)
    requires SortedBy(RealLe, ordered) && i < |ordered|
    ensures ordered == ordered[..i] + [ordered[i]] + ordered[i + 1..]
    ensures var front, back := ordered[..i], ordered[i + 1..];
            (forall y :: y in front ==> y <= ordered[i]) && (forall y :: y in back ==> ordered[i] <= y)
  {
    var front, back := ordered[..i], ordered[i + 1..];
    forall y | y in front ensures y <= ordered[i] {
      var j :| 0 <= j < |front| && front[j] == y;
      assert RealLe(ordered[j], ordered[i]);
    }
    forall y | y in back ensures ordered[i] <= y {
      var j :| 0 <= j < |back| && back[j] == y;
      assert RealLe(ordered[i], ordered[i + 1 + j]);
    }
  }

  /** Each place of the sorted list holds an order statistic. */
  lemma SortedStatistic(values: seq<real>, i: nat)
    requires i < |values|
    ensures IsOrderStatistic(values, i, Sort(RealLe, values)[i])
  {
    var ordered := Sort(RealLe, values);
    var x, front, back := ordered[i], ordered[..i], ordered[i + 1..];
    SortCorrect(RealLe, values);
    SortMembers(RealLe, values);
    hide Sort, SortedBy, Counted, TotalOrder;
    AroundSorted(ordered, i);
    SortCounted(v => v < x, values);
    SortCounted(v => v > x, values);
    SplitAround(v => v < x, front, x, back);
    SplitAround(v => v > x, front, x, back);
  }

  lemma SplitAround(p: real -> bool, front: seq<real>, x: real, back: seq<real>)
    requires !p(x)
    ensures (forall y :: y in back ==> !p(y)) ==> Counted(p, front + [x] + back) <= |front|
    ensures (forall y :: y in front ==> !p(y)) ==> Counted(p, front + [x] + back) <= |back|
  {
    CountedSplits(p, front + [x], back);
    CountedSplits(p, front, [x]);
    CountedBounds(p, front);
    CountedBounds(p, back);
    assert Counted(p, [x]) == Counted(p, []) == 0;
  }

  lemma {:induction false} CountedCovers(p: real -> bool, q: real -> bool, s: seq<real>)
    requires forall i :: 0 <= i < |s| ==> p(s[i]) || q(s[i])
    ensures Counted(p, s) + Counted(q, s) >= |s|
  {
    if s != [] {
      CountedCovers(p, q, s[1..]);
      assert p(s[0]) || q(s[0]);
    }
  }

  /** There is only one of each rank. */
  lemma StatisticUnique(values: seq<real>, i: nat, x: real, y: real)
    requires IsOrderStatistic(values, i, x) && IsOrderStatistic(values, i, y)
    ensures x == y
  {
    if x < y {
      CountedCovers(v => v < y, v => v > x, values);
    } else if y < x {
      CountedCovers(v => v < x, v => v > y, values);
    }
  }

  lemma WholePart(position: real, n: nat) returns (i: nat)
    requires n > 0 && 0.0 <= position <= (n - 1) as real
    ensures i < n && i as real <= position <= (i + 1) as real
    ensures i == Floor(position) && (i + 1 < n || position == i as real)
    ensures Ceiling(position) == if position == i as real then i else i + 1
  {
    i := Floor(position);
  }

  lemma FloorWithin(position: real, i: nat)
    requires i as real <= position <= (i + 1) as real
    ensures position == (i + 1) as real ==> Floor(position) == Ceiling(position) == i + 1
    ensures position == i as real ==> Floor(position) == Ceiling(position) == i
    ensures i as real < position < (i + 1) as real ==> Floor(position) == i && Ceiling(position) == i + 1
  {
  }

  function Next(i: nat, n: nat): (next: nat)
    ensures i < n ==> next < n
  {
    if i + 1 < n then i + 1 else i
  }

  function Blended(low: real, high: real, fraction: real): real { low + fraction * (high - low) }

  lemma BlendEnds(low: real, high: real)
    ensures Blended(low, high, 0.0) == low && Blended(low, high, 1.0) == high
  {
  }

  lemma InterpolateBlends(ordered: seq<real>, position: real, i: nat)
    requires i < |ordered| && 0.0 <= position <= (|ordered| - 1) as real
    requires i as real <= position <= (i + 1) as real
    ensures Interpolate(ordered, position)
         == Blended(ordered[i], ordered[Next(i, |ordered|)], position - i as real)
  {
    FloorWithin(position, i);
    BlendEnds(ordered[i], ordered[Next(i, |ordered|)]);
    hide Floor, Ceiling;
  }

  lemma DividesBlends(values: seq<real>, i: nat, low: real, high: real, position: real, x: real)
    ensures Divides(values, i, low, high, position, x) <==>
            && i < |values| && i as real <= position <= (i + 1) as real
            && IsOrderStatistic(values, i, low) && IsOrderStatistic(values, Next(i, |values|), high)
            && x == Blended(low, high, position - i as real)
  {
    hide IsOrderStatistic;
  }

  /** The interpolated value is at its position, */
  lemma InterpolatedIsAt(values: seq<real>, position: real)
    requires values != [] && 0.0 <= position <= (|values| - 1) as real
    ensures IsAtPosition(values, position, Interpolate(Sort(RealLe, values), position))
  {
    var n, ordered := |values|, Sort(RealLe, values);
    var i := WholePart(position, n);
    SortedStatistic(values, i);
    SortedStatistic(values, Next(i, n));
    hide IsOrderStatistic, Floor, Ceiling, Sort, Interpolate, Divides, Blended;
    InterpolateBlends(ordered, position, i);
    DividesBlends(values, i, ordered[i], ordered[Next(i, n)], position, Interpolate(ordered, position));
  }

  /** and nothing else is. */
  lemma OnlyInterpolatedIsAt(values: seq<real>, i: nat, low: real, high: real, position: real, x: real)
    requires values != [] && 0.0 <= position <= (|values| - 1) as real
    requires Divides(values, i, low, high, position, x)
    ensures x == Interpolate(Sort(RealLe, values), position)
  {
    hide IsOrderStatistic, Floor, Ceiling, Sort, Interpolate, Divides, Blended;
    var n, ordered := |values|, Sort(RealLe, values);
    DividesBlends(values, i, low, high, position, x);
    SortedStatistic(values, i);
    SortedStatistic(values, Next(i, n));
    StatisticUnique(values, i, low, ordered[i]);
    StatisticUnique(values, Next(i, n), high, ordered[Next(i, n)]);
    InterpolateBlends(ordered, position, i);
  }

  /** A percentile is the value that divides two neighbouring order statistics at its position, and only that is. */
  lemma PercentileExactly(values: seq<real>, p: real, x: real)
    requires values != [] && 0.0 <= p <= 1.0
    ensures IsPercentile(values, p, x) <==> x == Percentile(values, p)
  {
    var position := Position(p, |values|);
    PositionInRange(p, |values|);
    InterpolatedIsAt(values, position);
    hide Interpolate, Sort, Divides;
    if IsAtPosition(values, position, x) {
      var i: nat, low: real, high: real :| Divides(values, i, low, high, position, x);
      OnlyInterpolatedIsAt(values, i, low, high, position, x);
    }
  }

  /** At the probability of rank i the percentile is the i-th order statistic. */
  lemma PercentileAtRank(values: seq<real>, i: nat, p: real)
    requires i < |values| && 0.0 <= p <= 1.0 && p * (|values| - 1) as real == i as real
    ensures IsOrderStatistic(values, i, Percentile(values, p))
  {
    var ordered := Sort(RealLe, values);
    SortedStatistic(values, i);
    hide IsOrderStatistic, Sort, Interpolate, Blended;
    InterpolateBlends(ordered, i as real, i);
    BlendEnds(ordered[i], ordered[Next(i, |values|)]);
  }

  /** The number that is t of the way from one to the other. */
  function Mixed(x: real, y: real, t: real): real { (1.0 - t) * x + t * y }

  lemma MixedWithin(x: real, y: real, t: real, low: real, high: real)
    requires 0.0 <= t <= 1.0 && low <= x <= high && low <= y <= high
    ensures low <= Mixed(x, y, t) <= high
  {
    MixedFrom(x, y, t, low);
    MixedFrom(x, y, t, high);
    NonNegativeProduct(1.0 - t, x - low);
    NonNegativeProduct(t, y - low);
    NonNegativeProduct(1.0 - t, high - x);
    NonNegativeProduct(t, high - y);
    assert (1.0 - t) * (high - x) == -((1.0 - t) * (x - high)) && t * (high - y) == -(t * (y - high));
  }

  lemma NonNegativeProduct(x: real, y: real)
    requires x >= 0.0 && y >= 0.0
    ensures x * y >= 0.0
  {
  }

  lemma MixedFrom(x: real, y: real, t: real, z: real)
    ensures Mixed(x, y, t) - z == (1.0 - t) * (x - z) + t * (y - z) == Mixed(x - z, y - z, t)
  {
    assert (1.0 - t) * (x - z) == (1.0 - t) * x - (1.0 - t) * z && t * (y - z) == t * y - t * z;
    assert (1.0 - t) * z + t * z == z;
  }

  lemma BlendMixes(low: real, high: real, f: real, g: real, t: real)
    ensures Blended(low, high, Mixed(f, g, t)) == Mixed(Blended(low, high, f), Blended(low, high, g), t)
  {
    var d := high - low;
    ScaledMix(f, g, t, d);
    MixedFrom(low + f * d, low + g * d, t, low);
  }

  lemma ScaledMix(f: real, g: real, t: real, d: real)
    ensures Mixed(f, g, t) * d == Mixed(f * d, g * d, t)
  {
    assert ((1.0 - t) * f) * d == (1.0 - t) * (f * d) && (t * g) * d == t * (g * d);
  }

  lemma PositionMixes(p: real, q: real, t: real, n: nat)
    requires n > 0
    ensures Position(Mixed(p, q, t), n) == Mixed(Position(p, n), Position(q, n), t)
  {
    ScaledMix(p, q, t, (n - 1) as real);
  }

  lemma PercentileBlends(values: seq<real>, i: nat, p: real)
    requires i < |values| && 0.0 <= p <= 1.0 && i as real <= Position(p, |values|) <= (i + 1) as real
    ensures var ordered := Sort(RealLe, values);
            Percentile(values, p)
            == Blended(ordered[i], ordered[Next(i, |values|)], Position(p, |values|) - i as real)
  {
    hide Sort, Interpolate, Blended, Position;
    PositionInRange(p, |values|);
    InterpolateBlends(Sort(RealLe, values), Position(p, |values|), i);
  }

  lemma BlendedMix(values: seq<real>, i: nat, p: real, q: real, t: real)
    requires i < |values| && 0.0 <= p <= 1.0 && 0.0 <= q <= 1.0 && 0.0 <= t <= 1.0
    requires i as real <= Position(p, |values|) <= (i + 1) as real
    requires i as real <= Position(q, |values|) <= (i + 1) as real
    ensures 0.0 <= Mixed(p, q, t) <= 1.0
    ensures Percentile(values, Mixed(p, q, t)) == Mixed(Percentile(values, p), Percentile(values, q), t)
  {
    hide *;
    var n, ordered := |values|, Sort(RealLe, values);
    var x, y, r := Position(p, n), Position(q, n), Mixed(p, q, t);
    MixedWithin(p, q, t, 0.0, 1.0);
    PositionMixes(p, q, t, n);
    MixedWithin(x, y, t, i as real, (i + 1) as real);
    PercentileBlends(values, i, p);
    PercentileBlends(values, i, q);
    PercentileBlends(values, i, r);
    BlendMixes(ordered[i], ordered[Next(i, n)], x - i as real, y - i as real, t);
    MixedShifts(x, y, t, i as real);
  }

  lemma MixedShifts(x: real, y: real, t: real, z: real)
    ensures Mixed(x, y, t) - z == Mixed(x - z, y - z, t)
  {
    MixedFrom(x, y, t, z);
  }

  /** Between two neighbouring ranks percentiles are affine in the probability. */
  lemma PercentileAffine(values: seq<real>, i: nat, p: real, q: real, t: real)
    requires i < |values| && 0.0 <= p <= 1.0 && 0.0 <= q <= 1.0 && 0.0 <= t <= 1.0
    requires i as real <= p * (|values| - 1) as real <= (i + 1) as real
    requires i as real <= q * (|values| - 1) as real <= (i + 1) as real
    ensures 0.0 <= Mixed(p, q, t) <= 1.0
    ensures Percentile(values, Mixed(p, q, t)) == Mixed(Percentile(values, p), Percentile(values, q), t)
  {
    hide Percentile, Mixed;
    BlendedMix(values, i, p, q, t);
  }

  function Negated(values: seq<real>): seq<real> {
    if values == [] then [] else [-values[0]] + Negated(values[1..])
  }

  lemma {:induction false} NegatedMembers(values: seq<real>)
    ensures |Negated(values)| == |values|
    ensures forall x :: x in values ==> -x in Negated(values)
  {
    if values != [] {
      NegatedMembers(values[1..]);
      assert values == [values[0]] + values[1..];
    }
  }

  lemma {:induction false} NegatedCounted(values: seq<real>, p: real -> bool, q: real -> bool)
    requires forall x :: q(-x) <==> p(x)
    ensures Counted(q, Negated(values)) == Counted(p, values)
  {
    if values != [] {
      NegatedCounted(values[1..], p, q);
      assert Negated(values)[1..] == Negated(values[1..]);
    }
  }

  lemma NegatedStatistic(values: seq<real>, i: nat, x: real)
    requires i < |values| && IsOrderStatistic(values, i, x)
    ensures IsOrderStatistic(Negated(values), |values| - 1 - i, -x)
  {
    NegatedMembers(values);
    NegatedCounted(values, v => v < x, v => v > -x);
    NegatedCounted(values, v => v > x, v => v < -x);
  }

  /** Negating the values and turning the probability round negates the percentile. */
  lemma PercentileMirrored(values: seq<real>, p: real)
    requires 0.0 <= p <= 1.0
    ensures Percentile(Negated(values), 1.0 - p) == -Percentile(values, p)
  {
    NegatedMembers(values);
    if values != [] {
      PercentileExactly(values, p, Percentile(values, p));
      PercentileExactly(Negated(values), 1.0 - p, -Percentile(values, p));
      MirroredIsPercentile(values, p, Percentile(values, p));
    }
  }

  lemma MirroredIsPercentile(values: seq<real>, p: real, x: real)
    requires values != [] && 0.0 <= p <= 1.0 && IsPercentile(values, p, x)
    ensures IsPercentile(Negated(values), 1.0 - p, -x)
  {
    hide IsPercentile, Negated;
    NegatedMembers(values);
    PositionInRange(p, |values|);
    MirroredFrom(values, p, x, Position(p, |values|));
  }

  lemma MirroredFrom(values: seq<real>, p: real, x: real, position: real)
    requires values != [] && position == p * (|values| - 1) as real && 0.0 <= position <= (|values| - 1) as real
    requires IsPercentile(values, p, x) && |Negated(values)| == |values|
    ensures IsPercentile(Negated(values), 1.0 - p, -x)
  {
    hide IsAtPosition, Negated;
    var negated := Negated(values);
    PercentilePosition(values, p, position, x);
    TurnedPosition(p, |negated|, position);
    PercentilePosition(negated, 1.0 - p, (|negated| - 1) as real - position, -x);
    hide IsPercentile;
    MirroredIsAt(values, position, x);
  }

  lemma PercentilePosition(values: seq<real>, p: real, position: real, x: real)
    requires position == p * (|values| - 1) as real
    ensures IsPercentile(values, p, x) <==> IsAtPosition(values, position, x)
  {
    hide IsAtPosition;
  }

  lemma TurnedPosition(p: real, n: nat, position: real)
    requires n > 0 && position == p * (n - 1) as real
    ensures (1.0 - p) * (n - 1) as real == (n - 1) as real - position
  {
  }

  lemma MirroredIsAt(values: seq<real>, position: real, x: real)
    requires 0.0 <= position <= (|values| - 1) as real && IsAtPosition(values, position, x)
    ensures IsAtPosition(Negated(values), (|values| - 1) as real - position, -x)
  {
    hide Divides;
    var i: nat, low: real, high: real :| Divides(values, i, low, high, position, x);
    hide IsAtPosition;
    MirroredDivides(values, i, low, high, position, x);
  }

  lemma MirroredDivides(values: seq<real>, i: nat, low: real, high: real, position: real, x: real)
    requires 0.0 <= position <= (|values| - 1) as real && Divides(values, i, low, high, position, x)
    ensures IsAtPosition(Negated(values), (|values| - 1) as real - position, -x)
  {
    var n := |values|;
    hide IsOrderStatistic, Blended, Divides, Negated;
    DividesBlends(values, i, low, high, position, x);
    NegatedMembers(values);
    NegatedStatistic(values, i, low);
    NegatedStatistic(values, Next(i, n), high);
    BlendTurns(low, high, position - i as real);
    if i + 1 < n {
      DividesBlends(Negated(values), n - 2 - i, -high, -low, (n - 1) as real - position, -x);
    } else {
      assert position == i as real;
      BlendEnds(low, high);
      LeastIsAt(Negated(values), -low);
    }
  }

  lemma LeastIsAt(values: seq<real>, x: real)
    requires values != [] && IsOrderStatistic(values, 0, x)
    ensures IsAtPosition(values, 0.0, x)
  {
    var ordered := Sort(RealLe, values);
    SortedStatistic(values, 0);
    hide IsOrderStatistic, Sort, Interpolate, IsAtPosition, Blended;
    StatisticUnique(values, 0, x, ordered[0]);
    InterpolatedIsAt(values, 0.0);
    InterpolateBlends(ordered, 0.0, 0);
    BlendEnds(ordered[0], ordered[Next(0, |values|)]);
  }

  lemma BlendTurns(low: real, high: real, f: real)
    ensures Blended(-high, -low, 1.0 - f) == -Blended(low, high, f)
  {
    assert (1.0 - f) * (high - low) == high - low - f * (high - low);
  }
}
