/** Small arithmetic that several parts share. */
module Arithmetic {
  function Min(a: nat, b: nat): nat { if a < b then a else b }

  /** A part as a share of a whole, and nothing of nothing. */
  function Proportion(part: nat, whole: nat): real {
    if whole == 0 then 0.0 else part as real / whole as real
  }

  lemma Undivided(x: real, n: real)
    requires n != 0.0
    ensures x / n * n == x
  {
  }

  function Sum(xs: seq<real>): real {
    if xs == [] then 0.0 else Sum(xs[..|xs| - 1]) + xs[|xs| - 1]
  }

  lemma SumNext(xs: seq<real>, x: real)
    ensures Sum(xs + [x]) == Sum(xs) + x
  {
    assert (xs + [x])[..|xs|] == xs;
  }

  /** The arithmetic mean of a list, which is zero for the empty list. */
  ghost predicate IsMean(mean: real, xs: seq<real>) {
    mean * |xs| as real == Sum(xs) && (xs == [] ==> mean == 0.0)
  }

  lemma QuotientIsMean(total: real, xs: seq<real>, mean: real)
    requires total == Sum(xs) && mean == if |xs| == 0 then 0.0 else total / |xs| as real
    ensures IsMean(mean, xs)
  {
    if xs != [] {
      Undivided(total, |xs| as real);
    }
  }

  function Times(x: real, n: nat): real { x * n as real }

  lemma TimesNext(x: real, n: nat)
    ensures Times(x, n + 1) == Times(x, n) + x && Times(x, 0) == 0.0
  {
    assert (n + 1) as real == n as real + 1.0;
  }

  lemma {:induction false} SumBounds(xs: seq<real>, low: real, high: real)
    ensures (forall x :: x in xs ==> low <= x) ==> Times(low, |xs|) <= Sum(xs)
    ensures (forall x :: x in xs ==> x <= high) ==> Sum(xs) <= Times(high, |xs|)
    ensures xs != [] && (forall x :: x in xs ==> x < high) ==> Sum(xs) < Times(high, |xs|)
  {
    hide Times;
    if xs == [] {
      TimesNext(low, 0);
      TimesNext(high, 0);
    } else {
      var n := |xs| - 1;
      SumBounds(xs[..n], low, high);
      assert xs[n] in xs && forall x :: x in xs[..n] ==> x in xs;
      assert n == 0 ==> xs[..n] == [];
      TimesNext(low, n);
      TimesNext(high, n);
    }
  }

  /** A mean lies between any bounds of the list, and below any strict one. */
  lemma MeanBounds(mean: real, xs: seq<real>, low: real, high: real)
    requires IsMean(mean, xs) && xs != []
    ensures (forall x :: x in xs ==> low <= x) ==> low <= mean
    ensures (forall x :: x in xs ==> x <= high) ==> mean <= high
    ensures (forall x :: x in xs ==> x < high) ==> mean < high
  {
    SumBounds(xs, low, high);
    TimesOrder(low, mean, |xs|);
    TimesOrder(mean, high, |xs|);
    assert Times(mean, |xs|) == Sum(xs);
    hide Times, Sum, IsMean;
  }

  lemma TimesOrder(x: real, y: real, n: nat)
    requires n > 0
    ensures Times(x, n) <= Times(y, n) ==> x <= y
    ensures Times(x, n) < Times(y, n) ==> x < y
  {
    Cancel(y - x, n as real);
    assert (y - x) * n as real == y * n as real - x * n as real;
  }

  lemma Cancel(x: real, n: real)
    requires n > 0.0
    ensures x * n >= 0.0 ==> x >= 0.0
    ensures x * n > 0.0 ==> x > 0.0
  {
  }
}
