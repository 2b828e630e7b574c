/** Exact two-sided McNemar statistics, src/evalops/evaluators/hallucination/comparison.py. */
module McNemar {
  import opened Arithmetic


  datatype Report = Report(b: nat, c: nat, statistic: real, pValue: real)

  datatype Outcome = Computed(report: Report) | UnequalLengths

  // ----- binomial coefficients and their partial sums -----

  /** math.comb: the number of k-element subsets of n things. */
  function Comb(n: nat, k: nat): nat {
    if k == 0 then 1 else if n == 0 then 0 else Comb(n - 1, k - 1) + Comb(n - 1, k)
  }

  /** Comb(n, 0) + ... + Comb(n, m). */
  function Tail(n: nat, m: nat): nat {
    Comb(n, m) + if m == 0 then 0 else Tail(n, m - 1)
  }

  function Pow2(n: nat): (p: nat)
    ensures p > 0
  {
    if n == 0 then 1 else 2 * Pow2(n - 1)
  }

  lemma {:induction false} CombSupport(n: nat, k: nat)
    ensures Comb(n, k) > 0 <==> k <= n
  {
    if k > 0 && n > 0 {
      CombSupport(n - 1, k - 1);
      CombSupport(n - 1, k);
    }
  }

  lemma {:induction false} CombSymmetric(n: nat, k: nat)
    requires k <= n
    ensures Comb(n, k) == Comb(n, n - k)
  {
    if k == 0 {
      CombFull(n);
    } else if k == n {
      CombFull(n);
    } else {
      CombSymmetric(n - 1, k - 1);
      CombSymmetric(n - 1, k);
    }
  }

  lemma {:induction false} CombFull(n: nat)
    ensures Comb(n, n) == 1
  {
    if n > 0 {
      CombFull(n - 1);
      CombSupport(n - 1, n);
    }
  }

  function Factorial(n: nat): nat {
    if n == 0 then 1 else n * Factorial(n - 1)
  }

  /** Comb is the quotient math.comb is documented to be: n! / (k! (n - k)!). */
  lemma {:induction false} CombFactorial(n: nat, k: nat)
    requires k <= n
    ensures Comb(n, k) * (Factorial(k) * Factorial(n - k)) == Factorial(n)
  {
    if k == 0 {
    } else if k == n {
      CombFull(n);
    } else {
      CombFactorial(n - 1, k - 1);
      CombFactorial(n - 1, k);
      Regroup(Comb(n - 1, k - 1), k, Factorial(k - 1), Factorial(n - k));
      Regroup(Comb(n - 1, k), n - k, Factorial(n - 1 - k), Factorial(k));
      SumOfShares(Comb(n - 1, k - 1), Comb(n - 1, k), Factorial(k) * Factorial(n - k), k, n - k, Factorial(n - 1));
    }
  }

  lemma Regroup(c: nat, m: nat, f: nat, g: nat)
    ensures c * ((m * f) * g) == m * (c * (f * g)) && c * (g * (m * f)) == m * (c * (g * f))
  {
  }

  lemma SumOfShares(c: nat, d: nat, p: nat, m: nat, l: nat, f: nat)
    requires c * p == m * f && d * p == l * f
    ensures (c + d) * p == (m + l) * f
  {
  }

  /** Pascal's rule for partial sums. */
  lemma {:induction false} TailPascal(n: nat, m: nat)
    requires m > 0
    ensures Tail(n + 1, m) == Tail(n, m) + Tail(n, m - 1)
  {
    if m > 1 {
      TailPascal(n, m - 1);
    }
  }

  lemma {:induction false} TailBeyond(n: nat, m: nat)
    requires m >= n
    ensures Tail(n, m) == Tail(n, n)
  {
    if m > n {
      CombSupport(n, m);
      TailBeyond(n, m - 1);
    }
  }

  /** The whole row of Pascal's triangle sums to 2 ** n. */
  lemma {:induction false} RowSum(n: nat)
    ensures Tail(n, n) == Pow2(n)
  {
    if n > 0 {
      RowSum(n - 1);
      TailPascal(n - 1, n);
      TailBeyond(n - 1, n);
    }
  }

  lemma {:induction false} TailGrows(n: nat, m: nat, m': nat)
    requires m < m' <= n
    ensures 0 < Tail(n, m) < Tail(n, m')
  {
    CombSupport(n, m);
    CombSupport(n, m');
    if m + 1 < m' {
      TailGrows(n, m, m' - 1);
    }
  }

  /** The lower tail up to m is the upper tail from n - m: together with the rest it is the whole row. */
  lemma {:induction false} TailComplement(n: nat, m: nat)
    requires m < n
    ensures Tail(n, m) + Tail(n, n - m - 1) == Pow2(n)
  {
    RowSum(n);
    if m == 0 {
      CombSymmetric(n, 0);
      assert Tail(n, n) == Comb(n, n) + Tail(n, n - 1);
    } else {
      TailComplement(n, m - 1);
      CombSymmetric(n, m);
      assert Tail(n, n - m) == Comb(n, n - m) + Tail(n, n - m - 1);
    }
  }

  /** Twice the lower tail stays below the whole row exactly when it stops short of the middle. */
  lemma HalfRow(n: nat, m: nat)
    requires 2 * m <= n && n > 0
    ensures 2 * Tail(n, m) < Pow2(n) <==> 2 * m + 1 < n
  {
    TailComplement(n, m);
    if 2 * m + 1 < n {
      TailGrows(n, m, n - m - 1);
    } else if 2 * m == n {
      TailGrows(n, m - 1, m);
    }
  }

  // ----- the statistic -----

  function AbsDifference(a: nat, b: nat): nat { if a < b then b - a else a - b }

  function Statistic(b: nat, c: nat): real {
    var d := AbsDifference(b, c) as real - 1.0;
    if b + c == 0 then 0.0 else d * d / (b + c) as real
  }

  /** Twice the tail over the row, capped at one. */
  function TwoSided(n: nat, tail: nat): real {
    if n == 0 then 1.0
    else
      var doubled := 2.0 * tail as real / Pow2(n) as real;
      if doubled < 1.0 then doubled else 1.0
  }

  function PValue(b: nat, c: nat): real {
    TwoSided(b + c, Tail(b + c, Min(b, c)))
  }

  /** Times the discordant pairs, it is the square of one less than the difference of the counts. */
  predicate IsStatistic(x: real, b: nat, c: nat) {
    && (b + c == 0 ==> x == 0.0)
    && (b + c > 0 ==>
          var d := (if b < c then c - b else b - c) - 1;
          x * (b + c) as real == (d * d) as real)
  }

  /** Times the row, it is twice the tail up to the smaller count, or the row if that is less. */
  predicate IsPValue(x: real, b: nat, c: nat) {
    && (b + c == 0 ==> x == 1.0)
    && (b + c > 0 ==>
          x * Pow2(b + c) as real == Min(2 * Tail(b + c, if b < c then b else c), Pow2(b + c)) as real)
  }

  lemma StatisticIs(b: nat, c: nat)
    ensures IsStatistic(Statistic(b, c), b, c)
  {
    if b + c > 0 {
      var d := AbsDifference(b, c) - 1;
      SquareAsReal(d);
      Undivided(d as real * d as real, (b + c) as real);
    }
  }

  lemma SquareAsReal(d: int)
    ensures (d * d) as real == d as real * d as real
  {
  }

  lemma PValueIs(b: nat, c: nat)
    ensures IsPValue(PValue(b, c), b, c)
  {
    if b + c > 0 {
      DoubledTail(b, c);
      hide Tail, Pow2;
      Undivided((2 * Tail(b + c, Min(b, c))) as real, Pow2(b + c) as real);
    }
  }

  /** How many positions only the first list gets right. */
  function OnlyFirst(first: seq<bool>, second: seq<bool>): nat
    requires |first| == |second|
  {
    if first == [] then 0
    else
      var n := |first| - 1;
      OnlyFirst(first[..n], second[..n]) + if first[n] && !second[n] then 1 else 0
  }

  lemma OnlyFirstNext(first: seq<bool>, second: seq<bool>, x: bool, y: bool)
    requires |first| == |second|
    ensures OnlyFirst(first + [x], second + [y]) == OnlyFirst(first, second) + if x && !y then 1 else 0
  {
    assert (first + [x])[..|first|] == first && (second + [y])[..|second|] == second;
  }

  method CountDiscordant(first: seq<bool>, second: seq<bool>) returns (b: nat, c: nat)
    requires |first| == |second|
    ensures b == OnlyFirst(first, second) && c == OnlyFirst(second, first)
  {
    b, c := 0, 0;
    for i := 0 to |first|
      invariant b == OnlyFirst(first[..i], second[..i])
      invariant c == OnlyFirst(second[..i], first[..i])
    {
      assert first[..i + 1][..i] == first[..i] && second[..i + 1][..i] == second[..i];
      if first[i] && !second[i] {
        b := b + 1;
      }
      if !first[i] && second[i] {
        c := c + 1;
      }
    }
    assert first[..|first|] == first && second[..|first|] == second;
  }

  method LowerTail(n: nat, m: nat) returns (tail: nat)
    ensures tail == Tail(n, m)
  {
    tail := 0;
    for index := 0 to m + 1
      invariant tail == if index == 0 then 0 else Tail(n, index - 1)
    {
      tail := tail + Comb(n, index);
    }
  }

  method ExactMcNemar(first: seq<bool>, second: seq<bool>) returns (r: Outcome)
    ensures r.UnequalLengths? <==> |first| != |second|
    ensures r.Computed? ==> r.report.b == OnlyFirst(first, second) && r.report.c == OnlyFirst(second, first)
    ensures r.Computed? ==> r.report.statistic == Statistic(r.report.b, r.report.c)
    ensures r.Computed? ==> r.report.pValue == PValue(r.report.b, r.report.c)
    ensures r.Computed? ==> IsStatistic(r.report.statistic, r.report.b, r.report.c)
    ensures r.Computed? ==> IsPValue(r.report.pValue, r.report.b, r.report.c)
  {
    if |first| != |second| {
      return UnequalLengths;
    }
    var b, c := CountDiscordant(first, second);
    var tail := LowerTail(b + c, Min(b, c));
    StatisticIs(b, c);
    PValueIs(b, c);
    hide IsStatistic, IsPValue, Statistic;
    return Computed(Report(b, c, Statistic(b, c), TwoSided(b + c, tail)));
  }

  lemma Quotient(x: nat, y: nat)
    requires y > 0
    ensures x as real / y as real < 1.0 <==> x < y
    ensures x > 0 ==> x as real / y as real > 0.0
  {
    var q := x as real / y as real;
    assert x as real == q * y as real;
    if q >= 1.0 {
      assert (q - 1.0) * y as real >= 0.0;
    } else {
      assert (1.0 - q) * y as real > 0.0;
    }
  }

  lemma DoubledTail(b: nat, c: nat)
    requires b + c > 0
    ensures Tail(b + c, Min(b, c)) > 0
    ensures PValue(b, c) < 1.0 <==> 2 * Tail(b + c, Min(b, c)) < Pow2(b + c)
    ensures PValue(b, c) < 1.0 ==> PValue(b, c) == (2 * Tail(b + c, Min(b, c))) as real / Pow2(b + c) as real
    ensures PValue(b, c) <= 1.0
  {
    var tail, row := Tail(b + c, Min(b, c)), Pow2(b + c);
    CombSupport(b + c, Min(b, c));
    assert 2.0 * tail as real == (2 * tail) as real;
    Quotient(2 * tail, row);
  }

  lemma SquareOrder(x: real, y: real)
    requires 0.0 <= x < y
    ensures x * x < y * y
  {
    assert y * y - x * x == (y - x) * (y + x);
    assert (y - x) * (y + x) > 0.0 by { PositiveProduct(y - x, y + x); }
  }

  lemma PositiveProduct(x: real, y: real)
    requires x > 0.0 && y > 0.0
    ensures x * y > 0.0
  {
  }

  lemma QuotientOrder(x: real, y: real, n: real)
    requires x < y && n > 0.0
    ensures x / n < y / n
  {
    Undivided(x, n);
    Undivided(y, n);
    Cancel(y / n - x / n, n);
    assert (y / n - x / n) * n == y - x;
  }

  /** The statistic is symmetric, and among tables with as many discordant pairs grows as the counts move apart. */
  lemma StatisticGrows(b: nat, c: nat, b': nat, c': nat)
    requires b + c == b' + c' && 1 <= AbsDifference(b, c) < AbsDifference(b', c')
    ensures Statistic(b, c) == Statistic(c, b)
    ensures 0.0 <= Statistic(b, c) < Statistic(b', c')
    ensures Statistic(b, c) == 0.0 <==> AbsDifference(b, c) == 1
  {
    var d, e := AbsDifference(b, c) as real - 1.0, AbsDifference(b', c') as real - 1.0;
    hide Statistic, SquareShare;
    StatisticShare(b, c, d);
    StatisticShare(c, b, d);
    StatisticShare(b', c', e);
    SquareShareGrows(d, e, (b + c) as real);
  }

  function SquareShare(d: real, n: real): real
    requires n != 0.0
  {
    d * d / n
  }

  lemma StatisticShare(b: nat, c: nat, d: real)
    requires b + c > 0 && d == AbsDifference(b, c) as real - 1.0
    ensures Statistic(b, c) == SquareShare(d, (b + c) as real)
  {
  }

  lemma SquareShareGrows(d: real, e: real, n: real)
    requires 0.0 <= d < e && n > 0.0
    ensures 0.0 <= SquareShare(d, n) < SquareShare(e, n)
    ensures SquareShare(d, n) == 0.0 <==> d == 0.0
  {
    SquareOrder(d, e);
    QuotientOrder(d * d, e * e, n);
    if d > 0.0 {
      SquareOrder(0.0, d);
      QuotientOrder(0.0, d * d, n);
    }
  }

  /** The p-value is a probability, symmetric, and 1 exactly when the two counts differ by at most one. */
  lemma PValueLaws(b: nat, c: nat)
    ensures 0.0 < PValue(b, c) <= 1.0
    ensures PValue(b, c) == PValue(c, b)
    ensures PValue(b, c) == 1.0 <==> AbsDifference(b, c) <= 1
  {
    if b + c > 0 {
      DoubledTail(b, c);
      HalfRow(b + c, Min(b, c));
      Quotient(2 * Tail(b + c, Min(b, c)), Pow2(b + c));
    }
  }

  /** Among tables with as many discordant pairs, the more lopsided one has the smaller p-value. */
  lemma PValueFalls(b: nat, c: nat, b': nat, c': nat)
    requires b + c == b' + c'
    requires AbsDifference(b, c) <= AbsDifference(b', c')
    ensures PValue(b', c') <= PValue(b, c)
    ensures PValue(b', c') < PValue(b, c) <==> AbsDifference(b, c) < AbsDifference(b', c') && AbsDifference(b', c') > 1
  {
    PValueLaws(b, c);
    PValueLaws(b', c');
    if AbsDifference(b, c) == AbsDifference(b', c') {
      assert Min(b, c) == Min(b', c');
    } else if AbsDifference(b', c') > 1 {
      var n := b + c;
      assert Min(b', c') < Min(b, c) <= n;
      TailGrows(n, Min(b', c'), Min(b, c));
      DoubledTail(b, c);
      DoubledTail(b', c');
      Ordered(2 * Tail(n, Min(b', c')), 2 * Tail(n, Min(b, c)), Pow2(n));
    }
  }

  lemma Ordered(x: nat, y: nat, z: nat)
    requires x < y && z > 0
    ensures x as real / z as real < y as real / z as real
  {
    assert (y as real / z as real - x as real / z as real) * z as real == (y - x) as real;
  }
}
