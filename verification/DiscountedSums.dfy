/** Sums of gains divided by a growing discount, and when one such sum dominates another. */
module DiscountedSums {

  /** A discount by rank: positive and strictly increasing, as log2(rank + 2) is. */
  ghost predicate Discount(log: nat -> real) {
    && (forall i: nat :: log(i) > 0.0)
    && (forall i: nat, j: nat {:trigger Earlier(i, j)} :: Earlier(i, j) ==> log(i) < log(j))
  }

  predicate Earlier(i: nat, j: nat) { i < j }

  function Prefix(g: seq<real>, n: nat): real
    requires n <= |g|
  {
    if n == 0 then 0.0 else Prefix(g, n - 1) + g[n - 1]
  }

  function Discounted(g: seq<real>, log: nat -> real, n: nat): real
    requires n <= |g|
    requires forall i: nat :: log(i) > 0.0
  {
    if n == 0 then 0.0 else Discounted(g, log, n - 1) + g[n - 1] / log(n - 1)
  }

  lemma DivisionShrinks(x: real, a: real, b: real)
    requires x >= 0.0 && 0.0 < a <= b
    ensures 0.0 <= x / b <= x / a
    ensures x > 0.0 ==> x / b > 0.0
    ensures x > 0.0 && a < b ==> x / b < x / a
  {
    QuotientOf(x, a);
    QuotientOf(x, b);
    QuotientsOrdered(x / a, x / b, a, b);
  }

  lemma QuotientOf(x: real, a: real)
    requires a > 0.0
    ensures (x / a) * a == x
    ensures x >= 0.0 ==> x / a >= 0.0
    ensures x > 0.0 ==> x / a > 0.0
  {
    ProductSign(x / a, a);
  }

  lemma ProductSign(u: real, v: real)
    requires v > 0.0
    ensures u > 0.0 ==> u * v > 0.0
    ensures u < 0.0 ==> u * v < 0.0
    ensures u == 0.0 ==> u * v == 0.0
  {
  }

  /** Of two quotients of one number, the one with the larger divisor is smaller. */
  lemma QuotientsOrdered(p: real, q: real, a: real, b: real)
    requires p * a == q * b && p >= 0.0 && 0.0 < a <= b
    ensures q <= p
    ensures p > 0.0 && a < b ==> q < p
  {
    Regrouped(p, q, a, b);
    ProductSign(p - q, b);
    if a < b {
      ProductSign(p, b - a);
    }
  }

  lemma Regrouped(p: real, q: real, a: real, b: real)
    requires p * a == q * b
    ensures (p - q) * b == p * (b - a)
  {
  }

  lemma DivisionSplits(x: real, y: real, a: real)
    requires a > 0.0
    ensures (x + y) / a == x / a + y / a && (x - y) / a == x / a - y / a
  {
  }

  /** Summation by parts: the lead of h's prefix sums over g's survives any decreasing weighting. */
  lemma {:induction false} PrefixLead(g: seq<real>, h: seq<real>, log: nat -> real, n: nat)
    requires Discount(log)
    requires 0 < n <= |g| && n <= |h|
    requires forall j :: 0 <= j <= n ==> Prefix(g, j) <= Prefix(h, j)
    ensures Discounted(h, log, n) - Discounted(g, log, n) >= (Prefix(h, n) - Prefix(g, n)) / log(n - 1)
    ensures forall j :: 0 < j < n && Prefix(g, j) < Prefix(h, j) ==>
              Discounted(h, log, n) - Discounted(g, log, n) > (Prefix(h, n) - Prefix(g, n)) / log(n - 1)
  {
    var x, y := h[n - 1], g[n - 1];
    DivisionSplits(x, y, log(n - 1));
    if n == 1 {
      assert Discounted(h, log, 0) == Discounted(g, log, 0) == Prefix(h, 0) == Prefix(g, 0) == 0.0;
    } else {
      PrefixLead(g, h, log, n - 1);
      assert Earlier(n - 2, n - 1);
      var lead := Prefix(h, n - 1) - Prefix(g, n - 1);
      DivisionShrinks(lead, log(n - 2), log(n - 1));
      DivisionSplits(lead, x - y, log(n - 1));
      assert Prefix(h, n) - Prefix(g, n) == lead + (x - y);
    }
  }

  lemma DiscountedDominates(g: seq<real>, h: seq<real>, log: nat -> real, n: nat)
    requires Discount(log)
    requires n <= |g| && n <= |h|
    requires forall j :: 0 <= j <= n ==> Prefix(g, j) <= Prefix(h, j)
    ensures Discounted(g, log, n) <= Discounted(h, log, n)
    ensures Discounted(g, log, n) == Discounted(h, log, n) ==> g[..n] == h[..n]
  {
    if n > 0 {
      PrefixLead(g, h, log, n);
      DivisionShrinks(Prefix(h, n) - Prefix(g, n), log(n - 1), log(n - 1));
      if Discounted(g, log, n) == Discounted(h, log, n) {
        forall i | 0 <= i < n ensures g[i] == h[i] {
          assert Prefix(g, i) == Prefix(h, i);
          assert Prefix(g, i + 1) == Prefix(h, i + 1);
        }
      }
    }
  }

  lemma {:induction false} DiscountedSame(g: seq<real>, h: seq<real>, log: nat -> real, n: nat)
    requires forall i: nat :: log(i) > 0.0
    requires n <= |g| && n <= |h| && g[..n] == h[..n]
    ensures Discounted(g, log, n) == Discounted(h, log, n)
  {
    if n > 0 {
      assert g[..n][n - 1] == h[..n][n - 1];
      assert g[..n - 1] == g[..n][..n - 1] && h[..n - 1] == h[..n][..n - 1];
      DiscountedSame(g, h, log, n - 1);
    }
  }

  /** Ranks without gain add nothing. */
  lemma {:induction false} DiscountedZeros(g: seq<real>, log: nat -> real, m: nat, n: nat)
    requires forall i: nat :: log(i) > 0.0
    requires m <= n <= |g|
    requires forall i :: m <= i < n ==> g[i] == 0.0
    ensures Discounted(g, log, n) == Discounted(g, log, m)
  {
    if m < n {
      DiscountedZeros(g, log, m, n - 1);
    }
  }

  lemma {:induction false} DiscountedSign(g: seq<real>, log: nat -> real, n: nat)
    requires Discount(log)
    requires n <= |g| && forall i :: 0 <= i < n ==> g[i] >= 0.0
    ensures Discounted(g, log, n) >= 0.0
    ensures Discounted(g, log, n) > 0.0 <==> exists i :: 0 <= i < n && g[i] > 0.0
  {
    if n > 0 {
      DiscountedSign(g, log, n - 1);
      DivisionShrinks(g[n - 1], log(n - 1), log(n - 1));
    }
  }
}
