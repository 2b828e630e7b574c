/** What BM25 rewards: rare tokens, frequent ones, short documents; and what that means for the answer. */
module Bm25Laws {
  import opened Orders
  import opened Bm25

  /** A logarithm as BM25 needs it: above zero, and rising, on the positive numbers. */
  ghost predicate Rising(log1p: real -> real) {
    forall x, y :: 0.0 < x < y ==> 0.0 < log1p(x) < log1p(y)
  }

  /** How often a document contains a token, and how long it is. */
  function Frequency(c: Corpus, token: string, d: string): nat
    requires d in c.documents
  {
    multiset(c.documents[d].tokens)[token]
  }

  function Length(c: Corpus, d: string): nat
    requires d in c.documents
  {
    |c.documents[d].tokens|
  }

  // ----- arithmetic -----

  lemma QuotientOrder(a: real, b: real, c: real, d: real)
    requires b > 0.0 && d > 0.0 && a * d > c * b
    ensures a / b > c / d
  {
    var x, y := a / b, c / d;
    assert x * b == a && y * d == c;
    ProductPositive(b, d);
    assert x * (b * d) == a * d && y * (b * d) == c * b;
    SignOfFactor(x - y, b * d, a * d - c * b);
  }

  lemma SignOfFactor(x: real, y: real, z: real)
    requires x * y == z && y > 0.0 && z > 0.0
    ensures x > 0.0
  {
  }

  lemma ProductOrder(x: real, y: real, z: real)
    requires x > y && z > 0.0
    ensures x * z > y * z && z * x > z * y
  {
    ProductPositive(x - y, z);
    assert (x - y) * z == x * z - y * z;
  }

  lemma OddsFall(n: real, h: real, h': real)
    requires 0.0 <= h < h' <= n
    ensures (n - h + 0.5) / (h + 0.5) > (n - h' + 0.5) / (h' + 0.5) > 0.0
  {
    ProductOrder(h' - h, 0.0, n + 1.0);
    assert (n - h + 0.5) * (h' + 0.5) - (n - h' + 0.5) * (h + 0.5) == (h' - h) * (n + 1.0);
    QuotientOrder(n - h + 0.5, h + 0.5, n - h' + 0.5, h' + 0.5);
    Positive(n - h' + 0.5, h' + 0.5);
  }

  /** How far a frequency f has come towards k, when it takes m to come half way. */
  function Saturation(k: real, f: real, m: real): real
    requires f > 0.0 && m > 0.0
  {
    f * k / (f + m)
  }

  lemma SaturationRises(k: real, f: real, g: real, m: real)
    requires k > 0.0 && f > g > 0.0 && m > 0.0
    ensures Saturation(k, f, m) > Saturation(k, g, m)
  {
    ProductPositive(f - g, k);
    ProductPositive((f - g) * k, m);
    assert f * k * (g + m) - g * k * (f + m) == (f - g) * k * m;
    QuotientOrder(f * k, f + m, g * k, g + m);
  }

  lemma SaturationFalls(k: real, f: real, m: real, m': real)
    requires k > 0.0 && f > 0.0 && 0.0 < m < m'
    ensures Saturation(k, f, m) > Saturation(k, f, m')
  {
    ProductPositive(f, k);
    ProductOrder(f + m', f + m, f * k);
    QuotientOrder(f * k, f + m, f * k, f + m');
  }

  lemma SaturationBelow(k: real, f: real, m: real)
    requires k > 0.0 && f > 0.0 && m > 0.0
    ensures 0.0 < Saturation(k, f, m) < k
  {
    ProductPositive(f, k);
    Positive(f * k, f + m);
    ProductOrder(f + m, f, k);
    QuotientOrder(k, 1.0, f * k, f + m);
  }

  // ----- one contribution -----

  lemma NormalizationPositive(c: Corpus, length: nat, average: real)
    requires c.k1 > 0.0 && 0.0 <= c.b <= 1.0 && average > 0.0 && length > 0
    ensures Normalization(c, length, average) > 0.0
  {
    SharePositive(c.k1, c.b, length as real, average, Normalization(c, length, average));
  }

  lemma SharePositive(k: real, b: real, l: real, average: real, m: real)
    requires k > 0.0 && 0.0 <= b <= 1.0 && l > 0.0 && average > 0.0
    requires m == k * (1.0 - b + b * l / average)
    ensures m > 0.0
  {
    var q := b * l / average;
    if b > 0.0 {
      ProductPositive(b, l);
      Positive(b * l, average);
    } else {
      NoShare(l, average);
      assert q == 0.0;
    }
    ProductPositive(k, 1.0 - b + q);
  }

  lemma NormalizationGrows(c: Corpus, length: nat, length': nat, average: real)
    requires c.k1 > 0.0 && 0.0 <= c.b <= 1.0 && average > 0.0 && length < length'
    ensures c.b > 0.0 ==> Normalization(c, length, average) < Normalization(c, length', average)
    ensures c.b == 0.0 ==> Normalization(c, length, average) == Normalization(c, length', average)
  {
    if c.b > 0.0 {
      ShareGrows(c.k1, c.b, length as real, length' as real, average);
    } else {
      NoShare(length as real, average);
      NoShare(length' as real, average);
    }
  }

  lemma ShareGrows(k: real, b: real, l: real, l': real, average: real)
    requires k > 0.0 && b > 0.0 && average > 0.0 && l < l'
    ensures k * (1.0 - b + b * l / average) < k * (1.0 - b + b * l' / average)
  {
    ProductOrder(l', l, b);
    ProductOrder(b * l', b * l, average);
    QuotientOrder(b * l', average, b * l, average);
    ProductOrder(1.0 - b + b * l' / average, 1.0 - b + b * l / average, k);
  }

  lemma NoShare(l: real, average: real)
    requires average > 0.0
    ensures 0.0 * l / average == 0.0
  {
  }

  /** The logarithm in a token's contributions. */
  function Rarity(log1p: real -> real, c: Corpus, token: string): real {
    Idf(log1p, |c.documents|, |Holders(c, token)|)
  }

  lemma RarityFalls(log1p: real -> real, c: Corpus, s: string, t: string)
    requires Rising(log1p) && |Holders(c, s)| < |Holders(c, t)|
    ensures Rarity(log1p, c, s) > Rarity(log1p, c, t) > 0.0
  {
    HoldersBound(c, t);
    OddsFall(|c.documents| as real, |Holders(c, s)| as real, |Holders(c, t)| as real);
  }

  lemma RarityPositive(log1p: real -> real, c: Corpus, token: string)
    requires Rising(log1p)
    ensures Rarity(log1p, c, token) > 0.0
  {
    HoldersBound(c, token);
    OddsPositive(|c.documents| as real, |Holders(c, token)| as real, log1p);
  }

  lemma OddsPositive(n: real, h: real, log1p: real -> real)
    requires 0.0 <= h <= n && Rising(log1p)
    ensures log1p((n - h + 0.5) / (h + 0.5)) > 0.0
  {
    var x := (n - h + 0.5) / (h + 0.5);
    Positive(n - h + 0.5, h + 0.5);
    assert 0.0 < x < x + 1.0;
    assert log1p(x) < log1p(x + 1.0);
  }

  lemma RarityIs(log1p: real -> real, c: Corpus, token: string)
    requires c.Valid()
    ensures var n, h := |c.order| as real, |Holders(c, token)| as real;
            Rarity(log1p, c, token) == log1p((n - h + 0.5) / (h + 0.5))
  {
    DistinctSize(c.order);
    assert SetOf(c.order) == c.documents.Keys;
  }

  lemma HolderKnown(c: Corpus, token: string, d: string)
    requires c.Valid() && d in Holders(c, token)
    ensures d in c.documents && c.k1 > 0.0 && 0.0 <= c.b <= 1.0
    ensures forall x :: x in c.order ==> x in c.documents
  {
  }

  /** A contribution is its token's rarity, times a share of k1 + 1 that depends on frequency and length. */
  lemma ContributionParts(log1p: real -> real, c: Corpus, token: string, d: string) returns (f: real, m: real)
    requires c.Valid() && d in Holders(c, token)
    ensures c.k1 > 0.0 && Average(c) > 0.0 && Length(c, d) > 0
    ensures f == Frequency(c, token, d) as real > 0.0 && m == Normalization(c, Length(c, d), Average(c)) > 0.0
    ensures Contribution(log1p, c, token, d) == Rarity(log1p, c, token) * Saturation(c.k1 + 1.0, f, m)
  {
    DivisionsDefined(c, token, d);
    assert |c.documents[d].tokens| > 0;
    NormalizationPositive(c, Length(c, d), Average(c));
    f, m := Frequency(c, token, d) as real, Normalization(c, Length(c, d), Average(c));
    hide Normalization, Average, Idf;
  }

  /** Of two documents as long, holding their tokens as often, the one with the rarer token is given more for it. */
  lemma RarerCountsMore(log1p: real -> real, c: Corpus, s: string, t: string, d: string, e: string)
    requires c.Valid() && Rising(log1p) && d in Holders(c, s) && e in Holders(c, t)
    requires |Holders(c, s)| < |Holders(c, t)|
    requires Frequency(c, s, d) == Frequency(c, t, e) && Length(c, d) == Length(c, e)
    ensures Contribution(log1p, c, s, d) > Contribution(log1p, c, t, e)
  {
    hide *;
    var f, m := ContributionParts(log1p, c, s, d);
    var f', m' := ContributionParts(log1p, c, t, e);
    RarityFalls(log1p, c, s, t);
    SaturationBelow(c.k1 + 1.0, f, m);
    ProductOrder(Rarity(log1p, c, s), Rarity(log1p, c, t), Saturation(c.k1 + 1.0, f, m));
  }

  /** A token counts more in a document of the same length that holds it more often, */
  lemma FrequentCountsMore(log1p: real -> real, c: Corpus, token: string, d: string, e: string)
    requires c.Valid() && Rising(log1p) && d in Holders(c, token) && e in Holders(c, token)
    requires Frequency(c, token, d) > Frequency(c, token, e) && Length(c, d) == Length(c, e)
    ensures Contribution(log1p, c, token, d) > Contribution(log1p, c, token, e)
  {
    hide *;
    var f, m := ContributionParts(log1p, c, token, d);
    var g, m' := ContributionParts(log1p, c, token, e);
    RarityPositive(log1p, c, token);
    SaturationRises(c.k1 + 1.0, f, g, m);
    ProductOrder(Saturation(c.k1 + 1.0, f, m), Saturation(c.k1 + 1.0, g, m), Rarity(log1p, c, token));
  }

  /** less in a longer document that holds it as often, unless lengths are not counted at all, */
  lemma LongerCountsLess(log1p: real -> real, c: Corpus, token: string, d: string, e: string)
    requires c.Valid() && Rising(log1p) && d in Holders(c, token) && e in Holders(c, token)
    requires Frequency(c, token, d) == Frequency(c, token, e) && Length(c, d) > Length(c, e)
    ensures c.b > 0.0 ==> Contribution(log1p, c, token, d) < Contribution(log1p, c, token, e)
    ensures c.b == 0.0 ==> Contribution(log1p, c, token, d) == Contribution(log1p, c, token, e)
  {
    hide *;
    HolderKnown(c, token, d);
    HolderKnown(c, token, e);
    var f, m := ContributionParts(log1p, c, token, d);
    var f', m' := ContributionParts(log1p, c, token, e);
    NormalizationGrows(c, Length(c, e), Length(c, d), Average(c));
    RarityPositive(log1p, c, token);
    if c.b > 0.0 {
      LessShare(Rarity(log1p, c, token), c.k1 + 1.0, f, m', m);
    }
  }

  lemma LessShare(r: real, k: real, f: real, m: real, m': real)
    requires r > 0.0 && k > 0.0 && f > 0.0 && 0.0 < m < m'
    ensures r * Saturation(k, f, m') < r * Saturation(k, f, m)
  {
    SaturationFalls(k, f, m, m');
    ProductOrder(Saturation(k, f, m), Saturation(k, f, m'), r);
  }

  /** and, however often it is repeated, less than k1 + 1 times its rarity. */
  lemma RepeatsSaturate(log1p: real -> real, c: Corpus, token: string, d: string)
    requires c.Valid() && Rising(log1p) && d in Holders(c, token)
    ensures var n, h := |c.order| as real, |Holders(c, token)| as real;
            0.0 < Contribution(log1p, c, token, d) < log1p((n - h + 0.5) / (h + 0.5)) * (c.k1 + 1.0)
  {
    hide *;
    RarityIs(log1p, c, token);
    BelowRarity(log1p, c, token, d);
  }

  lemma BelowRarity(log1p: real -> real, c: Corpus, token: string, d: string)
    requires c.Valid() && Rising(log1p) && d in Holders(c, token)
    ensures 0.0 < Contribution(log1p, c, token, d) < Rarity(log1p, c, token) * (c.k1 + 1.0)
  {
    var rarity := Rarity(log1p, c, token);
    hide *;
    var f, m := ContributionParts(log1p, c, token, d);
    RarityPositive(log1p, c, token);
    SaturationBelow(c.k1 + 1.0, f, m);
    ProductOrder(c.k1 + 1.0, Saturation(c.k1 + 1.0, f, m), rarity);
    ProductPositive(rarity, Saturation(c.k1 + 1.0, f, m));
  }

  /**
   * Without fractions: a contribution x is fixed by the logarithm r, the token's frequency f, the length l of its
   * document, and the number of all tokens and of all documents.
   */
  predicate IsContribution(x: real, r: real, f: real, l: real, k1: real, b: real, tokens: real, documents: real) {
    x * (f * tokens + k1 * ((1.0 - b) * tokens + b * l * documents)) == r * (f * tokens * (k1 + 1.0))
  }

  lemma ContributionExactly(log1p: real -> real, c: Corpus, token: string, d: string)
    requires c.Valid() && d in Holders(c, token)
    ensures var n, h := |c.order| as real, |Holders(c, token)| as real;
            IsContribution(Contribution(log1p, c, token, d), log1p((n - h + 0.5) / (h + 0.5)),
                           multiset(c.documents[d].tokens)[token] as real, |c.documents[d].tokens| as real,
                           c.k1, c.b, TotalLength(c.order, c.documents) as real, n)
  {
    hide *;
    RarityIs(log1p, c, token);
    ContributionByRarity(log1p, c, token, d);
  }

  lemma ContributionByRarity(log1p: real -> real, c: Corpus, token: string, d: string)
    requires c.Valid() && d in Holders(c, token)
    ensures IsContribution(Contribution(log1p, c, token, d), Rarity(log1p, c, token),
                           multiset(c.documents[d].tokens)[token] as real, |c.documents[d].tokens| as real,
                           c.k1, c.b, TotalLength(c.order, c.documents) as real, |c.order| as real)
  {
    HolderKnown(c, token, d);
    LengthAndFrequency(c, token, d);
    hide *;
    var f, m := ContributionParts(log1p, c, token, d);
    NormalizationMass(c, d);
    SaturationTimes(Rarity(log1p, c, token), f, Length(c, d) as real, c.k1, c.b, m,
                    TotalLength(c.order, c.documents) as real, |c.order| as real);
  }

  lemma LengthAndFrequency(c: Corpus, token: string, d: string)
    requires d in c.documents
    ensures Length(c, d) == |c.documents[d].tokens| && Frequency(c, token, d) == multiset(c.documents[d].tokens)[token]
  {
  }

  predicate IsNormalization(m: real, l: real, k1: real, b: real, tokens: real, documents: real) {
    m * tokens == k1 * ((1.0 - b) * tokens + b * l * documents)
  }

  lemma NormalizationMass(c: Corpus, d: string)
    requires c.Valid() && d in c.documents && Average(c) > 0.0
    ensures IsNormalization(Normalization(c, Length(c, d), Average(c)), Length(c, d) as real, c.k1, c.b,
                            TotalLength(c.order, c.documents) as real, |c.order| as real)
  {
    var total, n := TotalLength(c.order, c.documents) as real, |c.order| as real;
    var m := Normalization(c, Length(c, d), Average(c));
    assert n > 0.0 && total / n == Average(c);
    hide Average, TotalLength, Length, IsNormalization, NoDuplicates;
    NormalizationTimes(c.k1, c.b, Length(c, d) as real, total, n, m);
  }

  lemma NormalizationTimes(k: real, b: real, l: real, total: real, n: real, m: real)
    requires n > 0.0 && total / n > 0.0 && m == k * (1.0 - b + b * l / (total / n))
    ensures IsNormalization(m, l, k, b, total, n)
  {
    var average := total / n;
    assert average * n == total;
    var q := b * l / average;
    assert q * average == b * l;
    assert q * total == b * l * n by {
      assert q * total == q * average * n;
    }
    var x := 1.0 - b + q;
    assert x * total == (1.0 - b) * total + b * l * n;
    assert m * total == k * (x * total);
  }

  lemma SaturationTimes(r: real, f: real, l: real, k1: real, b: real, m: real, total: real, n: real)
    requires f > 0.0 && m > 0.0 && IsNormalization(m, l, k1, b, total, n)
    ensures IsContribution(r * Saturation(k1 + 1.0, f, m), r, f, l, k1, b, total, n)
  {
    var z := Saturation(k1 + 1.0, f, m);
    assert z * (f + m) == f * (k1 + 1.0);
    var mass := k1 * ((1.0 - b) * total + b * l * n);
    assert f * total + mass == (f + m) * total;
    Associate(r, z, f + m, total);
    assert f * (k1 + 1.0) * total == f * total * (k1 + 1.0);
  }

  lemma Associate(r: real, z: real, q: real, total: real)
    ensures (r * z) * (q * total) == r * ((z * q) * total)
  {
  }

  // ----- the answer -----

  /** A document that holds one of the query's tokens is scored by that token alone. */
  lemma ScoreOfOne(log1p: real -> real, c: Corpus, query: set<string>, d: string, token: string)
    requires c.Valid() && token in query && forall t :: t in query && d in Holders(c, t) ==> t == token
    ensures Score(log1p, c, query, d) == Contribution(log1p, c, token, d)
  {
    ScoreAnyOrder(log1p, c, query, d, token);
    ScoreOutside(log1p, c, query - {token}, d);
  }

  /** The place of a document in an answer, if it was returned. */
  ghost predicate ReturnedAt(a: seq<Retrieved>, d: string, i: nat) {
    i < |a| && a[i].documentId == d
  }

  /** Of two candidates the one that scores more is returned first, if the other is returned at all. */
  lemma HigherScoreFirst(log1p: real -> real, c: Corpus, query: set<string>, k: nat, a: seq<Retrieved>, d: string,
                         e: string, j: nat)
    requires c.Valid() && IsAnswer(a, log1p, c, query, k)
    requires d in Candidates(c, query) && Score(log1p, c, query, d) > Score(log1p, c, query, e)
    requires ReturnedAt(a, e, j)
    ensures exists i: nat :: i < j && ReturnedAt(a, d, i)
  {
    hide Score, Candidates, IsAnswer, StringLe, Corpus.Valid;
    AnswerIsBest(a, log1p, c, query, k, j, d);
    AnswerInOrder(a, log1p, c, query, k);
    var i: nat :| i < |a| && a[i].documentId == d;
    assert ReturnedAt(a, d, i);
    AnswerIsBest(a, log1p, c, query, k, i, d);
  }

  /**
   * Of two candidates of one length, that each hold one token of the query and hold it as often, the holder of the
   * rarer token scores more and is returned first.
   */
  lemma RarerTokenFirst(log1p: real -> real, c: Corpus, query: set<string>, k: nat, a: seq<Retrieved>, d: string,
                        s: string, e: string, t: string)
    requires c.Valid() && Rising(log1p) && IsAnswer(a, log1p, c, query, k)
    requires s in query && d in Holders(c, s) && forall x :: x in query && d in Holders(c, x) ==> x == s
    requires t in query && e in Holders(c, t) && forall x :: x in query && e in Holders(c, x) ==> x == t
    requires |Holders(c, s)| < |Holders(c, t)|
    requires Frequency(c, s, d) == Frequency(c, t, e) && Length(c, d) == Length(c, e)
    ensures Score(log1p, c, query, d) > Score(log1p, c, query, e)
    ensures forall j: nat :: ReturnedAt(a, e, j) ==> exists i: nat :: i < j && ReturnedAt(a, d, i)
  {
    ScoreOfOne(log1p, c, query, d, s);
    ScoreOfOne(log1p, c, query, e, t);
    assert d in Candidates(c, query);
    hide *;
    RarerCountsMore(log1p, c, s, t, d, e);
    OnlyHigherFirst(log1p, c, query, k, a, d, e);
  }

  lemma OnlyHigherFirst(log1p: real -> real, c: Corpus, query: set<string>, k: nat, a: seq<Retrieved>, d: string,
                        e: string)
    requires c.Valid() && IsAnswer(a, log1p, c, query, k)
    requires d in Candidates(c, query) && Score(log1p, c, query, d) > Score(log1p, c, query, e)
    ensures forall j: nat :: ReturnedAt(a, e, j) ==> exists i: nat :: i < j && ReturnedAt(a, d, i)
  {
    hide *;
    forall j: nat | ReturnedAt(a, e, j)
      ensures exists i: nat :: i < j && ReturnedAt(a, d, i)
    {
      HigherScoreFirst(log1p, c, query, k, a, d, e, j);
    }
  }
}
