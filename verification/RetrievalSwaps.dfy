/**
 * DCG document by document: each relevant document is credited at its first rank; so a swap costs exactly what two
 * do.
 */
module RetrievalSwaps {
  import opened Arithmetic
  import opened Orders
  import opened DiscountedSums
  import opened RetrievalMetrics
  import opened RetrievalLaws

  /** The first rank of a document, or the length of a ranking that lacks it. */
  function First(s: seq<string>, d: string): (i: nat)
    ensures i <= |s| && (i < |s| ==> s[i] == d) && (d in s <==> i < |s|)
  {
    if s == [] || s[0] == d then 0 else First(s[1..], d) + 1
  }

  lemma {:induction false} FirstIs(s: seq<string>, d: string, i: nat)
    requires i < |s| && s[i] == d
    ensures First(s, d) == i <==> d !in s[..i]
    ensures First(s, d) <= i
  {
    if i > 0 {
      assert s[..i] == [s[0]] + s[1..][..i - 1];
      FirstIs(s[1..], d, i - 1);
    }
  }

  /** What one document earns in the first k ranks. */
  ghost function Credit(scale: Scale, rel: RelevanceMap, s: seq<string>, k: nat, d: string): real
    requires scale.Valid()
  {
    var i := First(s, d);
    if i < |s| && i < k then Worth(scale, rel.grades, d) / scale.log(i) else 0.0
  }

  ghost function Credits(scale: Scale, rel: RelevanceMap, s: seq<string>, k: nat, order: seq<string>): real
    requires scale.Valid()
  {
    if order == [] then 0.0 else Credit(scale, rel, s, k, order[0]) + Credits(scale, rel, s, k, order[1..])
  }

  lemma CreditNext(scale: Scale, rel: RelevanceMap, s: seq<string>, k: nat, d: string)
    requires scale.Valid() && d in rel.grades
    ensures Credit(scale, rel, s, k + 1, d) == Credit(scale, rel, s, k, d)
            + if k < |s| && s[k] == d then RankGain(scale, rel, s, k) / scale.log(k) else 0.0
  {
    if k < |s| && s[k] == d {
      FirstIs(s, d, k);
    }
  }

  lemma {:induction false} CreditsNext(scale: Scale, rel: RelevanceMap, s: seq<string>, k: nat, order: seq<string>)
    requires scale.Valid() && NoDuplicates(order) && forall d :: d in order ==> d in rel.grades
    ensures Credits(scale, rel, s, k + 1, order) == Credits(scale, rel, s, k, order)
            + if k < |s| && s[k] in order then RankGain(scale, rel, s, k) / scale.log(k) else 0.0
  {
    if order != [] {
      CreditNext(scale, rel, s, k, order[0]);
      DistinctTail(order);
      assert order == [order[0]] + order[1..];
      hide RankGain, Credit, NoDuplicates;
      CreditsNext(scale, rel, s, k, order[1..]);
    }
  }

  lemma {:induction false} NoCredits(scale: Scale, rel: RelevanceMap, s: seq<string>, order: seq<string>)
    requires scale.Valid()
    ensures Credits(scale, rel, s, 0, order) == 0.0
  {
    if order != [] {
      NoCredits(scale, rel, s, order[1..]);
    }
  }

  /** The sum over ranks, with repeats earning nothing, is the sum over relevant documents at their first ranks. */
  lemma {:induction false} DcgByDocument(scale: Scale, rel: RelevanceMap, s: seq<string>, k: nat)
    requires scale.Valid() && rel.Valid()
    ensures Dcg(scale, rel, s, k) == Credits(scale, rel, s, k, rel.order)
  {
    InOrder(rel);
    if k == 0 {
      NoCredits(scale, rel, s, rel.order);
    } else {
      DcgByDocument(scale, rel, s, k - 1);
      CreditsNext(scale, rel, s, k - 1, rel.order);
      DiscountedSame(RankGains(scale, rel, s, k), RankGains(scale, rel, s, k - 1), scale.log, k - 1);
    }
  }

  lemma OthersKeepFirst(s: seq<string>, i: nat, j: nat, d: string)
    requires i < j < |s| && d != s[i] && d != s[j]
    ensures First(Swapped(s, i, j), d) == First(s, d)
  {
    var t, n := Swapped(s, i, j), First(s, d);
    if n < |s| {
      FirstIs(s, d, n);
      assert forall p :: 0 <= p < n ==> s[p] == s[..n][p];
      assert d !in t[..n];
      FirstIs(t, d, n);
    }
  }

  lemma {:induction false} SwapChangesTwo(scale: Scale, rel: RelevanceMap, s: seq<string>, k: nat, i: nat, j: nat,
                                          order: seq<string>)
    requires scale.Valid() && i < j < |s| && s[i] != s[j] && NoDuplicates(order)
    ensures var t := Swapped(s, i, j);
            Credits(scale, rel, t, k, order) - Credits(scale, rel, s, k, order)
            == (if s[i] in order then Credit(scale, rel, t, k, s[i]) - Credit(scale, rel, s, k, s[i]) else 0.0)
             + (if s[j] in order then Credit(scale, rel, t, k, s[j]) - Credit(scale, rel, s, k, s[j]) else 0.0)
  {
    if order != [] {
      DistinctTail(order);
      assert order == [order[0]] + order[1..];
      if order[0] != s[i] && order[0] != s[j] {
        OthersKeepFirst(s, i, j, order[0]);
      }
      var t := Swapped(s, i, j);
      assert order[0] != s[i] && order[0] != s[j] ==>
               Credit(scale, rel, t, k, order[0]) == Credit(scale, rel, s, k, order[0]);
      hide Credit, NoDuplicates, Swapped;
      SwapChangesTwo(scale, rel, s, k, i, j, order[1..]);
    }
  }

  /** Any swap of two documents changes DCG by what the two of them earn at their first ranks, after less before. */
  lemma SwapExactly(scale: Scale, rel: RelevanceMap, s: seq<string>, k: nat, i: nat, j: nat)
    requires scale.Valid() && rel.Valid() && i < j < |s| && s[i] != s[j]
    ensures var t := Swapped(s, i, j);
            Dcg(scale, rel, t, k) - Dcg(scale, rel, s, k)
            == Credit(scale, rel, t, k, s[i]) + Credit(scale, rel, t, k, s[j])
               - Credit(scale, rel, s, k, s[i]) - Credit(scale, rel, s, k, s[j])
  {
    var t := Swapped(s, i, j);
    InOrder(rel);
    DcgByDocument(scale, rel, s, k);
    DcgByDocument(scale, rel, t, k);
    SwapChangesTwo(scale, rel, s, k, i, j, rel.order);
    IrrelevantEarnsNothing(scale, rel, s, k, s[i]);
    IrrelevantEarnsNothing(scale, rel, t, k, s[i]);
    IrrelevantEarnsNothing(scale, rel, s, k, s[j]);
    IrrelevantEarnsNothing(scale, rel, t, k, s[j]);
    hide Credit, Credits, Dcg, Swapped;
  }

  lemma IrrelevantEarnsNothing(scale: Scale, rel: RelevanceMap, s: seq<string>, k: nat, d: string)
    requires scale.Valid()
    ensures d !in rel.grades ==> Credit(scale, rel, s, k, d) == 0.0
  {
  }

  // ----- the exact rule, in terms of the ranking before the swap -----

  /** What a document earns when rank n is its first. */
  ghost function Earned(scale: Scale, rel: RelevanceMap, d: string, n: nat, k: nat): real
    requires scale.Valid()
  {
    if n < k then Worth(scale, rel.grades, d) / scale.log(n) else 0.0
  }

  /** The first rank of s[i] once it has moved down to rank j: an earlier or a later occurrence, or rank j itself. */
  function FirstAfterMovingDown(s: seq<string>, i: nat, j: nat): nat
    requires i < j < |s|
  {
    if First(s, s[i]) < i then First(s, s[i]) else i + 1 + First(s[i + 1..j], s[i])
  }

  lemma RanksAfterSwap(s: seq<string>, i: nat, j: nat)
    requires i < j < |s| && s[i] != s[j]
    ensures First(Swapped(s, i, j), s[j]) == Min(i, First(s, s[j]))
    ensures First(Swapped(s, i, j), s[i]) == FirstAfterMovingDown(s, i, j)
  {
    SplitAround(s, i, j);
    RanksOfParts(s[..i], s[i], s[i + 1..j], s[j], s[j + 1..]);
    hide First, Swapped;
  }

  lemma SplitAround(s: seq<string>, i: nat, j: nat)
    requires i < j < |s|
    ensures s == s[..i] + ([s[i]] + (s[i + 1..j] + ([s[j]] + s[j + 1..])))
    ensures Swapped(s, i, j) == s[..i] + ([s[j]] + (s[i + 1..j] + ([s[i]] + s[j + 1..])))
  {
  }

  lemma RanksOfParts(before: seq<string>, c: string, between: seq<string>, d: string, rest: seq<string>)
    requires c != d
    ensures var s := before + ([c] + (between + ([d] + rest)));
            var t := before + ([d] + (between + ([c] + rest)));
            && First(t, d) == Min(|before|, First(s, d))
            && First(t, c) == if First(s, c) < |before| then First(s, c) else |before| + 1 + First(between, c)
  {
    var s', t' := [c] + (between + ([d] + rest)), [d] + (between + ([c] + rest));
    FirstAppend(before, s', c);
    FirstAppend(before, s', d);
    FirstAppend(before, t', c);
    FirstAppend(before, t', d);
    MovedDown(between, c, d, rest);
    hide First;
  }

  lemma MovedDown(between: seq<string>, c: string, d: string, rest: seq<string>)
    requires c != d
    ensures First([d] + (between + ([c] + rest)), d) == 0
    ensures First([d] + (between + ([c] + rest)), c) == 1 + First(between, c)
    ensures First([c] + (between + ([d] + rest)), c) == 0
  {
    FirstAppend([d], between + ([c] + rest), c);
    FirstAppend(between, [c] + rest, c);
  }

  lemma {:induction false} FirstAppend(a: seq<string>, b: seq<string>, d: string)
    ensures First(a + b, d) == if d in a then First(a, d) else |a| + First(b, d)
  {
    if a == [] {
      assert a + b == b;
    } else {
      assert (a + b)[1..] == a[1..] + b;
      assert a == [a[0]] + a[1..];
      FirstAppend(a[1..], b, d);
    }
  }

  /** A swap of two different documents lowers DCG exactly when what they earn at their new first ranks is less. */
  lemma SwapLowersExactly(scale: Scale, rel: RelevanceMap, s: seq<string>, k: nat, i: nat, j: nat)
    requires scale.Valid() && rel.Valid() && i < j < |s| && s[i] != s[j]
    ensures Dcg(scale, rel, Swapped(s, i, j), k) < Dcg(scale, rel, s, k) <==>
            Earned(scale, rel, s[i], FirstAfterMovingDown(s, i, j), k)
                + Earned(scale, rel, s[j], Min(i, First(s, s[j])), k)
            < Earned(scale, rel, s[i], First(s, s[i]), k) + Earned(scale, rel, s[j], First(s, s[j]), k)
  {
    SwapExactly(scale, rel, s, k, i, j);
    RanksAfterSwap(s, i, j);
    FirstIs(s, s[i], i);
    FirstIs(s, s[j], j);
    hide Dcg, First, Worth;
  }
}
