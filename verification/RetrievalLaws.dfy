/** What nDCG and the other retrieval metrics promise on every ranking, repeats included. */
module RetrievalLaws {
  import opened Arithmetic
  import opened Orders
  import opened DiscountedSums
  import opened RetrievalMetrics

  function Worth(scale: Scale, grades: map<string, real>, d: string): real {
    if d in grades then scale.gain(grades[d]) else 0.0
  }

  // ----- a prefix of ranks earns what the set of documents in it is worth -----

  function FoundGain(scale: Scale, grades: map<string, real>, order: seq<string>, seen: set<string>): real {
    if order == [] then 0.0
    else (if order[0] in seen then Worth(scale, grades, order[0]) else 0.0)
         + FoundGain(scale, grades, order[1..], seen)
  }

  function FoundCount(order: seq<string>, seen: set<string>): (n: nat)
    ensures n <= |order|
  {
    if order == [] then 0 else (if order[0] in seen then 1 else 0) + FoundCount(order[1..], seen)
  }

  lemma {:induction false} FoundNothing(scale: Scale, grades: map<string, real>, order: seq<string>)
    ensures FoundGain(scale, grades, order, {}) == 0.0
    ensures FoundCount(order, {}) == 0
  {
    if order != [] {
      FoundNothing(scale, grades, order[1..]);
    }
  }

  lemma {:induction false} FoundOneMore(scale: Scale, grades: map<string, real>, order: seq<string>,
                                        seen: set<string>, d: string)
    requires NoDuplicates(order) && d !in seen
    ensures FoundGain(scale, grades, order, seen + {d})
         == FoundGain(scale, grades, order, seen) + if d in order then Worth(scale, grades, d) else 0.0
    ensures FoundCount(order, seen + {d}) == FoundCount(order, seen) + if d in order then 1 else 0
  {
    if order != [] {
      var rest := order[1..];
      assert order == [order[0]] + rest;
      assert forall i :: 0 <= i < |rest| ==> rest[i] == order[i + 1];
      FoundOneMore(scale, grades, rest, seen, d);
    }
  }

  function Reach(retrieved: seq<string>, n: nat): set<string> {
    SetOf(Top(retrieved, n))
  }

  lemma {:induction false} PrefixEarns(scale: Scale, rel: RelevanceMap, retrieved: seq<string>, k: nat, n: nat)
    requires rel.Valid() && n <= k
    ensures Prefix(RankGains(scale, rel, retrieved, k), n)
         == FoundGain(scale, rel.grades, rel.order, Reach(retrieved, n))
    ensures FoundCount(rel.order, Reach(retrieved, n)) <= n
  {
    InOrder(rel);
    if n == 0 {
      assert Reach(retrieved, 0) == {};
      FoundNothing(scale, rel.grades, rel.order);
    } else {
      PrefixEarns(scale, rel, retrieved, k, n - 1);
      var before := Reach(retrieved, n - 1);
      if n <= |retrieved| {
        var d := retrieved[n - 1];
        assert Top(retrieved, n) == Top(retrieved, n - 1) + [d];
        assert Reach(retrieved, n) == before + {d};
        if d in before {
          assert Reach(retrieved, n) == before;
        } else {
          FoundOneMore(scale, rel.grades, rel.order, before, d);
        }
      } else {
        assert Top(retrieved, n) == Top(retrieved, n - 1);
      }
    }
  }

  // ----- no set of j documents is worth more than the j best -----

  /** The total by which gains exceed a threshold t. */
  function Excess(scale: Scale, values: seq<real>, t: real): real {
    if values == [] then 0.0 else Above(scale, values[0], t) + Excess(scale, values[1..], t)
  }

  function Above(scale: Scale, value: real, t: real): real {
    if scale.gain(value) > t then scale.gain(value) - t else 0.0
  }

  /** n copies of t. */
  function Times(t: real, n: nat): real {
    if n == 0 then 0.0 else Times(t, n - 1) + t
  }

  lemma {:induction false} TimesMonotone(t: real, m: nat, n: nat)
    requires t >= 0.0 && m <= n
    ensures Times(t, m) <= Times(t, n)
  {
    if m < n {
      TimesMonotone(t, m, n - 1);
    }
  }

  lemma {:induction false} ExcessInsert(scale: Scale, x: real, s: seq<real>, t: real)
    ensures Excess(scale, Insert(RealGe, x, s), t) == Above(scale, x, t) + Excess(scale, s, t)
  {
    if s == [] || RealGe(x, s[0]) {
      assert ([x] + s)[1..] == s;
    } else {
      ExcessInsert(scale, x, s[1..], t);
      assert ([s[0]] + Insert(RealGe, x, s[1..]))[1..] == Insert(RealGe, x, s[1..]);
    }
  }

  lemma {:induction false} ExcessSort(scale: Scale, s: seq<real>, t: real)
    ensures Excess(scale, Sort(RealGe, s), t) == Excess(scale, s, t)
  {
    if s != [] {
      ExcessSort(scale, s[1..], t);
      ExcessInsert(scale, s[0], Sort(RealGe, s[1..]), t);
    }
  }

  lemma {:induction false} ExcessAppend(scale: Scale, s: seq<real>, x: real, t: real)
    ensures Excess(scale, s + [x], t) == Excess(scale, s, t) + Above(scale, x, t)
  {
    if s == [] {
      assert s + [x] == [x];
    } else {
      assert (s + [x])[1..] == s[1..] + [x];
      ExcessAppend(scale, s[1..], x, t);
    }
  }

  lemma {:induction false} FoundBelowExcess(
    scale: Scale, grades: map<string, real>, order: seq<string>, values: seq<real>, seen: set<string>, t: real)
    requires |values| == |order|
    requires forall i :: 0 <= i < |order| ==> order[i] in grades && values[i] == grades[order[i]]
    requires t >= 0.0
    ensures FoundGain(scale, grades, order, seen) <= Excess(scale, values, t) + Times(t, FoundCount(order, seen))
  {
    if order != [] {
      FoundBelowExcess(scale, grades, order[1..], values[1..], seen, t);
    }
  }

  lemma GainOrdered(scale: Scale, x: real, y: real)
    requires scale.Valid() && 0.0 <= x <= y
    ensures 0.0 <= scale.gain(x) <= scale.gain(y)
    ensures x > 0.0 ==> scale.gain(x) > 0.0
  {
    assert x < y ==> Below(x, y);
    assert 0.0 < x ==> Below(0.0, x);
  }

  lemma {:induction false} ExcessOfLeaders(scale: Scale, ideal: seq<real>, k: nat, t: real, n: nat)
    requires n <= k && n <= |ideal|
    requires forall i :: 0 <= i < n ==> scale.gain(ideal[i]) >= t
    ensures Excess(scale, ideal[..n], t) + Times(t, n) == Prefix(IdealGains(scale, ideal, k), n)
  {
    if n > 0 {
      ExcessOfLeaders(scale, ideal, k, t, n - 1);
      assert ideal[..n] == ideal[..n - 1] + [ideal[n - 1]];
      ExcessAppend(scale, ideal[..n - 1], ideal[n - 1], t);
    }
  }

  lemma {:induction false} ExcessOfFollowers(scale: Scale, ideal: seq<real>, t: real, m: nat, n: nat)
    requires m <= n <= |ideal|
    requires forall i :: m <= i < n ==> scale.gain(ideal[i]) <= t
    ensures Excess(scale, ideal[..n], t) == Excess(scale, ideal[..m], t)
  {
    if m < n {
      ExcessOfFollowers(scale, ideal, t, m, n - 1);
      assert ideal[..n] == ideal[..n - 1] + [ideal[n - 1]];
      ExcessAppend(scale, ideal[..n - 1], ideal[n - 1], t);
    }
  }

  lemma ExcessSplits(scale: Scale, ideal: seq<real>, k: nat, t: real, m: nat)
    requires m <= k && m <= |ideal|
    requires forall i :: 0 <= i < m ==> scale.gain(ideal[i]) >= t
    requires forall i :: m <= i < |ideal| ==> scale.gain(ideal[i]) <= t
    ensures Excess(scale, ideal, t) + Times(t, m) == Prefix(IdealGains(scale, ideal, k), m)
  {
    ExcessOfLeaders(scale, ideal, k, t, m);
    ExcessOfFollowers(scale, ideal, t, m, |ideal|);
    assert ideal[..|ideal|] == ideal;
  }

  /** With the threshold at the next value of a descending list, the excess is what lies before it. */
  lemma ExcessOfSorted(scale: Scale, ideal: seq<real>, k: nat, j: nat)
    requires scale.Valid() && SortedBy(RealGe, ideal)
    requires forall i :: 0 <= i < |ideal| ==> ideal[i] > 0.0
    requires j <= k
    ensures Excess(scale, ideal, IdealGain(scale, ideal, j)) + Times(IdealGain(scale, ideal, j), Min(|ideal|, j))
         == Prefix(IdealGains(scale, ideal, k), Min(|ideal|, j))
  {
    var t, m := IdealGain(scale, ideal, j), Min(|ideal|, j);
    forall i | 0 <= i < |ideal|
      ensures i < m ==> scale.gain(ideal[i]) >= t
      ensures i >= m ==> scale.gain(ideal[i]) <= t
    {
      NextValueSeparates(scale, ideal, j, i);
    }
    ExcessSplits(scale, ideal, k, t, m);
  }

  lemma NextValueSeparates(scale: Scale, ideal: seq<real>, j: nat, i: nat)
    requires scale.Valid() && SortedBy(RealGe, ideal)
    requires forall n :: 0 <= n < |ideal| ==> ideal[n] > 0.0
    requires i < |ideal|
    ensures i < j ==> scale.gain(ideal[i]) >= IdealGain(scale, ideal, j)
    ensures i >= j ==> scale.gain(ideal[i]) <= IdealGain(scale, ideal, j)
  {
    if i < j < |ideal| {
      assert RealGe(ideal[i], ideal[j]);
      GainOrdered(scale, ideal[j], ideal[i]);
    } else if i < j {
      GainOrdered(scale, 0.0, ideal[i]);
    } else if j < i {
      assert RealGe(ideal[j], ideal[i]);
      GainOrdered(scale, ideal[i], ideal[j]);
    }
  }

  lemma {:induction false} PrefixPastIdeal(scale: Scale, ideal: seq<real>, k: nat, j: nat)
    requires j <= k
    ensures Prefix(IdealGains(scale, ideal, k), j) == Prefix(IdealGains(scale, ideal, k), Min(|ideal|, j))
  {
    if j > |ideal| {
      PrefixPastIdeal(scale, ideal, k, j - 1);
    }
  }

  lemma IdealSound(rel: RelevanceMap)
    requires rel.Valid()
    ensures forall d :: d in rel.order <==> d in rel.grades
    ensures SortedBy(RealGe, Ideal(rel)) && |Ideal(rel)| == |rel.order|
    ensures forall i :: 0 <= i < |Ideal(rel)| ==> Ideal(rel)[i] > 0.0
  {
    InOrder(rel);
    SortCorrect(RealGe, rel.Values());
    SortMembers(RealGe, rel.Values());
    forall i | 0 <= i < |Ideal(rel)| ensures Ideal(rel)[i] > 0.0 {
      assert Ideal(rel)[i] in rel.Values();
    }
  }

  /** At every rank, the ideal ranking has gained at least as much as any ranking. */
  lemma IdealLeads(scale: Scale, rel: RelevanceMap, retrieved: seq<string>, k: nat, j: nat)
    requires scale.Valid() && rel.Valid() && j <= k
    ensures (InOrder(rel);
             Prefix(RankGains(scale, rel, retrieved, k), j) <= Prefix(IdealGains(scale, Ideal(rel), k), j))
  {
    IdealSound(rel);
    var ideal := Ideal(rel);
    var t := IdealGain(scale, ideal, j);
    var seen := Reach(retrieved, j);
    var count := FoundCount(rel.order, seen);
    PrefixEarns(scale, rel, retrieved, k, j);
    if j < |ideal| {
      GainOrdered(scale, 0.0, ideal[j]);
    }
    FoundBelowExcess(scale, rel.grades, rel.order, rel.Values(), seen, t);
    ExcessSort(scale, rel.Values(), t);
    ExcessOfSorted(scale, ideal, k, j);
    PrefixPastIdeal(scale, ideal, k, j);
    TimesMonotone(t, count, Min(|ideal|, j));
  }

  lemma GainsNonNegative(scale: Scale, rel: RelevanceMap, retrieved: seq<string>, k: nat)
    requires scale.Valid() && rel.Valid()
    ensures forall i :: 0 <= i < k ==> RankGains(scale, rel, retrieved, k)[i] >= 0.0
  {
    forall i | 0 <= i < k ensures RankGain(scale, rel, retrieved, i) >= 0.0 {
      if i < |retrieved| && retrieved[i] in rel.grades {
        assert Below(0.0, rel.grades[retrieved[i]]);
      }
    }
  }

  /** nDCG lies in [0, 1] for every ranking; it is 1 exactly when every rank earns what the ideal earns. */
  lemma NdcgInUnitInterval(scale: Scale, rel: RelevanceMap, retrieved: seq<string>, k: nat)
    requires scale.Valid() && rel.Valid()
    ensures 0.0 <= Ndcg(scale, rel, retrieved, k) <= 1.0
    ensures Dcg(scale, rel, retrieved, k) <= Idcg(scale, rel, k)
    ensures k > 0 && rel.order != [] ==> Idcg(scale, rel, k) > 0.0
    ensures (InOrder(rel);
             k > 0 && rel.order != [] ==>
               (Ndcg(scale, rel, retrieved, k) == 1.0
                <==> RankGains(scale, rel, retrieved, k) == IdealGains(scale, Ideal(rel), k)))
  {
    IdealSound(rel);
    var g, h := RankGains(scale, rel, retrieved, k), IdealGains(scale, Ideal(rel), k);
    forall j | 0 <= j <= k ensures Prefix(g, j) <= Prefix(h, j) {
      IdealLeads(scale, rel, retrieved, k, j);
    }
    DiscountedDominates(g, h, scale.log, k);
    GainsNonNegative(scale, rel, retrieved, k);
    DiscountedSign(g, scale.log, k);
    forall i | 0 <= i < k ensures h[i] >= 0.0 && (i < |rel.order| ==> h[i] > 0.0) {
      assert i < |Ideal(rel)| ==> Below(0.0, Ideal(rel)[i]);
    }
    DiscountedSign(h, scale.log, k);
    if k > 0 && rel.order != [] {
      assert h[0] > 0.0;
      RatioInUnitInterval(Dcg(scale, rel, retrieved, k), Idcg(scale, rel, k));
      assert g[..k] == g && h[..k] == h;
    }
  }

  lemma RatioInUnitInterval(x: real, y: real)
    requires 0.0 <= x <= y && y > 0.0
    ensures 0.0 <= x / y <= 1.0
    ensures x / y == 1.0 <==> x == y
    ensures x / y > 0.0 <==> x > 0.0
  {
  }

  /** A ranking of exactly the relevant documents by falling grade scores 1 at every k. */
  lemma IdealRankingIsPerfect(scale: Scale, rel: RelevanceMap, retrieved: seq<string>, k: nat)
    requires scale.Valid() && rel.Valid() && k > 0 && rel.order != []
    requires NoDuplicates(retrieved) && SetOf(retrieved) == rel.grades.Keys
    requires forall d :: d in retrieved ==> d in rel.grades
    requires forall i, j :: 0 <= i < j < |retrieved| ==> rel.grades[retrieved[i]] >= rel.grades[retrieved[j]]
    ensures Ndcg(scale, rel, retrieved, k) == 1.0
  {
    InOrder(rel);
    var along := GradesAlong(rel.grades, retrieved);
    SameGrades(rel.grades, retrieved, rel.order);
    assert GradesAlong(rel.grades, rel.order) == rel.Values();
    SortCorrect(RealGe, rel.Values());
    SortedUnique(RealGe, along, Ideal(rel));
    forall i | 0 <= i < k ensures RankGain(scale, rel, retrieved, i) == IdealGain(scale, Ideal(rel), i) {
      if i < |retrieved| {
        assert retrieved[i] !in retrieved[..i];
        assert along[i] == rel.grades[retrieved[i]];
      }
    }
    NdcgInUnitInterval(scale, rel, retrieved, k);
    assert RankGains(scale, rel, retrieved, k) == IdealGains(scale, Ideal(rel), k);
  }

  function GradesAlong(grades: map<string, real>, s: seq<string>): seq<real>
    requires forall d :: d in s ==> d in grades
  {
    seq(|s|, i requires 0 <= i < |s| => grades[s[i]])
  }

  lemma {:induction false} SameGrades(grades: map<string, real>, a: seq<string>, b: seq<string>)
    requires NoDuplicates(a) && NoDuplicates(b)
    requires forall d :: d in a <==> d in b
    requires forall d :: d in a ==> d in grades
    ensures multiset(GradesAlong(grades, a)) == multiset(GradesAlong(grades, b))
    decreases |a|
  {
    hide GradesAlong, NoDuplicates;
    assert b != [] ==> b[0] in a;
    if a == [] {
    } else {
      assert a[0] in b;
      var i :| 0 <= i < |b| && b[i] == a[0];
      var rest := b[..i] + b[i + 1..];
      WithoutOne(a, b, i);
      GradesFirst(grades, a);
      GradesAround(grades, b, i);
      SameGrades(grades, a[1..], rest);
    }
  }

  lemma GradesFirst(grades: map<string, real>, a: seq<string>)
    requires a != [] && forall d :: d in a ==> d in grades
    ensures multiset(GradesAlong(grades, a)) == multiset(GradesAlong(grades, a[1..])) + multiset{grades[a[0]]}
  {
    assert GradesAlong(grades, a) == [grades[a[0]]] + GradesAlong(grades, a[1..]);
  }

  lemma GradesAround(grades: map<string, real>, b: seq<string>, i: nat)
    requires i < |b| && forall d :: d in b ==> d in grades
    ensures multiset(GradesAlong(grades, b))
         == multiset(GradesAlong(grades, b[..i] + b[i + 1..])) + multiset{grades[b[i]]}
  {
    var x, y := GradesAlong(grades, b[..i]), GradesAlong(grades, b[i + 1..]);
    assert GradesAlong(grades, b[..i] + b[i + 1..]) == x + y;
    assert GradesAlong(grades, b) == x + [grades[b[i]]] + y;
  }

  lemma WithoutOne(a: seq<string>, b: seq<string>, i: nat)
    requires NoDuplicates(a) && NoDuplicates(b) && a != []
    requires forall d :: d in a <==> d in b
    requires i < |b| && b[i] == a[0]
    ensures var rest := b[..i] + b[i + 1..];
            && NoDuplicates(a[1..]) && NoDuplicates(rest)
            && forall d :: d in a[1..] <==> d in rest
  {
    var rest := b[..i] + b[i + 1..];
    assert a == [a[0]] + a[1..];
    assert b == b[..i] + [b[i]] + b[i + 1..];
    assert forall p :: 0 <= p < |rest| ==> rest[p] == b[if p < i then p else p + 1];
    forall d ensures d in a[1..] <==> d in rest {
      assert d in a <==> d in a[1..] || d == a[0];
      assert d in b <==> d in rest || d == b[i];
    }
  }

  // ----- swapping documents -----

  function Swapped(s: seq<string>, i: nat, j: nat): seq<string>
    requires i < |s| && j < |s|
  {
    s[i := s[j]][j := s[i]]
  }

  lemma SwapOutside(s: seq<string>, i: nat, j: nat, n: nat)
    requires i < j < |s| && (n <= i || j < n)
    ensures Reach(Swapped(s, i, j), n) == Reach(s, n)
  {
    var a, b := Top(Swapped(s, i, j), n), Top(s, n);
    if n <= i {
      assert a == b;
    } else {
      forall d ensures d in a <==> d in b {
        if d in a {
          var p :| 0 <= p < |a| && a[p] == d;
          assert b[if p == i then j else if p == j then i else p] == d;
        }
        if d in b {
          var p :| 0 <= p < |b| && b[p] == d;
          assert a[if p == i then j else if p == j then i else p] == d;
        }
      }
    }
  }

  lemma SwapInside(s: seq<string>, i: nat, j: nat, n: nat)
    requires i < j < |s| && i < n <= j
    ensures s[j] in Reach(Swapped(s, i, j), n) && s[i] in Reach(s, n)
    ensures Reach(Swapped(s, i, j), n) + {s[i]} == Reach(s, n) + {s[j]}
  {
    var a, b := Top(Swapped(s, i, j), n), Top(s, n);
    assert a[i] == s[j] && b[i] == s[i];
    forall d ensures d in a || d == s[i] <==> d in b || d == s[j] {
      if d in a {
        var p :| 0 <= p < |a| && a[p] == d;
        assert p != i ==> b[p] == d;
      }
      if d in b {
        var p :| 0 <= p < |b| && b[p] == d;
        assert p != i ==> a[p] == d;
      }
    }
  }

  /** Moving a document up past one worth no more never lowers DCG, unless that document is a repeat. */
  lemma SwapUpNeverLowers(scale: Scale, rel: RelevanceMap, s: seq<string>, k: nat, i: nat, j: nat)
    requires scale.Valid() && rel.Valid() && i < j < |s|
    requires Worth(scale, rel.grades, s[i]) <= Worth(scale, rel.grades, s[j])
    requires s[j] !in s[..j]
    ensures Dcg(scale, rel, s, k) <= Dcg(scale, rel, Swapped(s, i, j), k)
    ensures Ndcg(scale, rel, s, k) <= Ndcg(scale, rel, Swapped(s, i, j), k)
  {
    var t := Swapped(s, i, j);
    var g, h := RankGains(scale, rel, s, k), RankGains(scale, rel, t, k);
    forall n | 0 <= n <= k ensures Prefix(g, n) <= Prefix(h, n) {
      PrefixEarns(scale, rel, s, k, n);
      PrefixEarns(scale, rel, t, k, n);
      SwapUpFindsMore(scale, rel, s, i, j, n);
    }
    DiscountedDominates(g, h, scale.log, k);
    NdcgInUnitInterval(scale, rel, s, k);
    if Idcg(scale, rel, k) != 0.0 {
      GainsNonNegative(scale, rel, s, k);
      DiscountedSign(g, scale.log, k);
      RatioMonotone(Dcg(scale, rel, s, k), Dcg(scale, rel, t, k), Idcg(scale, rel, k));
    }
  }

  lemma RatioMonotone(x: real, y: real, z: real)
    requires x <= y && z > 0.0
    ensures x / z <= y / z
  {
  }

  lemma WorthNonNegative(scale: Scale, rel: RelevanceMap, d: string)
    requires scale.Valid() && rel.Valid()
    ensures Worth(scale, rel.grades, d) >= 0.0
    ensures d in rel.grades ==> Worth(scale, rel.grades, d) > 0.0
  {
    if d in rel.grades {
      assert Below(0.0, rel.grades[d]);
    }
  }

  lemma SwapUpFindsMore(scale: Scale, rel: RelevanceMap, s: seq<string>, i: nat, j: nat, n: nat)
    requires scale.Valid() && rel.Valid() && i < j < |s|
    requires Worth(scale, rel.grades, s[i]) <= Worth(scale, rel.grades, s[j])
    requires s[j] !in s[..j]
    ensures FoundGain(scale, rel.grades, rel.order, Reach(s, n))
         <= FoundGain(scale, rel.grades, rel.order, Reach(Swapped(s, i, j), n))
  {
    InOrder(rel);
    if n <= i || j < n {
      SwapOutside(s, i, j, n);
    } else {
      SwapInside(s, i, j, n);
      var after, before := Reach(Swapped(s, i, j), n), Reach(s, n);
      assert s[j] !in before by {
        assert forall d :: d in Top(s, n) ==> d in s[..j];
      }
      FoundOneMore(scale, rel.grades, rel.order, before, s[j]);
      if s[i] in after {
        assert after == before + {s[j]};
        WorthNonNegative(scale, rel, s[j]);
      } else {
        FoundOneMore(scale, rel.grades, rel.order, after, s[i]);
      }
    }
  }

  /** For neighbours the exact rule: the swap costs DCG only when a repeat displaces an earning document. */
  lemma AdjacentSwapLowersExactly(scale: Scale, rel: RelevanceMap, s: seq<string>, k: nat, i: nat)
    requires scale.Valid() && rel.Valid() && i + 1 < |s|
    requires Worth(scale, rel.grades, s[i]) <= Worth(scale, rel.grades, s[i + 1])
    ensures Dcg(scale, rel, Swapped(s, i, i + 1), k) < Dcg(scale, rel, s, k)
       <==> i < k && s[i + 1] in s[..i] && s[i] !in s[..i] && s[i] in rel.grades
  {
    var t := Swapped(s, i, i + 1);
    assert s[..i + 1] == s[..i] + [s[i]];
    if s[i + 1] !in s[..i + 1] {
      SwapUpNeverLowers(scale, rel, s, k, i, i + 1);
    } else if s[i] == s[i + 1] {
      assert t == s;
    } else {
      var g, h := RankGains(scale, rel, s, k), RankGains(scale, rel, t, k);
      var loses := s[i] !in s[..i] && s[i] in rel.grades;
      forall n | 0 <= n <= k
        ensures Prefix(h, n) <= Prefix(g, n)
        ensures n == i + 1 && loses ==> Prefix(h, n) < Prefix(g, n)
        ensures !(n == i + 1 && loses) ==> Prefix(h, n) == Prefix(g, n)
      {
        PrefixEarns(scale, rel, s, k, n);
        PrefixEarns(scale, rel, t, k, n);
        RepeatSwapFinds(scale, rel, s, i, n);
      }
      DiscountedDominates(h, g, scale.log, k);
      if i < k && loses {
        assert g[..k] == g && h[..k] == h;
        assert Prefix(h, i + 1) < Prefix(g, i + 1);
      } else {
        DiscountedDominates(g, h, scale.log, k);
      }
    }
  }

  /** Swapping a repeat up by one rank hides its neighbour from exactly one prefix. */
  lemma RepeatSwapFinds(scale: Scale, rel: RelevanceMap, s: seq<string>, i: nat, n: nat)
    requires scale.Valid() && rel.Valid() && i + 1 < |s|
    requires s[i + 1] in s[..i]
    ensures var before := FoundGain(scale, rel.grades, rel.order, Reach(s, n));
            var after := FoundGain(scale, rel.grades, rel.order, Reach(Swapped(s, i, i + 1), n));
            if n == i + 1 && s[i] !in s[..i] && s[i] in rel.grades then after < before else after == before
  {
    if n != i + 1 {
      SwapOutside(s, i, i + 1, n);
    } else {
      InOrder(rel);
      var base := SetOf(s[..i]);
      assert Top(Swapped(s, i, i + 1), n) == s[..i] + [s[i + 1]] && Top(s, n) == s[..i] + [s[i]];
      assert Reach(Swapped(s, i, i + 1), n) == base && Reach(s, n) == base + {s[i]};
      if s[i] in base {
        assert base + {s[i]} == base;
      } else {
        FoundOneMore(scale, rel.grades, rel.order, base, s[i]);
        WorthNonNegative(scale, rel, s[i]);
      }
    }
  }

  /** Without that side condition the law fails: in [a, b, a] moving the second "a" above "b" costs DCG. */
  lemma SwappingARepeatCanLower(scale: Scale)
    requires scale.Valid()
    ensures var rel := RelevanceMap(["a", "b"], map["a" := 2.0, "b" := 1.0]);
            && rel.Valid()
            && Worth(scale, rel.grades, "b") < Worth(scale, rel.grades, "a")
            && Dcg(scale, rel, Swapped(["a", "b", "a"], 1, 2), 3) < Dcg(scale, rel, ["a", "b", "a"], 3)
  {
    var rel := RelevanceMap(["a", "b"], map["a" := 2.0, "b" := 1.0]);
    assert "a" != "b" by { assert "a"[0] != "b"[0]; }
    assert SetOf(rel.order) == rel.grades.Keys;
    assert Below(1.0, 2.0);
    var s := ["a", "b", "a"];
    assert s[..1] == ["a"];
    AdjacentSwapLowersExactly(scale, rel, s, 3, 1);
  }

  // ----- the metrics agree -----

  lemma FirstOccurrence(s: seq<string>, d: string) returns (i: nat)
    requires d in s
    ensures i < |s| && s[i] == d && d !in s[..i]
  {
    i := 0;
    while s[i] != d
      invariant i < |s| && d !in s[..i]
      invariant exists p :: i <= p < |s| && s[p] == d
      decreases |s| - i
    {
      i := i + 1;
    }
  }

  lemma HitExactlyWhenGain(scale: Scale, rel: RelevanceMap, retrieved: seq<string>, k: nat)
    requires scale.Valid() && rel.Valid()
    ensures HitRate(rel, retrieved, k) == 1.0 <==> Dcg(scale, rel, retrieved, k) > 0.0
  {
    var g := RankGains(scale, rel, retrieved, k);
    var top := Top(retrieved, k);
    GainsNonNegative(scale, rel, retrieved, k);
    DiscountedSign(g, scale.log, k);
    if HitRate(rel, retrieved, k) == 1.0 {
      var d :| d in rel.grades.Keys * SetOf(top);
      var i := FirstOccurrence(top, d);
      assert top[..i] == retrieved[..i];
      assert Below(0.0, rel.grades[d]);
      assert g[i] > 0.0;
    }
    if i :| 0 <= i < k && g[i] > 0.0 {
      assert top[i] == retrieved[i];
      assert retrieved[i] in rel.grades.Keys * SetOf(top);
    }
  }

  /** Precision and recall count the same hits, and every metric agrees on whether there was one. */
  lemma MetricsAgree(scale: Scale, rel: RelevanceMap, retrieved: seq<string>, k: nat)
    requires scale.Valid() && rel.Valid() && k > 0
    ensures k as real * Precision(rel, retrieved, k) == |rel.grades| as real * Recall(rel, retrieved, k)
    ensures 0.0 <= Precision(rel, retrieved, k) <= 1.0 && 0.0 <= Recall(rel, retrieved, k) <= 1.0
    ensures HitRate(rel, retrieved, k) == 1.0 <==> Precision(rel, retrieved, k) > 0.0
    ensures HitRate(rel, retrieved, k) == 1.0 <==> Recall(rel, retrieved, k) > 0.0
    ensures HitRate(rel, retrieved, k) == 1.0 <==> Ndcg(scale, rel, retrieved, k) > 0.0
  {
    hide Precision, Recall, HitRate, Hits, Dcg, Ndcg;
    HitsBounds(rel, retrieved, k);
    HitExactlyWhenGain(scale, rel, retrieved, k);
    NdcgPositive(scale, rel, retrieved, k);
    PrecisionShare(rel, retrieved, k);
    RecallShare(rel, retrieved, k);
  }

  lemma NdcgPositive(scale: Scale, rel: RelevanceMap, retrieved: seq<string>, k: nat)
    requires scale.Valid() && rel.Valid() && k > 0
    ensures Ndcg(scale, rel, retrieved, k) > 0.0 <==> Dcg(scale, rel, retrieved, k) > 0.0
  {
    NdcgInUnitInterval(scale, rel, retrieved, k);
    InOrder(rel);
    hide Dcg, Idcg;
    if rel.order != [] {
      RatioInUnitInterval(Dcg(scale, rel, retrieved, k), Idcg(scale, rel, k));
    } else {
      assert rel.grades.Keys == {};
      NothingRelevant(scale, rel, k);
    }
  }

  lemma PrecisionShare(rel: RelevanceMap, retrieved: seq<string>, k: nat)
    requires k > 0
    ensures k as real * Precision(rel, retrieved, k) == Hits(rel, retrieved, k) as real
    ensures 0.0 <= Precision(rel, retrieved, k) <= 1.0
    ensures Precision(rel, retrieved, k) > 0.0 <==> Hits(rel, retrieved, k) > 0
  {
    hide Hits;
    HitsBounds(rel, retrieved, k);
    Share(Hits(rel, retrieved, k), k);
  }

  lemma RecallShare(rel: RelevanceMap, retrieved: seq<string>, k: nat)
    ensures |rel.grades| as real * Recall(rel, retrieved, k) == Hits(rel, retrieved, k) as real
    ensures 0.0 <= Recall(rel, retrieved, k) <= 1.0
    ensures Recall(rel, retrieved, k) > 0.0 <==> Hits(rel, retrieved, k) > 0
  {
    hide Hits;
    HitsBounds(rel, retrieved, k);
    if |rel.grades| > 0 {
      Share(Hits(rel, retrieved, k), |rel.grades|);
    }
  }

  lemma Share(x: nat, y: nat)
    requires x <= y && y > 0
    ensures 0.0 <= x as real / y as real <= 1.0
    ensures x as real / y as real > 0.0 <==> x > 0
    ensures y as real * (x as real / y as real) == x as real
  {
    RatioInUnitInterval(x as real, y as real);
    RatioTimes(x as real, y as real);
  }

  lemma RatioTimes(x: real, y: real)
    requires y != 0.0
    ensures y * (x / y) == x
  {
  }

  lemma HitsBounds(rel: RelevanceMap, retrieved: seq<string>, k: nat)
    ensures Hits(rel, retrieved, k) <= k && Hits(rel, retrieved, k) <= |rel.grades|
    ensures HitRate(rel, retrieved, k) == 1.0 <==> Hits(rel, retrieved, k) > 0
  {
    var top := Top(retrieved, k);
    var found := rel.grades.Keys * SetOf(top);
    assert |rel.grades.Keys| == |rel.grades|;
    SubsetSize(found, rel.grades.Keys);
    SubsetSize(found, SetOf(top));
    SetOfSize(top);
    if found != {} {
      var d :| d in found;
      assert |found| > 0;
    }
  }

  lemma SubsetSize<T>(a: set<T>, b: set<T>)
    requires a <= b
    ensures |a| <= |b|
  {
    assert b == a + (b - a);
  }

  lemma {:induction false} SetOfSize<T>(s: seq<T>)
    ensures |SetOf(s)| <= |s|
  {
    if s != [] {
      SetOfSize(s[1..]);
      assert s == [s[0]] + s[1..];
      assert SetOf(s) == {s[0]} + SetOf(s[1..]);
    }
  }
}
