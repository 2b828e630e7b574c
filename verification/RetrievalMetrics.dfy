/** The retrieval metrics of src/evalops/evaluators/retrieval/metrics.py. */
module RetrievalMetrics {
  import opened Orders
  import opened Results
  import opened Arithmetic
  import opened DiscountedSums

  datatype Error = InvalidK

  /** The ground truth of a query: a list of IDs, or a dict from IDs to grades in insertion order. */
  datatype RelevanceInput = Listed(ids: seq<string>) | Graded(order: seq<string>, grades: map<string, real>) {
    predicate WellFormed() {
      Graded? ==> NoDuplicates(order) && SetOf(order) == grades.Keys
    }
  }

  /** A dict from document ID to positive relevance, with its keys in insertion order. */
  datatype RelevanceMap = RelevanceMap(order: seq<string>, grades: map<string, real>) {
    ghost predicate Valid() {
      && NoDuplicates(order)
      && SetOf(order) == grades.Keys
      && (forall d :: d in grades ==> grades[d] > 0.0)
    }

    function Values(): seq<real>
      requires forall d :: d in order ==> d in grades
    {
      seq(|order|, i requires 0 <= i < |order| => grades[order[i]])
    }
  }

  /** Exponential gain 2 ** r - 1 and the rank discount log2(rank + 2), as far as the metrics need them. */
  datatype Scale = Scale(gain: real -> real, log: nat -> real) {
    ghost predicate Valid() {
      && Discount(log)
      && gain(0.0) == 0.0
      && (forall x, y {:trigger Below(x, y)} :: Below(x, y) ==> gain(x) < gain(y))
    }
  }

  predicate Below(x: real, y: real) { 0.0 <= x < y }

  function KeepPositive(order: seq<string>, grades: map<string, real>): (r: seq<string>)
    requires forall d :: d in order ==> d in grades
    ensures forall d :: d in r <==> d in order && grades[d] > 0.0
    ensures NoDuplicates(order) ==> NoDuplicates(r)
  {
    if order == [] then []
    else
      var rest := KeepPositive(order[1..], grades);
      assert order == [order[0]] + order[1..];
      if grades[order[0]] > 0.0 then [order[0]] + rest else rest
  }

  function ToRelevanceMap(input: RelevanceInput): (r: RelevanceMap)
    requires input.WellFormed()
    ensures r.Valid()
    ensures input.Listed? ==> r.grades.Keys == SetOf(input.ids) && forall d :: d in r.grades ==> r.grades[d] == 1.0
    ensures input.Graded? ==>
              forall d :: (d in r.grades <==> d in input.grades && input.grades[d] > 0.0)
                          && (d in r.grades ==> r.grades[d] == input.grades[d])
  {
    match input
    case Listed(ids) =>
      var order := Deduplicate(ids);
      RelevanceMap(order, map d | d in order :: 1.0)
    case Graded(order, grades) =>
      var kept := KeepPositive(order, grades);
      assert forall d :: d in order ==> d in SetOf(order);
      RelevanceMap(kept, map d | d in kept :: grades[d])
  }

  /** The documents a metric at k may look at. */
  function Top(retrieved: seq<string>, k: nat): seq<string> {
    retrieved[..Min(k, |retrieved|)]
  }

  // ----- precision, recall, hit rate, reciprocal rank -----

  function Hits(rel: RelevanceMap, retrieved: seq<string>, k: nat): nat {
    |rel.grades.Keys * SetOf(Top(retrieved, k))|
  }

  function Precision(rel: RelevanceMap, retrieved: seq<string>, k: nat): real
    requires k > 0
  {
    Hits(rel, retrieved, k) as real / k as real
  }

  function Recall(rel: RelevanceMap, retrieved: seq<string>, k: nat): real {
    if |rel.grades| == 0 then 0.0 else Hits(rel, retrieved, k) as real / |rel.grades| as real
  }

  function HitRate(rel: RelevanceMap, retrieved: seq<string>, k: nat): real {
    if rel.grades.Keys * SetOf(Top(retrieved, k)) != {} then 1.0 else 0.0
  }

  ghost predicate FirstRelevant(rel: RelevanceMap, retrieved: seq<string>, i: nat) {
    i < |retrieved| && retrieved[i] in rel.grades && forall j :: 0 <= j < i ==> retrieved[j] !in rel.grades
  }

  function ReciprocalFrom(rel: RelevanceMap, retrieved: seq<string>, i: nat): real
    decreases |retrieved| - i
  {
    if i >= |retrieved| then 0.0
    else if retrieved[i] in rel.grades then 1.0 / (i + 1) as real
    else ReciprocalFrom(rel, retrieved, i + 1)
  }

  /** 1 / rank of the first relevant document, ranks counted from one. */
  method ReciprocalRank(rel: RelevanceMap, retrieved: seq<string>) returns (r: real)
    ensures forall i :: FirstRelevant(rel, retrieved, i) ==> r == 1.0 / (i + 1) as real
    ensures (forall i :: 0 <= i < |retrieved| ==> retrieved[i] !in rel.grades) ==> r == 0.0
    ensures r == ReciprocalFrom(rel, retrieved, 0)
    ensures 0.0 <= r <= 1.0
    ensures forall k: nat :: k > 0 ==> (r >= 1.0 / k as real <==> HitRate(rel, retrieved, k) == 1.0)
  {
    for rank := 0 to |retrieved|
      invariant forall j :: 0 <= j < rank ==> retrieved[j] !in rel.grades
      invariant ReciprocalFrom(rel, retrieved, 0) == ReciprocalFrom(rel, retrieved, rank)
    {
      if retrieved[rank] in rel.grades {
        r := 1.0 / (rank + 1) as real;
        forall k: nat | k > 0 ensures r >= 1.0 / k as real <==> HitRate(rel, retrieved, k) == 1.0 {
          HitWithin(rel, retrieved, rank, k);
          ReciprocalOrder(rank + 1, k);
        }
        return;
      }
    }
    r := 0.0;
    forall k: nat | k > 0 ensures r < 1.0 / k as real && HitRate(rel, retrieved, k) == 0.0 {
      assert forall d :: d in Top(retrieved, k) ==> d in retrieved;
    }
  }

  lemma ReciprocalOrder(a: nat, b: nat)
    requires a > 0 && b > 0
    ensures 0.0 < 1.0 / a as real <= 1.0
    ensures 1.0 / a as real >= 1.0 / b as real <==> a <= b
  {
    if a <= b {
      DivisionShrinks(1.0, a as real, b as real);
    } else {
      DivisionShrinks(1.0, b as real, a as real);
    }
    DivisionShrinks(1.0, 1.0, a as real);
  }

  lemma HitWithin(rel: RelevanceMap, retrieved: seq<string>, first: nat, k: nat)
    requires FirstRelevant(rel, retrieved, first)
    ensures HitRate(rel, retrieved, k) == 1.0 <==> first < k
  {
    var top := Top(retrieved, k);
    if first < k {
      assert top[first] == retrieved[first];
      assert retrieved[first] in rel.grades.Keys * SetOf(top);
    } else {
      assert forall d :: d in top ==> d !in rel.grades;
    }
  }

  /** The ranks below k, counted from zero, at which a relevant document is found for the first time. */
  function Finds(rel: RelevanceMap, retrieved: seq<string>, k: nat): set<nat> {
    set i | 0 <= i < k && i < |retrieved| && retrieved[i] in rel.grades && retrieved[i] !in retrieved[..i]
  }

  lemma {:induction false} HitsAreFinds(rel: RelevanceMap, retrieved: seq<string>, k: nat)
    ensures Hits(rel, retrieved, k) == |Finds(rel, retrieved, k)|
  {
    hide Finds, Hits, FindAt;
    if k == 0 {
      NothingFound(rel, retrieved);
    } else {
      HitsAreFinds(rel, retrieved, k - 1);
      FindsNext(rel, retrieved, k - 1);
      HitsNext(rel, retrieved, k - 1);
    }
  }

  lemma NothingFound(rel: RelevanceMap, retrieved: seq<string>)
    ensures Hits(rel, retrieved, 0) == |Finds(rel, retrieved, 0)| == 0
  {
    assert rel.grades.Keys * SetOf(Top(retrieved, 0)) == {} && Finds(rel, retrieved, 0) == {};
  }

  predicate FindAt(rel: RelevanceMap, retrieved: seq<string>, i: nat) {
    i < |retrieved| && retrieved[i] in rel.grades && retrieved[i] !in retrieved[..i]
  }

  lemma FindsNext(rel: RelevanceMap, retrieved: seq<string>, k: nat)
    ensures |Finds(rel, retrieved, k + 1)|
         == |Finds(rel, retrieved, k)| + if FindAt(rel, retrieved, k) then 1 else 0
  {
    assert Finds(rel, retrieved, k + 1)
        == Finds(rel, retrieved, k) + if FindAt(rel, retrieved, k) then {k} else {};
  }

  lemma HitsNext(rel: RelevanceMap, retrieved: seq<string>, k: nat)
    ensures Hits(rel, retrieved, k + 1) == Hits(rel, retrieved, k) + if FindAt(rel, retrieved, k) then 1 else 0
  {
    var before, after := rel.grades.Keys * SetOf(Top(retrieved, k)), rel.grades.Keys * SetOf(Top(retrieved, k + 1));
    if k < |retrieved| {
      assert retrieved[..k + 1] == retrieved[..k] + [retrieved[k]];
      assert after == before + if FindAt(rel, retrieved, k) then {retrieved[k]} else {};
    } else {
      assert Top(retrieved, k + 1) == Top(retrieved, k);
    }
  }

  // ----- nDCG -----

  /** The gain credited at a rank: nothing for a repeat, for an irrelevant document or past the list. */
  function RankGain(scale: Scale, rel: RelevanceMap, retrieved: seq<string>, i: nat): real {
    if i >= |retrieved| || retrieved[i] in retrieved[..i] || retrieved[i] !in rel.grades then 0.0
    else scale.gain(rel.grades[retrieved[i]])
  }

  function RankGains(scale: Scale, rel: RelevanceMap, retrieved: seq<string>, k: nat): seq<real> {
    seq(k, i requires 0 <= i < k => RankGain(scale, rel, retrieved, i))
  }

  /** The relevance values in descending order. */
  function Ideal(rel: RelevanceMap): seq<real>
    requires forall d :: d in rel.order ==> d in rel.grades
  {
    Sort(RealGe, rel.Values())
  }

  function IdealGain(scale: Scale, ideal: seq<real>, i: nat): real {
    if i < |ideal| then scale.gain(ideal[i]) else 0.0
  }

  function IdealGains(scale: Scale, ideal: seq<real>, k: nat): seq<real> {
    seq(k, i requires 0 <= i < k => IdealGain(scale, ideal, i))
  }

  ghost function Dcg(scale: Scale, rel: RelevanceMap, retrieved: seq<string>, k: nat): real
    requires scale.Valid()
  {
    Discounted(RankGains(scale, rel, retrieved, k), scale.log, k)
  }

  ghost function Idcg(scale: Scale, rel: RelevanceMap, k: nat): real
    requires scale.Valid() && rel.Valid()
  {
    InOrder(rel);
    Discounted(IdealGains(scale, Ideal(rel), k), scale.log, k)
  }

  ghost function Ndcg(scale: Scale, rel: RelevanceMap, retrieved: seq<string>, k: nat): real
    requires scale.Valid() && rel.Valid()
  {
    if Idcg(scale, rel, k) == 0.0 then 0.0 else Dcg(scale, rel, retrieved, k) / Idcg(scale, rel, k)
  }

  lemma InOrder(rel: RelevanceMap)
    requires rel.Valid()
    ensures forall d :: d in rel.order <==> d in rel.grades
  {
    assert forall d :: d in rel.order <==> d in SetOf(rel.order);
  }

  /** The loop of the source over the first k ranks: a repeat earns nothing but keeps its rank. */
  method AccumulateGain(scale: Scale, rel: RelevanceMap, retrieved: seq<string>, k: nat) returns (dcg: real)
    requires scale.Valid()
    ensures dcg == Dcg(scale, rel, retrieved, k)
  {
    ghost var gains := RankGains(scale, rel, retrieved, k);
    var m := Min(k, |retrieved|);
    var seen: set<string> := {};
    dcg := 0.0;
    for rank := 0 to m
      invariant forall d :: d in seen <==> d in retrieved[..rank]
      invariant dcg == Discounted(gains, scale.log, rank)
    {
      var d := retrieved[rank];
      assert retrieved[..rank + 1] == retrieved[..rank] + [d];
      assert gains[rank] == RankGain(scale, rel, retrieved, rank);
      if d in seen {
        continue;
      }
      seen := seen + {d};
      if d in rel.grades {
        dcg := dcg + scale.gain(rel.grades[d]) / scale.log(rank);
      }
    }
    DiscountedZeros(gains, scale.log, m, k);
  }

  method AccumulateIdeal(scale: Scale, rel: RelevanceMap, k: nat) returns (idcg: real)
    requires scale.Valid() && rel.Valid()
    ensures idcg == Idcg(scale, rel, k)
  {
    InOrder(rel);
    var ideal := Ideal(rel);
    ghost var gains := IdealGains(scale, ideal, k);
    idcg := 0.0;
    var n := Min(k, |ideal|);
    for rank := 0 to n
      invariant idcg == Discounted(gains, scale.log, rank)
    {
      assert gains[rank] == scale.gain(ideal[rank]);
      idcg := idcg + scale.gain(ideal[rank]) / scale.log(rank);
    }
    DiscountedZeros(gains, scale.log, n, k);
  }

  method NdcgAtK(scale: Scale, input: RelevanceInput, retrieved: seq<string>, k: int) returns (r: Result<real, Error>)
    requires scale.Valid() && input.WellFormed()
    ensures k <= 0 ==> r == Err(InvalidK)
    ensures k > 0 ==> r == Ok(Ndcg(scale, ToRelevanceMap(input), retrieved, k))
  {
    if k <= 0 {
      return Err(InvalidK);
    }
    var rel := ToRelevanceMap(input);
    if |rel.order| == 0 {
      NothingRelevant(scale, rel, k);
      return Ok(0.0);
    }
    var dcg := AccumulateGain(scale, rel, retrieved, k);
    var idcg := AccumulateIdeal(scale, rel, k);
    return Ok(if idcg != 0.0 then dcg / idcg else 0.0);
  }

  lemma NothingRelevant(scale: Scale, rel: RelevanceMap, k: nat)
    requires scale.Valid() && rel.Valid() && rel.order == []
    ensures Idcg(scale, rel, k) == 0.0
  {
    InOrder(rel);
    DiscountedZeros(IdealGains(scale, Ideal(rel), k), scale.log, 0, k);
  }
}
