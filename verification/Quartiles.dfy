/** Rank quartiles of src/evalops/pilot/full_analysis.py. */
module Quartiles {
  import opened Orders

  function ValueOf(values: map<string, int>, id: string): int {
    if id in values then values[id] else 0
  }

  /** Examples by value, then by ID. */
  function ByValue(values: map<string, int>): (string, string) -> bool {
    (a, b) => ValueOf(values, a) < ValueOf(values, b) || (ValueOf(values, a) == ValueOf(values, b) && StringLe(a, b))
  }

  lemma ByValueIsTotalOrder(values: map<string, int>)
    ensures TotalOrder(ByValue(values))
  {
    StringLeIsTotalOrder();
  }

  /** The first rank of quartile b among n: the least r with 4 r >= b n. */
  function Start(n: nat, b: nat): nat
    requires b <= 4
  {
    if b == 0 then 0 else if b == 1 then (n + 3) / 4 else if b == 2 then (2 * n + 3) / 4
    else if b == 3 then (3 * n + 3) / 4 else n
  }

  function Quartile(n: nat, rank: nat): nat
    requires rank < n
  {
    rank * 4 / n
  }

  lemma QuotientBounds(x: nat, n: nat)
    requires n > 0
    ensures x / n * n <= x < x / n * n + n
  {
  }

  lemma QuartileBelowFour(n: nat, rank: nat)
    requires rank < n
    ensures Quartile(n, rank) < 4
  {
    QuotientBounds(rank * 4, n);
    assert (4 - Quartile(n, rank)) * n > 0;
    PositiveFactor(4 - Quartile(n, rank), n);
  }

  lemma RankLandsIn(n: nat, rank: nat)
    requires rank < n
    ensures Quartile(n, rank) < 4
    ensures Start(n, Quartile(n, rank)) <= rank < Start(n, Quartile(n, rank) + 1)
  {
    QuartileBelowFour(n, rank);
    QuotientBounds(rank * 4, n);
    LandsByCase(n, rank, Quartile(n, rank));
  }

  lemma LandsByCase(n: nat, rank: nat, b: nat)
    requires b < 4 && b * n <= rank * 4 < b * n + n
    ensures Start(n, b) <= rank < Start(n, b + 1)
  {
    assert b == 0 || b == 1 || b == 2 || b == 3;
  }

  lemma PositiveFactor(a: int, n: nat)
    requires a * n > 0
    ensures a > 0
  {
  }

  function Clip(x: nat, limit: nat): (r: nat)
    ensures r <= limit
  {
    if x <= limit then x else limit
  }

  /** The part of quartile b that the first r ranks fill. */
  function Filled(ordered: seq<string>, b: nat, r: nat): seq<string>
    requires b < 4 && r <= |ordered|
  {
    ordered[Clip(Start(|ordered|, b), r)..Clip(Start(|ordered|, b + 1), r)]
  }

  /** What rank r adds to quartile b. */
  function Landing(ordered: seq<string>, b: nat, r: nat): seq<string>
    requires r < |ordered|
  {
    if Quartile(|ordered|, r) == b then [ordered[r]] else []
  }

  lemma FilledNext(ordered: seq<string>, b: nat, r: nat)
    requires b < 4 && r < |ordered|
    ensures Filled(ordered, b, r + 1) == Filled(ordered, b, r) + Landing(ordered, b, r)
  {
    hide Quartile, Start, Clip;
    QuartileExactly(|ordered|, r, b);
    StartMonotone(|ordered|, b, b + 1);
    SliceNext(ordered, Start(|ordered|, b), Start(|ordered|, b + 1), r);
  }

  lemma QuartileExactly(n: nat, rank: nat, b: nat)
    requires rank < n && b < 4
    ensures Quartile(n, rank) == b <==> Start(n, b) <= rank < Start(n, b + 1)
  {
    hide Quartile, Start;
    RankLandsIn(n, rank);
    if Quartile(n, rank) < b {
      StartMonotone(n, Quartile(n, rank) + 1, b);
    } else if b < Quartile(n, rank) {
      StartMonotone(n, b + 1, Quartile(n, rank));
    }
  }

  /** Letting one more rank through adds it to the slice it falls into. */
  lemma SliceNext(s: seq<string>, lo: nat, hi: nat, r: nat)
    requires lo <= hi <= |s| && r < |s|
    ensures s[Clip(lo, r + 1)..Clip(hi, r + 1)]
         == s[Clip(lo, r)..Clip(hi, r)] + if lo <= r < hi then [s[r]] else []
  {
    if lo <= r < hi {
      assert s[lo..r + 1] == s[lo..r] + [s[r]];
    } else if r < lo {
      assert s[r + 1..r + 1] == [] && s[r..r] == [];
    }
  }

  lemma StartMonotone(n: nat, b: nat, c: nat)
    requires b <= c <= 4
    ensures Start(n, b) <= Start(n, c) <= n
  {
  }

  lemma FilledWhole(ordered: seq<string>)
    ensures var n := |ordered|;
            && Start(n, 1) <= Start(n, 2) <= Start(n, 3) <= n
            && Filled(ordered, 0, n) == ordered[..Start(n, 1)]
            && Filled(ordered, 1, n) == ordered[Start(n, 1)..Start(n, 2)]
            && Filled(ordered, 2, n) == ordered[Start(n, 2)..Start(n, 3)]
            && Filled(ordered, 3, n) == ordered[Start(n, 3)..]
  {
  }

  lemma FilledOneMore(ordered: seq<string>, r: nat)
    requires r < |ordered|
    ensures Quartile(|ordered|, r) < 4
    ensures forall b | 0 <= b < 4 ::
              Filled(ordered, b, r + 1) == Filled(ordered, b, r) + Landing(ordered, b, r)
  {
    hide *;
    RankLandsIn(|ordered|, r);
    forall b | 0 <= b < 4
      ensures Filled(ordered, b, r + 1) == Filled(ordered, b, r) + Landing(ordered, b, r)
    {
      FilledNext(ordered, b, r);
    }
  }

  ghost predicate AreQuartiles(buckets: seq<seq<string>>, ordered: seq<string>) {
    var n := |ordered|;
    && Start(n, 1) <= Start(n, 2) <= Start(n, 3) <= n
    && buckets == [ordered[..Start(n, 1)], ordered[Start(n, 1)..Start(n, 2)],
                   ordered[Start(n, 2)..Start(n, 3)], ordered[Start(n, 3)..]]
  }

  /** Rank r goes to quartile min(3, 4 r / n): the buckets are consecutive runs of the sorted list. */
  method Distribute(ordered: seq<string>) returns (buckets: seq<seq<string>>)
    ensures AreQuartiles(buckets, ordered)
  {
    buckets := [[], [], [], []];
    NothingFilled(ordered);
    hide Filled, Quartile, Start, AreQuartiles;
    for rank := 0 to |ordered|
      invariant |buckets| == 4
      invariant buckets[0] == Filled(ordered, 0, rank) && buckets[1] == Filled(ordered, 1, rank)
      invariant buckets[2] == Filled(ordered, 2, rank) && buckets[3] == Filled(ordered, 3, rank)
    {
      var raw := Quartile(|ordered|, rank);
      var bucket := if raw < 3 then raw else 3;
      FilledOneMore(ordered, rank);
      buckets := buckets[bucket := buckets[bucket] + [ordered[rank]]];
    }
    EverythingFilled(buckets, ordered);
  }

  lemma NothingFilled(ordered: seq<string>)
    ensures forall b | 0 <= b < 4 :: Filled(ordered, b, 0) == []
  {
  }

  lemma EverythingFilled(buckets: seq<seq<string>>, ordered: seq<string>)
    requires |buckets| == 4
    requires buckets[0] == Filled(ordered, 0, |ordered|) && buckets[1] == Filled(ordered, 1, |ordered|)
    requires buckets[2] == Filled(ordered, 2, |ordered|) && buckets[3] == Filled(ordered, 3, |ordered|)
    ensures AreQuartiles(buckets, ordered)
  {
    hide Start, Filled;
    FilledWhole(ordered);
    assert buckets == [buckets[0], buckets[1], buckets[2], buckets[3]];
  }

  method RankQuartiles(ids: seq<string>, values: map<string, int>) returns (buckets: seq<seq<string>>)
    requires forall id :: id in ids ==> id in values
    ensures AreQuartiles(buckets, Sort(ByValue(values), ids))
  {
    buckets := Distribute(Sort(ByValue(values), ids));
  }

  lemma CutsJoin(buckets: seq<seq<string>>, ordered: seq<string>)
    requires AreQuartiles(buckets, ordered)
    ensures buckets[0] + buckets[1] + buckets[2] + buckets[3] == ordered
    ensures |ordered| / 4 <= |buckets[0]| <= |ordered| / 4 + 1 && |ordered| / 4 <= |buckets[1]| <= |ordered| / 4 + 1
    ensures |ordered| / 4 <= |buckets[2]| <= |ordered| / 4 + 1 && |ordered| / 4 <= |buckets[3]| <= |ordered| / 4 + 1
  {
  }

  /** Sorted by value then ID, as a permutation. */
  lemma SortedByValue(ids: seq<string>, values: map<string, int>)
    ensures multiset(Sort(ByValue(values), ids)) == multiset(ids)
    ensures SortedBy(ByValue(values), Sort(ByValue(values), ids))
  {
    hide ByValue;
    ByValueIsTotalOrder(values);
    SortCorrect(ByValue(values), ids);
  }

  /** The quartiles together are everyone, each once, in sizes that differ by at most one. */
  lemma QuartilesPartition(buckets: seq<seq<string>>, ids: seq<string>, values: map<string, int>)
    requires AreQuartiles(buckets, Sort(ByValue(values), ids))
    ensures multiset(buckets[0] + buckets[1] + buckets[2] + buckets[3]) == multiset(ids)
    ensures |ids| / 4 <= |buckets[0]| <= |ids| / 4 + 1 && |ids| / 4 <= |buckets[1]| <= |ids| / 4 + 1
    ensures |ids| / 4 <= |buckets[2]| <= |ids| / 4 + 1 && |ids| / 4 <= |buckets[3]| <= |ids| / 4 + 1
  {
    hide ByValue, Sort, Start;
    SortedByValue(ids, values);
    CutsJoin(buckets, Sort(ByValue(values), ids));
  }

  lemma CutsAscend(buckets: seq<seq<string>>, ordered: seq<string>, b: nat, c: nat, i: nat, j: nat)
    requires AreQuartiles(buckets, ordered)
    requires b < c < 4 && i < |buckets[b]| && j < |buckets[c]|
    ensures Start(|ordered|, b) + i < Start(|ordered|, c) + j < |ordered|
    ensures buckets[b][i] == ordered[Start(|ordered|, b) + i] && buckets[c][j] == ordered[Start(|ordered|, c) + j]
  {
    StartMonotone(|ordered|, b + 1, c);
  }

  /** Nobody in an earlier quartile has a larger value than anybody in a later one, or the same and a later ID. */
  lemma QuartilesAscend(buckets: seq<seq<string>>, ids: seq<string>, values: map<string, int>, b: nat, c: nat, i: nat,
                        j: nat)
    requires |buckets| == 4 && AreQuartiles(buckets, Sort(ByValue(values), ids))
    requires forall id :: id in ids ==> id in values
    requires b < c < 4 && i < |buckets[b]| && j < |buckets[c]|
    ensures var x, y := buckets[b][i], buckets[c][j];
            && x in values && y in values
            && (values[x] < values[y] || (values[x] == values[y] && StringLe(x, y)))
  {
    var ordered := Sort(ByValue(values), ids);
    CutsAscend(buckets, ordered, b, c, i, j);
    SortedByValue(ids, values);
    hide AreQuartiles, Start, Sort, StringLe;
    assert buckets[b][i] in multiset(ordered) && buckets[c][j] in multiset(ordered);
    assert ByValue(values)(buckets[b][i], buckets[c][j]);
  }

  /** Rank r of n is in quartile b if and only if it is at least b n / 4 and below (b + 1) n / 4. */
  lemma QuartileOfRank(buckets: seq<seq<string>>, ordered: seq<string>, r: nat, b: nat)
    requires |buckets| == 4 && AreQuartiles(buckets, ordered) && NoDuplicates(ordered)
    requires r < |ordered| && b < 4
    ensures ordered[r] in buckets[b] <==> b * |ordered| <= 4 * r < b * |ordered| + |ordered|
  {
    var n := |ordered|;
    assert b == 0 || b == 1 || b == 2 || b == 3;
    StartMonotone(n, b, b + 1);
    assert buckets[b] == ordered[Start(n, b)..Start(n, b + 1)];
    assert ordered[r] in buckets[b] <==> Start(n, b) <= r < Start(n, b + 1) by {
      hide Start;
      InSlice(ordered, Start(n, b), Start(n, b + 1), r);
    }
  }

  lemma InSlice(s: seq<string>, lo: nat, hi: nat, r: nat)
    requires NoDuplicates(s) && lo <= hi <= |s| && r < |s|
    ensures s[r] in s[lo..hi] <==> lo <= r < hi
  {
    var slice := s[lo..hi];
    if lo <= r < hi {
      assert slice[r - lo] == s[r];
    }
    if s[r] in slice {
      var k :| 0 <= k < |slice| && slice[k] == s[r];
      assert s[lo + k] == s[r];
    }
  }
}
