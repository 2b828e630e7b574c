/** Repeated-run consistency and three-evaluator overlap of src/evalops/pilot/analysis.py. */
module PilotAnalysis {
  import opened Orders
  import opened Arithmetic
  import opened Confusion

  // ----- three evaluators -----

  datatype Evaluator = Heuristic | Hhem | LocalLlm

  datatype Category =
    | AllCorrect | AllWrong
    | LocalLlmOnly | HhemOnly | HeuristicOnly
    | LocalLlmAndHhem | LocalLlmAndHeuristic | HhemAndHeuristic

  /** Which evaluators an example must have been right for to be listed under a category. */
  predicate Belongs(c: Category, right: set<Evaluator>) {
    match c
    case AllCorrect => right == {Heuristic, Hhem, LocalLlm}
    case AllWrong => right == {}
    case LocalLlmOnly => right == {LocalLlm}
    case HhemOnly => right == {Hhem}
    case HeuristicOnly => right == {Heuristic}
    case LocalLlmAndHhem => {LocalLlm, Hhem} <= right
    case LocalLlmAndHeuristic => {LocalLlm, Heuristic} <= right
    case HhemAndHeuristic => {Hhem, Heuristic} <= right
  }

  datatype Observed = Observed(truth: map<string, Label>, heuristic: map<string, Label>, hhem: map<string, Label>,
                               local: map<string, Label>) {
    /** The examples every evaluator has an answer for. */
    function Complete(): set<string> {
      truth.Keys * heuristic.Keys * hhem.Keys * local.Keys
    }

    function Right(id: string): set<Evaluator>
      requires id in Complete()
    {
      (if heuristic[id] == truth[id] then {Heuristic} else {})
      + (if hhem[id] == truth[id] then {Hhem} else {})
      + (if local[id] == truth[id] then {LocalLlm} else {})
    }
  }

  /** The IDs, in order, listed under a category. */
  function Listed(o: Observed, ids: seq<string>, c: Category): seq<string>
    requires forall id :: id in ids ==> id in o.Complete()
  {
    if ids == [] then []
    else
      var n := |ids| - 1;
      Listed(o, ids[..n], c) + if Belongs(c, o.Right(ids[n])) then [ids[n]] else []
  }

  lemma {:induction false} ListedMembers(o: Observed, ids: seq<string>, c: Category)
    requires forall id :: id in ids ==> id in o.Complete()
    ensures forall id :: id in Listed(o, ids, c) <==> id in ids && Belongs(c, o.Right(id))
  {
    if ids != [] {
      var n := |ids| - 1;
      ListedMembers(o, ids[..n], c);
      assert ids == ids[..n] + [ids[n]];
    }
  }

  type Lists = map<Category, seq<string>>

  predicate HasAll(lists: Lists) {
    forall c: Category :: c in lists
  }

  function Append(lists: Lists, c: Category, id: string): Lists
    requires c in lists
  {
    lists[c := lists[c] + [id]]
  }

  /** One round of the source's loop: an if-chain for the exclusive categories, then the three pairs. */
  method Record(lists: Lists, id: string, right: set<Evaluator>) returns (r: Lists)
    requires HasAll(lists)
    ensures HasAll(r)
    ensures forall c: Category :: r[c] == lists[c] + if Belongs(c, right) then [id] else []
  {
    r := lists;
    if right == {Heuristic, Hhem, LocalLlm} {
      r := Append(r, AllCorrect, id);
    } else if right == {} {
      r := Append(r, AllWrong, id);
    } else if right == {LocalLlm} {
      r := Append(r, LocalLlmOnly, id);
    } else if right == {Hhem} {
      r := Append(r, HhemOnly, id);
    } else if right == {Heuristic} {
      r := Append(r, HeuristicOnly, id);
    }
    if {LocalLlm, Hhem} <= right {
      r := Append(r, LocalLlmAndHhem, id);
    }
    if {LocalLlm, Heuristic} <= right {
      r := Append(r, LocalLlmAndHeuristic, id);
    }
    if {Hhem, Heuristic} <= right {
      r := Append(r, HhemAndHeuristic, id);
    }
  }

  method BuildOverlap(o: Observed) returns (ids: seq<string>, lists: Lists)
    ensures SortedBy(StringLe, ids) && NoDuplicates(ids)
    ensures forall id :: id in ids <==> id in o.truth && id in o.heuristic && id in o.hhem && id in o.local
    ensures HasAll(lists) && forall c: Category :: lists[c] == Listed(o, ids, c)
    ensures SortsByCorrectness(o, ids, lists)
  {
    ids := SortedStrings(o.Complete());
    lists := map[AllCorrect := [], AllWrong := [], LocalLlmOnly := [], HhemOnly := [], HeuristicOnly := [],
                 LocalLlmAndHhem := [], LocalLlmAndHeuristic := [], HhemAndHeuristic := []];
    forall c: Category ensures c in lists && lists[c] == Listed(o, ids[..0], c) {
      assert c.AllCorrect? || c.AllWrong? || c.LocalLlmOnly? || c.HhemOnly? || c.HeuristicOnly?
             || c.LocalLlmAndHhem? || c.LocalLlmAndHeuristic? || c.HhemAndHeuristic?;
    }
    for i := 0 to |ids|
      invariant HasAll(lists) && forall c: Category :: lists[c] == Listed(o, ids[..i], c)
    {
      hide Belongs, StringLe, SortsByCorrectness;
      assert ids[..i + 1][..i] == ids[..i];
      lists := Record(lists, ids[i], o.Right(ids[i]));
    }
    assert ids[..|ids|] == ids;
    ListsSort(o, ids, lists);
  }

  /** The evaluators that agree with the label of a complete example. */
  predicate Agreeing(o: Observed, id: string, heuristic: bool, hhem: bool, local: bool) {
    && id in o.truth && id in o.heuristic && id in o.hhem && id in o.local
    && (heuristic <==> o.heuristic[id] == o.truth[id])
    && (hhem <==> o.hhem[id] == o.truth[id])
    && (local <==> o.local[id] == o.truth[id])
  }

  /** Five lists for those and only those evaluators being right, and three for two of them, whatever the third says. */
  ghost predicate SortsByCorrectness(o: Observed, ids: seq<string>, lists: Lists)
    requires HasAll(lists)
  {
    forall id :: SortsOne(o, ids, lists, id)
  }

  predicate SortsOne(o: Observed, ids: seq<string>, lists: Lists, id: string)
    requires HasAll(lists)
  {
    && (id in lists[AllCorrect] <==> id in ids && Agreeing(o, id, true, true, true))
    && (id in lists[AllWrong] <==> id in ids && Agreeing(o, id, false, false, false))
    && (id in lists[HeuristicOnly] <==> id in ids && Agreeing(o, id, true, false, false))
    && (id in lists[HhemOnly] <==> id in ids && Agreeing(o, id, false, true, false))
    && (id in lists[LocalLlmOnly] <==> id in ids && Agreeing(o, id, false, false, true))
    && (id in lists[HhemAndHeuristic] <==>
        id in ids && (Agreeing(o, id, true, true, true) || Agreeing(o, id, true, true, false)))
    && (id in lists[LocalLlmAndHeuristic] <==>
        id in ids && (Agreeing(o, id, true, true, true) || Agreeing(o, id, true, false, true)))
    && (id in lists[LocalLlmAndHhem] <==>
        id in ids && (Agreeing(o, id, true, true, true) || Agreeing(o, id, false, true, true)))
  }

  lemma RightMeans(o: Observed, id: string)
    requires id in o.Complete()
    ensures Heuristic in o.Right(id) <==> o.heuristic[id] == o.truth[id]
    ensures Hhem in o.Right(id) <==> o.hhem[id] == o.truth[id]
    ensures LocalLlm in o.Right(id) <==> o.local[id] == o.truth[id]
    ensures forall e :: e in o.Right(id) ==> e == Heuristic || e == Hhem || e == LocalLlm
  {
  }

  lemma ListsSort(o: Observed, ids: seq<string>, lists: Lists)
    requires forall id :: id in ids ==> id in o.Complete()
    requires HasAll(lists) && forall c: Category :: lists[c] == Listed(o, ids, c)
    ensures SortsByCorrectness(o, ids, lists)
  {
    hide SortsOne, Listed, Belongs;
    forall id
      ensures SortsOne(o, ids, lists, id)
    {
      OneSorted(o, ids, lists, id);
    }
  }

  lemma OneSorted(o: Observed, ids: seq<string>, lists: Lists, id: string)
    requires forall x :: x in ids ==> x in o.Complete()
    requires HasAll(lists) && forall c: Category :: lists[c] == Listed(o, ids, c)
    ensures SortsOne(o, ids, lists, id)
  {
    forall c: Category { ListedMembers(o, ids, c); }
    if id in ids {
      RightMeans(o, id);
      BelongsMeans(o.Right(id));
    }
    hide Listed, HasAll, Belongs, Observed.Right;
  }

  lemma BelongsMeans(right: set<Evaluator>)
    ensures var h, s, l := Heuristic in right, Hhem in right, LocalLlm in right;
            && (Belongs(AllCorrect, right) <==> h && s && l)
            && (Belongs(AllWrong, right) <==> !h && !s && !l)
            && (Belongs(HeuristicOnly, right) <==> h && !s && !l)
            && (Belongs(HhemOnly, right) <==> !h && s && !l)
            && (Belongs(LocalLlmOnly, right) <==> !h && !s && l)
            && (Belongs(HhemAndHeuristic, right) <==> s && h)
            && (Belongs(LocalLlmAndHeuristic, right) <==> l && h)
            && (Belongs(LocalLlmAndHhem, right) <==> l && s)
  {
    assert forall e :: e in right ==> e == Heuristic || e == Hhem || e == LocalLlm;
  }

  lemma OneExample(right: set<Evaluator>)
    ensures var one := (c: Category) => if Belongs(c, right) then 1 else 0;
            one(AllWrong) + one(LocalLlmOnly) + one(HhemOnly) + one(HeuristicOnly)
            + one(LocalLlmAndHhem) + one(LocalLlmAndHeuristic) + one(HhemAndHeuristic) - 2 * one(AllCorrect) == 1
  {
    assert right == (if Heuristic in right then {Heuristic} else {}) + (if Hhem in right then {Hhem} else {})
                    + (if LocalLlm in right then {LocalLlm} else {}) by {
      forall e | e in right ensures e == Heuristic || e == Hhem || e == LocalLlm { }
    }
  }

  /** Inclusion and exclusion: every complete example is counted exactly once by this combination of lists. */
  lemma {:induction false} OverlapCounts(o: Observed, ids: seq<string>)
    requires forall id :: id in ids ==> id in o.Complete()
    ensures |Listed(o, ids, AllWrong)| + |Listed(o, ids, LocalLlmOnly)| + |Listed(o, ids, HhemOnly)|
            + |Listed(o, ids, HeuristicOnly)| + |Listed(o, ids, LocalLlmAndHhem)|
            + |Listed(o, ids, LocalLlmAndHeuristic)| + |Listed(o, ids, HhemAndHeuristic)|
            - 2 * |Listed(o, ids, AllCorrect)| == |ids|
  {
    if ids != [] {
      var n := |ids| - 1;
      OverlapCounts(o, ids[..n]);
      OneExample(o.Right(ids[n]));
      hide Belongs, Listed;
      forall c: Category { SizeNext(o, ids, c); }
    }
  }

  lemma SizeNext(o: Observed, ids: seq<string>, c: Category)
    requires ids != [] && forall id :: id in ids ==> id in o.Complete()
    ensures |Listed(o, ids, c)|
         == |Listed(o, ids[..|ids| - 1], c)| + if Belongs(c, o.Right(ids[|ids| - 1])) then 1 else 0
  {
  }

  // ----- consistency over three runs -----

  /** One repeated judgement; a run without a decision has no verdict. */
  datatype Verdict = Decided(verdict: Label) | Undecided

  datatype RunRecord = RunRecord(exampleId: string, attempt: nat, outcome: Verdict)

  /** The verdicts given to an example, in record order. */
  function VerdictsFor(records: seq<RunRecord>, id: string): seq<Label> {
    if records == [] then []
    else
      var n := |records| - 1;
      VerdictsFor(records[..n], id)
      + if records[n].exampleId == id && records[n].outcome.Decided? then [records[n].outcome.verdict] else []
  }

  function Seen(records: seq<RunRecord>): set<string> {
    if records == [] then {} else Seen(records[..|records| - 1]) + {records[|records| - 1].exampleId}
  }

  /** Examples judged by exactly three runs; the others are incomplete and left out of the rates. */
  function CompleteIds(records: seq<RunRecord>): set<string> {
    set id | id in Seen(records) && |VerdictsFor(records, id)| == 3
  }

  function Agree(a: Label, b: Label): nat { if a == b then 1 else 0 }

  /** How many of the three pairs of runs agree. */
  function Matches(v: seq<Label>): nat
    requires |v| == 3
  {
    Agree(v[0], v[1]) + Agree(v[0], v[2]) + Agree(v[1], v[2])
  }

  predicate Unanimous(v: seq<Label>)
    requires |v| == 3
  {
    v[0] == v[1] == v[2]
  }

  /** Neither depends on the order of the three runs, so sorting them by attempt changes nothing. */
  lemma RunOrderIrrelevant(v: seq<Label>, w: seq<Label>)
    requires |v| == 3 && multiset(v) == multiset(w)
    ensures |w| == 3 && Matches(v) == Matches(w) && (Unanimous(v) <==> Unanimous(w))
  {
    assert |multiset(v)| == |v| && |multiset(w)| == |w|;
    LabelsCounted(v);
    LabelsCounted(w);
  }

  /** The number of hallucinated verdicts decides how many pairs agree. */
  lemma LabelsCounted(v: seq<Label>)
    requires |v| == 3
    ensures Matches(v) == (if multiset(v)[Hallucinated] in {0, 3} then 3 else 1)
    ensures Unanimous(v) <==> multiset(v)[Hallucinated] in {0, 3}
  {
    assert v == [v[0], v[1], v[2]];
    BinaryMatches(v);
  }

  datatype Consistency = Consistency(
    exampleCount: nat, agreementRate: real, unanimousRate: real, disagreements: seq<string>, incomplete: set<string>)

  function VerdictsIn(groups: map<string, seq<Label>>, id: string): seq<Label> {
    if id in groups then groups[id] else []
  }

  ghost predicate Grouped(groups: map<string, seq<Label>>, records: seq<RunRecord>) {
    && groups.Keys == Seen(records)
    && forall id :: VerdictsFor(records, id) == VerdictsIn(groups, id)
  }

  function AddVerdict(groups: map<string, seq<Label>>, r: RunRecord): map<string, seq<Label>> {
    var before := if r.exampleId in groups then groups[r.exampleId] else [];
    groups[r.exampleId := before + if r.outcome.Decided? then [r.outcome.verdict] else []]
  }

  lemma VerdictsNext(records: seq<RunRecord>, i: nat, id: string)
    requires i < |records|
    ensures VerdictsFor(records[..i + 1], id) == VerdictsFor(records[..i], id)
            + if records[i].exampleId == id && records[i].outcome.Decided? then [records[i].outcome.verdict] else []
    ensures Seen(records[..i + 1]) == Seen(records[..i]) + {records[i].exampleId}
  {
    assert records[..i + 1][..i] == records[..i];
  }

  lemma GroupedNext(groups: map<string, seq<Label>>, records: seq<RunRecord>, i: nat)
    requires i < |records| && Grouped(groups, records[..i])
    ensures Grouped(AddVerdict(groups, records[i]), records[..i + 1])
  {
    var r, after := records[i], AddVerdict(groups, records[i]);
    hide Seen, VerdictsFor;
    VerdictsNext(records, i, r.exampleId);
    assert after.Keys == groups.Keys + {r.exampleId};
    hide AddVerdict;
    forall id
      ensures VerdictsFor(records[..i + 1], id) == VerdictsIn(after, id)
    {
      VerdictsNext(records, i, id);
      VerdictAdded(groups, r, id);
    }
  }

  lemma VerdictAdded(groups: map<string, seq<Label>>, r: RunRecord, id: string)
    ensures VerdictsIn(AddVerdict(groups, r), id)
         == VerdictsIn(groups, id) + if r.exampleId == id && r.outcome.Decided? then [r.outcome.verdict] else []
  {
  }

  /** Grouping the records by example, as the source's defaultdict does. */
  method Group(records: seq<RunRecord>) returns (groups: map<string, seq<Label>>)
    ensures Grouped(groups, records)
  {
    groups := map[];
    assert Grouped(groups, records[..0]);
    hide *;
    for i := 0 to |records|
      invariant Grouped(groups, records[..i])
    {
      GroupedNext(groups, records, i);
      groups := AddVerdict(groups, records[i]);
    }
    assert records[..|records|] == records;
  }

  /** Pair matches, unanimous examples and disagreements over a list of complete examples. */
  method Tally(ids: seq<string>, groups: map<string, seq<Label>>)
    returns (matches: nat, unanimous: nat, disagreements: seq<string>)
    requires NoDuplicates(ids) && forall id :: id in ids ==> id in groups && |groups[id]| == 3
    ensures NoDuplicates(disagreements)
    ensures matches == |ids| + 2 * unanimous
    ensures unanimous + |disagreements| == |ids|
    ensures forall id :: id in disagreements <==> id in ids && !Unanimous(groups[id])
  {
    matches, unanimous, disagreements := 0, 0, [];
    for i := 0 to |ids|
      invariant matches == i + 2 * unanimous
      invariant unanimous + |disagreements| == i && NoDuplicates(disagreements)
      invariant forall id :: id in disagreements <==> id in ids[..i] && !Unanimous(groups[id])
    {
      var id := ids[i];
      assert ids[..i + 1] == ids[..i] + [id] && id !in ids[..i];
      var m := Matches(groups[id]);
      BinaryMatches(groups[id]);
      matches := matches + m;
      if m == 3 {
        unanimous := unanimous + 1;
      } else {
        disagreements := disagreements + [id];
      }
    }
    assert ids[..|ids|] == ids;
  }

  /** Three binary verdicts never all differ: either all pairs agree or exactly one does. */
  lemma BinaryMatches(v: seq<Label>)
    requires |v| == 3
    ensures Matches(v) == if Unanimous(v) then 3 else 1
  {
    assert v[0] == Grounded || v[0] == Hallucinated;
    assert v[1] == Grounded || v[1] == Hallucinated;
    assert v[2] == Grounded || v[2] == Hallucinated;
  }

  /** The complete examples whose three verdicts are not all the same. */
  ghost predicate AreDisagreements(xs: seq<string>, records: seq<RunRecord>) {
    && NoDuplicates(xs)
    && forall id :: id in xs <==> id in CompleteIds(records) && !Unanimous(VerdictsFor(records, id))
  }

  method SummarizeConsistency(records: seq<RunRecord>) returns (r: Consistency, ghost unanimous: nat)
    ensures r.exampleCount == |CompleteIds(records)|
    ensures r.incomplete == Seen(records) - CompleteIds(records)
    ensures AreDisagreements(r.disagreements, records)
    ensures unanimous + |r.disagreements| == r.exampleCount
    ensures r.unanimousRate * r.exampleCount as real == unanimous as real
    ensures r.exampleCount > 0 ==> r.agreementRate == (1.0 + 2.0 * r.unanimousRate) / 3.0
    ensures r.exampleCount == 0 ==> r.agreementRate == r.unanimousRate == 0.0
  {
    hide *;
    var groups := Group(records);
    var complete := CompleteOf(groups);
    CompleteFromGroups(groups, records);
    var ids := SortedStrings(complete);
    SizeOfListing(ids, complete);
    CompleteMembers(groups, ids);
    var matches, u, disagreements := Tally(ids, groups);
    unanimous := u;
    DisagreementsFound(groups, records, ids, disagreements);
    AgreementLaw(|ids|, u);
    ProportionTimes(u, |ids|);
    r := Consistency(|complete|, Proportion(matches, 3 * |ids|), Proportion(u, |complete|), disagreements,
                     groups.Keys - complete);
  }

  lemma SizeOfListing(ids: seq<string>, s: set<string>)
    requires NoDuplicates(ids) && forall id :: id in ids <==> id in s
    ensures |ids| == |s|
  {
    DistinctSize(ids);
    assert SetOf(ids) == s;
  }

  lemma CompleteMembers(groups: map<string, seq<Label>>, ids: seq<string>)
    requires forall id :: id in ids <==> id in CompleteOf(groups)
    ensures forall id :: id in ids ==> id in groups && |groups[id]| == 3
  {
  }

  lemma DisagreementsFound(groups: map<string, seq<Label>>, records: seq<RunRecord>, ids: seq<string>, xs: seq<string>)
    requires Grouped(groups, records) && NoDuplicates(xs)
    requires forall id :: id in ids <==> id in CompleteOf(groups)
    requires forall id :: id in ids ==> id in groups && |groups[id]| == 3
    requires forall id :: id in xs <==> id in ids && !Unanimous(groups[id])
    ensures AreDisagreements(xs, records)
  {
    CompleteFromGroups(groups, records);
    hide Grouped, CompleteOf, VerdictsFor, Unanimous;
  }

  function CompleteOf(groups: map<string, seq<Label>>): set<string> {
    set id | id in groups && |groups[id]| == 3
  }

  lemma CompleteFromGroups(groups: map<string, seq<Label>>, records: seq<RunRecord>)
    requires Grouped(groups, records)
    ensures groups.Keys == Seen(records)
    ensures CompleteOf(groups) == CompleteIds(records)
    ensures forall id :: id in CompleteIds(records) ==>
              id in groups && |groups[id]| == 3 && groups[id] == VerdictsFor(records, id)
  {
  }

  lemma AgreementLaw(n: nat, u: nat)
    ensures n > 0 ==> Proportion(n + 2 * u, 3 * n) == (1.0 + 2.0 * Proportion(u, n)) / 3.0
    ensures n == 0 ==> Proportion(n + 2 * u, 3 * n) == 0.0 == Proportion(u, n)
  {
    if n > 0 {
      ThirdOfShares(u as real, n as real);
      assert (n + 2 * u) as real == n as real + 2.0 * u as real;
      assert (3 * n) as real == 3.0 * n as real;
    }
  }

  lemma ProportionTimes(part: nat, whole: nat)
    requires part <= whole
    ensures Proportion(part, whole) * whole as real == part as real
  {
    if whole > 0 {
      Undivided(part as real, whole as real);
    }
  }

  lemma ThirdOfShares(u: real, n: real)
    requires n > 0.0
    ensures (n + 2.0 * u) / (3.0 * n) == (1.0 + 2.0 * (u / n)) / 3.0
  {
    var q := u / n;
    assert q * n == u;
    assert n + 2.0 * u == ((1.0 + 2.0 * q) / 3.0) * (3.0 * n);
    Cancel(n + 2.0 * u, (1.0 + 2.0 * q) / 3.0, 3.0 * n);
  }

  lemma Cancel(z: real, x: real, y: real)
    requires y != 0.0 && z == x * y
    ensures z / y == x
  {
  }
}
