/** The BM25 baseline of src/evalops/retrieval/bm25.py: an inverted index against direct scoring. */
module Bm25 {
  import opened Arithmetic
  import opened Orders
  import opened Results

  datatype Error = BadParameters | DuplicateDocument | InvalidTopK

  /** A document as its ID and the tokens of its title and text. */
  datatype Document = Document(id: string, tokens: seq<string>)

  /** What was indexed: parameters, document IDs in insertion order, and the documents by ID. */
  datatype Corpus = Corpus(k1: real, b: real, order: seq<string>, documents: map<string, Document>) {
    ghost predicate Valid() {
      && k1 > 0.0 && 0.0 <= b <= 1.0
      && NoDuplicates(order)
      && (forall d :: d in order <==> d in documents)
    }
  }

  function TotalLength(order: seq<string>, documents: map<string, Document>): nat
    requires forall d :: d in order ==> d in documents
  {
    if order == [] then 0
    else TotalLength(order[..|order| - 1], documents) + |documents[order[|order| - 1]].tokens|
  }

  function Average(c: Corpus): real
    requires forall d :: d in c.order ==> d in c.documents
  {
    if c.order == [] then 0.0 else TotalLength(c.order, c.documents) as real / |c.order| as real
  }

  /** The documents that contain a token. */
  function Holders(c: Corpus, token: string): set<string> {
    set d | d in c.documents && token in c.documents[d].tokens
  }

  function Idf(log1p: real -> real, documents: nat, holders: nat): real {
    log1p((documents as real - holders as real + 0.5) / (holders as real + 0.5))
  }

  function Normalization(c: Corpus, length: nat, average: real): real
    requires average != 0.0
  {
    c.k1 * (1.0 - c.b + c.b * length as real / average)
  }

  function Weight(c: Corpus, frequency: nat, normalization: real): real
    requires frequency as real + normalization != 0.0
  {
    frequency as real * (c.k1 + 1.0) / (frequency as real + normalization)
  }

  // ----- every division is defined -----

  lemma {:induction false} TotalCovers(order: seq<string>, documents: map<string, Document>, d: string)
    requires forall x :: x in order ==> x in documents
    requires d in order
    ensures |documents[d].tokens| <= TotalLength(order, documents)
  {
    var last := order[|order| - 1];
    if d != last {
      assert order == order[..|order| - 1] + [last];
      TotalCovers(order[..|order| - 1], documents, d);
    }
  }

  lemma Positive(x: real, y: real)
    requires x > 0.0 && y > 0.0
    ensures x / y > 0.0
  {
  }

  lemma ProductNonNegative(x: real, y: real)
    requires x >= 0.0 && y >= 0.0
    ensures x * y >= 0.0
  {
  }

  lemma QuotientNonNegative(p: real, z: real)
    requires p >= 0.0 && z > 0.0
    ensures p / z >= 0.0
  {
  }

  lemma NormalizationNonNegative(c: Corpus, length: nat, average: real)
    requires c.k1 > 0.0 && 0.0 <= c.b <= 1.0 && average > 0.0
    ensures Normalization(c, length, average) >= 0.0
  {
    ProductNonNegative(c.b, length as real);
    QuotientNonNegative(c.b * length as real, average);
    ProductNonNegative(c.k1, 1.0 - c.b + c.b * length as real / average);
  }

  /** A token somebody holds implies a positive average length and a positive denominator. */
  lemma DivisionsDefined(c: Corpus, token: string, d: string)
    requires c.Valid() && d in Holders(c, token)
    ensures Average(c) > 0.0
    ensures multiset(c.documents[d].tokens)[token] > 0
    ensures Normalization(c, |c.documents[d].tokens|, Average(c)) >= 0.0
  {
    TotalCovers(c.order, c.documents, d);
    assert token in multiset(c.documents[d].tokens);
    Positive(TotalLength(c.order, c.documents) as real, |c.order| as real);
    hide Normalization;
    NormalizationNonNegative(c, |c.documents[d].tokens|, Average(c));
  }

  // ----- direct scoring -----

  /** What one query token adds to one document's score. */
  function Contribution(log1p: real -> real, c: Corpus, token: string, d: string): real
    requires c.Valid()
  {
    if d in Holders(c, token) then
      DivisionsDefined(c, token, d);
      Idf(log1p, |c.documents|, |Holders(c, token)|)
      * Weight(c, multiset(c.documents[d].tokens)[token], Normalization(c, |c.documents[d].tokens|, Average(c)))
    else 0.0
  }

  lemma NoContribution(log1p: real -> real, c: Corpus, token: string)
    requires c.Valid()
    ensures forall d :: d !in Holders(c, token) ==> Contribution(log1p, c, token, d) == 0.0
  {
  }

  /** The BM25 score of a document: the sum of the contributions of the query's distinct tokens. */
  ghost function Score(log1p: real -> real, c: Corpus, query: set<string>, d: string): real
    requires c.Valid()
  {
    if query == {} then 0.0
    else
      var token :| token in query;
      Contribution(log1p, c, token, d) + Score(log1p, c, query - {token}, d)
  }

  /** The sum does not depend on the order in which tokens are taken. */
  lemma {:induction false} ScoreAnyOrder(log1p: real -> real, c: Corpus, query: set<string>, d: string, token: string)
    requires c.Valid() && token in query
    ensures Score(log1p, c, query, d) == Contribution(log1p, c, token, d) + Score(log1p, c, query - {token}, d)
    decreases |query|
  {
    var first :| first in query
      && Score(log1p, c, query, d) == Contribution(log1p, c, first, d) + Score(log1p, c, query - {first}, d);
    if first != token {
      ScoreAnyOrder(log1p, c, query - {first}, d, token);
      ScoreAnyOrder(log1p, c, query - {token}, d, first);
      assert query - {first} - {token} == query - {token} - {first};
    }
  }

  /** The documents that share a token with the query. */
  function Candidates(c: Corpus, query: set<string>): set<string> {
    set d, t | t in query && d in Holders(c, t) :: d
  }

  lemma {:induction false} ScoreOutside(log1p: real -> real, c: Corpus, query: set<string>, d: string)
    requires c.Valid() && d !in Candidates(c, query)
    ensures Score(log1p, c, query, d) == 0.0
    decreases |query|
  {
    if query != {} {
      var token :| token in query;
      ScoreAnyOrder(log1p, c, query, d, token);
      assert d !in Holders(c, token);
      ScoreOutside(log1p, c, query - {token}, d);
    }
  }

  // ----- ranking -----

  /** Higher score first; equal scores by document ID. */
  predicate RankLe(a: (real, string), b: (real, string)) {
    a.0 > b.0 || (a.0 == b.0 && StringLe(a.1, b.1))
  }

  lemma RankLeIsTotalOrder()
    ensures TotalOrder(RankLe)
  {
    StringLeIsTotalOrder();
  }

  function Ids(ranking: seq<(real, string)>): seq<string> {
    seq(|ranking|, i requires 0 <= i < |ranking| => ranking[i].1)
  }

  /** The full ranking of the candidates by their direct score. */
  ghost predicate IsRanking(ranking: seq<(real, string)>, log1p: real -> real, c: Corpus, query: set<string>)
    requires c.Valid()
  {
    && SortedBy(RankLe, ranking)
    && NoDuplicates(ranking)
    && forall e :: e in ranking <==> e.1 in Candidates(c, query) && e.0 == Score(log1p, c, query, e.1)
  }

  lemma RankingUnique(a: seq<(real, string)>, b: seq<(real, string)>, log1p: real -> real, c: Corpus,
                      query: set<string>)
    requires c.Valid() && IsRanking(a, log1p, c, query) && IsRanking(b, log1p, c, query)
    ensures a == b
  {
    RankLeIsTotalOrder();
    DistinctCounts(a);
    DistinctCounts(b);
    forall e ensures multiset(a)[e] == multiset(b)[e] {
      assert e in a <==> e in b;
      assert e in multiset(a) <==> e in a;
      assert e in multiset(b) <==> e in b;
    }
    assert multiset(a) == multiset(b);
    hide RankLe;
    SortedUnique(RankLe, a, b);
  }

  datatype Retrieved = Retrieved(documentId: string, score: real, rank: nat)

  /** The first k entries of a ranking, ranks counted from one. */
  function TopOf(ranking: seq<(real, string)>, k: nat): seq<Retrieved> {
    seq(Min(k, |ranking|), i requires 0 <= i < Min(k, |ranking|) => Retrieved(ranking[i].1, ranking[i].0, i + 1))
  }

  /** What the retriever promises to return: the head of the one ranking of the candidates. */
  ghost predicate IsAnswer(answer: seq<Retrieved>, log1p: real -> real, c: Corpus, query: set<string>, k: nat)
    requires c.Valid()
  {
    exists ranking :: IsRanking(ranking, log1p, c, query) && answer == TopOf(ranking, k)
  }

  /** Asking for more only appends: the answer for k is a prefix of the answer for any larger k. */
  lemma SmallerAnswerIsPrefix(a: seq<Retrieved>, b: seq<Retrieved>, log1p: real -> real, c: Corpus,
                              query: set<string>, k: nat, k': nat)
    requires c.Valid() && k <= k'
    requires IsAnswer(a, log1p, c, query, k) && IsAnswer(b, log1p, c, query, k')
    ensures a <= b
  {
    var r :| IsRanking(r, log1p, c, query) && a == TopOf(r, k);
    var s :| IsRanking(s, log1p, c, query) && b == TopOf(s, k');
    RankingUnique(r, s, log1p, c, query);
    hide IsRanking;
    assert forall i :: 0 <= i < |a| ==> a[i] == b[i];
  }

  /** Every returned document is a candidate with its direct score; no unreturned candidate ranks before one. */
  lemma AnswerIsBest(a: seq<Retrieved>, log1p: real -> real, c: Corpus, query: set<string>, k: nat, i: nat, d: string)
    requires c.Valid() && IsAnswer(a, log1p, c, query, k) && i < |a|
    ensures a[i].documentId in Candidates(c, query) && a[i].rank == i + 1
    ensures a[i].score == Score(log1p, c, query, a[i].documentId)
    ensures |a| <= k && (|a| < k && d in Candidates(c, query) ==> exists j :: 0 <= j < |a| && a[j].documentId == d)
    ensures d in Candidates(c, query) && (forall j :: 0 <= j < |a| ==> a[j].documentId != d) ==>
              a[i].score > Score(log1p, c, query, d)
              || (a[i].score == Score(log1p, c, query, d) && StringLe(a[i].documentId, d) && a[i].documentId != d)
  {
    var r :| IsRanking(r, log1p, c, query) && a == TopOf(r, k);
    assert r[i] in r;
    if d in Candidates(c, query) {
      var e := (Score(log1p, c, query, d), d);
      assert e in r;
      var j :| 0 <= j < |r| && r[j] == e;
      hide Score, Candidates;
      if j < |a| {
        assert a[j].documentId == d;
      } else {
        assert RankLe(r[i], r[j]);
      }
    }
  }

  /** Among the returned documents the scores fall, and equal ones are in the order of their IDs. */
  ghost predicate InOrder(a: seq<Retrieved>) {
    && (forall i :: 0 <= i < |a| ==> a[i].rank == i + 1)
    && (forall i, j :: 0 <= i < j < |a| ==>
          a[i].score > a[j].score
          || (a[i].score == a[j].score && StringLe(a[i].documentId, a[j].documentId)
              && a[i].documentId != a[j].documentId))
  }

  lemma AnswerInOrder(a: seq<Retrieved>, log1p: real -> real, c: Corpus, query: set<string>, k: nat)
    requires c.Valid() && IsAnswer(a, log1p, c, query, k)
    ensures InOrder(a)
  {
    var r :| IsRanking(r, log1p, c, query) && a == TopOf(r, k);
    hide Score, Candidates, StringLe;
    forall i, j | 0 <= i < j < |a|
      ensures RankLe((a[i].score, a[i].documentId), (a[j].score, a[j].documentId))
      ensures a[i].score == a[j].score ==> a[i].documentId != a[j].documentId
    {
      assert RankLe(r[i], r[j]) && r[i] != r[j];
    }
  }

  /** With a logarithm that is positive on positives, every candidate's score is positive. */
  lemma {:induction false} ScorePositive(log1p: real -> real, c: Corpus, query: set<string>, d: string)
    requires c.Valid() && forall x :: x > 0.0 ==> log1p(x) > 0.0
    ensures Score(log1p, c, query, d) >= 0.0
    ensures d in Candidates(c, query) ==> Score(log1p, c, query, d) > 0.0
    decreases |query|
  {
    if query != {} {
      var token :| token in query && (d in Candidates(c, query) ==> d in Holders(c, token));
      ScoreAnyOrder(log1p, c, query, d, token);
      ScorePositive(log1p, c, query - {token}, d);
      ContributionPositive(log1p, c, token, d);
    }
  }

  lemma ContributionPositive(log1p: real -> real, c: Corpus, token: string, d: string)
    requires c.Valid() && forall x :: x > 0.0 ==> log1p(x) > 0.0
    ensures Contribution(log1p, c, token, d) >= 0.0
    ensures d in Holders(c, token) ==> Contribution(log1p, c, token, d) > 0.0
  {
    if d in Holders(c, token) {
      DivisionsDefined(c, token, d);
      HoldersBound(c, token);
      var n, h := |c.documents| as real, |Holders(c, token)| as real;
      Positive(n - h + 0.5, h + 0.5);
      var frequency := multiset(c.documents[d].tokens)[token] as real;
      var normalization := Normalization(c, |c.documents[d].tokens|, Average(c));
      ProductPositive(frequency, c.k1 + 1.0);
      Positive(frequency * (c.k1 + 1.0), frequency + normalization);
      ProductPositive(Idf(log1p, |c.documents|, |Holders(c, token)|),
                      Weight(c, multiset(c.documents[d].tokens)[token], normalization));
    }
  }

  lemma ProductPositive(x: real, y: real)
    requires x > 0.0 && y > 0.0
    ensures x * y > 0.0
  {
  }

  lemma HoldersBound(c: Corpus, token: string)
    ensures |Holders(c, token)| <= |c.documents|
  {
    var all := c.documents.Keys;
    assert Holders(c, token) <= all && |all| == |c.documents|;
    assert all == Holders(c, token) + (all - Holders(c, token));
  }

  // ----- the retriever -----

  /** collections.Counter. */
  function Counter(tokens: seq<string>): map<string, nat> {
    map t | t in tokens :: multiset(tokens)[t]
  }

  type Postings = map<string, map<string, nat>>

  function PostingsOf(postings: Postings, token: string): map<string, nat> {
    if token in postings then postings[token] else map[]
  }

  predicate Posted(documents: map<string, Document>, late: string, pending: set<string>, token: string, d: string) {
    d in documents && token in documents[d].tokens && !(d == late && token in pending)
  }

  /** The index says of each token who holds it and how often, except for the late document's pending tokens. */
  ghost predicate Matches(postings: Postings, documents: map<string, Document>, late: string, pending: set<string>) {
    forall t, d ::
      && (d in PostingsOf(postings, t) <==> Posted(documents, late, pending, t, d))
      && (d in PostingsOf(postings, t) ==> PostingsOf(postings, t)[d] == multiset(documents[d].tokens)[t])
  }

  lemma PostOne(postings: Postings, documents: map<string, Document>, late: string, pending: set<string>, token: string)
    requires Matches(postings, documents, late, pending)
    requires late in documents && token in pending && token in documents[late].tokens
    ensures Matches(postings[token := PostingsOf(postings, token)[late := multiset(documents[late].tokens)[token]]],
                    documents, late, pending - {token})
  {
    var after := postings[token := PostingsOf(postings, token)[late := multiset(documents[late].tokens)[token]]];
    forall t, d
      ensures d in PostingsOf(after, t) <==> Posted(documents, late, pending - {token}, t, d)
      ensures d in PostingsOf(after, t) ==> PostingsOf(after, t)[d] == multiset(documents[d].tokens)[t]
    {
      assert d in PostingsOf(postings, t) <==> Posted(documents, late, pending, t, d);
    }
  }

  lemma StartDocument(postings: Postings, documents: map<string, Document>, document: Document)
    requires Matches(postings, documents, "", {}) && document.id !in documents
    ensures Matches(postings, documents[document.id := document], document.id, SetOf(document.tokens))
  {
    var after := documents[document.id := document];
    forall t, d
      ensures d in PostingsOf(postings, t) <==> Posted(after, document.id, SetOf(document.tokens), t, d)
      ensures d in PostingsOf(postings, t) ==> PostingsOf(postings, t)[d] == multiset(after[d].tokens)[t]
    {
      assert d in PostingsOf(postings, t) <==> Posted(documents, "", {}, t, d);
    }
  }

  lemma FinishDocument(postings: Postings, documents: map<string, Document>, late: string)
    requires Matches(postings, documents, late, {})
    ensures Matches(postings, documents, "", {})
  {
    forall t, d
      ensures d in PostingsOf(postings, t) <==> Posted(documents, "", {}, t, d)
      ensures d in PostingsOf(postings, t) ==> PostingsOf(postings, t)[d] == multiset(documents[d].tokens)[t]
    {
      assert d in PostingsOf(postings, t) <==> Posted(documents, late, {}, t, d);
    }
  }

  lemma PostingsAreHolders(postings: Postings, c: Corpus, token: string)
    requires Matches(postings, c.documents, "", {})
    ensures PostingsOf(postings, token).Keys == Holders(c, token)
    ensures forall d :: d in Holders(c, token) ==>
              && d in PostingsOf(postings, token)
              && PostingsOf(postings, token)[d] == multiset(c.documents[d].tokens)[token]
  {
    forall d ensures d in PostingsOf(postings, token) <==> d in Holders(c, token) {
      assert d in PostingsOf(postings, token) <==> Posted(c.documents, "", {}, token, d);
    }
  }

  /** Scores accumulated so far are the direct scores for the tokens taken so far. */
  ghost predicate Accumulated(scores: map<string, real>, log1p: real -> real, c: Corpus, taken: set<string>)
    requires c.Valid()
  {
    forall d :: AccumulatedAt(scores, log1p, c, taken, d)
  }

  ghost predicate AccumulatedAt(scores: map<string, real>, log1p: real -> real, c: Corpus, taken: set<string>,
                                d: string)
    requires c.Valid()
  {
    && (d in scores <==> d in Candidates(c, taken))
    && (d in scores ==> scores[d] == Score(log1p, c, taken, d))
  }

  /** One token's contributions have been added for the documents done so far. */
  ghost predicate Added(after: map<string, real>, before: map<string, real>, done: set<string>, log1p: real -> real,
                        c: Corpus, token: string)
    requires c.Valid()
  {
    && after.Keys == before.Keys + done
    && forall d :: d in after ==>
         after[d] == (if d in before then before[d] else 0.0)
                       + (if d in done then Contribution(log1p, c, token, d) else 0.0)
  }

  lemma AddedNothing(before: map<string, real>, log1p: real -> real, c: Corpus, token: string)
    requires c.Valid()
    ensures Added(before, before, {}, log1p, c, token)
  {
  }

  lemma AddedOneMore(after: map<string, real>, before: map<string, real>, done: set<string>, log1p: real -> real,
                     c: Corpus, token: string, d: string, x: real)
    requires c.Valid() && d !in done && Added(after, before, done, log1p, c, token)
    requires x == Contribution(log1p, c, token, d)
    ensures Added(after[d := (if d in after then after[d] else 0.0) + x], before, done + {d}, log1p, c, token)
  {
    hide Contribution;
  }

  lemma AccumulateToken(before: map<string, real>, after: map<string, real>, log1p: real -> real, c: Corpus,
                        taken: set<string>, token: string)
    requires c.Valid() && token !in taken && Accumulated(before, log1p, c, taken)
    requires Added(after, before, Holders(c, token), log1p, c, token)
    ensures Accumulated(after, log1p, c, taken + {token})
  {
    forall d ensures AccumulatedAt(after, log1p, c, taken + {token}, d) {
      AccumulateAt(before, after, log1p, c, taken, token, d);
    }
  }

  lemma AccumulateAt(before: map<string, real>, after: map<string, real>, log1p: real -> real, c: Corpus,
                     taken: set<string>, token: string, d: string)
    requires c.Valid() && token !in taken && Accumulated(before, log1p, c, taken)
    requires Added(after, before, Holders(c, token), log1p, c, token)
    ensures AccumulatedAt(after, log1p, c, taken + {token}, d)
  {
    NoContribution(log1p, c, token);
    CandidatesGrow(c, taken, token);
    ScoreGrows(log1p, c, taken, token, d);
    hide Score, Contribution, Holders, Candidates;
    assert AccumulatedAt(before, log1p, c, taken, d);
  }

  lemma ScoreGrows(log1p: real -> real, c: Corpus, taken: set<string>, token: string, d: string)
    requires c.Valid() && token !in taken
    ensures Score(log1p, c, taken + {token}, d) == Score(log1p, c, taken, d) + Contribution(log1p, c, token, d)
    ensures d !in Candidates(c, taken) ==> Score(log1p, c, taken, d) == 0.0
  {
    hide Score, Contribution, Holders, Candidates;
    assert taken + {token} - {token} == taken;
    ScoreAnyOrder(log1p, c, taken + {token}, d, token);
    if d !in Candidates(c, taken) {
      ScoreOutside(log1p, c, taken, d);
    }
  }

  lemma CandidatesGrow(c: Corpus, taken: set<string>, token: string)
    ensures Candidates(c, taken + {token}) == Candidates(c, taken) + Holders(c, token)
  {
    hide Holders;
  }

  lemma RankingFromScores(items: seq<(real, string)>, scores: map<string, real>, log1p: real -> real, c: Corpus,
                          query: set<string>)
    requires c.Valid() && Accumulated(scores, log1p, c, query)
    requires NoDuplicates(items)
    requires forall e :: e in items <==> e.1 in scores && scores[e.1] == e.0
    ensures IsRanking(Sort(RankLe, items), log1p, c, query)
  {
    RankLeIsTotalOrder();
    hide RankLe, Score, Candidates;
    SortCorrect(RankLe, items);
    SortMembers(RankLe, items);
    SortNoDuplicates(RankLe, items);
    forall e ensures e in items <==> e.1 in Candidates(c, query) && e.0 == Score(log1p, c, query, e.1) {
      assert AccumulatedAt(scores, log1p, c, query, e.1);
    }
  }

  class BM25Retriever {
    const k1: real
    const b: real
    var order: seq<string>
    var documents: map<string, Document>
    var lengths: map<string, nat>
    var postings: Postings
    var average: real

    function Indexed(): Corpus
      reads this
    {
      Corpus(k1, b, order, documents)
    }

    ghost predicate Valid()
      reads this
    {
      && Indexed().Valid()
      && lengths.Keys == documents.Keys
      && (forall d :: d in documents ==> lengths[d] == |documents[d].tokens|)
      && Matches(postings, documents, "", {})
    }

    ghost predicate Ready()
      reads this
    {
      Valid() && average == Average(Indexed())
    }

    constructor (k1: real, b: real)
      requires k1 > 0.0 && 0.0 <= b <= 1.0
      ensures Valid() && Indexed() == Corpus(k1, b, [], map[])
    {
      this.k1, this.b := k1, b;
      order, documents, lengths, postings, average := [], map[], map[], map[], 0.0;
    }

    /** One round of the indexing loop; a repeated ID is refused and changes nothing. */
    method AddDocument(document: Document) returns (ok: bool)
      requires Valid()
      modifies this
      ensures Valid()
      ensures ok <==> document.id !in old(documents)
      ensures ok ==> Indexed() == Corpus(k1, b, old(order) + [document.id], old(documents)[document.id := document])
      ensures !ok ==> Indexed() == old(Indexed()) && postings == old(postings) && lengths == old(lengths)
    {
      if document.id in documents {
        return false;
      }
      StartDocument(postings, documents, document);
      order := order + [document.id];
      documents := documents[document.id := document];
      lengths := lengths[document.id := |document.tokens|];
      var counts := Counter(document.tokens);
      var pending := counts.Keys;
      assert pending == SetOf(document.tokens);
      while pending != {}
        invariant pending <= counts.Keys
        invariant Matches(postings, documents, document.id, pending)
        invariant Indexed() == Corpus(k1, b, old(order) + [document.id], old(documents)[document.id := document])
        invariant lengths == old(lengths)[document.id := |document.tokens|]
        decreases pending
      {
        hide Matches;
        var token :| token in pending;
        PostOne(postings, documents, document.id, pending, token);
        postings := postings[token := PostingsOf(postings, token)[document.id := counts[token]]];
        pending := pending - {token};
      }
      FinishDocument(postings, documents, document.id);
      return true;
    }

    method ComputeAverage()
      requires Valid()
      modifies this`average
      ensures Ready()
    {
      var total := 0;
      for i := 0 to |order|
        invariant total == TotalLength(order[..i], documents)
      {
        assert order[..i + 1][..i] == order[..i];
        total := total + lengths[order[i]];
      }
      assert order[..|order|] == order;
      average := if order == [] then 0.0 else total as real / |order| as real;
    }

    /** What one posting is worth, from the index alone. */
    method PostingScore(log1p: real -> real, token: string, idf: real, d: string, frequency: nat) returns (x: real)
      requires Ready() && d in Holders(Indexed(), token)
      requires idf == Idf(log1p, |Indexed().documents|, |Holders(Indexed(), token)|)
      requires frequency == multiset(Indexed().documents[d].tokens)[token]
      ensures x == Contribution(log1p, Indexed(), token, d)
    {
      DivisionsDefined(Indexed(), token, d);
      hide Idf, Weight, Normalization, Average, Matches;
      var normalization := Normalization(Indexed(), lengths[d], average);
      x := idf * Weight(Indexed(), frequency, normalization);
    }

    method AddPosting(log1p: real -> real, ghost before: map<string, real>, scores: map<string, real>, token: string,
                      idf: real, d: string, frequency: nat, ghost done: set<string>) returns (after: map<string, real>)
      requires Ready() && d in Holders(Indexed(), token) && d !in done
      requires idf == Idf(log1p, |Indexed().documents|, |Holders(Indexed(), token)|)
      requires frequency == multiset(Indexed().documents[d].tokens)[token]
      requires Added(scores, before, done, log1p, Indexed(), token)
      ensures Added(after, before, done + {d}, log1p, Indexed(), token)
    {
      assert Indexed().Valid();
      hide *;
      var x := PostingScore(log1p, token, idf, d, frequency);
      AddedOneMore(scores, before, done, log1p, Indexed(), token, d, x);
      after := scores[d := (if d in scores then scores[d] else 0.0) + x];
    }

    /** Posting by posting, the accumulator grows by exactly this token's contributions. */
    method AddPostings(log1p: real -> real, scores: map<string, real>, token: string, idf: real, held: map<string, nat>)
      returns (after: map<string, real>)
      requires Ready() && held.Keys == Holders(Indexed(), token)
      requires forall d :: d in held ==> held[d] == multiset(Indexed().documents[d].tokens)[token]
      requires idf == Idf(log1p, |Indexed().documents|, |Holders(Indexed(), token)|)
      ensures Added(after, scores, held.Keys, log1p, Indexed(), token)
    {
      assert Indexed().Valid();
      hide *;
      after := scores;
      AddedNothing(scores, log1p, Indexed(), token);
      var todo := held.Keys;
      ghost var done: set<string> := {};
      while todo != {}
        invariant todo <= held.Keys && done == held.Keys - todo
        invariant Added(after, scores, done, log1p, Indexed(), token)
        decreases todo
      {
        var d :| d in todo;
        after := AddPosting(log1p, scores, after, token, idf, d, held[d], done);
        done, todo := done + {d}, todo - {d};
      }
      assert done == held.Keys;
    }

    method AddToken(log1p: real -> real, scores: map<string, real>, token: string, ghost taken: set<string>)
      returns (after: map<string, real>)
      requires Ready() && token !in taken && Accumulated(scores, log1p, Indexed(), taken)
      ensures Accumulated(after, log1p, Indexed(), taken + {token})
    {
      var held := PostingsOf(postings, token);
      PostingsAreHolders(postings, Indexed(), token);
      hide Idf, Matches, Accumulated, Added, Average;
      assert |held| == |held.Keys|;
      after := AddPostings(log1p, scores, token, Idf(log1p, |documents|, |held|), held);
      AccumulateToken(scores, after, log1p, Indexed(), taken, token);
    }

    method Accumulate(log1p: real -> real, query: set<string>) returns (scores: map<string, real>)
      requires Ready()
      ensures Accumulated(scores, log1p, Indexed(), query)
    {
      scores := map[];
      var todo := query;
      while todo != {}
        invariant todo <= query && Accumulated(scores, log1p, Indexed(), query - todo)
        decreases todo
      {
        hide Accumulated;
        var token :| token in todo;
        assert query - (todo - {token}) == query - todo + {token};
        scores := AddToken(log1p, scores, token, query - todo);
        todo := todo - {token};
      }
      assert query - todo == query;
    }

    /** Rank every document that shares a token with the query; return the first k. */
    method Retrieve(log1p: real -> real, queryTokens: seq<string>, topK: int) returns (r: Result<seq<Retrieved>, Error>)
      requires Ready()
      ensures r.Err? <==> topK <= 0
      ensures r.Ok? ==> IsAnswer(r.value, log1p, Indexed(), SetOf(queryTokens), topK) && InOrder(r.value)
    {
      if topK <= 0 {
        return Err(InvalidTopK);
      }
      var query := set t | t in queryTokens;
      if query == {} || |documents| == 0 {
        NobodyAnswers(log1p, Indexed(), query, topK);
        return Ok([]);
      }
      var scores := Accumulate(log1p, query);
      var items := Items(scores);
      RankingFromScores(items, scores, log1p, Indexed(), query);
      var ranking := Sort(RankLe, items);
      assert IsAnswer(TopOf(ranking, topK), log1p, Indexed(), query, topK);
      AnswerInOrder(TopOf(ranking, topK), log1p, Indexed(), query, topK);
      return Ok(TopOf(ranking, topK));
    }
  }

  lemma NobodyAnswers(log1p: real -> real, c: Corpus, query: set<string>, k: nat)
    requires c.Valid() && (query == {} || |c.documents| == 0)
    ensures IsAnswer([], log1p, c, query, k)
  {
    assert Candidates(c, query) == {};
    assert IsRanking([], log1p, c, query);
    assert TopOf([], k) == [];
  }

  /** dict.items(), in some order. */
  method Items(scores: map<string, real>) returns (items: seq<(real, string)>)
    ensures NoDuplicates(items)
    ensures forall e :: e in items <==> e.1 in scores && scores[e.1] == e.0
  {
    items := [];
    var todo := scores.Keys;
    while todo != {}
      invariant todo <= scores.Keys && NoDuplicates(items)
      invariant forall e :: e in items <==> e.1 in scores.Keys - todo && scores[e.1] == e.0
      decreases todo
    {
      var d :| d in todo;
      assert (scores[d], d) !in items;
      items := items + [(scores[d], d)];
      todo := todo - {d};
    }
  }

  /** Building from a list of documents: parameters and distinct IDs are checked, in the source's order. */
  method Build(documents: seq<Document>, k1: real, b: real) returns (r: Result<BM25Retriever, Error>)
    ensures r == Err(BadParameters) <==> !(k1 > 0.0 && 0.0 <= b <= 1.0)
    ensures r.Ok? ==> fresh(r.value) && r.value.Ready() && r.value.k1 == k1 && r.value.b == b
    ensures r.Ok? ==> |r.value.order| == |documents|
    ensures r.Ok? ==> forall i :: 0 <= i < |documents| ==>
                        r.value.order[i] == documents[i].id && documents[i].id in r.value.documents
                        && r.value.documents[documents[i].id] == documents[i]
    ensures r.Ok? <==> k1 > 0.0 && 0.0 <= b <= 1.0
                       && forall i, j :: 0 <= i < j < |documents| ==> documents[i].id != documents[j].id
  {
    if !(k1 > 0.0 && 0.0 <= b <= 1.0) {
      return Err(BadParameters);
    }
    var retriever := new BM25Retriever(k1, b);
    for i := 0 to |documents|
      invariant retriever.Valid() && fresh(retriever) && |retriever.order| == i
      invariant forall j :: 0 <= j < i ==>
                  retriever.order[j] == documents[j].id && documents[j].id in retriever.documents
                  && retriever.documents[documents[j].id] == documents[j]
    {
      var ok := retriever.AddDocument(documents[i]);
      if !ok {
        assert documents[i].id in retriever.order;
        return Err(DuplicateDocument);
      }
    }
    retriever.ComputeAverage();
    return Ok(retriever);
  }
}
