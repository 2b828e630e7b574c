/** The HHEM evaluator's labelling and batching, evaluators/hallucination/hhem.py. */
module Hhem {
  import opened Results
  import opened Confusion

  datatype Input = Input(exampleId: string, context: string, response: string)

  datatype Failure = MisalignedIds | ModelRaised | WrongScoreCount | NotNumeric | ScoreOutOfRange

  datatype Outcome = Scored(predictions: seq<Prediction>) | Failed(failure: Failure)

  /** What the model returns for a batch; a score that is no number is `None`. */
  datatype Reply = Raised | Scores(raw: seq<Option<real>>)

  /** The score model is foreign code: its reply may depend on the number of the call as well as on the batch. */
  type ScoreModel = (nat, seq<(string, string)>) -> Reply

  // ----- labelling one score -----

  predicate InRange(support: real) { 0.0 <= support <= 1.0 }

  function LabelAt(threshold: real, support: real): Label {
    if support >= threshold then Grounded else Hallucinated
  }

  function ToPrediction(threshold: real, id: string, support: real): Prediction {
    Prediction(id, LabelAt(threshold, support), 1.0 - support)
  }

  /** Explicit IDs replace the inputs' own ones; they must align. */
  datatype Ids = Own | Explicit(ids: seq<string>)

  predicate Aligned(inputs: seq<Input>, ids: Ids) { ids.Explicit? ==> |ids.ids| == |inputs| }

  function IdAt(inputs: seq<Input>, ids: Ids, i: nat): string
    requires i < |inputs| && Aligned(inputs, ids)
  {
    if ids.Own? then inputs[i].exampleId else ids.ids[i]
  }

  function Predictions(threshold: real, inputs: seq<Input>, ids: Ids, scores: seq<real>): seq<Prediction>
    requires Aligned(inputs, ids) && |scores| <= |inputs|
  {
    seq(|scores|, i requires 0 <= i < |scores| => ToPrediction(threshold, IdAt(inputs, ids, i), scores[i]))
  }

  // ----- what the chunks bring -----

  function Pairs(inputs: seq<Input>): seq<(string, string)> {
    seq(|inputs|, i requires 0 <= i < |inputs| => (inputs[i].context, inputs[i].response))
  }

  /** The inputs that go to the model in the chunk that begins at a start. */
  function ChunkAt(inputs: seq<Input>, batchSize: nat, start: nat): seq<Input>
    requires start <= |inputs|
  {
    inputs[start..if start + batchSize <= |inputs| then start + batchSize else |inputs|]
  }

  /** The scores of one reply, or the fault of the first one that is no number or out of range. */
  function Read(raw: seq<Option<real>>): (r: Result<seq<real>, Failure>)
    ensures r.Ok? ==> |r.value| == |raw|
  {
    if raw == [] then Ok([])
    else
      var before, last := Read(raw[..|raw| - 1]), raw[|raw| - 1];
      if before.Err? then before
      else if last.None? then Err(NotNumeric)
      else if !InRange(last.value) then Err(ScoreOutOfRange)
      else Ok(before.value + [last.value])
  }

  /** The scores one chunk brings: one per input, or a failure. */
  function ChunkScores(model: ScoreModel, call: nat, chunk: seq<Input>): (r: Result<seq<real>, Failure>)
    ensures r.Ok? ==> |r.value| == |chunk|
  {
    match model(call, Pairs(chunk))
    case Raised => Err(ModelRaised)
    case Scores(raw) => if |raw| != |chunk| then Err(WrongScoreCount) else Read(raw)
  }

  function Prepend(scores: seq<real>, rest: Result<seq<real>, Failure>): Result<seq<real>, Failure> {
    if rest.Ok? then Ok(scores + rest.value) else rest
  }

  function Remaining(inputs: seq<Input>, start: nat): nat {
    if start < |inputs| then |inputs| - start else 0
  }

  /** The scores brought by all chunks from a start on; the first failure is the outcome. */
  function Brought(model: ScoreModel, batchSize: nat, inputs: seq<Input>, call: nat, start: nat)
    : (r: Result<seq<real>, Failure>)
    requires batchSize >= 1
    ensures r.Ok? ==> |r.value| == Remaining(inputs, start)
    decreases Remaining(inputs, start)
  {
    if start >= |inputs| then Ok([])
    else
      var first := ChunkScores(model, call, ChunkAt(inputs, batchSize, start));
      if first.Err? then first
      else Prepend(first.value, Brought(model, batchSize, inputs, call + 1, start + batchSize))
  }

  function OutcomeOf(model: ScoreModel, threshold: real, batchSize: nat, inputs: seq<Input>, ids: Ids): Outcome
    requires batchSize >= 1
  {
    if !Aligned(inputs, ids) then Failed(MisalignedIds)
    else match Brought(model, batchSize, inputs, 0, 0)
      case Err(failure) => Failed(failure)
      case Ok(scores) => Scored(Predictions(threshold, inputs, ids, scores))
  }

  // ----- the loops -----

  /** The inner loop: every raw score must be a number in [0, 1] to become a prediction. */
  method AppendScores(threshold: real, inputs: seq<Input>, ids: Ids, raw: seq<Option<real>>, ghost scores: seq<real>,
                      before: seq<Prediction>)
    returns (r: Result<seq<Prediction>, Failure>)
    requires Aligned(inputs, ids) && |scores| + |raw| <= |inputs|
    requires before == Predictions(threshold, inputs, ids, scores)
    ensures match Read(raw)
            case Err(failure) => r == Err(failure)
            case Ok(values) => r == Ok(Predictions(threshold, inputs, ids, scores + values))
  {
    var predictions := before;
    for offset := 0 to |raw|
      invariant Read(raw[..offset]).Ok?
      invariant predictions == Predictions(threshold, inputs, ids, scores + Read(raw[..offset]).value)
    {
      assert raw[..offset + 1][..offset] == raw[..offset];
      if raw[offset].None? || !InRange(raw[offset].value) {
        BadScoreEnds(raw, offset);
        return Err(if raw[offset].None? then NotNumeric else ScoreOutOfRange);
      }
      predictions := predictions + [ToPrediction(threshold, IdAt(inputs, ids, |predictions|), raw[offset].value)];
    }
    assert raw[..|raw|] == raw;
    return Ok(predictions);
  }

  /** Nothing after a bad score is looked at. */
  lemma {:induction false} BadScoreEnds(raw: seq<Option<real>>, i: nat)
    requires i < |raw| && Read(raw[..i]).Ok? && (raw[i].None? || !InRange(raw[i].value))
    ensures Read(raw) == Err(if raw[i].None? then NotNumeric else ScoreOutOfRange)
  {
    if i < |raw| - 1 {
      assert raw[..|raw| - 1][..i] == raw[..i];
      BadScoreEnds(raw[..|raw| - 1], i);
    }
  }

  /** Walks the inputs in chunks and makes one prediction from every score the model brings, or stops at a failure. */
  method EvaluateBatch(model: ScoreModel, threshold: real, batchSize: nat, inputs: seq<Input>, ids: Ids)
    returns (r: Outcome)
    requires batchSize >= 1
    ensures r == OutcomeOf(model, threshold, batchSize, inputs, ids)
  {
    if ids.Explicit? && |ids.ids| != |inputs| {
      return Failed(MisalignedIds);
    }
    var predictions: seq<Prediction> := [];
    ghost var scores: seq<real> := [];
    var start, call := 0, 0;
    PrependNothing(Brought(model, batchSize, inputs, 0, 0));
    while start < |inputs|
      invariant |scores| == if start < |inputs| then start else |inputs|
      invariant predictions == Predictions(threshold, inputs, ids, scores)
      invariant Prepend(scores, Brought(model, batchSize, inputs, call, start))
              == Brought(model, batchSize, inputs, 0, 0)
      decreases |inputs| - start
    {
      var chunk := ChunkAt(inputs, batchSize, start);
      var reply := model(call, Pairs(chunk));
      if reply.Raised? {
        return Failed(ModelRaised);
      }
      if |reply.raw| != |chunk| {
        return Failed(WrongScoreCount);
      }
      var extended := AppendScores(threshold, inputs, ids, reply.raw, scores, predictions);
      if extended.Err? {
        return Failed(extended.error);
      }
      ghost var values, rest := Read(reply.raw).value, Brought(model, batchSize, inputs, call + 1, start + batchSize);
      PrependTwice(scores, values, rest);
      predictions, scores := extended.value, scores + values;
      start, call := start + batchSize, call + 1;
    }
    assert scores + [] == scores;
    return Scored(predictions);
  }

  lemma PrependNothing(rest: Result<seq<real>, Failure>)
    ensures Prepend([], rest) == rest
  {
    if rest.Ok? {
      assert [] + rest.value == rest.value;
    }
  }

  lemma PrependTwice(a: seq<real>, b: seq<real>, rest: Result<seq<real>, Failure>)
    ensures Prepend(a, Prepend(b, rest)) == Prepend(a + b, rest)
  {
    if rest.Ok? {
      assert a + (b + rest.value) == a + b + rest.value;
    }
  }

  // ----- what the outcome means -----

  /** The number a raw score is, if it is one in [0, 1]. */
  predicate Good(raw: Option<real>) { raw.Some? && InRange(raw.value) }

  /** A reply is read score by score: to all its numbers if they are good, else to the fault of the first bad one. */
  lemma {:induction false} ReadMeans(raw: seq<Option<real>>)
    ensures Read(raw).Ok? <==> forall i :: 0 <= i < |raw| ==> Good(raw[i])
    ensures Read(raw).Ok? ==> forall i :: 0 <= i < |raw| ==> raw[i] == Some(Read(raw).value[i])
    ensures Read(raw).Err? ==>
              exists i :: 0 <= i < |raw| && !Good(raw[i]) && (forall j :: 0 <= j < i ==> Good(raw[j]))
                          && Read(raw).error == if raw[i].None? then NotNumeric else ScoreOutOfRange
  {
    if raw != [] {
      var n := |raw| - 1;
      ReadMeans(raw[..n]);
      assert forall i :: 0 <= i < n ==> raw[..n][i] == raw[i];
      if Read(raw[..n]).Ok? && !Good(raw[n]) {
        assert forall j :: 0 <= j < n ==> Good(raw[j]);
      }
    }
  }

  /** Where chunk c begins, when the first one begins at a start. */
  function StartOf(batchSize: nat, start: nat, c: nat): nat
    decreases c
  {
    if c == 0 then start else StartOf(batchSize, start + batchSize, c - 1)
  }

  lemma {:induction false} StartIs(batchSize: nat, start: nat, c: nat)
    ensures StartOf(batchSize, start, c) == start + c * batchSize
    decreases c
  {
    if c > 0 {
      StartIs(batchSize, start + batchSize, c - 1);
      NextChunk(batchSize, c - 1);
    }
  }

  lemma NextChunk(batchSize: nat, c: nat)
    ensures (c + 1) * batchSize == c * batchSize + batchSize
  {
  }

  /** What chunk c brings; past the end there is nothing to bring. */
  function NthChunk(model: ScoreModel, batchSize: nat, inputs: seq<Input>, call: nat, start: nat, c: nat)
    : Result<seq<real>, Failure>
  {
    var from := StartOf(batchSize, start, c);
    if from < |inputs| then ChunkScores(model, call + c, ChunkAt(inputs, batchSize, from)) else Ok([])
  }

  lemma NthOfRest(model: ScoreModel, batchSize: nat, inputs: seq<Input>, call: nat, start: nat, c: nat)
    requires c > 0
    ensures NthChunk(model, batchSize, inputs, call, start, c)
         == NthChunk(model, batchSize, inputs, call + 1, start + batchSize, c - 1)
  {
  }

  /** If all chunks bring scores, those of chunk c are where its inputs are. */
  lemma {:induction false} BroughtAt(model: ScoreModel, batchSize: nat, inputs: seq<Input>, call: nat, start: nat,
                                     c: nat, i: nat)
    requires batchSize >= 1 && Brought(model, batchSize, inputs, call, start).Ok?
    ensures var scores, chunk := Brought(model, batchSize, inputs, call, start).value,
                                 NthChunk(model, batchSize, inputs, call, start, c);
            && chunk.Ok?
            && (i < |chunk.value| ==>
                  && start <= StartOf(batchSize, start, c) + i < start + |scores|
                  && scores[StartOf(batchSize, start, c) - start + i] == chunk.value[i])
    decreases c
  {
    hide ChunkScores, Brought;
    StartLater(batchSize, start, c);
    if start < |inputs| {
      BroughtSplits(model, batchSize, inputs, call, start);
      if c > 0 {
        NthOfRest(model, batchSize, inputs, call, start, c);
        hide NthChunk;
        BroughtAt(model, batchSize, inputs, call + 1, start + batchSize, c - 1, i);
        var first := ChunkScores(model, call, ChunkAt(inputs, batchSize, start)).value;
        var rest := Brought(model, batchSize, inputs, call + 1, start + batchSize).value;
        ShiftedIndex(first, rest, start, StartOf(batchSize, start, c) + i, batchSize);
      }
    }
  }

  lemma {:induction false} StartLater(batchSize: nat, start: nat, c: nat)
    ensures StartOf(batchSize, start, c) >= start
    decreases c
  {
    if c > 0 {
      StartLater(batchSize, start + batchSize, c - 1);
    }
  }

  lemma ShiftedIndex(first: seq<real>, rest: seq<real>, start: nat, k: nat, batchSize: nat)
    requires rest != [] ==> |first| == batchSize
    ensures start + batchSize <= k < start + batchSize + |rest| ==>
              k < start + |first + rest| && (first + rest)[k - start] == rest[k - (start + batchSize)]
  {
  }

  lemma BroughtSplits(model: ScoreModel, batchSize: nat, inputs: seq<Input>, call: nat, start: nat)
    requires batchSize >= 1 && start < |inputs| && Brought(model, batchSize, inputs, call, start).Ok?
    ensures var first := ChunkScores(model, call, ChunkAt(inputs, batchSize, start));
            var rest := Brought(model, batchSize, inputs, call + 1, start + batchSize);
            && first.Ok? && rest.Ok? && Brought(model, batchSize, inputs, call, start).value == first.value + rest.value
            && (rest.value != [] ==> |first.value| == batchSize)
  {
  }

  /** If they fail, some chunk fails in that way, and none before it fails. */
  lemma {:induction false} FirstFailure(model: ScoreModel, batchSize: nat, inputs: seq<Input>, call: nat, start: nat)
    returns (c: nat)
    requires batchSize >= 1 && Brought(model, batchSize, inputs, call, start).Err?
    ensures NthChunk(model, batchSize, inputs, call, start, c) == Brought(model, batchSize, inputs, call, start)
    ensures forall d: nat :: d < c ==> NthChunk(model, batchSize, inputs, call, start, d).Ok?
    decreases Remaining(inputs, start)
  {
    hide ChunkScores;
    if ChunkScores(model, call, ChunkAt(inputs, batchSize, start)).Err? {
      c := 0;
    } else {
      var before := FirstFailure(model, batchSize, inputs, call + 1, start + batchSize);
      c := before + 1;
      NthOfRest(model, batchSize, inputs, call, start, c);
      forall d: nat | d < c
        ensures NthChunk(model, batchSize, inputs, call, start, d).Ok?
      {
        if d > 0 {
          NthOfRest(model, batchSize, inputs, call, start, d);
        }
      }
    }
  }

  /** One score in [0, 1] per pair, depending on nothing but the pair. */
  ghost predicate Pointwise(model: ScoreModel, score: (string, string) -> real) {
    forall call: nat, pairs: seq<(string, string)> :: model(call, pairs) == Scores(ScoresOf(score, pairs))
  }

  function ScoresOf(score: (string, string) -> real, pairs: seq<(string, string)>): seq<Option<real>> {
    seq(|pairs|, i requires 0 <= i < |pairs| => Some(score(pairs[i].0, pairs[i].1)))
  }

  function ScoreOf(score: (string, string) -> real, input: Input): real {
    score(input.context, input.response)
  }

  predicate AllInRange(score: (string, string) -> real, inputs: seq<Input>, from: nat) {
    forall i :: from <= i < |inputs| ==> 0.0 <= score(inputs[i].context, inputs[i].response) <= 1.0
  }

  /** What a pointwise model leads to, from an input on; the cut into chunks plays no part. */
  ghost predicate Follows(score: (string, string) -> real, inputs: seq<Input>, from: nat,
                          r: Result<seq<real>, Failure>) {
    if AllInRange(score, inputs, from) then
      && r.Ok? && |r.value| == Remaining(inputs, from)
      && forall i :: 0 <= i < |r.value| ==> r.value[i] == ScoreOf(score, inputs[from + i])
    else r == Err(ScoreOutOfRange)
  }

  lemma ChunkFollows(model: ScoreModel, score: (string, string) -> real, call: nat, chunk: seq<Input>)
    requires Pointwise(model, score)
    ensures Follows(score, chunk, 0, ChunkScores(model, call, chunk))
  {
    var raw := ScoresOf(score, Pairs(chunk));
    ReadMeans(raw);
    assert forall i :: 0 <= i < |chunk| ==> raw[i] == Some(ScoreOf(score, chunk[i]));
    hide Read;
    if Read(raw).Err? {
      var i :| 0 <= i < |raw| && !Good(raw[i])
               && Read(raw).error == if raw[i].None? then NotNumeric else ScoreOutOfRange;
      assert !InRange(ScoreOf(score, chunk[i]));
    }
  }

  lemma FollowsJoins(score: (string, string) -> real, inputs: seq<Input>, from: nat, to: nat,
                     first: Result<seq<real>, Failure>, rest: Result<seq<real>, Failure>)
    requires from <= to && (to <= |inputs| || rest == Ok([]))
    requires var end := if to <= |inputs| then to else |inputs|;
             from <= end && Follows(score, inputs[from..end], 0, first)
    requires Follows(score, inputs, to, rest)
    ensures Follows(score, inputs, from, if first.Err? then first else Prepend(first.value, rest))
  {
    var end := if to <= |inputs| then to else |inputs|;
    var chunk := inputs[from..end];
    assert forall i :: 0 <= i < |chunk| ==> chunk[i] == inputs[from + i];
    assert forall i :: from <= i < end ==> chunk[i - from] == inputs[i];
    hide InRange, ScoreOf;
    assert AllInRange(score, inputs, from) <==> AllInRange(score, chunk, 0) && AllInRange(score, inputs, to);
  }

  lemma {:induction false} BroughtFollows(model: ScoreModel, score: (string, string) -> real, batchSize: nat,
                                          inputs: seq<Input>, call: nat, start: nat)
    requires batchSize >= 1 && Pointwise(model, score)
    ensures Follows(score, inputs, start, Brought(model, batchSize, inputs, call, start))
    decreases Remaining(inputs, start)
  {
    if start < |inputs| {
      var chunk := ChunkAt(inputs, batchSize, start);
      ChunkFollows(model, score, call, chunk);
      BroughtFollows(model, score, batchSize, inputs, call + 1, start + batchSize);
      var first := ChunkScores(model, call, chunk);
      var rest := Brought(model, batchSize, inputs, call + 1, start + batchSize);
      hide Follows, ChunkScores, Pointwise;
      FollowsJoins(score, inputs, start, start + batchSize, first, rest);
    }
  }

  /** Hallucinated means less support than the threshold; the score is the support's distance from one. */
  predicate IsPrediction(p: Prediction, threshold: real, id: string, support: real) {
    p.exampleId == id && (p.verdict == Hallucinated <==> support < threshold) && p.score == 1.0 - support
  }

  /** The outcome a pointwise model leads to. */
  ghost predicate AgreesWith(score: (string, string) -> real, threshold: real, inputs: seq<Input>, ids: Ids,
                             r: Outcome) {
    if !Aligned(inputs, ids) then r == Failed(MisalignedIds)
    else if !AllInRange(score, inputs, 0) then r == Failed(ScoreOutOfRange)
    else
      && r.Scored? && |r.predictions| == |inputs|
      && forall i :: 0 <= i < |inputs| ==>
           IsPrediction(r.predictions[i], threshold, if ids.Own? then inputs[i].exampleId else ids.ids[i],
                        score(inputs[i].context, inputs[i].response))
  }

  /** A pointwise model gives every input the prediction of its own score, or fails if one score is out of range. */
  lemma PointwiseOutcome(model: ScoreModel, score: (string, string) -> real, threshold: real, batchSize: nat,
                         inputs: seq<Input>, ids: Ids)
    requires batchSize >= 1 && Pointwise(model, score)
    ensures AgreesWith(score, threshold, inputs, ids, OutcomeOf(model, threshold, batchSize, inputs, ids))
  {
    BroughtFollows(model, score, batchSize, inputs, 0, 0);
    hide Brought, Pointwise, InRange, ScoreOf;
  }

  /** So the batch size does not matter. */
  lemma BatchSizeIrrelevant(model: ScoreModel, score: (string, string) -> real, threshold: real, b: nat, b': nat,
                            inputs: seq<Input>, ids: Ids)
    requires b >= 1 && b' >= 1 && Pointwise(model, score)
    ensures OutcomeOf(model, threshold, b, inputs, ids) == OutcomeOf(model, threshold, b', inputs, ids)
  {
    PointwiseOutcome(model, score, threshold, b, inputs, ids);
    PointwiseOutcome(model, score, threshold, b', inputs, ids);
    var r, r' := OutcomeOf(model, threshold, b, inputs, ids), OutcomeOf(model, threshold, b', inputs, ids);
    hide OutcomeOf, Pointwise;
    if r.Scored? && r'.Scored? {
      assert forall i :: 0 <= i < |inputs| ==> r.predictions[i] == r'.predictions[i];
      assert r.predictions == r'.predictions;
    }
  }

  // ----- what any model leads to -----

  /** A batch fails, in the way of its first failing chunk, exactly when some chunk fails. */
  lemma FailsAtFirstBadChunk(model: ScoreModel, threshold: real, batchSize: nat, inputs: seq<Input>, ids: Ids)
    requires batchSize >= 1 && Aligned(inputs, ids)
    ensures var r := OutcomeOf(model, threshold, batchSize, inputs, ids);
            && (r.Scored? <==> forall c: nat :: NthChunk(model, batchSize, inputs, 0, 0, c).Ok?)
            && (r.Failed? ==>
                  exists c: nat :: NthChunk(model, batchSize, inputs, 0, 0, c) == Err(r.failure)
                                   && forall d: nat :: d < c ==> NthChunk(model, batchSize, inputs, 0, 0, d).Ok?)
  {
    var brought := Brought(model, batchSize, inputs, 0, 0);
    hide Brought, NthChunk;
    if brought.Err? {
      var c := FirstFailure(model, batchSize, inputs, 0, 0);
      assert NthChunk(model, batchSize, inputs, 0, 0, c) == brought;
    } else {
      forall c: nat
        ensures NthChunk(model, batchSize, inputs, 0, 0, c).Ok?
      {
        BroughtAt(model, batchSize, inputs, 0, 0, c, 0);
      }
    }
  }

  /** A batch that is scored has, for input i of chunk c, the prediction of the score the chunk brought for it. */
  lemma ScoredByChunks(model: ScoreModel, threshold: real, batchSize: nat, inputs: seq<Input>, ids: Ids, c: nat, i: nat)
    requires batchSize >= 1 && Aligned(inputs, ids)
    requires OutcomeOf(model, threshold, batchSize, inputs, ids).Scored?
    ensures var r, chunk := OutcomeOf(model, threshold, batchSize, inputs, ids).predictions,
                            NthChunk(model, batchSize, inputs, 0, 0, c);
            && |r| == |inputs| && chunk.Ok?
            && (i < |chunk.value| ==>
                  && c * batchSize + i < |inputs|
                  && IsPrediction(r[c * batchSize + i], threshold,
                                  if ids.Own? then inputs[c * batchSize + i].exampleId else ids.ids[c * batchSize + i],
                                  chunk.value[i]))
  {
    BroughtAt(model, batchSize, inputs, 0, 0, c, i);
    StartIs(batchSize, 0, c);
    hide Brought, NthChunk, StartOf;
  }
}
