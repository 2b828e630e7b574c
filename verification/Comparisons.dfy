/** Comparison evidence of src/evalops/workspace/storage.py: a result, optional failures, and a config written last. */
module Comparisons {
  import opened Results
  import opened Orders
  import opened Files

  type Bytes = string

  datatype Record = Record(
    comparisonId: string, workspaceId: string, mode: string, baselineRunId: string, baselineSha: string,
    candidateRunId: string, candidateSha: string, policyVersion: string, body: string)

  datatype Failures = Failures(comparisonId: string, queryIds: seq<string>, body: string)

  datatype Config = Config(
    comparisonId: string, workspaceId: string, mode: string, baselineRunId: string, baselineSha: string,
    candidateRunId: string, candidateSha: string, policyVersion: string, resultSha: string, failuresSha: Option<string>)

  /** The digest and the JSON forms the store uses. */
  datatype Codec = Codec(
    sha: Bytes -> string,
    encode: Record -> Bytes, decode: Bytes -> Option<Record>,
    encodeFailures: Failures -> Bytes, decodeFailures: Bytes -> Option<Failures>)

  /** What is encoded is decoded to itself. */
  ghost predicate Faithful(codec: Codec) {
    && (forall r :: codec.decode(codec.encode(r)) == Some(r))
    && (forall f :: codec.decodeFailures(codec.encodeFailures(f)) == Some(f))
  }

  /** The comparisons of one workspace: up to three files under each ID. */
  datatype Shelf = Shelf(configs: map<string, Config>, results: map<string, Bytes>, failures: map<string, Bytes>)

  predicate Vacant(shelf: Shelf, id: string) {
    id !in shelf.configs && id !in shelf.results && id !in shelf.failures
  }

  predicate SameAt(a: Shelf, b: Shelf, id: string) {
    && (id in a.configs <==> id in b.configs) && (id in a.configs ==> a.configs[id] == b.configs[id])
    && (id in a.results <==> id in b.results) && (id in a.results ==> a.results[id] == b.results[id])
    && (id in a.failures <==> id in b.failures) && (id in a.failures ==> a.failures[id] == b.failures[id])
  }

  datatype Error = OwnershipInvalid | FailureIdentityInvalid | AlreadyExists | FileFailed
    | Unavailable | ChecksumMismatch | EvidenceInvalid | MetadataInvalid | FailuresUnavailable | FailuresInvalid

  datatype End = Ended | Refused(error: Error) | Died

  // ----- saving -----

  datatype Saving = Saving(record: Record, failures: Option<Failures>, faults: Faults)

  /** One fault for each file operation a save may make. */
  datatype Faults = Faults(result: Fault, failures: Fault, config: Fault, dropFailures: Fault, dropResult: Fault)

  predicate Admissible(workspaceId: string, shelf: Shelf, s: Saving) {
    && s.record.workspaceId == workspaceId
    && (s.failures.Some? ==> s.failures.value.comparisonId == s.record.comparisonId)
    && Vacant(shelf, s.record.comparisonId)
  }

  function ConfigOf(codec: Codec, s: Saving): Config {
    var r := s.record;
    Config(r.comparisonId, r.workspaceId, r.mode, r.baselineRunId, r.baselineSha, r.candidateRunId, r.candidateSha,
           r.policyVersion, codec.sha(codec.encode(r)),
           if s.failures.Some? then Some(codec.sha(codec.encodeFailures(s.failures.value))) else None)
  }

  function EndOf(step: Step): End {
    match step case Did => Ended case Raised => Refused(FileFailed) case Crashed => Died
  }

  /** The handler: the files known to have been created go, the last one first. */
  function DropResult(shelf: Shelf, id: string, faults: Faults): (Shelf, End) {
    var (results, step) := Unlink(shelf.results, id, faults.dropResult);
    (shelf.(results := results), if step == Crashed then Died else Refused(FileFailed))
  }

  function DropBoth(shelf: Shelf, id: string, faults: Faults): (Shelf, End) {
    var (failures, step) := Unlink(shelf.failures, id, faults.dropFailures);
    var one := shelf.(failures := failures);
    if step == Did then DropResult(one, id, faults) else (one, EndOf(step))
  }

  function SaveConfig(codec: Codec, shelf: Shelf, s: Saving): (Shelf, End) {
    var id := s.record.comparisonId;
    var (configs, step) := Create(shelf.configs, id, ConfigOf(codec, s), s.faults.config);
    var after := shelf.(configs := configs);
    if step != Raised then (after, EndOf(step))
    else if s.failures.Some? then DropBoth(after, id, s.faults) else DropResult(after, id, s.faults)
  }

  function SaveFailures(codec: Codec, shelf: Shelf, s: Saving): (Shelf, End) {
    var id := s.record.comparisonId;
    if s.failures.None? then SaveConfig(codec, shelf, s)
    else
      var (failures, step) := Create(shelf.failures, id, codec.encodeFailures(s.failures.value), s.faults.failures);
      var after := shelf.(failures := failures);
      match step
      case Did => SaveConfig(codec, after, s)
      case Crashed => (after, Died)
      case Raised => DropResult(after, id, s.faults)
  }

  /** An admissible save: result, then failures, then config; on an exception what was created goes. */
  function Save(codec: Codec, shelf: Shelf, s: Saving): (Shelf, End) {
    var (results, step) := Create(shelf.results, s.record.comparisonId, codec.encode(s.record), s.faults.result);
    var after := shelf.(results := results);
    if step == Did then SaveFailures(codec, after, s) else (after, EndOf(step))
  }

  // ----- reading -----

  /** The config and the record agree on everything they share. */
  predicate Agrees(config: Config, record: Record) {
    && config.comparisonId == record.comparisonId && config.workspaceId == record.workspaceId
    && config.mode == record.mode && config.policyVersion == record.policyVersion
    && config.baselineRunId == record.baselineRunId && config.baselineSha == record.baselineSha
    && config.candidateRunId == record.candidateRunId && config.candidateSha == record.candidateSha
  }

  /** The record a reader of an ID gets, if any. */
  function Read(codec: Codec, workspaceId: string, shelf: Shelf, id: string): Option<Record> {
    if id in shelf.configs && id in shelf.results && codec.sha(shelf.results[id]) == shelf.configs[id].resultSha then
      var record := codec.decode(shelf.results[id]);
      if record.Some? && record.value.workspaceId == workspaceId && record.value.comparisonId == id
         && Agrees(shelf.configs[id], record.value)
      then record else None
    else None
  }

  /** Query IDs as a set would list them, and at least one. */
  ghost predicate Orderly(ids: seq<string>) {
    ids != [] && SortedBy(StringLe, ids) && NoDuplicates(ids)
  }

  /** The failures a reader of an ID gets, if any. */
  ghost function ReadFailures(codec: Codec, workspaceId: string, shelf: Shelf, id: string): Option<Failures> {
    if Read(codec, workspaceId, shelf, id).Some? && shelf.configs[id].failuresSha.Some? && id in shelf.failures
       && codec.sha(shelf.failures[id]) == shelf.configs[id].failuresSha.value
    then
      var failures := codec.decodeFailures(shelf.failures[id]);
      if failures.Some? && failures.value.comparisonId == id && Orderly(failures.value.queryIds) then failures else None
    else None
  }

  // ----- one save -----

  /** What a save may leave at its ID: each file is missing or the one it meant to write. */
  predicate Traces(codec: Codec, shelf: Shelf, s: Saving) {
    var id := s.record.comparisonId;
    && (id in shelf.results ==> shelf.results[id] == codec.encode(s.record))
    && (id in shelf.configs ==> shelf.configs[id] == ConfigOf(codec, s))
    && (id in shelf.failures ==> s.failures.Some? && shelf.failures[id] == codec.encodeFailures(s.failures.value))
  }

  predicate Complete(shelf: Shelf, s: Saving) {
    var id := s.record.comparisonId;
    && id in shelf.results && id in shelf.configs && (s.failures.Some? ==> id in shelf.failures)
  }

  lemma ConfigTraces(codec: Codec, shelf: Shelf, s: Saving)
    requires Traces(codec, shelf, s)
    ensures Traces(codec, SaveConfig(codec, shelf, s).0, s)
  {
    hide ConfigOf;
  }

  lemma ConfigElsewhere(codec: Codec, shelf: Shelf, s: Saving, other: string)
    requires other != s.record.comparisonId
    ensures SameAt(shelf, SaveConfig(codec, shelf, s).0, other)
  {
    hide ConfigOf;
  }

  lemma FailuresTraces(codec: Codec, shelf: Shelf, s: Saving)
    requires Traces(codec, shelf, s)
    ensures Traces(codec, SaveFailures(codec, shelf, s).0, s)
  {
    var id := s.record.comparisonId;
    ConfigTraces(codec, shelf, s);
    hide ConfigOf, SaveConfig;
    if s.failures.Some? {
      var failures := Create(shelf.failures, id, codec.encodeFailures(s.failures.value), s.faults.failures).0;
      ConfigTraces(codec, shelf.(failures := failures), s);
    }
  }

  lemma FailuresElsewhere(codec: Codec, shelf: Shelf, s: Saving, other: string)
    requires other != s.record.comparisonId
    ensures SameAt(shelf, SaveFailures(codec, shelf, s).0, other)
  {
    var id := s.record.comparisonId;
    ConfigElsewhere(codec, shelf, s, other);
    hide ConfigOf, SaveConfig;
    if s.failures.Some? {
      var failures := Create(shelf.failures, id, codec.encodeFailures(s.failures.value), s.faults.failures).0;
      ConfigElsewhere(codec, shelf.(failures := failures), s, other);
    }
  }

  /** However a save is cut, it leaves nothing at its ID but what it meant to write, */
  lemma SaveTraces(codec: Codec, shelf: Shelf, s: Saving)
    requires Vacant(shelf, s.record.comparisonId)
    ensures Traces(codec, Save(codec, shelf, s).0, s)
  {
    var results := Create(shelf.results, s.record.comparisonId, codec.encode(s.record), s.faults.result).0;
    FailuresTraces(codec, shelf.(results := results), s);
    hide ConfigOf, SaveFailures;
  }

  /** and touches no other ID. */
  lemma SaveElsewhere(codec: Codec, shelf: Shelf, s: Saving, other: string)
    requires other != s.record.comparisonId
    ensures SameAt(shelf, Save(codec, shelf, s).0, other)
  {
    var results := Create(shelf.results, s.record.comparisonId, codec.encode(s.record), s.faults.result).0;
    FailuresElsewhere(codec, shelf.(results := results), s, other);
    hide ConfigOf, SaveFailures;
  }

  lemma SaveEndsComplete(codec: Codec, shelf: Shelf, s: Saving)
    requires Vacant(shelf, s.record.comparisonId)
    ensures var (after, end) := Save(codec, shelf, s);
            end == Ended ==> Complete(after, s)
  {
    hide ConfigOf;
  }

  /** From such traces a reader gets the record saved if result and config are both there, and else nothing. */
  lemma TracesRead(codec: Codec, workspaceId: string, shelf: Shelf, s: Saving)
    requires Faithful(codec) && Traces(codec, shelf, s) && s.record.workspaceId == workspaceId
    requires s.failures.Some? ==> s.failures.value.comparisonId == s.record.comparisonId
    ensures var id := s.record.comparisonId;
            && Read(codec, workspaceId, shelf, id)
               == (if id in shelf.configs && id in shelf.results then Some(s.record) else None)
            && ReadFailures(codec, workspaceId, shelf, id)
               == (if id in shelf.configs && id in shelf.results && id in shelf.failures
                   && Orderly(s.failures.value.queryIds)
                   then s.failures else None)
  {
    var id := s.record.comparisonId;
    hide Orderly;
    assert codec.decode(codec.encode(s.record)) == Some(s.record);
    if s.failures.Some? {
      assert codec.decodeFailures(codec.encodeFailures(s.failures.value)) == s.failures;
    }
  }

  /**
   * At every point a save can be cut, a reader of its ID sees nothing or exactly the record saved; after a save that
   * returns, the record, and its failures just when they list their queries in order, at least one and each once.
   */
  lemma SaveIsAtomic(codec: Codec, workspaceId: string, shelf: Shelf, s: Saving)
    requires Faithful(codec) && Admissible(workspaceId, shelf, s)
    ensures var (after, end) := Save(codec, shelf, s);
            var id := s.record.comparisonId;
            && Read(codec, workspaceId, after, id) in {None, Some(s.record)}
            && ReadFailures(codec, workspaceId, after, id) in {None, s.failures}
            && (end == Ended ==>
                  && Read(codec, workspaceId, after, id) == Some(s.record)
                  && (s.failures.Some? ==>
                        (ReadFailures(codec, workspaceId, after, id) == s.failures
                         <==> Orderly(s.failures.value.queryIds))))
  {
    SaveTraces(codec, shelf, s);
    SaveEndsComplete(codec, shelf, s);
    var after := Save(codec, shelf, s).0;
    TracesRead(codec, workspaceId, after, s);
    hide Save, Read, ReadFailures, Faithful, Traces, Orderly;
  }

  /**
   * After an exception that the handler could clean up, the ID is free again exactly if the failed write left no
   * file.
   */
  lemma RetryPossibleExactly(codec: Codec, workspaceId: string, shelf: Shelf, s: Saving)
    requires Admissible(workspaceId, shelf, s)
    requires s.faults.dropFailures == Fine && s.faults.dropResult == Fine
    ensures var (after, end) := Save(codec, shelf, s);
            end.Refused? ==>
              (Vacant(after, s.record.comparisonId) <==>
               s.faults.result == FailsBefore
               || (s.faults.result == Fine && s.failures.Some? && s.faults.failures == FailsBefore)
               || (s.faults.result == Fine && (s.failures.Some? ==> s.faults.failures == Fine)
                   && s.faults.config == FailsBefore))
  {
    hide ConfigOf;
  }

  /** A save that returns has bound record and failures by digest, and repeated what the record says of itself. */
  lemma SavedConfig(codec: Codec, shelf: Shelf, s: Saving)
    requires Vacant(shelf, s.record.comparisonId) && Save(codec, shelf, s).1 == Ended
    ensures var id, after := s.record.comparisonId, Save(codec, shelf, s).0;
            && id in after.configs && id in after.results
            && after.results[id] == codec.encode(s.record)
            && var c := after.configs[id];
               && c.resultSha == codec.sha(codec.encode(s.record))
               && c.comparisonId == s.record.comparisonId && c.workspaceId == s.record.workspaceId
               && c.mode == s.record.mode && c.policyVersion == s.record.policyVersion
               && c.baselineRunId == s.record.baselineRunId && c.baselineSha == s.record.baselineSha
               && c.candidateRunId == s.record.candidateRunId && c.candidateSha == s.record.candidateSha
               && (s.failures.None? ==> c.failuresSha == None)
               && (s.failures.Some? ==>
                     && id in after.failures && after.failures[id] == codec.encodeFailures(s.failures.value)
                     && c.failuresSha == Some(codec.sha(after.failures[id])))
  {
    SaveTraces(codec, shelf, s);
    SaveEndsComplete(codec, shelf, s);
    hide Save;
  }

  /**
   * A comparison can be read without the failures saved with it exactly if the config was written by an attempt that
   * raised, and the handler then unlinked the failures but not the result.
   */
  lemma FailuresLostExactly(codec: Codec, workspaceId: string, shelf: Shelf, s: Saving)
    requires Faithful(codec) && Admissible(workspaceId, shelf, s)
    requires s.failures.Some? && Orderly(s.failures.value.queryIds)
    ensures var after, id := Save(codec, shelf, s).0, s.record.comparisonId;
            Read(codec, workspaceId, after, id).Some? && ReadFailures(codec, workspaceId, after, id).None? <==>
            && s.faults.result == Fine && s.faults.failures == Fine && s.faults.config == FailsAfter
            && Happens(s.faults.dropFailures) && (s.faults.dropFailures == Fine ==> !Happens(s.faults.dropResult))
  {
    SaveTraces(codec, shelf, s);
    var after := Save(codec, shelf, s).0;
    TracesRead(codec, workspaceId, after, s);
    hide Read, ReadFailures, Faithful, Traces, Orderly;
    FilesLeft(codec, shelf, s);
  }

  lemma FilesLeft(codec: Codec, shelf: Shelf, s: Saving)
    requires Vacant(shelf, s.record.comparisonId) && s.failures.Some?
    ensures var after, id := Save(codec, shelf, s).0, s.record.comparisonId;
            id in after.configs && id in after.results && id !in after.failures <==>
            && s.faults.result == Fine && s.faults.failures == Fine && s.faults.config == FailsAfter
            && Happens(s.faults.dropFailures) && (s.faults.dropFailures == Fine ==> !Happens(s.faults.dropResult))
  {
    hide ConfigOf;
  }

  // ----- any number of saves -----

  function Try(codec: Codec, workspaceId: string, shelf: Shelf, s: Saving): Shelf {
    if Admissible(workspaceId, shelf, s) then Save(codec, shelf, s).0 else shelf
  }

  function TryAll(codec: Codec, workspaceId: string, shelf: Shelf, saves: seq<Saving>): Shelf
    decreases |saves|
  {
    if saves == [] then shelf else TryAll(codec, workspaceId, Try(codec, workspaceId, shelf, saves[0]), saves[1..])
  }

  /** An ID that has any file is never written again. */
  lemma OccupiedStays(codec: Codec, workspaceId: string, shelf: Shelf, s: Saving, id: string)
    requires !Vacant(shelf, id)
    ensures SameAt(shelf, Try(codec, workspaceId, shelf, s), id)
  {
    if Admissible(workspaceId, shelf, s) {
      SaveElsewhere(codec, shelf, s, id);
    }
    hide Save;
  }

  lemma SameRead(codec: Codec, workspaceId: string, a: Shelf, b: Shelf, id: string)
    requires SameAt(a, b, id)
    ensures Read(codec, workspaceId, a, id) == Read(codec, workspaceId, b, id)
    ensures ReadFailures(codec, workspaceId, a, id) == ReadFailures(codec, workspaceId, b, id)
  {
    hide Orderly;
  }

  /** Once a comparison can be read, no later saves of any kind alter what its readers get. */
  lemma {:induction false} ReadableForever(codec: Codec, workspaceId: string, shelf: Shelf, saves: seq<Saving>,
                                           id: string)
    requires Read(codec, workspaceId, shelf, id).Some?
    ensures var end := TryAll(codec, workspaceId, shelf, saves);
            && Read(codec, workspaceId, end, id) == Read(codec, workspaceId, shelf, id)
            && ReadFailures(codec, workspaceId, end, id) == ReadFailures(codec, workspaceId, shelf, id)
    decreases |saves|
  {
    if saves != [] {
      var next := Try(codec, workspaceId, shelf, saves[0]);
      OccupiedStays(codec, workspaceId, shelf, saves[0], id);
      SameRead(codec, workspaceId, shelf, next, id);
      hide Try, Read, ReadFailures;
      ReadableForever(codec, workspaceId, next, saves[1..], id);
    }
  }

  /** Whatever becomes readable is a record that one of the saves was given. */
  lemma {:induction false} OnlySavedIsRead(codec: Codec, workspaceId: string, shelf: Shelf, saves: seq<Saving>,
                                           id: string)
    requires Faithful(codec)
    ensures var found := Read(codec, workspaceId, TryAll(codec, workspaceId, shelf, saves), id);
            found.Some? && Read(codec, workspaceId, shelf, id).None? ==>
              exists i :: 0 <= i < |saves| && saves[i].record == found.value && found.value.comparisonId == id
    decreases |saves|
  {
    if saves != [] {
      var s, next := saves[0], Try(codec, workspaceId, shelf, saves[0]);
      OnlySavedIsRead(codec, workspaceId, next, saves[1..], id);
      if Read(codec, workspaceId, next, id).Some? {
        ReadableForever(codec, workspaceId, next, saves[1..], id);
      }
      TryShows(codec, workspaceId, shelf, s, id);
      hide Try, Read, ReadFailures, Faithful;
    }
  }

  lemma TryShows(codec: Codec, workspaceId: string, shelf: Shelf, s: Saving, id: string)
    requires Faithful(codec)
    ensures var after := Try(codec, workspaceId, shelf, s);
            Read(codec, workspaceId, after, id) == Read(codec, workspaceId, shelf, id)
            || (id == s.record.comparisonId && Read(codec, workspaceId, after, id) == Some(s.record))
  {
    var after := Try(codec, workspaceId, shelf, s);
    if Admissible(workspaceId, shelf, s) {
      if id == s.record.comparisonId {
        SaveIsAtomic(codec, workspaceId, shelf, s);
      } else {
        SaveElsewhere(codec, shelf, s, id);
        SameRead(codec, workspaceId, shelf, after, id);
      }
    }
    hide Save, ReadFailures, Faithful, Traces;
  }
}
