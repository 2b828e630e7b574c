/** The comparison methods of WorkspaceStore in src/evalops/workspace/storage.py, for one workspace. */
module ComparisonStorage {
  import opened Results
  import opened Orders
  import opened Files
  import opened Comparisons

  datatype FileKind = ResultFile | FailuresFile

  class ComparisonStore {
    const codec: Codec
    const workspaceId: string
    var shelf: Shelf

    constructor (codec: Codec, workspaceId: string)
      ensures this.codec == codec && this.workspaceId == workspaceId && shelf == Shelf(map[], map[], map[])
    {
      this.codec, this.workspaceId, shelf := codec, workspaceId, Shelf(map[], map[], map[]);
    }

    /** Saves a new comparison; what an exception leaves half-written is unlinked, the last file first. */
    method SaveComparisonRecord(s: Saving) returns (end: End)
      modifies this
      ensures Admissible(workspaceId, old(shelf), s) ==> (shelf, end) == Save(codec, old(shelf), s)
      ensures !Admissible(workspaceId, old(shelf), s) ==> shelf == old(shelf) && end.Refused? && end.error != FileFailed
    {
      if s.record.workspaceId != workspaceId {
        return Refused(OwnershipInvalid);
      }
      var id := s.record.comparisonId;
      if s.failures.Some? && s.failures.value.comparisonId != id {
        return Refused(FailureIdentityInvalid);
      }
      if id in shelf.configs || id in shelf.results || id in shelf.failures {
        return Refused(AlreadyExists);
      }
      var step, created := CreateFiles(s);
      if step != Raised {
        return EndOf(step);
      }
      end := DropCreated(id, created, s.faults);
    }

    /** The try block: result, failures, config, with the files known to have been created so far. */
    method CreateFiles(s: Saving) returns (step: Step, created: seq<FileKind>)
      requires Vacant(shelf, s.record.comparisonId)
      modifies this
      ensures created in {[], [ResultFile], [ResultFile, FailuresFile]}
      ensures (if step == Raised then Dropped(shelf, s.record.comparisonId, created, |created|, s.faults)
              else (shelf, EndOf(step)))
              == Save(codec, old(shelf), s)
    {
      hide ConfigOf, Dropped, DropResult, DropBoth;
      var id := s.record.comparisonId;
      created := [];
      var (results, first) := Create(shelf.results, id, codec.encode(s.record), s.faults.result);
      shelf := shelf.(results := results);
      if first != Did {
        DroppedIsRollBack(shelf, id, s.faults);
        return first, created;
      }
      created := [ResultFile];
      if s.failures.Some? {
        var bytes := codec.encodeFailures(s.failures.value);
        var (failures, second) := Create(shelf.failures, id, bytes, s.faults.failures);
        shelf := shelf.(failures := failures);
        if second != Did {
          DroppedIsRollBack(shelf, id, s.faults);
          return second, created;
        }
        created := [ResultFile, FailuresFile];
      }
      var (configs, third) := Create(shelf.configs, id, ConfigOf(codec, s), s.faults.config);
      shelf := shelf.(configs := configs);
      step := third;
      DroppedIsRollBack(shelf, id, s.faults);
    }

    /** What unlinking the first n of these files, the last one first, comes to; the first failure ends it. */
    static function Dropped(shelf: Shelf, id: string, created: seq<FileKind>, n: nat, faults: Faults): (Shelf, End)
      requires n <= |created|
      decreases n
    {
      if n == 0 then (shelf, Refused(FileFailed))
      else
        var (next, step) := DropOne(shelf, id, created[n - 1], faults);
        if step == Did then Dropped(next, id, created, n - 1, faults) else (next, EndOf(step))
    }

    static function DropOne(shelf: Shelf, id: string, file: FileKind, faults: Faults): (Shelf, Step) {
      match file
      case ResultFile =>
        var (results, step) := Unlink(shelf.results, id, faults.dropResult); (shelf.(results := results), step)
      case FailuresFile =>
        var (failures, step) := Unlink(shelf.failures, id, faults.dropFailures); (shelf.(failures := failures), step)
    }

    static lemma DroppedIsRollBack(shelf: Shelf, id: string, faults: Faults)
      ensures Dropped(shelf, id, [], 0, faults) == (shelf, Refused(FileFailed))
      ensures Dropped(shelf, id, [ResultFile], 1, faults) == DropResult(shelf, id, faults)
      ensures Dropped(shelf, id, [ResultFile, FailuresFile], 2, faults) == DropBoth(shelf, id, faults)
    {
      hide Unlink;
      var next := DropOne(shelf, id, FailuresFile, faults).0;
      assert Dropped(next, id, [ResultFile, FailuresFile], 1, faults) == DropResult(next, id, faults);
    }

    method DropCreated(id: string, created: seq<FileKind>, faults: Faults) returns (end: End)
      modifies this
      ensures (shelf, end) == Dropped(old(shelf), id, created, |created|, faults)
    {
      hide Unlink;
      var left := |created|;
      while left > 0
        invariant 0 <= left <= |created|
        invariant Dropped(shelf, id, created, left, faults) == Dropped(old(shelf), id, created, |created|, faults)
      {
        left := left - 1;
        var step: Step;
        match created[left] {
          case ResultFile =>
            var (results, done) := Unlink(shelf.results, id, faults.dropResult);
            shelf, step := shelf.(results := results), done;
          case FailuresFile =>
            var (failures, done) := Unlink(shelf.failures, id, faults.dropFailures);
            shelf, step := shelf.(failures := failures), done;
        }
        if step != Did {
          return EndOf(step);
        }
      }
      return Refused(FileFailed);
    }

    /** A comparison's record, verified against its config on every read. */
    method GetComparisonRecord(id: string) returns (found: Result<Record, Error>)
      ensures Read(codec, workspaceId, shelf, id) == if found.Ok? then Some(found.value) else None
      ensures found.Ok? <==>
              && id in shelf.configs && id in shelf.results
              && codec.sha(shelf.results[id]) == shelf.configs[id].resultSha
              && codec.decode(shelf.results[id]).Some?
              && var c, r := shelf.configs[id], codec.decode(shelf.results[id]).value;
                 && c.comparisonId == id == r.comparisonId && c.workspaceId == workspaceId == r.workspaceId
                 && c.mode == r.mode && c.policyVersion == r.policyVersion
                 && c.baselineRunId == r.baselineRunId && c.baselineSha == r.baselineSha
                 && c.candidateRunId == r.candidateRunId && c.candidateSha == r.candidateSha
      ensures found.Ok? ==> codec.decode(shelf.results[id]) == Some(found.value)
    {
      if id !in shelf.configs || id !in shelf.results {
        return Err(Unavailable);
      }
      var config, bytes := shelf.configs[id], shelf.results[id];
      if codec.sha(bytes) != config.resultSha {
        return Err(ChecksumMismatch);
      }
      var record := codec.decode(bytes);
      if record.None? {
        return Err(EvidenceInvalid);
      }
      if record.value.workspaceId != workspaceId || record.value.comparisonId != id || !Agrees(config, record.value) {
        return Err(MetadataInvalid);
      }
      return Ok(record.value);
    }

    /** A comparison's failures, complete and in order, or an error; never an empty list in their place. */
    method GetComparisonFailures(id: string) returns (found: Result<Failures, Error>)
      ensures ReadFailures(codec, workspaceId, shelf, id) == if found.Ok? then Some(found.value) else None
      ensures found.Ok? ==>
                && id in shelf.configs && id in shelf.failures
                && shelf.configs[id].failuresSha == Some(codec.sha(shelf.failures[id]))
                && codec.decodeFailures(shelf.failures[id]) == Some(found.value)
                && found.value.comparisonId == id && found.value.queryIds != []
    {
      var record := GetComparisonRecord(id);
      if record.Err? {
        return Err(record.error);
      }
      var config := shelf.configs[id];
      if config.failuresSha.None? || id !in shelf.failures {
        return Err(FailuresUnavailable);
      }
      var bytes := shelf.failures[id];
      if codec.sha(bytes) != config.failuresSha.value {
        return Err(ChecksumMismatch);
      }
      var failures := codec.decodeFailures(bytes);
      if failures.None? {
        return Err(EvidenceInvalid);
      }
      if failures.value.comparisonId != id {
        return Err(FailuresInvalid);
      }
      var ids := failures.value.queryIds;
      var sorted := SortedStrings(set q | q in ids);
      OrderlyExactly(ids, sorted);
      if ids == [] || ids != sorted {
        return Err(FailuresInvalid);
      }
      return Ok(failures.value);
    }
  }

  /** A list equals the sorted list of its elements exactly when it is in order and repeats nothing. */
  lemma OrderlyExactly(ids: seq<string>, sorted: seq<string>)
    requires SortedBy(StringLe, sorted) && NoDuplicates(sorted) && forall q :: q in sorted <==> q in ids
    ensures Orderly(ids) <==> ids != [] && ids == sorted
  {
    if Orderly(ids) {
      StringLeIsTotalOrder();
      SortedDistinctUnique(StringLe, ids, sorted);
    }
  }
}
