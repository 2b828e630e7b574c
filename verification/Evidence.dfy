/** Run evidence of src/evalops/workspace/storage.py: a result and its provenance, committed by completing a job. */
module Evidence {
  import opened Results
  import opened Files
  import Jobs

  type Bytes = string

  datatype Config = Config(runId: string, evaluatorVersions: map<string, string>, gitCommit: Option<string>)

  datatype Snapshot = Snapshot(
    runId: string, groundTruthId: string, groundTruthSha: string, predictionsId: string, predictionsSha: string,
    config: Config)

  datatype Provenance = Provenance(
    runId: string, groundTruthId: string, groundTruthSha: string, predictionsId: string, predictionsSha: string,
    evaluatorVersions: map<string, string>, gitCommit: Option<string>, resultSha: string)

  datatype EvaluationResult = EvaluationResult(run: Config, body: string)

  /** The digest and the parser the store uses; neither is modelled further. */
  datatype Codec = Codec(sha: Bytes -> string, parse: Bytes -> Option<EvaluationResult>)

  /** What one workspace has on disk; a job's record lives in a directory of its own, made before it. */
  datatype Disk = Disk(
    runs: map<string, Snapshot>, jobDirectories: set<string>, jobs: map<string, Jobs.Job>,
    results: map<string, Bytes>, provenances: map<string, Provenance>)

  datatype Error =
    UnknownJob | UnknownRun | NotEligible | ProvenanceRequired | InvalidResult | ConfigDiffers | IntegrityMismatch
    | CompletedImmutable | EvidenceExists | ActiveJob | Unavailable | Incomplete | ChecksumMismatch | SnapshotMismatch
    | FileFailed

  datatype End = Ended | Refused(error: Error) | Died

  predicate IsComplete(disk: Disk, job: string, run: string) {
    job in disk.jobs && disk.jobs[job].runId == run && disk.jobs[job].state == Jobs.Complete
  }

  ghost predicate HasComplete(disk: Disk, run: string) {
    exists job :: IsComplete(disk, job, run)
  }

  /** Jobs are listed by their directories, and the listing raises if one of them has no record. */
  predicate Listable(disk: Disk) {
    disk.jobDirectories <= disk.jobs.Keys
  }

  /** The provenance names this run, its inputs, its evaluators and its commit. */
  predicate Describes(provenance: Provenance, snapshot: Snapshot) {
    && provenance.runId == snapshot.runId
    && provenance.groundTruthId == snapshot.groundTruthId && provenance.groundTruthSha == snapshot.groundTruthSha
    && provenance.predictionsId == snapshot.predictionsId && provenance.predictionsSha == snapshot.predictionsSha
    && provenance.evaluatorVersions == snapshot.config.evaluatorVersions
    && provenance.gitCommit == snapshot.config.gitCommit
  }

  predicate Matches(codec: Codec, snapshot: Snapshot, bytes: Bytes, provenance: Provenance) {
    && codec.parse(bytes).Some? && codec.parse(bytes).value.run == snapshot.config
    && Describes(provenance, snapshot) && provenance.resultSha == codec.sha(bytes)
  }

  // ----- promotion -----

  /** Nothing stands in the way of promoting this job with this evidence. */
  ghost predicate Eligible(codec: Codec, disk: Disk, job: string, bytes: Bytes, provenance: Option<Provenance>) {
    && Listable(disk)
    && job in disk.jobs && disk.jobs[job].runId in disk.runs
    && disk.jobs[job].state == Jobs.WritingArtifact && !disk.jobs[job].cancelRequested
    && var run := disk.jobs[job].runId;
       && provenance.Some? && Matches(codec, disk.runs[run], bytes, provenance.value)
       && !HasComplete(disk, run)
       && run !in disk.results && run !in disk.provenances
  }

  /** One fault for each file operation a promotion may make, the read in its error handler included. */
  datatype Faults = Faults(result: Fault, provenance: Fault, update: Fault, readBack: Fault,
                           dropProvenance: Fault, dropResult: Fault)

  function Completion(job: Jobs.Job): Jobs.Update { Jobs.Update(job.revision, Some(Jobs.Complete), None, None) }

  /** The three writes, up to the first one that does not succeed. */
  function Write(disk: Disk, job: string, bytes: Bytes, provenance: Provenance, faults: Faults): (Disk, Step)
    requires job in disk.jobs
  {
    var record := disk.jobs[job];
    var (results, first) := Create(disk.results, record.runId, bytes, faults.result);
    var one := disk.(results := results);
    if first != Did then (one, first)
    else
      var (provenances, second) := Create(one.provenances, record.runId, provenance, faults.provenance);
      var two := one.(provenances := provenances);
      if second != Did then (two, second)
      else
        var (jobs, third) := Replace(two.jobs, job, Jobs.Changed(record, Completion(record)), faults.update);
        (two.(jobs := jobs), third)
  }

  /** The error handler: unless the job did complete, both files go; it may itself fail or be cut. */
  function RollBack(disk: Disk, job: string, faults: Faults): (Disk, End)
    requires job in disk.jobs
  {
    var record := disk.jobs[job];
    if faults.readBack != Fine then (disk, if Seen(faults.readBack) == Crashed then Died else Refused(FileFailed))
    else if record.state == Jobs.Complete then (disk, Refused(FileFailed))
    else
      var (provenances, first) := Unlink(disk.provenances, record.runId, faults.dropProvenance);
      var one := disk.(provenances := provenances);
      if first != Did then (one, if first == Crashed then Died else Refused(FileFailed))
      else
        var (results, second) := Unlink(one.results, record.runId, faults.dropResult);
        (one.(results := results), if second == Crashed then Died else Refused(FileFailed))
  }

  /** A promotion that is eligible: write, and on an exception roll back. */
  function Promote(disk: Disk, job: string, bytes: Bytes, provenance: Provenance, faults: Faults): (Disk, End)
    requires job in disk.jobs
  {
    var (written, step) := Write(disk, job, bytes, provenance, faults);
    match step
    case Did => (written, Ended)
    case Crashed => (written, Died)
    case Raised => RollBack(written, job, faults)
  }

  // ----- discarding -----

  /** Every job of the run has ended, none of them successfully. */
  ghost predicate Discardable(disk: Disk, run: string) {
    && run in disk.runs && Listable(disk)
    && forall job :: job in disk.jobs && disk.jobs[job].runId == run ==>
         Jobs.Terminal(disk.jobs[job].state) && disk.jobs[job].state != Jobs.Complete
  }

  function Discard(disk: Disk, run: string, dropResult: Fault, dropProvenance: Fault): (Disk, End) {
    var (results, first) := Unlink(disk.results, run, dropResult);
    var one := disk.(results := results);
    if first != Did then (one, if first == Crashed then Died else Refused(FileFailed))
    else
      var (provenances, second) := Unlink(one.provenances, run, dropProvenance);
      var end := match second case Did => Ended case Crashed => Died case Raised => Refused(FileFailed);
      (one.(provenances := provenances), end)
  }

  // ----- reading -----

  /** What a reader of the run's evidence gets, when it gets anything. */
  predicate Readable(codec: Codec, disk: Disk, run: string) {
    && run in disk.runs && run in disk.results && run in disk.provenances
    && Matches(codec, disk.runs[run], disk.results[run], disk.provenances[run])
  }

  // ----- creating a job -----

  predicate Creatable(disk: Disk, record: Jobs.Job) {
    Jobs.Fresh(record) && record.runId in disk.runs && record.id !in disk.jobs
  }

  /** The job's directory, which may be there already, and then its record. */
  function CreateJob(disk: Disk, record: Jobs.Job, makeDirectory: Fault, link: Fault): (Disk, Step) {
    var made := disk.(jobDirectories := disk.jobDirectories + if Happens(makeDirectory) then {record.id} else {});
    if Seen(makeDirectory) != Did then (made, Seen(makeDirectory))
    else
      var (jobs, step) := Create(made.jobs, record.id, record, link);
      (made.(jobs := jobs), step)
  }

  // ----- whole histories -----

  datatype Op =
    | NewRun(snapshot: Snapshot)
    | NewJob(record: Jobs.Job, makeDirectory: Fault, link: Fault)
    | Change(job: string, update: Jobs.Update)
    | Promotion(job: string, bytes: Bytes, provenance: Option<Provenance>, faults: Faults)
    | Discarding(run: string, dropResult: Fault, dropProvenance: Fault)

  /** Jobs complete through a promotion only. */
  predicate Permitted(op: Op) { op.Change? ==> op.update.next != Some(Jobs.Complete) }

  /** One call on the store; a single write that fails or is cut before its effect is the same as no call. */
  ghost function Perform(codec: Codec, disk: Disk, op: Op): Disk {
    match op
    case NewRun(snapshot) =>
      if snapshot.config.runId == snapshot.runId && snapshot.runId !in disk.runs
      then disk.(runs := disk.runs[snapshot.runId := snapshot]) else disk
    case NewJob(record, makeDirectory, link) =>
      if Creatable(disk, record) then CreateJob(disk, record, makeDirectory, link).0 else disk
    case Change(job, update) =>
      if job in disk.jobs && disk.jobs[job].runId in disk.runs && Jobs.Acceptable(disk.jobs[job], update)
      then disk.(jobs := disk.jobs[job := Jobs.Changed(disk.jobs[job], update)]) else disk
    case Promotion(job, bytes, provenance, faults) =>
      if Eligible(codec, disk, job, bytes, provenance)
      then Promote(disk, job, bytes, provenance.value, faults).0 else disk
    case Discarding(run, dropResult, dropProvenance) =>
      if Discardable(disk, run) then Discard(disk, run, dropResult, dropProvenance).0 else disk
  }

  ghost function PerformAll(codec: Codec, disk: Disk, ops: seq<Op>): Disk
    decreases |ops|
  {
    if ops == [] then disk else PerformAll(codec, Perform(codec, disk, ops[0]), ops[1..])
  }

  const EMPTY := Disk(map[], {}, map[], map[], map[])

  /** Records are filed under their own names, and jobs belong to runs. */
  ghost predicate Filed(disk: Disk) {
    && disk.jobs.Keys <= disk.jobDirectories
    && (forall job :: job in disk.jobs ==>
          disk.jobs[job].id == job && Jobs.WellFormed(disk.jobs[job]) && disk.jobs[job].runId in disk.runs)
    && (forall run :: run in disk.runs ==> disk.runs[run].runId == run)
  }

  /** At most one job of a run is complete, and then the run's evidence is there and matches. */
  ghost predicate Sound(codec: Codec, disk: Disk) {
    && Filed(disk)
    && (forall a, b, run :: IsComplete(disk, a, run) && IsComplete(disk, b, run) ==> a == b)
    && (forall job, run :: IsComplete(disk, job, run) ==> Readable(codec, disk, run))
  }

  predicate Kept<V(==)>(before: map<string, V>, after: map<string, V>, name: string) {
    name in before ==> name in after && after[name] == before[name]
  }

  /** Where a job is complete, its record and all of its run's files are as they were. */
  ghost predicate Frozen(before: Disk, after: Disk) {
    forall job, run :: IsComplete(before, job, run) ==>
      && Kept(before.jobs, after.jobs, job) && Kept(before.runs, after.runs, run)
      && Kept(before.results, after.results, run) && Kept(before.provenances, after.provenances, run)
  }

  // ----- what one promotion can leave behind -----

  /** All three writes are on disk. */
  predicate Committed(before: Disk, after: Disk, job: string, bytes: Bytes, provenance: Provenance)
    requires job in before.jobs
  {
    var record := before.jobs[job];
    && after.runs == before.runs && after.jobDirectories == before.jobDirectories
    && after.jobs == before.jobs[job := Jobs.Changed(record, Completion(record))]
    && after.results == before.results[record.runId := bytes]
    && after.provenances == before.provenances[record.runId := provenance]
  }

  /** No job has changed, and no other run's files. */
  predicate Uncommitted(before: Disk, after: Disk, run: string) {
    && after.runs == before.runs && after.jobDirectories == before.jobDirectories && after.jobs == before.jobs
    && after.results - {run} == before.results - {run}
    && after.provenances - {run} == before.provenances - {run}
  }

  lemma CreateThenUnlink<V>(files: map<string, V>, name: string, content: V)
    requires name !in files
    ensures files - {name} == files && files[name := content] - {name} == files
  {
  }

  lemma NotYetComplete(disk: Disk, job: string)
    requires job in disk.jobs && disk.jobs[job].state != Jobs.Complete
    ensures disk.jobs[job := Jobs.Changed(disk.jobs[job], Completion(disk.jobs[job]))] != disk.jobs
  {
    var after := Jobs.Changed(disk.jobs[job], Completion(disk.jobs[job]));
    assert after.state == Jobs.Complete;
    assert disk.jobs[job := after][job] == after;
  }

  /** Some or none of the two files are there, and nothing else has changed. */
  predicate Partial(before: Disk, after: Disk, run: string, bytes: Bytes, provenance: Provenance) {
    && after.runs == before.runs && after.jobDirectories == before.jobDirectories && after.jobs == before.jobs
    && after.results in {before.results, before.results[run := bytes]}
    && after.provenances in {before.provenances, before.provenances[run := provenance]}
  }

  lemma WriteEffect(disk: Disk, job: string, bytes: Bytes, provenance: Provenance, faults: Faults)
    requires job in disk.jobs && disk.jobs[job].runId !in disk.results && disk.jobs[job].runId !in disk.provenances
    ensures var (after, step) := Write(disk, job, bytes, provenance, faults);
            && (Committed(disk, after, job, bytes, provenance)
                || Partial(disk, after, disk.jobs[job].runId, bytes, provenance))
            && (step == Did ==> Committed(disk, after, job, bytes, provenance))
  {
    hide Jobs.Changed, Completion;
  }

  lemma PartialIsUncommitted(before: Disk, after: Disk, run: string, bytes: Bytes, provenance: Provenance)
    requires run !in before.results && run !in before.provenances
    requires Partial(before, after, run, bytes, provenance)
    ensures Uncommitted(before, after, run)
    ensures after.results - {run} == before.results && after.provenances - {run} == before.provenances
  {
    CreateThenUnlink(before.results, run, bytes);
    CreateThenUnlink(before.provenances, run, provenance);
  }

  lemma RollBackEffect(disk: Disk, job: string, faults: Faults)
    requires job in disk.jobs
    ensures var after := RollBack(disk, job, faults).0;
            && (disk.jobs[job].state == Jobs.Complete ==> after == disk) && after.jobs == disk.jobs
            && Uncommitted(disk, after, disk.jobs[job].runId)
            && RollBack(disk, job, faults).1 != Ended
  {
    var run := disk.jobs[job].runId;
    assert disk.results - {run} - {run} == disk.results - {run};
    assert disk.provenances - {run} - {run} == disk.provenances - {run};
  }

  /** At whatever point a promotion is cut, either the job is complete with both its files, or no job has changed. */
  lemma PromotionIsAtomic(codec: Codec, disk: Disk, job: string, bytes: Bytes, provenance: Provenance, faults: Faults)
    requires Eligible(codec, disk, job, bytes, Some(provenance))
    ensures var (after, end) := Promote(disk, job, bytes, provenance, faults);
            && (Committed(disk, after, job, bytes, provenance) || Uncommitted(disk, after, disk.jobs[job].runId))
            && (end == Ended ==> Committed(disk, after, job, bytes, provenance))
  {
    var run := disk.jobs[job].runId;
    var written := Write(disk, job, bytes, provenance, faults).0;
    WriteEffect(disk, job, bytes, provenance, faults);
    RollBackEffect(written, job, faults);
    if !Committed(disk, written, job, bytes, provenance) {
      PartialIsUncommitted(disk, written, run, bytes, provenance);
    }
    hide Write, RollBack, Matches, HasComplete, Partial;
  }

  /** And it is complete exactly when all three writes took effect. */
  lemma CommittedExactly(codec: Codec, disk: Disk, job: string, bytes: Bytes, provenance: Provenance, faults: Faults)
    requires Eligible(codec, disk, job, bytes, Some(provenance))
    ensures var after := Promote(disk, job, bytes, provenance, faults).0;
            Committed(disk, after, job, bytes, provenance) <==>
            faults.result == Fine && faults.provenance == Fine && Happens(faults.update)
  {
    NotYetComplete(disk, job);
    WrittenExactly(disk, job, bytes, provenance, faults);
    var (written, step) := Write(disk, job, bytes, provenance, faults);
    RollBackEffect(written, job, faults);
    hide Write, RollBack, Matches, HasComplete, Completion, Jobs.Changed;
  }

  lemma WrittenExactly(disk: Disk, job: string, bytes: Bytes, provenance: Provenance, faults: Faults)
    requires job in disk.jobs && disk.jobs[job].runId !in disk.results && disk.jobs[job].runId !in disk.provenances
    ensures var (after, step) := Write(disk, job, bytes, provenance, faults);
            var all := faults.result == Fine && faults.provenance == Fine && Happens(faults.update);
            && (all ==> Committed(disk, after, job, bytes, provenance))
            && (!all ==> after.jobs == disk.jobs)
  {
    hide Completion, Jobs.Changed;
  }

  /** A promotion that raised, and whose handler was not itself cut or stopped, has left no trace, or completed. */
  lemma RollBackRestores(codec: Codec, disk: Disk, job: string, bytes: Bytes, provenance: Provenance, faults: Faults)
    requires Eligible(codec, disk, job, bytes, Some(provenance))
    requires faults.readBack == Fine && faults.dropProvenance == Fine && faults.dropResult == Fine
    ensures var (after, end) := Promote(disk, job, bytes, provenance, faults);
            end.Refused? ==> after == disk || Committed(disk, after, job, bytes, provenance)
  {
    var run := disk.jobs[job].runId;
    CreateThenUnlink(disk.results, run, bytes);
    CreateThenUnlink(disk.provenances, run, provenance);
    hide Matches, HasComplete;
  }

  // ----- safety over every history -----

  lemma CommittedFiled(before: Disk, after: Disk, job: string, bytes: Bytes, provenance: Provenance)
    requires Filed(before) && job in before.jobs && before.jobs[job].state == Jobs.WritingArtifact
    requires Committed(before, after, job, bytes, provenance)
    ensures Filed(after)
    ensures IsComplete(after, job, before.jobs[job].runId)
    ensures forall a, r :: a != job ==> (IsComplete(after, a, r) <==> IsComplete(before, a, r))
  {
  }

  lemma CommittedSound(codec: Codec, before: Disk, after: Disk, job: string, bytes: Bytes, provenance: Provenance)
    requires Sound(codec, before) && Eligible(codec, before, job, bytes, Some(provenance))
    requires Committed(before, after, job, bytes, provenance)
    ensures Sound(codec, after) && Frozen(before, after)
  {
    var run := before.jobs[job].runId;
    CommittedFiled(before, after, job, bytes, provenance);
    hide Matches, Filed, Jobs.Changed, Completion;
    assert Readable(codec, after, run);
    forall a, r | IsComplete(after, a, r)
      ensures (a == job && r == run) || (a != job && r != run && IsComplete(before, a, r) && Readable(codec, after, r))
    {
      if a != job {
        assert IsComplete(before, a, r);
        assert Readable(codec, before, r);
      }
    }
  }

  lemma UncommittedSound(codec: Codec, before: Disk, after: Disk, run: string)
    requires Sound(codec, before) && !HasComplete(before, run)
    requires Uncommitted(before, after, run)
    ensures Sound(codec, after) && Frozen(before, after)
  {
    hide Matches;
    forall a, r | IsComplete(after, a, r)
      ensures r != run && IsComplete(before, a, r)
      ensures Kept(before.results, after.results, r) && Kept(before.provenances, after.provenances, r)
    {
      assert IsComplete(before, a, r);
      OtherKept(before.results, after.results, run, r);
      OtherKept(before.provenances, after.provenances, run, r);
    }
  }

  lemma OtherKept<V>(before: map<string, V>, after: map<string, V>, name: string, other: string)
    requires after - {name} == before - {name} && other != name
    ensures Kept(before, after, other)
  {
    if other in before {
      assert other in before - {name};
      assert (after - {name})[other] == (before - {name})[other];
    }
  }

  lemma ChangeSound(codec: Codec, before: Disk, job: string, update: Jobs.Update)
    requires Sound(codec, before) && job in before.jobs && Jobs.Acceptable(before.jobs[job], update)
    requires update.next != Some(Jobs.Complete)
    ensures var after := before.(jobs := before.jobs[job := Jobs.Changed(before.jobs[job], update)]);
            Sound(codec, after) && Frozen(before, after)
  {
    var after := before.(jobs := before.jobs[job := Jobs.Changed(before.jobs[job], update)]);
    assert Filed(after);
    hide Filed, Matches, Readable;
    assert forall a, r :: IsComplete(after, a, r) <==> IsComplete(before, a, r);
    SameCompletions(codec, before, after);
  }

  /** One permitted call keeps the evidence sound, and everything a completed job vouches for as it was. */
  lemma PerformKeeps(codec: Codec, disk: Disk, op: Op)
    requires Sound(codec, disk) && Permitted(op)
    ensures Sound(codec, Perform(codec, disk, op)) && Frozen(disk, Perform(codec, disk, op))
  {
    match op
    case NewRun(snapshot) => NewRunSound(codec, disk, snapshot);
    case NewJob(record, makeDirectory, link) => NewJobSound(codec, disk, record, makeDirectory, link);
    case Change(job, update) =>
      if job in disk.jobs && disk.jobs[job].runId in disk.runs && Jobs.Acceptable(disk.jobs[job], update) {
        ChangeSound(codec, disk, job, update);
      } else {
        UnchangedFrozen(disk);
      }
    case Promotion(job, bytes, provenance, faults) => PromotionSound(codec, disk, job, bytes, provenance, faults);
    case Discarding(run, dropResult, dropProvenance) => DiscardSound(codec, disk, run, dropResult, dropProvenance);
  }

  lemma UnchangedFrozen(disk: Disk)
    ensures Frozen(disk, disk)
  {
  }

  lemma NewRunSound(codec: Codec, disk: Disk, snapshot: Snapshot)
    requires Sound(codec, disk)
    ensures var after := Perform(codec, disk, NewRun(snapshot)); Sound(codec, after) && Frozen(disk, after)
  {
    var after := Perform(codec, disk, NewRun(snapshot));
    assert Filed(after) by { hide Jobs.WellFormed, Matches, Readable; }
    hide Filed, Matches;
    assert forall job, run :: IsComplete(after, job, run) <==> IsComplete(disk, job, run);
  }

  lemma NewJobSound(codec: Codec, disk: Disk, record: Jobs.Job, makeDirectory: Fault, link: Fault)
    requires Sound(codec, disk)
    ensures var after := Perform(codec, disk, NewJob(record, makeDirectory, link));
            Sound(codec, after) && Frozen(disk, after)
  {
    var after := Perform(codec, disk, NewJob(record, makeDirectory, link));
    NewJobEffect(codec, disk, record, makeDirectory, link);
    assert Filed(after) by { hide Perform, Matches, Readable; }
    hide Perform, Filed, Matches, Readable;
    assert forall job, run :: IsComplete(after, job, run) <==> IsComplete(disk, job, run);
    SameCompletions(codec, disk, after);
  }

  /** A directory, and in it the fresh record or nothing; or no change at all. */
  lemma NewJobEffect(codec: Codec, disk: Disk, record: Jobs.Job, makeDirectory: Fault, link: Fault)
    ensures var after := Perform(codec, disk, NewJob(record, makeDirectory, link));
            if !Creatable(disk, record) || !Happens(makeDirectory) then after == disk
            else if makeDirectory != Fine || !Happens(link) then
              after == disk.(jobDirectories := disk.jobDirectories + {record.id})
            else
              after == disk.(jobDirectories := disk.jobDirectories + {record.id},
                             jobs := disk.jobs[record.id := record])
  {
  }

  /** Jobs may change in any way that completes none and touches none that is complete. */
  lemma SameCompletions(codec: Codec, before: Disk, after: Disk)
    requires Sound(codec, before) && Filed(after)
    requires after == before.(jobDirectories := after.jobDirectories, jobs := after.jobs)
    requires forall job, run :: IsComplete(after, job, run) <==> IsComplete(before, job, run)
    requires forall job, run :: IsComplete(before, job, run) ==> Kept(before.jobs, after.jobs, job)
    ensures Sound(codec, after) && Frozen(before, after)
  {
    hide Filed, Matches, IsComplete;
  }

  lemma PromotionSound(codec: Codec, disk: Disk, job: string, bytes: Bytes, provenance: Option<Provenance>,
                       faults: Faults)
    requires Sound(codec, disk)
    ensures var after := Perform(codec, disk, Promotion(job, bytes, provenance, faults));
            Sound(codec, after) && Frozen(disk, after)
  {
    UnchangedFrozen(disk);
    if Eligible(codec, disk, job, bytes, provenance) {
      PromotionIsAtomic(codec, disk, job, bytes, provenance.value, faults);
      var after := Promote(disk, job, bytes, provenance.value, faults).0;
      hide Promote, Sound, Frozen, Uncommitted, Committed, Matches;
      if Committed(disk, after, job, bytes, provenance.value) {
        CommittedSound(codec, disk, after, job, bytes, provenance.value);
      } else {
        UncommittedSound(codec, disk, after, disk.jobs[job].runId);
      }
    }
  }

  lemma DiscardSound(codec: Codec, disk: Disk, run: string, dropResult: Fault, dropProvenance: Fault)
    requires Sound(codec, disk)
    ensures var after := Perform(codec, disk, Discarding(run, dropResult, dropProvenance));
            Sound(codec, after) && Frozen(disk, after)
  {
    UnchangedFrozen(disk);
    if Discardable(disk, run) {
      var after := Discard(disk, run, dropResult, dropProvenance).0;
      assert (disk.results - {run}) - {run} == disk.results - {run};
      assert (disk.provenances - {run}) - {run} == disk.provenances - {run};
      assert Uncommitted(disk, after, run);
      hide Discard, Sound, Frozen, Uncommitted, Matches;
      UncommittedSound(codec, disk, after, run);
    }
  }

  lemma FrozenJoins(codec: Codec, a: Disk, b: Disk, c: Disk)
    requires Sound(codec, a) && Frozen(a, b) && Frozen(b, c)
    ensures Frozen(a, c)
  {
    forall job, run | IsComplete(a, job, run)
      ensures IsComplete(b, job, run)
    {
      assert Kept(a.jobs, b.jobs, job);
    }
  }

  /** Over every history of permitted calls, with faults and crashes anywhere, evidence stays sound and frozen. */
  lemma {:induction false} EvidenceIsSafe(codec: Codec, disk: Disk, ops: seq<Op>)
    requires Sound(codec, disk)
    requires forall i :: 0 <= i < |ops| ==> Permitted(ops[i])
    ensures Sound(codec, PerformAll(codec, disk, ops)) && Frozen(disk, PerformAll(codec, disk, ops))
    decreases |ops|
  {
    if ops != [] {
      PerformKeeps(codec, disk, ops[0]);
      var next := Perform(codec, disk, ops[0]);
      EvidenceIsSafe(codec, next, ops[1..]);
      hide Sound, Frozen, Perform, Permitted;
      FrozenJoins(codec, disk, next, PerformAll(codec, next, ops[1..]));
    }
  }

  lemma EmptyIsSound(codec: Codec)
    ensures Sound(codec, EMPTY)
  {
  }

  /** What a completed job vouches for after any history: the digest of its result, its inputs and its configuration. */
  lemma CompletedEvidence(codec: Codec, disk: Disk, ops: seq<Op>, job: string, run: string)
    requires Sound(codec, disk) && forall i :: 0 <= i < |ops| ==> Permitted(ops[i])
    requires IsComplete(PerformAll(codec, disk, ops), job, run)
    ensures var end := PerformAll(codec, disk, ops);
            && run in end.runs && run in end.results && run in end.provenances
            && var snapshot, provenance := end.runs[run], end.provenances[run];
               && provenance.resultSha == codec.sha(end.results[run])
               && provenance.runId == snapshot.runId == run
               && provenance.groundTruthId == snapshot.groundTruthId
               && provenance.groundTruthSha == snapshot.groundTruthSha
               && provenance.predictionsId == snapshot.predictionsId
               && provenance.predictionsSha == snapshot.predictionsSha
               && provenance.evaluatorVersions == snapshot.config.evaluatorVersions
               && provenance.gitCommit == snapshot.config.gitCommit
               && codec.parse(end.results[run]).Some?
               && codec.parse(end.results[run]).value.run == snapshot.config
  {
    EvidenceIsSafe(codec, disk, ops);
    hide PerformAll;
  }

  /** Wherever a promotion is cut, its provenance is never there without its result. */
  lemma ProvenanceNeedsResult(codec: Codec, disk: Disk, job: string, bytes: Bytes, provenance: Provenance,
                              faults: Faults)
    requires Eligible(codec, disk, job, bytes, Some(provenance))
    ensures var after, run := Promote(disk, job, bytes, provenance, faults).0, disk.jobs[job].runId;
            run in after.provenances ==> run in after.results
  {
    hide Matches, HasComplete, Jobs.Changed, Completion;
  }

  // ----- what readers see -----

  /** The completed jobs of a run, as a reader lists them. */
  function CompletedJobs(disk: Disk, run: string): set<string> {
    set job | job in disk.jobs && IsComplete(disk, job, run)
  }

  /** A reader gets the run's evidence: the jobs can be listed, one of them has completed the run, the files match. */
  predicate Served(codec: Codec, disk: Disk, run: string) {
    Listable(disk) && |CompletedJobs(disk, run)| == 1 && Readable(codec, disk, run)
  }

  /** Sound evidence is served exactly when a job of the run is complete and every job directory has its record. */
  lemma ReadableExactly(codec: Codec, disk: Disk, run: string)
    requires Sound(codec, disk)
    ensures Served(codec, disk, run) <==> HasComplete(disk, run) && Listable(disk)
  {
    var jobs := CompletedJobs(disk, run);
    if job :| IsComplete(disk, job, run) {
      assert jobs == {job};
      assert Readable(codec, disk, run);
    } else {
      assert jobs == {};
    }
  }
}
