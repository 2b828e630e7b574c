/** After a crash: restart, discard what is left of the run's evidence, and a new job can complete the run. */
module EvidenceRecovery {
  import opened Results
  import opened Files
  import opened Evidence
  import Jobs

  // ----- restarting -----

  /** A restart, which interrupts every job that was running, when some jobs are still to be looked at. */
  function HalfRestarted(disk: Disk, todo: set<string>): Disk {
    disk.(jobs := map job | job in disk.jobs :: if job in todo then disk.jobs[job] else Jobs.Recovered(disk.jobs[job]))
  }

  function Restarted(disk: Disk): Disk { HalfRestarted(disk, {}) }

  /** What is on disk after a restart is tried: it lists the jobs first, and does nothing if that fails. */
  function Restart(disk: Disk): Disk {
    if Listable(disk) then Restarted(disk) else disk
  }

  lemma HalfRestartedFiled(disk: Disk, todo: set<string>)
    requires Filed(disk)
    ensures Filed(HalfRestarted(disk, todo))
  {
  }

  lemma HalfRestartedSound(codec: Codec, disk: Disk, todo: set<string>)
    requires Sound(codec, disk)
    ensures Sound(codec, HalfRestarted(disk, todo)) && Frozen(disk, HalfRestarted(disk, todo))
  {
    var after := HalfRestarted(disk, todo);
    HalfRestartedFiled(disk, todo);
    hide Filed, Matches, Readable;
    assert forall a, r :: IsComplete(after, a, r) <==> IsComplete(disk, a, r);
    SameCompletions(codec, disk, after);
  }

  lemma RecoveredOnce(job: Jobs.Job)
    ensures Jobs.Recovered(Jobs.Recovered(job)) == Jobs.Recovered(job)
  {
  }

  /** Wherever a restart was cut, restarting again ends as an uncut restart would have. */
  lemma RestartAgain(disk: Disk, todo: set<string>)
    ensures Restart(HalfRestarted(disk, todo)) == if Listable(disk) then Restarted(disk) else HalfRestarted(disk, todo)
  {
    var half := HalfRestarted(disk, todo);
    forall job | job in disk.jobs
      ensures Jobs.Recovered(half.jobs[job]) == Jobs.Recovered(disk.jobs[job])
    {
      RecoveredOnce(disk.jobs[job]);
    }
    hide Jobs.Recovered;
    assert Restarted(half).jobs == Restarted(disk).jobs;
  }

  // ----- discarding and retrying -----

  /** The run has not completed, and no job of it waits in the queue. */
  ghost predicate Stopped(disk: Disk, run: string) {
    && run in disk.runs
    && forall job :: job in disk.jobs && disk.jobs[job].runId == run ==>
         disk.jobs[job].state != Jobs.Queued && disk.jobs[job].state != Jobs.Complete
  }

  /** After a restart the leftovers of exactly the stopped runs can be discarded, provided the jobs can be listed. */
  lemma RestartMakesDiscardable(disk: Disk, run: string)
    ensures Discardable(Restart(disk), run) <==> Listable(disk) && Stopped(disk, run)
  {
    if Listable(disk) {
      var after := Restarted(disk);
      forall job | job in disk.jobs
        ensures job in after.jobs && after.jobs[job].runId == disk.jobs[job].runId
        ensures Jobs.Terminal(after.jobs[job].state) && after.jobs[job].state != Jobs.Complete
                <==> disk.jobs[job].state != Jobs.Queued && disk.jobs[job].state != Jobs.Complete
      {
      }
      hide HalfRestarted, Jobs.Terminal;
      assert after.jobs.Keys == disk.jobs.Keys by { SameJobs(disk, {}); }
    }
  }

  lemma SameJobs(disk: Disk, todo: set<string>)
    ensures HalfRestarted(disk, todo).jobs.Keys == disk.jobs.Keys
    ensures HalfRestarted(disk, todo).runs == disk.runs
    ensures Listable(HalfRestarted(disk, todo)) <==> Listable(disk)
  {
  }

  function Step(record: Jobs.Job, n: nat, next: Jobs.JobState): Op {
    Change(record.id, Jobs.Update(n, Some(next), None, None))
  }

  /** The calls that create a job and take it through its phases, up to writing its evidence. */
  function Phases(record: Jobs.Job): seq<Op> {
    [NewJob(record, Fine, Fine), Step(record, 0, Jobs.Validating), Step(record, 1, Jobs.Evaluating),
     Step(record, 2, Jobs.Analyzing), Step(record, 3, Jobs.WritingArtifact)]
  }

  ghost function Advance(codec: Codec, disk: Disk, record: Jobs.Job): Disk {
    PerformAll(codec, disk, Phases(record))
  }

  lemma Unroll(codec: Codec, disk: Disk, a: Op, b: Op, c: Op, d: Op, e: Op)
    ensures PerformAll(codec, disk, [a, b, c, d, e])
            == Perform(codec, Perform(codec, Perform(codec, Perform(codec, Perform(codec, disk, a), b), c), d), e)
  {
    hide Perform;
    assert [a, b, c, d, e][1..] == [b, c, d, e] && [b, c, d, e][1..] == [c, d, e];
    assert [c, d, e][1..] == [d, e] && [d, e][1..] == [e] && [e][1..] == [];
    var d1 := Perform(codec, disk, a);
    var d2 := Perform(codec, d1, b);
    var d3 := Perform(codec, d2, c);
    assert PerformAll(codec, disk, [a, b, c, d, e]) == PerformAll(codec, d1, [b, c, d, e]);
    assert PerformAll(codec, d1, [b, c, d, e]) == PerformAll(codec, d2, [c, d, e]);
    assert PerformAll(codec, d2, [c, d, e]) == PerformAll(codec, d3, [d, e]);
    assert PerformAll(codec, d3, [d, e]) == PerformAll(codec, Perform(codec, d3, d), [e]);
    assert PerformAll(codec, Perform(codec, d3, d), [e])
        == PerformAll(codec, Perform(codec, Perform(codec, d3, d), e), []);
  }

  /** The disk with one job's record put in place. */
  function With(disk: Disk, job: Jobs.Job): Disk { disk.(jobs := disk.jobs[job.id := job]) }

  function At(record: Jobs.Job, state: Jobs.JobState, revision: nat): Jobs.Job {
    record.(state := state, revision := revision)
  }

  lemma OneStep(codec: Codec, disk: Disk, record: Jobs.Job, state: Jobs.JobState, n: nat, next: Jobs.JobState)
    requires Jobs.Fresh(record) && record.runId in disk.runs
    requires next in Jobs.Successors(state) && !Jobs.Terminal(state) && !Jobs.Terminal(next)
    ensures Perform(codec, With(disk, At(record, state, n)), Step(record, n, next))
            == With(disk, At(record, next, n + 1))
  {
    var before := With(disk, At(record, state, n));
    assert before.jobs[record.id := At(record, next, n + 1)] == disk.jobs[record.id := At(record, next, n + 1)];
  }

  lemma NewJobPlaces(codec: Codec, disk: Disk, record: Jobs.Job)
    requires Creatable(disk, record)
    ensures Jobs.Fresh(record) && record.runId in disk.runs
    ensures Perform(codec, disk, NewJob(record, Fine, Fine))
            == With(disk.(jobDirectories := disk.jobDirectories + {record.id}), At(record, Jobs.Queued, 0))
  {
    NewJobEffect(codec, disk, record, Fine, Fine);
    hide Perform;
  }

  lemma AdvanceReaches(codec: Codec, disk: Disk, record: Jobs.Job)
    requires Creatable(disk, record)
    ensures Advance(codec, disk, record)
            == With(disk.(jobDirectories := disk.jobDirectories + {record.id}), At(record, Jobs.WritingArtifact, 4))
  {
    hide Perform, PerformAll, With, At, Step, Creatable;
    Unroll(codec, disk, NewJob(record, Fine, Fine), Step(record, 0, Jobs.Validating), Step(record, 1, Jobs.Evaluating),
           Step(record, 2, Jobs.Analyzing), Step(record, 3, Jobs.WritingArtifact));
    var made := disk.(jobDirectories := disk.jobDirectories + {record.id});
    NewJobPlaces(codec, disk, record);
    OneStep(codec, made, record, Jobs.Queued, 0, Jobs.Validating);
    OneStep(codec, made, record, Jobs.Validating, 1, Jobs.Evaluating);
    OneStep(codec, made, record, Jobs.Evaluating, 2, Jobs.Analyzing);
    OneStep(codec, made, record, Jobs.Analyzing, 3, Jobs.WritingArtifact);
  }

  const NO_FAULTS := Faults(Fine, Fine, Fine, Fine, Fine, Fine)

  /** What is left of the run is discarded and a new job runs to the end, none of it meeting a fault. */
  ghost function Retried(codec: Codec, disk: Disk, run: string, record: Jobs.Job, bytes: Bytes,
                         provenance: Provenance): Disk {
    var cleared := Perform(codec, disk, Discarding(run, Fine, Fine));
    var ready := Advance(codec, cleared, record);
    Perform(codec, ready, Promotion(record.id, bytes, Some(provenance), NO_FAULTS))
  }

  lemma ClearedEffect(codec: Codec, disk: Disk, run: string)
    ensures var cleared := Perform(codec, disk, Discarding(run, Fine, Fine));
            && cleared.runs == disk.runs && cleared.jobs == disk.jobs && cleared.jobDirectories == disk.jobDirectories
            && (Discardable(disk, run) ==> run !in cleared.results && run !in cleared.provenances)
  {
  }

  /** Retrying a discardable run completes it with the new evidence. */
  lemma RetryCompletes(codec: Codec, disk: Disk, run: string, record: Jobs.Job, bytes: Bytes, provenance: Provenance)
    requires Discardable(disk, run) && Creatable(disk, record) && record.runId == run
    requires Matches(codec, disk.runs[run], bytes, provenance)
    ensures var end := Retried(codec, disk, run, record, bytes, provenance);
            && IsComplete(end, record.id, run) && Listable(end)
            && run in end.results && end.results[run] == bytes
            && run in end.provenances && end.provenances[run] == provenance
  {
    var cleared := Perform(codec, disk, Discarding(run, Fine, Fine));
    ClearedEffect(codec, disk, run);
    hide Perform, Matches;
    AdvanceReaches(codec, cleared, record);
    var ready := Advance(codec, cleared, record);
    hide Advance;
    forall job
      ensures !IsComplete(ready, job, run)
    {
      assert job in ready.jobs && job != record.id ==> job in disk.jobs && disk.jobs[job] == ready.jobs[job];
    }
    assert Eligible(codec, ready, record.id, bytes, Some(provenance));
    PromotesFine(codec, ready, record.id, bytes, provenance);
  }

  lemma PromotesFine(codec: Codec, disk: Disk, job: string, bytes: Bytes, provenance: Provenance)
    requires Eligible(codec, disk, job, bytes, Some(provenance))
    ensures var end := Perform(codec, disk, Promotion(job, bytes, Some(provenance), NO_FAULTS));
            Committed(disk, end, job, bytes, provenance) && IsComplete(end, job, disk.jobs[job].runId)
  {
    hide Matches, HasComplete;
  }

  /** While some job directory has no record, creating another job does not help: no promotion goes through. */
  lemma RetryBlocked(codec: Codec, disk: Disk, run: string, record: Jobs.Job, bytes: Bytes, provenance: Provenance)
    requires !Listable(disk) && Creatable(disk, record) && record.id !in disk.jobDirectories
    ensures !IsComplete(Retried(codec, disk, run, record, bytes, provenance), record.id, run)
  {
    var cleared := Perform(codec, disk, Discarding(run, Fine, Fine));
    ClearedEffect(codec, disk, run);
    AdvanceReaches(codec, cleared, record);
    var ready := Advance(codec, cleared, record);
    hide Advance;
    assert !Listable(ready) by {
      hide Perform;
      var d :| d in disk.jobDirectories && d !in disk.jobs;
      assert d in ready.jobDirectories && d !in ready.jobs;
    }
    assert Perform(codec, ready, Promotion(record.id, bytes, Some(provenance), NO_FAULTS)) == ready;
  }

  /**
   * From whatever crashes left of a stopped run that has had a job, however often the restart was itself cut: a restart
   * and a retry under a new job ID complete the run with the new evidence, exactly when every job directory has its
   * record.
   */
  lemma CrashedRunCanBeRetried(codec: Codec, disk: Disk, todo: set<string>, original: string, record: Jobs.Job,
                               bytes: Bytes, provenance: Provenance)
    requires Sound(codec, disk) && original in disk.jobs
    requires record.runId == disk.jobs[original].runId && Stopped(disk, record.runId)
    requires Jobs.Fresh(record) && record.id !in disk.jobDirectories
    requires Matches(codec, disk.runs[record.runId], bytes, provenance)
    ensures var run := record.runId;
            var restarted := Restart(HalfRestarted(disk, todo));
            var end := Retried(codec, restarted, run, record, bytes, provenance);
            && (Listable(disk) ==>
                  original in restarted.jobs
                  && restarted.jobs[original].state in {Jobs.Failed, Jobs.Cancelled, Jobs.Interrupted})
            && (IsComplete(end, record.id, run) <==> Listable(disk))
            && (Listable(disk) ==>
                  Served(codec, end, run) && end.results[run] == bytes && end.provenances[run] == provenance)
  {
    var run := record.runId;
    RestartAgain(disk, todo);
    SameJobs(disk, todo);
    SameJobs(disk, {});
    if Listable(disk) {
      var restarted := Restarted(disk);
      RestartMakesDiscardable(disk, run);
      assert Discardable(restarted, run);
      assert restarted.jobs[original].runId == run;
      hide HalfRestarted, Restart, Matches, Stopped;
      RetryCompletes(codec, restarted, run, record, bytes, provenance);
      RetrySound(codec, disk, restarted, run, record, bytes, provenance);
      var end := Retried(codec, restarted, run, record, bytes, provenance);
      hide Retried;
      ReadableExactly(codec, end, run);
    } else {
      hide Retried, Matches;
      RetryBlocked(codec, HalfRestarted(disk, todo), run, record, bytes, provenance);
    }
  }

  /** A retry is a series of permitted calls, so it keeps the evidence sound. */
  lemma RetrySound(codec: Codec, disk: Disk, restarted: Disk, run: string, record: Jobs.Job, bytes: Bytes,
                   provenance: Provenance)
    requires Sound(codec, disk) && restarted == HalfRestarted(disk, {})
    ensures Sound(codec, Retried(codec, restarted, run, record, bytes, provenance))
  {
    HalfRestartedSound(codec, disk, {});
    hide HalfRestarted, Sound, Perform, Frozen;
    PerformKeeps(codec, restarted, Discarding(run, Fine, Fine));
    var cleared := Perform(codec, restarted, Discarding(run, Fine, Fine));
    EvidenceIsSafe(codec, cleared, Phases(record));
    PerformKeeps(codec, Advance(codec, cleared, record), Promotion(record.id, bytes, Some(provenance), NO_FAULTS));
  }
}
