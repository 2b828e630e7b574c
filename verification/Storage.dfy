/** The job and run-evidence methods of WorkspaceStore in src/evalops/workspace/storage.py, for one workspace. */
module Storage {
  import opened Results
  import opened Files
  import opened Evidence
  import EvidenceRecovery
  import Jobs

  datatype JobError =
    NoSuchJob | Stale | TerminalJob | Unsupported | Withdrawn | CannotAdvance | ErrorNotAllowed | ErrorRequired | NoOp
    | WriteFailed | WriteDied

  lemma ChangeFiled(disk: Disk, id: string, u: Jobs.Update)
    requires Filed(disk) && id in disk.jobs && Jobs.Acceptable(disk.jobs[id], u)
    ensures Filed(disk.(jobs := disk.jobs[id := Jobs.Changed(disk.jobs[id], u)]))
  {
  }

  /** Only runs, directories and jobs matter to how records are filed. */
  lemma SameFiling(a: Disk, b: Disk)
    requires Filed(a) && b.runs == a.runs && b.jobDirectories == a.jobDirectories && b.jobs == a.jobs
    ensures Filed(b)
  {
  }

  lemma DiscardingKeeps(codec: Codec, disk: Disk, run: string, dropResult: Fault, dropProvenance: Fault)
    requires Sound(codec, disk)
    ensures Discardable(disk, run) ==> Sound(codec, Discard(disk, run, dropResult, dropProvenance).0)
  {
    PerformKeeps(codec, disk, Discarding(run, dropResult, dropProvenance));
    hide Discard, Discardable, Sound;
  }

  lemma NoneCompleted(disk: Disk, run: string)
    ensures CompletedJobs(disk, run) == {} <==> !HasComplete(disk, run)
  {
    if job :| IsComplete(disk, job, run) {
      assert job in CompletedJobs(disk, run);
    } else {
      assert CompletedJobs(disk, run) == {};
    }
  }

  class WorkspaceStore {
    const codec: Codec
    var disk: Disk

    ghost predicate Valid()
      reads this
    {
      Sound(codec, disk)
    }

    constructor (codec: Codec)
      ensures Valid() && this.codec == codec && disk == EMPTY
    {
      this.codec, disk := codec, EMPTY;
    }

    /** A run's snapshot is created once and never replaced. */
    method SaveRunSnapshot(snapshot: Snapshot) returns (saved: bool)
      requires Filed(disk)
      modifies this
      ensures Filed(disk)
      ensures disk == Perform(codec, old(disk), NewRun(snapshot))
      ensures saved <==> snapshot.config.runId == snapshot.runId && snapshot.runId !in old(disk).runs
      ensures old(Valid()) ==> Valid()
    {
      if snapshot.config.runId != snapshot.runId || snapshot.runId in disk.runs {
        saved := false;
      } else {
        disk := disk.(runs := disk.runs[snapshot.runId := snapshot]);
        saved := true;
      }
      if old(Valid()) {
        PerformKeeps(codec, old(disk), NewRun(snapshot));
      }
    }

    /** A new job begins queued, in a directory of its own, and never replaces another. */
    method SaveJobRecord(job: Jobs.Job, makeDirectory: Fault, link: Fault) returns (end: End)
      requires Jobs.WellFormed(job) && Filed(disk)
      modifies this
      ensures Filed(disk) && disk == Perform(codec, old(disk), NewJob(job, makeDirectory, link))
      ensures end == Ended <==> Creatable(old(disk), job) && makeDirectory == Fine && link == Fine
      ensures old(Valid()) ==> Valid()
    {
      NewJobEffect(codec, disk, job, makeDirectory, link);
      if job.runId !in disk.runs {
        end := Refused(UnknownRun);
      } else if job.state != Jobs.Queued || job.revision != 0 || job.cancelRequested || job.id in disk.jobs {
        end := Refused(NotEligible);
      } else {
        if Happens(makeDirectory) {
          disk := disk.(jobDirectories := disk.jobDirectories + {job.id});
        }
        var step := Seen(makeDirectory);
        if step == Did {
          var (jobs, linked) := Create(disk.jobs, job.id, job, link);
          disk, step := disk.(jobs := jobs), linked;
        }
        end := match step case Did => Ended case Raised => Refused(FileFailed) case Crashed => Died;
      }
      hide Perform;
      if old(Valid()) {
        PerformKeeps(codec, old(disk), NewJob(job, makeDirectory, link));
      }
    }

    /** Checks a change against the stored record, and stores it as the next revision. */
    method UpdateJobRecord(id: string, u: Jobs.Update, fault: Fault) returns (updated: Result<Jobs.Job, JobError>)
      requires Filed(disk)
      modifies this
      ensures Filed(disk)
      ensures var known := id in old(disk).jobs && old(disk).jobs[id].runId in old(disk).runs;
              var accepted := known && Jobs.Acceptable(old(disk).jobs[id], u);
              && (updated == Err(NoSuchJob) <==> !known)
              && (updated == Err(Stale) <==> known && u.expected != old(disk).jobs[id].revision)
              && (accepted <==> updated.Ok? || updated.error in {WriteFailed, WriteDied})
              && disk == (if accepted && Happens(fault)
                          then old(disk).(jobs := old(disk).jobs[id := Jobs.Changed(old(disk).jobs[id], u)])
                          else old(disk))
              && (accepted ==> updated == match Seen(fault)
                                          case Did => Ok(Jobs.Changed(old(disk).jobs[id], u))
                                          case Raised => Err(WriteFailed)
                                          case Crashed => Err(WriteDied))
      ensures old(Valid()) && u.next != Some(Jobs.Complete) ==> Valid()
    {
      hide Sound, Filed;
      if id !in disk.jobs || disk.jobs[id].runId !in disk.runs {
        return Err(NoSuchJob);
      }
      var current := disk.jobs[id];
      if current.revision != u.expected {
        return Err(Stale);
      }
      if Jobs.Terminal(current.state) {
        return Err(TerminalJob);
      }
      var target := if u.next.None? then current.state else u.next.value;
      if u.next.Some? && target !in Jobs.Successors(current.state) {
        return Err(Unsupported);
      }
      var cancel := if u.cancel.None? then current.cancelRequested else u.cancel.value;
      if current.cancelRequested && !cancel {
        return Err(Withdrawn);
      }
      if current.cancelRequested && target !in {current.state, Jobs.Cancelled, Jobs.Failed, Jobs.Interrupted} {
        return Err(CannotAdvance);
      }
      if u.error.Some? && target !in {Jobs.Failed, Jobs.Interrupted} {
        return Err(ErrorNotAllowed);
      }
      if target == Jobs.Failed && u.error.None? {
        return Err(ErrorRequired);
      }
      if target == current.state && cancel == current.cancelRequested {
        return Err(NoOp);
      }
      var next := Jobs.Job(current.id, current.runId, target, current.revision + 1, cancel, u.error);
      ChangeFiled(disk, id, u);
      var (jobs, step) := Replace(disk.jobs, id, next, fault);
      disk := disk.(jobs := jobs);
      if old(Valid()) && u.next != Some(Jobs.Complete) {
        PerformKeeps(codec, old(disk), Change(id, u));
      }
      match step
      case Did => return Ok(next);
      case Raised => return Err(WriteFailed);
      case Crashed => return Err(WriteDied);
    }

    /** The IDs of all jobs, read directory by directory; nothing if one of these has no record. */
    method ListJobs() returns (listed: Option<set<string>>)
      requires Filed(disk)
      ensures listed == if Listable(disk) then Some(disk.jobs.Keys) else None
    {
      var todo := disk.jobDirectories;
      var found: set<string> := {};
      while todo != {}
        invariant todo <= disk.jobDirectories && found == disk.jobDirectories - todo
        invariant found <= disk.jobs.Keys
        decreases todo
      {
        var job :| job in todo;
        if job !in disk.jobs {
          return None;
        }
        found, todo := found + {job}, todo - {job};
      }
      assert found == disk.jobs.Keys;
      return Some(found);
    }

    /** The completed jobs of a run, if the jobs can be listed. */
    method ListCompleted(run: string) returns (completed: Option<set<string>>)
      requires Filed(disk)
      ensures completed == if Listable(disk) then Some(CompletedJobs(disk, run)) else None
    {
      var listed := ListJobs();
      if listed.None? {
        return None;
      }
      hide Filed;
      var found: set<string> := {};
      var todo := listed.value;
      while todo != {}
        invariant todo <= disk.jobs.Keys
        invariant found == CompletedJobs(disk, run) - todo
        decreases todo
      {
        var job :| job in todo;
        if IsComplete(disk, job, run) {
          found := found + {job};
        }
        todo := todo - {job};
      }
      assert found == CompletedJobs(disk, run);
      return Some(found);
    }

    /** Writes result, provenance and the completed job, in that order; an exception rolls back what is not complete. */
    method WriteRunArtifacts(job: string, bytes: Bytes, provenance: Option<Provenance>, faults: Faults)
      returns (end: End)
      requires Filed(disk)
      modifies this
      ensures Filed(disk)
      ensures var eligible := Eligible(codec, old(disk), job, bytes, provenance);
              && (eligible ==> (disk, end) == Promote(old(disk), job, bytes, provenance.value, faults))
              && (!eligible ==> disk == old(disk) && end.Refused? && end.error != FileFailed)
      ensures old(Valid()) ==> Valid()
    {
      end := CheckPromotion(job, bytes, provenance);
      if end == Ended {
        end := CommitOrRollBack(job, bytes, provenance.value, faults);
      }
      if old(Valid()) {
        PerformKeeps(codec, old(disk), Promotion(job, bytes, provenance, faults));
      }
    }

    /** Everything that is checked before the first write. */
    method CheckPromotion(id: string, bytes: Bytes, provenance: Option<Provenance>) returns (end: End)
      requires Filed(disk)
      ensures end == Ended <==> Eligible(codec, disk, id, bytes, provenance)
      ensures end != Ended ==> end.Refused? && end.error != FileFailed
    {
      if id !in disk.jobs || disk.jobs[id].runId !in disk.runs {
        return Refused(UnknownJob);
      }
      var job := disk.jobs[id];
      if job.state != Jobs.WritingArtifact || job.cancelRequested {
        return Refused(NotEligible);
      }
      if provenance.None? {
        return Refused(ProvenanceRequired);
      }
      var snapshot, given := disk.runs[job.runId], provenance.value;
      var parsed := codec.parse(bytes);
      if parsed.None? {
        return Refused(InvalidResult);
      }
      if parsed.value.run != snapshot.config {
        return Refused(ConfigDiffers);
      }
      if given.runId != snapshot.runId
         || given.groundTruthId != snapshot.groundTruthId || given.predictionsId != snapshot.predictionsId
         || given.groundTruthSha != snapshot.groundTruthSha || given.predictionsSha != snapshot.predictionsSha
         || given.evaluatorVersions != snapshot.config.evaluatorVersions
         || given.gitCommit != snapshot.config.gitCommit
         || given.resultSha != codec.sha(bytes)
      {
        return Refused(IntegrityMismatch);
      }
      var completed := ListCompleted(job.runId);
      if completed.None? {
        return Refused(UnknownJob);
      }
      if completed.value != {} {
        NoneCompleted(disk, job.runId);
        return Refused(CompletedImmutable);
      }
      NoneCompleted(disk, job.runId);
      if job.runId in disk.results || job.runId in disk.provenances {
        return Refused(EvidenceExists);
      }
      return Ended;
    }

    /** The try block of a promotion and its handler. */
    method CommitOrRollBack(id: string, bytes: Bytes, provenance: Provenance, faults: Faults) returns (end: End)
      requires Filed(disk) && Eligible(codec, disk, id, bytes, Some(provenance))
      modifies this
      ensures Filed(disk)
      ensures (disk, end) == Promote(old(disk), id, bytes, provenance, faults)
    {
      var step := WriteAll(id, bytes, provenance, faults);
      match step
      case Did => return Ended;
      case Crashed => return Died;
      case Raised =>
        if faults.readBack != Fine {
          return if Seen(faults.readBack) == Crashed then Died else Refused(FileFailed);
        }
        if disk.jobs[id].state != Jobs.Complete {
          var run := disk.jobs[id].runId;
          var (provenances, first) := Unlink(disk.provenances, run, faults.dropProvenance);
          disk := disk.(provenances := provenances);
          if first != Did {
            return if first == Crashed then Died else Refused(FileFailed);
          }
          var (results, second) := Unlink(disk.results, run, faults.dropResult);
          disk := disk.(results := results);
          if second == Crashed {
            return Died;
          }
        }
        return Refused(FileFailed);
    }

    method WriteAll(id: string, bytes: Bytes, provenance: Provenance, faults: Faults) returns (step: Step)
      requires Filed(disk) && Eligible(codec, disk, id, bytes, Some(provenance))
      modifies this
      ensures Filed(disk)
      ensures (disk, step) == Write(old(disk), id, bytes, provenance, faults)
    {
      hide Matches, HasComplete;
      var job := disk.jobs[id];
      var (results, first) := Create(disk.results, job.runId, bytes, faults.result);
      disk := disk.(results := results);
      if first != Did {
        return first;
      }
      var (provenances, second) := Create(disk.provenances, job.runId, provenance, faults.provenance);
      disk := disk.(provenances := provenances);
      if second != Did {
        return second;
      }
      var updated := UpdateJobRecord(id, Completion(job), faults.update);
      step := Seen(faults.update);
    }

    /**
     * A run's evidence, verified again on every read: it is there exactly when a job of the run is complete and every
     * job directory has its record.
     */
    method GetRunArtifacts(run: string) returns (found: Result<(EvaluationResult, Provenance), Error>)
      requires Filed(disk)
      ensures found.Ok? <==> Served(codec, disk, run)
      ensures found.Ok? ==>
                && found.value.1 == disk.provenances[run] && codec.parse(disk.results[run]) == Some(found.value.0)
                && found.value.1.resultSha == codec.sha(disk.results[run])
                && found.value.0.run == disk.runs[run].config
      ensures found.Ok? ==>
                var snapshot, provenance := disk.runs[run], found.value.1;
                && provenance.runId == snapshot.runId
                && provenance.groundTruthId == snapshot.groundTruthId
                && provenance.groundTruthSha == snapshot.groundTruthSha
                && provenance.predictionsId == snapshot.predictionsId
                && provenance.predictionsSha == snapshot.predictionsSha
                && provenance.evaluatorVersions == snapshot.config.evaluatorVersions
                && provenance.gitCommit == snapshot.config.gitCommit
      ensures Valid() ==> (found.Ok? <==> HasComplete(disk, run) && Listable(disk))
    {
      ghost var valid := Valid();
      if valid {
        ReadableExactly(codec, disk, run);
      }
      hide Sound, HasComplete, CompletedJobs, Listable;
      if run !in disk.runs {
        return Err(UnknownRun);
      }
      var snapshot := disk.runs[run];
      var completed := ListCompleted(run);
      if completed.None? {
        return Err(UnknownJob);
      }
      if |completed.value| != 1 {
        return Err(Unavailable);
      }
      if run !in disk.results || run !in disk.provenances {
        return Err(Incomplete);
      }
      var bytes, provenance := disk.results[run], disk.provenances[run];
      if provenance.resultSha != codec.sha(bytes) {
        return Err(ChecksumMismatch);
      }
      var result := codec.parse(bytes);
      if result.None? {
        return Err(InvalidResult);
      }
      if result.value.run != snapshot.config || !Describes(provenance, snapshot) {
        return Err(SnapshotMismatch);
      }
      return Ok((result.value, provenance));
    }

    /** Removes what a crash left behind, unless a job of the run is active or complete. */
    method DiscardUnfinishedRunArtifacts(run: string, dropResult: Fault, dropProvenance: Fault) returns (end: End)
      requires Filed(disk)
      modifies this
      ensures Filed(disk)
      ensures Discardable(old(disk), run) ==> (disk, end) == Discard(old(disk), run, dropResult, dropProvenance)
      ensures !Discardable(old(disk), run) ==> disk == old(disk) && end in DISCARD_REFUSALS
      ensures old(Valid()) ==> Valid()
    {
      if old(Valid()) {
        DiscardingKeeps(codec, disk, run, dropResult, dropProvenance);
      }
      hide Discard, Discardable, Sound, Filed;
      end := CheckDiscard(run);
      if end == Ended {
        end := UnlinkBoth(run, dropResult, dropProvenance);
      }
    }

    method UnlinkBoth(run: string, dropResult: Fault, dropProvenance: Fault) returns (end: End)
      requires Filed(disk)
      modifies this
      ensures Filed(disk) && (disk, end) == Discard(old(disk), run, dropResult, dropProvenance)
    {
      ghost var before := disk;
      hide Filed;
      var (results, first) := Unlink(disk.results, run, dropResult);
      disk := disk.(results := results);
      SameFiling(before, disk);
      if first != Did {
        return if first == Crashed then Died else Refused(FileFailed);
      }
      var (provenances, second) := Unlink(disk.provenances, run, dropProvenance);
      disk := disk.(provenances := provenances);
      SameFiling(before, disk);
      end := match second case Did => Ended case Crashed => Died case Raised => Refused(FileFailed);
    }

    method CheckDiscard(run: string) returns (end: End)
      requires Filed(disk)
      ensures end == Ended <==> Discardable(disk, run)
      ensures end != Ended ==> end in DISCARD_REFUSALS
    {
      if run !in disk.runs {
        return Refused(UnknownRun);
      }
      var listed := ListJobs();
      if listed.None? {
        return Refused(UnknownJob);
      }
      hide Filed;
      var todo := listed.value;
      while todo != {}
        invariant todo <= disk.jobs.Keys
        invariant forall job :: job in disk.jobs && job !in todo && disk.jobs[job].runId == run ==>
                    Jobs.Terminal(disk.jobs[job].state) && disk.jobs[job].state != Jobs.Complete
        decreases todo
      {
        var job :| job in todo;
        var record := disk.jobs[job];
        if record.runId == run && record.state == Jobs.Complete {
          return Refused(CompletedImmutable);
        }
        if record.runId == run && !Jobs.Terminal(record.state) {
          return Refused(ActiveJob);
        }
        todo := todo - {job};
      }
      return Ended;
    }

    /** Discards what an ended job of a run left behind, and queues a new job for the run. */
    method RetryJob(original: string, id: string, dropResult: Fault, dropProvenance: Fault, makeDirectory: Fault,
                    link: Fault)
      returns (end: End)
      requires Filed(disk)
      modifies this
      ensures Filed(disk)
      ensures var retryable := original in old(disk).jobs && Discardable(old(disk), old(disk).jobs[original].runId);
              && (!retryable ==> disk == old(disk) && end.Refused?)
              && (retryable ==>
                    var run := old(disk).jobs[original].runId;
                    var (cleared, step) := Discard(old(disk), run, dropResult, dropProvenance);
                    if step != Ended then disk == cleared && end == step
                    else
                      && disk == Perform(codec, cleared, NewJob(QueuedJob(id, run), makeDirectory, link))
                      && (end == Ended <==> id !in cleared.jobs && makeDirectory == Fine && link == Fine))
      ensures old(Valid()) ==> Valid()
    {
      if original !in disk.jobs || disk.jobs[original].runId !in disk.runs {
        return Refused(UnknownJob);
      }
      var run := disk.jobs[original].runId;
      if disk.jobs[original].state !in {Jobs.Failed, Jobs.Cancelled, Jobs.Interrupted} {
        return Refused(NotEligible);
      }
      end := CheckDiscard(run);
      if end != Ended {
        return;
      }
      hide Perform, Discardable, Sound;
      end := DiscardUnfinishedRunArtifacts(run, dropResult, dropProvenance);
      if end != Ended {
        return;
      }
      end := SaveJobRecord(QueuedJob(id, run), makeDirectory, link);
    }

    /** One job after a restart: still to be scheduled, or interrupted if it was running. */
    method RecoverJob(id: string, fault: Fault) returns (queued: bool, step: Step)
      requires Filed(disk) && id in disk.jobs
      modifies this
      ensures Filed(disk)
      ensures var job := old(disk).jobs[id];
              var running := Jobs.Acceptable(job, Jobs.Interrupt(job));
              && (queued <==> job.state == Jobs.Queued)
              && step == (if running then Seen(fault) else Did)
              && disk == if running && Happens(fault)
                         then old(disk).(jobs := old(disk).jobs[id := Jobs.Changed(job, Jobs.Interrupt(job))])
                         else old(disk)
    {
      var job := disk.jobs[id];
      Jobs.QueueRequestsAccepted(job, Jobs.SafeJobError("", ""));
      hide Jobs.Acceptable, Jobs.Changed, Jobs.Interrupt;
      queued, step := job.state == Jobs.Queued, Did;
      if !queued && !Jobs.Terminal(job.state) {
        var updated := UpdateJobRecord(id, Jobs.Interrupt(job), fault);
        step := Seen(fault);
      }
    }

    /**
     * After a restart the queue schedules what was queued and interrupts what was running. It does nothing if the jobs
     * cannot be listed; cut by a fault, it has looked at all jobs but those left.
     */
    method Recover(faults: string -> Fault) returns (end: End, pending: set<string>, ghost left: set<string>)
      requires Filed(disk)
      modifies this
      ensures Filed(disk) && left <= old(disk).jobs.Keys
      ensures !Listable(old(disk)) ==> disk == old(disk) && end == Refused(UnknownJob)
      ensures Listable(old(disk)) ==> disk == EvidenceRecovery.HalfRestarted(old(disk), left)
      ensures end == Ended ==> left == {} && disk == EvidenceRecovery.Restart(old(disk)) && pending == QueuedJobs(disk)
      ensures Listable(old(disk)) && (forall id :: faults(id) == Fine) ==> end == Ended
      ensures old(Valid()) ==> Valid()
    {
      pending, left := {}, {};
      var listed := ListJobs();
      if listed.None? {
        return Refused(UnknownJob), {}, {};
      }
      ghost var before := disk;
      NothingRecovered(before);
      var todo := listed.value;
      hide Filed, Sound, Listable;
      while todo != {}
        invariant Filed(disk) && todo <= before.jobs.Keys
        invariant disk == EvidenceRecovery.HalfRestarted(before, todo)
        invariant pending == QueuedJobs(before) - todo
        decreases todo
      {
        var id :| id in todo;
        HalfRestartedStep(before, todo, id);
        QueuedStep(before, todo, id);
        hide EvidenceRecovery.HalfRestarted, QueuedJobs, Jobs.Recovered, Jobs.Changed, Jobs.Acceptable, Jobs.Interrupt;
        var queued, step := RecoverJob(id, faults(id));
        if step != Did {
          left := if Happens(faults(id)) then todo - {id} else todo;
          end := if step == Crashed then Died else Refused(FileFailed);
          if old(Valid()) {
            EvidenceRecovery.HalfRestartedSound(codec, before, left);
          }
          return;
        }
        if queued {
          pending := pending + {id};
        }
        todo := todo - {id};
      }
      if old(Valid()) {
        EvidenceRecovery.HalfRestartedSound(codec, before, {});
      }
      AllRestarted(before);
      end := Ended;
    }
  }

  const DISCARD_REFUSALS := {Refused(UnknownRun), Refused(UnknownJob), Refused(CompletedImmutable), Refused(ActiveJob)}

  /** A job as it is created. */
  function QueuedJob(id: string, run: string): Jobs.Job { Jobs.Job(id, run, Jobs.Queued, 0, false, None) }

  function QueuedJobs(disk: Disk): set<string> {
    set job | job in disk.jobs && disk.jobs[job].state == Jobs.Queued
  }

  lemma QueuedStep(disk: Disk, todo: set<string>, id: string)
    requires id in todo && id in disk.jobs
    ensures QueuedJobs(disk) - (todo - {id})
            == QueuedJobs(disk) - todo + if disk.jobs[id].state == Jobs.Queued then {id} else {}
  {
  }

  lemma NothingRecovered(disk: Disk)
    ensures EvidenceRecovery.HalfRestarted(disk, disk.jobs.Keys) == disk
    ensures QueuedJobs(disk) - disk.jobs.Keys == {}
  {
    assert EvidenceRecovery.HalfRestarted(disk, disk.jobs.Keys).jobs == disk.jobs;
  }

  lemma AllRestarted(disk: Disk)
    ensures QueuedJobs(EvidenceRecovery.HalfRestarted(disk, {})) == QueuedJobs(disk)
    ensures QueuedJobs(disk) - {} == QueuedJobs(disk)
    ensures Listable(disk) ==> EvidenceRecovery.Restart(disk) == EvidenceRecovery.HalfRestarted(disk, {})
  {
    var after := EvidenceRecovery.HalfRestarted(disk, {});
    assert forall job :: job in disk.jobs ==>
                           (after.jobs[job].state == Jobs.Queued <==> disk.jobs[job].state == Jobs.Queued);
  }

  lemma HalfRestartedStep(disk: Disk, todo: set<string>, id: string)
    requires id in todo && id in disk.jobs
    ensures var before, job := EvidenceRecovery.HalfRestarted(disk, todo), disk.jobs[id];
            && id in before.jobs && before.jobs[id] == job
            && EvidenceRecovery.HalfRestarted(disk, todo - {id}) ==
               (if Jobs.Acceptable(job, Jobs.Interrupt(job))
                then before.(jobs := before.jobs[id := Jobs.Changed(job, Jobs.Interrupt(job))]) else before)
  {
    var job := disk.jobs[id];
    var before, after := EvidenceRecovery.HalfRestarted(disk, todo), EvidenceRecovery.HalfRestarted(disk, todo - {id});
    hide Jobs.Acceptable, Jobs.Changed, Jobs.Interrupt;
    assert after.jobs == before.jobs[id := Jobs.Recovered(job)];
    assert before.jobs[id := before.jobs[id]] == before.jobs;
  }
}
