/** When the jobs of a workspace can be listed: every read and every promotion goes through that listing. */
module EvidenceListing {
  import opened Results
  import opened Files
  import opened Evidence
  import Jobs

  // ----- how a listing breaks, and how it heals -----

  /** A job creation stopped between making the directory and linking the record into it. */
  predicate Halved(op: Op) {
    op.NewJob? && Happens(op.makeDirectory) && !(op.makeDirectory == Fine && Happens(op.link))
  }

  lemma OthersKeepNames(codec: Codec, disk: Disk, op: Op)
    requires !op.NewJob?
    ensures var after := Perform(codec, disk, op);
            after.jobDirectories == disk.jobDirectories && after.jobs.Keys == disk.jobs.Keys
  {
    if op.Promotion? && Eligible(codec, disk, op.job, op.bytes, op.provenance) {
      PromotionIsAtomic(codec, disk, op.job, op.bytes, op.provenance.value, op.faults);
      hide Promote, Matches, HasComplete;
    }
  }

  /** One call leaves an unlistable workspace exactly if it is an admissible job creation stopped half-way. */
  lemma ListingBreaksExactly(codec: Codec, disk: Disk, op: Op)
    requires Listable(disk)
    ensures Listable(Perform(codec, disk, op)) <==> !(Halved(op) && Creatable(disk, op.record))
  {
    if op.NewJob? {
      NewJobEffect(codec, disk, op.record, op.makeDirectory, op.link);
      var after := Perform(codec, disk, op);
      hide Perform, Creatable;
      assert op.record.id in after.jobDirectories ==> Listable(after) ==> op.record.id in after.jobs;
    } else {
      OthersKeepNames(codec, disk, op);
      hide Perform;
    }
  }

  /** And it is listable again exactly after creating that very job, if it is the only one left half-way. */
  lemma ListingHealsExactly(codec: Codec, disk: Disk, op: Op)
    requires !Listable(disk)
    ensures Listable(Perform(codec, disk, op)) <==>
            && op.NewJob? && Creatable(disk, op.record) && op.makeDirectory == Fine && Happens(op.link)
            && disk.jobDirectories - disk.jobs.Keys == {op.record.id}
  {
    var after := Perform(codec, disk, op);
    var d :| d in disk.jobDirectories && d !in disk.jobs;
    if op.NewJob? {
      NewJobEffect(codec, disk, op.record, op.makeDirectory, op.link);
      hide Perform;
      var missing := disk.jobDirectories - disk.jobs.Keys;
      assert d in missing;
      if Creatable(disk, op.record) && op.makeDirectory == Fine && Happens(op.link) {
        MissingAfter(disk.jobDirectories, disk.jobs.Keys, op.record.id);
        assert after.jobDirectories - after.jobs.Keys == missing - {op.record.id};
      } else {
        assert d in after.jobDirectories && d !in after.jobs;
      }
    } else {
      OthersKeepNames(codec, disk, op);
      hide Perform;
    }
  }

  lemma MissingAfter(directories: set<string>, jobs: set<string>, id: string)
    requires id !in jobs
    ensures directories + {id} - (jobs + {id}) == directories - jobs - {id}
    ensures directories - jobs != {} ==>
              (directories + {id} <= jobs + {id} <==> directories - jobs == {id})
  {
    var missing := directories - jobs;
    if missing != {} && directories + {id} <= jobs + {id} {
      forall e | e in missing
        ensures e == id
      {
        assert e in directories + {id};
      }
      var e :| e in missing;
      assert missing == {id};
    }
    if missing == {id} {
      forall e | e in directories + {id}
        ensures e in jobs + {id}
      {
        assert e in jobs || e in missing || e == id;
      }
    }
  }

  // ----- what a job creation stopped half-way costs -----

  /**
   * Creating any further job and losing power before its record is linked: evidence that was served no longer is, and
   * no run's evidence can be promoted or discarded, although every completed job and every file is still there.
   */
  lemma HalvedCreationBlocks(codec: Codec, disk: Disk, record: Jobs.Job, run: string, job: string, bytes: Bytes,
                             provenance: Option<Provenance>)
    requires Sound(codec, disk) && Listable(disk) && Creatable(disk, record)
    ensures var after := Perform(codec, disk, NewJob(record, Fine, CrashBefore));
            && Sound(codec, after) && (HasComplete(after, run) <==> HasComplete(disk, run))
            && after.results == disk.results && after.provenances == disk.provenances
            && !Served(codec, after, run) && !Discardable(after, run) && !Eligible(codec, after, job, bytes, provenance)
  {
    var op := NewJob(record, Fine, CrashBefore);
    var after := Perform(codec, disk, op);
    ListingBreaksExactly(codec, disk, op);
    PerformKeeps(codec, disk, op);
    NewJobEffect(codec, disk, record, Fine, CrashBefore);
    hide Perform, Sound, Listable, Creatable;
    assert forall j :: IsComplete(after, j, run) <==> IsComplete(disk, j, run);
  }

  const CONFIG := Config("run", map[], None)
  const CODEC := Codec((bytes: Bytes) => "sha", (bytes: Bytes) => Some(EvaluationResult(CONFIG, bytes)))
  const SNAPSHOT := Snapshot("run", "truth", "t", "predictions", "p", CONFIG)
  const PROVENANCE := Provenance("run", "truth", "t", "predictions", "p", map[], None, "sha")

  /** One run, and its one job, complete. */
  const ONE_RUN := Disk(
    map["run" := SNAPSHOT], {"job"}, map["job" := Jobs.Job("job", "run", Jobs.Complete, 5, false, None)],
    map["run" := "{}"], map["run" := PROVENANCE])

  const ANOTHER_JOB := Jobs.Job("next", "run", Jobs.Queued, 0, false, None)

  lemma OneRunIsSound()
    ensures Sound(CODEC, ONE_RUN) && HasComplete(ONE_RUN, "run")
  {
    assert IsComplete(ONE_RUN, "job", "run");
    assert Readable(CODEC, ONE_RUN, "run");
  }

  /** For instance: a workspace with one run, served until the creation of another job is cut. */
  lemma HalvedCreationExample()
    ensures Sound(CODEC, ONE_RUN) && Served(CODEC, ONE_RUN, "run") && Creatable(ONE_RUN, ANOTHER_JOB)
    ensures !Served(CODEC, Perform(CODEC, ONE_RUN, NewJob(ANOTHER_JOB, Fine, CrashBefore)), "run")
  {
    OneRunIsSound();
    assert "next"[0] != "job"[0];
    assert Listable(ONE_RUN) && Creatable(ONE_RUN, ANOTHER_JOB);
    hide Sound, HasComplete, Served, Perform, Readable, CODEC;
    ReadableExactly(CODEC, ONE_RUN, "run");
    HalvedCreationBlocks(CODEC, ONE_RUN, ANOTHER_JOB, "run", "job", "", None);
  }

  // ----- whole histories -----

  /** Over every history in which no job creation stops half-way, the jobs can be listed. */
  lemma {:induction false} StaysListable(codec: Codec, disk: Disk, ops: seq<Op>)
    requires Listable(disk) && forall i :: 0 <= i < |ops| ==> !Halved(ops[i])
    ensures Listable(PerformAll(codec, disk, ops))
    decreases |ops|
  {
    if ops != [] {
      ListingBreaksExactly(codec, disk, ops[0]);
      hide Perform, Listable, Halved;
      StaysListable(codec, Perform(codec, disk, ops[0]), ops[1..]);
    }
  }

  /**
   * So from an empty workspace, with faults and crashes anywhere else, evidence is served exactly for completed runs.
   */
  lemma ServedExactly(codec: Codec, ops: seq<Op>, run: string)
    requires forall i :: 0 <= i < |ops| ==> Permitted(ops[i]) && !Halved(ops[i])
    ensures var disk := PerformAll(codec, EMPTY, ops);
            Served(codec, disk, run) <==> HasComplete(disk, run)
  {
    EmptyIsSound(codec);
    EvidenceIsSafe(codec, EMPTY, ops);
    StaysListable(codec, EMPTY, ops);
    ReadableExactly(codec, PerformAll(codec, EMPTY, ops), run);
  }
}
