/** Job records of src/evalops/workspace/jobs/models.py and how src/evalops/workspace/storage.py lets them change. */
module Jobs {
  import opened Results

  datatype JobState =
    Queued | Validating | Evaluating | Analyzing | WritingArtifact | Complete | Failed | Cancelled | Interrupted

  predicate Terminal(state: JobState) {
    state in {Complete, Failed, Cancelled, Interrupted}
  }

  function Successors(state: JobState): set<JobState> {
    match state
    case Queued => {Validating, Cancelled, Failed}
    case Validating => {Evaluating, Failed, Cancelled, Interrupted}
    case Evaluating => {Analyzing, Failed, Cancelled, Interrupted}
    case Analyzing => {WritingArtifact, Failed, Cancelled, Interrupted}
    case WritingArtifact => {Complete, Failed, Cancelled, Interrupted}
    case _ => {}
  }

  datatype SafeJobError = SafeJobError(code: string, message: string)

  datatype Job = Job(
    id: string, runId: string, state: JobState, revision: nat, cancelRequested: bool, safeError: Option<SafeJobError>)

  /** A failed job says why; only failed and interrupted jobs may. */
  predicate WellFormed(job: Job) {
    && (job.safeError.Some? ==> job.state in {Failed, Interrupted})
    && (job.state == Failed ==> job.safeError.Some?)
  }

  predicate Fresh(job: Job) {
    WellFormed(job) && job.state == Queued && job.revision == 0 && !job.cancelRequested
  }

  /** A request to change a job; what is left out stays as it is. */
  datatype Update = Update(expected: int, next: Option<JobState>, cancel: Option<bool>, error: Option<SafeJobError>)

  function Target(job: Job, u: Update): JobState { if u.next.Some? then u.next.value else job.state }

  function Cancel(job: Job, u: Update): bool { if u.cancel.Some? then u.cancel.value else job.cancelRequested }

  predicate Acceptable(job: Job, u: Update) {
    && u.expected == job.revision
    && !Terminal(job.state)
    && (u.next.Some? ==> u.next.value in Successors(job.state))
    && (job.cancelRequested ==> Cancel(job, u) && Target(job, u) in {job.state, Cancelled, Failed, Interrupted})
    && (u.error.Some? ==> Target(job, u) in {Failed, Interrupted})
    && (Target(job, u) == Failed ==> u.error.Some?)
    && (Target(job, u) != job.state || Cancel(job, u) != job.cancelRequested)
  }

  function Changed(job: Job, u: Update): Job {
    job.(state := Target(job, u), revision := job.revision + 1, cancelRequested := Cancel(job, u), safeError := u.error)
  }

  /** A job after updates tried one after another; those not acceptable leave it alone. */
  function Apply(job: Job, updates: seq<Update>): Job
    decreases |updates|
  {
    if updates == [] then job
    else Apply(if Acceptable(job, updates[0]) then Changed(job, updates[0]) else job, updates[1..])
  }

  /** How many of the updates are accepted, of those issued against one revision or all. */
  function Accepted(job: Job, updates: seq<Update>, against: Option<nat>): nat
    decreases |updates|
  {
    if updates == [] then 0
    else if Acceptable(job, updates[0]) then
      (if against.None? || against.value == updates[0].expected then 1 else 0)
      + Accepted(Changed(job, updates[0]), updates[1..], against)
    else Accepted(job, updates[1..], against)
  }

  function StateChanges(job: Job, updates: seq<Update>): nat
    decreases |updates|
  {
    if updates == [] then 0
    else if Acceptable(job, updates[0]) then
      (if Target(job, updates[0]) != job.state then 1 else 0) + StateChanges(Changed(job, updates[0]), updates[1..])
    else StateChanges(job, updates[1..])
  }

  // ----- laws of every job history -----

  /** Each accepted update adds one revision, and of those issued against one revision at most one is accepted. */
  lemma {:induction false} CompareAndSwap(job: Job, updates: seq<Update>, r: nat)
    ensures Apply(job, updates).revision == job.revision + Accepted(job, updates, None)
    ensures Accepted(job, updates, Some(r)) <= 1
    ensures r < job.revision ==> Accepted(job, updates, Some(r)) == 0
    decreases |updates|
  {
    if updates != [] {
      var u := updates[0];
      CompareAndSwap(if Acceptable(job, u) then Changed(job, u) else job, updates[1..], r);
    }
  }

  lemma {:induction false} TerminalAbsorbs(job: Job, updates: seq<Update>)
    requires Terminal(job.state)
    ensures Apply(job, updates) == job && Accepted(job, updates, None) == 0
    decreases |updates|
  {
    if updates != [] {
      TerminalAbsorbs(job, updates[1..]);
    }
  }

  /** Stored jobs stay well formed, keep their identity, and never withdraw a cancellation. */
  lemma {:induction false} HistoryKeeps(job: Job, updates: seq<Update>)
    ensures var end := Apply(job, updates);
            && (WellFormed(job) ==> WellFormed(end)) && end.id == job.id && end.runId == job.runId
            && (job.cancelRequested ==> end.cancelRequested)
    decreases |updates|
  {
    if updates != [] {
      var u := updates[0];
      HistoryKeeps(if Acceptable(job, u) then Changed(job, u) else job, updates[1..]);
    }
  }

  /** Once a cancellation is stored, at most one more update is accepted, and it ends the job unsuccessfully. */
  lemma {:induction false} CancelledEndsSoon(job: Job, updates: seq<Update>)
    requires job.cancelRequested
    ensures Accepted(job, updates, None) <= 1
    ensures Apply(job, updates) != job ==> Apply(job, updates).state in {Cancelled, Failed, Interrupted}
    decreases |updates|
  {
    if updates != [] {
      var u := updates[0];
      if Acceptable(job, u) {
        assert Terminal(Changed(job, u).state);
        TerminalAbsorbs(Changed(job, u), updates[1..]);
      } else {
        CancelledEndsSoon(job, updates[1..]);
      }
    }
  }

  /** How far along its path a state is; every change of state goes further. */
  function Rank(state: JobState): nat {
    match state
    case Queued => 0 case Validating => 1 case Evaluating => 2 case Analyzing => 3 case WritingArtifact => 4
    case _ => 5
  }

  /** Revisions are state changes, but for one that only records a cancellation. */
  lemma {:induction false} RevisionsCounted(job: Job, updates: seq<Update>)
    ensures var end := Apply(job, updates);
            && end.revision <= job.revision + StateChanges(job, updates) + (if job.cancelRequested then 0 else 1)
            && (!end.cancelRequested ==> end.revision == job.revision + StateChanges(job, updates))
            && StateChanges(job, updates) <= Rank(end.state) - Rank(job.state)
    decreases |updates|
  {
    if updates != [] {
      var u := updates[0];
      var next := if Acceptable(job, u) then Changed(job, u) else job;
      RevisionsCounted(next, updates[1..]);
      HistoryKeeps(next, updates[1..]);
    }
  }

  /** The states a successful job goes through after it was queued. */
  const PHASES := [Validating, Evaluating, Analyzing, WritingArtifact, Complete]

  /** The states the updates bring a job into, one after another. */
  function Path(job: Job, updates: seq<Update>): seq<JobState>
    decreases |updates|
  {
    if updates == [] then []
    else if Acceptable(job, updates[0]) then
      (if Target(job, updates[0]) != job.state then [Target(job, updates[0])] else [])
      + Path(Changed(job, updates[0]), updates[1..])
    else Path(job, updates[1..])
  }

  /** The phases from a state on; none once the job has ended. */
  function Remaining(state: JobState): seq<JobState> {
    if Terminal(state) then [] else PHASES[Rank(state)..]
  }

  /** A job completes only through every phase it has not been in yet, each once and in this order. */
  lemma {:induction false} CompletesInOrder(job: Job, updates: seq<Update>)
    ensures Apply(job, updates).state == Complete ==> Path(job, updates) == Remaining(job.state)
    decreases |updates|
  {
    if updates != [] {
      var u := updates[0];
      var next := if Acceptable(job, u) then Changed(job, u) else job;
      CompletesInOrder(next, updates[1..]);
      if Acceptable(job, u) && Target(job, u) != job.state {
        if Terminal(next.state) {
          TerminalAbsorbs(next, updates[1..]);
        }
        if next.state == Complete || !Terminal(next.state) {
          assert Remaining(job.state) == [next.state] + Remaining(next.state);
        }
      }
    }
  }

  /** Each state can be entered from exactly these. */
  lemma EnteredFrom(s: JobState)
    ensures Queued !in Successors(s)
    ensures Validating in Successors(s) <==> s == Queued
    ensures Evaluating in Successors(s) <==> s == Validating
    ensures Analyzing in Successors(s) <==> s == Evaluating
    ensures WritingArtifact in Successors(s) <==> s == Analyzing
    ensures Complete in Successors(s) <==> s == WritingArtifact
    ensures Failed in Successors(s) <==> s !in {Complete, Failed, Cancelled, Interrupted}
    ensures Cancelled in Successors(s) <==> s !in {Complete, Failed, Cancelled, Interrupted}
    ensures Interrupted in Successors(s) <==> s in {Validating, Evaluating, Analyzing, WritingArtifact}
  {
  }

  /** So a new job has at most six revisions, whatever is asked of it; and six can be reached. */
  lemma HistoriesAreFinite(job: Job, updates: seq<Update>)
    requires Fresh(job)
    ensures Accepted(job, updates, None) == Apply(job, updates).revision <= StateChanges(job, updates) + 1 <= 6
  {
    RevisionsCounted(job, updates);
    CompareAndSwap(job, updates, 0);
  }

  lemma SixRevisions(job: Job)
    requires Fresh(job)
    ensures exists updates :: Apply(job, updates).revision == 6
  {
    var forward := (r: int, s: JobState) => Update(r, Some(s), None, None);
    var tail := [Update(4, None, Some(true), None), forward(5, Cancelled)];
    var updates := [forward(0, Validating), forward(1, Evaluating), forward(2, Analyzing),
                    forward(3, WritingArtifact)] + tail;
    var j1 := Changed(job, updates[0]);
    var j2 := Changed(j1, updates[1]);
    var j3 := Changed(j2, updates[2]);
    var j4 := Changed(j3, updates[3]);
    var j5 := Changed(j4, tail[0]);
    assert updates[4..] == tail && tail[1..] == [tail[1]];
    assert Apply(job, updates) == Apply(j1, updates[1..]);
    assert updates[1..][1..] == updates[2..] && updates[2..][1..] == updates[3..] && updates[3..][1..] == tail;
    assert Apply(j1, updates[1..]) == Apply(j2, updates[2..]);
    assert Apply(j2, updates[2..]) == Apply(j3, updates[3..]);
    assert Apply(j3, updates[3..]) == Apply(j4, tail);
    assert Apply(j4, tail) == Apply(j5, [tail[1]]);
    assert Apply(j5, [tail[1]]) == Changed(j5, tail[1]);
  }

  // ----- what the queue relies on -----

  /** What the queue asks of an unfinished job when its worker is done with it. */
  function Finish(job: Job, error: SafeJobError): Update {
    if job.cancelRequested then Update(job.revision, Some(Cancelled), None, None)
    else Update(job.revision, Some(Failed), None, Some(error))
  }

  /** What the queue asks of a job found running after a restart. */
  function Interrupt(job: Job): Update {
    Update(job.revision, Some(Interrupted), None, Some(SafeJobError("WORKER_RESTART", "job interrupted by restart")))
  }

  /** What the queue asks of a job a user cancels. */
  function RequestCancel(job: Job): Update {
    Update(job.revision, if job.state == Queued then Some(Cancelled) else None, Some(true), None)
  }

  /** An unfinished job can always be finished, interrupted unless still queued, and cancelled unless it already is. */
  lemma QueueRequestsAccepted(job: Job, error: SafeJobError)
    ensures Acceptable(job, Finish(job, error)) <==> !Terminal(job.state)
    ensures Acceptable(job, Interrupt(job)) <==> !Terminal(job.state) && job.state != Queued
    ensures Acceptable(job, RequestCancel(job)) <==>
            !Terminal(job.state) && (job.state == Queued || !job.cancelRequested)
  {
  }

  /** And this is what accepting them leaves. */
  lemma QueueRequestsLeave(job: Job, error: SafeJobError)
    ensures Changed(job, Finish(job, error))
         == Job(job.id, job.runId, if job.cancelRequested then Cancelled else Failed, job.revision + 1,
                job.cancelRequested, if job.cancelRequested then None else Some(error))
    ensures var done := Changed(job, Interrupt(job));
            && done.state == Interrupted && done.revision == job.revision + 1
            && done.safeError.Some? && done.safeError.value.code == "WORKER_RESTART"
            && done.cancelRequested == job.cancelRequested && done.id == job.id && done.runId == job.runId
    ensures Changed(job, RequestCancel(job))
         == Job(job.id, job.runId, if job.state == Queued then Cancelled else job.state, job.revision + 1, true, None)
  {
  }

  /** A job as the queue leaves it after a restart. */
  function Recovered(job: Job): Job {
    if Acceptable(job, Interrupt(job)) then Changed(job, Interrupt(job)) else job
  }
}
