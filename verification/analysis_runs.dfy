/**
 Whole runs of the durable store driven by worker ticks (project_a_analysis/store.py and
 worker.py): any number of workers, each between any two of its store calls for any length of
 time, crashing anywhere, while triggers arrive and stories are closed.
 */
module AnalysisRuns {
  import opened Outcomes
  import opened AnalysisSteps

  const MAXIMUM_CAPTURES := 5
  const CAPTURE_LEASE := 90
  const ANALYSIS_LEASE := 180

  // ------------------------------------------------------ workers

  /** Where a worker is in `tick`, and what the local variables hold there. */
  datatype Doing =
    | Idle
    | Capturing(capture: CaptureClaim)
    | CaptureFailing(capture: CaptureClaim)
    | Ready
    | Holding(job: Job)
    | Attempted(job: Job)

  datatype Worker = Worker(name: string, doing: Doing)

  datatype System = System(store: Store, workers: seq<Worker>)

  datatype Move =
    | Ingest(trigger: Trigger)
    | Close(story: nat, decision: Decision)
    | StartTick(worker: nat, enabled: bool)
    | Record(worker: nat, valid: bool, enabled: bool)
    | CaptureFails(worker: nat, code: string)
    | Claim(worker: nat, only: Option<nat>)
    | Begin(worker: nat, model: string, manifest: string, client: string)
    | Finish(worker: nat, valid: bool, grade: string)
    | GiveUp(worker: nat, code: string)
    | Crash(worker: nat)

  /** A move, and the clock reading it is made with; clocks of different workers may disagree. */
  datatype Timed = Timed(move: Move, at: int)

  function OrSame(s: Store, r: Result<Store, Failure>): Store {
    match r case Ok(next) => next case Err(_) => s
  }

  /** One store call of worker w's tick and what it goes on to do. A move that is not the
      worker's next one changes nothing. */
  function WorkerStep(s: Store, w: Worker, timed: Timed): (Store, Doing) {
    var at := timed.at;
    match (w.doing, timed.move)
    case (Idle, StartTick(_, enabled)) =>
      (match ClaimCapture(s, w.name, at, CAPTURE_LEASE)
       case Err(_) => (s, Idle)
       case Ok(r) => (r.0, if r.1.Some? then Capturing(r.1.value) else if enabled then Ready else Idle))
    case (Capturing(c), Record(_, valid, enabled)) =>
      (match RecordCapture(s, c.job.id, valid, at, w.name, c.token)
       case Ok(next) => (next, if enabled then Ready else Idle)
       case Err(_) => (s, CaptureFailing(c)))
    case (CaptureFailing(c), CaptureFails(_, code)) =>
      (OrSame(s, CaptureFailure(s, c.job.id, at, w.name, c.token, code, MAXIMUM_CAPTURES)), Idle)
    case (Ready, Claim(_, only)) =>
      var (next, job) := ClaimNext(s, w.name, at, ANALYSIS_LEASE, only);
      (next, if job.Some? then Holding(job.value) else Idle)
    case (Holding(job), Begin(_, model, manifest, client)) =>
      (match BeginAttempt(s, job, model, manifest, client, at)
       case Ok(next) => (next, Attempted(job))
       case Err(_) => (s, Idle))
    case (Holding(job), GiveUp(_, code)) => (Fail(s, job, code, at), Idle)
    case (Attempted(job), GiveUp(_, code)) => (Fail(s, job, code, at), Idle)
    case (Attempted(job), Finish(_, valid, grade)) => (OrSame(s, Complete(s, job, valid, grade, at)), Idle)
    case (_, Crash(_)) => (s, Idle)
    case _ => (s, w.doing)
  }

  function Step(sys: System, timed: Timed, digests: Digests): System {
    match timed.move
    case Ingest(trigger) => sys.(store := OrSame(sys.store, Enqueue(sys.store, trigger, timed.at, digests)))
    case Close(story, decision) => sys.(store := OrSame(sys.store, CloseStory(sys.store, story, decision, timed.at)))
    case _ =>
      var n := timed.move.worker;
      if n < |sys.workers| then
        var (store, doing) := WorkerStep(sys.store, sys.workers[n], timed);
        System(store, sys.workers[n := sys.workers[n].(doing := doing)])
      else sys
  }

  function Run(sys: System, moves: seq<Timed>, digests: Digests): System
    decreases |moves|
  {
    if moves == [] then sys else Step(Run(sys, moves[..|moves| - 1], digests), moves[|moves| - 1], digests)
  }

  predicate Starting(workers: seq<Worker>) { forall i | 0 <= i < |workers| :: workers[i].doing.Idle? }

  /** A name that reads like a capture owner lets an analysis lease be taken for a capture lease. */
  predicate OrdinaryNames(workers: seq<Worker>) {
    forall i | 0 <= i < |workers| :: !LooksLikeCapture(workers[i].name)
  }

  function Fresh(workers: seq<Worker>): System { System(EMPTY_STORE, workers) }

  // ------------------------------------------------------ queries

  lemma KeepSnoc<T>(rows: seq<T>, row: T, wanted: T -> bool)
    ensures Keep(rows + [row], wanted) == Keep(rows, wanted) + if wanted(row) then [row] else []
  {
    assert (rows + [row])[..|rows|] == rows;
  }

  lemma {:induction false} KeepFinds<T>(rows: seq<T>, wanted: T -> bool, x: T)
    ensures x in Keep(rows, wanted) <==> x in rows && wanted(x)
  {
    if rows != [] {
      var front := rows[..|rows| - 1];
      KeepFinds(front, wanted, x);
      assert rows == front + [rows[|rows| - 1]];
    }
  }

  /** What `First` picks: a wanted row that no wanted row is before. */
  lemma {:induction false} FirstPicks<T(!new)>(rows: seq<T>, wanted: T -> bool, before: (T, T) -> bool)
    requires forall a :: !before(a, a)
    requires forall a, b, c :: before(a, b) && !before(c, b) ==> !before(c, a)
    ensures var best := First(rows, wanted, before);
            (best.None? <==> forall x | x in rows :: !wanted(x)) &&
            (best.Some? ==> best.value in rows && wanted(best.value) &&
                            forall x | x in rows && wanted(x) :: x == best.value || !before(x, best.value))
  {
    if rows != [] {
      var front, last := rows[..|rows| - 1], rows[|rows| - 1];
      FirstPicks(front, wanted, before);
      assert forall x :: x in rows <==> x in front || x == last;
    }
  }

  lemma RowsOfSnoc(history: seq<StatusRow>, row: StatusRow, job: nat)
    ensures RowsOf(history + [row], job) == RowsOf(history, job) + if row.job == job then [row] else []
  {
    KeepSnoc(history, row, (r: StatusRow) => r.job == job);
  }

  lemma LatestIn(history: seq<StatusRow>, job: nat)
    ensures Latest(history, job).Some? <==> exists r :: r in history && r.job == job
    ensures Latest(history, job).Some? ==> Latest(history, job).value in history && Latest(history, job).value.job == job
  {
    var wanted := (r: StatusRow) => r.job == job;
    var rows := RowsOf(history, job);
    if rows != [] {
      KeepFinds(history, wanted, rows[|rows| - 1]);
    }
    forall r | r in history && r.job == job ensures rows != [] {
      KeepFinds(history, wanted, r);
    }
  }

  // ------------------------------------------------------ jobs are numbered

  predicate Numbered(ofStory: seq<Job>) { forall i | 0 <= i < |ofStory| :: ofStory[i].e1 == i }

  predicate StoryKnown(stories: seq<Story>, id: nat) { exists i :: 0 <= i < |stories| && stories[i].id == id }

  ghost predicate JobsInv(stories: seq<Story>, jobs: seq<Job>) {
    && (forall i, j | 0 <= i < j < |jobs| :: jobs[i].id != jobs[j].id && jobs[i].event != jobs[j].event)
    && (forall i, j | 0 <= i < j < |stories| :: stories[i].id != stories[j].id && stories[i].event != stories[j].event)
    && (forall j | j in jobs :: StoryKnown(stories, j.story))
    && (forall story :: Numbered(JobsOf(jobs, story)))
    && (forall story | story in stories :: JobsOf(jobs, story.id) != [])
  }

  lemma JobsOfSnoc(jobs: seq<Job>, job: Job, story: nat)
    ensures JobsOf(jobs + [job], story) == JobsOf(jobs, story) + if job.story == story then [job] else []
  {
    KeepSnoc(jobs, job, (j: Job) => j.story == story);
  }

  lemma InJobsOf(jobs: seq<Job>, story: nat, job: Job)
    ensures job in JobsOf(jobs, story) <==> job in jobs && job.story == story
  {
    KeepFinds(jobs, (j: Job) => j.story == story, job);
  }

  /** `MAX(e1_count)` over the E1 jobs is one less than the number of the story's jobs. */
  lemma {:induction false} MaxE1Counts(jobs: seq<Job>, story: nat)
    requires Numbered(JobsOf(jobs, story))
    ensures JobsOf(jobs, story) != [] ==> MaxE1(jobs, story) + 1 == |JobsOf(jobs, story)|
    ensures JobsOf(jobs, story) == [] ==> MaxE1(jobs, story) == 0
  {
    if jobs != [] {
      var front, last := jobs[..|jobs| - 1], jobs[|jobs| - 1];
      assert jobs == front + [last];
      JobsOfSnoc(front, last, story);
      var ofFront := JobsOf(front, story);
      assert forall i | 0 <= i < |ofFront| :: ofFront[i] == JobsOf(jobs, story)[i];
      MaxE1Counts(front, story);
      if last.story == story {
        assert JobsOf(jobs, story)[|ofFront|] == last;
      }
    }
  }

  /** A job stands in its story's list at the place its count says. */
  lemma JobAt(stories: seq<Story>, jobs: seq<Job>, job: Job)
    requires JobsInv(stories, jobs) && job in jobs
    ensures job.e1 < |JobsOf(jobs, job.story)| && JobsOf(jobs, job.story)[job.e1] == job
  {
    InJobsOf(jobs, job.story, job);
    var ofStory := JobsOf(jobs, job.story);
    assert Numbered(ofStory);
    var i :| 0 <= i < |ofStory| && ofStory[i] == job;
  }

  /** The job a trigger queues is the next of its story. */
  predicate NextOfStory(jobs: seq<Job>, job: Job) { job.e1 == |JobsOf(jobs, job.story)| }

  /** The stories after a trigger: as before, or with the new job's story added. */
  predicate StoriesGrown(stories: seq<Story>, more: seq<Story>, story: nat) {
    (more == stories && StoryKnown(stories, story)) ||
    (|more| == |stories| + 1 && more == stories + [more[|stories|]] && more[|stories|].id == story &&
     !StoryClashes(stories, more[|stories|]))
  }

  lemma GrownKnown(stories: seq<Story>, more: seq<Story>, story: nat, id: nat)
    requires StoriesGrown(stories, more, story) && (StoryKnown(stories, id) || id == story)
    ensures StoryKnown(more, id)
  {
    if StoryKnown(stories, id) {
      var i :| 0 <= i < |stories| && stories[i].id == id;
      assert more[i] == stories[i];
    } else {
      assert more[|stories|].id == story;
    }
  }

  lemma QueueKeepsNumbers(stories: seq<Story>, more: seq<Story>, jobs: seq<Job>, job: Job)
    requires JobsInv(stories, jobs) && NextOfStory(jobs, job) && StoriesGrown(stories, more, job.story)
    ensures forall story :: Numbered(JobsOf(jobs + [job], story))
    ensures forall story | story in more :: JobsOf(jobs + [job], story.id) != []
  {
    var next := jobs + [job];
    forall story ensures Numbered(JobsOf(next, story)) {
      JobsOfSnoc(jobs, job, story);
      assert Numbered(JobsOf(jobs, story));
    }
    forall story | story in more ensures JobsOf(next, story.id) != [] {
      JobsOfSnoc(jobs, job, story.id);
      assert story in stories || story.id == job.story;
    }
  }

  lemma QueueKeepsJobs(stories: seq<Story>, more: seq<Story>, jobs: seq<Job>, job: Job)
    requires JobsInv(stories, jobs) && !JobClashes(jobs, job) && NextOfStory(jobs, job)
    requires StoriesGrown(stories, more, job.story)
    ensures JobsInv(more, jobs + [job])
  {
    QueueKeepsNumbers(stories, more, jobs, job);
    hide NextOfStory;
    hide Numbered;
    hide JobsOf;
    forall j | j in jobs + [job] ensures StoryKnown(more, j.story) {
      GrownKnown(stories, more, job.story, j.story);
    }
    hide StoryKnown;
    GrownDistinct(stories, more, job.story);
    hide StoriesGrown;
  }

  lemma GrownDistinct(stories: seq<Story>, more: seq<Story>, story: nat)
    requires StoriesGrown(stories, more, story)
    requires forall i, j | 0 <= i < j < |stories| :: stories[i].id != stories[j].id && stories[i].event != stories[j].event
    ensures forall i, j | 0 <= i < j < |more| :: more[i].id != more[j].id && more[i].event != more[j].event
  {
    if |more| == |stories| + 1 {
      var added := more[|stories|];
      assert !StoryClashes(stories, added);
    }
  }

  // ------------------------------------------------------ results come in order

  ghost predicate HistoryInv(jobs: seq<Job>, history: seq<StatusRow>) {
    (forall r | r in history :: Known(jobs, r.job)) &&
    (forall j | j in jobs :: Latest(history, j.id).Some?)
  }

  predicate EarlierDone(jobs: seq<Job>, results: seq<Analysis>, job: Job) {
    forall other | other in jobs && other.story == job.story && other.e1 < job.e1 :: HasResult(results, other.id)
  }

  predicate AnalysisClaim(r: StatusRow) { r.status.Claimed? && r.owner.Some? && r.owner.value.Plain? }

  /** A claim for analysis under a name that reads like a capture owner. */
  predicate LooseClaim(r: StatusRow) { AnalysisClaim(r) && LooksLikeCapture(r.owner.value.worker) }

  ghost predicate RowsBacked(jobs: seq<Job>, history: seq<StatusRow>, results: seq<Analysis>) {
    forall r, j | r in history && j in jobs && r.job == j.id :: RowBacked(jobs, results, r, j)
  }

  /** A COMPLETED row has its result; an analysis claim was granted when all earlier jobs had one. */
  predicate RowBacked(jobs: seq<Job>, results: seq<Analysis>, r: StatusRow, j: Job) {
    (r.status.Completed? ==> HasResult(results, j.id)) && (AnalysisClaim(r) ==> EarlierDone(jobs, results, j))
  }

  predicate ResultOf(jobs: seq<Job>, a: Analysis) {
    exists i :: 0 <= i < |jobs| && jobs[i].id == a.job && jobs[i].story == a.story && jobs[i].parent == a.parent
  }

  ghost predicate ResultsInv(jobs: seq<Job>, results: seq<Analysis>) {
    (forall i, j | 0 <= i < j < |results| :: results[i].job != results[j].job) &&
    (forall a | a in results :: ResultOf(jobs, a)) &&
    (forall j | j in jobs && HasResult(results, j.id) :: EarlierDone(jobs, results, j))
  }

  /** A job's parent is an analysis of a job further down in the same story, and has a result. */
  predicate ParentOk(jobs: seq<Job>, results: seq<Analysis>, job: Job) {
    job.parent.Some? ==>
      HasResult(results, job.parent.value) &&
      exists i :: 0 <= i < |jobs| && jobs[i].id == job.parent.value && jobs[i].story == job.story &&
                  jobs[i].e1 < job.e1
  }

  ghost predicate ParentsInv(jobs: seq<Job>, results: seq<Analysis>) {
    forall j | j in jobs :: ParentOk(jobs, results, j)
  }

  // ------------------------------------------------------ the history of a story

  predicate OpenStory(rows: seq<StateRow>) { rows == [] || !rows[|rows| - 1].Closed() }

  /** The number of ACTIVE rows, when CLOSED can only be the last. */
  function ActiveCount(rows: seq<StateRow>): nat { if OpenStory(rows) then |rows| else |rows| - 1 }

  /** Row i is job i's, carrying the big picture and the analysis that the baseline established. */
  predicate ActiveRowOk(jobs: seq<Job>, results: seq<Analysis>, rows: seq<StateRow>, i: nat)
    requires i < |rows|
  {
    i < |jobs| && !rows[i].Closed() && rows[i].e1 == i && rows[i].analysis == rows[i].latest == Some(jobs[i].id) &&
    HasResult(results, jobs[i].id) && rows[i].baseline == Some(jobs[0].id) && rows[0].grade.Some? &&
    rows[i].bigPicture == Established(jobs[0].id, rows[0].grade.value)
  }

  /** A CLOSED row carries what the last ACTIVE row says, if there is one. */
  predicate ClosedRowOk(rows: seq<StateRow>) {
    !OpenStory(rows) && |rows| > 1 ==>
      var closed, last := rows[|rows| - 1], rows[|rows| - 2];
      closed.e1 == last.e1 && closed.bigPicture == last.bigPicture && closed.baseline == last.baseline &&
      closed.latest == last.latest && closed.grade == last.grade
  }

  /** While the story is open, every result of its jobs has its row. */
  predicate AllRecorded(jobs: seq<Job>, results: seq<Analysis>, rows: seq<StateRow>) {
    OpenStory(rows) ==> forall i | 0 <= i < |jobs| && HasResult(results, jobs[i].id) :: i < |rows|
  }

  predicate StoryShape(jobs: seq<Job>, results: seq<Analysis>, rows: seq<StateRow>) {
    (forall i | 0 <= i < ActiveCount(rows) :: ActiveRowOk(jobs, results, rows, i)) && ClosedRowOk(rows) &&
    AllRecorded(jobs, results, rows)
  }

  ghost predicate StatesInv(jobs: seq<Job>, results: seq<Analysis>, states: seq<StateRow>) {
    forall story :: StoryShape(JobsOf(jobs, story), results, StatesOf(states, story))
  }

  // ------------------------------------------------------ capture leases

  datatype Phase =
    | Unborn
    | Waiting(failures: nat)
    | Leased(owner: Owner, lease: int, failures: nat)
    | Done
    | Loose
    | Exhausted
    | Broken

  /** The only rows a job's history may go on with; after a loose claim, any. */
  function Next(phase: Phase, row: StatusRow): Phase {
    match phase
    case Unborn => if row.status.PendingCapture? && row.failure.None? && row.lease.None? then Waiting(0) else Broken
    case Waiting(failures) =>
      if row.status.Claimed? && row.owner.Some? && row.owner.value.CaptureLease? && row.lease.Some? && row.failure.None?
      then Leased(row.owner.value, row.lease.value, failures) else Broken
    case Leased(_, lease, failures) =>
      if row.status.Captured? && row.at <= lease && row.failure.None? then Done
      else if row.status.PendingCapture? && row.failure == Some(LeaseExpired) && lease <= row.at &&
              row.lease == Some(row.at + 30_000)
      then Waiting(failures + 1)
      else if row.status.PendingCapture? && row.failure.Some? && row.failure.value.CaptureFailed? && row.at <= lease &&
              failures + 1 < MAXIMUM_CAPTURES && row.lease == Some(row.at + 1000 * Delay(failures + 1))
      then Waiting(failures + 1)
      else if row.status.TechnicalFailure? && row.failure == Some(RetryExhausted) && row.at <= lease &&
              failures + 1 >= MAXIMUM_CAPTURES
      then Exhausted
      else Broken
    case Done =>
      if LooseClaim(row) then Loose
      else if ((AnalysisClaim(row) || row.status.Completed?) && row.failure.None?) ||
         (row.status.TechnicalFailure? && row.failure.Some? && row.failure.value.WorkerFailure?)
      then Done else Broken
    case Loose => Loose
    case Exhausted => Broken
    case Broken => Broken
  }

  function PhaseOf(rows: seq<StatusRow>): Phase {
    if rows == [] then Unborn else Next(PhaseOf(rows[..|rows| - 1]), rows[|rows| - 1])
  }

  predicate Regular(phase: Phase) { !phase.Unborn? && !phase.Broken? }

  /** The capture has been recorded. */
  predicate Past(phase: Phase) { phase.Done? || phase.Loose? }

  ghost predicate CapturesInv(jobs: seq<Job>, history: seq<StatusRow>, captures: seq<Capture>) {
    (forall j | j in jobs :: Regular(PhaseOf(RowsOf(history, j.id))) &&
                             (Past(PhaseOf(RowsOf(history, j.id))) <==> HasCapture(captures, j.id))) &&
    (forall i, j | 0 <= i < j < |captures| :: captures[i].job != captures[j].job) &&
    (forall c | c in captures :: Known(jobs, c.job))
  }

  // ------------------------------------------------------ the invariant

  ghost predicate StoreInv(s: Store) {
    JobsInv(s.stories, s.jobs) && HistoryInv(s.jobs, s.history) && RowsBacked(s.jobs, s.history, s.results) &&
    ResultsInv(s.jobs, s.results) && ParentsInv(s.jobs, s.results) && StatesInv(s.jobs, s.results, s.states) &&
    CapturesInv(s.jobs, s.history, s.captures)
  }

  predicate WasClaimed(history: seq<StatusRow>, job: nat) {
    exists i :: 0 <= i < |history| && history[i].job == job && AnalysisClaim(history[i])
  }

  /** A worker that holds a job was granted it by a claim, once. */
  predicate HoldsRightly(s: Store, w: Worker) {
    w.doing.Holding? || w.doing.Attempted? ==> w.doing.job in s.jobs && WasClaimed(s.history, w.doing.job.id)
  }

  ghost predicate Inv(sys: System) {
    StoreInv(sys.store) && forall i | 0 <= i < |sys.workers| :: HoldsRightly(sys.store, sys.workers[i])
  }

  // ------------------------------------------------------ what the latest row tells

  /** The latest row alone tells the phase of a regular history. */
  lemma PhaseFromLatest(rows: seq<StatusRow>)
    requires rows != [] && Regular(PhaseOf(rows))
    ensures var last, phase := rows[|rows| - 1], PhaseOf(rows);
            (last.status.PendingCapture? ==> phase.Waiting? || phase.Loose?) &&
            (last.status.Captured? || (last.status.Claimed? && !CaptureOwned(last.owner)) ==> Past(phase)) &&
            (last.status.Claimed? && CaptureOwned(last.owner) ==>
               phase.Loose? ||
               (phase.Leased? && last.owner == Some(phase.owner) && last.lease == Some(phase.lease)))
  {
    hide LooksLikeCapture;
  }

  lemma {:induction false} ClaimedIsDone(rows: seq<StatusRow>, r: StatusRow)
    requires Regular(PhaseOf(rows)) && r in rows && AnalysisClaim(r)
    ensures Past(PhaseOf(rows))
  {
    hide LooksLikeCapture;
    if r != rows[|rows| - 1] {
      assert r in rows[..|rows| - 1];
      ClaimedIsDone(rows[..|rows| - 1], r);
    }
  }

  function Failures(phase: Phase): nat {
    match phase case Waiting(n) => n case Leased(_, _, n) => n case _ => 0
  }

  lemma {:induction false} FailuresAreCounted(rows: seq<StatusRow>)
    requires PhaseOf(rows).Waiting? || PhaseOf(rows).Leased?
    ensures FailedCaptures(rows) == Failures(PhaseOf(rows))
  {
    var front, last := rows[..|rows| - 1], rows[|rows| - 1];
    assert rows == front + [last];
    KeepSnoc(front, last, (r: StatusRow) => r.status.PendingCapture? && r.failure.Some?);
    if front != [] {
      FailuresAreCounted(front);
    }
  }

  lemma PhaseSnoc(rows: seq<StatusRow>, row: StatusRow)
    ensures PhaseOf(rows + [row]) == Next(PhaseOf(rows), row)
  {
    assert (rows + [row])[..|rows|] == rows;
  }

  lemma JobPhase(jobs: seq<Job>, history: seq<StatusRow>, captures: seq<Capture>, id: nat)
    requires CapturesInv(jobs, history, captures) && Known(jobs, id)
    ensures Regular(PhaseOf(RowsOf(history, id)))
    ensures Past(PhaseOf(RowsOf(history, id))) <==> HasCapture(captures, id)
  {
    var i :| 0 <= i < |jobs| && jobs[i].id == id;
    assert jobs[i] in jobs;
  }

  /** A row the phase admits, which does not complete the capture. */
  lemma RowKeepsCaptures(jobs: seq<Job>, history: seq<StatusRow>, captures: seq<Capture>, row: StatusRow)
    requires CapturesInv(jobs, history, captures) && Known(jobs, row.job)
    requires var phase := PhaseOf(RowsOf(history, row.job));
             Regular(Next(phase, row)) && (Past(Next(phase, row)) <==> Past(phase))
    ensures CapturesInv(jobs, history + [row], captures)
  {
    hide Next;
    forall j | j in jobs
      ensures Regular(PhaseOf(RowsOf(history + [row], j.id))) &&
              (Past(PhaseOf(RowsOf(history + [row], j.id))) <==> HasCapture(captures, j.id))
    {
      RowsOfSnoc(history, row, j.id);
      PhaseSnoc(RowsOf(history, j.id), row);
      assert RowsOf(history, j.id) + [] == RowsOf(history, j.id);
    }
  }

  lemma CaptureKeepsCaptures(jobs: seq<Job>, history: seq<StatusRow>, captures: seq<Capture>, row: StatusRow, at: int)
    requires CapturesInv(jobs, history, captures) && Known(jobs, row.job)
    requires var phase := PhaseOf(RowsOf(history, row.job)); !Past(phase) && Past(Next(phase, row))
    ensures CapturesInv(jobs, history + [row], captures + [Capture(row.job, at)])
  {
    hide Next;
    var more := captures + [Capture(row.job, at)];
    JobPhase(jobs, history, captures, row.job);
    forall j | j in jobs
      ensures Regular(PhaseOf(RowsOf(history + [row], j.id))) &&
              (Past(PhaseOf(RowsOf(history + [row], j.id))) <==> HasCapture(more, j.id))
    {
      RowsOfSnoc(history, row, j.id);
      PhaseSnoc(RowsOf(history, j.id), row);
      assert RowsOf(history, j.id) + [] == RowsOf(history, j.id);
      HasCaptureSnoc(captures, Capture(row.job, at), j.id);
    }
  }

  lemma HasCaptureSnoc(captures: seq<Capture>, c: Capture, job: nat)
    ensures HasCapture(captures + [c], job) <==> HasCapture(captures, job) || c.job == job
  {
    var more := captures + [c];
    assert more[|captures|] == c;
    forall i | 0 <= i < |captures| ensures more[i] == captures[i] {}
  }

  lemma HasResultSnoc(results: seq<Analysis>, a: Analysis, job: nat)
    ensures HasResult(results + [a], job) <==> HasResult(results, job) || a.job == job
  {
    var more := results + [a];
    assert more[|results|] == a;
    forall i | 0 <= i < |results| ensures more[i] == results[i] {}
  }

  // ------------------------------------------------------ appending one status row

  lemma RowKeepsHistory(jobs: seq<Job>, history: seq<StatusRow>, row: StatusRow)
    requires HistoryInv(jobs, history) && Known(jobs, row.job)
    ensures HistoryInv(jobs, history + [row])
  {
    forall j | j in jobs ensures Latest(history + [row], j.id).Some? {
      RowsOfSnoc(history, row, j.id);
    }
  }

  lemma RowKeepsBacked(jobs: seq<Job>, history: seq<StatusRow>, results: seq<Analysis>, row: StatusRow)
    requires RowsBacked(jobs, history, results)
    requires row.status.Completed? ==> HasResult(results, row.job)
    requires AnalysisClaim(row) ==> forall j | j in jobs && j.id == row.job :: EarlierDone(jobs, results, j)
    ensures RowsBacked(jobs, history + [row], results)
  {
    hide EarlierDone;
    hide AnalysisClaim;
    hide HasResult;
  }

  /** A status row that its job's phase admits and its results back. */
  lemma RowKeepsStore(s: Store, row: StatusRow)
    requires StoreInv(s) && Known(s.jobs, row.job)
    requires var phase := PhaseOf(RowsOf(s.history, row.job));
             Regular(Next(phase, row)) && (Past(Next(phase, row)) <==> Past(phase))
    requires row.status.Completed? ==> HasResult(s.results, row.job)
    requires AnalysisClaim(row) ==> forall j | j in s.jobs && j.id == row.job :: EarlierDone(s.jobs, s.results, j)
    ensures StoreInv(s.(history := s.history + [row]))
  {
    hide JobsInv;
    hide ResultsInv;
    hide ParentsInv;
    hide StatesInv;
    RowKeepsHistory(s.jobs, s.history, row);
    RowKeepsBacked(s.jobs, s.history, s.results, row);
    RowKeepsCaptures(s.jobs, s.history, s.captures, row);
    hide HistoryInv;
    hide RowsBacked;
    hide CapturesInv;
  }

  // ------------------------------------------------------ capture operations

  lemma EarlierJobOrders()
    ensures forall a :: !EarlierJob(a, a)
    ensures forall a, b, c :: EarlierJob(a, b) && !EarlierJob(c, b) ==> !EarlierJob(c, a)
  {
  }

  lemma PickedJob(jobs: seq<Job>, wanted: Job -> bool)
    ensures var best := First(jobs, wanted, EarlierJob);
            (best.Some? ==> best.value in jobs && wanted(best.value) && Known(jobs, best.value.id) &&
                            forall j | j in jobs && wanted(j) :: j == best.value || !EarlierJob(j, best.value)) &&
            (best.None? ==> forall j | j in jobs :: !wanted(j))
  {
    EarlierJobOrders();
    FirstPicks(jobs, wanted, EarlierJob);
  }

  /** The phase of a job that has rows, with what its latest row says of it. */
  lemma LatestPhase(s: Store, id: nat)
    requires StoreInv(s) && Known(s.jobs, id) && Latest(s.history, id).Some?
    ensures var last, phase := Latest(s.history, id).value, PhaseOf(RowsOf(s.history, id));
            Regular(phase) && (Past(phase) <==> HasCapture(s.captures, id)) &&
            (last.status.PendingCapture? ==> phase.Waiting? || phase.Loose?) &&
            (last.status.Captured? || (last.status.Claimed? && !CaptureOwned(last.owner)) ==> Past(phase)) &&
            (last.status.Claimed? && CaptureOwned(last.owner) ==>
               phase.Loose? ||
               (phase.Leased? && last.owner == Some(phase.owner) && last.lease == Some(phase.lease)))
  {
    JobPhase(s.jobs, s.history, s.captures, id);
    PhaseFromLatest(RowsOf(s.history, id));
  }

  lemma LapseKeeps(s: Store, job: Job, worker: string, at: int)
    requires StoreInv(s) && job in s.jobs && Known(s.jobs, job.id) && CaptureExpired(s.history, job.id, at)
    ensures StoreInv(s.(history := s.history +
              [StatusRow(job.id, PendingCapture, at, Some(Plain(worker)), Some(at + 30_000), Some(LeaseExpired))]))
  {
    LatestPhase(s, job.id);
    hide StoreInv;
    hide PhaseOf;
    hide RowsOf;
    RowKeepsStore(s, StatusRow(job.id, PendingCapture, at, Some(Plain(worker)), Some(at + 30_000), Some(LeaseExpired)));
  }

  lemma LeaseKeeps(s: Store, job: Job, owner: Owner, at: int, lease: int)
    requires StoreInv(s) && job in s.jobs && Known(s.jobs, job.id) && CaptureDue(s, job, at) && owner.CaptureLease?
    ensures StoreInv(s.(history := s.history + [StatusRow(job.id, Claimed, at, Some(owner), Some(lease), None)]))
  {
    LatestPhase(s, job.id);
    hide StoreInv;
    hide PhaseOf;
    hide RowsOf;
    RowKeepsStore(s, StatusRow(job.id, Claimed, at, Some(owner), Some(lease), None));
  }

  lemma ClaimCaptureKeeps(s: Store, worker: string, at: int, leaseSeconds: int)
    requires StoreInv(s) && ClaimCapture(s, worker, at, leaseSeconds).Ok?
    ensures StoreInv(ClaimCapture(s, worker, at, leaseSeconds).value.0)
  {
    var expired := (j: Job) => CaptureExpired(s.history, j.id, at);
    var due := (j: Job) => CaptureDue(s, j, at);
    PickedJob(s.jobs, expired);
    PickedJob(s.jobs, due);
    var ready, lapsed := First(s.jobs, due, EarlierJob), First(s.jobs, expired, EarlierJob);
    hide First;
    hide StoreInv;
    hide CaptureExpired;
    hide CaptureDue;
    hide Known;
    if lapsed.Some? {
      LapseKeeps(s, lapsed.value, worker, at);
    } else if ready.Some? {
      LeaseKeeps(s, ready.value, CaptureLease(worker, |s.history|), at, at + 1000 * leaseSeconds);
    }
  }

  lemma HeldLease(s: Store, job: nat, owner: Owner, at: int)
    requires StoreInv(s) && HoldsLease(s.history, job, owner, at) && owner.CaptureLease?
    ensures Known(s.jobs, job)
    ensures var phase := PhaseOf(RowsOf(s.history, job));
            (HasCapture(s.captures, job) <==> phase.Loose?) &&
            (!phase.Loose? ==>
               phase.Leased? && phase.owner == owner && at <= phase.lease &&
               FailedCaptures(RowsOf(s.history, job)) == phase.failures)
  {
    LatestIn(s.history, job);
    assert HistoryInv(s.jobs, s.history);
    LatestPhase(s, job);
    if PhaseOf(RowsOf(s.history, job)).Leased? {
      FailuresAreCounted(RowsOf(s.history, job));
    }
    hide LooksLikeCapture;
  }

  lemma FailureRowNext(phase: Phase, row: StatusRow)
    requires phase.Leased? && row.at <= phase.lease
    requires if phase.failures + 1 >= MAXIMUM_CAPTURES
             then row.status.TechnicalFailure? && row.failure == Some(RetryExhausted)
             else row.status.PendingCapture? && row.failure.Some? && row.failure.value.CaptureFailed? &&
                  row.lease == Some(row.at + 1000 * Delay(phase.failures + 1))
    ensures Next(phase, row).Waiting? || Next(phase, row).Exhausted?
  {
    hide Delay;
    hide LooksLikeCapture;
  }

  lemma FailureRowKeeps(s: Store, row: StatusRow, phase: Phase)
    requires StoreInv(s) && Known(s.jobs, row.job) && phase == PhaseOf(RowsOf(s.history, row.job))
    requires phase.Loose? || (phase.Leased? && (Next(phase, row).Waiting? || Next(phase, row).Exhausted?))
    requires !row.status.Completed? && !row.status.Claimed?
    ensures StoreInv(s.(history := s.history + [row]))
  {
    hide StoreInv;
    hide PhaseOf;
    hide RowsOf;
    if phase.Loose? { LooseStays(phase, row); }
    hide Next;
    RowKeepsStore(s, row);
  }

  lemma LooseStays(phase: Phase, row: StatusRow)
    requires phase.Loose?
    ensures Next(phase, row).Loose?
  {
  }

  lemma CaptureFailureKeeps(s: Store, job: nat, at: int, worker: string, token: nat, code: string)
    requires StoreInv(s) && CaptureFailure(s, job, at, worker, token, code, MAXIMUM_CAPTURES).Ok?
    ensures StoreInv(CaptureFailure(s, job, at, worker, token, code, MAXIMUM_CAPTURES).value)
  {
    hide StoreInv;
    hide PhaseOf;
    hide RowsOf;
    hide FailedCaptures;
    hide Delay;
    hide HoldsLease;
    hide Latest;
    hide Next;
    HeldLease(s, job, CaptureLease(worker, token), at);
    var row := CaptureFailureRow(s.history, job, at, worker, code, MAXIMUM_CAPTURES);
    var phase := PhaseOf(RowsOf(s.history, job));
    if !phase.Loose? { FailureRowNext(phase, row); }
    FailureRowKeeps(s, row, phase);
  }

  lemma CapturedRowKeeps(s: Store, row: StatusRow, at: int)
    requires StoreInv(s) && Known(s.jobs, row.job) && row.status.Captured?
    requires var phase := PhaseOf(RowsOf(s.history, row.job)); !Past(phase) && Past(Next(phase, row))
    ensures StoreInv(s.(captures := s.captures + [Capture(row.job, at)], history := s.history + [row]))
  {
    hide RowsOf;
    hide PhaseOf;
    hide Next;
    hide JobsInv;
    hide ResultsInv;
    hide ParentsInv;
    hide StatesInv;
    hide HistoryInv;
    hide RowsBacked;
    hide CapturesInv;
    hide Known;
    RowKeepsHistory(s.jobs, s.history, row);
    RowKeepsBacked(s.jobs, s.history, s.results, row);
    CaptureKeepsCaptures(s.jobs, s.history, s.captures, row, at);
  }

  lemma RecordKeeps(s: Store, job: nat, at: int, owner: Owner)
    requires StoreInv(s) && HoldsLease(s.history, job, owner, at) && owner.CaptureLease? && !HasCapture(s.captures, job)
    ensures StoreInv(s.(captures := s.captures + [Capture(job, at)],
                        history := s.history + [StatusRow(job, Captured, at, None, None, None)]))
  {
    HeldLease(s, job, owner, at);
    hide HoldsLease;
    hide RowsOf;
    hide PhaseOf;
    hide FailedCaptures;
    hide StoreInv;
    CapturedRowKeeps(s, StatusRow(job, Captured, at, None, None, None), at);
  }

  /** A capture is refused only for the lease or the evidence: the table's UNIQUE fires only for a job
      that was claimed for analysis under a capture-like name. */
  lemma RecordCaptureKeeps(s: Store, job: nat, valid: bool, at: int, worker: string, token: nat)
    requires StoreInv(s)
    ensures var r := RecordCapture(s, job, valid, at, worker, token);
            (r.Ok? ==> StoreInv(r.value)) &&
            (r == Err(Constraint) ==> exists row :: row in s.history && row.job == job && LooseClaim(row))
  {
    var owner := CaptureLease(worker, token);
    if HoldsLease(s.history, job, owner, at) {
      HeldLease(s, job, owner, at);
      if HasCapture(s.captures, job) {
        var row := LooseHasClaim(RowsOf(s.history, job));
        KeepFinds(s.history, (r: StatusRow) => r.job == job, row);
      } else {
        RecordKeeps(s, job, at, owner);
      }
    }
    hide StoreInv;
    hide PhaseOf;
    hide LooseClaim;
  }

  lemma {:induction false} LooseHasClaim(rows: seq<StatusRow>) returns (row: StatusRow)
    requires PhaseOf(rows).Loose?
    ensures row in rows && LooseClaim(row)
  {
    hide LooksLikeCapture;
    var front, last := rows[..|rows| - 1], rows[|rows| - 1];
    if PhaseOf(front).Loose? {
      row := LooseHasClaim(front);
    } else {
      row := last;
    }
  }

  // ------------------------------------------------------ analysis operations

  /** A job that may be claimed has every earlier job of its story completed, hence with a result. */
  lemma ClaimableHasEarlier(s: Store, job: Job, at: int, only: Option<nat>)
    requires StoreInv(s) && Claimable(s, job, at, only)
    ensures EarlierDone(s.jobs, s.results, job)
  {
    hide JobsInv;
    hide ResultsInv;
    hide ParentsInv;
    hide StatesInv;
    hide CapturesInv;
    forall other | other in s.jobs && other.story == job.story && other.e1 < job.e1
      ensures HasResult(s.results, other.id)
    {
      var i :| 0 <= i < |s.jobs| && s.jobs[i] == other;
      LatestIn(s.history, other.id);
      assert Latest(s.history, s.jobs[i].id).value.status.Completed?;
    }
  }

  lemma ClaimNextKeeps(s: Store, worker: string, at: int, leaseSeconds: int, only: Option<nat>)
    requires StoreInv(s)
    ensures var (next, job) := ClaimNext(s, worker, at, leaseSeconds, only);
            StoreInv(next) && (job.Some? ==> job.value in next.jobs && WasClaimed(next.history, job.value.id))
  {
    var wanted := (j: Job) => Claimable(s, j, at, only);
    PickedJob(s.jobs, wanted);
    var best := First(s.jobs, wanted, EarlierJob);
    hide First;
    if best.Some? {
      ClaimableHasEarlier(s, best.value, at, only);
      LatestPhase(s, best.value.id);
      var row := StatusRow(best.value.id, Claimed, at, Some(Plain(worker)), Some(at + 1000 * leaseSeconds), None);
      assert AnalysisClaim(row);
      SameIdSameJob(s, best.value);
      hide PhaseOf;
      hide RowsOf;
      hide EarlierDone;
      hide StoreInv;
      hide LooksLikeCapture;
      RowKeepsStore(s, row);
      assert (s.history + [row])[|s.history|] == row;
    }
  }

  lemma SameIdSameJob(s: Store, job: Job)
    requires StoreInv(s) && job in s.jobs
    ensures forall j | j in s.jobs && j.id == job.id :: j == job
  {
    hide HistoryInv;
    hide ResultsInv;
    hide ParentsInv;
    hide StatesInv;
    hide CapturesInv;
    hide RowsBacked;
  }

  lemma ClaimedDone(jobs: seq<Job>, history: seq<StatusRow>, captures: seq<Capture>, job: Job, r: StatusRow)
    requires CapturesInv(jobs, history, captures) && Known(jobs, job.id)
    requires r in history && r.job == job.id && AnalysisClaim(r)
    ensures Past(PhaseOf(RowsOf(history, job.id))) && HasCapture(captures, job.id)
  {
    KeepFinds(history, (r: StatusRow) => r.job == job.id, r);
    JobPhase(jobs, history, captures, job.id);
    ClaimedIsDone(RowsOf(history, job.id), r);
  }

  lemma ClaimedEarlier(jobs: seq<Job>, history: seq<StatusRow>, results: seq<Analysis>, job: Job, r: StatusRow)
    requires RowsBacked(jobs, history, results) && job in jobs
    requires r in history && r.job == job.id && AnalysisClaim(r)
    ensures EarlierDone(jobs, results, job)
  {
    assert RowBacked(jobs, results, r, job);
  }

  lemma ClaimedPhase(s: Store, job: Job)
    requires StoreInv(s) && job in s.jobs && WasClaimed(s.history, job.id)
    ensures Known(s.jobs, job.id) && Past(PhaseOf(RowsOf(s.history, job.id))) && HasCapture(s.captures, job.id)
    ensures EarlierDone(s.jobs, s.results, job)
  {
    var i :| 0 <= i < |s.history| && s.history[i].job == job.id && AnalysisClaim(s.history[i]);
    var n :| 0 <= n < |s.jobs| && s.jobs[n] == job;
    var r := s.history[i];
    hide AnalysisClaim;
    hide PhaseOf;
    hide RowsOf;
    hide EarlierDone;
    hide JobsInv;
    hide ResultsInv;
    hide ParentsInv;
    hide StatesInv;
    hide HistoryInv;
    hide RowsBacked;
    hide CapturesInv;
    assert Known(s.jobs, job.id);
    ClaimedDone(s.jobs, s.history, s.captures, job, r);
    ClaimedEarlier(s.jobs, s.history, s.results, job, r);
  }

  lemma FailKeeps(s: Store, job: Job, code: string, at: int)
    requires StoreInv(s) && job in s.jobs && WasClaimed(s.history, job.id)
    ensures StoreInv(Fail(s, job, code, at))
  {
    ClaimedPhase(s, job);
    hide StoreInv;
    hide PhaseOf;
    hide RowsOf;
    hide EarlierDone;
    RowKeepsStore(s, Fail(s, job, code, at).history[|s.history|]);
  }

  lemma EarlierDoneMonotone(jobs: seq<Job>, results: seq<Analysis>, a: Analysis, job: Job)
    requires EarlierDone(jobs, results, job)
    ensures EarlierDone(jobs, results + [a], job)
  {
    forall other | other in jobs && other.story == job.story && other.e1 < job.e1
      ensures HasResult(results + [a], other.id)
    {
      HasResultSnoc(results, a, other.id);
    }
  }

  lemma ResultKeepsResults(s: Store, job: Job, a: Analysis)
    requires StoreInv(s) && job in s.jobs && !HasResult(s.results, job.id) && EarlierDone(s.jobs, s.results, job)
    requires a.job == job.id && a.story == job.story && a.parent == job.parent
    ensures ResultsInv(s.jobs, s.results + [a])
  {
    var results := s.results + [a];
    SameIdSameJob(s, job);
    assert ResultsInv(s.jobs, s.results);
    hide StoreInv;
    var n :| 0 <= n < |s.jobs| && s.jobs[n] == job;
    assert ResultOf(s.jobs, a);
    assert forall i | 0 <= i < |s.results| :: s.results[i].job != job.id;
    forall j | j in s.jobs && HasResult(results, j.id) ensures EarlierDone(s.jobs, results, j) {
      HasResultSnoc(s.results, a, j.id);
      EarlierDoneMonotone(s.jobs, s.results, a, j);
    }
    hide ResultOf;
  }

  lemma ResultKeepsBacked(jobs: seq<Job>, history: seq<StatusRow>, results: seq<Analysis>, a: Analysis)
    requires RowsBacked(jobs, history, results)
    ensures RowsBacked(jobs, history, results + [a])
  {
    forall r, j | r in history && j in jobs && r.job == j.id ensures RowBacked(jobs, results + [a], r, j) {
      assert RowBacked(jobs, results, r, j);
      HasResultSnoc(results, a, j.id);
      if AnalysisClaim(r) {
        EarlierDoneMonotone(jobs, results, a, j);
      }
    }
  }

  lemma ResultKeepsParents(jobs: seq<Job>, results: seq<Analysis>, a: Analysis)
    requires ParentsInv(jobs, results)
    ensures ParentsInv(jobs, results + [a])
  {
    forall j | j in jobs ensures ParentOk(jobs, results + [a], j) {
      assert ParentOk(jobs, results, j);
      if j.parent.Some? {
        HasResultSnoc(results, a, j.parent.value);
      }
    }
  }

  // ------------------------------------------------------ story rows

  lemma ClosedMatches(s: Store, story: nat)
    requires StoreInv(s)
    ensures StoryClosed(s.states, story) <==> !OpenStory(StatesOf(s.states, story))
  {
    var wanted := (r: StateRow) => r.story == story;
    var rows := StatesOf(s.states, story);
    assert StoryShape(JobsOf(s.jobs, story), s.results, rows);
    if StoryClosed(s.states, story) {
      var i :| 0 <= i < |s.states| && s.states[i].story == story && s.states[i].Closed();
      KeepFinds(s.states, wanted, s.states[i]);
      var k :| 0 <= k < |rows| && rows[k] == s.states[i];
      assert k < ActiveCount(rows) ==> ActiveRowOk(JobsOf(s.jobs, story), s.results, rows, k);
    }
    if !OpenStory(rows) {
      KeepFinds(s.states, wanted, rows[|rows| - 1]);
    }
  }

  lemma RowHasResult(jobs: seq<Job>, results: seq<Analysis>, rows: seq<StateRow>, i: nat)
    requires StoryShape(jobs, results, rows) && OpenStory(rows) && i < |rows|
    ensures i < |jobs| && HasResult(results, jobs[i].id)
  {
    assert ActiveRowOk(jobs, results, rows, i);
  }

  lemma AllRecordedAt(jobs: seq<Job>, results: seq<Analysis>, rows: seq<StateRow>)
    requires StoryShape(jobs, results, rows)
    ensures AllRecorded(jobs, results, rows)
  {
  }

  /** In an open story the next job to complete is the one its next row is for. */
  lemma NextRow(s: Store, job: Job)
    requires StoreInv(s) && job in s.jobs && EarlierDone(s.jobs, s.results, job) && !HasResult(s.results, job.id)
    requires OpenStory(StatesOf(s.states, job.story))
    ensures |StatesOf(s.states, job.story)| == job.e1
  {
    var rows, ofStory := StatesOf(s.states, job.story), JobsOf(s.jobs, job.story);
    assert StoryShape(ofStory, s.results, rows);
    JobAt(s.stories, s.jobs, job);
    assert Numbered(ofStory);
    hide StoreInv;
    hide HasResult;
    AllRecordedAt(ofStory, s.results, rows);
    hide StoryShape;
    if |rows| > job.e1 {
      RowHasResult(ofStory, s.results, rows, job.e1);
    }
    if |rows| < job.e1 {
      InJobsOf(s.jobs, job.story, ofStory[|rows|]);
    }
  }

  lemma ShapeKept(jobs: seq<Job>, results: seq<Analysis>, rows: seq<StateRow>, a: Analysis)
    requires StoryShape(jobs, results, rows)
    requires !OpenStory(rows) || forall i | 0 <= i < |jobs| :: jobs[i].id != a.job
    ensures StoryShape(jobs, results + [a], rows)
  {
    forall i | 0 <= i < ActiveCount(rows) ensures ActiveRowOk(jobs, results + [a], rows, i) {
      assert ActiveRowOk(jobs, results, rows, i);
      HasResultSnoc(results, a, jobs[i].id);
    }
    forall i | 0 <= i < |jobs| ensures HasResult(results + [a], jobs[i].id) ==> HasResult(results, jobs[i].id) || jobs[i].id == a.job {
      HasResultSnoc(results, a, jobs[i].id);
    }
  }

  lemma ShapeGrows(jobs: seq<Job>, results: seq<Analysis>, rows: seq<StateRow>, job: Job, a: Analysis, grade: string,
                   at: int)
    requires StoryShape(jobs, results, rows) && OpenStory(rows) && |rows| == job.e1 < |jobs| && jobs[job.e1] == job
    requires a.job == job.id && forall i | 0 <= i < |jobs| && jobs[i].id == job.id :: i == job.e1
    ensures StoryShape(jobs, results + [a],
                       rows + [ActiveRow(if rows == [] then None else Some(rows[|rows| - 1]), job, grade, at)])
  {
    var row := ActiveRow(if rows == [] then None else Some(rows[|rows| - 1]), job, grade, at);
    var more := rows + [row];
    HasResultSnoc(results, a, job.id);
    forall i | 0 <= i < |more| ensures ActiveRowOk(jobs, results + [a], more, i) {
      if i < |rows| {
        assert ActiveRowOk(jobs, results, rows, i);
        HasResultSnoc(results, a, jobs[i].id);
      } else if i > 0 {
        assert ActiveRowOk(jobs, results, rows, i - 1);
      }
    }
    forall i | 0 <= i < |jobs| && HasResult(results + [a], jobs[i].id) ensures i < |more| {
      HasResultSnoc(results, a, jobs[i].id);
    }
  }

  lemma StatesOfSnoc(states: seq<StateRow>, row: StateRow, story: nat)
    ensures StatesOf(states + [row], story) == StatesOf(states, story) + if row.story == story then [row] else []
  {
    KeepSnoc(states, row, (r: StateRow) => r.story == story);
  }

  lemma OtherStory(s: Store, job: Job, story: nat)
    requires StoreInv(s) && job in s.jobs
    ensures var ofStory := JobsOf(s.jobs, story);
            forall i | 0 <= i < |ofStory| && ofStory[i].id == job.id :: story == job.story && i == job.e1
  {
    var ofStory := JobsOf(s.jobs, story);
    forall i | 0 <= i < |ofStory| && ofStory[i].id == job.id ensures story == job.story && i == job.e1 {
      InJobsOf(s.jobs, story, ofStory[i]);
      SameIdSameJob(s, job);
      assert Numbered(ofStory);
    }
  }

  lemma CompleteKeepsStates(s: Store, job: Job, a: Analysis, grade: string, at: int)
    requires StoreInv(s) && job in s.jobs && EarlierDone(s.jobs, s.results, job) && !HasResult(s.results, job.id)
    requires a.job == job.id
    ensures StatesInv(s.jobs, s.results + [a],
                      if StoryClosed(s.states, job.story) then s.states
                      else s.states + [ActiveRow(PreviousState(s.states, job.story), job, grade, at)])
  {
    var row := ActiveRow(PreviousState(s.states, job.story), job, grade, at);
    ClosedMatches(s, job.story);
    if OpenStory(StatesOf(s.states, job.story)) {
      NextRow(s, job);
    }
    JobAt(s.stories, s.jobs, job);
    forall story
      ensures StoryShape(JobsOf(s.jobs, story), s.results + [a], StatesOf(s.states, story)) ||
              (story == job.story && OpenStory(StatesOf(s.states, story)))
      ensures StoryShape(JobsOf(s.jobs, story), s.results + [a], StatesOf(s.states + [row], story)) ||
              !OpenStory(StatesOf(s.states, job.story))
    {
      var ofStory, rows := JobsOf(s.jobs, story), StatesOf(s.states, story);
      assert StoryShape(ofStory, s.results, rows);
      OtherStory(s, job, story);
      StatesOfSnoc(s.states, row, story);
      hide StoreInv;
      hide StoryShape;
      hide ActiveRow;
      assert rows + [] == rows;
      if story == job.story && OpenStory(rows) {
        ShapeGrows(ofStory, s.results, rows, job, a, grade, at);
      } else {
        ShapeKept(ofStory, s.results, rows, a);
      }
    }
  }

  /** No reachable call meets the monotonicity guard. */
  lemma GuardUnreachable(s: Store, job: Job)
    requires StoreInv(s) && job in s.jobs && EarlierDone(s.jobs, s.results, job) && !HasResult(s.results, job.id)
    ensures var previous := PreviousState(s.states, job.story);
            previous.Some? && !previous.value.Closed() ==> previous.value.e1 < job.e1
  {
    var rows, ofStory := StatesOf(s.states, job.story), JobsOf(s.jobs, job.story);
    assert StoryShape(ofStory, s.results, rows);
    if rows != [] && OpenStory(rows) {
      NextRow(s, job);
      assert ActiveRowOk(ofStory, s.results, rows, |rows| - 1);
    }
  }

  lemma ResultKeepsStore(s: Store, job: Job, a: Analysis, row: StatusRow, states: seq<StateRow>)
    requires StoreInv(s) && job in s.jobs && WasClaimed(s.history, job.id) && !HasResult(s.results, job.id)
    requires a.job == job.id && a.story == job.story && a.parent == job.parent
    requires row.job == job.id && row.status.Completed? && row.failure.None?
    requires StatesInv(s.jobs, s.results + [a], states)
    ensures StoreInv(s.(results := s.results + [a], states := states, history := s.history + [row]))
  {
    ClaimedPhase(s, job);
    ResultKeepsResults(s, job, a);
    ResultKeepsParents(s.jobs, s.results, a);
    ResultKeepsBacked(s.jobs, s.history, s.results, a);
    HasResultSnoc(s.results, a, job.id);
    hide PhaseOf;
    hide RowsOf;
    hide EarlierDone;
    RowKeepsHistory(s.jobs, s.history, row);
    RowKeepsBacked(s.jobs, s.history, s.results + [a], row);
    RowKeepsCaptures(s.jobs, s.history, s.captures, row);
    hide JobsInv;
    hide ResultsInv;
    hide ParentsInv;
    hide StatesInv;
    hide HistoryInv;
    hide RowsBacked;
    hide CapturesInv;
  }

  lemma CompleteKeeps(s: Store, job: Job, valid: bool, grade: string, at: int)
    requires StoreInv(s) && job in s.jobs && WasClaimed(s.history, job.id)
    ensures var r := Complete(s, job, valid, grade, at); r != Err(Monotonicity) && (r.Ok? ==> StoreInv(r.value))
  {
    ClaimedPhase(s, job);
    hide StoreInv;
    hide WasClaimed;
    hide PhaseOf;
    hide EarlierDone;
    hide StatesInv;
    hide ActiveRow;
    if !HasResult(s.results, job.id) {
      GuardUnreachable(s, job);
      var a := Analysis(job.id, job.story, job.parent, at, grade);
      var row := StatusRow(job.id, Completed, at, Some(Plain("PROJECT_A_ANALYSIS_WORKER")), None, None);
      CompleteKeepsStates(s, job, a, grade, at);
      ResultKeepsStore(s, job, a, row,
                       if StoryClosed(s.states, job.story) then s.states
                       else s.states + [ActiveRow(PreviousState(s.states, job.story), job, grade, at)]);
    }
    hide PreviousState;
    hide Requested;
  }

  lemma CloseGrows(jobs: seq<Job>, results: seq<Analysis>, rows: seq<StateRow>, story: nat, decision: Decision, at: int)
    requires StoryShape(jobs, results, rows) && OpenStory(rows)
    ensures StoryShape(jobs, results,
                       rows + [ClosedRow(story, if rows == [] then None else Some(rows[|rows| - 1]), decision, at)])
  {
    var more := rows + [ClosedRow(story, if rows == [] then None else Some(rows[|rows| - 1]), decision, at)];
    forall i | 0 <= i < ActiveCount(more) ensures ActiveRowOk(jobs, results, more, i) {
      assert ActiveRowOk(jobs, results, rows, i);
    }
  }

  lemma CloseKeeps(s: Store, story: nat, decision: Decision, at: int)
    requires StoreInv(s) && CloseStory(s, story, decision, at).Ok?
    ensures StoreInv(CloseStory(s, story, decision, at).value)
  {
    var previous := PreviousState(s.states, story);
    if !(previous.Some? && previous.value.Closed()) {
      var row := ClosedRow(story, previous, decision, at);
      assert row.story == story by {
        if previous.Some? {
          KeepFinds(s.states, (r: StateRow) => r.story == story, previous.value);
        }
      }
      forall other ensures StoryShape(JobsOf(s.jobs, other), s.results, StatesOf(s.states + [row], other)) {
        assert StoryShape(JobsOf(s.jobs, other), s.results, StatesOf(s.states, other));
        hide StoreInv;
        hide StoryShape;
        hide ClosedRow;
        StatesOfSnoc(s.states, row, other);
        assert StatesOf(s.states, other) + [] == StatesOf(s.states, other);
        if other == story {
          CloseGrows(JobsOf(s.jobs, other), s.results, StatesOf(s.states, other), story, decision, at);
        }
      }
      hide JobsInv;
      hide ResultsInv;
      hide ParentsInv;
      hide HistoryInv;
      hide RowsBacked;
      hide CapturesInv;
    }
  }

  // ------------------------------------------------------ triggers

  lemma KnownSnoc(jobs: seq<Job>, job: Job, id: nat)
    ensures Known(jobs + [job], id) <==> Known(jobs, id) || job.id == id
  {
    var more := jobs + [job];
    assert more[|jobs|] == job;
    forall i | 0 <= i < |jobs| ensures more[i] == jobs[i] {}
  }

  function FirstRow(job: Job): StatusRow { StatusRow(job.id, PendingCapture, job.requestedAt, None, None, None) }

  lemma NewIdUnknown(jobs: seq<Job>, job: Job)
    requires !JobClashes(jobs, job)
    ensures !Known(jobs, job.id) && forall j | j in jobs :: j.id != job.id
  {
  }

  lemma NoRows(jobs: seq<Job>, history: seq<StatusRow>, id: nat)
    requires HistoryInv(jobs, history) && !Known(jobs, id)
    ensures RowsOf(history, id) == []
  {
    LatestIn(history, id);
  }

  lemma QueueKeepsHistory(jobs: seq<Job>, history: seq<StatusRow>, job: Job)
    requires HistoryInv(jobs, history)
    ensures HistoryInv(jobs + [job], history + [FirstRow(job)])
  {
    forall r | r in history + [FirstRow(job)] ensures Known(jobs + [job], r.job) {
      KnownSnoc(jobs, job, r.job);
    }
    forall j | j in jobs + [job] ensures Latest(history + [FirstRow(job)], j.id).Some? {
      RowsOfSnoc(history, FirstRow(job), j.id);
      assert j in jobs ==> Latest(history, j.id).Some?;
    }
  }

  /** Adding the next job of a story takes nothing from the jobs before it. */
  lemma QueueKeepsEarlier(stories: seq<Story>, jobs: seq<Job>, results: seq<Analysis>, job: Job, j: Job)
    requires JobsInv(stories, jobs) && NextOfStory(jobs, job) && j in jobs && EarlierDone(jobs, results, j)
    ensures EarlierDone(jobs + [job], results, j)
  {
    JobAt(stories, jobs, j);
  }

  lemma QueueKeepsBacked(stories: seq<Story>, jobs: seq<Job>, history: seq<StatusRow>, results: seq<Analysis>, job: Job)
    requires JobsInv(stories, jobs) && NextOfStory(jobs, job) && !JobClashes(jobs, job)
    requires HistoryInv(jobs, history) && RowsBacked(jobs, history, results)
    ensures RowsBacked(jobs + [job], history + [FirstRow(job)], results)
  {
    NewIdUnknown(jobs, job);
    hide JobsInv;
    hide NextOfStory;
    hide JobClashes;
    forall r, j | r in history + [FirstRow(job)] && j in jobs + [job] && r.job == j.id
      ensures RowBacked(jobs + [job], results, r, j)
    {
      if r in history {
        assert Known(jobs, r.job);
        assert j in jobs;
        assert RowBacked(jobs, results, r, j);
        QueueKeepsRowBacked(stories, jobs, results, job, r, j);
      }
    }
  }

  lemma QueueKeepsRowBacked(stories: seq<Story>, jobs: seq<Job>, results: seq<Analysis>, job: Job, r: StatusRow, j: Job)
    requires JobsInv(stories, jobs) && NextOfStory(jobs, job) && j in jobs && RowBacked(jobs, results, r, j)
    ensures RowBacked(jobs + [job], results, r, j)
  {
    hide JobsInv;
    hide NextOfStory;
    if AnalysisClaim(r) {
      QueueKeepsEarlier(stories, jobs, results, job, j);
    }
    hide EarlierDone;
  }

  lemma NoResult(jobs: seq<Job>, results: seq<Analysis>, id: nat)
    requires ResultsInv(jobs, results) && !Known(jobs, id)
    ensures !HasResult(results, id)
  {
    assert forall i | 0 <= i < |results| :: ResultOf(jobs, results[i]);
  }

  lemma ResultOfSnoc(jobs: seq<Job>, job: Job, a: Analysis)
    requires ResultOf(jobs, a)
    ensures ResultOf(jobs + [job], a)
  {
    var i :| 0 <= i < |jobs| && jobs[i].id == a.job && jobs[i].story == a.story && jobs[i].parent == a.parent;
    assert (jobs + [job])[i] == jobs[i];
  }

  lemma QueueKeepsResults(stories: seq<Story>, jobs: seq<Job>, results: seq<Analysis>, job: Job)
    requires JobsInv(stories, jobs) && NextOfStory(jobs, job) && !JobClashes(jobs, job) && ResultsInv(jobs, results)
    ensures ResultsInv(jobs + [job], results)
  {
    NewIdUnknown(jobs, job);
    NoResult(jobs, results, job.id);
    forall a | a in results ensures ResultOf(jobs + [job], a) {
      ResultOfSnoc(jobs, job, a);
    }
    forall j | j in jobs + [job] && HasResult(results, j.id) ensures EarlierDone(jobs + [job], results, j) {
      QueueKeepsEarlier(stories, jobs, results, job, j);
    }
  }

  lemma ParentOkSnoc(jobs: seq<Job>, results: seq<Analysis>, job: Job, j: Job)
    requires ParentOk(jobs, results, j)
    ensures ParentOk(jobs + [job], results, j)
  {
    if j.parent.Some? {
      var i :| 0 <= i < |jobs| && jobs[i].id == j.parent.value && jobs[i].story == j.story && jobs[i].e1 < j.e1;
      assert (jobs + [job])[i] == jobs[i];
    }
  }

  lemma QueueKeepsParents(jobs: seq<Job>, results: seq<Analysis>, job: Job)
    requires ParentsInv(jobs, results) && ParentOk(jobs, results, job)
    ensures ParentsInv(jobs + [job], results)
  {
    forall j | j in jobs + [job] ensures ParentOk(jobs + [job], results, j) {
      ParentOkSnoc(jobs, results, job, j);
    }
  }

  lemma ShapeWithJob(jobs: seq<Job>, results: seq<Analysis>, rows: seq<StateRow>, job: Job)
    requires StoryShape(jobs, results, rows) && !HasResult(results, job.id)
    ensures StoryShape(jobs + [job], results, rows)
  {
    forall i | 0 <= i < ActiveCount(rows) ensures ActiveRowOk(jobs + [job], results, rows, i) {
      assert ActiveRowOk(jobs, results, rows, i);
    }
  }

  lemma QueueKeepsStates(jobs: seq<Job>, results: seq<Analysis>, states: seq<StateRow>, job: Job)
    requires StatesInv(jobs, results, states) && !HasResult(results, job.id)
    ensures StatesInv(jobs + [job], results, states)
  {
    forall story ensures StoryShape(JobsOf(jobs + [job], story), results, StatesOf(states, story)) {
      assert StoryShape(JobsOf(jobs, story), results, StatesOf(states, story));
      hide StoryShape;
      JobsOfSnoc(jobs, job, story);
      assert JobsOf(jobs, story) + [] == JobsOf(jobs, story);
      if job.story == story {
        ShapeWithJob(JobsOf(jobs, story), results, StatesOf(states, story), job);
      }
    }
  }

  lemma NoCapture(jobs: seq<Job>, captures: seq<Capture>, id: nat)
    requires (forall c | c in captures :: Known(jobs, c.job)) && !Known(jobs, id)
    ensures !HasCapture(captures, id)
  {
    hide Known;
  }

  lemma FirstRowPhase(job: Job)
    ensures PhaseOf([FirstRow(job)]) == Waiting(0)
  {
    PhaseSnoc([], FirstRow(job));
    assert [] + [FirstRow(job)] == [FirstRow(job)];
  }

  lemma QueueKeepsCaptures(jobs: seq<Job>, history: seq<StatusRow>, captures: seq<Capture>, job: Job)
    requires CapturesInv(jobs, history, captures) && HistoryInv(jobs, history) && !JobClashes(jobs, job)
    ensures CapturesInv(jobs + [job], history + [FirstRow(job)], captures)
  {
    var row := FirstRow(job);
    NewIdUnknown(jobs, job);
    NoRows(jobs, history, job.id);
    NoCapture(jobs, captures, job.id);
    FirstRowPhase(job);
    hide HistoryInv;
    hide Next;
    hide PhaseOf;
    hide JobClashes;
    hide RowsOf;
    hide HasCapture;
    forall c | c in captures ensures Known(jobs + [job], c.job) {
      KnownSnoc(jobs, job, c.job);
    }
    hide Known;
    forall j | j in jobs + [job]
      ensures Regular(PhaseOf(RowsOf(history + [row], j.id))) &&
              (Past(PhaseOf(RowsOf(history + [row], j.id))) <==> HasCapture(captures, j.id))
    {
      RowsOfSnoc(history, row, j.id);
      assert RowsOf(history, j.id) + [] == RowsOf(history, j.id);
      assert [] + [row] == [row];
    }
  }

  lemma QueueKeeps(s: Store, more: seq<Story>, job: Job)
    requires StoreInv(s) && !JobClashes(s.jobs, job) && NextOfStory(s.jobs, job)
    requires StoriesGrown(s.stories, more, job.story) && ParentOk(s.jobs, s.results, job)
    ensures Queue(s.(stories := more), job).Ok? && StoreInv(Queue(s.(stories := more), job).value)
  {
    QueueKeepsJobs(s.stories, more, s.jobs, job);
    QueueKeepsHistory(s.jobs, s.history, job);
    QueueKeepsBacked(s.stories, s.jobs, s.history, s.results, job);
    QueueKeepsResults(s.stories, s.jobs, s.results, job);
    QueueKeepsParents(s.jobs, s.results, job);
    NewIdUnknown(s.jobs, job);
    NoResult(s.jobs, s.results, job.id);
    QueueKeepsStates(s.jobs, s.results, s.states, job);
    QueueKeepsCaptures(s.jobs, s.history, s.captures, job);
    hide JobsInv;
    hide ResultsInv;
    hide ParentsInv;
    hide StatesInv;
    hide HistoryInv;
    hide RowsBacked;
    hide CapturesInv;
    hide NextOfStory;
    hide StoriesGrown;
    hide ParentOk;
  }

  lemma LaterStoryOrders()
    ensures forall a :: !LaterStory(a, a)
    ensures forall a, b, c :: LaterStory(a, b) && !LaterStory(c, b) ==> !LaterStory(c, a)
  {
  }

  /** An E1 goes to the story with the latest source time before its own, if that story is open. */
  lemma ActiveStoryPicks(s: Store, before: int)
    ensures var active := ActiveStory(s, before);
            (active.Some? ==>
               active.value in s.stories && active.value.sourceTime < before &&
               !StoryClosed(s.states, active.value.id) &&
               forall other | other in s.stories && other.sourceTime < before ::
                 other == active.value || !LaterStory(other, active.value)) &&
            (active.None? ==>
               (forall other | other in s.stories :: other.sourceTime >= before) ||
               exists closed :: closed in s.stories && closed.sourceTime < before &&
                                StoryClosed(s.states, closed.id) &&
                                forall other | other in s.stories && other.sourceTime < before ::
                                  other == closed || !LaterStory(other, closed))
  {
    LaterStoryOrders();
    var wanted := (story: Story) => story.sourceTime < before;
    FirstPicks(s.stories, wanted, LaterStory);
    hide LaterStory;
    hide StoryClosed;
    var latest := First(s.stories, wanted, LaterStory);
    hide First;
    if latest.Some? {
      assert latest.value in s.stories && latest.value.sourceTime < before;
    } else {
      forall other | other in s.stories ensures other.sourceTime >= before {
        assert !wanted(other);
      }
    }
  }

  lemma LatestResultPicks(s: Store, story: nat)
    ensures var latest := LatestResult(s, story);
            latest.Some? ==> latest.value in s.jobs && latest.value.story == story && HasResult(s.results, latest.value.id)
  {
    FirstPicks(s.jobs, (j: Job) => j.story == story && HasResult(s.results, j.id), (a: Job, b: Job) => a.e1 > b.e1);
  }

  lemma E1Queues(s: Store, story: Story, job: Job)
    requires StoreInv(s) && story in s.stories && job.story == story.id && job.e1 == MaxE1(s.jobs, story.id) + 1
    requires job.parent == if LatestResult(s, story.id).Some? then Some(LatestResult(s, story.id).value.id) else None
    ensures NextOfStory(s.jobs, job) && StoryKnown(s.stories, story.id) && ParentOk(s.jobs, s.results, job)
  {
    assert JobsInv(s.stories, s.jobs);
    assert Numbered(JobsOf(s.jobs, story.id));
    MaxE1Counts(s.jobs, story.id);
    LatestResultPicks(s, story.id);
    var n :| 0 <= n < |s.stories| && s.stories[n] == story;
    var latest := LatestResult(s, story.id);
    if latest.Some? {
      JobAt(s.stories, s.jobs, latest.value);
      var i :| 0 <= i < |s.jobs| && s.jobs[i] == latest.value;
    }
  }

  lemma NewStoryHasNoJobs(s: Store, story: Story)
    requires StoreInv(s) && !StoryClashes(s.stories, story)
    ensures JobsOf(s.jobs, story.id) == []
  {
    var ofStory := JobsOf(s.jobs, story.id);
    if ofStory != [] {
      InJobsOf(s.jobs, story.id, ofStory[0]);
    }
    assert JobsInv(s.stories, s.jobs);
  }

  lemma E1Keeps(s: Store, story: Story, job: Job)
    requires StoreInv(s) && story in s.stories && job.story == story.id && job.e1 == MaxE1(s.jobs, story.id) + 1
    requires job.parent == if LatestResult(s, story.id).Some? then Some(LatestResult(s, story.id).value.id) else None
    requires Queue(s, job).Ok?
    ensures StoreInv(Queue(s, job).value)
  {
    E1Queues(s, story, job);
    assert s.(stories := s.stories) == s;
    hide StoreInv;
    hide NextOfStory;
    hide ParentOk;
    hide LatestResult;
    hide JobClashes;
    hide MaxE1;
    QueueKeeps(s, s.stories, job);
  }

  lemma LiquidityKeeps(s: Store, story: Story, job: Job)
    requires StoreInv(s) && !StoryClashes(s.stories, story) && job.story == story.id && job.e1 == 0 && job.parent.None?
    requires Queue(s.(stories := s.stories + [story]), job).Ok?
    ensures StoreInv(Queue(s.(stories := s.stories + [story]), job).value)
  {
    NewStoryHasNoJobs(s, story);
    hide StoreInv;
    hide JobClashes;
    hide StoryClashes;
    QueueKeeps(s, s.stories + [story], job);
  }

  lemma EnqueueKeeps(s: Store, trigger: Trigger, at: int, digests: Digests)
    requires StoreInv(s) && Enqueue(s, trigger, at, digests).Ok?
    ensures StoreInv(Enqueue(s, trigger, at, digests).value)
  {
    ActiveStoryPicks(s, trigger.sourceTime);
    hide ActiveStory;
    hide StoreInv;
    hide LatestResult;
    hide BaselineJob;
    hide MaxE1;
    hide Queue;
    hide LaterStory;
    hide StoryClosed;
    if trigger.e1 {
      var story := ActiveStory(s, trigger.sourceTime);
      if story.Some? {
        var id, latest := story.value.id, LatestResult(s, story.value.id);
        E1Keeps(s, story.value,
                Job(digests.analysis(id, trigger.event, MaxE1(s.jobs, id) + 1), id, trigger.event,
                    if latest.Some? then Some(latest.value.id) else None, MaxE1(s.jobs, id) + 1, at, false));
      } else {
        OrphansKeep(s, s.orphans + [trigger.event]);
      }
    } else {
      var id := digests.story(trigger.event, at);
      LiquidityKeeps(s, Story(id, trigger.event, trigger.sourceTime, at),
                     Job(digests.analysis(id, trigger.event, 0), id, trigger.event, None, 0, at, trigger.suppliesDelta));
    }
  }

  lemma OrphansKeep(s: Store, orphans: seq<string>)
    requires StoreInv(s)
    ensures StoreInv(s.(orphans := orphans))
  {
    hide JobsInv;
    hide ResultsInv;
    hide ParentsInv;
    hide StatesInv;
    hide HistoryInv;
    hide RowsBacked;
    hide CapturesInv;
  }

  // ------------------------------------------------------ every run

  /** Rows and jobs stay, so a worker's claim does. */
  predicate Grows(s: Store, next: Store) {
    s.jobs <= next.jobs && s.history <= next.history
  }

  lemma GrowsKeepsHold(s: Store, next: Store, w: Worker)
    requires Grows(s, next) && HoldsRightly(s, w)
    ensures HoldsRightly(next, w)
  {
    hide LooksLikeCapture;
    if w.doing.Holding? || w.doing.Attempted? {
      var i :| 0 <= i < |s.history| && s.history[i].job == w.doing.job.id && AnalysisClaim(s.history[i]);
      assert next.history[i] == s.history[i];
      var n :| 0 <= n < |s.jobs| && s.jobs[n] == w.doing.job;
      assert next.jobs[n] == s.jobs[n];
    }
  }

  lemma StoreStepKeeps(sys: System, next: Store)
    requires Inv(sys) && StoreInv(next) && Grows(sys.store, next)
    ensures Inv(sys.(store := next))
  {
    forall i | 0 <= i < |sys.workers| ensures HoldsRightly(next, sys.workers[i]) {
      GrowsKeepsHold(sys.store, next, sys.workers[i]);
    }
  }

  lemma WorkerGrows(s: Store, w: Worker, timed: Timed)
    requires HoldsRightly(s, w)
    ensures Grows(s, WorkerStep(s, w, timed).0)
  {
    hide Latest;
    hide First;
    hide HoldsLease;
    hide CaptureFailureRow;
    hide Known;
    hide StoryClosed;
    hide HasResult;
    hide HasCapture;
    hide ActiveRow;
    hide PreviousState;
    hide Requested;
    hide LooksLikeCapture;
    hide WasClaimed;
  }

  lemma CaptureStepKeeps(s: Store, w: Worker, timed: Timed)
    requires StoreInv(s) && !w.doing.Holding? && !w.doing.Attempted? && HoldsRightly(s, w)
    ensures var (next, doing) := WorkerStep(s, w, timed);
            StoreInv(next) && HoldsRightly(next, w.(doing := doing))
  {
    hide StoreInv;
    hide ClaimCapture;
    hide RecordCapture;
    hide CaptureFailure;
    hide ClaimNext;
    hide WasClaimed;
    hide LooksLikeCapture;
    var at := timed.at;
    match (w.doing, timed.move)
    case (Idle, StartTick(_, _)) =>
      if ClaimCapture(s, w.name, at, CAPTURE_LEASE).Ok? { ClaimCaptureKeeps(s, w.name, at, CAPTURE_LEASE); }
    case (Capturing(c), Record(_, valid, _)) => RecordCaptureKeeps(s, c.job.id, valid, at, w.name, c.token);
    case (CaptureFailing(c), CaptureFails(_, code)) =>
      if CaptureFailure(s, c.job.id, at, w.name, c.token, code, MAXIMUM_CAPTURES).Ok? {
        CaptureFailureKeeps(s, c.job.id, at, w.name, c.token, code);
      }
    case (Ready, Claim(_, only)) => ClaimNextKeeps(s, w.name, at, ANALYSIS_LEASE, only);
    case _ =>
  }

  lemma AttemptsKeep(s: Store, attempts: seq<Attempt>)
    requires StoreInv(s)
    ensures StoreInv(s.(attempts := attempts))
  {
    hide JobsInv;
    hide ResultsInv;
    hide ParentsInv;
    hide StatesInv;
    hide HistoryInv;
    hide RowsBacked;
    hide CapturesInv;
  }

  lemma AnalysisStepKeeps(s: Store, w: Worker, timed: Timed)
    requires StoreInv(s) && (w.doing.Holding? || w.doing.Attempted?) && HoldsRightly(s, w)
    ensures var (next, doing) := WorkerStep(s, w, timed);
            StoreInv(next) && (doing.Idle? || doing == w.doing || doing == Attempted(w.doing.job))
  {
    hide StoreInv;
    hide Complete;
    hide Fail;
    hide WasClaimed;
    hide LooksLikeCapture;
    hide Requested;
    match (w.doing, timed.move)
    case (Holding(job), Begin(_, model, manifest, client)) =>
      AttemptsKeep(s, s.attempts + [Attempt(job.id, model, manifest, client, timed.at)]);
    case (Holding(job), GiveUp(_, code)) => FailKeeps(s, job, code, timed.at);
    case (Attempted(job), GiveUp(_, code)) => FailKeeps(s, job, code, timed.at);
    case (Attempted(job), Finish(_, valid, grade)) => CompleteKeeps(s, job, valid, grade, timed.at);
    case _ =>
  }

  lemma WorkerStepKeeps(sys: System, n: nat, timed: Timed)
    requires Inv(sys) && n < |sys.workers|
    ensures var (store, doing) := WorkerStep(sys.store, sys.workers[n], timed);
            Inv(System(store, sys.workers[n := sys.workers[n].(doing := doing)]))
  {
    var w := sys.workers[n];
    assert StoreInv(sys.store) && HoldsRightly(sys.store, w);
    WorkerGrows(sys.store, w, timed);
    var (store, doing) := WorkerStep(sys.store, w, timed);
    GrowsKeepsHold(sys.store, store, w);
    hide StoreInv;
    hide Grows;
    if w.doing.Holding? || w.doing.Attempted? {
      AnalysisStepKeeps(sys.store, w, timed);
    } else {
      CaptureStepKeeps(sys.store, w, timed);
    }
    hide WorkerStep;
    hide WasClaimed;
    hide LooksLikeCapture;
    StoreStepKeeps(sys, store);
  }

  lemma IngestKeeps(sys: System, trigger: Trigger, at: int, digests: Digests)
    requires Inv(sys)
    ensures Inv(sys.(store := OrSame(sys.store, Enqueue(sys.store, trigger, at, digests))))
  {
    assert StoreInv(sys.store);
    hide Inv;
    hide StoreInv;
    if Enqueue(sys.store, trigger, at, digests).Ok? {
      EnqueueKeeps(sys.store, trigger, at, digests);
      EnqueueGrows(sys.store, trigger, at, digests);
      hide Enqueue;
      StoreStepKeeps(sys, Enqueue(sys.store, trigger, at, digests).value);
    }
  }

  lemma CloseStepKeeps(sys: System, story: nat, decision: Decision, at: int)
    requires Inv(sys)
    ensures Inv(sys.(store := OrSame(sys.store, CloseStory(sys.store, story, decision, at))))
  {
    assert StoreInv(sys.store);
    hide Inv;
    hide StoreInv;
    if CloseStory(sys.store, story, decision, at).Ok? {
      CloseKeeps(sys.store, story, decision, at);
      hide ClosedRow;
      hide PreviousState;
      StoreStepKeeps(sys, CloseStory(sys.store, story, decision, at).value);
    }
  }

  lemma StepKeeps(sys: System, timed: Timed, digests: Digests)
    requires Inv(sys)
    ensures Inv(Step(sys, timed, digests))
  {
    hide Inv;
    hide WorkerStep;
    hide Enqueue;
    hide CloseStory;
    hide OrSame;
    match timed.move
    case Ingest(trigger) => IngestKeeps(sys, trigger, timed.at, digests);
    case Close(story, decision) => CloseStepKeeps(sys, story, decision, timed.at);
    case _ =>
      if timed.move.worker < |sys.workers| {
        WorkerStepKeeps(sys, timed.move.worker, timed);
      }
  }

  lemma EnqueueGrows(s: Store, trigger: Trigger, at: int, digests: Digests)
    requires Enqueue(s, trigger, at, digests).Ok?
    ensures Grows(s, Enqueue(s, trigger, at, digests).value)
  {
    hide ActiveStory;
    hide LatestResult;
    hide BaselineJob;
    hide MaxE1;
    hide JobClashes;
    hide StoryClashes;
  }

  /** Every run from an empty store keeps the invariant, however stale or crashed its workers. */
  lemma {:induction false} RunKeepsInv(workers: seq<Worker>, moves: seq<Timed>, digests: Digests)
    requires Starting(workers)
    ensures Inv(Run(Fresh(workers), moves, digests))
    decreases |moves|
  {
    hide Inv;
    hide Step;
    if moves == [] {
      FreshInv(workers);
    } else {
      RunKeepsInv(workers, moves[..|moves| - 1], digests);
      StepKeeps(Run(Fresh(workers), moves[..|moves| - 1], digests), moves[|moves| - 1], digests);
    }
  }

  lemma FreshInv(workers: seq<Worker>)
    requires Starting(workers)
    ensures Inv(Fresh(workers))
  {
    hide LooksLikeCapture;
    assert forall story :: JobsOf([], story) == [] && StatesOf([], story) == [];
    assert StoryShape([], [], []);
  }
}
