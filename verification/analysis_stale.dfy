/**
 A worker that lost its lease can still report a technical failure (project_a_analysis/store.py,
 `technical_failure`): when exactly that takes a job's latest status off COMPLETED, a run that does
 it, and what becomes of the story.
 */
module AnalysisStale {
  import opened Outcomes
  import opened AnalysisSteps
  import opened AnalysisRuns
  import G = AnalysisGuarantees

  // ------------------------------------------------------ one step

  predicate CompletedNow(history: seq<StatusRow>, job: nat) {
    Latest(history, job).Some? && Latest(history, job).value.status.Completed?
  }

  predicate FailedNow(history: seq<StatusRow>, job: nat) {
    Latest(history, job).Some? && Latest(history, job).value.status.TechnicalFailure?
  }

  /** The move is the give-up of a worker that still holds this job. */
  predicate GivesUp(sys: System, timed: Timed, job: nat) {
    timed.move.GiveUp? && timed.move.worker < |sys.workers| &&
    var doing := sys.workers[timed.move.worker].doing;
    (doing.Holding? || doing.Attempted?) && doing.job.id == job
  }

  /** The latest row is neither of a capture or claim that can go on. */
  predicate Settled(history: seq<StatusRow>, job: nat) { CompletedNow(history, job) || FailedNow(history, job) }

  lemma CaptureLeavesSettled(s: Store, worker: string, at: int, leaseSeconds: int, job: nat)
    requires Settled(s.history, job) && ClaimCapture(s, worker, at, leaseSeconds).Ok?
    ensures var history := ClaimCapture(s, worker, at, leaseSeconds).value.0.history;
            history == s.history ||
            (|history| == |s.history| + 1 && history[..|s.history|] == s.history && history[|s.history|].job != job)
  {
    var expired := (j: Job) => CaptureExpired(s.history, j.id, at);
    var due := (j: Job) => CaptureDue(s, j, at);
    PickedJob(s.jobs, expired);
    PickedJob(s.jobs, due);
    hide First;
    hide StoryClosed;
    hide CaptureOwned;
  }

  lemma ClaimLeavesSettled(s: Store, worker: string, at: int, leaseSeconds: int, only: Option<nat>, job: nat)
    requires Settled(s.history, job)
    ensures var history := ClaimNext(s, worker, at, leaseSeconds, only).0.history;
            history == s.history ||
            (|history| == |s.history| + 1 && history[..|s.history|] == s.history && history[|s.history|].job != job)
  {
    PickedJob(s.jobs, (j: Job) => Claimable(s, j, at, only));
    hide First;
    hide StoryClosed;
    hide CaptureOwned;
    hide Blocked;
  }

  lemma EnqueueLeavesKnown(s: Store, trigger: Trigger, at: int, digests: Digests, job: Job)
    requires job in s.jobs && Enqueue(s, trigger, at, digests).Ok?
    ensures var history := Enqueue(s, trigger, at, digests).value.history;
            history == s.history ||
            (|history| == |s.history| + 1 && history[..|s.history|] == s.history && history[|s.history|].job != job.id)
  {
    hide ActiveStory;
    hide LatestResult;
    hide BaselineJob;
    hide MaxE1;
    hide StoryClashes;
    var n :| 0 <= n < |s.jobs| && s.jobs[n] == job;
  }

  lemma SettledIsNotLeased(history: seq<StatusRow>, job: nat, owner: Owner, at: int)
    requires Settled(history, job)
    ensures !HoldsLease(history, job, owner, at)
  {
    hide Latest;
  }

  lemma WorkerLeavesSettled(s: Store, w: Worker, timed: Timed, job: nat)
    requires Settled(s.history, job)
    ensures var history := WorkerStep(s, w, timed).0.history;
            history == s.history ||
            (|history| == |s.history| + 1 && history[..|s.history|] == s.history &&
             (history[|s.history|].job == job ==>
                if timed.move.GiveUp? then history[|s.history|].status.TechnicalFailure?
                else history[|s.history|].status.Completed? && !HasResult(s.results, job)))
    ensures timed.move.GiveUp? && (w.doing.Holding? || w.doing.Attempted?) ==>
              var history := WorkerStep(s, w, timed).0.history;
              |history| == |s.history| + 1 && history[..|s.history|] == s.history &&
              history[|s.history|].job == w.doing.job.id && history[|s.history|].status.TechnicalFailure?
    ensures timed.move.GiveUp? && !w.doing.Holding? && !w.doing.Attempted? ==> WorkerStep(s, w, timed).0.history == s.history
  {
    hide Latest;
    hide HasCapture;
    hide Known;
    hide FailedCaptures;
    hide Delay;
    hide HoldsLease;
    hide Settled;
    hide ActiveRow;
    hide PreviousState;
    hide StoryClosed;
    hide Requested;
    hide HasResult;
    hide ClaimCapture;
    hide ClaimNext;
    match (w.doing, timed.move)
    case (Idle, StartTick(_, _)) =>
      if ClaimCapture(s, w.name, timed.at, CAPTURE_LEASE).Ok? {
        CaptureLeavesSettled(s, w.name, timed.at, CAPTURE_LEASE, job);
      }
    case (Capturing(c), Record(_, _, _)) => SettledIsNotLeased(s.history, job, CaptureLease(w.name, c.token), timed.at);
    case (CaptureFailing(c), CaptureFails(_, code)) =>
      SettledIsNotLeased(s.history, job, CaptureLease(w.name, c.token), timed.at);
      assert CaptureFailureRow(s.history, c.job.id, timed.at, w.name, code, MAXIMUM_CAPTURES).job == c.job.id;

    case (Ready, Claim(_, only)) => ClaimLeavesSettled(s, w.name, timed.at, ANALYSIS_LEASE, only, job);
    case _ =>
  }

  lemma StepLeavesSettled(sys: System, timed: Timed, digests: Digests, job: Job)
    requires Settled(sys.store.history, job.id) && job in sys.store.jobs
    ensures var before, history := sys.store.history, Step(sys, timed, digests).store.history;
            history == before ||
            (|history| == |before| + 1 && history[..|before|] == before &&
             (history[|before|].job == job.id ==>
                if GivesUp(sys, timed, job.id) then history[|before|].status.TechnicalFailure?
                else history[|before|].status.Completed? && !HasResult(sys.store.results, job.id)))
    ensures GivesUp(sys, timed, job.id) ==>
              var before, history := sys.store.history, Step(sys, timed, digests).store.history;
              |history| == |before| + 1 && history[..|before|] == before &&
              history[|before|].job == job.id && history[|before|].status.TechnicalFailure?
  {
    hide WorkerStep;
    hide HasResult;
    hide Settled;
    hide Enqueue;
    match timed.move
    case Ingest(trigger) =>
      if Enqueue(sys.store, trigger, timed.at, digests).Ok? {
        EnqueueLeavesKnown(sys.store, trigger, timed.at, digests, job);
      }
    case Close(_, _) => hide PreviousState; hide ClosedRow;
    case _ =>
      if timed.move.worker < |sys.workers| {
        WorkerLeavesSettled(sys.store, sys.workers[timed.move.worker], timed, job.id);
      }
  }

  lemma LatestSnoc(history: seq<StatusRow>, next: seq<StatusRow>, job: nat)
    requires |next| == |history| + 1 && next[..|history|] == history
    ensures Latest(next, job) == if next[|history|].job == job then Some(next[|history|]) else Latest(history, job)
  {
    assert next == history + [next[|history|]];
    RowsOfSnoc(history, next[|history|], job);
  }

  /** For every system and move, a job's latest status is taken off COMPLETED exactly when the move
      is the give-up of a worker that still holds that job. */
  lemma CompletedIsLeftIff(sys: System, timed: Timed, digests: Digests, job: Job)
    requires job in sys.store.jobs && CompletedNow(sys.store.history, job.id)
    ensures var history := Step(sys, timed, digests).store.history;
            (!CompletedNow(history, job.id) <==> GivesUp(sys, timed, job.id)) &&
            (GivesUp(sys, timed, job.id) ==> FailedNow(history, job.id))
  {
    StepLeavesSettled(sys, timed, digests, job);
    var history := Step(sys, timed, digests).store.history;
    hide Step;
    if history != sys.store.history {
      LatestSnoc(sys.store.history, history, job.id);
    }
    hide Latest;
    hide HasResult;
  }

  // ------------------------------------------------------ what becomes of the story

  /** Failed after it got its result. */
  predicate Stuck(s: Store, job: Job) {
    job in s.jobs && HasResult(s.results, job.id) && FailedNow(s.history, job.id)
  }

  lemma {:induction false} ResultStays(s: Store, next: Store, job: nat)
    requires s.results <= next.results && HasResult(s.results, job)
    ensures HasResult(next.results, job)
  {
    var i :| 0 <= i < |s.results| && s.results[i].job == job;
    assert next.results[i] == s.results[i];
  }

  lemma StepGrows(sys: System, timed: Timed, digests: Digests)
    ensures var next := Step(sys, timed, digests).store;
            sys.store.jobs <= next.jobs && sys.store.results <= next.results
  {
    hide Latest;
    hide First;
    hide HoldsLease;
    hide CaptureFailureRow;
    hide Known;
    hide StoryClosed;
    hide HasResult;
    hide HasCapture;
    hide ActiveRow;
    hide PreviousState;
    hide Requested;
    hide ActiveStory;
    hide LatestResult;
    hide BaselineJob;
    hide MaxE1;
    hide JobClashes;
    hide StoryClashes;
  }

  /** No move takes a job out of that state. */
  lemma StuckStays(sys: System, timed: Timed, digests: Digests, job: Job)
    requires Stuck(sys.store, job)
    ensures Stuck(Step(sys, timed, digests).store, job)
  {
    StepLeavesSettled(sys, timed, digests, job);
    StepGrows(sys, timed, digests);
    var next := Step(sys, timed, digests).store;
    hide Step;
    ResultStays(sys.store, next, job.id);
    if next.history != sys.store.history {
      LatestSnoc(sys.store.history, next.history, job.id);
    }
    hide Latest;
    hide HasResult;
    InLonger(sys.store.jobs, next.jobs, job);
  }

  lemma InLonger(jobs: seq<Job>, more: seq<Job>, job: Job)
    requires jobs <= more && job in jobs
    ensures job in more
  {
    var i :| 0 <= i < |jobs| && jobs[i] == job;
    assert more[i] == job;
  }

  /** A job behind a stuck one in its story is never claimable. */
  lemma StuckBlocks(s: Store, job: Job, later: Job, at: int, only: Option<nat>)
    requires Stuck(s, job) && later.story == job.story && job.e1 < later.e1
    ensures !Claimable(s, later, at, only)
  {
    var i :| 0 <= i < |s.jobs| && s.jobs[i] == job;
    assert Latest(s.history, s.jobs[i].id).Some?;
    assert Blocked(s, later);
    hide Blocked;
    hide StoryClosed;
    hide CaptureOwned;
  }

  predicate AnalysisClaimOf(row: StatusRow, job: nat) {
    row.job == job && row.status.Claimed? && row.owner.Some? && row.owner.value.Plain?
  }

  /** A claim for analysis is only ever added by `claim_next`, for the job it picked. */
  lemma ClaimsArePicked(sys: System, timed: Timed, digests: Digests, job: nat)
    requires var before, history := sys.store.history, Step(sys, timed, digests).store.history;
             history != before && AnalysisClaimOf(history[|history| - 1], job)
    ensures timed.move.Claim? && timed.move.worker < |sys.workers|
    ensures exists picked :: picked in sys.store.jobs && picked.id == job && Claimable(sys.store, picked, timed.at, timed.move.only)
  {
    hide Latest;
    hide HoldsLease;
    hide Known;
    hide StoryClosed;
    hide HasResult;
    hide HasCapture;
    hide ActiveRow;
    hide PreviousState;
    hide Requested;
    hide ActiveStory;
    hide LatestResult;
    hide BaselineJob;
    hide MaxE1;
    hide JobClashes;
    hide StoryClashes;
    hide Claimable;
    hide CaptureExpired;
    hide CaptureDue;
    if timed.move.Claim? && timed.move.worker < |sys.workers| {
      var wanted := (j: Job) => Claimable(sys.store, j, timed.at, timed.move.only);
      PickedJob(sys.store.jobs, wanted);
      assert sys.workers[timed.move.worker].doing.Ready?;
      var picked := First(sys.store.jobs, wanted, EarlierJob).value;
      assert wanted(picked);
    }
    hide First;
  }

  lemma StepAddsOne(sys: System, timed: Timed, digests: Digests)
    ensures var before, history := sys.store.history, Step(sys, timed, digests).store.history;
            history == before || (|history| == |before| + 1 && history[..|before|] == before)
  {
    G.StepAddsOneRow(sys, timed, digests);
    hide Step;
  }

  lemma {:induction false} RunFromKeeps(sys: System, moves: seq<Timed>, digests: Digests)
    requires Inv(sys)
    ensures Inv(Run(sys, moves, digests))
    decreases |moves|
  {
    hide Inv;
    hide Step;
    if moves != [] {
      RunFromKeeps(sys, moves[..|moves| - 1], digests);
      StepKeeps(Run(sys, moves[..|moves| - 1], digests), moves[|moves| - 1], digests);
    }
  }

  lemma UniqueJob(s: Store, a: Job, b: Job)
    requires StoreInv(s) && a in s.jobs && b in s.jobs && a.id == b.id
    ensures a == b
  {
    SameIdSameJob(s, a);
    hide StoreInv;
  }

  lemma RowJobKnown(s: Store, row: StatusRow) returns (job: Job)
    requires StoreInv(s) && row in s.history
    ensures job in s.jobs && job.id == row.job
  {
    assert HistoryInv(s.jobs, s.history);
    hide StoreInv;
    var i :| 0 <= i < |s.jobs| && s.jobs[i].id == row.job;
    job := s.jobs[i];
  }

  /** The jobs behind one in its story. */
  predicate Behind(s: Store, job: Job, later: Job) {
    later in s.jobs && later.story == job.story && job.e1 < later.e1
  }

  lemma NoNewClaim(sys: System, timed: Timed, digests: Digests, job: Job, later: Job, i: nat)
    requires Inv(sys) && Inv(Step(sys, timed, digests)) && Stuck(sys.store, job)
    requires Behind(Step(sys, timed, digests).store, job, later)
    requires i < |Step(sys, timed, digests).store.history|
    requires AnalysisClaimOf(Step(sys, timed, digests).store.history[i], later.id)
    ensures i < |sys.store.history| && sys.store.history[i] == Step(sys, timed, digests).store.history[i]
    ensures Behind(sys.store, job, later)
  {
    var next := Step(sys, timed, digests);
    StepAddsOne(sys, timed, digests);
    StepGrows(sys, timed, digests);
    assert StoreInv(sys.store) && StoreInv(next.store);
    hide Inv;
    if i == |sys.store.history| {
      ClaimsArePicked(sys, timed, digests, later.id);
      hide Step;
      var picked :| picked in sys.store.jobs && picked.id == later.id &&
                    Claimable(sys.store, picked, timed.at, timed.move.only);
      InLonger(sys.store.jobs, next.store.jobs, picked);
      UniqueJob(next.store, picked, later);
      hide StoreInv;
      StuckBlocks(sys.store, job, later, timed.at, timed.move.only);
    } else {
      hide Step;
      assert sys.store.history[i] == next.store.history[i];
      var known := RowJobKnown(sys.store, sys.store.history[i]);
      InLonger(sys.store.jobs, next.store.jobs, known);
      UniqueJob(next.store, known, later);
    }
  }

  /** Once a job has failed after its result, over every further run it stays so, no later job of
      its story can be claimed, and none ever is: the claims for analysis that there are of such
      jobs were there before. */
  lemma {:induction false} StuckForever(sys: System, moves: seq<Timed>, digests: Digests, job: Job)
    requires Inv(sys) && Stuck(sys.store, job)
    ensures var end := Run(sys, moves, digests).store;
            Stuck(end, job) && sys.store.history <= end.history &&
            (forall later, at, only | Behind(end, job, later) :: !Claimable(end, later, at, only)) &&
            (forall i, later | |sys.store.history| <= i < |end.history| && Behind(end, job, later) ::
               !AnalysisClaimOf(end.history[i], later.id))
    decreases |moves|
  {
    var end := Run(sys, moves, digests).store;
    if moves != [] {
      var front, last := moves[..|moves| - 1], moves[|moves| - 1];
      var before := Run(sys, front, digests);
      StuckForever(sys, front, digests, job);
      RunFromKeeps(sys, front, digests);
      StepKeeps(before, last, digests);
      StuckStays(before, last, digests, job);
      StepAddsOne(before, last, digests);
      hide Inv;
      hide Stuck;
      hide Claimable;
      hide AnalysisClaimOf;
      assert Run(sys, moves, digests) == Step(before, last, digests);
      forall i, later | |sys.store.history| <= i < |end.history| && Behind(end, job, later)
        ensures !AnalysisClaimOf(end.history[i], later.id)
      {
        if AnalysisClaimOf(end.history[i], later.id) {
          NoNewClaim(before, last, digests, job, later, i);
        }
      }
      hide Step;
    }
    forall later, at, only | Behind(end, job, later) ensures !Claimable(end, later, at, only) {
      StuckBlocks(end, job, later, at, only);
    }
  }

  // ------------------------------------------------------ a run that gets there

  const TRIGGER := Trigger("liq", false, 0, true, true)
  const LATE := 200_000

  /** Two workers; the first claims the only job and pauses, its lease of 180 s lapses, the second
      completes the job, and then the first reports its failure. */
  function StaleMoves(): seq<Timed> {
    [Timed(Ingest(TRIGGER), 0), Timed(StartTick(0, true), 0), Timed(Record(0, true, true), 0), Timed(Claim(0, None), 0),
     Timed(StartTick(1, true), LATE), Timed(Claim(1, None), LATE), Timed(Begin(1, "m", "f", "c"), LATE),
     Timed(Finish(1, true, "A"), LATE), Timed(GiveUp(0, "timeout"), LATE)]
  }

  function TheStory(digests: Digests): nat { digests.story("liq", 0) }

  function TheJob(digests: Digests): Job {
    Job(digests.analysis(TheStory(digests), "liq", 0), TheStory(digests), "liq", None, 0, 0, true)
  }

  /** The status rows of the run, in order. */
  function StaleRows(id: nat): seq<StatusRow> {
    [StatusRow(id, PendingCapture, 0, None, None, None),
     StatusRow(id, Claimed, 0, Some(CaptureLease("a", 1)), Some(90_000), None),
     StatusRow(id, Captured, 0, None, None, None),
     StatusRow(id, Claimed, 0, Some(Plain("a")), Some(180_000), None),
     StatusRow(id, Claimed, LATE, Some(Plain("b")), Some(LATE + 180_000), None),
     StatusRow(id, Completed, LATE, Some(Plain("PROJECT_A_ANALYSIS_WORKER")), None, None),
     StatusRow(id, TechnicalFailure, LATE, Some(Plain("PROJECT_A_ANALYSIS_WORKER")), None, Some(WorkerFailure("timeout")))]
  }

  /** The store of the run with its first n status rows. */
  function StaleStore(digests: Digests, n: nat, captured: bool, begun: bool, finished: bool): Store
    requires n <= 7
  {
    var job := TheJob(digests);
    Store([Story(job.story, "liq", 0, 0)], [job], StaleRows(job.id)[..n],
          if captured then [Capture(job.id, 0)] else [],
          if begun then [Attempt(job.id, "m", "f", "c", LATE)] else [],
          if finished then [Analysis(job.id, job.story, None, LATE, "A")] else [],
          if finished then [ActiveRow(None, job, "A", LATE)] else [], [])
  }

  lemma LatestOfRows(id: nat, n: nat)
    requires 0 < n <= 7
    ensures Latest(StaleRows(id)[..n], id) == Some(StaleRows(id)[n - 1])
    ensures |RowsOf(StaleRows(id)[..n], id)| == n
  {
    var rows := StaleRows(id)[..n];
    var front := StaleRows(id)[..n - 1];
    assert rows == front + [StaleRows(id)[n - 1]];
    RowsOfSnoc(front, StaleRows(id)[n - 1], id);
    if n > 1 {
      LatestOfRows(id, n - 1);
    }
  }

  lemma OnlyJob(job: Job, wanted: Job -> bool)
    ensures First([job], wanted, EarlierJob) == if wanted(job) then Some(job) else None
  {
    assert [job][..0] == [];
  }

  lemma Ingested(digests: Digests)
    ensures Enqueue(EMPTY_STORE, TRIGGER, 0, digests) == Ok(StaleStore(digests, 1, false, false, false))
  {
    var job := TheJob(digests);
    var row := StatusRow(job.id, PendingCapture, 0, None, None, None);
    assert StaleRows(job.id)[..1] == [] + [row];
    assert [] + [job] == [job] && [] + [Story(job.story, "liq", 0, 0)] == [Story(job.story, "liq", 0, 0)];
  }

  lemma FirstCapture(digests: Digests)
    ensures var s := StaleStore(digests, 1, false, false, false);
            ClaimCapture(s, "a", 0, CAPTURE_LEASE) ==
              Ok((StaleStore(digests, 2, false, false, false), Some(CaptureClaim(TheJob(digests), 1))))
  {
    var s, job := StaleStore(digests, 1, false, false, false), TheJob(digests);
    var rows := StaleRows(job.id);
    LatestOfRows(job.id, 1);
    OnlyJob(job, (j: Job) => CaptureExpired(s.history, j.id, 0));
    OnlyJob(job, (j: Job) => CaptureDue(s, j, 0));
    hide First;
    hide Latest;
    assert rows[..1] + [rows[1]] == rows[..2];
  }

  lemma Recorded(digests: Digests)
    ensures var s := StaleStore(digests, 2, false, false, false);
            RecordCapture(s, TheJob(digests).id, true, 0, "a", 1) == Ok(StaleStore(digests, 3, true, false, false))
  {
    var s, job := StaleStore(digests, 2, false, false, false), TheJob(digests);
    var rows := StaleRows(job.id);
    LatestOfRows(job.id, 2);
    hide Latest;
    assert s.jobs[0].id == job.id;
    assert rows[..2] + [rows[2]] == rows[..3];
    assert [] + [Capture(job.id, 0)] == [Capture(job.id, 0)];
  }

  lemma NothingBlocks(digests: Digests, n: nat)
    requires n <= 7
    ensures !Blocked(StaleStore(digests, n, true, false, false), TheJob(digests))
  {
  }

  lemma FirstClaim(digests: Digests)
    ensures var s := StaleStore(digests, 3, true, false, false);
            ClaimNext(s, "a", 0, ANALYSIS_LEASE, None) ==
              (StaleStore(digests, 4, true, false, false), Some(TheJob(digests)))
  {
    var s, job := StaleStore(digests, 3, true, false, false), TheJob(digests);
    var rows := StaleRows(job.id);
    LatestOfRows(job.id, 3);
    NothingBlocks(digests, 3);
    OnlyJob(job, (j: Job) => Claimable(s, j, 0, None));
    hide First;
    hide Latest;
    hide Blocked;
    assert rows[..3] + [rows[3]] == rows[..4];
  }

  lemma NoCaptureLeft(digests: Digests)
    ensures var s := StaleStore(digests, 4, true, false, false);
            ClaimCapture(s, "b", LATE, CAPTURE_LEASE) == Ok((s, None))
  {
    var s, job := StaleStore(digests, 4, true, false, false), TheJob(digests);
    LatestOfRows(job.id, 4);
    OnlyJob(job, (j: Job) => CaptureExpired(s.history, j.id, LATE));
    OnlyJob(job, (j: Job) => CaptureDue(s, j, LATE));
    hide First;
    hide Latest;
  }

  lemma SecondClaim(digests: Digests)
    ensures var s := StaleStore(digests, 4, true, false, false);
            ClaimNext(s, "b", LATE, ANALYSIS_LEASE, None) ==
              (StaleStore(digests, 5, true, false, false), Some(TheJob(digests)))
  {
    var s, job := StaleStore(digests, 4, true, false, false), TheJob(digests);
    var rows := StaleRows(job.id);
    LatestOfRows(job.id, 4);
    NothingBlocks(digests, 4);
    OnlyJob(job, (j: Job) => Claimable(s, j, LATE, None));
    hide First;
    hide Latest;
    hide Blocked;
    assert rows[..4] + [rows[4]] == rows[..5];
  }

  lemma SecondBegins(digests: Digests)
    ensures var s, job := StaleStore(digests, 5, true, false, false), TheJob(digests);
            BeginAttempt(s, job, "m", "f", "c", LATE) == Ok(StaleStore(digests, 5, true, true, false))
  {
    var attempt := Attempt(TheJob(digests).id, "m", "f", "c", LATE);
    assert [] + [attempt] == [attempt];
  }

  lemma OneRequested(attempt: Attempt)
    ensures Requested([attempt], attempt.job) == Some(attempt)
  {
    RequestedOf([attempt], attempt.job);
    assert attempt in [attempt];
  }

  lemma RequestedOf(attempts: seq<Attempt>, job: nat)
    ensures var first := Requested(attempts, job);
            (first.None? <==> forall x | x in attempts :: x.job != job) && (first.Some? ==> first.value in attempts)
  {
    FirstPicks(attempts, (a: Attempt) => a.job == job, (a: Attempt, b: Attempt) => a.startedAt > b.startedAt);
  }

  lemma SecondCompletes(digests: Digests)
    ensures Complete(StaleStore(digests, 5, true, true, false), TheJob(digests), true, "A", LATE) ==
            Ok(StaleStore(digests, 6, true, true, true))
  {
    var job := TheJob(digests);
    var s, rows := StaleStore(digests, 5, true, true, false), StaleRows(job.id);
    var attempt := Attempt(job.id, "m", "f", "c", LATE);
    var result, state := Analysis(job.id, job.story, None, LATE, "A"), ActiveRow(None, job, "A", LATE);
    OneRequested(attempt);
    assert s.attempts == [attempt];
    assert PreviousState(s.states, job.story) == None && !StoryClosed(s.states, job.story);
    hide Requested;
    hide PreviousState;
    hide ActiveRow;
    assert rows[..5] + [rows[5]] == rows[..6];
    assert [] + [result] == [result] && [] + [state] == [state];
  }

  lemma FirstGivesUp(digests: Digests)
    ensures Fail(StaleStore(digests, 6, true, true, true), TheJob(digests), "timeout", LATE) ==
            StaleStore(digests, 7, true, true, true)
  {
    var rows := StaleRows(TheJob(digests).id);
    assert rows[..6] + [rows[6]] == rows[..7];
  }

  /** The system of the run with the workers doing this. */
  function StaleSystem(s: Store, first: Doing, second: Doing): System {
    System(s, [Worker("a", first), Worker("b", second)])
  }

  const START := Fresh([Worker("a", Idle), Worker("b", Idle)])

  /** After n moves the run is in this state. */
  predicate At(digests: Digests, n: nat, sys: System)
    requires n <= 9
  {
    Run(START, StaleMoves()[..n], digests) == sys
  }

  lemma NextMove(digests: Digests, n: nat, move: Timed, before: System, after: System)
    requires n < 9 && StaleMoves()[n] == move && At(digests, n, before) && Step(before, move, digests) == after
    ensures At(digests, n + 1, after)
  {
    hide Step;
    var moves := StaleMoves();
    assert |moves| == 9;
    hide StaleMoves;
    assert moves[..n + 1][..n] == moves[..n] && moves[..n + 1][n] == move;
  }

  lemma FirstHalf(digests: Digests)
    ensures At(digests, 4, StaleSystem(StaleStore(digests, 4, true, false, false), Holding(TheJob(digests)), Idle))
  {
    hide At;
    hide Enqueue;
    hide ClaimCapture;
    hide RecordCapture;
    hide ClaimNext;
    hide StaleStore;
    hide TheJob;
    var job := TheJob(digests);
    var one := StaleSystem(StaleStore(digests, 1, false, false, false), Idle, Idle);
    var two := StaleSystem(StaleStore(digests, 2, false, false, false), Capturing(CaptureClaim(job, 1)), Idle);
    var three := StaleSystem(StaleStore(digests, 3, true, false, false), Ready, Idle);
    var four := StaleSystem(StaleStore(digests, 4, true, false, false), Holding(job), Idle);
    NoMove(digests);
    Ingested(digests);
    NextMove(digests, 0, Timed(Ingest(TRIGGER), 0), START, one);
    FirstCapture(digests);
    NextMove(digests, 1, Timed(StartTick(0, true), 0), one, two);
    Recorded(digests);
    NextMove(digests, 2, Timed(Record(0, true, true), 0), two, three);
    FirstClaim(digests);
    NextMove(digests, 3, Timed(Claim(0, None), 0), three, four);
  }

  lemma NoMove(digests: Digests)
    ensures At(digests, 0, START)
  {
    assert StaleMoves()[..0] == [];
  }

  lemma SecondTakesOver(digests: Digests)
    ensures At(digests, 6, StaleSystem(StaleStore(digests, 5, true, false, false), Holding(TheJob(digests)),
                                       Holding(TheJob(digests))))
  {
    hide At;
    hide ClaimCapture;
    hide ClaimNext;
    hide StaleStore;
    hide TheJob;
    var job := TheJob(digests);
    var four := StaleSystem(StaleStore(digests, 4, true, false, false), Holding(job), Idle);
    var five := StaleSystem(StaleStore(digests, 4, true, false, false), Holding(job), Ready);
    var six := StaleSystem(StaleStore(digests, 5, true, false, false), Holding(job), Holding(job));
    FirstHalf(digests);
    NoCaptureLeft(digests);
    NextMove(digests, 4, Timed(StartTick(1, true), LATE), four, five);
    SecondClaim(digests);
    NextMove(digests, 5, Timed(Claim(1, None), LATE), five, six);
  }

  lemma SecondFinishes(digests: Digests)
    ensures At(digests, 8, StaleSystem(StaleStore(digests, 6, true, true, true), Holding(TheJob(digests)), Idle))
  {
    hide At;
    hide BeginAttempt;
    hide Complete;
    hide StaleStore;
    hide TheJob;
    var job := TheJob(digests);
    var six := StaleSystem(StaleStore(digests, 5, true, false, false), Holding(job), Holding(job));
    var seven := StaleSystem(StaleStore(digests, 5, true, true, false), Holding(job), Attempted(job));
    var eight := StaleSystem(StaleStore(digests, 6, true, true, true), Holding(job), Idle);
    SecondTakesOver(digests);
    SecondBegins(digests);
    NextMove(digests, 6, Timed(Begin(1, "m", "f", "c"), LATE), six, seven);
    SecondCompletes(digests);
    NextMove(digests, 7, Timed(Finish(1, true, "A"), LATE), seven, eight);
  }

  lemma FirstFails(digests: Digests)
    ensures At(digests, 9, StaleSystem(StaleStore(digests, 7, true, true, true), Idle, Idle))
  {
    hide At;
    hide Fail;
    hide StaleStore;
    hide TheJob;
    var eight := StaleSystem(StaleStore(digests, 6, true, true, true), Holding(TheJob(digests)), Idle);
    SecondFinishes(digests);
    FirstGivesUp(digests);
    NextMove(digests, 8, Timed(GiveUp(0, "timeout"), LATE), eight,
             StaleSystem(StaleStore(digests, 7, true, true, true), Idle, Idle));
  }

  lemma FinallyStuck(digests: Digests)
    ensures var job := TheJob(digests);
            CompletedNow(StaleStore(digests, 6, true, true, true).history, job.id) &&
            HasResult(StaleStore(digests, 6, true, true, true).results, job.id) &&
            Stuck(StaleStore(digests, 7, true, true, true), job)
  {
    var job := TheJob(digests);
    LatestOfRows(job.id, 6);
    LatestOfRows(job.id, 7);
    hide Latest;
    hide ActiveRow;
    assert StaleStore(digests, 6, true, true, true).results[0].job == job.id;
    assert StaleStore(digests, 7, true, true, true).results[0].job == job.id;
  }

  /** From an empty store two ordinary workers get there: the job is COMPLETED with its result after
      eight moves, TECHNICAL_FAILURE after the ninth, and from then on its story is stuck. */
  lemma StaleFailureHappens(digests: Digests, more: seq<Timed>)
    ensures Starting(START.workers) && OrdinaryNames(START.workers) && START == Fresh(START.workers)
    ensures var job := TheJob(digests);
            var before, after := Run(START, StaleMoves()[..8], digests), Run(START, StaleMoves(), digests);
            CompletedNow(before.store.history, job.id) && HasResult(before.store.results, job.id) &&
            Stuck(after.store, job) && Stuck(Run(after, more, digests).store, job)
  {
    SecondFinishes(digests);
    FirstFails(digests);
    FinallyStuck(digests);
    RunKeepsInv(START.workers, StaleMoves(), digests);
    hide Run;
    hide Inv;
    hide Stuck;
    hide CompletedNow;
    hide StaleStore;
    hide TheJob;
    assert StaleMoves()[..9] == StaleMoves();
    hide StaleMoves;
    StuckForever(Run(START, StaleMoves(), digests), more, digests, TheJob(digests));
  }
}
