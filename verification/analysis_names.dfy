/**
 Which worker names the capture protocol of the store can be relied on for
 (project_a_analysis/store.py): `claim_capture_job` tells an analysis lease from a capture lease by
 the text of the owner alone.
 */
module AnalysisNames {
  import opened Outcomes
  import opened AnalysisSteps
  import opened AnalysisRuns
  import opened AnalysisGuarantees
  import Stale = AnalysisStale

  const LATE := 200_000
  const LATER := 230_000

  /** One worker captures the only job, claims it for analysis and dies; it comes back after the
      lease ran out, and once more when the capture it then finds overdue may be retried. */
  function NameMoves(i: nat): seq<Timed> {
    [Timed(Ingest(Stale.TRIGGER), 0), Timed(StartTick(i, true), 0), Timed(Record(i, true, true), 0),
     Timed(Claim(i, None), 0), Timed(Crash(i), 0), Timed(StartTick(i, true), LATE), Timed(Crash(i), LATE),
     Timed(StartTick(i, true), LATER)]
  }

  /** The status rows of the run, in order. */
  function NameRows(id: nat, name: string): seq<StatusRow> {
    [StatusRow(id, PendingCapture, 0, None, None, None),
     StatusRow(id, Claimed, 0, Some(CaptureLease(name, 1)), Some(90_000), None),
     StatusRow(id, Captured, 0, None, None, None),
     StatusRow(id, Claimed, 0, Some(Plain(name)), Some(180_000), None),
     StatusRow(id, PendingCapture, LATE, Some(Plain(name)), Some(LATER), Some(LeaseExpired)),
     StatusRow(id, Claimed, LATER, Some(CaptureLease(name, 5)), Some(LATER + 90_000), None)]
  }

  /** The store of the run with its first n status rows. */
  function NameStore(digests: Digests, name: string, n: nat): Store
    requires n <= 6
  {
    var job := Stale.TheJob(digests);
    Store([Story(job.story, "liq", 0, 0)], [job], NameRows(job.id, name)[..n],
          if n > 2 then [Capture(job.id, 0)] else [], [], [], [], [])
  }

  lemma RowsSoFar(id: nat, name: string, n: nat)
    requires n <= 6
    ensures RowsOf(NameRows(id, name)[..n], id) == NameRows(id, name)[..n]
    ensures n > 0 ==> Latest(NameRows(id, name)[..n], id) == Some(NameRows(id, name)[n - 1])
  {
    if n > 0 {
      var rows, front := NameRows(id, name)[..n], NameRows(id, name)[..n - 1];
      assert rows == front + [NameRows(id, name)[n - 1]];
      RowsOfSnoc(front, NameRows(id, name)[n - 1], id);
      RowsSoFar(id, name, n - 1);
    }
  }

  lemma Ingested(digests: Digests, name: string)
    ensures Enqueue(EMPTY_STORE, Stale.TRIGGER, 0, digests) == Ok(NameStore(digests, name, 1))
  {
    Stale.Ingested(digests);
    hide Enqueue;
    var id := Stale.TheJob(digests).id;
    assert NameRows(id, name)[..1] == Stale.StaleRows(id)[..1];
  }

  lemma FirstCaptured(digests: Digests, name: string)
    ensures ClaimCapture(NameStore(digests, name, 1), name, 0, CAPTURE_LEASE) ==
            Ok((NameStore(digests, name, 2), Some(CaptureClaim(Stale.TheJob(digests), 1))))
  {
    var s, job := NameStore(digests, name, 1), Stale.TheJob(digests);
    RowsSoFar(job.id, name, 1);
    Stale.OnlyJob(job, (j: Job) => CaptureExpired(s.history, j.id, 0));
    Stale.OnlyJob(job, (j: Job) => CaptureDue(s, j, 0));
    hide First;
    hide Latest;
    var rows := NameRows(job.id, name);
    assert rows[..1] + [rows[1]] == rows[..2];
  }

  lemma Recorded(digests: Digests, name: string)
    ensures RecordCapture(NameStore(digests, name, 2), Stale.TheJob(digests).id, true, 0, name, 1) ==
            Ok(NameStore(digests, name, 3))
  {
    var s, job := NameStore(digests, name, 2), Stale.TheJob(digests);
    RowsSoFar(job.id, name, 2);
    hide Latest;
    assert s.jobs[0].id == job.id;
    var rows := NameRows(job.id, name);
    assert rows[..2] + [rows[2]] == rows[..3];
    assert [] + [Capture(job.id, 0)] == [Capture(job.id, 0)];
  }

  lemma NothingBlocks(digests: Digests, name: string)
    ensures !Blocked(NameStore(digests, name, 3), Stale.TheJob(digests))
  {
  }

  lemma ClaimedLoosely(digests: Digests, name: string)
    ensures ClaimNext(NameStore(digests, name, 3), name, 0, ANALYSIS_LEASE, None) ==
            (NameStore(digests, name, 4), Some(Stale.TheJob(digests)))
  {
    var s, job := NameStore(digests, name, 3), Stale.TheJob(digests);
    RowsSoFar(job.id, name, 3);
    NothingBlocks(digests, name);
    Stale.OnlyJob(job, (j: Job) => Claimable(s, j, 0, None));
    hide First;
    hide Latest;
    hide Blocked;
    var rows := NameRows(job.id, name);
    assert rows[..3] + [rows[3]] == rows[..4];
  }

  /** The step that goes wrong: an analysis lease that ran out is put back to PENDING_CAPTURE. */
  lemma TakenForCapture(digests: Digests, name: string)
    requires LooksLikeCapture(name)
    ensures ClaimCapture(NameStore(digests, name, 4), name, LATE, CAPTURE_LEASE) == Ok((NameStore(digests, name, 5), None))
  {
    hide LooksLikeCapture;
    var s, job := NameStore(digests, name, 4), Stale.TheJob(digests);
    RowsSoFar(job.id, name, 4);
    Stale.OnlyJob(job, (j: Job) => CaptureExpired(s.history, j.id, LATE));
    hide First;
    hide Latest;
    var rows := NameRows(job.id, name);
    assert rows[..4] + [rows[4]] == rows[..5];
  }

  lemma CapturedAgain(digests: Digests, name: string)
    ensures ClaimCapture(NameStore(digests, name, 5), name, LATER, CAPTURE_LEASE) ==
            Ok((NameStore(digests, name, 6), Some(CaptureClaim(Stale.TheJob(digests), 5))))
  {
    var s, job := NameStore(digests, name, 5), Stale.TheJob(digests);
    RowsSoFar(job.id, name, 5);
    Stale.OnlyJob(job, (j: Job) => CaptureExpired(s.history, j.id, LATER));
    Stale.OnlyJob(job, (j: Job) => CaptureDue(s, j, LATER));
    hide First;
    hide Latest;
    var rows := NameRows(job.id, name);
    assert rows[..5] + [rows[5]] == rows[..6];
  }

  /** The second capture cannot be recorded. */
  lemma RecordedTwice(digests: Digests, name: string)
    ensures RecordCapture(NameStore(digests, name, 6), Stale.TheJob(digests).id, true, LATER, name, 5) == Err(Constraint)
  {
    var s, job := NameStore(digests, name, 6), Stale.TheJob(digests);
    RowsSoFar(job.id, name, 6);
    hide Latest;
    assert s.jobs[0].id == job.id && s.captures[0].job == job.id;
  }

  // ------------------------------------------------------ the run

  /** The system of the run with worker i doing this. */
  function NameSystem(workers: seq<Worker>, i: nat, s: Store, doing: Doing): System
    requires i < |workers|
  {
    System(s, workers[i := workers[i].(doing := doing)])
  }

  /** After n moves the run is in this state. */
  predicate At(workers: seq<Worker>, i: nat, digests: Digests, n: nat, sys: System)
    requires n <= 8
  {
    Run(Fresh(workers), NameMoves(i)[..n], digests) == sys
  }

  lemma NextMove(workers: seq<Worker>, i: nat, digests: Digests, n: nat, before: System)
    requires n < 8 && At(workers, i, digests, n, before)
    ensures At(workers, i, digests, n + 1, Step(before, NameMoves(i)[n], digests))
  {
    hide Step;
    var moves := NameMoves(i);
    assert |moves| == 8;
    hide NameMoves;
    assert moves[..n + 1][..n] == moves[..n] && moves[..n + 1][n] == moves[n];
  }

  lemma WorkerMoves(workers: seq<Worker>, i: nat, digests: Digests, timed: Timed, before: Store, doing: Doing,
                    after: Store, next: Doing)
    requires i < |workers| && !timed.move.Ingest? && !timed.move.Close? && timed.move.worker == i
    requires WorkerStep(before, Worker(workers[i].name, doing), timed) == (after, next)
    ensures Step(NameSystem(workers, i, before, doing), timed, digests) == NameSystem(workers, i, after, next)
  {
    hide WorkerStep;
    var system := NameSystem(workers, i, before, doing);
    assert system.workers[i] == Worker(workers[i].name, doing);
    assert system.workers[i := Worker(workers[i].name, next)] == workers[i := Worker(workers[i].name, next)];
  }

  lemma ToQueued(workers: seq<Worker>, i: nat, digests: Digests)
    requires Starting(workers) && i < |workers|
    ensures At(workers, i, digests, 1, NameSystem(workers, i, NameStore(digests, workers[i].name, 1), Idle))
  {
    Ingested(digests, workers[i].name);
    hide Enqueue;
    hide NameStore;
    assert NameMoves(i)[..0] == [] && workers[i := workers[i].(doing := Idle)] == workers;
    assert At(workers, i, digests, 0, Fresh(workers));
    hide At;
    NextMove(workers, i, digests, 0, Fresh(workers));
  }

  lemma ToFirstCapture(workers: seq<Worker>, i: nat, digests: Digests)
    requires Starting(workers) && i < |workers|
    ensures At(workers, i, digests, 3, NameSystem(workers, i, NameStore(digests, workers[i].name, 3), Ready))
  {
    hide At;
    hide ClaimCapture;
    hide RecordCapture;
    hide NameStore;
    hide Stale.TheJob;
    var name, job := workers[i].name, Stale.TheJob(digests);
    var one, two, three := NameStore(digests, name, 1), NameStore(digests, name, 2), NameStore(digests, name, 3);
    var claim := CaptureClaim(job, 1);
    ToQueued(workers, i, digests);
    FirstCaptured(digests, name);
    NextMove(workers, i, digests, 1, NameSystem(workers, i, one, Idle));
    WorkerMoves(workers, i, digests, Timed(StartTick(i, true), 0), one, Idle, two, Capturing(claim));
    Recorded(digests, name);
    NextMove(workers, i, digests, 2, NameSystem(workers, i, two, Capturing(claim)));
    WorkerMoves(workers, i, digests, Timed(Record(i, true, true), 0), two, Capturing(claim), three, Ready);
  }

  lemma ToLapse(workers: seq<Worker>, i: nat, digests: Digests)
    requires Starting(workers) && i < |workers| && LooksLikeCapture(workers[i].name)
    ensures At(workers, i, digests, 6, NameSystem(workers, i, NameStore(digests, workers[i].name, 5), Ready))
  {
    var name, job := workers[i].name, Stale.TheJob(digests);
    ToFirstCapture(workers, i, digests);
    ClaimedLoosely(digests, name);
    TakenForCapture(digests, name);
    hide ClaimCapture;
    hide ClaimNext;
    hide NameStore;
    hide LooksLikeCapture;
    hide At;
    var three, four, five := NameStore(digests, name, 3), NameStore(digests, name, 4), NameStore(digests, name, 5);
    NextMove(workers, i, digests, 3, NameSystem(workers, i, three, Ready));
    WorkerMoves(workers, i, digests, Timed(Claim(i, None), 0), three, Ready, four, Holding(job));
    NextMove(workers, i, digests, 4, NameSystem(workers, i, four, Holding(job)));
    WorkerMoves(workers, i, digests, Timed(Crash(i), 0), four, Holding(job), four, Idle);
    NextMove(workers, i, digests, 5, NameSystem(workers, i, four, Idle));
    WorkerMoves(workers, i, digests, Timed(StartTick(i, true), LATE), four, Idle, five, Ready);
  }

  lemma ToSecondCapture(workers: seq<Worker>, i: nat, digests: Digests)
    requires Starting(workers) && i < |workers| && LooksLikeCapture(workers[i].name)
    ensures Run(Fresh(workers), NameMoves(i), digests).store == NameStore(digests, workers[i].name, 6)
  {
    var name, job := workers[i].name, Stale.TheJob(digests);
    ToLapse(workers, i, digests);
    CapturedAgain(digests, name);
    hide ClaimCapture;
    hide NameStore;
    hide LooksLikeCapture;
    var five, six := NameStore(digests, name, 5), NameStore(digests, name, 6);
    NextMove(workers, i, digests, 6, NameSystem(workers, i, five, Ready));
    WorkerMoves(workers, i, digests, Timed(Crash(i), LATE), five, Ready, five, Idle);
    NextMove(workers, i, digests, 7, NameSystem(workers, i, five, Idle));
    WorkerMoves(workers, i, digests, Timed(StartTick(i, true), LATER), five, Idle, six, Capturing(CaptureClaim(job, 5)));
    assert NameMoves(i)[..8] == NameMoves(i);
  }

  // ------------------------------------------------------ what it breaks

  lemma CountsOfRows(id: nat, name: string, wanted: StatusRow -> bool)
    ensures var rows := NameRows(id, name);
            Count(rows[..5], wanted) ==
              (if wanted(rows[0]) then 1 else 0) + (if wanted(rows[1]) then 1 else 0) +
              (if wanted(rows[2]) then 1 else 0) + (if wanted(rows[3]) then 1 else 0) +
              (if wanted(rows[4]) then 1 else 0)
  {
    var rows := NameRows(id, name);
    assert |rows| == 6;
    hide NameRows;
    assert Count(rows[..0], wanted) == 0;
    hide Count;
    forall n | 0 <= n < 5 ensures rows[..n + 1] == rows[..n] + [rows[n]] {}
    assert rows[..1] == rows[..0 + 1] && rows[..2] == rows[..1 + 1] && rows[..3] == rows[..2 + 1];
    assert rows[..4] == rows[..3 + 1] && rows[..5] == rows[..4 + 1];
    CountSnoc(rows[..0], rows[0], wanted);
    CountSnoc(rows[..1], rows[1], wanted);
    CountSnoc(rows[..2], rows[2], wanted);
    CountSnoc(rows[..3], rows[3], wanted);
    CountSnoc(rows[..4], rows[4], wanted);
  }

  lemma RowsAreUnaccounted(id: nat, name: string)
    ensures !Accounted(NameRows(id, name)[..5])
  {
    CountsOfRows(id, name, CaptureClaimed);
    CountsOfRows(id, name, Lapsed);
    CountsOfRows(id, name, CapturedRow);
    hide Count;
    hide PhaseOf;
    hide FailedCaptures;
  }

  lemma StoreBreaksProtocol(digests: Digests, name: string)
    ensures var s, id := NameStore(digests, name, 5), Stale.TheJob(digests).id;
            Known(s.jobs, id) && !CaptureProtocol(s, id) && !Accounted(RowsOf(s.history, id))
  {
    var s, id := NameStore(digests, name, 5), Stale.TheJob(digests).id;
    RowsSoFar(id, name, 5);
    RowsAreUnaccounted(id, name);
    hide RowsOf;
    hide Accounted;
    assert s.jobs[0].id == id;
    assert RowsOf(s.history, id)[2].status.Captured? && RowsOf(s.history, id)[4].status.PendingCapture?;
  }

  /** A capture-like name among the workers does get there, by a run from the empty store. */
  lemma CaptureNameBreaks(workers: seq<Worker>, i: nat, digests: Digests)
    requires Starting(workers) && i < |workers| && LooksLikeCapture(workers[i].name)
    ensures var s, id := Run(Fresh(workers), NameMoves(i)[..6], digests).store, Stale.TheJob(digests).id;
            Known(s.jobs, id) && !CaptureProtocol(s, id) && !Accounted(RowsOf(s.history, id))
    ensures RecordCapture(Run(Fresh(workers), NameMoves(i), digests).store, Stale.TheJob(digests).id, true, LATER,
                          workers[i].name, 5) == Err(Constraint)
  {
    ToLapse(workers, i, digests);
    StoreBreaksProtocol(digests, workers[i].name);
    ToSecondCapture(workers, i, digests);
    RecordedTwice(digests, workers[i].name);
    hide Run;
    hide CaptureProtocol;
    hide Accounted;
    hide Known;
    hide NameStore;
    hide RecordCapture;
    hide LooksLikeCapture;
  }

  /** In every run of these workers every job obeys the capture protocol. */
  ghost predicate AllFenced(workers: seq<Worker>, digests: Digests) {
    forall moves, id | Known(Run(Fresh(workers), moves, digests).store.jobs, id) ::
      CaptureProtocol(Run(Fresh(workers), moves, digests).store, id)
  }

  /** In every run of these workers the claims of every job are accounted for. */
  ghost predicate AllAccounted(workers: seq<Worker>, digests: Digests) {
    forall moves, id | Known(Run(Fresh(workers), moves, digests).store.jobs, id) ::
      Accounted(RowsOf(Run(Fresh(workers), moves, digests).store.history, id))
  }

  /** In no run of these workers does the UNIQUE constraint of the capture table fire. */
  ghost predicate NeverConstrained(workers: seq<Worker>, digests: Digests) {
    forall moves, id, valid, at, worker, token ::
      RecordCapture(Run(Fresh(workers), moves, digests).store, id, valid, at, worker, token) != Err(Constraint)
  }

  lemma OrdinaryNamesSuffice(workers: seq<Worker>, digests: Digests)
    requires Starting(workers) && OrdinaryNames(workers)
    ensures AllFenced(workers, digests) && AllAccounted(workers, digests) && NeverConstrained(workers, digests)
  {
    hide Run;
    hide RecordCapture;
    hide CaptureProtocol;
    hide Accounted;
    hide Known;
    hide NoLooseClaim;
    hide OrdinaryNames;
    hide RowsOf;
    forall moves, id | Known(Run(Fresh(workers), moves, digests).store.jobs, id)
      ensures CaptureProtocol(Run(Fresh(workers), moves, digests).store, id)
      ensures Accounted(RowsOf(Run(Fresh(workers), moves, digests).store.history, id))
    {
      OrdinaryNamesAreFenced(workers, moves, digests, id, true, 0, "", 0);
      CapturesAreFenced(workers, moves, digests, id);
      LapsesAreAccounted(workers, moves, digests, id);
    }
    forall moves, id, valid, at, worker, token
      ensures RecordCapture(Run(Fresh(workers), moves, digests).store, id, valid, at, worker, token) != Err(Constraint)
    {
      OrdinaryNamesAreFenced(workers, moves, digests, id, valid, at, worker, token);
    }
  }

  /** Whatever workers start, each of the three holds of all their runs exactly when none of them
      has a name that reads like a capture owner. */
  lemma FencedIffOrdinary(workers: seq<Worker>, digests: Digests)
    requires Starting(workers)
    ensures AllFenced(workers, digests) <==> OrdinaryNames(workers)
    ensures AllAccounted(workers, digests) <==> OrdinaryNames(workers)
    ensures NeverConstrained(workers, digests) <==> OrdinaryNames(workers)
  {
    hide Run;
    hide RecordCapture;
    hide CaptureProtocol;
    hide Accounted;
    hide Known;
    hide LooksLikeCapture;
    if OrdinaryNames(workers) {
      OrdinaryNamesSuffice(workers, digests);
    } else {
      var i :| 0 <= i < |workers| && LooksLikeCapture(workers[i].name);
      CaptureNameBreaks(workers, i, digests);
    }
  }
}
