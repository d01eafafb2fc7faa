/**
 What holds of every run of the durable store under ticking workers
 (project_a_analysis/store.py and worker.py).
 */
module AnalysisGuarantees {
  import opened Outcomes
  import opened AnalysisSteps
  import opened AnalysisRuns

  // ------------------------------------------------------ jobs and results

  /** The results of a list of jobs are those of a prefix. */
  predicate Prefix(jobs: seq<Job>, results: seq<Analysis>, k: nat) {
    k <= |jobs| && forall i | 0 <= i < |jobs| :: HasResult(results, jobs[i].id) <==> i < k
  }

  lemma {:induction false} PrefixExists(jobs: seq<Job>, results: seq<Analysis>)
    requires forall i, j | 0 <= i < j < |jobs| && HasResult(results, jobs[j].id) :: HasResult(results, jobs[i].id)
    ensures exists k: nat :: Prefix(jobs, results, k)
  {
    hide HasResult;
    if jobs == [] {
      assert Prefix(jobs, results, 0);
    } else {
      var front := jobs[..|jobs| - 1];
      PrefixExists(front, results);
      var k: nat :| Prefix(front, results, k);
      assert forall i | 0 <= i < |front| :: front[i] == jobs[i];
      if HasResult(results, jobs[|jobs| - 1].id) {
        assert Prefix(jobs, results, |jobs|);
      } else {
        assert Prefix(jobs, results, k);
      }
    }
  }

  /** In every run, each story's jobs are numbered 0..n without gap or repeat, and those that hold
      results are exactly a prefix of them. */
  lemma ResultsComeInOrder(workers: seq<Worker>, moves: seq<Timed>, digests: Digests, story: nat)
    requires Starting(workers)
    ensures var s := Run(Fresh(workers), moves, digests).store;
            (forall i | 0 <= i < |JobsOf(s.jobs, story)| :: JobsOf(s.jobs, story)[i].e1 == i) &&
            exists k: nat :: Prefix(JobsOf(s.jobs, story), s.results, k)
  {
    RunKeepsInv(workers, moves, digests);
    var s := Run(Fresh(workers), moves, digests).store;
    hide Run;
    var ofStory := JobsOf(s.jobs, story);
    assert Numbered(ofStory);
    forall i, j | 0 <= i < j < |ofStory| && HasResult(s.results, ofStory[j].id)
      ensures HasResult(s.results, ofStory[i].id)
    {
      InJobsOf(s.jobs, story, ofStory[i]);
      InJobsOf(s.jobs, story, ofStory[j]);
      assert EarlierDone(s.jobs, s.results, ofStory[j]);
    }
    PrefixExists(ofStory, s.results);
  }

  /** No worker, however stale, ever meets the monotonicity guard, and the capture of a job it
      holds is there to be loaded. */
  lemma GuardIsNeverMet(workers: seq<Worker>, moves: seq<Timed>, digests: Digests, n: nat, valid: bool, grade: string,
                        at: int)
    requires Starting(workers) && n < |Run(Fresh(workers), moves, digests).workers|
    requires var w := Run(Fresh(workers), moves, digests).workers[n]; w.doing.Holding? || w.doing.Attempted?
    ensures var sys := Run(Fresh(workers), moves, digests);
            Complete(sys.store, sys.workers[n].doing.job, valid, grade, at) != Err(Monotonicity) &&
            HasCapture(sys.store.captures, sys.workers[n].doing.job.id)
  {
    RunKeepsInv(workers, moves, digests);
    var sys := Run(Fresh(workers), moves, digests);
    hide Run;
    assert StoreInv(sys.store) && HoldsRightly(sys.store, sys.workers[n]);
    hide StoreInv;
    hide Complete;
    CompleteKeeps(sys.store, sys.workers[n].doing.job, valid, grade, at);
    ClaimedPhase(sys.store, sys.workers[n].doing.job);
  }

  /** Without the claim the guard is met: completing job 1 of a story before job 0. */
  lemma UnclaimedCompletionMeetsGuard(s: Store, first: Job, second: Job, grade: string, at: int)
    requires first.story == second.story && first.e1 < second.e1 && first.id != second.id
    requires Requested(s.attempts, first.id).Some? && Requested(s.attempts, second.id).Some?
    requires s.results == [] && s.states == []
    ensures var r := Complete(s, second, true, grade, at);
            r.Ok? && Complete(r.value, first, true, grade, at) == Err(Monotonicity)
  {
    hide Requested;
    hide StatesOf;
    var row := ActiveRow(None, second, grade, at);
    NoStates(second.story);
    var r := Complete(s, second, true, grade, at).value;
    assert r.results == [] + [Analysis(second.id, second.story, second.parent, at, grade)];
    HasResultSnoc([], Analysis(second.id, second.story, second.parent, at, grade), first.id);
    hide HasResult;
    assert r.states == [] + [row];
    StatesOfSnoc([], row, first.story);
    assert [] + [row] == [row];
    assert PreviousState(r.states, first.story) == Some(row);
    hide PreviousState;
    hide StoryClosed;
  }

  lemma NoStates(story: nat)
    ensures StatesOf([], story) == [] && !StoryClosed([], story) && PreviousState([], story) == None
  {
  }

  // ------------------------------------------------------ stories

  /** In every run a story has at most one CLOSED row and it is the last; counts strictly grow
      over the ACTIVE rows; and from the baseline's row on, every row carries the big picture and
      the analysis that the baseline established. */
  lemma StoriesAreOrderly(workers: seq<Worker>, moves: seq<Timed>, digests: Digests, story: nat)
    requires Starting(workers)
    ensures var s := Run(Fresh(workers), moves, digests).store;
            var rows, jobs := StatesOf(s.states, story), JobsOf(s.jobs, story);
            (forall i, k | 0 <= i < k < |rows| ::
               !rows[i].Closed() && rows[i].e1 <= rows[k].e1 && (!rows[k].Closed() ==> rows[i].e1 < rows[k].e1)) &&
            (rows != [] && !rows[0].Closed() ==>
               jobs != [] && rows[0].e1 == 0 && rows[0].grade.Some? &&
               forall i | 0 <= i < |rows| ::
                 rows[i].bigPicture == Established(jobs[0].id, rows[0].grade.value) &&
                 rows[i].baseline == Some(jobs[0].id))
  {
    RunKeepsInv(workers, moves, digests);
    var s := Run(Fresh(workers), moves, digests).store;
    assert StoryShape(JobsOf(s.jobs, story), s.results, StatesOf(s.states, story));
    hide Run;
    hide StoreInv;
    OrderlyRows(JobsOf(s.jobs, story), s.results, StatesOf(s.states, story));
  }

  lemma OrderlyRows(jobs: seq<Job>, results: seq<Analysis>, rows: seq<StateRow>)
    requires StoryShape(jobs, results, rows)
    ensures forall i, k | 0 <= i < k < |rows| ::
              !rows[i].Closed() && rows[i].e1 <= rows[k].e1 && (!rows[k].Closed() ==> rows[i].e1 < rows[k].e1)
    ensures rows != [] && !rows[0].Closed() ==>
              jobs != [] && rows[0].e1 == 0 && rows[0].grade.Some? &&
              forall i | 0 <= i < |rows| ::
                rows[i].bigPicture == Established(jobs[0].id, rows[0].grade.value) &&
                rows[i].baseline == Some(jobs[0].id)
  {
    hide HasResult;
    var active := ActiveCount(rows);
    forall i | 0 <= i < active
      ensures jobs != [] && !rows[i].Closed() && rows[i].e1 == i && rows[0].grade.Some? &&
              rows[i].bigPicture == Established(jobs[0].id, rows[0].grade.value) && rows[i].baseline == Some(jobs[0].id)
    {
      assert ActiveRowOk(jobs, results, rows, i);
    }
    hide ActiveRowOk;
    assert 0 < active < |rows| ==> rows[|rows| - 1].e1 == rows[active - 1].e1;
  }

  /** Parent links stay in the story, point to finished analyses and go strictly down. */
  lemma ParentsGoDown(workers: seq<Worker>, moves: seq<Timed>, digests: Digests, job: Job)
    requires Starting(workers) && job in Run(Fresh(workers), moves, digests).store.jobs && job.parent.Some?
    ensures var s := Run(Fresh(workers), moves, digests).store;
            HasResult(s.results, job.parent.value) &&
            exists parent :: parent in s.jobs && parent.id == job.parent.value && parent.story == job.story &&
                             parent.e1 < job.e1
  {
    RunKeepsInv(workers, moves, digests);
    var s := Run(Fresh(workers), moves, digests).store;
    hide Run;
    assert ParentOk(s.jobs, s.results, job);
    var i :| 0 <= i < |s.jobs| && s.jobs[i].id == job.parent.value && s.jobs[i].story == job.story &&
             s.jobs[i].e1 < job.e1;
    assert s.jobs[i] in s.jobs;
  }

  // ------------------------------------------------------ capture leases

  predicate CaptureClaimed(row: StatusRow) {
    row.status.Claimed? && row.owner.Some? && row.owner.value.CaptureLease?
  }

  /** A row that ends a capture lease: captured, to be retried, or given up. */
  predicate LeaseEnd(row: StatusRow) {
    row.status.Captured? || (row.status.PendingCapture? && row.failure.Some?) || row.failure == Some(RetryExhausted)
  }

  /** A failure a worker reported, as against a lease that ran out. */
  predicate Reported(row: StatusRow) {
    row.failure == Some(RetryExhausted) || (row.failure.Some? && row.failure.value.CaptureFailed?)
  }

  /** A history on which the capture protocol is obeyed. */
  predicate Fenced(phase: Phase) { Regular(phase) && !phase.Loose? }

  lemma PrefixFenced(rows: seq<StatusRow>, n: nat)
    requires Fenced(PhaseOf(rows)) && 0 < n <= |rows|
    ensures Fenced(PhaseOf(rows[..n]))
    decreases |rows|
  {
    if n < |rows| {
      var front := rows[..|rows| - 1];
      assert front[..n] == rows[..n];
      PrefixFenced(front, n);
    } else {
      assert rows[..n] == rows;
    }
  }

  lemma StepAt(rows: seq<StatusRow>, n: nat)
    requires Fenced(PhaseOf(rows)) && n < |rows|
    ensures PhaseOf(rows[..n + 1]) == Next(PhaseOf(rows[..n]), rows[n]) && Fenced(PhaseOf(rows[..n + 1]))
    ensures n > 0 ==> Fenced(PhaseOf(rows[..n]))
  {
    PrefixFenced(rows, n + 1);
    if n > 0 {
      PrefixFenced(rows, n);
    }
    assert rows[..n + 1] == rows[..n] + [rows[n]];
    PhaseSnoc(rows[..n], rows[n]);
  }

  /** Claims and their ends alternate: the row after a capture claim ends it, and every end comes
      right after its claim. */
  lemma EachClaimEndsOnce(rows: seq<StatusRow>, n: nat)
    requires Fenced(PhaseOf(rows)) && n + 1 < |rows|
    ensures CaptureClaimed(rows[n]) <==> LeaseEnd(rows[n + 1])
  {
    StepAt(rows, n);
    StepAt(rows, n + 1);
    hide PhaseOf;
    hide Delay;
  }

  lemma {:induction false} DoneStays(rows: seq<StatusRow>, i: nat, k: nat)
    requires Fenced(PhaseOf(rows)) && i < k <= |rows| && rows[i].status.Captured?
    ensures PhaseOf(rows[..k]).Done?
    decreases k
  {
    StepAt(rows, k - 1);
    if i < k - 1 {
      DoneStays(rows, i, k - 1);
    }
  }

  /** After CAPTURED nothing of the capture protocol is ever recorded again. */
  lemma CapturedIsFinal(rows: seq<StatusRow>, i: nat, k: nat)
    requires Fenced(PhaseOf(rows)) && i < k < |rows| && rows[i].status.Captured?
    ensures !rows[k].status.Captured? && !rows[k].status.PendingCapture? && !CaptureClaimed(rows[k]) &&
            !LeaseEnd(rows[k])
  {
    DoneStays(rows, i, k);
    StepAt(rows, k);
    hide PhaseOf;
  }

  function Spent(phase: Phase): nat { if phase.Exhausted? then MAXIMUM_CAPTURES else Failures(phase) }

  /** Failures reported for one job never exceed the maximum. */
  lemma {:induction false} ReportsAreBounded(rows: seq<StatusRow>)
    requires Fenced(PhaseOf(rows))
    ensures |Keep(rows, Reported)| <= MAXIMUM_CAPTURES
    ensures !PhaseOf(rows).Done? ==> |Keep(rows, Reported)| <= Spent(PhaseOf(rows))
    ensures !PhaseOf(rows).Exhausted? ==> |Keep(rows, Reported)| < MAXIMUM_CAPTURES
  {
    var front, last := rows[..|rows| - 1], rows[|rows| - 1];
    assert rows == front + [last];
    KeepSnoc(front, last, Reported);
    if front != [] {
      ReportsAreBounded(front);
    }
    hide Delay;
  }

  lemma DelayBounds(attempts: nat)
    requires attempts > 0
    ensures 30 <= Delay(attempts) <= 900
  {
  }

  lemma {:induction false} DelayGrows(a: nat, b: nat)
    requires 0 < a <= b
    ensures Delay(a) <= Delay(b)
    decreases b
  {
    if a < b {
      DelayGrows(a, b - 1);
      assert Pow2(b - 1) == 2 * Pow2(b - 2);
    }
  }

  predicate Retry(row: StatusRow) { row.failure.Some? && row.failure.value.CaptureFailed? }

  lemma RetryDelay(rows: seq<StatusRow>, n: nat)
    requires Fenced(PhaseOf(rows)) && n < |rows| && Retry(rows[n])
    ensures PhaseOf(rows[..n + 1]).Waiting? && PhaseOf(rows[..n + 1]).failures > 0
    ensures rows[n].lease == Some(rows[n].at + 1000 * Delay(PhaseOf(rows[..n + 1]).failures))
  {
    StepAt(rows, n);
    hide PhaseOf;
    hide Delay;
    RetryNext(PhaseOf(rows[..n]), rows[n]);
    hide Next;
  }

  lemma RetryNext(phase: Phase, row: StatusRow)
    requires Fenced(Next(phase, row)) && Retry(row)
    ensures Next(phase, row).Waiting? && Next(phase, row).failures > 0
    ensures row.lease == Some(row.at + 1000 * Delay(Next(phase, row).failures))
  {
    hide Delay;
  }

  lemma {:induction false} FailuresGrow(rows: seq<StatusRow>, i: nat, k: nat)
    requires Fenced(PhaseOf(rows)) && 0 < i <= k <= |rows|
    ensures PhaseOf(rows[..k]).Waiting? || PhaseOf(rows[..k]).Leased? ==>
              (PhaseOf(rows[..i]).Waiting? || PhaseOf(rows[..i]).Leased?) &&
              Failures(PhaseOf(rows[..i])) <= Failures(PhaseOf(rows[..k]))
    decreases k
  {
    StepAt(rows, k - 1);
    if i < k {
      FailuresGrow(rows, i, k - 1);
    }
    hide PhaseOf;
    hide Delay;
  }

  /** The waits that reported failures impose never get shorter, and stay within 30..900 s. */
  lemma RetryDelaysGrow(rows: seq<StatusRow>, i: nat, k: nat)
    requires Fenced(PhaseOf(rows)) && i <= k < |rows| && Retry(rows[i]) && Retry(rows[k])
    ensures rows[i].lease.Some? && rows[k].lease.Some?
    ensures 30_000 <= rows[i].lease.value - rows[i].at <= rows[k].lease.value - rows[k].at <= 900_000
  {
    RetryDelay(rows, i);
    RetryDelay(rows, k);
    FailuresGrow(rows, i + 1, k + 1);
    var a, b := PhaseOf(rows[..i + 1]).failures, PhaseOf(rows[..k + 1]).failures;
    DelayBounds(a);
    DelayBounds(b);
    DelayGrows(a, b);
    hide Delay;
    hide PhaseOf;
  }

  /** No claim of the job for analysis was made under a name that reads like a capture owner. */
  predicate NoLooseClaim(rows: seq<StatusRow>) { forall row | row in rows :: !LooseClaim(row) }

  lemma JobFenced(s: Store, id: nat)
    requires StoreInv(s) && Known(s.jobs, id) && NoLooseClaim(RowsOf(s.history, id))
    ensures Fenced(PhaseOf(RowsOf(s.history, id)))
    ensures PhaseOf(RowsOf(s.history, id)).Done? <==> HasCapture(s.captures, id)
    ensures forall i, k | 0 <= i < k < |s.captures| :: s.captures[i].job != s.captures[k].job
  {
    assert CapturesInv(s.jobs, s.history, s.captures);
    hide StoreInv;
    JobPhase(s.jobs, s.history, s.captures, id);
    if PhaseOf(RowsOf(s.history, id)).Loose? {
      var row := LooseHasClaim(RowsOf(s.history, id));
    }
    hide PhaseOf;
    hide RowsOf;
    hide LooseClaim;
  }

  lemma StepClaimsPlainly(sys: System, timed: Timed, digests: Digests)
    requires OrdinaryNames(sys.workers)
    ensures OrdinaryNames(Step(sys, timed, digests).workers)
    ensures var before, history := sys.store.history, Step(sys, timed, digests).store.history;
            history == before ||
            (|history| == |before| + 1 && history[..|before|] == before && !LooseClaim(history[|before|]))
  {
    hide LooksLikeCapture;
    hide Latest;
    hide First;
    hide HoldsLease;
    hide Known;
    hide StoryClosed;
    hide HasResult;
    hide HasCapture;
    hide ActiveRow;
    hide PreviousState;
    hide Requested;
    hide ActiveStory;
    hide LatestResult;
    hide BaselineJob;
    hide MaxE1;
    hide JobClashes;
    hide StoryClashes;
    hide FailedCaptures;
    hide Delay;
  }

  /** Workers with ordinary names never make such a claim. */
  lemma {:induction false} OrdinaryNamesClaimPlainly(workers: seq<Worker>, moves: seq<Timed>, digests: Digests)
    requires OrdinaryNames(workers)
    ensures OrdinaryNames(Run(Fresh(workers), moves, digests).workers)
    ensures NoLooseClaim(Run(Fresh(workers), moves, digests).store.history)
    decreases |moves|
  {
    hide Step;
    hide OrdinaryNames;
    hide LooseClaim;
    if moves != [] {
      var before := Run(Fresh(workers), moves[..|moves| - 1], digests);
      OrdinaryNamesClaimPlainly(workers, moves[..|moves| - 1], digests);
      StepClaimsPlainly(before, moves[|moves| - 1], digests);
      var history := Step(before, moves[|moves| - 1], digests).store.history;
      if history != before.store.history {
        assert history == before.store.history + [history[|before.store.history|]];
      }
    }
  }

  lemma PlainRows(history: seq<StatusRow>, id: nat)
    requires NoLooseClaim(history)
    ensures NoLooseClaim(RowsOf(history, id))
  {
    hide LooseClaim;
    forall row | row in RowsOf(history, id) ensures row in history {
      KeepFinds(history, (r: StatusRow) => r.job == id, row);
    }
  }

  /** With ordinary worker names the premise of the capture guarantees holds for every job of every
      run, and the UNIQUE constraint of the capture table never fires. */
  lemma OrdinaryNamesAreFenced(workers: seq<Worker>, moves: seq<Timed>, digests: Digests, id: nat, valid: bool, at: int,
                               worker: string, token: nat)
    requires Starting(workers) && OrdinaryNames(workers)
    ensures var s := Run(Fresh(workers), moves, digests).store;
            NoLooseClaim(RowsOf(s.history, id)) &&
            RecordCapture(s, id, valid, at, worker, token) != Err(Constraint)
  {
    OrdinaryNamesClaimPlainly(workers, moves, digests);
    RunKeepsInv(workers, moves, digests);
    var s := Run(Fresh(workers), moves, digests).store;
    hide Run;
    assert StoreInv(s);
    hide StoreInv;
    PlainRows(s.history, id);
    RecordCaptureKeeps(s, id, valid, at, worker, token);
    hide RecordCapture;
    hide LooseClaim;
  }

  /** A job's status rows obey the capture protocol: each claim has at most one end, nothing of it
      follows CAPTURED, the capture table has one row for a CAPTURED job and none for another, and
      at most five failures are reported, at growing intervals. */
  predicate CaptureProtocol(s: Store, id: nat) {
    var rows := RowsOf(s.history, id);
    (forall n | 0 <= n && n + 1 < |rows| :: CaptureClaimed(rows[n]) <==> LeaseEnd(rows[n + 1])) &&
    (forall i, k | 0 <= i < k < |rows| && rows[i].status.Captured? ::
       !rows[k].status.Captured? && !rows[k].status.PendingCapture? && !CaptureClaimed(rows[k])) &&
    (HasCapture(s.captures, id) <==> exists i :: 0 <= i < |rows| && rows[i].status.Captured?) &&
    (forall i, k | 0 <= i < k < |s.captures| :: s.captures[i].job != s.captures[k].job) &&
    |Keep(rows, Reported)| <= MAXIMUM_CAPTURES &&
    (forall i, k | 0 <= i <= k < |rows| && Retry(rows[i]) && Retry(rows[k]) ::
       rows[i].lease.Some? && rows[k].lease.Some? &&
       30_000 <= rows[i].lease.value - rows[i].at <= rows[k].lease.value - rows[k].at <= 900_000)
  }

  /** In every run, every job that was not claimed for analysis under a capture-like name obeys it. */
  lemma CapturesAreFenced(workers: seq<Worker>, moves: seq<Timed>, digests: Digests, id: nat)
    requires Starting(workers) && Known(Run(Fresh(workers), moves, digests).store.jobs, id)
    requires NoLooseClaim(RowsOf(Run(Fresh(workers), moves, digests).store.history, id))
    ensures CaptureProtocol(Run(Fresh(workers), moves, digests).store, id)
  {
    RunKeepsInv(workers, moves, digests);
    var s := Run(Fresh(workers), moves, digests).store;
    hide Run;
    JobFenced(s, id);
    hide StoreInv;
    var rows := RowsOf(s.history, id);
    ReportsAreBounded(rows);
    DoneIffCaptured(rows);
    hide RowsOf;
    hide PhaseOf;
    forall n | 0 <= n && n + 1 < |rows| {
      EachClaimEndsOnce(rows, n);
    }
    forall i, k | 0 <= i < k < |rows| && rows[i].status.Captured? {
      CapturedIsFinal(rows, i, k);
    }
    forall i, k | 0 <= i <= k < |rows| && Retry(rows[i]) && Retry(rows[k]) {
      RetryDelaysGrow(rows, i, k);
    }
  }

  // ------------------------------------------------------ what lapses count for

  predicate Lapsed(row: StatusRow) { row.failure == Some(LeaseExpired) }

  predicate CapturedRow(row: StatusRow) { row.status.Captured? }

  function Count(rows: seq<StatusRow>, wanted: StatusRow -> bool): nat { |Keep(rows, wanted)| }

  lemma CountSnoc(rows: seq<StatusRow>, row: StatusRow, wanted: StatusRow -> bool)
    ensures Count(rows + [row], wanted) == Count(rows, wanted) + if wanted(row) then 1 else 0
  {
    KeepSnoc(rows, row, wanted);
  }

  /** Every capture claim is lapsed, reported failed, captured or still running. */
  lemma {:induction false} ClaimsAreAccounted(rows: seq<StatusRow>)
    requires Fenced(PhaseOf(rows))
    ensures Count(rows, CaptureClaimed) ==
            Count(rows, Lapsed) + Count(rows, Reported) + Count(rows, CapturedRow) +
            if PhaseOf(rows).Leased? then 1 else 0
  {
    var front, last := rows[..|rows| - 1], rows[|rows| - 1];
    assert rows == front + [last];
    CountSnoc(front, last, CaptureClaimed);
    CountSnoc(front, last, Lapsed);
    CountSnoc(front, last, Reported);
    CountSnoc(front, last, CapturedRow);
    hide Count;
    if front != [] {
      ClaimsAreAccounted(front);
    } else {
      NothingCounted();
    }
    hide Delay;
  }

  lemma NothingCounted()
    ensures Count([], CaptureClaimed) == Count([], Lapsed) == Count([], Reported) == Count([], CapturedRow) == 0
    ensures Count([], Retry) == FailedCaptures([]) == 0
  {
  }

  /** The failed attempts that the delay and the limit go by are the lapses and the retries. */
  lemma {:induction false} LapsesCountAsFailures(rows: seq<StatusRow>)
    requires Fenced(PhaseOf(rows))
    ensures FailedCaptures(rows) == Count(rows, Lapsed) + Count(rows, Retry)
  {
    var front, last := rows[..|rows| - 1], rows[|rows| - 1];
    assert rows == front + [last];
    CountSnoc(front, last, Lapsed);
    CountSnoc(front, last, Retry);
    KeepSnoc(front, last, (r: StatusRow) => r.status.PendingCapture? && r.failure.Some?);
    if front != [] {
      LapsesCountAsFailures(front);
    } else {
      NothingCounted();
    }
    hide Count;
    hide Delay;
  }

  /** Retries end with the fifth failed attempt, lapses counted, if that one is reported. */
  lemma ExhaustedAfter(rows: seq<StatusRow>, n: nat)
    requires Fenced(PhaseOf(rows)) && n < |rows| && rows[n].failure == Some(RetryExhausted)
    ensures Count(rows[..n], Lapsed) + Count(rows[..n], Retry) >= MAXIMUM_CAPTURES - 1
  {
    StepAt(rows, n);
    assert n > 0;
    LapsesCountAsFailures(rows[..n]);
    assert PhaseOf(rows[..n]).Leased?;
    FailuresAreCounted(rows[..n]);
    hide PhaseOf;
    hide FailedCaptures;
    hide Count;
    hide Delay;
  }

  /** Capture claims are the lapsed, the reported, the captured and the one that may be running;
      failed attempts are lapses and retries; and retries end only by a reported failure, once
      lapses and retries before it are at least four. */
  predicate Accounted(rows: seq<StatusRow>) {
    Count(rows, CaptureClaimed) ==
      Count(rows, Lapsed) + Count(rows, Reported) + Count(rows, CapturedRow) +
      (if PhaseOf(rows).Leased? then 1 else 0) &&
    FailedCaptures(rows) == Count(rows, Lapsed) + Count(rows, Retry) &&
    forall n | 0 <= n < |rows| && rows[n].failure == Some(RetryExhausted) ::
      Count(rows[..n], Lapsed) + Count(rows[..n], Retry) >= MAXIMUM_CAPTURES - 1
  }

  /** In every run, so it is for every job as above. */
  lemma LapsesAreAccounted(workers: seq<Worker>, moves: seq<Timed>, digests: Digests, id: nat)
    requires Starting(workers) && Known(Run(Fresh(workers), moves, digests).store.jobs, id)
    requires NoLooseClaim(RowsOf(Run(Fresh(workers), moves, digests).store.history, id))
    ensures Accounted(RowsOf(Run(Fresh(workers), moves, digests).store.history, id))
  {
    RunKeepsInv(workers, moves, digests);
    var s := Run(Fresh(workers), moves, digests).store;
    hide Run;
    JobFenced(s, id);
    hide StoreInv;
    var rows := RowsOf(s.history, id);
    ClaimsAreAccounted(rows);
    LapsesCountAsFailures(rows);
    hide Count;
    hide FailedCaptures;
    hide PhaseOf;
    hide RowsOf;
    forall n | 0 <= n < |rows| && rows[n].failure == Some(RetryExhausted)
      ensures Count(rows[..n], Lapsed) + Count(rows[..n], Retry) >= MAXIMUM_CAPTURES - 1
    {
      ExhaustedAfter(rows, n);
    }
  }

  lemma StepReportsNothing(sys: System, timed: Timed, digests: Digests)
    requires !timed.move.CaptureFails?
    ensures var before, history := sys.store.history, Step(sys, timed, digests).store.history;
            history == before ||
            (|history| == |before| + 1 && history[..|before|] == before && !Reported(history[|before|]))
  {
    hide Latest;
    hide First;
    hide HoldsLease;
    hide Known;
    hide StoryClosed;
    hide HasResult;
    hide HasCapture;
    hide ActiveRow;
    hide PreviousState;
    hide Requested;
    hide ActiveStory;
    hide LatestResult;
    hide BaselineJob;
    hide MaxE1;
    hide JobClashes;
    hide StoryClashes;
    hide CaptureFailureRow;
  }

  /** Lapsed leases alone never end the retries: in a run in which no capture failure is reported,
      no job is exhausted, however many leases lapse. */
  lemma {:induction false} LapsesNeverExhaust(workers: seq<Worker>, moves: seq<Timed>, digests: Digests)
    requires forall m | m in moves :: !m.move.CaptureFails?
    ensures forall row | row in Run(Fresh(workers), moves, digests).store.history :: row.failure != Some(RetryExhausted)
    ensures forall row | row in Run(Fresh(workers), moves, digests).store.history :: !Reported(row)
    decreases |moves|
  {
    hide Step;
    if moves != [] {
      var front, last := moves[..|moves| - 1], moves[|moves| - 1];
      assert last in moves;
      LapsesNeverExhaust(workers, front, digests);
      var before := Run(Fresh(workers), front, digests);
      StepReportsNothing(before, last, digests);
      var history := Step(before, last, digests).store.history;
      if history != before.store.history {
        assert history == before.store.history + [history[|before.store.history|]];
      }
    }
  }

  lemma {:induction false} DoneIffCaptured(rows: seq<StatusRow>)
    requires Fenced(PhaseOf(rows))
    ensures PhaseOf(rows).Done? <==> exists i :: 0 <= i < |rows| && rows[i].status.Captured?
  {
    var front, last := rows[..|rows| - 1], rows[|rows| - 1];
    if front != [] {
      DoneIffCaptured(front);
    }
    assert forall i | 0 <= i < |front| :: front[i] == rows[i];
    assert rows[|front|] == last;
    if PhaseOf(front).Done? {
      var i :| 0 <= i < |front| && front[i].status.Captured?;
      assert rows[i].status.Captured?;
    }
    hide Delay;
  }

  // ------------------------------------------------------ lease tokens

  /** The history only grows by single rows, and a capture claim's token is new with its row. */
  predicate OneRow(history: seq<StatusRow>, next: seq<StatusRow>) {
    next == history ||
    (|next| == |history| + 1 && next[..|history|] == history &&
     (CaptureClaimed(next[|history|]) ==> next[|history|].owner.value.token == |history|))
  }

  lemma WorkerAddsOneRow(s: Store, w: Worker, timed: Timed)
    ensures OneRow(s.history, WorkerStep(s, w, timed).0.history)
  {
    hide Latest;
    hide First;
    hide HoldsLease;
    hide Known;
    hide StoryClosed;
    hide HasResult;
    hide HasCapture;
    hide ActiveRow;
    hide PreviousState;
    hide Requested;
    hide Delay;
    hide FailedCaptures;
    hide RowsOf;
  }

  lemma TriggerAddsOneRow(s: Store, trigger: Trigger, at: int, digests: Digests)
    ensures OneRow(s.history, OrSame(s, Enqueue(s, trigger, at, digests)).history)
  {
    hide ActiveStory;
    hide LatestResult;
    hide BaselineJob;
    hide MaxE1;
    hide JobClashes;
    hide StoryClashes;
  }

  lemma StepAddsOneRow(sys: System, timed: Timed, digests: Digests)
    ensures OneRow(sys.store.history, Step(sys, timed, digests).store.history)
  {
    hide WorkerStep;
    hide Enqueue;
    hide PreviousState;
    hide ClosedRow;
    hide CaptureClaimed;
    match timed.move
    case Ingest(trigger) => TriggerAddsOneRow(sys.store, trigger, timed.at, digests);
    case Close(_, _) =>
    case _ =>
      if timed.move.worker < |sys.workers| {
        WorkerAddsOneRow(sys.store, sys.workers[timed.move.worker], timed);
      }
  }

  ghost predicate TokensInv(history: seq<StatusRow>) {
    forall i | 0 <= i < |history| && CaptureClaimed(history[i]) :: history[i].owner.value.token == i
  }

  lemma OneRowKeepsTokens(history: seq<StatusRow>, next: seq<StatusRow>)
    requires TokensInv(history) && OneRow(history, next)
    ensures TokensInv(next)
  {
    if next != history {
      assert forall i | 0 <= i < |history| :: next[..|history|][i] == next[i];
    }
  }

  /** No two capture claims of a run carry the same token. */
  lemma {:induction false} TokensAreFresh(workers: seq<Worker>, moves: seq<Timed>, digests: Digests)
    ensures TokensInv(Run(Fresh(workers), moves, digests).store.history)
    decreases |moves|
  {
    hide Step;
    if moves != [] {
      var before := Run(Fresh(workers), moves[..|moves| - 1], digests);
      TokensAreFresh(workers, moves[..|moves| - 1], digests);
      StepAddsOneRow(before, moves[|moves| - 1], digests);
      OneRowKeepsTokens(before.store.history, Step(before, moves[|moves| - 1], digests).store.history);
    }
  }

  /** The job's latest row is the claim with this token. */
  predicate Holds(history: seq<StatusRow>, job: nat, worker: string, token: nat) {
    var latest := Latest(history, job);
    latest.Some? && latest.value.status.Claimed? && latest.value.owner == Some(CaptureLease(worker, token))
  }

  lemma LostStaysLost(history: seq<StatusRow>, next: seq<StatusRow>, job: nat, worker: string, token: nat)
    requires OneRow(history, next) && token < |history| && !Holds(history, job, worker, token)
    ensures !Holds(next, job, worker, token) && token < |next|
  {
    if next != history {
      assert next == history + [next[|history|]];
      RowsOfSnoc(history, next[|history|], job);
    }
  }

  lemma {:induction false} LostForever(sys: System, moves: seq<Timed>, digests: Digests, job: nat, worker: string,
                                       token: nat)
    requires token < |sys.store.history| && !Holds(sys.store.history, job, worker, token)
    ensures var history := Run(sys, moves, digests).store.history;
            token < |history| && !Holds(history, job, worker, token)
    decreases |moves|
  {
    hide Step;
    hide Holds;
    if moves != [] {
      var before := Run(sys, moves[..|moves| - 1], digests);
      LostForever(sys, moves[..|moves| - 1], digests, job, worker, token);
      StepAddsOneRow(before, moves[|moves| - 1], digests);
      LostStaysLost(before.store.history, Step(before, moves[|moves| - 1], digests).store.history, job, worker, token);
    }
  }

  /** Fencing: once a capture lease has been ended or taken over, its holder can never again
      record the capture or report a failure with it, at any clock reading. */
  lemma StaleHolderIsFenced(sys: System, moves: seq<Timed>, digests: Digests, job: nat, worker: string, token: nat,
                            valid: bool, code: string, maximum: int, at: int)
    requires token < |sys.store.history| && !Holds(sys.store.history, job, worker, token)
    ensures var s := Run(sys, moves, digests).store;
            RecordCapture(s, job, valid, at, worker, token).Err? &&
            CaptureFailure(s, job, at, worker, token, code, maximum).Err?
  {
    LostForever(sys, moves, digests, job, worker, token);
    hide Run;
    hide CaptureFailureRow;
  }

  // ------------------------------------------------------ provider attempts

  ghost predicate AttemptsInv(attempts: seq<Attempt>) {
    forall i, j | 0 <= i < j < |attempts| :: attempts[i].job != attempts[j].job
  }

  lemma {:induction false} RequestedFinds(attempts: seq<Attempt>, job: nat)
    ensures Requested(attempts, job).None? <==> forall i | 0 <= i < |attempts| :: attempts[i].job != job
  {
    FirstPicks(attempts, (a: Attempt) => a.job == job, (a: Attempt, b: Attempt) => a.startedAt > b.startedAt);
    assert forall i | 0 <= i < |attempts| :: attempts[i] in attempts;
  }

  lemma BeginKeepsAttempts(s: Store, job: Job, model: string, manifest: string, client: string, at: int)
    requires AttemptsInv(s.attempts) && BeginAttempt(s, job, model, manifest, client, at).Ok?
    ensures AttemptsInv(BeginAttempt(s, job, model, manifest, client, at).value.attempts)
  {
    RequestedFinds(s.attempts, job.id);
    hide Requested;
  }

  lemma StepKeepsAttempts(sys: System, timed: Timed, digests: Digests)
    requires AttemptsInv(sys.store.attempts)
    ensures AttemptsInv(Step(sys, timed, digests).store.attempts)
  {
    hide AttemptsInv;
    hide BeginAttempt;
    hide Latest;
    hide First;
    hide HoldsLease;
    hide Known;
    hide StoryClosed;
    hide HasResult;
    hide HasCapture;
    hide ActiveRow;
    hide PreviousState;
    hide Requested;
    hide ActiveStory;
    hide LatestResult;
    hide BaselineJob;
    hide MaxE1;
    hide JobClashes;
    hide StoryClashes;
    hide CaptureFailureRow;
    if timed.move.Begin? && timed.move.worker < |sys.workers| && sys.workers[timed.move.worker].doing.Holding? {
      var move, job := timed.move, sys.workers[timed.move.worker].doing.job;
      if BeginAttempt(sys.store, job, move.model, move.manifest, move.client, timed.at).Ok? {
        BeginKeepsAttempts(sys.store, job, move.model, move.manifest, move.client, timed.at);
      }
    }
  }

  /** However often a job is claimed, taken over and retried, the provider request of its one
      idempotency key is recorded once. */
  lemma {:induction false} OneAttemptPerJob(workers: seq<Worker>, moves: seq<Timed>, digests: Digests)
    ensures AttemptsInv(Run(Fresh(workers), moves, digests).store.attempts)
    decreases |moves|
  {
    hide Step;
    if moves != [] {
      OneAttemptPerJob(workers, moves[..|moves| - 1], digests);
      StepKeepsAttempts(Run(Fresh(workers), moves[..|moves| - 1], digests), moves[|moves| - 1], digests);
    }
  }
}
