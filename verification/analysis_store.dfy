/**
 The analysis store and the ingest trigger (project_a_analysis/store.py), as a class whose tables
 its methods append to. Each method takes the step of analysis_steps.dfy on the tables' contents;
 a method that raises leaves them as they were, because its transaction is rolled back.
 */
module AnalysisTables {
  import opened Outcomes
  import opened AnalysisSteps
  import R = AnalysisRuns

  function StoreAfter(before: Store, r: Result<Store, Failure>): Store {
    match r case Ok(next) => next case Err(_) => before
  }

  function Raised<T>(r: Result<T, Failure>): Option<Failure> {
    match r case Ok(_) => None case Err(e) => Some(e)
  }

  class AnalysisStore {
    const digests: Digests
    var stories: seq<Story>
    var jobs: seq<Job>
    var history: seq<StatusRow>
    var captures: seq<Capture>
    var attempts: seq<Attempt>
    var results: seq<Analysis>
    var states: seq<StateRow>
    var orphans: seq<string>

    constructor (digests: Digests)
      ensures State() == EMPTY_STORE && this.digests == digests
    {
      this.digests := digests;
      stories, jobs, history, captures, attempts, results, states, orphans := [], [], [], [], [], [], [], [];
    }

    function State(): Store
      reads this
    {
      Store(stories, jobs, history, captures, attempts, results, states, orphans)
    }

    method InsertStatus(job: nat, status: Status, at: int, owner: Option<Owner>, lease: Option<int>, failure: Option<Code>)
      modifies this`history
      ensures history == old(history) + [StatusRow(job, status, at, owner, lease, failure)]
    {
      history := history + [StatusRow(job, status, at, owner, lease, failure)];
    }

    /** The inserts that close `enqueue_analysis_trigger`. */
    method QueueJob(job: Job) returns (raised: Option<Failure>)
      modifies this`jobs, this`history
      ensures State() == StoreAfter(old(State()), Queue(old(State()), job)) && raised == Raised(Queue(old(State()), job))
    {
      if JobClashes(jobs, job) { return Some(Constraint); }
      jobs := jobs + [job];
      InsertStatus(job.id, PendingCapture, job.requestedAt, None, None, None);
      return None;
    }

    /** `enqueue_analysis_trigger`. */
    method EnqueueTrigger(trigger: Trigger, at: int) returns (raised: Option<Failure>)
      modifies this
      ensures var r := Enqueue(old(State()), trigger, at, digests);
              State() == StoreAfter(old(State()), r) && raised == Raised(r)
    {
      hide JobClashes;
      hide StoryClashes;
      if trigger.e1 {
        var story := ActiveStory(State(), trigger.sourceTime);
        if story.None? {
          if trigger.event !in orphans {
            orphans := orphans + [trigger.event];
          }
          return None;
        }
        var id := story.value.id;
        var e1 := MaxE1(jobs, id) + 1;
        var latest := LatestResult(State(), id);
        var parent := if latest.Some? then Some(latest.value.id) else None;
        var baseline := BaselineJob(jobs, id);
        if baseline.None? { return Some(NoBaseline); }
        if !baseline.value.suppliesDelta { return Some(NoDeltaReads); }
        raised := QueueJob(Job(digests.analysis(id, trigger.event, e1), id, trigger.event, parent, e1, at, false));
      } else {
        var id := digests.story(trigger.event, at);
        var story := Story(id, trigger.event, trigger.sourceTime, at);
        if StoryClashes(stories, story) { return Some(Constraint); }
        if !trigger.complete { return Some(MissingFacts); }
        var job := Job(digests.analysis(id, trigger.event, 0), id, trigger.event, None, 0, at, trigger.suppliesDelta);
        // The whole trigger is one transaction: a clash of the job undoes the story too.
        if JobClashes(jobs, job) { return Some(Constraint); }
        stories := stories + [story];
        raised := QueueJob(job);
      }
    }

    method ClaimCaptureJob(worker: string, at: int, leaseSeconds: int)
      returns (result: Result<Option<CaptureClaim>, Failure>)
      modifies this`history
      ensures match ClaimCapture(old(State()), worker, at, leaseSeconds)
              case Ok(r) => State() == r.0 && result == Ok(r.1)
              case Err(e) => State() == old(State()) && result == Err(e)
    {
      hide CaptureExpired;
      hide CaptureDue;
      hide EarlierJob;
      if !(10 <= leaseSeconds <= 300) { return Err(BadArgument); }
      var s := State();
      var expired := First(jobs, (j: Job) => CaptureExpired(s.history, j.id, at), EarlierJob);
      if expired.Some? {
        InsertStatus(expired.value.id, PendingCapture, at, Some(Plain(worker)), Some(at + 30_000), Some(LeaseExpired));
        return Ok(None);
      }
      var due := First(jobs, (j: Job) => CaptureDue(s, j, at), EarlierJob);
      if due.None? { return Ok(None); }
      var token := |history|;
      InsertStatus(due.value.id, Claimed, at, Some(CaptureLease(worker, token)), Some(at + 1000 * leaseSeconds), None);
      return Ok(Some(CaptureClaim(due.value, token)));
    }

    method FailCapture(job: nat, at: int, worker: string, token: nat, code: string, maximum: int)
      returns (raised: Option<Failure>)
      modifies this`history
      ensures var r := CaptureFailure(old(State()), job, at, worker, token, code, maximum);
              State() == StoreAfter(old(State()), r) && raised == Raised(r)
    {
      hide FailedCaptures;
      hide Delay;
      hide HoldsLease;
      if !(1 <= maximum <= 10) { return Some(BadArgument); }
      if Latest(history, job).None? { return Some(UnknownJob); }
      if !HoldsLease(history, job, CaptureLease(worker, token), at) { return Some(LeaseLost); }
      var attempts := FailedCaptures(RowsOf(history, job)) + 1;
      if attempts >= maximum {
        InsertStatus(job, TechnicalFailure, at, Some(Plain(worker)), None, Some(RetryExhausted));
      } else {
        InsertStatus(job, PendingCapture, at, Some(Plain(worker)), Some(at + 1000 * Delay(attempts)),
                     Some(CaptureFailed(code)));
      }
      return None;
    }

    method Record(job: nat, valid: bool, at: int, worker: string, token: nat) returns (raised: Option<Failure>)
      modifies this`captures, this`history
      ensures var r := RecordCapture(old(State()), job, valid, at, worker, token);
              State() == StoreAfter(old(State()), r) && raised == Raised(r)
    {
      hide HoldsLease;
      hide Known;
      hide HasCapture;
      if !Known(jobs, job) || Latest(history, job).None? { return Some(UnknownJob); }
      if !valid { return Some(EvidenceRejected); }
      if !HoldsLease(history, job, CaptureLease(worker, token), at) { return Some(LeaseLost); }
      if HasCapture(captures, job) { return Some(Constraint); }
      captures := captures + [Capture(job, at)];
      InsertStatus(job, Captured, at, None, None, None);
      return None;
    }

    method ClaimNextJob(worker: string, at: int, leaseSeconds: int, only: Option<nat>) returns (job: Option<Job>)
      modifies this`history
      ensures (State(), job) == ClaimNext(old(State()), worker, at, leaseSeconds, only)
    {
      hide Claimable;
      hide EarlierJob;
      var s := State();
      job := First(jobs, (j: Job) => Claimable(s, j, at, only), EarlierJob);
      if job.Some? {
        InsertStatus(job.value.id, Claimed, at, Some(Plain(worker)), Some(at + 1000 * leaseSeconds), None);
      }
    }

    method BeginProviderAttempt(job: Job, model: string, manifest: string, client: string, at: int)
      returns (raised: Option<Failure>)
      modifies this`attempts
      ensures var r := BeginAttempt(old(State()), job, model, manifest, client, at);
              State() == StoreAfter(old(State()), r) && raised == Raised(r)
    {
      var existing := Requested(attempts, job.id);
      if existing.Some? {
        if existing.value.model != model || existing.value.manifest != manifest || existing.value.client != client {
          return Some(AttemptConflict);
        }
        return None;
      }
      attempts := attempts + [Attempt(job.id, model, manifest, client, at)];
      return None;
    }

    method CompleteJob(job: Job, valid: bool, grade: string, at: int) returns (raised: Option<Failure>)
      modifies this
      ensures var r := Complete(old(State()), job, valid, grade, at);
              State() == StoreAfter(old(State()), r) && raised == Raised(r)
    {
      hide HasResult;
      hide Requested;
      hide StoryClosed;
      if !valid { return Some(GradeRejected); }
      if HasResult(results, job.id) { return None; }
      if Requested(attempts, job.id).None? { return Some(AttemptMissing); }
      var previous := PreviousState(states, job.story);
      if previous.Some? && !previous.value.Closed() && previous.value.e1 > job.e1 { return Some(Monotonicity); }
      results := results + [Analysis(job.id, job.story, job.parent, at, grade)];
      var bigPicture :=
        if job.Baseline() then Established(job.id, grade)
        else if previous.Some? then previous.value.bigPicture else SymbolAndFeed;
      var baseline := if job.Baseline() then Some(job.id) else if previous.Some? then previous.value.baseline else None;
      if !StoryClosed(states, job.story) {
        states := states + [StateRow(job.story, Some(job.id), job.e1, bigPicture, baseline, Some(job.id), Some(grade), None, at)];
      }
      InsertStatus(job.id, Completed, at, Some(Plain("PROJECT_A_ANALYSIS_WORKER")), None, None);
      return None;
    }

    method RecordTechnicalFailure(job: Job, code: string, at: int)
      modifies this`history
      ensures State() == Fail(old(State()), job, code, at)
    {
      InsertStatus(job.id, TechnicalFailure, at, Some(Plain("PROJECT_A_ANALYSIS_WORKER")), None, Some(WorkerFailure(code)));
    }

    method Close(story: nat, decision: Decision, at: int) returns (raised: Option<Failure>)
      modifies this`states
      ensures var r := CloseStory(old(State()), story, decision, at);
              State() == StoreAfter(old(State()), r) && raised == Raised(r)
    {
      if !exists i :: 0 <= i < |stories| && stories[i].id == story { return Some(UnknownStory); }
      var previous := PreviousState(states, story);
      if previous.Some? && previous.value.Closed() {
        return if previous.value.decision == Some(decision) then None else Some(OtherDecision);
      }
      states := states + [ClosedRow(story, previous, decision, at)];
      return None;
    }
  }

  /** What the rest of the world does during one tick: the clock at each store call, and the
      outcome of each foreign call. */
  datatype Surroundings = Surroundings(
    clock: nat -> int, enabled: bool, captured: bool, only: Option<nat>, loaded: bool, approved: bool,
    model: string, manifest: string, client: string, answer: Option<string>, code: string, valid: bool)

  predicate ByWorker(move: R.Move, n: nat) { !move.Ingest? && !move.Close? && move.worker == n }

  /** One more store call of worker n. */
  lemma OneMore(start: R.System, moves: seq<R.Timed>, digests: Digests, s: Store, workers: seq<R.Worker>, n: nat,
                w: R.Worker, timed: R.Timed)
    requires n < |workers| && ByWorker(timed.move, n)
    requires R.Run(start, moves, digests) == R.System(s, workers[n := w])
    ensures var (next, doing) := R.WorkerStep(s, w, timed);
            R.Run(start, moves + [timed], digests) == R.System(next, workers[n := w.(doing := doing)])
  {
    assert (moves + [timed])[..|moves|] == moves;
    hide R.WorkerStep;
    var (next, doing) := R.WorkerStep(s, w, timed);
    assert workers[n := w][n := w.(doing := doing)] == workers[n := w.(doing := doing)];
  }

  /** The capture under its lease, recorded if it came back. */
  method TryCapture(store: AnalysisStore, name: string, pending: CaptureClaim, e: Surroundings, ghost n: nat)
    returns (captured: bool)
    modifies store
    ensures (store.State(), if !captured then R.CaptureFailing(pending) else if e.enabled then R.Ready else R.Idle) ==
            R.WorkerStep(old(store.State()), R.Worker(name, R.Capturing(pending)),
                         R.Timed(R.Record(n, e.captured, e.enabled), e.clock(1)))
  {
    hide RecordCapture;
    captured := false;
    if e.captured {
      var raised := store.Record(pending.job.id, true, e.clock(1), name, pending.token);
      captured := raised.None?;
    } else {
      InvalidIsRefused(store.State(), pending.job.id, e.clock(1), name, pending.token);
    }
  }

  method ReportFailure(store: AnalysisStore, name: string, pending: CaptureClaim, e: Surroundings, ghost n: nat)
    modifies store
    ensures (store.State(), R.Idle) ==
            R.WorkerStep(old(store.State()), R.Worker(name, R.CaptureFailing(pending)),
                         R.Timed(R.CaptureFails(n, "CAPTURE_INTEGRITY_FAILURE"), e.clock(2)))
  {
    hide CaptureFailure;
    var _ := store.FailCapture(pending.job.id, e.clock(2), name, pending.token, "CAPTURE_INTEGRITY_FAILURE",
                               R.MAXIMUM_CAPTURES);
  }

  /** A capture under its lease: recorded, or reported as failed. */
  method TickPending(store: AnalysisStore, name: string, pending: CaptureClaim, e: Surroundings,
                     ghost workers: seq<R.Worker>, ghost n: nat)
    returns (captured: bool, ghost moves: seq<R.Timed>)
    requires n < |workers|
    modifies store
    ensures forall i | 0 <= i < |moves| :: ByWorker(moves[i].move, n)
    ensures R.Run(R.System(old(store.State()), workers[n := R.Worker(name, R.Capturing(pending))]), moves, store.digests) ==
            R.System(store.State(), workers[n := R.Worker(name, if captured && e.enabled then R.Ready else R.Idle)])
  {
    hide R.WorkerStep;
    ghost var w := R.Worker(name, R.Capturing(pending));
    ghost var start := R.System(store.State(), workers[n := w]);
    NoMoves(start, store.digests);
    hide R.Run;
    ghost var record := R.Timed(R.Record(n, e.captured, e.enabled), e.clock(1));
    OneMore(start, [], store.digests, store.State(), workers, n, w, record);
    captured := TryCapture(store, name, pending, e, n);
    moves := [] + [record];
    if !captured {
      w := R.Worker(name, R.CaptureFailing(pending));
      ghost var fails := R.Timed(R.CaptureFails(n, "CAPTURE_INTEGRITY_FAILURE"), e.clock(2));
      OneMore(start, moves, store.digests, store.State(), workers, n, w, fails);
      ReportFailure(store, name, pending, e, n);
      moves := moves + [fails];
    }
  }

  lemma NoMoves(start: R.System, digests: Digests)
    ensures R.Run(start, [], digests) == start
  {
  }

  /** The capture half of `tick`: whether to go on to the analysis half. */
  method TickCapture(store: AnalysisStore, name: string, e: Surroundings, ghost workers: seq<R.Worker>, ghost n: nat)
    returns (onward: bool, ghost moves: seq<R.Timed>)
    requires n < |workers| && workers[n] == R.Worker(name, R.Idle)
    modifies store
    ensures forall i | 0 <= i < |moves| :: ByWorker(moves[i].move, n)
    ensures R.Run(R.System(old(store.State()), workers), moves, store.digests) ==
            R.System(store.State(), workers[n := R.Worker(name, if onward then R.Ready else R.Idle)])
  {
    hide ClaimCapture;
    ghost var start := R.System(store.State(), workers);
    assert workers[n := workers[n]] == workers;
    NinetySeconds(start.store, name, e.clock(0));
    moves := [];
    assert R.Run(start, moves, store.digests) == start;
    ghost var timed := R.Timed(R.StartTick(n, e.enabled), e.clock(0));
    OneMore(start, moves, store.digests, store.State(), workers, n, workers[n], timed);
    moves := moves + [timed];
    hide R.Run;
    var claimed := store.ClaimCaptureJob(name, e.clock(0), R.CAPTURE_LEASE);
    if claimed.Err? || claimed.value.None? {
      return e.enabled, moves;
    }
    var captured;
    ghost var more;
    captured, more := TickPending(store, name, claimed.value.value, e, workers, n);
    RunOn(start, moves, more, store.digests);
    return captured && e.enabled, moves + more;
  }

  lemma NinetySeconds(s: Store, name: string, at: int)
    ensures ClaimCapture(s, name, at, R.CAPTURE_LEASE).Ok?
  {
  }

  lemma InvalidIsRefused(s: Store, job: nat, at: int, worker: string, token: nat)
    ensures RecordCapture(s, job, false, at, worker, token).Err?
  {
  }

  method GiveUpJob(store: AnalysisStore, name: string, ghost doing: R.Doing, job: Job, code: string, at: int, ghost n: nat)
    requires doing in {R.Holding(job), R.Attempted(job)}
    modifies store
    ensures (store.State(), R.Idle) ==
            R.WorkerStep(old(store.State()), R.Worker(name, doing), R.Timed(R.GiveUp(n, code), at))
  {
    hide Fail;
    store.RecordTechnicalFailure(job, code, at);
  }

  method BeginJob(store: AnalysisStore, name: string, job: Job, e: Surroundings, ghost n: nat) returns (begun: bool)
    modifies store
    ensures (store.State(), if begun then R.Attempted(job) else R.Idle) ==
            R.WorkerStep(old(store.State()), R.Worker(name, R.Holding(job)),
                         R.Timed(R.Begin(n, e.model, e.manifest, e.client), e.clock(4)))
  {
    hide BeginAttempt;
    var raised := store.BeginProviderAttempt(job, e.model, e.manifest, e.client, e.clock(4));
    begun := raised.None?;
  }

  method FinishJob(store: AnalysisStore, name: string, job: Job, grade: string, e: Surroundings, ghost n: nat)
    modifies store
    ensures (store.State(), R.Idle) ==
            R.WorkerStep(old(store.State()), R.Worker(name, R.Attempted(job)),
                         R.Timed(R.Finish(n, e.valid, grade), e.clock(5)))
  {
    hide Complete;
    var _ := store.CompleteJob(job, e.valid, grade, e.clock(5));
  }

  /** The analysis half of `tick`, for a job already claimed. */
  method TickAnalysis(store: AnalysisStore, name: string, job: Job, e: Surroundings, ghost workers: seq<R.Worker>,
                      ghost n: nat)
    returns (ghost moves: seq<R.Timed>)
    requires n < |workers|
    modifies store
    ensures forall i | 0 <= i < |moves| :: ByWorker(moves[i].move, n)
    ensures R.Run(R.System(old(store.State()), workers[n := R.Worker(name, R.Holding(job))]), moves, store.digests) ==
            R.System(store.State(), workers[n := R.Worker(name, R.Idle)])
  {
    hide R.WorkerStep;
    ghost var w := R.Worker(name, R.Holding(job));
    ghost var start := R.System(store.State(), workers[n := w]);
    NoMoves(start, store.digests);
    hide R.Run;
    if !e.loaded || !e.approved {
      var code := if !e.loaded then "CAPTURE_INTEGRITY_FAILURE" else "APPROVAL_IDENTITY_MISMATCH";
      OneMore(start, [], store.digests, store.State(), workers, n, w, R.Timed(R.GiveUp(n, code), e.clock(4)));
      GiveUpJob(store, name, R.Holding(job), job, code, e.clock(4), n);
      moves := [] + [R.Timed(R.GiveUp(n, code), e.clock(4))];
      return;
    }
    ghost var begin := R.Timed(R.Begin(n, e.model, e.manifest, e.client), e.clock(4));
    OneMore(start, [], store.digests, store.State(), workers, n, w, begin);
    moves := [] + [begin];
    var begun := BeginJob(store, name, job, e, n);
    if !begun {
      // The exception is not caught: the tick ends here, and the worker process with it.
      return;
    }
    w := R.Worker(name, R.Attempted(job));
    ghost var last: R.Timed;
    if e.answer.None? {
      last := R.Timed(R.GiveUp(n, e.code), e.clock(5));
      OneMore(start, moves, store.digests, store.State(), workers, n, w, last);
      GiveUpJob(store, name, R.Attempted(job), job, e.code, e.clock(5), n);
    } else {
      last := R.Timed(R.Finish(n, e.valid, e.answer.value), e.clock(5));
      OneMore(start, moves, store.digests, store.State(), workers, n, w, last);
      FinishJob(store, name, job, e.answer.value, e, n);
    }
    moves := moves + [last];
  }

  lemma {:induction false} RunOn(start: R.System, moves: seq<R.Timed>, more: seq<R.Timed>, digests: Digests)
    ensures R.Run(start, moves + more, digests) == R.Run(R.Run(start, moves, digests), more, digests)
    decreases |more|
  {
    hide R.Step;
    if more == [] {
      assert moves + more == moves;
    } else {
      var all, front := moves + more, more[..|more| - 1];
      assert all[..|all| - 1] == moves + front && all[|all| - 1] == more[|more| - 1];
      RunOn(start, moves, front, digests);
    }
  }

  /** `AnalysisWorker.tick`: its store calls are moves of its worker, in order, and leave the
      tables as the run of these moves does. Cut short by a crash, a tick is a prefix of them. */
  method Tick(store: AnalysisStore, name: string, e: Surroundings, ghost workers: seq<R.Worker>, ghost n: nat)
    returns (ghost moves: seq<R.Timed>)
    requires n < |workers| && workers[n] == R.Worker(name, R.Idle)
    modifies store
    ensures forall i | 0 <= i < |moves| :: ByWorker(moves[i].move, n)
    ensures R.Run(R.System(old(store.State()), workers), moves, store.digests) == R.System(store.State(), workers)
  {
    hide ClaimNext;
    hide R.Run;
    assert workers[n := workers[n]] == workers;
    var onward;
    ghost var start := R.System(store.State(), workers);
    onward, moves := TickCapture(store, name, e, workers, n);
    if !onward { return; }
    ghost var claim := R.Timed(R.Claim(n, e.only), e.clock(3));
    OneMore(start, moves, store.digests, store.State(), workers, n, R.Worker(name, R.Ready), claim);
    moves := moves + [claim];
    var job := store.ClaimNextJob(name, e.clock(3), R.ANALYSIS_LEASE, e.only);
    if job.Some? {
      ghost var rest := TickAnalysis(store, name, job.value, e, workers, n);
      RunOn(start, moves, rest, store.digests);
      moves := moves + rest;
    }
  }
}
