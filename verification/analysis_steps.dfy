/**
 The durable story and job tables (project_a_analysis/store.py): what one immediate transaction
 of each operation does to them. Tables are sequences in insertion order, times are integer
 milliseconds, and a digest is whatever injective-enough number the caller's `Digests` gives;
 a clash of identities is the constraint failure it is in the database.
 */
module AnalysisSteps {
  import opened Outcomes

  // ------------------------------------------------------ rows

  datatype Digests = Digests(story: (string, int) -> nat, analysis: (nat, string, nat) -> nat)

  datatype Story = Story(id: nat, event: string, sourceTime: int, createdAt: int)

  /** A job. Its job id is a digest of its analysis id alone, so `id` stands for both. */
  datatype Job = Job(id: nat, story: nat, event: string, parent: Option<nat>, e1: nat, requestedAt: int,
                     suppliesDelta: bool)
  {
    /** Stage LIQ_BASELINE; every other job is an E1_DELTA. */
    predicate Baseline() { e1 == 0 }
  }

  /** The text of a `worker_id` column. */
  datatype Owner = CaptureLease(worker: string, token: nat) | Plain(worker: string)

  datatype Status = PendingCapture | Captured | Claimed | Completed | TechnicalFailure

  datatype Code = LeaseExpired | CaptureFailed(code: string) | RetryExhausted | WorkerFailure(code: string)

  datatype StatusRow = StatusRow(job: nat, status: Status, at: int, owner: Option<Owner>, lease: Option<int>,
                                 failure: Option<Code>)

  datatype Capture = Capture(job: nat, at: int)

  datatype Attempt = Attempt(job: nat, model: string, manifest: string, client: string, startedAt: int)

  datatype Analysis = Analysis(job: nat, story: nat, parent: Option<nat>, at: int, grade: string)

  datatype BigPicture = SymbolOnly | SymbolAndFeed | Established(baseline: nat, grade: string)

  datatype Decision = Entered | Skipped

  datatype StateRow = StateRow(story: nat, analysis: Option<nat>, e1: nat, bigPicture: BigPicture,
                               baseline: Option<nat>, latest: Option<nat>, grade: Option<string>,
                               decision: Option<Decision>, at: int)
  {
    /** Status CLOSED goes with a decision, ACTIVE with none. */
    predicate Closed() { decision.Some? }
  }

  datatype Store = Store(
    stories: seq<Story>, jobs: seq<Job>, history: seq<StatusRow>, captures: seq<Capture>, attempts: seq<Attempt>,
    results: seq<Analysis>, states: seq<StateRow>, orphans: seq<string>)

  const EMPTY_STORE := Store([], [], [], [], [], [], [], [])

  datatype Failure =
    | Constraint | MissingFacts | NoBaseline | NoDeltaReads | BadArgument | UnknownJob | LeaseLost | EvidenceRejected
    | AttemptConflict | AttemptMissing | GradeRejected | Monotonicity | UnknownStory | OtherDecision

  // ------------------------------------------------------ queries

  /** The rows that satisfy a condition, in table order. */
  function Keep<T>(rows: seq<T>, wanted: T -> bool): (r: seq<T>) {
    if rows == [] then []
    else Keep(rows[..|rows| - 1], wanted) + if wanted(rows[|rows| - 1]) then [rows[|rows| - 1]] else []
  }

  /** The first of the wanted rows under `before`, which orders rows strictly; of rows it does
      not tell apart, the one inserted first. */
  function First<T>(rows: seq<T>, wanted: T -> bool, before: (T, T) -> bool): Option<T> {
    if rows == [] then None
    else
      var last := rows[|rows| - 1];
      var best := First(rows[..|rows| - 1], wanted, before);
      if wanted(last) && (best.None? || before(last, best.value)) then Some(last) else best
  }

  function RowsOf(history: seq<StatusRow>, job: nat): seq<StatusRow> { Keep(history, (r: StatusRow) => r.job == job) }

  function Latest(history: seq<StatusRow>, job: nat): Option<StatusRow> {
    var rows := RowsOf(history, job);
    if rows == [] then None else Some(rows[|rows| - 1])
  }

  function JobsOf(jobs: seq<Job>, story: nat): seq<Job> { Keep(jobs, (j: Job) => j.story == story) }

  function StatesOf(states: seq<StateRow>, story: nat): seq<StateRow> { Keep(states, (r: StateRow) => r.story == story) }

  function PreviousState(states: seq<StateRow>, story: nat): Option<StateRow> {
    var rows := StatesOf(states, story);
    if rows == [] then None else Some(rows[|rows| - 1])
  }

  predicate StoryClosed(states: seq<StateRow>, story: nat) {
    exists i :: 0 <= i < |states| && states[i].story == story && states[i].Closed()
  }

  predicate HasResult(results: seq<Analysis>, job: nat) { exists i :: 0 <= i < |results| && results[i].job == job }

  predicate HasCapture(captures: seq<Capture>, job: nat) { exists i :: 0 <= i < |captures| && captures[i].job == job }

  /** `worker_id LIKE 'capture:%'`, which ignores ASCII case. */
  predicate LooksLikeCapture(name: string) {
    |name| >= 8 && forall i | 0 <= i < 8 :: LowerCase(name[i]) == "capture:"[i]
  }

  function LowerCase(c: char): char { if 'A' <= c <= 'Z' then (c as int + 32) as char else c }

  predicate CaptureOwned(owner: Option<Owner>) {
    owner.Some? && (owner.value.CaptureLease? || LooksLikeCapture(owner.value.worker))
  }

  predicate EarlierJob(a: Job, b: Job) {
    a.requestedAt < b.requestedAt || (a.requestedAt == b.requestedAt && a.id < b.id)
  }

  predicate LaterStory(a: Story, b: Story) {
    a.sourceTime > b.sourceTime ||
    (a.sourceTime == b.sourceTime && (a.createdAt > b.createdAt || (a.createdAt == b.createdAt && a.id > b.id)))
  }

  // ------------------------------------------------------ triggers

  datatype Trigger = Trigger(event: string, e1: bool, sourceTime: int, complete: bool, suppliesDelta: bool)

  /** `_active_story`: the latest story before the given time, unless that one is closed. */
  function ActiveStory(s: Store, before: int): Option<Story> {
    var latest := First(s.stories, (story: Story) => story.sourceTime < before, LaterStory);
    if latest.Some? && StoryClosed(s.states, latest.value.id) then None else latest
  }

  function MaxE1(jobs: seq<Job>, story: nat): nat {
    if jobs == [] then 0
    else
      var last, most := jobs[|jobs| - 1], MaxE1(jobs[..|jobs| - 1], story);
      if last.story == story && !last.Baseline() && last.e1 > most then last.e1 else most
  }

  /** `_latest_result`: the analysis of the story's furthest job that has a result. */
  function LatestResult(s: Store, story: nat): Option<Job> {
    First(s.jobs, (j: Job) => j.story == story && HasResult(s.results, j.id), (a: Job, b: Job) => a.e1 > b.e1)
  }

  function BaselineJob(jobs: seq<Job>, story: nat): Option<Job> {
    First(jobs, (j: Job) => j.story == story && j.Baseline(), (a: Job, b: Job) => a.requestedAt < b.requestedAt)
  }

  predicate JobClashes(jobs: seq<Job>, job: Job) {
    exists i :: 0 <= i < |jobs| && (jobs[i].id == job.id || jobs[i].event == job.event)
  }

  predicate StoryClashes(stories: seq<Story>, story: Story) {
    exists i :: 0 <= i < |stories| && (stories[i].id == story.id || stories[i].event == story.event)
  }

  /** Insert a job with its first status row. */
  function Queue(s: Store, job: Job): Result<Store, Failure> {
    if JobClashes(s.jobs, job) then Err(Constraint)
    else Ok(s.(jobs := s.jobs + [job],
               history := s.history + [StatusRow(job.id, PendingCapture, job.requestedAt, None, None, None)]))
  }

  /** `enqueue_analysis_trigger` for the two trigger events. */
  function Enqueue(s: Store, trigger: Trigger, at: int, digests: Digests): Result<Store, Failure> {
    if trigger.e1 then
      var story := ActiveStory(s, trigger.sourceTime);
      if story.None? then
        Ok(if trigger.event in s.orphans then s else s.(orphans := s.orphans + [trigger.event]))
      else
        var id := story.value.id;
        var e1 := MaxE1(s.jobs, id) + 1;
        var latest := LatestResult(s, id);
        var baseline := BaselineJob(s.jobs, id);
        if baseline.None? then Err(NoBaseline)
        else if !baseline.value.suppliesDelta then Err(NoDeltaReads)
        else
          Queue(s, Job(digests.analysis(id, trigger.event, e1), id, trigger.event,
                       if latest.Some? then Some(latest.value.id) else None, e1, at, false))
    else
      var id := digests.story(trigger.event, at);
      var story := Story(id, trigger.event, trigger.sourceTime, at);
      if StoryClashes(s.stories, story) then Err(Constraint)
      else if !trigger.complete then Err(MissingFacts)
      else
        Queue(s.(stories := s.stories + [story]),
              Job(digests.analysis(id, trigger.event, 0), id, trigger.event, None, 0, at, trigger.suppliesDelta))
  }

  // ------------------------------------------------------ captures

  predicate CaptureExpired(history: seq<StatusRow>, job: nat, at: int) {
    var latest := Latest(history, job);
    latest.Some? && latest.value.status.Claimed? && CaptureOwned(latest.value.owner) &&
    latest.value.lease.Some? && latest.value.lease.value <= at
  }

  predicate CaptureDue(s: Store, job: Job, at: int) {
    var latest := Latest(s.history, job.id);
    latest.Some? && latest.value.status.PendingCapture? &&
    (latest.value.lease.None? || latest.value.lease.value <= at) && !StoryClosed(s.states, job.story)
  }

  /** The job claimed for capture, and its lease token. */
  datatype CaptureClaim = CaptureClaim(job: Job, token: nat)

  /** `claim_capture_job`. A random token is modelled by a number no row has carried before. */
  function ClaimCapture(s: Store, worker: string, at: int, leaseSeconds: int)
    : Result<(Store, Option<CaptureClaim>), Failure>
  {
    if !(10 <= leaseSeconds <= 300) then Err(BadArgument)
    else
      var expired := First(s.jobs, (j: Job) => CaptureExpired(s.history, j.id, at), EarlierJob);
      if expired.Some? then
        var row := StatusRow(expired.value.id, PendingCapture, at, Some(Plain(worker)), Some(at + 30_000), Some(LeaseExpired));
        Ok((s.(history := s.history + [row]), None))
      else
        var due := First(s.jobs, (j: Job) => CaptureDue(s, j, at), EarlierJob);
        if due.None? then Ok((s, None))
        else
          var token := |s.history|;
          var row := StatusRow(due.value.id, Claimed, at, Some(CaptureLease(worker, token)),
                               Some(at + 1000 * leaseSeconds), None);
          Ok((s.(history := s.history + [row]), Some(CaptureClaim(due.value, token))))
  }

  predicate HoldsLease(history: seq<StatusRow>, job: nat, owner: Owner, at: int) {
    var latest := Latest(history, job);
    latest.Some? && latest.value.status.Claimed? && latest.value.owner == Some(owner) &&
    latest.value.lease.Some? && at <= latest.value.lease.value
  }

  function FailedCaptures(rows: seq<StatusRow>): nat {
    |Keep(rows, (r: StatusRow) => r.status.PendingCapture? && r.failure.Some?)|
  }

  /** `min(30 * 2 ** (attempts - 1), 900)`. */
  function Delay(attempts: nat): (seconds: nat)
    requires attempts > 0
  {
    var doubled := 30 * Pow2(attempts - 1);
    if doubled < 900 then doubled else 900
  }

  function Pow2(n: nat): (p: nat)
    ensures p > 0
  {
    if n == 0 then 1 else 2 * Pow2(n - 1)
  }

  function CaptureFailureRow(history: seq<StatusRow>, job: nat, at: int, worker: string, code: string, maximum: int)
    : StatusRow
  {
    var attempts := FailedCaptures(RowsOf(history, job)) + 1;
    if attempts >= maximum then
      StatusRow(job, TechnicalFailure, at, Some(Plain(worker)), None, Some(RetryExhausted))
    else
      StatusRow(job, PendingCapture, at, Some(Plain(worker)), Some(at + 1000 * Delay(attempts)), Some(CaptureFailed(code)))
  }

  /** `capture_failure`. */
  function CaptureFailure(s: Store, job: nat, at: int, worker: string, token: nat, code: string, maximum: int)
    : Result<Store, Failure>
  {
    if !(1 <= maximum <= 10) then Err(BadArgument)
    else if Latest(s.history, job).None? then Err(UnknownJob)
    else if !HoldsLease(s.history, job, CaptureLease(worker, token), at) then Err(LeaseLost)
    else Ok(s.(history := s.history + [CaptureFailureRow(s.history, job, at, worker, code, maximum)]))
  }

  predicate Known(jobs: seq<Job>, id: nat) { exists i :: 0 <= i < |jobs| && jobs[i].id == id }

  /** `record_capture`; `valid` is the outcome of the evidence checks. */
  function RecordCapture(s: Store, job: nat, valid: bool, at: int, worker: string, token: nat): Result<Store, Failure> {
    if !Known(s.jobs, job) || Latest(s.history, job).None? then Err(UnknownJob)
    else if !valid then Err(EvidenceRejected)
    else if !HoldsLease(s.history, job, CaptureLease(worker, token), at) then Err(LeaseLost)
    else if HasCapture(s.captures, job) then Err(Constraint)
    else Ok(s.(captures := s.captures + [Capture(job, at)],
               history := s.history + [StatusRow(job, Captured, at, None, None, None)]))
  }

  // ------------------------------------------------------ analysis

  /** Some earlier job of the story is not COMPLETED. */
  predicate Blocked(s: Store, job: Job) {
    exists i :: 0 <= i < |s.jobs| && s.jobs[i].story == job.story &&
                (s.jobs[i].e1 < job.e1 || (s.jobs[i].e1 == job.e1 && s.jobs[i].requestedAt < job.requestedAt)) &&
                Latest(s.history, s.jobs[i].id).Some? && !Latest(s.history, s.jobs[i].id).value.status.Completed?
  }

  predicate Claimable(s: Store, job: Job, at: int, only: Option<nat>) {
    var latest := Latest(s.history, job.id);
    latest.Some? &&
    (latest.value.status.Captured? ||
     (latest.value.status.Claimed? && latest.value.lease.Some? && latest.value.lease.value < at &&
      !CaptureOwned(latest.value.owner))) &&
    (only.None? || only.value == job.id) && !StoryClosed(s.states, job.story) && !Blocked(s, job)
  }

  /** `claim_next`. */
  function ClaimNext(s: Store, worker: string, at: int, leaseSeconds: int, only: Option<nat>): (Store, Option<Job>) {
    var next := First(s.jobs, (j: Job) => Claimable(s, j, at, only), EarlierJob);
    if next.None? then (s, None)
    else
      (s.(history := s.history +
            [StatusRow(next.value.id, Claimed, at, Some(Plain(worker)), Some(at + 1000 * leaseSeconds), None)]),
       next)
  }

  function Requested(attempts: seq<Attempt>, job: nat): Option<Attempt> {
    First(attempts, (a: Attempt) => a.job == job, (a: Attempt, b: Attempt) => a.startedAt > b.startedAt)
  }

  /** `begin_provider_attempt`. */
  function BeginAttempt(s: Store, job: Job, model: string, manifest: string, client: string, at: int)
    : Result<Store, Failure>
  {
    var existing := Requested(s.attempts, job.id);
    if existing.None? then Ok(s.(attempts := s.attempts + [Attempt(job.id, model, manifest, client, at)]))
    else if existing.value.model != model || existing.value.manifest != manifest || existing.value.client != client
    then Err(AttemptConflict)
    else Ok(s)
  }

  /** The story row a validated grade adds. */
  function ActiveRow(previous: Option<StateRow>, job: Job, grade: string, at: int): StateRow {
    StateRow(job.story, Some(job.id), job.e1,
             if job.Baseline() then Established(job.id, grade)
             else if previous.Some? then previous.value.bigPicture else SymbolAndFeed,
             if job.Baseline() then Some(job.id) else if previous.Some? then previous.value.baseline else None,
             Some(job.id), Some(grade), None, at)
  }

  /** `complete`; `valid` is the outcome of the grade checks. */
  function Complete(s: Store, job: Job, valid: bool, grade: string, at: int): Result<Store, Failure> {
    if !valid then Err(GradeRejected)
    else if HasResult(s.results, job.id) then Ok(s)
    else if Requested(s.attempts, job.id).None? then Err(AttemptMissing)
    else
      var previous := PreviousState(s.states, job.story);
      if previous.Some? && !previous.value.Closed() && previous.value.e1 > job.e1 then Err(Monotonicity)
      else
        Ok(s.(results := s.results + [Analysis(job.id, job.story, job.parent, at, grade)],
              states := if StoryClosed(s.states, job.story) then s.states
                        else s.states + [ActiveRow(previous, job, grade, at)],
              history := s.history +
                [StatusRow(job.id, Completed, at, Some(Plain("PROJECT_A_ANALYSIS_WORKER")), None, None)]))
  }

  /** `technical_failure`: it looks at no lease and no earlier outcome. */
  function Fail(s: Store, job: Job, code: string, at: int): Store {
    s.(history := s.history + [StatusRow(job.id, TechnicalFailure, at, Some(Plain("PROJECT_A_ANALYSIS_WORKER")), None,
                                         Some(WorkerFailure(code)))])
  }

  function ClosedRow(story: nat, previous: Option<StateRow>, decision: Decision, at: int): StateRow {
    if previous.Some? then
      previous.value.(analysis := None, decision := Some(decision), at := at)
    else
      StateRow(story, None, 0, SymbolOnly, None, None, None, Some(decision), at)
  }

  /** `close_story`. */
  function CloseStory(s: Store, story: nat, decision: Decision, at: int): Result<Store, Failure> {
    if !exists i :: 0 <= i < |s.stories| && s.stories[i].id == story then Err(UnknownStory)
    else
      var previous := PreviousState(s.states, story);
      if previous.Some? && previous.value.Closed() then
        if previous.value.decision == Some(decision) then Ok(s) else Err(OtherDecision)
      else Ok(s.(states := s.states + [ClosedRow(story, previous, decision, at)]))
  }
}
