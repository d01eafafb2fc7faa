/**
 The reviews of one request id (project_a_ai_review/service.py and audit.py): a lock file, the
 request's metadata, the attempts file and one completed verdict. The review that holds the lock can
 be interleaved with reviews that fail to take it, which append an attempt without holding it; every
 append is a reading and, any time later, a write.
 */
module ReviewRuns {
  import opened Outcomes
  import opened DecimalText
  import opened CanonicalJson
  import opened SemanticEvidence
  import opened StoredText
  import opened AttemptsFile

  /** What does not change over the reviews of a request. */
  datatype Policy = Policy(request: string, maximum: nat, nearest: Nearest)

  /** The completed verdict with the hash of its own attempt. */
  datatype Completed = Completed(attempt: string, fingerprint: string, verdict: string, hash: string)

  /** What an append of the lock holder is for; a failure may be that of an invocation. */
  datatype Purpose = Failing(asked: bool) | Judging(fingerprint: string, attempt: string, verdict: string)

  /** Where the review that holds the lock is. */
  datatype Flight =
    | Thinking(fingerprint: string, attempt: string)
    | Writing(write: Pending, purpose: Purpose)
    | Logged(result: Completed)

  /** A VERDICT result handed to a caller. */
  datatype Released = Released(fingerprint: string, verdict: string)

  /** `pending` are the appends of reviews that failed to take the lock. */
  datatype State = State(
    meta: Option<string>, file: Shared, pending: seq<Pending>, completed: Option<Completed>, locked: bool,
    flight: Option<Flight>, invocations: nat, lost: nat, released: seq<Released>)

  const EMPTY := State(None, NO_FILE, [], None, false, None, 0, 0, [])

  /** The checks of the request before it is looked up. */
  datatype Checks = Ready | Fails(rejected: bool)

  /** How the checks of a cached verdict against the request come out: another identity shows
      before the attempts file is read, the rest after. */
  datatype Recheck = Same | Differs | Refuses | OtherIdentity

  /** What the model and the storage do with one invocation. */
  datatype Answer = Accepted(verdict: string) | Unusable(rejected: bool) | StorageFails

  type Details = map<string, Json>

  datatype Move =
    | Refused(attempt: string, details: Details)
    | Finish(append: nat)
    | Abandon(append: nat)
    | Enter(fingerprint: string, checks: Checks, recheck: Recheck, attempt: string, details: Details)
    | Answered(answer: Answer, details: Details)
    | Write(done: bool)
    | Save(stored: bool, details: Details)
    | Crash(entering: Option<string>)
    | Unlock

  // ------------------------------------------------------ records

  function Record(p: Policy, attempt: string, details: Details, outcome: string): Details {
    details["attempt_id" := Str(attempt)]["request_id" := Str(p.request)]["outcome" := Str(outcome)]
  }

  function FailureRecord(p: Policy, attempt: string, details: Details, rejected: bool): Json {
    Obj(Record(p, attempt, details, if rejected then "INPUT_REJECTION" else "TECHNICAL_FAILURE"))
  }

  function VerdictRecord(p: Policy, attempt: string, details: Details, verdict: string): Json {
    Obj(Record(p, attempt, details, "VERDICT")["validated_verdict" := Str(verdict)])
  }

  /** The attempt a completed verdict has to be found as. */
  predicate VerdictOf(record: Json, attempt: string, verdict: string, p: Policy) {
    Field(record, "attempt_id") == Str(attempt) && Field(record, "request_id") == Str(p.request) &&
    Field(record, "outcome") == Str("VERDICT") && Field(record, "validated_verdict") == Str(verdict)
  }

  /** `_validated_cached_result` on the attempts file: the chain verifies, and its last attempt is
      the completed verdict's. */
  predicate CacheIntact(text: string, c: Completed, p: Policy) {
    Verifies(text, p.nearest) &&
    match FinalItem(SplitLines(text), p.nearest)
    case Attempt(item) =>
      Field(item, "record_hash") == Str(c.hash) && VerdictOf(Field(item, "record"), c.attempt, c.verdict, p)
    case _ => false
  }

  // ------------------------------------------------------ steps

  /** An invocation that is under way. */
  function Asked(flight: Option<Flight>): nat {
    match flight
    case Some(Thinking(_, _)) => 1
    case Some(Writing(_, Judging(_, _, _))) => 1
    case Some(Writing(_, Failing(asked))) => if asked then 1 else 0
    case _ => 0
  }

  /** The lock is let go, and with it an invocation that is under way. */
  function LetGo(s: State): State { s.(locked := false, flight := None, lost := s.lost + Asked(s.flight)) }

  /** The lock holder begins to append. An append that raises ends the review without a row. */
  function BeginWrite(s: State, record: Json, purpose: Purpose, p: Policy): State {
    match Look(s.file, record, p.nearest)
    case Some(write) => s.(locked := true, flight := Some(Writing(write, purpose)))
    case None => LetGo(s)
  }

  /** `review` where there is a completed verdict. */
  function Replay(s: State, c: Completed, recheck: Recheck, failure: Json, p: Policy): State {
    if recheck.OtherIdentity? then BeginWrite(s, failure, Failing(false), p)
    else if !CacheIntact(s.file.text, c, p) || recheck.Differs? then s
    else if recheck.Refuses? then BeginWrite(s, failure, Failing(false), p)
    else s.(released := s.released + [Released(c.fingerprint, c.verdict)])
  }

  /** `review` where there is none: the model is asked while there are attempts left. */
  function Ask(s: State, fingerprint: string, attempt: string, failure: Json, p: Policy): State {
    if NonBlank(SplitLines(s.file.text)) >= p.maximum then BeginWrite(s, failure, Failing(false), p)
    else s.(locked := true, flight := Some(Thinking(fingerprint, attempt)), invocations := s.invocations + 1)
  }

  /** `review` from taking the lock to the point where it waits for the model, appends, or ends. */
  function EnterReview(s: State, fingerprint: string, checks: Checks, recheck: Recheck, attempt: string,
                       details: Details, p: Policy): State
  {
    var known := s.(meta := if s.meta.None? then Some(fingerprint) else s.meta);
    var failure := FailureRecord(p, attempt, details, false);
    if known.meta != Some(fingerprint) then BeginWrite(known, FailureRecord(p, attempt, details, true), Failing(false), p)
    else if checks.Fails? then
      BeginWrite(known, FailureRecord(p, attempt, details, checks.rejected), Failing(false), p)
    else if s.completed.Some? then Replay(known, s.completed.value, recheck, failure, p)
    else Ask(known, fingerprint, attempt, failure, p)
  }

  function AnswerReview(s: State, answer: Answer, details: Details, p: Policy): State
    requires s.flight.Some? && s.flight.value.Thinking?
  {
    var f := s.flight.value;
    match answer
    case StorageFails => LetGo(s)
    case Unusable(rejected) => BeginWrite(s, FailureRecord(p, f.attempt, details, rejected), Failing(true), p)
    case Accepted(verdict) =>
      BeginWrite(s, VerdictRecord(p, f.attempt, details, verdict), Judging(f.fingerprint, f.attempt, verdict), p)
  }

  /** The append of the lock holder, or its failing. */
  function WriteReview(s: State, done: bool): State
    requires s.flight.Some? && s.flight.value.Writing?
  {
    var write := s.flight.value.write;
    if !done then LetGo(s)
    else
      var longer := s.(file := Land(s.file, write));
      match s.flight.value.purpose
      case Failing(_) => longer.(locked := false, flight := None)
      case Judging(fingerprint, attempt, verdict) =>
        longer.(flight := Some(Logged(Completed(attempt, fingerprint, verdict, HashIn(write.entry)))))
  }

  /** `save_completed`, and the release of the verdict that it permits. */
  function SaveReview(s: State, stored: bool, details: Details, p: Policy): State
    requires s.flight.Some? && s.flight.value.Logged?
  {
    var result := s.flight.value.result;
    if !stored then LetGo(s)
    else if s.completed.Some? && s.completed != Some(result) then
      BeginWrite(s, FailureRecord(p, result.attempt, details, false), Failing(false), p)
    else
      s.(completed := Some(result), locked := false, flight := None,
         released := s.released + [Released(result.fingerprint, result.verdict)])
  }

  /** One move. A move that does not apply changes nothing. A review that was refused the lock begins
      its append at any time after, when the lock may have been let go again. A crash leaves the lock
      file behind; it is only ever removed by hand, once its process is gone. */
  function Step(s: State, move: Move, p: Policy): State {
    match move
    case Refused(attempt, details) =>
      (match Look(s.file, FailureRecord(p, attempt, details, false), p.nearest)
       case Some(write) => s.(pending := s.pending + [write])
       case None => s)
    case Finish(i) =>
      if i < |s.pending| then s.(file := Land(s.file, s.pending[i]), pending := Without(s.pending, i)) else s
    case Abandon(i) => if i < |s.pending| then s.(pending := Without(s.pending, i)) else s
    case Enter(fingerprint, checks, recheck, attempt, details) =>
      if s.locked then s else EnterReview(s, fingerprint, checks, recheck, attempt, details, p)
    case Answered(answer, details) =>
      if s.flight.Some? && s.flight.value.Thinking? then AnswerReview(s, answer, details, p) else s
    case Write(done) => Settle(s, done)
    case Save(stored, details) =>
      if s.flight.Some? && s.flight.value.Logged? then SaveReview(s, stored, details, p) else s
    case Crash(entering) =>
      if s.flight.Some? then LetGo(s).(locked := true)
      else if s.locked then s
      else s.(locked := true, meta := if s.meta.None? then entering else s.meta)
    case Unlock => if s.flight.None? then s.(locked := false) else s
  }

  function Settle(s: State, done: bool): State {
    if s.flight.Some? && s.flight.value.Writing? then WriteReview(s, done) else s
  }

  function Run(s: State, moves: seq<Move>, p: Policy): State {
    if moves == [] then s else Step(Run(s, moves[..|moves| - 1], p), moves[|moves| - 1], p)
  }

  // ------------------------------------------------------ the invariant

  predicate IsFailure(record: Json) {
    Field(record, "outcome") == Str("INPUT_REJECTION") || Field(record, "outcome") == Str("TECHNICAL_FAILURE")
  }

  /** This entry is the verdict's own, and only failures follow it. */
  predicate OwnRowAt(entries: seq<Entry>, k: nat, c: Completed, p: Policy) {
    k < |entries| && HashIn(entries[k]) == c.hash && VerdictOf(entries[k].record, c.attempt, c.verdict, p) &&
    forall j | k < j < |entries| :: IsFailure(entries[j].record)
  }

  predicate HasOwnRow(entries: seq<Entry>, c: Completed, p: Policy) {
    exists k :: 0 <= k < |entries| && OwnRowAt(entries, k, c, p)
  }

  /** Every invocation but those lost or under way has its line. */
  predicate InvocationsOk(s: State, p: Policy) {
    s.invocations <= s.lost + Asked(s.flight) + |s.file.entries| && s.invocations <= s.lost + p.maximum
  }

  /** All verdicts ever released are the completed one, under the request's one fingerprint. */
  predicate ReleasedOk(s: State) {
    (s.completed.None? ==> s.released == []) &&
    (s.completed.Some? ==>
       s.meta == Some(s.completed.value.fingerprint) &&
       forall i | 0 <= i < |s.released| ::
         s.released[i] == Released(s.completed.value.fingerprint, s.completed.value.verdict))
  }

  /** What is in flight, of the lock holder and of the others. */
  predicate FlightOk(s: State, p: Policy) {
    (forall w | w in s.pending :: IsFailure(w.entry.record)) &&
    (s.completed.Some? ==> HasOwnRow(s.file.entries, s.completed.value, p)) &&
    (s.flight.Some? ==>
       s.locked &&
       match s.flight.value
       case Thinking(fingerprint, _) => s.completed.None? && s.meta == Some(fingerprint)
       case Logged(result) =>
         s.completed.None? && s.meta == Some(result.fingerprint) && HasOwnRow(s.file.entries, result, p)
       case Writing(write, Failing(_)) => IsFailure(write.entry.record)
       case Writing(write, Judging(fingerprint, attempt, verdict)) =>
         s.completed.None? && s.meta == Some(fingerprint) && VerdictOf(write.entry.record, attempt, verdict, p))
  }

  predicate FileOk(s: State) {
    SharedOk(s.file) && AllPendingOk(s.file, s.pending) &&
    (s.flight.Some? && s.flight.value.Writing? ==> PendingOk(s.file, s.flight.value.write))
  }

  predicate Inv(s: State, p: Policy) { InvocationsOk(s, p) && ReleasedOk(s) && FlightOk(s, p) && FileOk(s) }

  lemma RecordsAre(p: Policy, attempt: string, details: Details, rejected: bool, verdict: string)
    ensures IsFailure(FailureRecord(p, attempt, details, rejected))
    ensures VerdictOf(VerdictRecord(p, attempt, details, verdict), attempt, verdict, p)
  {
  }

  lemma FailureIsNoVerdict(record: Json)
    requires IsFailure(record)
    ensures Field(record, "outcome") != Str("VERDICT")
  {
    assert "INPUT_REJECTION"[0] == 'I' && "TECHNICAL_FAILURE"[0] == 'T' && "VERDICT"[0] == 'V';
  }

  /** A failure behind it leaves the verdict's own row what it is. */
  lemma OwnRowStays(entries: seq<Entry>, e: Entry, c: Completed, p: Policy)
    requires HasOwnRow(entries, c, p) && IsFailure(e.record)
    ensures HasOwnRow(entries + [e], c, p)
  {
    hide IsFailure;
    hide VerdictOf;
    hide HashIn;
    var k :| 0 <= k < |entries| && OwnRowAt(entries, k, c, p);
    assert OwnRowAt(entries + [e], k, c, p);
  }

  lemma OwnRowAdded(entries: seq<Entry>, e: Entry, c: Completed, p: Policy)
    requires HashIn(e) == c.hash && VerdictOf(e.record, c.attempt, c.verdict, p)
    ensures HasOwnRow(entries + [e], c, p)
  {
    hide IsFailure;
    hide VerdictOf;
    hide HashIn;
    assert OwnRowAt(entries + [e], |entries|, c, p);
  }

  lemma LetGoKeeps(s: State, p: Policy)
    requires Inv(s, p)
    ensures Inv(LetGo(s), p) && Inv(LetGo(s).(locked := true), p)
  {
    hide SharedOk;
    hide AllPendingOk;
    hide PendingOk;
    hide HasOwnRow;
    hide IsFailure;
    hide VerdictOf;
  }

  /** The review may begin to append this for that purpose. */
  predicate PurposeFits(s: State, record: Json, purpose: Purpose, p: Policy) {
    match purpose
    case Failing(asked) => IsFailure(record) && (asked ==> Asked(s.flight) == 1) && (!asked ==> Asked(s.flight) == 0)
    case Judging(fingerprint, attempt, verdict) =>
      s.completed.None? && s.meta == Some(fingerprint) && VerdictOf(record, attempt, verdict, p) && Asked(s.flight) == 1
  }

  lemma WriteBegun(s: State, write: Pending, purpose: Purpose, p: Policy)
    requires Inv(s, p) && PurposeFits(s, write.entry.record, purpose, p) && PendingOk(s.file, write)
    ensures Inv(s.(locked := true, flight := Some(Writing(write, purpose))), p)
  {
    hide SharedOk;
    hide AllPendingOk;
    hide PendingOk;
    hide HasOwnRow;
    hide IsFailure;
    hide VerdictOf;
  }

  lemma BeginWriteKeeps(s: State, record: Json, purpose: Purpose, p: Policy)
    requires Inv(s, p) && PurposeFits(s, record, purpose, p) && Doubles(p.nearest)
    ensures Inv(BeginWrite(s, record, purpose, p), p)
  {
    LetGoKeeps(s, p);
    assert FileOk(s);
    LookIff(s.file, record, p.nearest);
    hide Inv;
    hide PurposeFits;
    hide LetGo;
    hide Look;
    hide SharedOk;
    hide PendingOk;
    hide AllUnbroken;
    hide Render;
    hide Prior;
    hide Prepared;
    if Look(s.file, record, p.nearest).Some? {
      WriteBegun(s, Look(s.file, record, p.nearest).value, purpose, p);
    }
  }

  lemma MetaKeeps(s: State, fingerprint: string, p: Policy)
    requires Inv(s, p) && s.flight.None?
    ensures Inv(s.(meta := if s.meta.None? then Some(fingerprint) else s.meta), p)
    ensures Inv(s.(locked := true, meta := if s.meta.None? then Some(fingerprint) else s.meta), p)
  {
    hide SharedOk;
    hide AllPendingOk;
    hide HasOwnRow;
    hide IsFailure;
  }

  lemma LockKeeps(s: State, locked: bool, p: Policy)
    requires Inv(s, p) && s.flight.None?
    ensures Inv(s.(locked := locked), p)
  {
    hide SharedOk;
    hide AllPendingOk;
    hide HasOwnRow;
    hide IsFailure;
  }

  lemma ReleaseKeeps(s: State, p: Policy)
    requires Inv(s, p) && s.completed.Some?
    ensures Inv(s.(released := s.released + [Released(s.completed.value.fingerprint, s.completed.value.verdict)]), p)
  {
    hide SharedOk;
    hide AllPendingOk;
    hide PendingOk;
    hide HasOwnRow;
    hide IsFailure;
    hide VerdictOf;
  }

  /** The model is asked only while the file has fewer lines than allowed. */
  lemma AskKeeps(s: State, fingerprint: string, attempt: string, p: Policy)
    requires Inv(s, p) && s.flight.None? && s.completed.None? && s.meta == Some(fingerprint)
    requires NonBlank(SplitLines(s.file.text)) < p.maximum && Doubles(p.nearest)
    ensures Inv(s.(locked := true, flight := Some(Thinking(fingerprint, attempt)), invocations := s.invocations + 1), p)
  {
    hide SharedOk;
    assert |s.file.entries| <= NonBlank(SplitLines(s.file.text)) by { CountedLines(s.file, p.nearest); }
    hide AllPendingOk;
    hide HasOwnRow;
    hide IsFailure;
    hide NonBlank;
    hide SplitLines;
  }

  lemma CountedLines(f: Shared, nearest: Nearest)
    requires SharedOk(f) && Doubles(nearest)
    ensures |f.entries| <= NonBlank(SplitLines(f.text))
  {
    FileReads(f.entries, nearest);
    hide AllUnbroken;
    hide AllStable;
    hide AllWritable;
    hide Chained;
    hide FileOf;
    hide SplitLines;
    hide NonBlank;
    hide LastHash;
    hide ChainEnd;
    hide FinalItem;
    hide FinalOf;
    hide Prior;
    hide Link;
  }

  lemma FailureFits(s: State, attempt: string, details: Details, rejected: bool, p: Policy)
    requires Asked(s.flight) == 0
    ensures PurposeFits(s, FailureRecord(p, attempt, details, rejected), Failing(false), p)
  {
    RecordsAre(p, attempt, details, rejected, "");
    hide FailureRecord;
    hide IsFailure;
  }

  lemma ReplayKeeps(s: State, recheck: Recheck, failure: Json, p: Policy)
    requires Inv(s, p) && s.completed.Some? && PurposeFits(s, failure, Failing(false), p) && Doubles(p.nearest)
    ensures Inv(Replay(s, s.completed.value, recheck, failure, p), p)
  {
    BeginWriteKeeps(s, failure, Failing(false), p);
    ReleaseKeeps(s, p);
    hide Inv;
    hide BeginWrite;
    hide CacheIntact;
    hide PurposeFits;
  }

  lemma EnterKeeps(s: State, move: Move, p: Policy)
    requires Inv(s, p) && move.Enter? && s.flight.None? && Doubles(p.nearest)
    ensures Inv(EnterReview(s, move.fingerprint, move.checks, move.recheck, move.attempt, move.details, p), p)
  {
    hide Inv;
    hide FailureRecord;
    hide PurposeFits;
    hide BeginWrite;
    hide Replay;
    hide NonBlank;
    hide SplitLines;
    hide Doubles;
    var known := s.(meta := if s.meta.None? then Some(move.fingerprint) else s.meta);
    MetaKeeps(s, move.fingerprint, p);
    var failure := FailureRecord(p, move.attempt, move.details, false);
    var rejection := FailureRecord(p, move.attempt, move.details, true);
    FailureFits(known, move.attempt, move.details, false, p);
    FailureFits(known, move.attempt, move.details, true, p);
    BeginWriteKeeps(known, failure, Failing(false), p);
    BeginWriteKeeps(known, rejection, Failing(false), p);
    if known.completed.Some? {
      ReplayKeeps(known, move.recheck, failure, p);
    } else if NonBlank(SplitLines(known.file.text)) < p.maximum && known.meta == Some(move.fingerprint) {
      AskKeeps(known, move.fingerprint, move.attempt, p);
    }
  }

  lemma AnswerKeeps(s: State, answer: Answer, details: Details, p: Policy)
    requires Inv(s, p) && s.flight.Some? && s.flight.value.Thinking? && Doubles(p.nearest)
    ensures Inv(AnswerReview(s, answer, details, p), p)
  {
    var f := s.flight.value;
    LetGoKeeps(s, p);
    assert s.completed.None? && s.meta == Some(f.fingerprint);
    hide Inv;
    match answer
    case StorageFails =>
    case Unusable(rejected) =>
      RecordsAre(p, f.attempt, details, rejected, "");
      hide FailureRecord;
      hide IsFailure;
      BeginWriteKeeps(s, FailureRecord(p, f.attempt, details, rejected), Failing(true), p);
    case Accepted(verdict) =>
      RecordsAre(p, f.attempt, details, false, verdict);
      hide VerdictRecord;
      hide VerdictOf;
      BeginWriteKeeps(s, VerdictRecord(p, f.attempt, details, verdict), Judging(f.fingerprint, f.attempt, verdict), p);
  }

  lemma FileStays(s: State, write: Pending, p: Policy)
    requires FileOk(s) && PendingOk(s.file, write)
    ensures FileOk(s.(file := Land(s.file, write)))
  {
    hide SharedOk;
    hide PendingOk;
    hide Land;
    LandKeeps(s.file, write, p.nearest);
  }

  lemma FlightStays(s: State, write: Pending, p: Policy)
    requires FlightOk(s, p) && IsFailure(write.entry.record)
    ensures FlightOk(s.(file := Land(s.file, write)), p)
  {
    hide HasOwnRow;
    hide IsFailure;
    hide VerdictOf;
    hide LineOf;
    if s.completed.Some? { OwnRowStays(s.file.entries, write.entry, s.completed.value, p); }
    if s.flight.Some? && s.flight.value.Logged? { OwnRowStays(s.file.entries, write.entry, s.flight.value.result, p); }
  }

  /** The state once a failure's line has been written, by whomever. */
  lemma WrittenKeeps(s: State, write: Pending, p: Policy)
    requires Inv(s, p) && PendingOk(s.file, write) && IsFailure(write.entry.record)
    ensures Inv(s.(file := Land(s.file, write)), p)
  {
    FileStays(s, write, p);
    FlightStays(s, write, p);
    hide FileOk;
    hide FlightOk;
    hide PendingOk;
    hide IsFailure;
    hide LineOf;
  }

  lemma JudgedFlight(s: State, p: Policy)
    requires Inv(s, p) && s.flight.Some? && s.flight.value.Writing? && s.flight.value.purpose.Judging?
    ensures FlightOk(WriteReview(s, true), p) && FileOk(WriteReview(s, true))
  {
    hide SharedOk;
    hide AllPendingOk;
    hide PendingOk;
    hide HasOwnRow;
    hide IsFailure;
    hide VerdictOf;
    hide LineOf;
    hide HashIn;
    var write, purpose := s.flight.value.write, s.flight.value.purpose;
    var result := Completed(purpose.attempt, purpose.fingerprint, purpose.verdict, HashIn(write.entry));
    FileStays(s, write, p);
    OwnRowAdded(s.file.entries, write.entry, result, p);
    assert WriteReview(s, true).file.entries == s.file.entries + [write.entry];
  }

  lemma JudgedKeeps(s: State, p: Policy)
    requires Inv(s, p) && s.flight.Some? && s.flight.value.Writing? && s.flight.value.purpose.Judging?
    ensures Inv(WriteReview(s, true), p)
  {
    hide FlightOk;
    hide FileOk;
    hide LineOf;
    hide HashIn;
    JudgedFlight(s, p);
  }

  lemma WriteKeeps(s: State, done: bool, p: Policy)
    requires Inv(s, p) && s.flight.Some? && s.flight.value.Writing?
    ensures Inv(WriteReview(s, done), p)
  {
    LetGoKeeps(s, p);
    if done {
      if s.flight.value.purpose.Judging? {
        JudgedKeeps(s, p);
      } else {
        FailedKeeps(s, p);
      }
    }
    hide Inv;
    hide LetGo;
    hide Land;
  }

  lemma EndsFlight(s: State, p: Policy)
    requires FlightOk(s, p) && FileOk(s)
    ensures FlightOk(s.(locked := false, flight := None), p) && FileOk(s.(locked := false, flight := None))
  {
    hide SharedOk;
    hide AllPendingOk;
    hide HasOwnRow;
    hide IsFailure;
  }

  lemma FailureWritten(s: State, p: Policy)
    requires Inv(s, p) && s.flight.Some? && s.flight.value.Writing? && s.flight.value.purpose.Failing?
    ensures IsFailure(s.flight.value.write.entry.record) && PendingOk(s.file, s.flight.value.write)
  {
    hide IsFailure;
    hide PendingOk;
    hide SharedOk;
  }

  lemma FailedKeeps(s: State, p: Policy)
    requires Inv(s, p) && s.flight.Some? && s.flight.value.Writing? && s.flight.value.purpose.Failing?
    ensures Inv(WriteReview(s, true), p)
  {
    hide FlightOk;
    hide FileOk;
    hide IsFailure;
    hide PendingOk;
    hide LineOf;
    FailureWritten(s, p);
    WrittenKeeps(s, s.flight.value.write, p);
    EndsFlight(s.(file := Land(s.file, s.flight.value.write)), p);
  }

  lemma SaveKeeps(s: State, stored: bool, details: Details, p: Policy)
    requires Inv(s, p) && s.flight.Some? && s.flight.value.Logged?
    ensures Inv(SaveReview(s, stored, details, p), p)
  {
    LetGoKeeps(s, p);
    hide LetGo;
    hide BeginWrite;
    hide SharedOk;
    hide AllPendingOk;
    hide PendingOk;
    hide HasOwnRow;
    hide IsFailure;
    hide VerdictOf;
  }

  lemma PendingAdded(s: State, write: Pending, p: Policy)
    requires Inv(s, p) && IsFailure(write.entry.record) && AllPendingOk(s.file, s.pending + [write])
    ensures Inv(s.(pending := s.pending + [write]), p)
  {
    hide SharedOk;
    hide AllPendingOk;
    hide PendingOk;
    hide HasOwnRow;
    hide IsFailure;
    hide VerdictOf;
  }

  lemma RefusedKeeps(s: State, attempt: string, details: Details, p: Policy)
    requires Inv(s, p) && Doubles(p.nearest)
    ensures Inv(Step(s, Refused(attempt, details), p), p)
  {
    var record := FailureRecord(p, attempt, details, false);
    RecordsAre(p, attempt, details, false, "");
    assert FileOk(s);
    hide Inv;
    hide FailureRecord;
    hide IsFailure;
    hide Look;
    hide SharedOk;
    hide AllPendingOk;
    hide PendingOk;
    hide AllUnbroken;
    hide Render;
    hide Prior;
    hide Prepared;
    LookIff(s.file, record, p.nearest);
    if Look(s.file, record, p.nearest).Some? {
      LookKeeps(s.file, s.pending, record, p.nearest);
      PendingAdded(s, Look(s.file, record, p.nearest).value, p);
    }
  }

  lemma PendingKeeps(s: State, pending: seq<Pending>, p: Policy)
    requires Inv(s, p) && AllPendingOk(s.file, pending) && forall w | w in pending :: w in s.pending
    ensures Inv(s.(pending := pending), p)
  {
    hide SharedOk;
    hide AllPendingOk;
    hide PendingOk;
    hide HasOwnRow;
    hide IsFailure;
    hide VerdictOf;
  }

  lemma FinishKeeps(s: State, i: nat, p: Policy)
    requires Inv(s, p) && i < |s.pending|
    ensures Inv(Step(s, Finish(i), p), p) && Inv(Step(s, Abandon(i), p), p)
  {
    assert FileOk(s) && IsFailure(s.pending[i].entry.record);
    WithoutKeeps(s.file, s.pending, i);
    PendingKeeps(s, Without(s.pending, i), p);
    hide Inv;
    hide Without;
    hide Land;
    hide SharedOk;
    hide PendingOk;
    hide AllPendingOk;
    WrittenKeeps(s.(pending := Without(s.pending, i)), s.pending[i], p);
  }

  lemma CrashKeeps(s: State, entering: Option<string>, p: Policy)
    requires Inv(s, p)
    ensures Inv(Step(s, Crash(entering), p), p)
  {
    hide Inv;
    LetGoKeeps(s, p);
    if s.flight.None? {
      LockKeeps(s, true, p);
      if entering.Some? { MetaKeeps(s, entering.value, p); }
    }
    hide LetGo;
  }

  lemma StepKeepsInv(s: State, move: Move, p: Policy)
    requires Inv(s, p) && Doubles(p.nearest)
    ensures Inv(Step(s, move, p), p)
  {
    match move
    case Refused(attempt, details) => RefusedKeeps(s, attempt, details, p);
    case Finish(i) => if i < |s.pending| { FinishKeeps(s, i, p); }
    case Abandon(i) => if i < |s.pending| { FinishKeeps(s, i, p); }
    case Enter(_, _, _, _, _) => if !s.locked { EnterKeeps(s, move, p); }
    case Answered(answer, details) =>
      if s.flight.Some? && s.flight.value.Thinking? { AnswerKeeps(s, answer, details, p); }
    case Write(done) => if s.flight.Some? && s.flight.value.Writing? { WriteKeeps(s, done, p); }
    case Save(stored, details) =>
      if s.flight.Some? && s.flight.value.Logged? { SaveKeeps(s, stored, details, p); }
    case Crash(entering) => CrashKeeps(s, entering, p);
    case Unlock => if s.flight.None? { LockKeeps(s, false, p); }
  }

  lemma {:induction false} RunKeepsInv(s: State, moves: seq<Move>, p: Policy)
    requires Inv(s, p) && Doubles(p.nearest)
    ensures Inv(Run(s, moves, p), p)
  {
    hide Step;
    hide Inv;
    hide Doubles;
    if moves != [] {
      RunKeepsInv(s, moves[..|moves| - 1], p);
      StepKeepsInv(Run(s, moves[..|moves| - 1], p), moves[|moves| - 1], p);
    }
  }

  lemma EmptyInv(p: Policy)
    ensures Inv(EMPTY, p)
  {
    NoFileOk();
  }

  /** In every run of the reviews of one request, with crashes, lost and overlapping appends, broken
      files and refused concurrent reviews anywhere, all verdicts released are one and the same,
      under one fingerprint; and the model is invoked at most `maximum` times beyond the invocations
      whose line was not written. */
  lemma VerdictsAgree(moves: seq<Move>, p: Policy)
    requires Doubles(p.nearest)
    ensures var s := Run(EMPTY, moves, p);
            (forall i, j | 0 <= i < |s.released| && 0 <= j < |s.released| :: s.released[i] == s.released[j]) &&
            s.invocations <= p.maximum + s.lost
  {
    EmptyInv(p);
    RunKeepsInv(EMPTY, moves, p);
    hide Run;
    hide FlightOk;
    hide FileOk;
    hide Doubles;
  }

  lemma BeginWriteAdds(s: State, record: Json, purpose: Purpose, p: Policy)
    ensures var next := BeginWrite(s, record, purpose, p);
            next.file == s.file && next.completed == s.completed && next.released == s.released && next.meta == s.meta
  {
    hide Look;
  }

  lemma EnterAdds(s: State, move: Move, p: Policy)
    requires move.Enter?
    ensures var next := EnterReview(s, move.fingerprint, move.checks, move.recheck, move.attempt, move.details, p);
            next.file == s.file && next.completed == s.completed
  {
    hide BeginWrite;
    hide CacheIntact;
    hide NonBlank;
    hide SplitLines;
    hide FailureRecord;
    var known := s.(meta := if s.meta.None? then Some(move.fingerprint) else s.meta);
    BeginWriteAdds(known, FailureRecord(p, move.attempt, move.details, true), Failing(false), p);
    BeginWriteAdds(known, FailureRecord(p, move.attempt, move.details, false), Failing(false), p);
  }

  /** Lines are only added, and only those of failures once there is a completed verdict. */
  predicate Grown(s: State, next: State) {
    s.file.entries <= next.file.entries && (s.file.overlapped ==> next.file.overlapped) &&
    (s.completed.Some? ==>
       next.completed == s.completed &&
       forall j | |s.file.entries| <= j < |next.file.entries| :: IsFailure(next.file.entries[j].record))
  }

  lemma LandGrows(s: State, next: State, write: Pending)
    requires next.file == Land(s.file, write) && (s.completed.Some? ==> next.completed == s.completed)
    requires s.completed.Some? ==> IsFailure(write.entry.record)
    ensures Grown(s, next)
  {
    hide IsFailure;
    hide LineOf;
  }

  lemma SameGrows(s: State, next: State)
    requires next.file == s.file && (s.completed.Some? ==> next.completed == s.completed)
    ensures Grown(s, next)
  {
  }

  lemma AnswerAdds(s: State, answer: Answer, details: Details, p: Policy)
    requires s.flight.Some? && s.flight.value.Thinking?
    ensures var next := AnswerReview(s, answer, details, p); next.file == s.file && next.completed == s.completed
  {
    hide BeginWrite;
    hide FailureRecord;
    hide VerdictRecord;
    var f := s.flight.value;
    match answer
    case StorageFails =>
    case Unusable(rejected) => BeginWriteAdds(s, FailureRecord(p, f.attempt, details, rejected), Failing(true), p);
    case Accepted(v) =>
      BeginWriteAdds(s, VerdictRecord(p, f.attempt, details, v), Judging(f.fingerprint, f.attempt, v), p);
  }

  lemma SaveAdds(s: State, stored: bool, details: Details, p: Policy)
    requires s.flight.Some? && s.flight.value.Logged? && s.completed.None?
    ensures SaveReview(s, stored, details, p).file == s.file
  {
    hide BeginWrite;
  }

  lemma WriteAdds(s: State, done: bool)
    requires s.flight.Some? && s.flight.value.Writing?
    requires s.completed.Some? ==> IsFailure(s.flight.value.write.entry.record)
    ensures Grown(s, WriteReview(s, done))
  {
    hide Grown;
    hide IsFailure;
    hide Land;
    if done {
      LandGrows(s, WriteReview(s, done), s.flight.value.write);
    } else {
      SameGrows(s, WriteReview(s, done));
    }
  }

  lemma OnlyFailuresLeft(s: State, p: Policy)
    requires Inv(s, p)
    ensures s.flight.Some? && s.flight.value.Logged? ==> s.completed.None?
    ensures s.flight.Some? && s.flight.value.Writing? && s.completed.Some? ==> IsFailure(s.flight.value.write.entry.record)
    ensures forall i | 0 <= i < |s.pending| :: IsFailure(s.pending[i].entry.record)
  {
    hide SharedOk;
    hide AllPendingOk;
    hide PendingOk;
    hide HasOwnRow;
    hide IsFailure;
    hide VerdictOf;
  }

  lemma StepAdds(s: State, move: Move, p: Policy)
    requires Inv(s, p)
    ensures Grown(s, Step(s, move, p))
  {
    hide Inv;
    hide Grown;
    hide IsFailure;
    hide EnterReview;
    hide AnswerReview;
    hide SaveReview;
    hide WriteReview;
    hide Look;
    hide Land;
    hide Without;
    hide FailureRecord;
    OnlyFailuresLeft(s, p);
    var next := Step(s, move, p);
    match move
    case Finish(i) =>
      if i < |s.pending| { LandGrows(s, next, s.pending[i]); } else { SameGrows(s, next); }
    case Enter(_, _, _, _, _) => EnterAdds(s, move, p); SameGrows(s, next);
    case Answered(answer, details) =>
      if s.flight.Some? && s.flight.value.Thinking? { AnswerAdds(s, answer, details, p); }
      SameGrows(s, next);
    case Write(done) =>
      if s.flight.Some? && s.flight.value.Writing? { WriteAdds(s, done); } else { SameGrows(s, next); }
    case Save(stored, details) =>
      if s.flight.Some? && s.flight.value.Logged? { SaveAdds(s, stored, details, p); }
      SameGrows(s, next);
    case _ => SameGrows(s, next);
  }

  lemma GrowsOn(a: State, b: State, c: State)
    requires Grown(a, b) && Grown(b, c)
    ensures Grown(a, c)
  {
    hide IsFailure;
    forall j | |a.file.entries| <= j < |c.file.entries| && a.completed.Some? ensures IsFailure(c.file.entries[j].record) {
      assert j < |b.file.entries| ==> c.file.entries[j] == b.file.entries[j];
    }
  }

  /** The completed verdict never changes, lines are only ever added, and after it only failures. */
  lemma {:induction false} CompletedIsImmutable(s: State, moves: seq<Move>, p: Policy)
    requires Inv(s, p) && Doubles(p.nearest)
    ensures Inv(Run(s, moves, p), p) && Grown(s, Run(s, moves, p))
  {
    hide Inv;
    hide Step;
    hide Doubles;
    if moves != [] {
      var before := Run(s, moves[..|moves| - 1], p);
      CompletedIsImmutable(s, moves[..|moves| - 1], p);
      hide Grown;
      StepKeepsInv(before, moves[|moves| - 1], p);
      StepAdds(before, moves[|moves| - 1], p);
      GrowsOn(s, before, Step(before, moves[|moves| - 1], p));
    }
  }

  // ------------------------------------------------------ replays

  /** No attempt was recorded after the verdict's own. */
  predicate NothingSince(entries: seq<Entry>) {
    entries != [] && Field(entries[|entries| - 1].record, "outcome") == Str("VERDICT")
  }

  /** The attempts file still vouches for the verdict: nothing was recorded after it, every record
      comes back the same from its own text and breaks over no line, and no appends overlapped. */
  predicate Vouched(f: Shared, nearest: Nearest) {
    NothingSince(f.entries) && AllStable(f.entries, nearest) && AllUnbroken(f.entries) && !f.overlapped
  }

  lemma FieldBack(record: Json, key: string, nearest: Nearest)
    ensures Field(record, key).Str? ==> Field(Returned(record, nearest), key) == Field(record, key)
  {
    if record.Obj? {
      MembersReturned(record, nearest);
      if key in record.fields && record.fields[key].Str? { TextBack(record.fields[key].s, nearest); }
    }
    hide Returned;
  }

  lemma ItemIsOwn(e: Entry, attempt: string, verdict: string, p: Policy)
    requires VerdictOf(e.record, attempt, verdict, p)
    ensures VerdictOf(Returned(e.record, p.nearest), attempt, verdict, p)
  {
    hide Returned;
    hide Field;
    FieldBack(e.record, "attempt_id", p.nearest);
    FieldBack(e.record, "request_id", p.nearest);
    FieldBack(e.record, "outcome", p.nearest);
    FieldBack(e.record, "validated_verdict", p.nearest);
  }

  /** Of the entries with a verdict's own row, the last is that row or a failure. */
  lemma LastIsOwn(entries: seq<Entry>, c: Completed, p: Policy)
    requires HasOwnRow(entries, c, p)
    ensures entries != []
    ensures var last := entries[|entries| - 1];
            if NothingSince(entries) then HashIn(last) == c.hash && VerdictOf(last.record, c.attempt, c.verdict, p)
            else IsFailure(last.record)
  {
    hide HashIn;
    var k :| 0 <= k < |entries| && OwnRowAt(entries, k, c, p);
    if k < |entries| - 1 { FailureIsNoVerdict(entries[|entries| - 1].record); }
    hide Field;
    hide IsFailure;
  }

  lemma FinalIsLast(f: Shared, nearest: Nearest)
    requires SharedOk(f) && Doubles(nearest) && AllUnbroken(f.entries)
    ensures FinalItem(SplitLines(f.text), nearest) == FinalOf(f.entries, nearest)
  {
    hide AllUnbroken;
    hide AllStable;
    hide AllWritable;
    hide Chained;
    hide FileOf;
    hide SplitLines;
    hide NonBlank;
    hide LastHash;
    hide ChainEnd;
    hide FinalItem;
    hide FinalOf;
    hide Prior;
    hide Link;
    FileReads(f.entries, nearest);
  }

  /** The checks of the cached verdict against the attempts file pass exactly then. */
  lemma IntactIff(f: Shared, c: Completed, p: Policy)
    requires SharedOk(f) && HasOwnRow(f.entries, c, p) && Doubles(p.nearest)
    ensures CacheIntact(f.text, c, p) <==> Vouched(f, p.nearest)
  {
    hide AllUnbroken;
    hide AllStable;
    hide SharedOk;
    hide HasOwnRow;
    hide IsFailure;
    hide VerdictOf;
    hide NothingSince;
    hide Verifies;
    hide FinalItem;
    hide SplitLines;
    hide Returned;
    hide HashIn;
    hide Doubles;
    SharedVerifiesIff(f, p.nearest);
    if Verifies(f.text, p.nearest) {
      FinalIsLast(f, p.nearest);
      LastIsOwn(f.entries, c, p);
      var last := f.entries[|f.entries| - 1];
      var item := Persisted(last.previous, Returned(last.record, p.nearest), HashIn(last));
      assert Field(item, "record") == Returned(last.record, p.nearest) && Field(item, "record_hash") == Str(HashIn(last));
      if NothingSince(f.entries) {
        ItemIsOwn(last, c.attempt, c.verdict, p);
      } else {
        FailureStays(last.record, c, p);
      }
    }
  }

  lemma FailureStays(record: Json, c: Completed, p: Policy)
    requires IsFailure(record)
    ensures !VerdictOf(Returned(record, p.nearest), c.attempt, c.verdict, p)
  {
    FieldBack(record, "outcome", p.nearest);
    FailureIsNoVerdict(record);
    hide Returned;
    hide Field;
  }

  lemma ReplayReleases(s: State, c: Completed, recheck: Recheck, failure: Json, p: Policy)
    ensures Replay(s, c, recheck, failure, p).released != s.released <==> recheck.Same? && CacheIntact(s.file.text, c, p)
  {
    hide CacheIntact;
    hide BeginWrite;
    BeginWriteAdds(s, failure, Failing(false), p);
  }

  /** A replay of a completed request gets the verdict back exactly when it is the same request,
      passes its own checks, and the attempts file still vouches for it. */
  lemma ReplayReleasesIff(s: State, move: Move, p: Policy)
    requires Inv(s, p) && s.completed.Some? && !s.locked && move.Enter? && Doubles(p.nearest)
    ensures Step(s, move, p).released != s.released <==>
            move.fingerprint == s.completed.value.fingerprint && move.checks.Ready? && move.recheck.Same? &&
            Vouched(s.file, p.nearest)
  {
    assert s.meta == Some(s.completed.value.fingerprint) && SharedOk(s.file) &&
           HasOwnRow(s.file.entries, s.completed.value, p);
    hide Inv;
    hide Vouched;
    hide CacheIntact;
    hide FailureRecord;
    hide BeginWrite;
    hide Replay;
    hide SharedOk;
    hide HasOwnRow;
    IntactIff(s.file, s.completed.value, p);
    ReplayReleases(s, s.completed.value, move.recheck, FailureRecord(p, move.attempt, move.details, false), p);
    BeginWriteAdds(s, FailureRecord(p, move.attempt, move.details, true), Failing(false), p);
    BeginWriteAdds(s, FailureRecord(p, move.attempt, move.details, false), Failing(false), p);
    assert s.(meta := s.meta) == s;
  }

  /** Once completed and not vouched for, whether by an attempt recorded since, by a record that
      does not come back, or by appends that overlapped, the verdict is withheld for good. */
  lemma WithheldForGood(s: State, rest: seq<Move>, move: Move, p: Policy)
    requires Inv(s, p) && s.completed.Some? && !Vouched(s.file, p.nearest) && move.Enter? && Doubles(p.nearest)
    ensures var later := Run(s, rest, p);
            !Vouched(later.file, p.nearest) && Step(later, move, p).released == later.released
  {
    hide Inv;
    hide Run;
    hide Vouched;
    hide Doubles;
    hide EnterReview;
    CompletedIsImmutable(s, rest, p);
    var later := Run(s, rest, p);
    if Vouched(later.file, p.nearest) { VouchingEnds(s, later, p); }
    if !later.locked { ReplayReleasesIff(later, move, p); }
  }

  lemma VouchingEnds(s: State, later: State, p: Policy)
    requires Grown(s, later) && s.completed.Some? && Vouched(later.file, p.nearest)
    ensures Vouched(s.file, p.nearest)
  {
    var entries, more := s.file.entries, later.file.entries;
    hide AllStable;
    hide AllUnbroken;
    hide Field;
    hide IsFailure;
    if |more| > |entries| {
      FailureIsNoVerdict(more[|more| - 1].record);
    } else {
      assert more == entries;
    }
  }

  // ------------------------------------------------------ withheld from the start

  /** A verdict is completed and released once, nothing was recorded after it, and yet every replay
      there will ever be is refused it. */
  ghost predicate LostAtOnce(s: State, p: Policy) {
    s.completed.Some? && |s.released| == 1 && NothingSince(s.file.entries) &&
    forall rest, move: Move | move.Enter? :: Step(Run(s, rest, p), move, p).released == Run(s, rest, p).released
  }

  function FirstEnter(): Move { Enter("f", Ready, Same, "a", map[]) }

  const UNSTABLE: Details := map["correlation_id" := Dec(Decimal(false, 1, 64))]
  const BROKEN: Details := map["retry_of" := Str(['\U{2028}'])]

  /** While the model is asked, a review of the same request with the correlation id 1E+64 fails to
      take the lock. */
  function UnstableMoves(): seq<Move> {
    [FirstEnter(), Refused("b", UNSTABLE), Finish(0), Answered(Accepted("APPROVE"), map[]), Write(true), Save(true, map[])]
  }

  /** The review itself is given a `retry_of` with the character U+2028. */
  function BrokenMoves(): seq<Move> {
    [FirstEnter(), Answered(Accepted("APPROVE"), BROKEN), Write(true), Save(true, map[])]
  }

  /** A refused review has read the file when the verdict's own append reads it, and writes first. */
  function OverlappingMoves(): seq<Move> {
    [FirstEnter(), Refused("b", map[]), Answered(Accepted("APPROVE"), map[]), Finish(0), Write(true), Save(true, map[])]
  }

  lemma NextMove(moves: seq<Move>, n: nat, p: Policy)
    requires n < |moves|
    ensures Run(EMPTY, moves[..n + 1], p) == Step(Run(EMPTY, moves[..n], p), moves[n], p)
  {
    hide Step;
    assert moves[..n + 1][..n] == moves[..n] && moves[..n + 1][n] == moves[n];
  }

  lemma NoMoves(moves: seq<Move>, p: Policy)
    ensures Run(EMPTY, moves[..0], p) == EMPTY
  {
  }

  const ASKED := EMPTY.(meta := Some("f"), locked := true, flight := Some(Thinking("f", "a")), invocations := 1)

  lemma Entered(p: Policy)
    requires p.maximum > 0
    ensures Step(EMPTY, FirstEnter(), p) == ASKED
  {
    assert SplitLines("") == [];
    hide SplitLines;
    hide BeginWrite;
    hide FailureRecord;
  }

  predicate Prints(fields: Details) { forall k | k in fields :: fields[k].Str? || Render(fields[k]).Ok? }

  lemma FieldsPrint(fields: Details)
    requires Prints(fields)
    ensures Render(Obj(fields)).Ok?
  {
    RendersIff(Obj(fields));
    forall k | k in fields ensures Printable(fields[k]) { RendersIff(fields[k]); }
    hide Render;
  }

  /** Details that print make records that print. */
  lemma RecordsPrint(p: Policy, attempt: string, details: Details, rejected: bool, verdict: string)
    requires Prints(details)
    ensures Render(FailureRecord(p, attempt, details, rejected)).Ok? && Render(VerdictRecord(p, attempt, details, verdict)).Ok?
  {
    hide Render;
    FieldsPrint(FailureRecord(p, attempt, details, rejected).fields);
    FieldsPrint(VerdictRecord(p, attempt, details, verdict).fields);
  }

  lemma BrokenDetails(p: Policy)
    ensures Prints(BROKEN)
    ensures !Unbroken(VerdictRecord(p, "a", BROKEN, "APPROVE"))
  {
    var fields := VerdictRecord(p, "a", BROKEN, "APPROVE").fields;
    assert |"retry_of"| == 8 && |"attempt_id"| == |"request_id"| == 10 && |"outcome"| == 7 && |"validated_verdict"| == 17;
    assert "retry_of" in fields && fields["retry_of"] == BROKEN["retry_of"];
    assert IsSeparator(BROKEN["retry_of"].s[0]);
  }

  lemma OneMoreField(fields: Details, key: string, v: Json)
    requires Unbroken(Obj(fields)) && !HasSeparator(key) && Unbroken(v)
    ensures Unbroken(Obj(fields[key := v]))
  {
    hide HasSeparator;
  }

  lemma UnstablePrints(p: Policy)
    ensures Prints(UNSTABLE) && !Stable(FailureRecord(p, "b", UNSTABLE, false), p.nearest)
  {
    LargePowerIsUnstable(p.nearest);
    hide Render;
    var fields := FailureRecord(p, "b", UNSTABLE, false).fields;
    assert |"correlation_id"| == 14 && |"attempt_id"| == |"request_id"| == 10 && |"outcome"| == 7;
    assert "correlation_id" in fields && fields["correlation_id"] == Dec(Decimal(false, 1, 64));
  }

  lemma UnstableIsUnbroken(p: Policy)
    requires p.request == "r"
    ensures Unbroken(FailureRecord(p, "b", UNSTABLE, false))
  {
    ShortNames();
    hide HasSeparator;
    OneMoreField(map[], "correlation_id", Dec(Decimal(false, 1, 64)));
    var one := UNSTABLE["attempt_id" := Str("b")];
    var two := one["request_id" := Str("r")];
    TextIsUnbroken("b");
    TextIsUnbroken("r");
    TextIsUnbroken("TECHNICAL_FAILURE");
    hide Unbroken;
    OneMoreField(UNSTABLE, "attempt_id", Str("b"));
    OneMoreField(one, "request_id", Str("r"));
    OneMoreField(two, "outcome", Str("TECHNICAL_FAILURE"));
  }

  lemma TextIsUnbroken(s: string)
    requires !HasSeparator(s)
    ensures Unbroken(Str(s))
  {
  }

  lemma ShortNames()
    ensures !HasSeparator("correlation_id") && !HasSeparator("attempt_id") && !HasSeparator("request_id")
    ensures !HasSeparator("outcome") && !HasSeparator("b") && !HasSeparator("r") && !HasSeparator("TECHNICAL_FAILURE")
  {
  }

  lemma VerdictIsMarked(p: Policy, attempt: string, details: Details, verdict: string)
    ensures Field(VerdictRecord(p, attempt, details, verdict), "outcome") == Str("VERDICT")
  {
    assert |"outcome"| == 7 && |"validated_verdict"| == 17;
  }

  /** The verdict of a review that waits for it gets its line, its completion and its release. */
  lemma Completes(s: State, details: Details, p: Policy)
    requires FileOk(s) && s.completed.None? && s.flight == Some(Thinking("f", "a")) && Doubles(p.nearest)
    requires AllUnbroken(s.file.entries) && Render(VerdictRecord(p, "a", details, "APPROVE")).Ok?
    ensures var write := Pending(Entry(Prior(s.file.entries), VerdictRecord(p, "a", details, "APPROVE")), |s.file.entries|);
            Step(s, Answered(Accepted("APPROVE"), details), p) ==
              s.(locked := true, flight := Some(Writing(write, Judging("f", "a", "APPROVE"))))
  {
    hide SharedOk;
    hide AllPendingOk;
    hide PendingOk;
    hide AllUnbroken;
    hide VerdictRecord;
    hide Look;
    hide Prior;
    hide Render;
    hide Prepared;
    LookIff(s.file, VerdictRecord(p, "a", details, "APPROVE"), p.nearest);
  }

  lemma RefusedLooks(s: State, details: Details, p: Policy)
    requires FileOk(s) && AllUnbroken(s.file.entries) && Doubles(p.nearest)
    requires Render(FailureRecord(p, "b", details, false)).Ok?
    ensures var write := Pending(Entry(Prior(s.file.entries), FailureRecord(p, "b", details, false)), |s.file.entries|);
            Step(s, Refused("b", details), p) == s.(pending := s.pending + [write])
  {
    hide SharedOk;
    hide AllPendingOk;
    hide PendingOk;
    hide AllUnbroken;
    hide FailureRecord;
    hide Look;
    hide Prior;
    hide Render;
    hide Prepared;
    LookIff(s.file, FailureRecord(p, "b", details, false), p.nearest);
  }

  /** The last two moves of such a review. */
  lemma Publishes(s: State, write: Pending, p: Policy)
    requires s.completed.None? && s.flight == Some(Writing(write, Judging("f", "a", "APPROVE")))
    ensures var done := Step(Step(s, Write(true), p), Save(true, map[]), p);
            done.file == Land(s.file, write) && done.completed.Some? && |done.released| == |s.released| + 1
  {
    hide Land;
    hide HashIn;
    hide BeginWrite;
  }

  lemma LostIfUnvouched(moves: seq<Move>, p: Policy)
    requires Doubles(p.nearest)
    requires var s := Run(EMPTY, moves, p);
             s.completed.Some? && |s.released| == 1 && NothingSince(s.file.entries) && !Vouched(s.file, p.nearest)
    ensures LostAtOnce(Run(EMPTY, moves, p), p)
  {
    hide Inv;
    hide Run;
    hide Step;
    hide Vouched;
    hide NothingSince;
    hide Doubles;
    EmptyInv(p);
    RunKeepsInv(EMPTY, moves, p);
    var s := Run(EMPTY, moves, p);
    forall rest, move: Move | move.Enter? ensures Step(Run(s, rest, p), move, p).released == Run(s, rest, p).released {
      WithheldForGood(s, rest, move, p);
    }
  }

  /** What a review's own line does to what vouches for it. */
  lemma LastLine(f: Shared, write: Pending, nearest: Nearest)
    requires Field(write.entry.record, "outcome") == Str("VERDICT")
    ensures NothingSince(Land(f, write).entries)
    ensures !Unbroken(write.entry.record) || write.seen != |f.entries| || !AllStable(f.entries, nearest) ==>
              !Vouched(Land(f, write), nearest)
  {
    hide Field;
    hide LineOf;
    hide AllStable;
    hide AllUnbroken;
    hide Unbroken;
    hide Stable;
    EntriesSnoc(f.entries, write.entry, nearest);
  }

  lemma BrokenRun(p: Policy)
    requires p.maximum > 0 && Doubles(p.nearest)
    ensures var s := Run(EMPTY, BrokenMoves(), p);
            s.file == Land(NO_FILE, Pending(Entry(Prior([]), VerdictRecord(p, "a", BROKEN, "APPROVE")), 0)) &&
            s.completed.Some? && |s.released| == 1
  {
    hide Run;
    hide Step;
    hide VerdictRecord;
    hide Render;
    hide Unbroken;
    hide Land;
    hide Doubles;
    hide HashIn;
    hide Prints;
    var moves, write := BrokenMoves(), Pending(Entry(Prior([]), VerdictRecord(p, "a", BROKEN, "APPROVE")), 0);
    EmptyInv(p);
    Entered(p);
    BrokenDetails(p);
    RecordsPrint(p, "a", BROKEN, false, "APPROVE");
    Completes(ASKED, BROKEN, p);
    Publishes(ASKED.(flight := Some(Writing(write, Judging("f", "a", "APPROVE")))), write, p);
    NoMoves(moves, p);
    NextMove(moves, 0, p);
    NextMove(moves, 1, p);
    NextMove(moves, 2, p);
    NextMove(moves, 3, p);
    assert moves[..4] == moves;
  }

  lemma BrokenIsLost(p: Policy)
    requires p.maximum > 0 && Doubles(p.nearest)
    ensures LostAtOnce(Run(EMPTY, BrokenMoves(), p), p)
  {
    hide Run;
    hide VerdictRecord;
    hide Render;
    hide Unbroken;
    hide Land;
    hide Doubles;
    hide Vouched;
    hide NothingSince;
    hide LostAtOnce;
    hide Prints;
    BrokenDetails(p);
    BrokenRun(p);
    VerdictIsMarked(p, "a", BROKEN, "APPROVE");
    LastLine(NO_FILE, Pending(Entry(Prior([]), VerdictRecord(p, "a", BROKEN, "APPROVE")), 0), p.nearest);
    LostIfUnvouched(BrokenMoves(), p);
  }

  /** The write of the refused review's failure. */
  function RefusedWrite(p: Policy, details: Details): Pending {
    Pending(Entry(Prior([]), FailureRecord(p, "b", details, false)), 0)
  }

  lemma ToRefused(moves: seq<Move>, details: Details, p: Policy)
    requires |moves| >= 2 && moves[0] == FirstEnter() && moves[1] == Refused("b", details)
    requires p.maximum > 0 && Doubles(p.nearest) && Prints(details)
    ensures Run(EMPTY, moves[..2], p) == ASKED.(pending := [RefusedWrite(p, details)])
    ensures Inv(Run(EMPTY, moves[..2], p), p)
  {
    hide Run;
    hide Step;
    hide FailureRecord;
    hide VerdictRecord;
    hide Render;
    hide Doubles;
    hide Prints;
    EmptyInv(p);
    RunKeepsInv(EMPTY, moves[..2], p);
    Entered(p);
    RecordsPrint(p, "b", details, false, "");
    RefusedLooks(ASKED, details, p);
    hide Inv;
    NoMoves(moves, p);
    NextMove(moves, 0, p);
    NextMove(moves, 1, p);
    assert [] + [RefusedWrite(p, details)] == [RefusedWrite(p, details)];
  }

  /** The file with the refused review's failure in it. */
  function RefusedFile(p: Policy, details: Details): Shared { Land(NO_FILE, RefusedWrite(p, details)) }

  function VerdictWrite(p: Policy, entries: seq<Entry>): Pending {
    Pending(Entry(Prior(entries), VerdictRecord(p, "a", map[], "APPROVE")), |entries|)
  }

  lemma FinishFirst(s: State, p: Policy)
    requires |s.pending| == 1
    ensures Step(s, Finish(0), p) == s.(file := Land(s.file, s.pending[0]), pending := [])
  {
    hide Land;
    assert Without(s.pending, 0) == [];
  }

  lemma UnstableRun(p: Policy)
    requires p.maximum > 0 && Doubles(p.nearest) && p.request == "r"
    ensures var s := Run(EMPTY, UnstableMoves(), p);
            s.file == Land(RefusedFile(p, UNSTABLE), VerdictWrite(p, RefusedFile(p, UNSTABLE).entries)) &&
            s.completed.Some? && |s.released| == 1
  {
    hide Run;
    hide Step;
    hide Render;
    hide Unbroken;
    hide Doubles;
    hide Prints;
    hide Inv;
    hide FailureRecord;
    hide VerdictRecord;
    hide LineOf;
    hide Prior;
    hide SharedOk;
    var moves, file := UnstableMoves(), RefusedFile(p, UNSTABLE);
    UnstablePrints(p);
    UnstableIsUnbroken(p);
    ToRefused(moves, UNSTABLE, p);
    NextMove(moves, 2, p);
    NextMove(moves, 3, p);
    NextMove(moves, 4, p);
    NextMove(moves, 5, p);
    assert moves[..6] == moves;
    var two := ASKED.(pending := [RefusedWrite(p, UNSTABLE)]);
    FinishFirst(two, p);
    var three := ASKED.(file := file);
    InvHasFile(two, Finish(0), p);
    NoDetails();
    RecordsPrint(p, "a", map[], false, "APPROVE");
    assert file.entries == [RefusedWrite(p, UNSTABLE).entry];
    Completes(three, map[], p);
    var write := VerdictWrite(p, file.entries);
    Publishes(three.(flight := Some(Writing(write, Judging("f", "a", "APPROVE")))), write, p);
  }

  lemma NoDetails()
    ensures Prints(map[])
  {
  }

  lemma InvHasFile(s: State, move: Move, p: Policy)
    requires Inv(s, p) && Doubles(p.nearest)
    ensures FileOk(Step(s, move, p))
  {
    StepKeepsInv(s, move, p);
    hide Step;
    hide FileOk;
  }

  lemma UnstableIsLost(p: Policy)
    requires p.maximum > 0 && Doubles(p.nearest) && p.request == "r"
    ensures LostAtOnce(Run(EMPTY, UnstableMoves(), p), p)
  {
    hide Run;
    hide VerdictRecord;
    hide FailureRecord;
    hide Render;
    hide Unbroken;
    hide Stable;
    hide Doubles;
    hide Vouched;
    hide NothingSince;
    hide LostAtOnce;
    hide Prints;
    hide LineOf;
    UnstablePrints(p);
    UnstableRun(p);
    var file := RefusedFile(p, UNSTABLE);
    assert file.entries == [RefusedWrite(p, UNSTABLE).entry] && file.entries[0] in file.entries;
    assert !AllStable(file.entries, p.nearest);
    hide AllStable;
    hide RefusedFile;
    VerdictIsMarked(p, "a", map[], "APPROVE");
    LastLine(file, VerdictWrite(p, file.entries), p.nearest);
    LostIfUnvouched(UnstableMoves(), p);
  }

  lemma OverlappingRun(p: Policy)
    requires p.maximum > 0 && Doubles(p.nearest)
    ensures var s := Run(EMPTY, OverlappingMoves(), p);
            s.file == Land(RefusedFile(p, map[]), VerdictWrite(p, [])) && s.completed.Some? && |s.released| == 1
  {
    hide Run;
    hide Step;
    hide Render;
    hide Unbroken;
    hide Doubles;
    hide Prints;
    hide FailureRecord;
    hide VerdictRecord;
    hide Land;
    hide Prior;
    hide SharedOk;
    var moves := OverlappingMoves();
    NoDetails();
    ToRefused(moves, map[], p);
    NextMove(moves, 2, p);
    NextMove(moves, 3, p);
    NextMove(moves, 4, p);
    NextMove(moves, 5, p);
    assert moves[..6] == moves;
    var two := ASKED.(pending := [RefusedWrite(p, map[])]);
    assert FileOk(two);
    RecordsPrint(p, "a", map[], false, "APPROVE");
    Completes(two, map[], p);
    var write := VerdictWrite(p, []);
    var three := two.(flight := Some(Writing(write, Judging("f", "a", "APPROVE"))));
    FinishFirst(three, p);
    Publishes(three.(file := RefusedFile(p, map[]), pending := []), write, p);
  }

  lemma OverlappingIsLost(p: Policy)
    requires p.maximum > 0 && Doubles(p.nearest)
    ensures LostAtOnce(Run(EMPTY, OverlappingMoves(), p), p)
  {
    hide Run;
    hide VerdictRecord;
    hide FailureRecord;
    hide Render;
    hide Doubles;
    hide Vouched;
    hide NothingSince;
    hide LostAtOnce;
    hide LineOf;
    OverlappingRun(p);
    var file := RefusedFile(p, map[]);
    assert |file.entries| == 1;
    hide RefusedFile;
    VerdictIsMarked(p, "a", map[], "APPROVE");
    LastLine(file, VerdictWrite(p, []), p.nearest);
    LostIfUnvouched(OverlappingMoves(), p);
  }

  /** Three runs from an empty directory in which no attempt follows the completed verdict and no
      replay ever gets it: a refused review's record that does not come back from its text, the
      review's own record broken by a character, and two appends that overlap. */
  lemma VerdictsLostAtOnce(maximum: nat, nearest: Nearest)
    requires maximum > 0 && Doubles(nearest)
    ensures var p := Policy("r", maximum, nearest);
            LostAtOnce(Run(EMPTY, UnstableMoves(), p), p) && LostAtOnce(Run(EMPTY, BrokenMoves(), p), p) &&
            LostAtOnce(Run(EMPTY, OverlappingMoves(), p), p)
  {
    hide Run;
    hide LostAtOnce;
    var p := Policy("r", maximum, nearest);
    UnstableIsLost(p);
    BrokenIsLost(p);
    OverlappingIsLost(p);
  }

  // ------------------------------------------------------ the service and its directory

  /** The files of one request, with counts of what was done. */
  class RequestDirectory {
    var meta: Option<string>
    const log: AttemptsLog
    var completed: Option<Completed>
    var locked: bool
    ghost var entries: seq<Entry>
    ghost var overlapped: bool
    ghost var pending: seq<Pending>
    ghost var flight: Option<Flight>
    ghost var invocations: nat
    ghost var lost: nat
    ghost var released: seq<Released>

    constructor ()
      ensures Contents() == EMPTY && fresh(log)
    {
      meta, completed, locked := None, None, false;
      log := new AttemptsLog();
      entries, overlapped, pending, flight := [], false, [], None;
      invocations, lost, released := 0, 0, [];
    }

    ghost function File(): Shared
      reads this, log
    {
      Shared(log.text, entries, overlapped)
    }

    ghost function Contents(): State
      reads this, log
    {
      State(meta, File(), pending, completed, locked, flight, invocations, lost, released)
    }

    method EnsureRequestMetadata(fingerprint: string) returns (same: bool)
      modifies this`meta
      ensures meta == (if old(meta).None? then Some(fingerprint) else old(meta)) && same == (meta == Some(fingerprint))
    {
      if meta.None? { meta := Some(fingerprint); }
      same := meta == Some(fingerprint);
    }

    /** `append_attempt`, undisturbed: the hash of the attempt, or nothing when its reading or its
        write raises. */
    method AppendAttempt(record: Json, done: bool, p: Policy) returns (hash: Option<string>)
      modifies this`entries, this`overlapped, log
      ensures var write := Look(old(File()), record, p.nearest);
              if write.Some? && done
              then File() == Land(old(File()), write.value) && hash == Some(HashIn(write.value.entry))
              else File() == old(File()) && hash == None
    {
      hide Prepared;
      hide LineOf;
      hide HashIn;
      var entry := log.PrepareAttempt(record, p.nearest);
      if entry.Err? || !done { return None; }
      log.WriteLine(entry.value);
      entries := entries + [entry.value];
      return Some(HashIn(entry.value));
    }

    /** The lock holder's append, and the end of its review when that was a failure's. */
    method LogFailure(record: Json, asked: bool, done: bool, p: Policy)
      requires Asked(flight) == if asked then 1 else 0
      modifies this, log
      ensures Contents() == Settle(BeginWrite(old(Contents()), record, Failing(asked), p), done)
      ensures flight.None?
    {
      hide Look;
      hide Land;
      hide HashIn;
      var hash := AppendAttempt(record, done, p);
      if asked && hash.None? { lost := lost + 1; }
      locked := false;
      flight := None;
    }

    /** `_validated_cached_result` on the attempts file. */
    method ChecksOut(c: Completed, p: Policy) returns (intact: bool)
      ensures intact == CacheIntact(log.text, c, p)
    {
      hide Verifies;
      hide FinalItem;
      hide SplitLines;
      hide VerdictOf;
      hide Field;
      var verifies := log.VerifyChain(p.nearest);
      if !verifies { return false; }
      var final := log.FinalAttempt(p.nearest);
      if !final.Attempt? { return false; }
      return Field(final.item, "record_hash") == Str(c.hash) &&
             VerdictOf(Field(final.item, "record"), c.attempt, c.verdict, p);
    }
  }

  /** `review` where a verdict is completed. */
  method ReplayCached(d: RequestDirectory, c: Completed, recheck: Recheck, failure: Json, done: bool, p: Policy)
    returns (verdict: Option<string>)
    requires !d.locked && d.flight.None?
    modifies d, d.log
    ensures d.Contents() == Settle(Replay(old(d.Contents()), c, recheck, failure, p), done)
    ensures d.flight.None?
    ensures d.released == old(d.released) + if verdict.Some? then [Released(c.fingerprint, verdict.value)] else []
  {
    hide CacheIntact;
    hide BeginWrite;
    hide WriteReview;
    verdict := None;
    ghost var before := d.Contents();
    SettledReleases(before, failure, p, done);
    if recheck.OtherIdentity? {
      d.LogFailure(failure, false, done, p);
      return;
    }
    var intact := d.ChecksOut(c, p);
    if !intact || recheck.Differs? { return; }
    if recheck.Refuses? {
      d.LogFailure(failure, false, done, p);
    } else {
      verdict := Some(c.verdict);
      d.released := d.released + [Released(c.fingerprint, c.verdict)];
    }
  }

  lemma SettledReleases(s: State, failure: Json, p: Policy, done: bool)
    ensures Settle(BeginWrite(s, failure, Failing(false), p), done).released == s.released
  {
    hide Look;
    hide Land;
  }

  /** `review` up to the call of the model: the verdict of an earlier review, or that the model is
      to be asked. */
  method Prepare(d: RequestDirectory, fingerprint: string, checks: Checks, recheck: Recheck, attempt: string,
                 details: Details, done: bool, p: Policy)
    returns (verdict: Option<string>, waiting: bool)
    requires !d.locked && d.flight.None?
    requires d.completed.Some? ==> d.meta == Some(d.completed.value.fingerprint)
    modifies d, d.log
    ensures d.Contents() ==
            Settle(EnterReview(old(d.Contents()), fingerprint, checks, recheck, attempt, details, p), done)
    ensures d.released == old(d.released) + if verdict.Some? then [Released(fingerprint, verdict.value)] else []
    ensures waiting ==> verdict.None? && d.flight == Some(Thinking(fingerprint, attempt)) && d.locked
    ensures !waiting ==> d.flight.None?
  {
    hide FailureRecord;
    hide BeginWrite;
    hide WriteReview;
    hide Replay;
    hide NonBlank;
    hide SplitLines;
    verdict, waiting := None, false;
    var same := d.EnsureRequestMetadata(fingerprint);
    ghost var known := d.Contents();
    if !same || checks.Fails? {
      var rejected := !same || checks.rejected;
      SettledReleases(known, FailureRecord(p, attempt, details, rejected), p, done);
      d.LogFailure(FailureRecord(p, attempt, details, rejected), false, done, p);
    } else if d.completed.Some? {
      verdict := ReplayCached(d, d.completed.value, recheck, FailureRecord(p, attempt, details, false), done, p);
    } else {
      var count := d.log.AttemptCount();
      if count >= p.maximum {
        SettledReleases(known, FailureRecord(p, attempt, details, false), p, done);
        d.LogFailure(FailureRecord(p, attempt, details, false), false, done, p);
      } else {
        d.locked, waiting := true, true;
        d.invocations := d.invocations + 1;
        d.flight := Some(Thinking(fingerprint, attempt));
      }
    }
  }

  /** The answer of the model, logged. */
  method LogAnswer(d: RequestDirectory, fingerprint: string, attempt: string, answer: Answer, details: Details,
                   done: bool, p: Policy)
    returns (result: Option<Completed>)
    requires d.flight == Some(Thinking(fingerprint, attempt)) && d.locked
    modifies d, d.log
    ensures d.Contents() == Settle(AnswerReview(old(d.Contents()), answer, details, p), done)
    ensures d.flight == if result.Some? then Some(Logged(result.value)) else None
    ensures result.Some? ==> result.value.fingerprint == fingerprint && d.locked
    ensures d.released == old(d.released)
  {
    hide FailureRecord;
    hide VerdictRecord;
    hide Look;
    hide HashIn;
    hide LineOf;
    result := None;
    match answer
    case StorageFails =>
      d.locked, d.flight := false, None;
      d.lost := d.lost + 1;
    case Unusable(rejected) =>
      d.LogFailure(FailureRecord(p, attempt, details, rejected), true, done, p);
    case Accepted(verdict) =>
      var hash := d.AppendAttempt(VerdictRecord(p, attempt, details, verdict), done, p);
      if hash.Some? {
        result := Some(Completed(attempt, fingerprint, verdict, hash.value));
        d.flight := Some(Logged(result.value));
      } else {
        d.locked, d.flight := false, None;
        d.lost := d.lost + 1;
      }
  }

  /** `save_completed`, and the release of the lock. */
  method SaveCompleted(d: RequestDirectory, result: Completed, stored: bool, details: Details, done: bool, p: Policy)
    returns (verdict: Option<string>)
    requires d.flight == Some(Logged(result)) && d.locked
    modifies d, d.log
    ensures d.Contents() == Settle(SaveReview(old(d.Contents()), stored, details, p), done)
    ensures d.flight.None?
    ensures d.released == old(d.released) + if verdict.Some? then [Released(result.fingerprint, verdict.value)] else []
  {
    hide FailureRecord;
    hide BeginWrite;
    hide WriteReview;
    verdict := None;
    if !stored {
      d.locked, d.flight := false, None;
    } else if d.completed.Some? && d.completed != Some(result) {
      SettledReleases(d.Contents(), FailureRecord(p, result.attempt, details, false), p, done);
      d.LogFailure(FailureRecord(p, result.attempt, details, false), false, done, p);
    } else {
      d.completed, d.locked, d.flight := Some(result), false, None;
      verdict := Some(result.verdict);
      d.released := d.released + [Released(result.fingerprint, result.verdict)];
    }
  }

  /** What the model, the clock and the disk do during one review. */
  datatype Course = Course(checks: Checks, recheck: Recheck, answer: Answer, stored: bool, done: bool)

  /** The moves of a review that takes the lock, one after another. */
  function Reviewed(s: State, fingerprint: string, attempt: string, details: Details, c: Course, p: Policy): State {
    var entered := Step(s, Enter(fingerprint, c.checks, c.recheck, attempt, details), p);
    var answered := Step(Step(entered, Write(c.done), p), Answered(c.answer, details), p);
    Step(Step(Step(answered, Write(c.done), p), Save(c.stored, details), p), Write(c.done), p)
  }

  /** The moves of one that does not. */
  function TurnedAway(s: State, attempt: string, details: Details, c: Course, p: Policy): State {
    var begun := Step(s, Refused(attempt, details), p);
    if begun == s then s else Step(begun, if c.done then Finish(|s.pending|) else Abandon(|s.pending|), p)
  }

  /** A review that fails to take the lock. */
  method TurnAway(d: RequestDirectory, attempt: string, details: Details, c: Course, p: Policy)
    requires d.locked
    modifies d, d.log
    ensures d.Contents() == TurnedAway(old(d.Contents()), attempt, details, c, p)
    ensures d.released == old(d.released)
  {
    hide FailureRecord;
    hide Look;
    hide LineOf;
    hide HashIn;
    ghost var before := d.Contents();
    var _ := d.AppendAttempt(FailureRecord(p, attempt, details, false), c.done, p);
    ghost var write := Look(before.file, FailureRecord(p, attempt, details, false), p.nearest);
    if write.Some? {
      LastGone(before.pending, write.value);
    }
  }

  lemma LastGone(pending: seq<Pending>, w: Pending)
    ensures pending + [w] != pending && Without(pending + [w], |pending|) == pending && (pending + [w])[|pending|] == w
  {
    assert |pending + [w]| == |pending| + 1;
  }

  /** How far the moves of a review get. */
  lemma ReviewedStages(s: State, fingerprint: string, attempt: string, details: Details, c: Course, p: Policy)
    requires !s.locked
    ensures var entered := Settle(EnterReview(s, fingerprint, c.checks, c.recheck, attempt, details, p), c.done);
            if entered.flight.None? then Reviewed(s, fingerprint, attempt, details, c, p) == entered
            else entered.flight.value.Thinking? ==>
              var answered := Settle(AnswerReview(entered, c.answer, details, p), c.done);
              if answered.flight.None? then Reviewed(s, fingerprint, attempt, details, c, p) == answered
              else answered.flight.value.Logged? ==>
                Reviewed(s, fingerprint, attempt, details, c, p) == Settle(SaveReview(answered, c.stored, details, p), c.done)
  {
    hide EnterReview;
    hide AnswerReview;
    hide SaveReview;
    hide WriteReview;
    hide Look;
    hide Land;
    hide LetGo;
    hide Without;
    hide FailureRecord;
  }

  /** `review`: the verdict it returns, if any. It makes the moves of the run as far as it gets, and
      releases exactly what it returns. */
  method Review(d: RequestDirectory, fingerprint: string, attempt: string, details: Details, c: Course, p: Policy)
    returns (verdict: Option<string>)
    requires d.flight.None?
    requires d.completed.Some? ==> d.meta == Some(d.completed.value.fingerprint)
    modifies d, d.log
    ensures d.Contents() ==
            if old(d.locked) then TurnedAway(old(d.Contents()), attempt, details, c, p)
            else Reviewed(old(d.Contents()), fingerprint, attempt, details, c, p)
    ensures d.released == old(d.released) + if verdict.Some? then [Released(fingerprint, verdict.value)] else []
  {
    hide EnterReview;
    hide AnswerReview;
    hide SaveReview;
    hide WriteReview;
    hide Settle;
    hide TurnedAway;
    hide Reviewed;
    if d.locked {
      TurnAway(d, attempt, details, c, p);
      return None;
    }
    ReviewedStages(d.Contents(), fingerprint, attempt, details, c, p);
    var waiting;
    verdict, waiting := Prepare(d, fingerprint, c.checks, c.recheck, attempt, details, c.done, p);
    if waiting {
      var result := LogAnswer(d, fingerprint, attempt, c.answer, details, c.done, p);
      if result.Some? {
        verdict := SaveCompleted(d, result.value, c.stored, details, c.done, p);
      }
    }
  }
}
