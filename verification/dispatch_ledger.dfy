/**
 At-least-once dispatch over a ledger of attempts (capture/project_a/consumer.py).
 */
module DispatchLedger {
  import opened Outcomes

  /** A dispatch; `event` stands for the canonical event and adapter it carries, `valid` for the
      outcome of their checks. */
  datatype Envelope = Envelope(id: string, event: string, retry: int, requestedAt: int, valid: bool)

  /** A digest of everything that identifies one attempt. */
  datatype AttemptId = AttemptId(dispatch: string, event: string, retry: int, requestedAt: int)

  datatype AttemptResult = AttemptResult(completed: bool, attempt: AttemptId, request: Option<string>, error: Option<string>)

  datatype Attempt = Attempt(retry: int, requestedAt: int, result: AttemptResult)

  datatype Status = Pending | Completed | Failed

  datatype Record = Record(event: string, status: Status, attempts: seq<Attempt>, result: Option<AttemptResult>)

  type Files = map<string, Record>

  /** What happens when an attempt is due: the receipt has expired, the handler finishes or raises
      its own error, or the process is lost after calling it and before the save. */
  datatype Outcome = Expired | Finishes(request: string) | Raises(error: string) | Lost

  datatype Failure = SourceInvalid | Conflict | RetrySequence | ProcessLost | Corrupt

  datatype Reply = Reply(result: AttemptResult, idempotent: bool)

  function IdOf(e: Envelope): AttemptId { AttemptId(e.id, e.event, e.retry, e.requestedAt) }

  function Find(attempts: seq<Attempt>, retry: int): Option<Attempt> {
    if attempts == [] then None
    else if attempts[0].retry == retry then Some(attempts[0])
    else Find(attempts[1..], retry)
  }

  function MaxRetry(attempts: seq<Attempt>): int
    requires attempts != []
  {
    if |attempts| == 1 then attempts[0].retry
    else
      var most := MaxRetry(attempts[1..]);
      if attempts[0].retry > most then attempts[0].retry else most
  }

  function ResultOf(e: Envelope, outcome: Outcome): AttemptResult {
    match outcome
    case Finishes(request) => AttemptResult(true, IdOf(e), Some(request), None)
    case Raises(error) => AttemptResult(false, IdOf(e), None, Some(error))
    case _ => AttemptResult(false, IdOf(e), None, Some("EXPIRED"))
  }

  /** What a delivery comes to before any attempt is made: an answer, or nothing yet. A completed
      record without a result and an open one without attempts make it raise. */
  function Settled(files: Files, e: Envelope): Option<Result<Reply, Failure>> {
    if e.id == "" || |e.id| > 128 then Some(Err(SourceInvalid))
    else if e.retry < 0 then Some(Err(RetrySequence))
    else if !e.valid then Some(Err(SourceInvalid))
    else if e.id !in files then None
    else
      var record := files[e.id];
      if record.event != e.event then Some(Err(Conflict))
      else if record.status.Completed? then
        if record.result.Some? then Some(Ok(Reply(record.result.value, true))) else Some(Err(Corrupt))
      else
        var same := Find(record.attempts, e.retry);
        if same.Some? then Some(Ok(Reply(same.value.result, true)))
        else if record.attempts == [] then Some(Err(Corrupt))
        else if e.retry <= MaxRetry(record.attempts) then Some(Err(RetrySequence))
        else None
  }

  function RecordAfter(files: Files, e: Envelope, result: AttemptResult): Record {
    var attempts := if e.id in files then files[e.id].attempts else [];
    Record(e.event, if result.completed then Completed else Failed, attempts + [Attempt(e.retry, e.requestedAt, result)],
           if result.completed then Some(result) else None)
  }

  /** `consume_dispatch`: the ledger afterwards, what was returned or raised, and whether the
      handler was called. */
  function Consume(files: Files, e: Envelope, outcome: Outcome): (Files, Result<Reply, Failure>, bool) {
    var settled := Settled(files, e);
    if settled.Some? then (files, settled.value, false)
    else if outcome.Lost? then (files, Err(ProcessLost), true)
    else
      var result := ResultOf(e, outcome);
      (files[e.id := RecordAfter(files, e, result)], Ok(Reply(result, false)), !outcome.Expired?)
  }

  // ------------------------------------------------------ the ledger and its consumer

  class FileDispatchLedger {
    var files: Files

    constructor ()
      ensures files == map[]
    {
      files := map[];
    }

    method Load(id: string) returns (record: Option<Record>)
      ensures record == if id in files then Some(files[id]) else None
    {
      record := if id in files then Some(files[id]) else None;
    }

    /** The file is replaced as a whole, or not at all. */
    method Save(id: string, record: Record)
      modifies this
      ensures files == old(files)[id := record]
    {
      files := files[id := record];
    }
  }

  method FindAttempt(attempts: seq<Attempt>, retry: int) returns (found: Option<Attempt>)
    ensures found == Find(attempts, retry)
  {
    var n := 0;
    while n < |attempts|
      invariant 0 <= n <= |attempts| && Find(attempts, retry) == Find(attempts[n..], retry)
    {
      if attempts[n].retry == retry { return Some(attempts[n]); }
      assert attempts[n..][1..] == attempts[n + 1..];
      n := n + 1;
    }
    return None;
  }

  method ConsumeDispatch(e: Envelope, ledger: FileDispatchLedger, outcome: Outcome)
    returns (answer: Result<Reply, Failure>, called: bool)
    modifies ledger
    ensures (ledger.files, answer, called) == Consume(old(ledger.files), e, outcome)
  {
    hide Find;
    hide MaxRetry;
    called := false;
    if e.id == "" || |e.id| > 128 { return Err(SourceInvalid), false; }
    if e.retry < 0 { return Err(RetrySequence), false; }
    if !e.valid { return Err(SourceInvalid), false; }
    var record := ledger.Load(e.id);
    if record.Some? {
      if record.value.event != e.event { return Err(Conflict), false; }
      if record.value.status.Completed? {
        if record.value.result.None? { return Err(Corrupt), false; }
        return Ok(Reply(record.value.result.value, true)), false;
      }
      var same := FindAttempt(record.value.attempts, e.retry);
      if same.Some? { return Ok(Reply(same.value.result, true)), false; }
      if record.value.attempts == [] { return Err(Corrupt), false; }
      if e.retry <= MaxRetry(record.value.attempts) { return Err(RetrySequence), false; }
    } else {
      record := Some(Record(e.event, Pending, [], None));
    }
    if !outcome.Expired? { called := true; }
    if outcome.Lost? { return Err(ProcessLost), called; }
    var result := ResultOf(e, outcome);
    var updated := record.value.(status := if result.completed then Completed else Failed,
                                 result := if result.completed then Some(result) else None);
    updated := updated.(attempts := updated.attempts + [Attempt(e.retry, e.requestedAt, result)]);
    ledger.Save(e.id, updated);
    return Ok(Reply(result, false)), called;
  }

  // ------------------------------------------------------ every record

  /** Retry counts strictly increase, only the last attempt can have completed, and the record
      says exactly whether and how it did. */
  predicate RecordOk(id: string, record: Record) {
    var attempts := record.attempts;
    attempts != [] &&
    (forall i, j | 0 <= i < j < |attempts| :: attempts[i].retry < attempts[j].retry && !attempts[i].result.completed) &&
    (forall a | a in attempts ::
       a.result.attempt == AttemptId(id, record.event, a.retry, a.requestedAt) && a.retry >= 0) &&
    record.status == (if attempts[|attempts| - 1].result.completed then Completed else Failed) &&
    record.result == (if record.status.Completed? then Some(attempts[|attempts| - 1].result) else None)
  }

  ghost predicate FilesOk(files: Files) { forall id | id in files :: RecordOk(id, files[id]) }

  lemma {:induction false} MaxIsLast(attempts: seq<Attempt>)
    requires attempts != [] && forall i, j | 0 <= i < j < |attempts| :: attempts[i].retry < attempts[j].retry
    ensures MaxRetry(attempts) == attempts[|attempts| - 1].retry
  {
    if |attempts| > 1 {
      MaxIsLast(attempts[1..]);
    }
  }

  lemma {:induction false} FindFinds(attempts: seq<Attempt>, retry: int)
    ensures Find(attempts, retry).None? <==> forall a | a in attempts :: a.retry != retry
    ensures Find(attempts, retry).Some? ==>
              Find(attempts, retry).value in attempts && Find(attempts, retry).value.retry == retry
  {
    if attempts != [] {
      FindFinds(attempts[1..], retry);
      assert attempts == [attempts[0]] + attempts[1..];
    }
  }

  lemma RecordGrows(id: string, record: Record, a: Attempt)
    requires RecordOk(id, record) && record.status.Failed? && a.retry > MaxRetry(record.attempts)
    requires a.result.attempt == AttemptId(id, record.event, a.retry, a.requestedAt) && a.retry >= 0
    ensures RecordOk(id, Record(record.event, if a.result.completed then Completed else Failed, record.attempts + [a],
                                if a.result.completed then Some(a.result) else None))
  {
    MaxIsLast(record.attempts);
    hide MaxRetry;
  }

  lemma ConsumeKeepsFiles(files: Files, e: Envelope, outcome: Outcome)
    requires FilesOk(files)
    ensures FilesOk(Consume(files, e, outcome).0)
  {
    hide Find;
    hide MaxRetry;
    if Settled(files, e).None? && !outcome.Lost? {
      var result := ResultOf(e, outcome);
      if e.id in files {
        assert RecordOk(e.id, files[e.id]);
        RecordGrows(e.id, files[e.id], Attempt(e.retry, e.requestedAt, result));
      } else {
        assert RecordOk(e.id, RecordAfter(files, e, result));
      }
    }
    hide RecordOk;
  }

  // ------------------------------------------------------ every run

  datatype Delivery = Delivery(envelope: Envelope, outcome: Outcome)

  /** One call of the handler, and whether the process was lost over it. */
  datatype Call = Call(attempt: AttemptId, lost: bool)

  datatype System = System(files: Files, calls: seq<Call>)

  function Step(sys: System, d: Delivery): System {
    var (files, _, called) := Consume(sys.files, d.envelope, d.outcome);
    System(files, if called then sys.calls + [Call(IdOf(d.envelope), d.outcome.Lost?)] else sys.calls)
  }

  function Run(sys: System, deliveries: seq<Delivery>): System {
    if deliveries == [] then sys else Step(Run(sys, deliveries[..|deliveries| - 1]), deliveries[|deliveries| - 1])
  }

  const EMPTY := System(map[], [])

  /** This retry of the dispatch is in the ledger. */
  predicate Recorded(files: Files, id: AttemptId) {
    id.dispatch in files && files[id.dispatch].event == id.event && exists i ::
      0 <= i < |files[id.dispatch].attempts| && files[id.dispatch].attempts[i].retry == id.retry
  }

  /** A handler call that was not lost is in the ledger, and a later call for the same retry of
      the dispatch finds only lost calls before it. */
  ghost predicate CallsOk(sys: System) {
    (forall i | 0 <= i < |sys.calls| && !sys.calls[i].lost :: Recorded(sys.files, sys.calls[i].attempt)) &&
    (forall i, j | 0 <= i < j < |sys.calls| && SameRetry(sys.calls[i].attempt, sys.calls[j].attempt) :: sys.calls[i].lost)
  }

  predicate SameRetry(a: AttemptId, b: AttemptId) { a.dispatch == b.dispatch && a.event == b.event && a.retry == b.retry }

  ghost predicate Inv(sys: System) { FilesOk(sys.files) && CallsOk(sys) }

  /** What is recorded stays recorded, and a settled delivery stays unhandled. */
  lemma RecordedStays(files: Files, d: Delivery, id: AttemptId)
    requires Recorded(files, id)
    ensures Recorded(Consume(files, d.envelope, d.outcome).0, id)
  {
    hide Find;
    hide MaxRetry;
    var next := Consume(files, d.envelope, d.outcome).0;
    var attempts := files[id.dispatch].attempts;
    var i :| 0 <= i < |attempts| && attempts[i].retry == id.retry;
    assert next[id.dispatch].attempts[i] == attempts[i];
  }

  lemma RecordedIsSettled(files: Files, e: Envelope)
    requires Recorded(files, IdOf(e))
    ensures Settled(files, e).Some?
  {
    var attempts := files[e.id].attempts;
    var i :| 0 <= i < |attempts| && attempts[i].retry == e.retry;
    FindFinds(attempts, e.retry);
    hide MaxRetry;
  }

  lemma StepKeepsInv(sys: System, d: Delivery)
    requires Inv(sys)
    ensures Inv(Step(sys, d))
  {
    hide Recorded;
    hide FilesOk;
    hide Settled;
    hide RecordAfter;
    hide SameRetry;
    var e, next := d.envelope, Step(sys, d);
    ConsumeKeepsFiles(sys.files, e, d.outcome);
    forall i | 0 <= i < |sys.calls| && !sys.calls[i].lost ensures Recorded(next.files, sys.calls[i].attempt) {
      RecordedStays(sys.files, d, sys.calls[i].attempt);
    }
    if next.calls != sys.calls {
      if Recorded(sys.files, IdOf(e)) {
        RecordedIsSettled(sys.files, e);
      }
      if !d.outcome.Lost? {
        NewIsRecorded(sys.files, d);
      }
      NotHandledBefore(sys, IdOf(e));
    }
  }

  lemma NotHandledBefore(sys: System, id: AttemptId)
    requires CallsOk(sys) && !Recorded(sys.files, id)
    ensures forall i | 0 <= i < |sys.calls| && SameRetry(sys.calls[i].attempt, id) :: sys.calls[i].lost
  {
  }

  lemma NewIsRecorded(files: Files, d: Delivery)
    requires Settled(files, d.envelope).None? && !d.outcome.Lost?
    ensures Recorded(Consume(files, d.envelope, d.outcome).0, IdOf(d.envelope))
  {
    var e := d.envelope;
    var attempts := RecordAfter(files, e, ResultOf(e, d.outcome)).attempts;
    hide Settled;
    assert attempts[|attempts| - 1].retry == e.retry;
  }

  /** Every run: each record is in order, and a retry whose handler ran and was saved is never
      handled again. A second call for one retry means that the first was lost before its save. */
  lemma {:induction false} RunKeepsInv(deliveries: seq<Delivery>)
    ensures Inv(Run(EMPTY, deliveries))
  {
    hide Step;
    hide Inv;
    if deliveries == [] {
      assert Inv(EMPTY) by { EmptyInv(); }
    } else {
      RunKeepsInv(deliveries[..|deliveries| - 1]);
      StepKeepsInv(Run(EMPTY, deliveries[..|deliveries| - 1]), deliveries[|deliveries| - 1]);
    }
  }

  lemma EmptyInv()
    ensures Inv(EMPTY)
  {
  }

  /** COMPLETED is absorbing: after any further deliveries the record is the same, and the same
      event gets the stored result without a call of the handler. */
  lemma {:induction false} CompletedStays(sys: System, id: string, more: seq<Delivery>)
    requires id in sys.files && sys.files[id].status.Completed? && sys.files[id].result.Some?
    ensures var later := Run(sys, more);
            id in later.files && later.files[id] == sys.files[id]
  {
    if more != [] {
      var before := Run(sys, more[..|more| - 1]);
      CompletedStays(sys, id, more[..|more| - 1]);
      hide RecordAfter;
      hide Find;
      hide MaxRetry;
    }
  }

  lemma CompletedAnswers(sys: System, more: seq<Delivery>, e: Envelope, outcome: Outcome)
    requires e.id in sys.files && sys.files[e.id].status.Completed? && sys.files[e.id].result.Some?
    requires e.valid && e.retry >= 0 && e.id != "" && |e.id| <= 128 && e.event == sys.files[e.id].event
    ensures var later := Run(sys, more);
            Consume(later.files, e, outcome) == (later.files, Ok(Reply(sys.files[e.id].result.value, true)), false)
  {
    CompletedStays(sys, e.id, more);
    hide Run;
  }

  /** A delivery whose process was lost leaves the ledger as it was; delivered again, it is
      handled again, under the same attempt id. */
  lemma LostIsRepeated(files: Files, e: Envelope, outcome: Outcome)
    requires Consume(files, e, Lost).2
    ensures Consume(files, e, Lost).0 == files
    ensures !outcome.Lost? && !outcome.Expired? ==>
              Consume(files, e, outcome).2 && Consume(files, e, outcome).1.Ok? &&
              Consume(files, e, outcome).1.value.result.attempt == IdOf(e)
  {
  }

  // ------------------------------------------------------ two consumers at once

  /** One consumption: before its load, between load and save with the record it loaded, or
      through, having made an attempt or not. */
  datatype Consumer = Waiting | Loaded(record: Option<Record>) | Through(made: bool)

  /** The files, both consumers, and whether one saved while the other was between load and save. */
  datatype Race = Race(files: Files, first: Consumer, second: Consumer, overlapped: bool)

  function RecordIn(files: Files, id: string): Option<Record> { if id in files then Some(files[id]) else None }

  function AttemptsIn(files: Files, id: string): seq<Attempt> { if id in files then files[id].attempts else [] }

  /** The next part of a consumption: load and look, then handle and save. */
  function Advance(files: Files, c: Consumer, d: Delivery): (Files, Consumer) {
    match c
    case Waiting =>
      if Settled(files, d.envelope).Some? then (files, Through(false)) else (files, Loaded(RecordIn(files, d.envelope.id)))
    case Loaded(record) =>
      if d.outcome.Lost? then (files, Through(true))
      else
        var loaded := if record.Some? then files[d.envelope.id := record.value] else files - {d.envelope.id};
        (files[d.envelope.id := RecordAfter(loaded, d.envelope, ResultOf(d.envelope, d.outcome))], Through(true))
    case Through(_) => (files, c)
  }

  /** A consumption whose parts follow one another is that of `Consume`. */
  lemma UndisturbedIsConsume(files: Files, d: Delivery)
    ensures var (loaded, c) := Advance(files, Waiting, d);
            Advance(loaded, c, d).0 == Consume(files, d.envelope, d.outcome).0
  {
    hide Settled;
    hide ResultOf;
  }

  function RaceStep(r: Race, a: Delivery, b: Delivery, firstMoves: bool): Race {
    if firstMoves then
      var (files, first) := Advance(r.files, r.first, a);
      Race(files, first, r.second, r.overlapped || (r.first.Loaded? && r.second.Loaded?))
    else
      var (files, second) := Advance(r.files, r.second, b);
      Race(files, r.first, second, r.overlapped || (r.first.Loaded? && r.second.Loaded?))
  }

  function RunRace(files: Files, a: Delivery, b: Delivery, turns: seq<bool>): Race {
    if turns == [] then Race(files, Waiting, Waiting, false)
    else RaceStep(RunRace(files, a, b, turns[..|turns| - 1]), a, b, turns[|turns| - 1])
  }

  /** Two deliveries of one dispatch, either of which would be attempted on these files. */
  predicate BothDue(files: Files, a: Delivery, b: Delivery) {
    a.envelope.id == b.envelope.id && a.envelope.event == b.envelope.event && !a.outcome.Lost? && !b.outcome.Lost? &&
    Settled(files, a.envelope).None? && Settled(files, b.envelope).None?
  }

  predicate Made(c: Consumer) { c.Loaded? || (c.Through? && c.made) }

  function Saved(c: Consumer): nat { if c.Through? && c.made then 1 else 0 }

  /** What is loaded is what these files hold, and due on them. */
  predicate FreshIn(files: Files, c: Consumer, d: Delivery) {
    c.Loaded? ==> c.record == RecordIn(files, d.envelope.id) && Settled(files, d.envelope).None?
  }

  /** A saved attempt's retry is in the ledger. */
  predicate Held(files: Files, c: Consumer, d: Delivery) { Saved(c) == 1 ==> Recorded(files, IdOf(d.envelope)) }

  /** While nothing overlapped, loads are up to date and every attempt made is on file; once
      something did, both were made on the first files and one of them is all there is. */
  predicate RaceOk(files: Files, r: Race, a: Delivery, b: Delivery) {
    var id := a.envelope.id;
    if r.overlapped then
      Made(r.first) && Made(r.second) && FreshIn(files, r.first, a) && FreshIn(files, r.second, b) &&
      |AttemptsIn(r.files, id)| == |AttemptsIn(files, id)| + 1
    else
      FreshIn(r.files, r.first, a) && FreshIn(r.files, r.second, b) && Held(r.files, r.first, a) && Held(r.files, r.second, b) &&
      |AttemptsIn(r.files, id)| == |AttemptsIn(files, id)| + Saved(r.first) + Saved(r.second) &&
      (Saved(r.first) + Saved(r.second) == 0 ==> r.files == files && r.first != Through(false) && r.second != Through(false)) &&
      (a.envelope.retry == b.envelope.retry && Saved(r.first) == 1 ==> !Made(r.second)) &&
      (a.envelope.retry == b.envelope.retry && Saved(r.second) == 1 ==> !Made(r.first))
  }

  /** The same with the consumers' names exchanged. */
  function Swapped(r: Race): Race { Race(r.files, r.second, r.first, r.overlapped) }

  lemma SaveRecords(files: Files, c: Consumer, d: Delivery, base: Files)
    requires c.Loaded? && !d.outcome.Lost? && FreshIn(base, c, d)
    ensures var next := Advance(files, c, d).0;
            Recorded(next, IdOf(d.envelope)) && |AttemptsIn(next, d.envelope.id)| == |AttemptsIn(base, d.envelope.id)| + 1
  {
    hide ResultOf;
    var next := Advance(files, c, d).0;
    var attempts := AttemptsIn(next, d.envelope.id);
    assert attempts[|attempts| - 1].retry == d.envelope.retry;
  }

  lemma SaveKeepsOther(files: Files, c: Consumer, d: Delivery, id: AttemptId)
    requires c.Loaded? && FreshIn(files, c, d) && Recorded(files, id)
    ensures Recorded(Advance(files, c, d).0, id)
  {
    hide ResultOf;
    var next := Advance(files, c, d).0;
    var attempts := files[id.dispatch].attempts;
    var i :| 0 <= i < |attempts| && attempts[i].retry == id.retry;
    assert next[id.dispatch].attempts[i] == attempts[i];
  }

  lemma FirstMoveKeeps(files: Files, r: Race, a: Delivery, b: Delivery)
    requires BothDue(files, a, b) && RaceOk(files, r, a, b)
    ensures RaceOk(files, RaceStep(r, a, b, true), a, b)
  {
    hide Settled;
    hide ResultOf;
    hide Recorded;
    match r.first
    case Waiting =>
      if Saved(r.second) == 1 && Settled(r.files, a.envelope).None? && a.envelope.retry == b.envelope.retry {
        SameRetryRecorded(r.files, a.envelope, b.envelope);
        RecordedIsSettled(r.files, a.envelope);
      }
    case Loaded(_) =>
      hide Advance;
      AdvancedIsThrough(r.files, r.first, a);
      SaveRecords(r.files, r.first, a, if r.overlapped then files else r.files);
      if !r.overlapped && Saved(r.second) == 1 { SaveKeepsOther(r.files, r.first, a, IdOf(b.envelope)); }
    case Through(_) =>
  }

  lemma AdvancedIsThrough(files: Files, c: Consumer, d: Delivery)
    requires c.Loaded?
    ensures Advance(files, c, d).1 == Through(true)
  {
    hide RecordAfter;
  }

  lemma SameRetryRecorded(files: Files, e: Envelope, other: Envelope)
    requires e.id == other.id && e.event == other.event && e.retry == other.retry && Recorded(files, IdOf(other))
    ensures Recorded(files, IdOf(e))
  {
  }

  lemma RaceMoveKeeps(files: Files, r: Race, a: Delivery, b: Delivery, firstMoves: bool)
    requires BothDue(files, a, b) && RaceOk(files, r, a, b)
    ensures RaceOk(files, RaceStep(r, a, b, firstMoves), a, b)
  {
    hide Advance;
    hide Settled;
    hide Recorded;
    hide RecordIn;
    hide AttemptsIn;
    if firstMoves {
      FirstMoveKeeps(files, r, a, b);
    } else {
      FirstMoveKeeps(files, Swapped(r), b, a);
      assert RaceStep(r, a, b, false) == Swapped(RaceStep(Swapped(r), b, a, true));
    }
  }

  lemma {:induction false} RaceKeeps(files: Files, a: Delivery, b: Delivery, turns: seq<bool>)
    requires BothDue(files, a, b)
    ensures RaceOk(files, RunRace(files, a, b, turns), a, b)
  {
    hide RaceStep;
    hide BothDue;
    if turns != [] {
      RaceKeeps(files, a, b, turns[..|turns| - 1]);
      hide RaceOk;
      RaceMoveKeeps(files, RunRace(files, a, b, turns[..|turns| - 1]), a, b, turns[|turns| - 1]);
    }
  }

  /** However two consumptions of one dispatch are interleaved: an attempt that was made is missing
      from the ledger exactly when one of them saved while the other was between its load and its
      save, and then exactly one is missing; and one retry is attempted twice exactly then too. */
  lemma AttemptLostIff(files: Files, a: Delivery, b: Delivery, turns: seq<bool>)
    requires BothDue(files, a, b)
    requires var r := RunRace(files, a, b, turns); r.first.Through? && r.second.Through?
    ensures var r := RunRace(files, a, b, turns);
            var id := a.envelope.id;
            var made := Saved(r.first) + Saved(r.second);
            |AttemptsIn(r.files, id)| == |AttemptsIn(files, id)| + made - (if r.overlapped then 1 else 0) &&
            (r.overlapped ==> made == 2) &&
            (a.envelope.retry == b.envelope.retry ==> (made == 2 <==> r.overlapped)) && made >= 1
  {
    RaceKeeps(files, a, b, turns);
    hide RunRace;
    hide BothDue;
    hide AttemptsIn;
    hide Held;
    hide FreshIn;
  }
}
