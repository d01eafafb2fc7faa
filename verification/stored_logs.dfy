/**
 The two hash-chained logs whose verification reads stored text again: the audit table of the
 analysis store (project_a_analysis/store.py) and the attempts file of a review request
 (project_a_ai_review/audit.py).
 */
module StoredLogs {
  import opened Outcomes
  import opened DecimalText
  import opened CanonicalJson
  import opened SemanticEvidence
  import opened StoredText
  import HashChain

  // ------------------------------------------------------ the audit table

  /** What one call of `_audit` is given. */
  datatype Addition = Addition(at: string, story: Option<string>, job: Option<string>, action: string, document: Json)

  /** A stored row: the document is kept as text only. */
  datatype AuditRow = AuditRow(at: string, story: Option<string>, job: Option<string>, action: string, text: string,
                               previous: string, hash: string)

  function Nullable(s: Option<string>): Json { match s case Some(t) => Str(t) case None => Null }

  function AuditBody(at: string, story: Option<string>, job: Option<string>, action: string, document: Json)
    : map<string, Json>
  {
    map["recorded_at" := Str(at), "story_id" := Nullable(story), "job_id" := Nullable(job), "action" := Str(action),
        "document" := document]
  }

  function AuditEnvelope(at: string, story: Option<string>, job: Option<string>, action: string, document: Json,
                         previous: string): Json
  {
    HashChain.Envelope(AuditBody(at, story, job, action, document), Str(previous))
  }

  function AuditHead(log: seq<AuditRow>): string { if log == [] then Zeros(64) else log[|log| - 1].hash }

  /** `_audit`: the table with one more row, or the exception of the printer. */
  function AddAudit(log: seq<AuditRow>, a: Addition): Result<seq<AuditRow>, NumberError> {
    var previous := AuditHead(log);
    match Render(AuditEnvelope(a.at, a.story, a.job, a.action, a.document, previous))
    case Err(e) => Err(e)
    case Ok(envelope) =>
      match Render(a.document)
      case Err(e) => Err(e)
      case Ok(text) => Ok(log + [AuditRow(a.at, a.story, a.job, a.action, text, previous, Sha256(envelope))])
  }

  /** The answer of `audit`, which lets the exceptions of reader and printer through. */
  datatype Verdict = Valid | Broken | Raised

  function RowVerdict(row: AuditRow, previous: string, nearest: Nearest): Verdict {
    match Loads(row.text, nearest)
    case None => Raised
    case Some(document) =>
      if row.previous != previous then Broken
      else
        match Render(AuditEnvelope(row.at, row.story, row.job, row.action, document, previous))
        case Err(_) => Raised
        case Ok(envelope) => if Sha256(envelope) == row.hash then Valid else Broken
  }

  /** The first row that is not valid decides. */
  function TableVerdict(log: seq<AuditRow>, nearest: Nearest): Verdict {
    if log == [] then Valid
    else
      var front := log[..|log| - 1];
      var before := TableVerdict(front, nearest);
      if before == Valid then RowVerdict(log[|log| - 1], AuditHead(front), nearest) else before
  }

  lemma {:induction false} BrokenStays(log: seq<AuditRow>, n: nat, nearest: Nearest)
    requires n <= |log| && TableVerdict(log[..n], nearest) != Valid
    ensures TableVerdict(log, nearest) == TableVerdict(log[..n], nearest)
  {
    hide RowVerdict;
    if n < |log| {
      var front := log[..|log| - 1];
      assert front[..n] == log[..n];
      BrokenStays(front, n, nearest);
    } else {
      assert log[..n] == log;
    }
  }

  /** The verification loop of `audit`. */
  method VerifyTable(log: seq<AuditRow>, nearest: Nearest) returns (verdict: Verdict)
    ensures verdict == TableVerdict(log, nearest)
  {
    hide RowVerdict;
    var previous := Zeros(64);
    for n := 0 to |log|
      invariant previous == AuditHead(log[..n]) && TableVerdict(log[..n], nearest) == Valid
    {
      var row := log[n];
      verdict := RowVerdict(row, previous, nearest);
      assert log[..n + 1][..n] == log[..n] && log[..n + 1][n] == row;
      if verdict != Valid {
        BrokenStays(log, n + 1, nearest);
        return;
      }
      previous := row.hash;
    }
    assert log[..|log|] == log;
    return Valid;
  }

  /** All additions in order; one that raises leaves no trace. */
  function Added(additions: seq<Addition>): seq<AuditRow> {
    if additions == [] then []
    else
      var before := Added(additions[..|additions| - 1]);
      match AddAudit(before, additions[|additions| - 1])
      case Ok(log) => log
      case Err(_) => before
  }

  lemma EnvelopePrints(a: Addition, document: Json, previous: string)
    ensures Render(AuditEnvelope(a.at, a.story, a.job, a.action, document, previous)).Ok? <==> Render(document).Ok?
  {
    var envelope := AuditEnvelope(a.at, a.story, a.job, a.action, document, previous);
    RendersIff(envelope);
    RendersIff(document);
    hide Render;
    assert envelope.fields["document"] == document;
  }

  lemma EnvelopeReturned(a: Addition, previous: string, nearest: Nearest)
    ensures Returned(AuditEnvelope(a.at, a.story, a.job, a.action, a.document, previous), nearest) ==
            AuditEnvelope(a.at, a.story, a.job, a.action, Returned(a.document, nearest), previous)
  {
    var envelope := AuditEnvelope(a.at, a.story, a.job, a.action, a.document, previous);
    var back := AuditEnvelope(a.at, a.story, a.job, a.action, Returned(a.document, nearest), previous);
    forall k | k in envelope.fields ensures Returned(envelope.fields[k], nearest) == back.fields[k] {}
    MembersReturned(envelope, nearest);
    hide Returned;
    assert Returned(envelope, nearest).fields == back.fields;
  }

  lemma EnvelopeStable(a: Addition, previous: string, nearest: Nearest)
    ensures Stable(AuditEnvelope(a.at, a.story, a.job, a.action, a.document, previous), nearest) <==>
            Stable(a.document, nearest)
  {
    var envelope := AuditEnvelope(a.at, a.story, a.job, a.action, a.document, previous);
    assert envelope.fields["document"] == a.document;
  }

  /** The row an addition leaves is valid exactly when its document is stable. */
  lemma AddedRowIff(log: seq<AuditRow>, a: Addition, nearest: Nearest)
    requires AddAudit(log, a).Ok? && Doubles(nearest)
    ensures var more := AddAudit(log, a).value;
            |more| == |log| + 1 && more[..|log|] == log && Render(a.document).Ok? &&
            (RowVerdict(more[|log|], AuditHead(log), nearest) == Valid <==> Stable(a.document, nearest))
  {
    var previous := AuditHead(log);
    var envelope := AuditEnvelope(a.at, a.story, a.job, a.action, a.document, previous);
    LoadsRendered(a.document, nearest);
    EnvelopeReturned(a, previous, nearest);
    EnvelopeStable(a, previous, nearest);
    hide AuditEnvelope;
    hide Render;
    hide Stable;
    hide Returned;
    hide Loads;
    hide Doubles;
    ReprintIff(envelope, nearest);
    var again := Render(Returned(envelope, nearest));
    if again.Ok? { Sha256Injective(again.value, Render(envelope).value); }
  }

  lemma SnocVerdict(log: seq<AuditRow>, row: AuditRow, nearest: Nearest)
    ensures TableVerdict(log + [row], nearest) == Valid <==>
            TableVerdict(log, nearest) == Valid && RowVerdict(row, AuditHead(log), nearest) == Valid
  {
    hide RowVerdict;
    assert (log + [row])[..|log|] == log;
  }

  lemma AddKeepsVerdict(log: seq<AuditRow>, a: Addition, nearest: Nearest)
    requires Doubles(nearest)
    ensures AddAudit(log, a).Ok? <==> Render(a.document).Ok?
    ensures AddAudit(log, a).Ok? ==>
              (TableVerdict(AddAudit(log, a).value, nearest) == Valid <==>
               TableVerdict(log, nearest) == Valid && Stable(a.document, nearest))
  {
    EnvelopePrints(a, a.document, AuditHead(log));
    if AddAudit(log, a).Ok? {
      AddedRowIff(log, a, nearest);
      var more := AddAudit(log, a).value;
      assert more == log + [more[|log|]];
      SnocVerdict(log, more[|log|], nearest);
    }
    hide Render;
    hide AuditEnvelope;
    hide RowVerdict;
    hide TableVerdict;
    hide Stable;
  }

  /** A table built by any additions verifies exactly when every document that was added comes
      back the same from its own text: in it every number is an int, zero, a whole number below
      10^64 in magnitude, or a fraction that is a double's. */
  lemma {:induction false} AuditVerifiesIff(additions: seq<Addition>, nearest: Nearest)
    requires Doubles(nearest)
    ensures TableVerdict(Added(additions), nearest) == Valid <==>
            forall a | a in additions && Render(a.document).Ok? :: Stable(a.document, nearest)
  {
    hide Render;
    hide Stable;
    hide AddAudit;
    if additions != [] {
      var front, last := additions[..|additions| - 1], additions[|additions| - 1];
      AuditVerifiesIff(front, nearest);
      assert additions == front + [last];
      AddKeepsVerdict(Added(front), last, nearest);
      hide TableVerdict;
      hide Doubles;
    }
  }

  // ------------------------------------------------------ what the store adds

  /** What the operations of the store put on record. */
  datatype Operation =
    | OrphanRecorded(event: string)
    | StoryCreated(story: string, event: string)
    | JobQueued(story: string, job: string, analysis: string, stage: string, e1Count: nat, parent: Option<string>,
                scope: string)
    | CaptureLeaseExpired(job: string, retryAt: string)
    | CaptureClaimed(job: string, expiry: string)
    | CaptureExhausted(job: string, attempts: nat, code: string)
    | CaptureRetryScheduled(job: string, attempts: nat, code: string, retryAt: string)
    | CaptureCompleted(job: string, capture: string, manifest: string, images: nat)
    | JobClaimed(story: string, job: string, worker: string, expiry: string)
    | RequestStarted(story: string, job: string, attempt: string, client: string, key: string, model: string,
                     manifest: string)
    | GradeValidated(story: string, job: string, analysis: string, stage: string, e1Count: nat, response: string,
                     provider: Option<string>, model: string, recommendation: string, closed: bool)
    | JobFailed(story: string, job: string, code: string, detail: string)
    | StoryClosed(story: string, decision: string)

  function DocumentOf(op: Operation): map<string, Json> {
    match op
    case OrphanRecorded(event) => map["canonical_event_id" := Str(event)]
    case StoryCreated(_, event) => map["liquidity_event_id" := Str(event), "e1_count" := Int(0)]
    case JobQueued(_, _, analysis, stage, e1Count, parent, scope) =>
      map["analysis_id" := Str(analysis), "stage" := Str(stage), "e1_count" := Int(e1Count),
          "parent_analysis_id" := Nullable(parent), "capture_scope" := Str(scope)]
    case CaptureLeaseExpired(_, retryAt) => map["retry_at" := Str(retryAt)]
    case CaptureClaimed(_, expiry) => map["lease_expires_at" := Str(expiry)]
    case CaptureExhausted(_, attempts, code) => map["attempt" := Int(attempts), "failure_code" := Str(code)]
    case CaptureRetryScheduled(_, attempts, code, retryAt) =>
      map["attempt" := Int(attempts), "failure_code" := Str(code), "retry_at" := Str(retryAt)]
    case CaptureCompleted(_, capture, manifest, images) =>
      map["capture_id" := Str(capture), "manifest_sha256" := Str(manifest), "image_count" := Int(images)]
    case JobClaimed(_, _, worker, expiry) => map["worker_id" := Str(worker), "lease_expires_at" := Str(expiry)]
    case RequestStarted(_, _, attempt, client, key, model, manifest) =>
      map["attempt_id" := Str(attempt), "client_request_id" := Str(client), "idempotency_key" := Str(key),
          "model" := Str(model), "request_manifest_sha256" := Str(manifest)]
    case GradeValidated(_, _, analysis, stage, e1Count, response, provider, model, recommendation, _) =>
      map["analysis_id" := Str(analysis), "stage" := Str(stage), "e1_count" := Int(e1Count),
          "response_id" := Str(response), "provider_request_id" := Nullable(provider), "model" := Str(model),
          "recommendation" := Str(recommendation)]
    case JobFailed(_, _, code, detail) =>
      map["code" := Str(code), "detail" := Str(if |detail| <= 240 then detail else detail[..240])]
    case StoryClosed(_, decision) => map["decision" := Str(decision), "actor" := Str("JONES")]
  }

  function ActionOf(op: Operation): string {
    match op
    case OrphanRecorded(_) => "ORPHAN_E1_RECORDED"
    case StoryCreated(_, _) => "STORY_CREATED"
    case JobQueued(_, _, _, _, _, _, _) => "ANALYSIS_JOB_QUEUED"
    case CaptureLeaseExpired(_, _) => "MCP_CAPTURE_LEASE_EXPIRED"
    case CaptureClaimed(_, _) => "MCP_CAPTURE_CLAIMED"
    case CaptureExhausted(_, _, _) => "MCP_CAPTURE_RETRY_EXHAUSTED"
    case CaptureRetryScheduled(_, _, _, _) => "MCP_CAPTURE_RETRY_SCHEDULED"
    case CaptureCompleted(_, _, _, _) => "MCP_CAPTURE_COMPLETED"
    case JobClaimed(_, _, _, _) => "JOB_CLAIMED"
    case RequestStarted(_, _, _, _, _, _, _) => "PROVIDER_REQUEST_DURABLY_STARTED"
    case GradeValidated(_, _, _, _, _, _, _, _, _, closed) =>
      if closed then "VALIDATED_GRADE_IGNORED_AFTER_CLOSURE" else "VALIDATED_GRADE_MATERIALISED"
    case JobFailed(_, _, _, _) => "TECHNICAL_FAILURE"
    case StoryClosed(_, _) => "STORY_CLOSED_BY_JONES"
  }

  /** What `_audit` is given by an operation at a time. */
  function Audited(at: string, op: Operation): Addition {
    var job := if op.OrphanRecorded? || op.StoryCreated? || op.StoryClosed? then None else Some(op.job);
    var story :=
      if op.StoryCreated? || op.JobQueued? || op.JobClaimed? || op.RequestStarted? || op.GradeValidated? ||
         op.JobFailed? || op.StoryClosed? then Some(op.story)
      else None;
    Addition(at, story, job, ActionOf(op), Obj(DocumentOf(op)))
  }

  function AuditedAll(ops: seq<(string, Operation)>): seq<Addition> {
    seq(|ops|, i requires 0 <= i < |ops| => Audited(ops[i].0, ops[i].1))
  }

  lemma AuditedIsStable(at: string, op: Operation, nearest: Nearest)
    ensures Stable(Audited(at, op).document, nearest)
  {
    forall k | k in DocumentOf(op) ensures DocumentOf(op)[k].Str? || DocumentOf(op)[k].Int? || DocumentOf(op)[k].Null? {}
  }

  /** The operations give strings, counts and nulls only, so the table verifies after any sequence
      of them, whatever the strings hold. */
  lemma StoreAuditVerifies(ops: seq<(string, Operation)>, nearest: Nearest)
    requires Doubles(nearest)
    ensures TableVerdict(Added(AuditedAll(ops)), nearest) == Valid
  {
    AuditVerifiesIff(AuditedAll(ops), nearest);
    forall a | a in AuditedAll(ops) ensures Stable(a.document, nearest) {
      var i :| 0 <= i < |ops| && a == Audited(ops[i].0, ops[i].1);
      AuditedIsStable(ops[i].0, ops[i].1, nearest);
    }
  }

  predicate AllRead(log: seq<AuditRow>, nearest: Nearest) {
    forall i | 0 <= i < |log| :: Loads(log[i].text, nearest).Some?
  }

  function SeenRow(row: AuditRow, nearest: Nearest): HashChain.Row
    requires Loads(row.text, nearest).Some?
  {
    HashChain.Row(AuditBody(row.at, row.story, row.job, row.action, Loads(row.text, nearest).value),
                  Str(row.previous), row.hash)
  }

  /** The rows as verification sees them: documents as read back. */
  function Seen(log: seq<AuditRow>, nearest: Nearest): seq<HashChain.Row>
    requires AllRead(log, nearest)
  {
    if log == [] then [] else Seen(log[..|log| - 1], nearest) + [SeenRow(log[|log| - 1], nearest)]
  }

  lemma SeenRowIff(row: AuditRow, previous: string, nearest: Nearest)
    requires Loads(row.text, nearest).Some?
    ensures RowVerdict(row, previous, nearest) == Valid <==> HashChain.RowOk(SeenRow(row, nearest), Str(previous))
  {
    hide Loads;
    hide Render;
  }

  lemma SeenHead(log: seq<AuditRow>, nearest: Nearest)
    requires AllRead(log, nearest)
    ensures HashChain.Head(Seen(log, nearest), HashChain.ZEROS) == Str(AuditHead(log))
  {
    hide Loads;
  }

  lemma UnreadIsRaised(row: AuditRow, previous: string, nearest: Nearest)
    requires Loads(row.text, nearest).None?
    ensures RowVerdict(row, previous, nearest) == Raised
  {
    hide Loads;
  }

  /** The table verifies exactly when every text is read and the rows so seen are a hash chain;
      what is proved of chains therefore holds of it. */
  lemma {:induction false} TableIsChain(log: seq<AuditRow>, nearest: Nearest)
    ensures TableVerdict(log, nearest) == Valid <==>
            AllRead(log, nearest) && HashChain.Verified(Seen(log, nearest), HashChain.ZEROS)
  {
    hide RowVerdict;
    hide SeenRow;
    hide HashChain.Verified;
    hide HashChain.RowOk;
    hide HashChain.Head;
    hide Loads;
    if log == [] {
      EmptyVerifies();
    } else {
      var front, row := log[..|log| - 1], log[|log| - 1];
      TableIsChain(front, nearest);
      assert log == front + [row];
      AllReadSnoc(front, row, nearest);
      if Loads(row.text, nearest).None? {
        UnreadIsRaised(row, AuditHead(front), nearest);
      } else if AllRead(front, nearest) {
        SeenRowIff(row, AuditHead(front), nearest);
        SeenHead(front, nearest);
        HashChain.VerifiedSnoc(Seen(front, nearest), HashChain.ZEROS, SeenRow(row, nearest));
      }
    }
  }

  lemma AllReadSnoc(front: seq<AuditRow>, row: AuditRow, nearest: Nearest)
    ensures AllRead(front + [row], nearest) <==> AllRead(front, nearest) && Loads(row.text, nearest).Some?
  {
    hide Loads;
    var log := front + [row];
    assert log[|front|] == row && forall i | 0 <= i < |front| :: log[i] == front[i];
  }

  lemma EmptyVerifies()
    ensures HashChain.Verified([], HashChain.ZEROS)
  {
  }

  /** The table with its writer. */
  class AuditTable {
    var rows: seq<AuditRow>

    constructor ()
      ensures rows == []
    {
      rows := [];
    }

    method Add(a: Addition) returns (raised: Option<NumberError>)
      modifies this
      ensures match AddAudit(old(rows), a)
              case Ok(more) => rows == more && raised == None
              case Err(e) => rows == old(rows) && raised == Some(e)
    {
      hide Render;
      hide AuditEnvelope;
      var previous := if rows == [] then Zeros(64) else rows[|rows| - 1].hash;
      var envelope := Render(AuditEnvelope(a.at, a.story, a.job, a.action, a.document, previous));
      if envelope.Err? { return Some(envelope.error); }
      var text := Render(a.document);
      if text.Err? { return Some(text.error); }
      rows := rows + [AuditRow(a.at, a.story, a.job, a.action, text.value, previous, Sha256(envelope.value))];
      return None;
    }
  }
}
