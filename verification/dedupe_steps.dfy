/**
 What each call on a receipt transaction does (contracts/event_v1.py), as functions on the
 values its objects hold. The classes in dedupe_authority.dfy are proved to take these steps.
 */
module DedupeSteps {
  import opened Outcomes
  import opened CanonicalJson
  import opened DecimalText
  import opened SemanticEvidence

  /** The deterministic surroundings of one deployment: UTC spellings, the schema and shape
      checks a parsed wire document has to pass, and those of a canonical document. */
  datatype Surroundings = Surroundings(cal: Calendar, accepts: Json -> bool, shapes: Json -> bool)

  /** A trusted receipt context. The source compares contexts with `is`; `identity` stands for
      the Python object itself, so equal values are the same object. */
  datatype Context = Context(
    identity: nat, receiptId: string, receivedAt: string, transport: string, adapter: string, provenance: string,
    rawHash: string, rawReference: string, canonicalizedAt: string, replayClock: string, kind: string)

  datatype Stage =
    | BeginStage | RecordReceiptStage | ReserveExactStage | ReserveSemanticStage | PersistDecisionStage
    | CommitStage | CommitUnknownStage

  datatype Action =
    | StateMutation | Dispatch | OutboxCreate | AuditAcceptance | DownstreamHandoff | ReplayRelease
    | UnknownAction(name: string)

  datatype Failure =
    | TransactionClosed | TransactionRolledBack | Injected(stage: Stage) | AlreadyRecorded | RawMismatch
    | OutOfOrder | InvalidResult | DuplicateReceiptId | CommitOnce | CommitUnknown | ContextMismatch
    | CommittedNoRollback | NotCommitted | NotCurrent | AlreadyIssued | AlreadyConsumed | WasInvalidated
    | GenerationStale | AuthorizationRequired | AuthorizationStale | DocumentRejected | DocumentMismatch
    | ActionNotEligible | ActionNotKnown | CanonicalRefused | AuthorityUnavailable | ReplayOnly

  datatype Decision = Decision(exactDuplicate: bool, semanticDuplicate: bool, priorIds: seq<string>)

  datatype Status = Accepted | Duplicate | Rejected

  datatype Reason = Validated | ExactReceiptDuplicate | SemanticEvidenceDuplicate | MissingSetupIdentity

  datatype Validation = Validation(status: Status, reason: Reason, stateMutation: bool, dispatch: bool)

  datatype Receipt = Receipt(rawHash: string, number: nat, decision: Option<Decision>, validation: Validation)

  /** One receipt whose commit reached the indexes, in commit order. */
  datatype Applied = Applied(number: nat, exactKey: (string, string), semanticHash: string, canonicalId: string,
                             decision: Decision)

  datatype Authority = Authority(
    exact: map<(string, string), seq<string>>,
    semantic: map<string, seq<string>>,
    receipts: map<string, Receipt>,
    log: seq<Applied>)

  datatype AuthState = Pending | Consumed | Invalidated

  datatype AuthId = AuthId(number: nat, generation: nat, counter: nat, action: Action, canonicalHash: string)

  /** An authorization as handed out. `identity` stands for the Python object itself, so a copy
      or an edited object is a value that differs in some field. */
  datatype Authorization = Authorization(
    identity: nat, authorized: bool, action: Action, receiptId: string, rawHash: string,
    canonicalHash: string, number: nat, generation: nat, id: AuthId)

  datatype Transaction = Transaction(
    number: nat,
    context: Context,
    generation: nat,
    committed: bool,
    closed: bool,
    rolledBack: bool,
    commitCalls: nat,
    recorded: bool,
    exactKey: Option<(string, string)>,
    semanticHash: Option<string>,
    exactDuplicate: Option<bool>,
    semanticDuplicate: Option<bool>,
    priorIds: seq<string>,
    decision: Option<Decision>,
    canonicalId: Option<string>,
    validation: Option<Validation>,
    authorizations: map<AuthId, Authorization>,
    states: map<(nat, Action), AuthState>,
    authCounter: nat)

  const EMPTY_AUTHORITY := Authority(map[], map[], map[], [])

  function NewTransaction(number: nat, context: Context): Transaction {
    Transaction(number, context, 1, false, false, false, 0, false, None, None, None, None, [], None, None, None,
                map[], map[], 0)
  }

  /** What `begin_receipt_transaction` raises before it makes a transaction. */
  function BeginFailure(available: bool, failAt: Option<Stage>, context: Context): Option<Failure> {
    if !available then Some(AuthorityUnavailable)
    else if context.kind != "REPLAY_ONLY" || context.replayClock == "" then Some(ReplayOnly)
    else if failAt == Some(BeginStage) then Some(Injected(BeginStage))
    else None
  }

  // ------------------------------------------------------ receipt processing

  function Active(t: Transaction): Option<Failure> {
    if t.closed then Some(TransactionClosed) else if t.rolledBack then Some(TransactionRolledBack) else None
  }

  function Guard(t: Transaction, failAt: Option<Stage>, stage: Stage): Option<Failure> {
    if Active(t).Some? then Active(t) else if failAt == Some(stage) then Some(Injected(stage)) else None
  }

  function RecordReceipt(t: Transaction, failAt: Option<Stage>, rawHash: string): Result<Transaction, Failure> {
    var guard := Guard(t, failAt, RecordReceiptStage);
    if guard.Some? then Err(guard.value)
    else if t.recorded then Err(AlreadyRecorded)
    else if rawHash != t.context.rawHash then Err(RawMismatch)
    else Ok(t.(recorded := true))
  }

  function Ids<K>(index: map<K, seq<string>>, key: K): seq<string> {
    if key in index then index[key] else []
  }

  /** `tuple(dict.fromkeys([*prior, *ids]))[:16]`. */
  function MergeIds(prior: seq<string>, ids: seq<string>): (r: seq<string>)
    ensures |r| <= 16
  {
    var merged := WithoutRepeats(prior + ids);
    if |merged| <= 16 then merged else merged[..16]
  }

  function WithoutRepeats(ids: seq<string>): seq<string> {
    if ids == [] then []
    else
      var front := WithoutRepeats(ids[..|ids| - 1]);
      if ids[|ids| - 1] in front then front else front + [ids[|ids| - 1]]
  }

  function ReserveExact(t: Transaction, a: Authority, failAt: Option<Stage>, transport: string, canonicalHash: string)
    : Result<Transaction, Failure>
  {
    var guard := Guard(t, failAt, ReserveExactStage);
    if guard.Some? then Err(guard.value)
    else if !t.recorded || t.exactKey.Some? then Err(OutOfOrder)
    else
      var ids := Ids(a.exact, (transport, canonicalHash));
      Ok(t.(exactKey := Some((transport, canonicalHash)), exactDuplicate := Some(ids != []),
            priorIds := MergeIds(t.priorIds, ids)))
  }

  function ReserveSemantic(t: Transaction, a: Authority, failAt: Option<Stage>, semanticHash: string)
    : Result<Transaction, Failure>
  {
    var guard := Guard(t, failAt, ReserveSemanticStage);
    if guard.Some? then Err(guard.value)
    else if t.exactKey.None? || t.semanticHash.Some? then Err(OutOfOrder)
    else
      var ids := Ids(a.semantic, semanticHash);
      Ok(t.(semanticHash := Some(semanticHash), semanticDuplicate := Some(ids != []),
            priorIds := MergeIds(t.priorIds, ids)))
  }

  function PersistDecision(t: Transaction, failAt: Option<Stage>, decision: Option<Decision>,
                           canonicalId: Option<string>, validation: Validation): Result<Transaction, Failure>
  {
    var guard := Guard(t, failAt, PersistDecisionStage);
    if guard.Some? then Err(guard.value)
    else if !t.recorded || t.validation.Some? then Err(OutOfOrder)
    else if decision.Some? && (t.exactDuplicate.None? || t.semanticDuplicate.None?) then Err(OutOfOrder)
    else if decision.Some? &&
            decision.value != Decision(t.exactDuplicate.value, t.semanticDuplicate.value, t.priorIds)
    then Err(InvalidResult)
    else Ok(t.(decision := decision, canonicalId := canonicalId, validation := Some(validation)))
  }

  /** `_apply_commit`: the receipt row and both indexes change together or not at all. */
  function ApplyCommit(t: Transaction, a: Authority): Result<Authority, Failure>
    requires t.validation.Some?
    requires t.decision.Some? ==> t.exactKey.Some? && t.semanticHash.Some?
  {
    if t.context.receiptId in a.receipts then Err(DuplicateReceiptId)
    else
      var receipts := a.receipts[t.context.receiptId :=
        Receipt(t.context.rawHash, t.number, t.decision, t.validation.value)];
      if t.decision.Some? && t.canonicalId.Some? then
        var id := t.canonicalId.value;
        Ok(Authority(
             a.exact[t.exactKey.value := Ids(a.exact, t.exactKey.value) + [id]],
             a.semantic[t.semanticHash.value := Ids(a.semantic, t.semanticHash.value) + [id]],
             receipts,
             a.log + [Applied(t.number, t.exactKey.value, t.semanticHash.value, id, t.decision.value)]))
      else Ok(a.(receipts := receipts))
  }

  /** The reservations a persisted decision rests on are in place. */
  predicate Reserved(t: Transaction) {
    t.decision.Some? ==>
      t.exactKey.Some? && t.semanticHash.Some? && t.exactDuplicate.Some? && t.semanticDuplicate.Some? &&
      t.decision.value == Decision(t.exactDuplicate.value, t.semanticDuplicate.value, t.priorIds)
  }

  /** `commit`: the transaction, the authority and what was raised, if anything. */
  function Commit(t: Transaction, a: Authority, failAt: Option<Stage>): (r: (Transaction, Authority, Option<Failure>))
    requires Reserved(t)
  {
    if Active(t).Some? then (t, a, Active(t))
    else
      var called := t.(commitCalls := t.commitCalls + 1);
      if called.commitCalls != 1 || t.committed then (called, a, Some(CommitOnce))
      else if t.validation.None? then (called, a, Some(OutOfOrder))
      else if failAt == Some(CommitStage) then (called, a, Some(Injected(CommitStage)))
      else
        match ApplyCommit(t, a)
        case Err(e) => (called, a, Some(e))
        case Ok(applied) =>
          if failAt == Some(CommitUnknownStage) then (called, applied, Some(CommitUnknown))
          else (called.(committed := true), applied, None)
  }

  /** `_invalidate_pending_authorizations_locked`. */
  function InvalidatePending(t: Transaction): Transaction {
    t.(states := InvalidatedStates(t.states), authorizations := map[])
  }

  function InvalidatedStates(states: map<(nat, Action), AuthState>): map<(nat, Action), AuthState> {
    map k | k in states :: if states[k].Pending? then Invalidated else states[k]
  }

  function Rollback(t: Transaction): Result<Transaction, Failure> {
    if t.closed then Err(TransactionClosed)
    else if t.committed then Err(CommittedNoRollback)
    else Ok(InvalidatePending(t).(rolledBack := true))
  }

  function Close(t: Transaction): Result<Transaction, Failure> {
    if t.closed then Err(TransactionClosed) else Ok(InvalidatePending(t).(closed := true))
  }

  /** `_derive_validation`. */
  function DeriveValidation(wire: Json, decision: Decision): Validation {
    var lifecycle := Field(wire, "event_class") == Str("LIFECYCLE");
    var ready := Field(wire, "event_class") == Str("ANALYSIS_READY");
    if lifecycle && SetupId(wire).None? then Validation(Rejected, MissingSetupIdentity, false, false)
    else if decision.exactDuplicate then Validation(Duplicate, ExactReceiptDuplicate, false, false)
    else if decision.semanticDuplicate then Validation(Duplicate, SemanticEvidenceDuplicate, false, false)
    else Validation(Accepted, Validated, lifecycle && SetupId(wire).Some?, ready)
  }

  /** The raw and shape boundary: the parsed document, or nothing when it is refused. */
  function Preflight(raw: string, context: Context, s: Surroundings): Option<Json> {
    if Sha256(raw) != context.rawHash then None
    else
      match ReadDocument(raw)
      case Err(_) => None
      case Ok(wire) => if Identifiable(wire, s.cal) && s.accepts(wire) then Some(wire) else None
  }

  lemma PreflightIsIdentifiable(raw: string, context: Context, s: Surroundings)
    requires Preflight(raw, context, s).Some?
    ensures Identifiable(Preflight(raw, context, s).value, s.cal)
  {
  }

  /** Record the receipt and take both reservations; stop at the first call that raises. */
  function Reserve(t: Transaction, a: Authority, failAt: Option<Stage>, rawHash: string, transport: string,
                   canonicalHash: string, semanticHash: string): (r: (Transaction, Option<Failure>))
  {
    match RecordReceipt(t, failAt, rawHash)
    case Err(e) => (t, Some(e))
    case Ok(t1) =>
      match ReserveExact(t1, a, failAt, transport, canonicalHash)
      case Err(e) => (t1, Some(e))
      case Ok(t2) =>
        match ReserveSemantic(t2, a, failAt, semanticHash)
        case Err(e) => (t2, Some(e))
        case Ok(t3) => (t3, None)
  }

  /** A transaction whose reservations are taken and whose decision is still open. */
  predicate Undecided(t: Transaction) {
    t.recorded && t.exactKey.Some? && t.semanticHash.Some? && t.exactDuplicate.Some? && t.semanticDuplicate.Some?
  }

  function ReservedDecision(t: Transaction): Decision
    requires Undecided(t)
  {
    Decision(t.exactDuplicate.value, t.semanticDuplicate.value, t.priorIds)
  }

  lemma ReserveReserves(t: Transaction, a: Authority, failAt: Option<Stage>, rawHash: string, transport: string,
                        canonicalHash: string, semanticHash: string)
    ensures var r := Reserve(t, a, failAt, rawHash, transport, canonicalHash, semanticHash);
            r.1.None? ==> (
              && Undecided(r.0) && t.context.rawHash == rawHash && !t.recorded && Active(t).None?
              && r.0 == t.(recorded := true, exactKey := Some((transport, canonicalHash)),
                           semanticHash := Some(semanticHash),
                           exactDuplicate := Some(Ids(a.exact, (transport, canonicalHash)) != []),
                           semanticDuplicate := Some(Ids(a.semantic, semanticHash) != []),
                           priorIds := MergeIds(MergeIds(t.priorIds, Ids(a.exact, (transport, canonicalHash))),
                                                Ids(a.semantic, semanticHash))))
  {
    hide MergeIds;
    hide Ids;
  }

  /** Persist the reserved decision and commit. */
  function Decide(t: Transaction, a: Authority, failAt: Option<Stage>, canonicalId: string, validation: Validation)
    : (r: (Transaction, Authority, Option<Failure>))
    requires Undecided(t)
  {
    match PersistDecision(t, failAt, Some(ReservedDecision(t)), Some(canonicalId), validation)
    case Err(e) => (t, a, Some(e))
    case Ok(decided) => Commit(decided, a, failAt)
  }

  datatype Identity = Identity(canonicalHash: string, semanticHash: string, canonicalId: string)

  /** `_identity_values`. */
  function IdentityValues(wire: Json, cal: Calendar): Identity
    requires Identifiable(wire, cal)
  {
    Identity(CanonicalHash(wire), SemanticHash(wire, cal), CanonicalEventId(wire))
  }

  function Texts(items: seq<string>): Json { Arr(seq(|items|, i requires 0 <= i < |items| => Str(items[i]))) }

  function ReceiptPart(context: Context): Json {
    Obj(map["receipt_id" := Str(context.receiptId), "received_at" := Str(context.receivedAt),
            "transport_identity" := Str(context.transport), "source_adapter_identity" := Str(context.adapter),
            "raw_content_hash" := Str(context.rawHash)])
  }

  function ValidationPart(validation: Validation): Json {
    var status := match validation.status
      case Accepted => "ACCEPTED" case Duplicate => "DUPLICATE" case Rejected => "REJECTED";
    var reason := match validation.reason
      case Validated => "VALIDATED"
      case ExactReceiptDuplicate => "EXACT_RECEIPT_DUPLICATE"
      case SemanticEvidenceDuplicate => "SEMANTIC_EVIDENCE_DUPLICATE"
      case MissingSetupIdentity => "MISSING_CANONICAL_SETUP_IDENTITY";
    Obj(map["status" := Str(status), "reason_codes" := Texts([reason]),
            "state_mutation_allowed" := Bool(validation.stateMutation), "dispatch_allowed" := Bool(validation.dispatch)])
  }

  function DedupePart(decision: Decision): Json {
    Obj(map["exact_receipt_duplicate" := Bool(decision.exactDuplicate),
            "semantic_evidence_duplicate" := Bool(decision.semanticDuplicate),
            "prior_canonical_event_ids" := Texts(decision.priorIds)])
  }

  function ProfilePart(wire: Json): Json {
    Obj((map k | k in {"symbol", "base_tf", "mode", "execution_environment", "live_execution"} :: Field(wire, k))
        ["rr" := Dec(Decimal(false, 1, 0))])
  }

  function AuditPart(context: Context): Json {
    Obj(map["canonicalized_at" := Str(context.canonicalizedAt), "validator_version" := Str("project-a-event-v1/1.3"),
            "receipt_provenance" := Str(context.provenance), "immutable_raw_reference" := Str(context.rawReference),
            "replay_clock" := Str(context.replayClock), "migration" := Null])
  }

  /** `_build_canonical`, up to the shape check at its end. */
  function BuildCanonical(wire: Json, identity: Identity, context: Context, decision: Decision): Json {
    var setup := match SetupId(wire) case Some(id) => Str(id) case None => Null;
    Obj(map[
      "contract_family" := Str("PROJECT_A_CANONICAL_EVENT"), "schema_version" := Str("1.0"),
      "source_wire_version" := Field(wire, "schema_version"), "wire_event" := wire,
      "receipt" := ReceiptPart(context), "setup_id" := setup,
      "correlation_id" := Field(wire, "correlation_id"), "causation_id" := Field(wire, "causation_id"),
      "validation" := ValidationPart(DeriveValidation(wire, decision)), "dedupe" := DedupePart(decision),
      "execution_profile" := ProfilePart(wire), "audit" := AuditPart(context),
      "canonical_event_id" := Str(identity.canonicalId), "canonical_content_hash" := Str(identity.canonicalHash),
      "semantic_evidence_hash" := Str(identity.semanticHash)])
  }

  /** `validate_canonical_event_v1_shape`: numbers within bounds, and whatever schema and size
      checks answer. */
  predicate Shaped(document: Json, s: Surroundings) { Render(document).Ok? && s.shapes(document) }

  /** `_process_validated_wire_event_v1_receipt`: the calls in order, up to the first that raises.
      The built document is checked only after both reservations. */
  function ProcessIdentified(t: Transaction, a: Authority, failAt: Option<Stage>, rawHash: string, wire: Json,
                             identity: Identity, context: Context, s: Surroundings)
    : (r: (Transaction, Authority, Result<Validation, Failure>))
  {
    if Active(t).Some? then (t, a, Err(Active(t).value))
    else if context != t.context then (t, a, Err(ContextMismatch))
    else
      var hash, evidence := identity.canonicalHash, identity.semanticHash;
      var (reserved, raised) := Reserve(t, a, failAt, rawHash, context.transport, hash, evidence);
      if raised.Some? then (reserved, a, Err(raised.value))
      else
        ReserveReserves(t, a, failAt, rawHash, context.transport, hash, evidence);
        var decision := ReservedDecision(reserved);
        if !Shaped(BuildCanonical(wire, identity, context, decision), s) then (reserved, a, Err(CanonicalRefused))
        else
          var validation := DeriveValidation(wire, decision);
          var (done, b, failed) := Decide(reserved, a, failAt, identity.canonicalId, validation);
          (done, b, if failed.Some? then Err(failed.value) else Ok(validation))
  }

  function ProcessValidated(t: Transaction, a: Authority, failAt: Option<Stage>, rawHash: string, wire: Json,
                            context: Context, s: Surroundings): (r: (Transaction, Authority, Result<Validation, Failure>))
    requires Identifiable(wire, s.cal)
  {
    ProcessIdentified(t, a, failAt, rawHash, wire, IdentityValues(wire, s.cal), context, s)
  }

  /** `process_wire_event_v1_receipt_in_transaction`: after a failure an open transaction is
      rolled back. */
  function Process(t: Transaction, a: Authority, failAt: Option<Stage>, raw: string, context: Context, s: Surroundings)
    : (r: (Transaction, Authority, Result<Validation, Failure>))
  {
    match Preflight(raw, context, s)
    case None => (t, a, Err(DocumentRejected))
    case Some(wire) =>
      var (done, b, result) := ProcessValidated(t, a, failAt, Sha256(raw), wire, context, s);
      if result.Err? && !done.committed && !done.closed then
        (match Rollback(done) case Ok(undone) => undone case Err(_) => done, b, result)
      else (done, b, result)
  }

  // -------------------------------------------------- point-of-use authority

  /** Equal canonical bytes. */
  predicate SameBytes(a: Json, b: Json) { Render(a).Ok? && Render(a) == Render(b) }

  predicate Eligible(action: Action, validation: Validation) {
    match action
    case StateMutation => validation.stateMutation
    case AuditAcceptance => true
    case UnknownAction(_) => false
    case _ => validation.dispatch
  }

  function Issue(t: Transaction, action: Action, canonicalHash: string, rawHash: string)
    : Result<(Transaction, Authorization), Failure>
  {
    var key := (t.generation, action);
    if Active(t).Some? then Err(Active(t).value)
    else if !t.committed then Err(NotCommitted)
    else if key in t.states then
      Err(match t.states[key]
          case Pending => AlreadyIssued
          case Consumed => AlreadyConsumed
          case Invalidated => WasInvalidated)
    else
      var counter := t.authCounter + 1;
      var id := AuthId(t.number, t.generation, counter, action, canonicalHash);
      var auth := Authorization(counter, true, action, t.context.receiptId, rawHash, canonicalHash, t.number,
                                t.generation, id);
      Ok((t.(authCounter := counter, authorizations := t.authorizations[id := auth],
             states := t.states[key := Pending]), auth))
  }

  /** `verify_and_authorize_canonical_event_v1`. */
  function Verify(t: Transaction, document: Json, raw: string, context: Context, action: Action, s: Surroundings)
    : Result<(Transaction, Authorization), Failure>
  {
    if action.UnknownAction? then Err(ActionNotKnown)
    else if Active(t).Some? then Err(Active(t).value)
    else if context != t.context then Err(ContextMismatch)
    else if t.closed || !t.committed then Err(NotCurrent)
    else if !Shaped(document, s) then Err(DocumentRejected)
    else
      match Preflight(raw, context, s)
      case None => Err(DocumentRejected)
      case Some(wire) =>
        if t.decision.None? then Err(InvalidResult)
        else
          var decision := t.decision.value;
          var identity := IdentityValues(wire, s.cal);
          var expected := BuildCanonical(wire, identity, context, decision);
          if !Shaped(expected, s) then Err(CanonicalRefused)
          else if !SameBytes(document, expected) then Err(DocumentMismatch)
          else if !Eligible(action, DeriveValidation(wire, decision)) then Err(ActionNotEligible)
          else Issue(t, action, identity.canonicalHash, Sha256(raw))
  }

  function Consume(t: Transaction, presented: Authorization, action: Action): Result<Transaction, Failure> {
    var key := (presented.generation, action);
    var invalidated := key in t.states && t.states[key].Invalidated?;
    if Active(t).Some? then Err(Active(t).value)
    else if !t.committed then Err(NotCommitted)
    else if !presented.authorized then Err(AuthorizationRequired)
    else if presented.generation != t.generation then Err(if invalidated then WasInvalidated else GenerationStale)
    else if invalidated then Err(WasInvalidated)
    else if key in t.states && t.states[key].Consumed? then Err(AlreadyConsumed)
    else if key !in t.states || presented.id !in t.authorizations || t.authorizations[presented.id] != presented ||
            presented.action != action || presented.number != t.number
    then Err(AuthorizationStale)
    else Ok(t.(states := t.states[key := Consumed], authorizations := t.authorizations - {presented.id}))
  }

  function Advance(t: Transaction): Result<Transaction, Failure> {
    if Active(t).Some? then Err(Active(t).value)
    else if !t.committed then Err(NotCommitted)
    else if exists k | k in t.states :: k.0 == t.generation && t.states[k].Consumed? then Err(AlreadyConsumed)
    else Ok(InvalidatePending(t).(generation := t.generation + 1))
  }
}
