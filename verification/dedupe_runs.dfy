/**
 Whole runs of one dedupe authority (contracts/event_v1.py): any number of transactions, with
 receipts processed, retried, rolled back or left in doubt, and authorizations verified,
 consumed, advanced and closed in any order.
 */
module DedupeRuns {
  import opened Outcomes
  import opened CanonicalJson
  import opened SemanticEvidence
  import opened DedupeSteps

  datatype Consumption = Consumption(tx: nat, action: Action, semanticHash: string)

  /** The authority, every transaction begun on it, and the actions consumed so far. */
  datatype System = System(authority: Authority, txs: seq<Transaction>, consumed: seq<Consumption>)

  const EMPTY_SYSTEM := System(EMPTY_AUTHORITY, [], [])

  datatype Op =
    | Begin(context: Context)
    | ProcessIn(tx: nat, raw: string, context: Context)
    | ProcessOnce(raw: string, context: Context)
    | VerifyIn(tx: nat, document: Json, raw: string, context: Context, action: Action)
    | ConsumeIn(tx: nat, presented: Authorization, action: Action)
    | AdvanceIn(tx: nat)
    | CloseIn(tx: nat)
    | RollbackIn(tx: nat)

  /** One call, under whatever failure is injected at that moment, with the authority available
      or not. */
  datatype Call = Call(op: Op, failAt: Option<Stage>, available: bool)

  function OrSame(t: Transaction, r: Result<Transaction, Failure>): Transaction {
    match r case Ok(t') => t' case Err(_) => t
  }

  function ProcessStep(sys: System, tx: nat, failAt: Option<Stage>, raw: string, context: Context, s: Surroundings)
    : System
    requires tx < |sys.txs|
  {
    var (t, a, _) := Process(sys.txs[tx], sys.authority, failAt, raw, context, s);
    sys.(authority := a, txs := sys.txs[tx := t])
  }

  /** `process_wire_event_v1_receipt`: a transaction of its own, rolled back on leaving the
      `with` block unless it committed, and always closed. */
  function ProcessOnceStep(sys: System, available: bool, failAt: Option<Stage>, raw: string, context: Context,
                           s: Surroundings): System
  {
    match Preflight(raw, context, s)
    case None => sys
    case Some(wire) =>
      if BeginFailure(available, failAt, context).Some? then sys
      else
        var begun := NewTransaction(|sys.txs|, context);
        var (t, a, _) := ProcessValidated(begun, sys.authority, failAt, Sha256(raw), wire, context, s);
        var left := if t.committed then t else OrSame(t, Rollback(t));
        sys.(authority := a, txs := sys.txs + [OrSame(left, Close(left))])
  }

  function ConsumeStep(sys: System, tx: nat, presented: Authorization, action: Action): System
    requires tx < |sys.txs|
  {
    match Consume(sys.txs[tx], presented, action)
    case Err(_) => sys
    case Ok(t) =>
      sys.(txs := sys.txs[tx := t],
           consumed := if t.semanticHash.Some?
                       then sys.consumed + [Consumption(tx, action, t.semanticHash.value)]
                       else sys.consumed)
  }

  function Step(sys: System, call: Call, s: Surroundings): System {
    match call.op
    case Begin(context) =>
      if BeginFailure(call.available, call.failAt, context).Some? then sys
      else sys.(txs := sys.txs + [NewTransaction(|sys.txs|, context)])
    case ProcessOnce(raw, context) => ProcessOnceStep(sys, call.available, call.failAt, raw, context, s)
    case ProcessIn(tx, raw, context) =>
      if tx < |sys.txs| then ProcessStep(sys, tx, call.failAt, raw, context, s) else sys
    case VerifyIn(tx, document, raw, context, action) =>
      if tx < |sys.txs| then
        match Verify(sys.txs[tx], document, raw, context, action, s)
        case Ok(issued) => sys.(txs := sys.txs[tx := issued.0])
        case Err(_) => sys
      else sys
    case ConsumeIn(tx, presented, action) =>
      if tx < |sys.txs| then ConsumeStep(sys, tx, presented, action) else sys
    case AdvanceIn(tx) =>
      if tx < |sys.txs| then sys.(txs := sys.txs[tx := OrSame(sys.txs[tx], Advance(sys.txs[tx]))]) else sys
    case CloseIn(tx) =>
      if tx < |sys.txs| then sys.(txs := sys.txs[tx := OrSame(sys.txs[tx], Close(sys.txs[tx]))]) else sys
    case RollbackIn(tx) =>
      if tx < |sys.txs| then sys.(txs := sys.txs[tx := OrSame(sys.txs[tx], Rollback(sys.txs[tx]))]) else sys
  }

  function Run(sys: System, calls: seq<Call>, s: Surroundings): System
    decreases |calls|
  {
    if calls == [] then sys else Step(Run(sys, calls[..|calls| - 1], s), calls[|calls| - 1], s)
  }

  // ------------------------------------------------------ the log and the indexes

  /** The event ids of the applied receipts under one key, in commit order. */
  function ExactIds(log: seq<Applied>, key: (string, string)): seq<string> {
    if log == [] then []
    else
      var last := log[|log| - 1];
      ExactIds(log[..|log| - 1], key) + if last.exactKey == key then [last.canonicalId] else []
  }

  function SemanticIds(log: seq<Applied>, hash: string): seq<string> {
    if log == [] then []
    else
      var last := log[|log| - 1];
      SemanticIds(log[..|log| - 1], hash) + if last.semanticHash == hash then [last.canonicalId] else []
  }

  /** The decision a receipt has to get after the applied receipts in `log`. */
  function DecisionAfter(log: seq<Applied>, key: (string, string), hash: string): Decision {
    Decision(ExactIds(log, key) != [], SemanticIds(log, hash) != [],
             MergeIds(MergeIds([], ExactIds(log, key)), SemanticIds(log, hash)))
  }

  /** The two hashes were computed from one document. */
  ghost predicate OneDocument(canonicalHash: string, semanticHash: string, s: Surroundings) {
    exists wire: Json :: Identifiable(wire, s.cal) && CanonicalHash(wire) == canonicalHash &&
                         SemanticHash(wire, s.cal) == semanticHash
  }

  ghost predicate ExactInv(a: Authority) { forall key :: Ids(a.exact, key) == ExactIds(a.log, key) }

  ghost predicate SemanticInv(a: Authority) { forall hash :: Ids(a.semantic, hash) == SemanticIds(a.log, hash) }

  predicate DecidedRightly(log: seq<Applied>, n: nat)
    requires n < |log|
  {
    log[n].decision == DecisionAfter(log[..n], log[n].exactKey, log[n].semanticHash)
  }

  ghost predicate DocumentsInv(log: seq<Applied>, s: Surroundings) {
    forall n | 0 <= n < |log| :: OneDocument(log[n].exactKey.1, log[n].semanticHash, s)
  }

  /** Both indexes are the log grouped by key, and every decision in the log is the right one. */
  ghost predicate LogInv(a: Authority, s: Surroundings) {
    ExactInv(a) && SemanticInv(a) && DocumentsInv(a.log, s) &&
    forall n | 0 <= n < |a.log| :: DecidedRightly(a.log, n)
  }

  // ------------------------------------------------------ one transaction

  /** Every registered authorization is the pending one of its action in this generation. */
  ghost predicate RegisteredInv(t: Transaction) {
    forall id | id in t.authorizations ::
      t.authorizations[id].id == id && id.number == t.number && id.generation == t.generation &&
      t.authorizations[id].generation == t.generation && t.authorizations[id].action == id.action &&
      (t.generation, id.action) in t.states && t.states[(t.generation, id.action)].Pending?
  }

  ghost predicate DistinctInv(t: Transaction) {
    forall id, other | id in t.authorizations && other in t.authorizations && id.action == other.action ::
      id == other
  }

  /** Some registered authorization is for this generation and action. */
  ghost predicate Backed(t: Transaction, k: (nat, Action)) {
    exists id :: id in t.authorizations && id.action == k.1 && id.generation == k.0
  }

  ghost predicate PendingInv(t: Transaction) {
    forall k | k in t.states && t.states[k].Pending? :: Backed(t, k)
  }

  /** No state lies in a later generation, and consumption only in the current one. */
  ghost predicate GenerationInv(t: Transaction) {
    forall k | k in t.states :: k.0 <= t.generation && (t.states[k].Consumed? ==> k.0 == t.generation)
  }

  /** Registered authorizations and PENDING states match one to one, at the current generation;
      consumption too has happened only in the current generation. */
  ghost predicate TableInv(t: Transaction) {
    RegisteredInv(t) && DistinctInv(t) && PendingInv(t) && GenerationInv(t)
  }

  predicate Untouched(t: Transaction) {
    t.exactKey.None? && t.semanticHash.None? && t.decision.None? && t.validation.None? && t.priorIds == [] &&
    t.commitCalls == 0 && !t.committed
  }

  predicate Gated(action: Action) { !action.AuditAcceptance? }

  /** Applied receipt n is this transaction's. */
  predicate IsOwn(t: Transaction, e: Applied) {
    t.decision == Some(e.decision) && t.semanticHash == Some(e.semanticHash) && e.number == t.number &&
    t.exactKey == Some(e.exactKey)
  }

  /** A committed transaction has its own applied receipt. */
  ghost predicate OwnsInv(t: Transaction, log: seq<Applied>) {
    t.committed ==> exists n :: 0 <= n < |log| && IsOwn(t, log[n])
  }

  ghost predicate ReceiptInv(t: Transaction, s: Surroundings) {
    (!t.recorded ==> Untouched(t)) &&
    (!t.committed ==> t.states == map[] && t.authorizations == map[]) &&
    (t.committed ==> t.recorded) &&
    (t.semanticHash.Some? ==> FromReceipt(t.context, t.semanticHash.value, s))
  }

  /** Every action but the audit one was only ever authorized for a receipt that is no duplicate. */
  predicate GatedInv(t: Transaction) {
    forall k | k in t.states && Gated(k.1) ::
      t.decision.Some? && !t.decision.value.exactDuplicate && !t.decision.value.semanticDuplicate
  }

  ghost predicate TxInv(t: Transaction, log: seq<Applied>, s: Surroundings) {
    TableInv(t) && OwnsInv(t, log) && ReceiptInv(t, s) && GatedInv(t)
  }

  /** The hash is that of the bytes the receipt context is bound to. */
  ghost predicate FromReceipt(context: Context, hash: string, s: Surroundings) {
    exists raw: string :: Preflight(raw, context, s).Some? &&
                          hash == SemanticHash(Preflight(raw, context, s).value, s.cal)
  }

  predicate WasConsumed(t: Transaction, action: Action) {
    (t.generation, action) in t.states && t.states[(t.generation, action)].Consumed?
  }

  predicate Recorded(txs: seq<Transaction>, c: Consumption) {
    c.tx < |txs| && txs[c.tx].committed && txs[c.tx].semanticHash == Some(c.semanticHash) &&
    WasConsumed(txs[c.tx], c.action)
  }

  ghost predicate ConsumedInv(sys: System) {
    (forall i | 0 <= i < |sys.consumed| :: Recorded(sys.txs, sys.consumed[i])) &&
    (forall i, j | 0 <= i < j < |sys.consumed| ::
       sys.consumed[i].tx != sys.consumed[j].tx || sys.consumed[i].action != sys.consumed[j].action)
  }

  ghost predicate TxsInv(sys: System, s: Surroundings) {
    forall i | 0 <= i < |sys.txs| :: sys.txs[i].number == i && TxInv(sys.txs[i], sys.authority.log, s)
  }

  ghost predicate Inv(sys: System, s: Surroundings) {
    LogInv(sys.authority, s) && TxsInv(sys, s) && ConsumedInv(sys)
  }

  // ------------------------------------------------------ steps keep the table

  lemma InvalidateKeepsTable(t: Transaction, next: Transaction)
    requires TableInv(t)
    requires next.authorizations == map[] && next.states == InvalidatedStates(t.states) && next.number == t.number
    requires next.generation == t.generation ||
             (next.generation == t.generation + 1 && forall k | k in t.states :: !t.states[k].Consumed?)
    ensures TableInv(next)
  {
  }

  lemma IssueEffect(t: Transaction, action: Action, canonicalHash: string, rawHash: string)
    requires Issue(t, action, canonicalHash, rawHash).Ok?
    ensures var (next, issued) := Issue(t, action, canonicalHash, rawHash).value;
            (t.generation, action) !in t.states && t.committed && issued.id.number == t.number &&
            issued.id.generation == t.generation == issued.generation && issued.id.action == action == issued.action &&
            issued.canonicalHash == canonicalHash &&
            next == t.(authCounter := t.authCounter + 1, authorizations := t.authorizations[issued.id := issued],
                       states := t.states[(t.generation, action) := Pending])
  {
  }

  lemma IssueKeepsTable(t: Transaction, action: Action, canonicalHash: string, rawHash: string)
    requires TableInv(t) && Issue(t, action, canonicalHash, rawHash).Ok?
    ensures TableInv(Issue(t, action, canonicalHash, rawHash).value.0)
  {
    var (next, issued) := Issue(t, action, canonicalHash, rawHash).value;
    IssueEffect(t, action, canonicalHash, rawHash);
    hide Issue;
    forall k | k in next.states && next.states[k].Pending? ensures Backed(next, k) {
      if k == (t.generation, action) {
        assert issued.id in next.authorizations;
      } else {
        assert Backed(t, k);
        var known :| known in t.authorizations && known.action == k.1 && known.generation == k.0;
        assert known in next.authorizations;
      }
    }
    hide Backed;
    IssueKeepsRegistered(t, next, issued);
  }

  lemma IssueKeepsRegistered(t: Transaction, next: Transaction, issued: Authorization)
    requires RegisteredInv(t) && DistinctInv(t) && (t.generation, issued.action) !in t.states
    requires issued.id.number == t.number && issued.id.generation == t.generation == issued.generation
    requires issued.id.action == issued.action
    requires next == t.(authCounter := t.authCounter + 1, authorizations := t.authorizations[issued.id := issued],
                        states := t.states[(t.generation, issued.action) := Pending])
    ensures RegisteredInv(next) && DistinctInv(next)
  {
  }

  /** What a successful consumption rests on and leaves. */
  lemma ConsumeEffect(t: Transaction, presented: Authorization, action: Action)
    requires RegisteredInv(t) && Consume(t, presented, action).Ok?
    ensures presented.id in t.authorizations && presented.id.action == action
    ensures (t.generation, action) in t.states && t.states[(t.generation, action)].Pending?
    ensures Consume(t, presented, action).value ==
            t.(states := t.states[(t.generation, action) := Consumed],
               authorizations := t.authorizations - {presented.id})
  {
  }

  lemma ConsumeKeepsTable(t: Transaction, presented: Authorization, action: Action)
    requires TableInv(t) && Consume(t, presented, action).Ok?
    ensures TableInv(Consume(t, presented, action).value)
    ensures !WasConsumed(t, action) && WasConsumed(Consume(t, presented, action).value, action)
  {
    var next := Consume(t, presented, action).value;
    ConsumeEffect(t, presented, action);
    hide Consume;
    forall k | k in next.states && next.states[k].Pending? ensures Backed(next, k) {
      assert Backed(t, k);
      var known :| known in t.authorizations && known.action == k.1 && known.generation == k.0;
      assert known in next.authorizations;
    }
    hide Backed;
    assert RegisteredInv(next);
  }

  lemma AdvanceKeepsTable(t: Transaction)
    requires TableInv(t) && Advance(t).Ok?
    ensures TableInv(Advance(t).value)
    ensures forall action :: !WasConsumed(t, action)
  {
    InvalidateKeepsTable(t, Advance(t).value);
  }

  // ------------------------------------------------------ steps keep the log

  /** Exactly one applied receipt was added, to the log and under its two keys. */
  predicate Appended(a: Authority, b: Authority, e: Applied) {
    b.log == a.log + [e] &&
    b.exact == a.exact[e.exactKey := Ids(a.exact, e.exactKey) + [e.canonicalId]] &&
    b.semantic == a.semantic[e.semanticHash := Ids(a.semantic, e.semanticHash) + [e.canonicalId]]
  }

  lemma AppendKeepsExact(a: Authority, b: Authority, e: Applied)
    requires ExactInv(a) && b.log == a.log + [e]
    requires b.exact == a.exact[e.exactKey := Ids(a.exact, e.exactKey) + [e.canonicalId]]
    ensures ExactInv(b)
  {
    assert b.log[..|b.log| - 1] == a.log && b.log[|b.log| - 1] == e;
    forall key ensures Ids(b.exact, key) == ExactIds(b.log, key) {
      assert Ids(a.exact, key) == ExactIds(a.log, key);
    }
  }

  lemma AppendKeepsSemantic(a: Authority, b: Authority, e: Applied)
    requires SemanticInv(a) && b.log == a.log + [e]
    requires b.semantic == a.semantic[e.semanticHash := Ids(a.semantic, e.semanticHash) + [e.canonicalId]]
    ensures SemanticInv(b)
  {
    assert b.log[..|b.log| - 1] == a.log && b.log[|b.log| - 1] == e;
    forall hash ensures Ids(b.semantic, hash) == SemanticIds(b.log, hash) {
      assert Ids(a.semantic, hash) == SemanticIds(a.log, hash);
    }
  }

  lemma AppendKeepsDecisions(log: seq<Applied>, e: Applied)
    requires forall n | 0 <= n < |log| :: DecidedRightly(log, n)
    requires e.decision == DecisionAfter(log, e.exactKey, e.semanticHash)
    ensures forall n | 0 <= n < |log + [e]| :: DecidedRightly(log + [e], n)
  {
    hide DecisionAfter;
    var longer := log + [e];
    forall n | 0 <= n < |longer| ensures DecidedRightly(longer, n) {
      if n < |log| {
        assert DecidedRightly(log, n);
        assert longer[..n] == log[..n];
      } else {
        assert longer[..n] == log;
      }
    }
  }

  lemma AppendKeepsLog(a: Authority, b: Authority, e: Applied, s: Surroundings)
    requires LogInv(a, s) && Appended(a, b, e)
    requires e.decision == DecisionAfter(a.log, e.exactKey, e.semanticHash)
    requires OneDocument(e.exactKey.1, e.semanticHash, s)
    ensures LogInv(b, s)
  {
    AppendKeepsExact(a, b, e);
    AppendKeepsSemantic(a, b, e);
    AppendKeepsDecisions(a.log, e);
    hide ExactInv;
    hide SemanticInv;
    hide OneDocument;
    hide DecisionAfter;
    hide DecidedRightly;
  }

  // ------------------------------------------------------ what processing a receipt does

  /** Nothing but the receipt's own bookkeeping differs. */
  predicate SameShell(t: Transaction, next: Transaction) {
    next.number == t.number && next.context == t.context && next.generation == t.generation &&
    next.closed == t.closed && next.rolledBack == t.rolledBack && next.states == t.states &&
    next.authorizations == t.authorizations && next.authCounter == t.authCounter
  }

  /** The entry that applying this receipt adds to the log. */
  function Entry(number: nat, a: Authority, identity: Identity, transport: string): Applied {
    var key := (transport, identity.canonicalHash);
    Applied(number, key, identity.semanticHash, identity.canonicalId, DecisionAfter(a.log, key, identity.semanticHash))
  }

  /** A first attempt either leaves the authority as it was, uncommitted, or applies exactly its
      own entry; only with a commit of unknown outcome is it applied and not committed. */
  predicate FirstAttempt(t: Transaction, a: Authority, next: Transaction, b: Authority, hash: string, e: Applied,
                         ok: bool)
  {
    SameShell(t, next) && (next.recorded || next == t) && next.semanticHash in {None, Some(hash)} &&
    (ok <==> next.committed) &&
    ((b == a && !next.committed) || (Appended(a, b, e) && IsOwn(next, e)))
  }

  lemma DecideEffect(t: Transaction, a: Authority, failAt: Option<Stage>, canonicalId: string, validation: Validation)
    requires Undecided(t) && !t.committed && t.commitCalls == 0
    ensures var (next, b, failed) := Decide(t, a, failAt, canonicalId, validation);
            var e := Applied(t.number, t.exactKey.value, t.semanticHash.value, canonicalId, ReservedDecision(t));
            SameShell(t, next) && next.recorded && next.semanticHash == t.semanticHash &&
            (failed.None? <==> next.committed) &&
            ((b == a && !next.committed) || (Appended(a, b, e) && IsOwn(next, e)))
  {
    hide Ids;
  }

  lemma ReserveStops(t: Transaction, a: Authority, failAt: Option<Stage>, rawHash: string, transport: string,
                     canonicalHash: string, semanticHash: string)
    requires Untouched(t)
    ensures var next := Reserve(t, a, failAt, rawHash, transport, canonicalHash, semanticHash).0;
            SameShell(t, next) && (next.recorded || next == t) && next.semanticHash in {None, Some(semanticHash)} &&
            !next.committed
  {
    hide Ids;
    hide MergeIds;
  }

  /** What a receipt reserves is what the log of applied receipts says it must get. */
  lemma ReservedRightly(t: Transaction, a: Authority, failAt: Option<Stage>, rawHash: string, transport: string,
                        canonicalHash: string, semanticHash: string)
    requires ExactInv(a) && SemanticInv(a) && Untouched(t)
    ensures var (next, raised) := Reserve(t, a, failAt, rawHash, transport, canonicalHash, semanticHash);
            raised.None? ==>
              Undecided(next) && next.commitCalls == 0 && next.exactKey == Some((transport, canonicalHash)) &&
              next.semanticHash == Some(semanticHash) &&
              ReservedDecision(next) == DecisionAfter(a.log, (transport, canonicalHash), semanticHash)
  {
    ReserveReserves(t, a, failAt, rawHash, transport, canonicalHash, semanticHash);
    hide Reserve;
    hide MergeIds;
    assert Ids(a.exact, (transport, canonicalHash)) == ExactIds(a.log, (transport, canonicalHash));
    assert Ids(a.semantic, semanticHash) == SemanticIds(a.log, semanticHash);
  }

  lemma NothingApplied(t: Transaction, a: Authority, next: Transaction, hash: string, e: Applied)
    requires SameShell(t, next) && (next.recorded || next == t) && next.semanticHash in {None, Some(hash)}
    requires !next.committed
    ensures FirstAttempt(t, a, next, a, hash, e, false)
  {
  }

  lemma ReservedFirst(t: Transaction, a: Authority, reserved: Transaction, identity: Identity, transport: string)
    requires SameShell(t, reserved) && Undecided(reserved)
    requires reserved.exactKey == Some((transport, identity.canonicalHash))
    requires reserved.semanticHash == Some(identity.semanticHash)
    requires ReservedDecision(reserved) == DecisionAfter(a.log, (transport, identity.canonicalHash), identity.semanticHash)
    ensures Entry(t.number, a, identity, transport) ==
            Applied(reserved.number, reserved.exactKey.value, reserved.semanticHash.value, identity.canonicalId,
                    ReservedDecision(reserved))
  {
    hide DecisionAfter;
    hide ReservedDecision;
  }

  lemma DecidedFirst(t: Transaction, a: Authority, reserved: Transaction, next: Transaction, b: Authority,
                     hash: string, e: Applied, ok: bool)
    requires SameShell(t, reserved) && SameShell(reserved, next) && next.recorded && next.semanticHash == Some(hash)
    requires ok <==> next.committed
    requires (b == a && !next.committed) || (Appended(a, b, e) && IsOwn(next, e))
    ensures FirstAttempt(t, a, next, b, hash, e, ok)
  {
    hide Appended;
    hide IsOwn;
  }

  lemma ProcessFirst(t: Transaction, a: Authority, failAt: Option<Stage>, rawHash: string, wire: Json,
                     identity: Identity, context: Context, s: Surroundings)
    requires ExactInv(a) && SemanticInv(a) && Untouched(t)
    ensures var (next, b, result) := ProcessIdentified(t, a, failAt, rawHash, wire, identity, context, s);
            FirstAttempt(t, a, next, b, identity.semanticHash, Entry(t.number, a, identity, context.transport),
                         result.Ok?)
  {
    hide BuildCanonical;
    hide Shaped;
    hide DeriveValidation;
    hide ExactInv;
    hide SemanticInv;
    hide Appended;
    hide DecisionAfter;
    hide Reserve;
    hide Decide;
    hide ReservedDecision;
    hide Entry;
    var hash, evidence := identity.canonicalHash, identity.semanticHash;
    var e := Entry(t.number, a, identity, context.transport);
    ReserveStops(t, a, failAt, rawHash, context.transport, hash, evidence);
    var (reserved, raised) := Reserve(t, a, failAt, rawHash, context.transport, hash, evidence);
    NothingApplied(t, a, t, evidence, e);
    NothingApplied(t, a, reserved, evidence, e);
    if Active(t).None? && context == t.context && raised.None? {
      ReservedRightly(t, a, failAt, rawHash, context.transport, hash, evidence);
      DecideEffect(reserved, a, failAt, identity.canonicalId, DeriveValidation(wire, ReservedDecision(reserved)));
      ReservedFirst(t, a, reserved, identity, context.transport);
      var (next, b, failed) :=
        Decide(reserved, a, failAt, identity.canonicalId, DeriveValidation(wire, ReservedDecision(reserved)));
      DecidedFirst(t, a, reserved, next, b, evidence, e, failed.None?);
    }
    hide FirstAttempt;
    hide SameShell;
    hide Undecided;
  }

  /** A receipt is recorded at most once, so processing a transaction again changes nothing. */
  lemma ProcessAgain(t: Transaction, a: Authority, failAt: Option<Stage>, rawHash: string, wire: Json,
                     identity: Identity, context: Context, s: Surroundings)
    requires t.recorded
    ensures var (next, b, result) := ProcessIdentified(t, a, failAt, rawHash, wire, identity, context, s);
            next == t && b == a && result.Err?
  {
    hide BuildCanonical;
    hide Shaped;
    hide Decide;
    hide DeriveValidation;
    hide ReserveExact;
    hide ReserveSemantic;
  }

  // ------------------------------------------------------ steps keep the invariant

  lemma LongerLog(t: Transaction, log: seq<Applied>, longer: seq<Applied>)
    requires OwnsInv(t, log) && log <= longer
    ensures OwnsInv(t, longer)
  {
    if t.committed {
      var n :| 0 <= n < |log| && IsOwn(t, log[n]);
      assert longer[n] == log[n];
    }
  }

  /** What a transaction may not lose. */
  ghost predicate Extends(t: Transaction, next: Transaction) {
    next.number == t.number &&
    (t.committed ==> next.committed && next.semanticHash == t.semanticHash) &&
    forall action | WasConsumed(t, action) :: WasConsumed(next, action)
  }

  lemma ReplaceKeepsConsumed(txs: seq<Transaction>, next: seq<Transaction>, tx: nat, c: Consumption)
    requires tx < |txs| && Recorded(txs, c) && |txs| <= |next|
    requires forall i | 0 <= i < |txs| && i != tx :: next[i] == txs[i]
    requires Extends(txs[tx], next[tx])
    ensures Recorded(next, c)
  {
  }

  /** One transaction took a step, and the log at most grew. */
  lemma ReplaceKeepsInv(sys: System, next: System, tx: nat, s: Surroundings)
    requires Inv(sys, s) && LogInv(next.authority, s) && sys.authority.log <= next.authority.log
    requires tx < |sys.txs| && |next.txs| == |sys.txs| && next == sys.(authority := next.authority, txs := next.txs)
    requires next.txs == sys.txs[tx := next.txs[tx]]
    requires Extends(sys.txs[tx], next.txs[tx]) && TxInv(next.txs[tx], next.authority.log, s)
    ensures Inv(next, s)
  {
    hide LogInv;
    hide Extends;
    hide TableInv;
    hide OwnsInv;
    hide ReceiptInv;
    hide GatedInv;
    hide Recorded;
    forall i | 0 <= i < |next.txs| ensures next.txs[i].number == i && TxInv(next.txs[i], next.authority.log, s) {
      assert sys.txs[i].number == i && TxInv(sys.txs[i], sys.authority.log, s);
      LongerLog(sys.txs[i], sys.authority.log, next.authority.log);
      ExtendsNumber(sys.txs[tx], next.txs[tx]);
    }
    forall i | 0 <= i < |next.consumed| ensures Recorded(next.txs, next.consumed[i]) {
      ReplaceKeepsConsumed(sys.txs, next.txs, tx, sys.consumed[i]);
    }
  }

  lemma ExtendsNumber(t: Transaction, next: Transaction)
    requires Extends(t, next)
    ensures next.number == t.number
  {
  }

  /** A transaction was begun, and the log at most grew. */
  lemma BeginKeepsInv(sys: System, next: System, t: Transaction, s: Surroundings)
    requires Inv(sys, s) && LogInv(next.authority, s) && sys.authority.log <= next.authority.log
    requires next == sys.(authority := next.authority, txs := sys.txs + [t])
    requires t.number == |sys.txs| && TxInv(t, next.authority.log, s)
    ensures Inv(next, s)
  {
    hide LogInv;
    hide TableInv;
    hide OwnsInv;
    hide ReceiptInv;
    hide GatedInv;
    forall i | 0 <= i < |next.txs| ensures next.txs[i].number == i && TxInv(next.txs[i], next.authority.log, s) {
      if i < |sys.txs| {
        assert sys.txs[i].number == i && TxInv(sys.txs[i], sys.authority.log, s);
        LongerLog(sys.txs[i], sys.authority.log, next.authority.log);
      }
    }
    forall i | 0 <= i < |next.consumed| ensures Recorded(next.txs, next.consumed[i]) {
      assert Recorded(sys.txs, sys.consumed[i]);
    }
  }

  lemma NewTransactionInv(number: nat, context: Context, log: seq<Applied>, s: Surroundings)
    ensures TxInv(NewTransaction(number, context), log, s)
  {
  }

  /** A first attempt on an untouched transaction keeps its invariant. */
  lemma FirstAttemptKeepsTx(t: Transaction, a: Authority, next: Transaction, b: Authority, hash: string, e: Applied,
                            ok: bool, s: Surroundings)
    requires TxInv(t, a.log, s) && !t.recorded && FirstAttempt(t, a, next, b, hash, e, ok)
    requires FromReceipt(t.context, hash, s)
    ensures TxInv(next, b.log, s) && Extends(t, next) && a.log <= b.log
  {
    hide FromReceipt;
    hide Backed;
    if b != a {
      assert b.log[|a.log|] == e;
    }
  }

  lemma FirstAttemptKeepsLog(t: Transaction, a: Authority, next: Transaction, b: Authority, identity: Identity,
                             transport: string, ok: bool, s: Surroundings)
    requires LogInv(a, s) && OneDocument(identity.canonicalHash, identity.semanticHash, s)
    requires FirstAttempt(t, a, next, b, identity.semanticHash, Entry(t.number, a, identity, transport), ok)
    ensures LogInv(b, s)
  {
    hide OneDocument;
    hide LogInv;
    hide Appended;
    hide DecisionAfter;
    if b != a {
      AppendKeepsLog(a, b, Entry(t.number, a, identity, transport), s);
    }
  }

  lemma ProcessKeepsTx(t: Transaction, a: Authority, failAt: Option<Stage>, raw: string, wire: Json, context: Context,
                       s: Surroundings)
    requires LogInv(a, s) && TxInv(t, a.log, s) && Preflight(raw, context, s) == Some(wire)
    ensures var (next, b, result) := ProcessValidated(t, a, failAt, Sha256(raw), wire, context, s);
            LogInv(b, s) && TxInv(next, b.log, s) && Extends(t, next) && a.log <= b.log && next.generation == t.generation
  {
    var identity := IdentityValues(wire, s.cal);
    assert Identifiable(wire, s.cal);
    if Active(t).Some? || context != t.context {
    } else if t.recorded {
      ProcessAgain(t, a, failAt, Sha256(raw), wire, identity, context, s);
    } else {
      assert FromReceipt(t.context, identity.semanticHash, s);
      assert OneDocument(identity.canonicalHash, identity.semanticHash, s);
      ProcessFirstKeeps(t, a, failAt, Sha256(raw), wire, identity, context, s);
    }
  }

  lemma ProcessFirstKeeps(t: Transaction, a: Authority, failAt: Option<Stage>, rawHash: string, wire: Json,
                          identity: Identity, context: Context, s: Surroundings)
    requires LogInv(a, s) && TxInv(t, a.log, s) && !t.recorded
    requires FromReceipt(t.context, identity.semanticHash, s)
    requires OneDocument(identity.canonicalHash, identity.semanticHash, s)
    ensures var (next, b, result) := ProcessIdentified(t, a, failAt, rawHash, wire, identity, context, s);
            LogInv(b, s) && TxInv(next, b.log, s) && Extends(t, next) && a.log <= b.log && next.generation == t.generation
  {
    ProcessFirst(t, a, failAt, rawHash, wire, identity, context, s);
    var (next, b, result) := ProcessIdentified(t, a, failAt, rawHash, wire, identity, context, s);
    hide ProcessIdentified;
    FirstAttemptKeepsLog(t, a, next, b, identity, context.transport, result.Ok?, s);
    var e := Entry(t.number, a, identity, context.transport);
    hide LogInv;
    hide Entry;
    hide FromReceipt;
    hide OneDocument;
    FirstAttemptKeepsTx(t, a, next, b, identity.semanticHash, e, result.Ok?, s);
    hide TxInv;
    hide Extends;
  }

  // ------------------------------------------------------ authorization steps

  lemma EligibleIsNew(action: Action, wire: Json, decision: Decision)
    requires Gated(action) && Eligible(action, DeriveValidation(wire, decision))
    ensures !decision.exactDuplicate && !decision.semanticDuplicate
  {
    hide SetupId;
    hide Field;
  }

  /** A document with the bytes of the built one carries its hashes. */
  lemma SameBytesSameHashes(document: Json, wire: Json, identity: Identity, context: Context, decision: Decision)
    requires SameBytes(document, BuildCanonical(wire, identity, context, decision))
    ensures Field(document, "canonical_content_hash") == Str(identity.canonicalHash)
    ensures Field(document, "semantic_evidence_hash") == Str(identity.semanticHash)
  {
    var built := BuildCanonical(wire, identity, context, decision);
    BuiltHashes(wire, identity, context, decision);
    hide BuildCanonical;
    hide Render;
    hide NumericForm;
    SameTextIff(document, built);
    SameFormField(document, built, "canonical_content_hash");
    SameFormString(Field(document, "canonical_content_hash"), Field(built, "canonical_content_hash"), identity.canonicalHash);
    SameFormField(document, built, "semantic_evidence_hash");
    SameFormString(Field(document, "semantic_evidence_hash"), Field(built, "semantic_evidence_hash"), identity.semanticHash);
  }

  lemma BuiltHashes(wire: Json, identity: Identity, context: Context, decision: Decision)
    ensures var built := BuildCanonical(wire, identity, context, decision);
            Field(built, "canonical_content_hash") == Str(identity.canonicalHash) &&
            Field(built, "semantic_evidence_hash") == Str(identity.semanticHash)
  {
    assert "semantic_evidence_hash"[0] != "canonical_content_hash"[0];
  }

  /** A document is authorized only when it is the one built from the receipt's own bytes, and
      for every action but the audit one only when that receipt is no duplicate. */
  lemma VerifyEffect(t: Transaction, document: Json, raw: string, context: Context, action: Action,
                     s: Surroundings)
    requires Verify(t, document, raw, context, action, s).Ok?
    ensures context == t.context && Preflight(raw, context, s).Some? && t.decision.Some?
    ensures var identity := IdentityValues(Preflight(raw, context, s).value, s.cal);
            Field(document, "canonical_content_hash") == Str(identity.canonicalHash) &&
            Field(document, "semantic_evidence_hash") == Str(identity.semanticHash) &&
            Issue(t, action, identity.canonicalHash, Sha256(raw)) == Verify(t, document, raw, context, action, s)
    ensures Gated(action) ==> !t.decision.value.exactDuplicate && !t.decision.value.semanticDuplicate
  {
    hide Issue;
    hide Sha256;
    hide DeriveValidation;
    hide Eligible;
    hide IdentityValues;
    hide Preflight;
    hide Shaped;
    hide SameBytes;
    hide BuildCanonical;
    hide Field;
    PreflightIsIdentifiable(raw, context, s);
    hide Identifiable;
    var wire := Preflight(raw, context, s).value;
    SameBytesSameHashes(document, wire, IdentityValues(wire, s.cal), context, t.decision.value);
    if Gated(action) {
      EligibleIsNew(action, wire, t.decision.value);
    }
  }

  lemma VerifyKeepsTx(t: Transaction, document: Json, raw: string, context: Context, action: Action,
                      log: seq<Applied>, s: Surroundings)
    requires TxInv(t, log, s) && Verify(t, document, raw, context, action, s).Ok?
    ensures var next := Verify(t, document, raw, context, action, s).value.0;
            TxInv(next, log, s) && Extends(t, next)
  {
    hide Verify;
    hide Preflight;
    hide Identifiable;
    hide Field;
    hide IdentityValues;
    hide Issue;
    hide TableInv;
    hide FromReceipt;
    VerifyEffect(t, document, raw, context, action, s);
    PreflightIsIdentifiable(raw, context, s);
    var hash := IdentityValues(Preflight(raw, context, s).value, s.cal).canonicalHash;
    IssueKeepsTable(t, action, hash, Sha256(raw));
    IssueEffect(t, action, hash, Sha256(raw));
    var next := Verify(t, document, raw, context, action, s).value.0;
    ReceiptCopied(t, next, log, s);
  }

  /** Authorization steps leave the receipt's own fields alone. */
  lemma ReceiptCopied(t: Transaction, next: Transaction, log: seq<Applied>, s: Surroundings)
    requires OwnsInv(t, log) && ReceiptInv(t, s) && t.committed
    requires next == t.(generation := next.generation, closed := next.closed, rolledBack := next.rolledBack,
                        states := next.states, authorizations := next.authorizations, authCounter := next.authCounter)
    ensures OwnsInv(next, log) && ReceiptInv(next, s)
  {
    hide FromReceipt;
    var n :| 0 <= n < |log| && IsOwn(t, log[n]);
    assert IsOwn(next, log[n]);
  }

  lemma ConsumeKeepsTx(t: Transaction, presented: Authorization, action: Action, log: seq<Applied>, s: Surroundings)
    requires TxInv(t, log, s) && Consume(t, presented, action).Ok?
    ensures var next := Consume(t, presented, action).value;
            TxInv(next, log, s) && Extends(t, next) && next.committed && next.semanticHash.Some? &&
            !WasConsumed(t, action) && WasConsumed(next, action)
  {
    assert t.committed;
    ConsumeKeepsTable(t, presented, action);
    ConsumeEffect(t, presented, action);
    hide Consume;
    var next := Consume(t, presented, action).value;
    ReceiptCopied(t, next, log, s);
    hide TableInv;
    hide FromReceipt;
  }

  lemma AdvanceKeepsTx(t: Transaction, log: seq<Applied>, s: Surroundings)
    requires TxInv(t, log, s) && Advance(t).Ok?
    ensures TxInv(Advance(t).value, log, s) && Extends(t, Advance(t).value)
  {
    AdvanceKeepsTable(t);
    ReceiptCopied(t, Advance(t).value, log, s);
    hide TableInv;
    hide FromReceipt;
  }

  /** Closing and rolling back. */
  lemma EndKeepsTx(t: Transaction, next: Transaction, log: seq<Applied>, s: Surroundings)
    requires TxInv(t, log, s)
    requires next == InvalidatePending(t).(closed := next.closed, rolledBack := next.rolledBack)
    ensures TxInv(next, log, s) && Extends(t, next)
  {
    InvalidateKeepsTable(t, next);
    hide FromReceipt;
    hide TableInv;
    if t.committed {
      ReceiptCopied(t, next, log, s);
    }
  }

  lemma EndedKeepsTx(t: Transaction, log: seq<Applied>, s: Surroundings)
    requires TxInv(t, log, s)
    ensures TxInv(OrSame(t, Rollback(t)), log, s) && Extends(t, OrSame(t, Rollback(t)))
    ensures TxInv(OrSame(t, Close(t)), log, s) && Extends(t, OrSame(t, Close(t)))
  {
    if Rollback(t).Ok? {
      EndKeepsTx(t, Rollback(t).value, log, s);
    }
    if Close(t).Ok? {
      EndKeepsTx(t, Close(t).value, log, s);
    }
    hide TxInv;
  }

  // ------------------------------------------------------ every run

  lemma StepKeepsTx(sys: System, tx: nat, next: Transaction, s: Surroundings)
    requires Inv(sys, s) && tx < |sys.txs|
    requires TxInv(next, sys.authority.log, s) && Extends(sys.txs[tx], next)
    ensures Inv(sys.(txs := sys.txs[tx := next]), s)
  {
    assert LogInv(sys.authority, s);
    hide Inv;
    hide LogInv;
    hide TxInv;
    hide Extends;
    ReplaceKeepsInv(sys, sys.(txs := sys.txs[tx := next]), tx, s);
  }

  lemma OneTx(sys: System, tx: nat, s: Surroundings)
    requires Inv(sys, s) && tx < |sys.txs|
    ensures sys.txs[tx].number == tx && TxInv(sys.txs[tx], sys.authority.log, s) && LogInv(sys.authority, s)
  {
    hide LogInv;
    hide TxInv;
    hide ConsumedInv;
  }

  lemma ProcessStepKeepsInv(sys: System, tx: nat, failAt: Option<Stage>, raw: string, context: Context, s: Surroundings)
    requires Inv(sys, s) && tx < |sys.txs|
    ensures Inv(ProcessStep(sys, tx, failAt, raw, context, s), s)
  {
    hide Inv;
    hide LogInv;
    hide TxInv;
    hide Extends;
    hide Preflight;
    hide Identifiable;
    hide IdentityValues;
    hide ProcessIdentified;
    hide InvalidatePending;
    OneTx(sys, tx, s);
    var t, a := sys.txs[tx], sys.authority;
    if Preflight(raw, context, s).Some? {
      PreflightIsIdentifiable(raw, context, s);
      var wire := Preflight(raw, context, s).value;
      ProcessKeepsTx(t, a, failAt, raw, wire, context, s);
      var (done, b, result) := ProcessValidated(t, a, failAt, Sha256(raw), wire, context, s);
      EndedKeepsTx(done, b.log, s);
      var next := ProcessStep(sys, tx, failAt, raw, context, s);
      hide ProcessValidated;
      ExtendsThrough(t, done, OrSame(done, Rollback(done)));
      ReplaceKeepsInv(sys, next, tx, s);
    } else {
      assert ProcessStep(sys, tx, failAt, raw, context, s) == sys;
    }
  }

  lemma ExtendsThrough(a: Transaction, b: Transaction, c: Transaction)
    requires Extends(a, b) && Extends(b, c)
    ensures Extends(a, c)
  {
  }

  lemma ProcessOnceKeepsInv(sys: System, available: bool, failAt: Option<Stage>, raw: string, context: Context,
                            s: Surroundings)
    requires Inv(sys, s)
    ensures Inv(ProcessOnceStep(sys, available, failAt, raw, context, s), s)
  {
    assert LogInv(sys.authority, s);
    hide Inv;
    hide LogInv;
    hide TxInv;
    hide Preflight;
    hide BeginFailure;
    hide Identifiable;
    hide IdentityValues;
    hide ProcessIdentified;
    hide InvalidatePending;
    var begun := NewTransaction(|sys.txs|, context);
    NewTransactionInv(|sys.txs|, context, sys.authority.log, s);
    if Preflight(raw, context, s).Some? && BeginFailure(available, failAt, context).None? {
      PreflightIsIdentifiable(raw, context, s);
      var wire := Preflight(raw, context, s).value;
      ProcessKeepsTx(begun, sys.authority, failAt, raw, wire, context, s);
      var (t, a, _) := ProcessValidated(begun, sys.authority, failAt, Sha256(raw), wire, context, s);
      hide ProcessValidated;
      EndedKeepsTx(t, a.log, s);
      var left := if t.committed then t else OrSame(t, Rollback(t));
      EndedKeepsTx(left, a.log, s);
      BeginKeepsInv(sys, ProcessOnceStep(sys, available, failAt, raw, context, s), OrSame(left, Close(left)), s);
    }
  }

  /** The consumption just made is not yet in the record. */
  lemma ConsumedOnce(sys: System, replaced: System, tx: nat, action: Action, hash: string, s: Surroundings)
    requires Inv(sys, s) && tx < |sys.txs| && !WasConsumed(sys.txs[tx], action)
    requires Inv(replaced, s) && replaced.consumed == sys.consumed
    requires Recorded(replaced.txs, Consumption(tx, action, hash))
    ensures Inv(replaced.(consumed := sys.consumed + [Consumption(tx, action, hash)]), s)
  {
    hide TxInv;
    hide LogInv;
    hide WasConsumed;
    forall i | 0 <= i < |sys.consumed| && sys.consumed[i].tx == tx ensures sys.consumed[i].action != action {
      assert Recorded(sys.txs, sys.consumed[i]);
    }
    hide Recorded;
    var next := replaced.(consumed := sys.consumed + [Consumption(tx, action, hash)]);
    forall i | 0 <= i < |next.consumed| ensures Recorded(next.txs, next.consumed[i]) {
      if i < |sys.consumed| {
        assert Recorded(replaced.txs, replaced.consumed[i]);
      }
    }
  }

  lemma ConsumeStepKeepsInv(sys: System, tx: nat, presented: Authorization, action: Action, s: Surroundings)
    requires Inv(sys, s) && tx < |sys.txs|
    ensures Inv(ConsumeStep(sys, tx, presented, action), s)
  {
    hide Inv;
    hide TxInv;
    hide LogInv;
    hide Extends;
    hide WasConsumed;
    OneTx(sys, tx, s);
    if Consume(sys.txs[tx], presented, action).Ok? {
      var t := Consume(sys.txs[tx], presented, action).value;
      ConsumeKeepsTx(sys.txs[tx], presented, action, sys.authority.log, s);
      hide Consume;
      var replaced := sys.(txs := sys.txs[tx := t]);
      StepKeepsTx(sys, tx, t, s);
      ConsumedOnce(sys, replaced, tx, action, t.semanticHash.value, s);
    }
  }

  lemma VerifyStepKeepsInv(sys: System, call: Call, s: Surroundings)
    requires Inv(sys, s) && call.op.VerifyIn? && call.op.tx < |sys.txs|
    ensures Inv(Step(sys, call, s), s)
  {
    hide ProcessStep;
    hide ProcessOnceStep;
    hide ConsumeStep;
    hide Advance;
    hide Close;
    hide Rollback;
    hide NewTransaction;
    hide BeginFailure;
    var op := call.op;
    OneTx(sys, op.tx, s);
    hide Inv;
    hide TxInv;
    hide LogInv;
    hide Extends;
    hide Verify;
    var t := sys.txs[op.tx];
    if Verify(t, op.document, op.raw, op.context, op.action, s).Ok? {
      VerifyKeepsTx(t, op.document, op.raw, op.context, op.action, sys.authority.log, s);
      StepKeepsTx(sys, op.tx, Verify(t, op.document, op.raw, op.context, op.action, s).value.0, s);
    }
  }

  lemma AdvanceStepKeepsInv(sys: System, tx: nat, s: Surroundings)
    requires Inv(sys, s) && tx < |sys.txs|
    ensures Inv(sys.(txs := sys.txs[tx := OrSame(sys.txs[tx], Advance(sys.txs[tx]))]), s)
  {
    OneTx(sys, tx, s);
    hide Inv;
    hide TxInv;
    hide LogInv;
    hide Extends;
    hide Advance;
    if Advance(sys.txs[tx]).Ok? {
      AdvanceKeepsTx(sys.txs[tx], sys.authority.log, s);
      StepKeepsTx(sys, tx, Advance(sys.txs[tx]).value, s);
    } else {
      assert sys.(txs := sys.txs[tx := sys.txs[tx]]) == sys;
    }
  }

  lemma EndStepKeepsInv(sys: System, tx: nat, s: Surroundings)
    requires Inv(sys, s) && tx < |sys.txs|
    ensures Inv(sys.(txs := sys.txs[tx := OrSame(sys.txs[tx], Close(sys.txs[tx]))]), s)
    ensures Inv(sys.(txs := sys.txs[tx := OrSame(sys.txs[tx], Rollback(sys.txs[tx]))]), s)
  {
    OneTx(sys, tx, s);
    hide Inv;
    hide TxInv;
    hide LogInv;
    hide Extends;
    hide Close;
    hide Rollback;
    hide OrSame;
    EndedKeepsTx(sys.txs[tx], sys.authority.log, s);
    StepKeepsTx(sys, tx, OrSame(sys.txs[tx], Close(sys.txs[tx])), s);
    StepKeepsTx(sys, tx, OrSame(sys.txs[tx], Rollback(sys.txs[tx])), s);
  }

  lemma BeginStepKeepsInv(sys: System, context: Context, s: Surroundings)
    requires Inv(sys, s)
    ensures Inv(sys.(txs := sys.txs + [NewTransaction(|sys.txs|, context)]), s)
  {
    var t := NewTransaction(|sys.txs|, context);
    assert LogInv(sys.authority, s);
    NewTransactionInv(|sys.txs|, context, sys.authority.log, s);
    hide Inv;
    hide TxInv;
    hide LogInv;
    BeginKeepsInv(sys, sys.(txs := sys.txs + [t]), t, s);
  }

  lemma StepKeepsInv(sys: System, call: Call, s: Surroundings)
    requires Inv(sys, s)
    ensures Inv(Step(sys, call, s), s)
  {
    hide Inv;
    hide ProcessStep;
    hide ProcessOnceStep;
    hide ConsumeStep;
    hide NewTransaction;
    hide OrSame;
    match call.op
    case Begin(context) => BeginStepKeepsInv(sys, context, s);
    case ProcessOnce(raw, context) => ProcessOnceKeepsInv(sys, call.available, call.failAt, raw, context, s);
    case ProcessIn(tx, raw, context) =>
      if tx < |sys.txs| { ProcessStepKeepsInv(sys, tx, call.failAt, raw, context, s); }
    case ConsumeIn(tx, presented, action) =>
      if tx < |sys.txs| { ConsumeStepKeepsInv(sys, tx, presented, action, s); }
    case VerifyIn(tx, _, _, _, _) =>
      if tx < |sys.txs| { VerifyStepKeepsInv(sys, call, s); }
    case AdvanceIn(tx) =>
      if tx < |sys.txs| { AdvanceStepKeepsInv(sys, tx, s); }
    case CloseIn(tx) =>
      if tx < |sys.txs| { EndStepKeepsInv(sys, tx, s); }
    case RollbackIn(tx) =>
      if tx < |sys.txs| { EndStepKeepsInv(sys, tx, s); }
  }

  /** Every run, from an empty authority, keeps the invariant. */
  lemma {:induction false} RunKeepsInv(calls: seq<Call>, s: Surroundings)
    ensures Inv(Run(EMPTY_SYSTEM, calls, s), s)
    decreases |calls|
  {
    hide Inv;
    hide Step;
    if calls == [] {
      assert Inv(EMPTY_SYSTEM, s) by { EmptyInv(s); }
    } else {
      RunKeepsInv(calls[..|calls| - 1], s);
      StepKeepsInv(Run(EMPTY_SYSTEM, calls[..|calls| - 1], s), calls[|calls| - 1], s);
    }
  }

  lemma EmptyInv(s: Surroundings)
    ensures Inv(EMPTY_SYSTEM, s)
  {
  }
}
