/**
 The in-memory authority and its receipt transaction (contracts/event_v1.py), with their fields
 and methods. Every method takes the step that dedupe_steps.dfy describes on the objects' values.
 */
module DedupeAuthority {
  import opened Outcomes
  import opened CanonicalJson
  import opened SemanticEvidence
  import S = DedupeSteps

  function OrSame<T>(before: T, r: Result<T, S.Failure>): T {
    match r case Ok(t) => t case Err(_) => before
  }

  function Raised<T>(r: Result<T, S.Failure>): Option<S.Failure> {
    match r case Ok(_) => None case Err(e) => Some(e)
  }

  class InMemoryDedupeAuthority {
    var available: bool
    var failAt: Option<S.Stage>
    var counter: nat
    var exact: map<(string, string), seq<string>>
    var semantic: map<string, seq<string>>
    var receipts: map<string, S.Receipt>
    ghost var log: seq<S.Applied>

    constructor (available: bool, failAt: Option<S.Stage>)
      ensures State() == S.EMPTY_AUTHORITY && this.available == available && this.failAt == failAt && counter == 0
    {
      this.available := available;
      this.failAt, counter, exact, semantic, receipts, log := failAt, 0, map[], map[], map[], [];
    }

    ghost function State(): S.Authority
      reads this
    {
      S.Authority(exact, semantic, receipts, log)
    }

    /** A transaction exactly when nothing is raised. */
    method BeginReceiptTransaction(context: S.Context) returns (t: ReceiptTransaction?, raised: Option<S.Failure>)
      modifies this`counter
      ensures raised == S.BeginFailure(available, failAt, context)
      ensures raised.Some? ==> t == null && counter == old(counter)
      ensures raised.None? ==> t != null && fresh(t) && t.authority == this && counter == old(counter) + 1
      ensures raised.None? ==> t.State() == S.NewTransaction(counter, context)
    {
      if !available { return null, Some(S.AuthorityUnavailable); }
      if context.kind != "REPLAY_ONLY" || context.replayClock == "" { return null, Some(S.ReplayOnly); }
      if failAt == Some(S.BeginStage) { return null, Some(S.Injected(S.BeginStage)); }
      counter := counter + 1;
      t := new ReceiptTransaction(this, context, counter);
      return t, None;
    }
  }

  class ReceiptTransaction {
    const authority: InMemoryDedupeAuthority
    const number: nat
    const context: S.Context
    var generation: nat
    var committed: bool
    var closed: bool
    var rolledBack: bool
    var commitCalls: nat
    var recorded: bool
    var exactKey: Option<(string, string)>
    var semanticHash: Option<string>
    var exactDuplicate: Option<bool>
    var semanticDuplicate: Option<bool>
    var priorIds: seq<string>
    var decision: Option<S.Decision>
    var canonicalId: Option<string>
    var validation: Option<S.Validation>
    var authorizations: map<S.AuthId, S.Authorization>
    var states: map<(nat, S.Action), S.AuthState>
    var authCounter: nat

    constructor (authority: InMemoryDedupeAuthority, context: S.Context, number: nat)
      ensures State() == S.NewTransaction(number, context) && this.authority == authority
    {
      this.authority, this.context, this.number := authority, context, number;
      generation, committed, closed, rolledBack, commitCalls, recorded := 1, false, false, false, 0, false;
      exactKey, semanticHash, exactDuplicate, semanticDuplicate, priorIds := None, None, None, None, [];
      decision, canonicalId, validation, authorizations, states, authCounter := None, None, None, map[], map[], 0;
    }

    ghost function State(): S.Transaction
      reads this
    {
      S.Transaction(number, context, generation, committed, closed, rolledBack, commitCalls, recorded, exactKey,
                    semanticHash, exactDuplicate, semanticDuplicate, priorIds, decision, canonicalId, validation,
                    authorizations, states, authCounter)
    }

    method Guard(stage: S.Stage) returns (raised: Option<S.Failure>)
      ensures raised == S.Guard(State(), authority.failAt, stage)
    {
      if closed { return Some(S.TransactionClosed); }
      if rolledBack { return Some(S.TransactionRolledBack); }
      if authority.failAt == Some(stage) { return Some(S.Injected(stage)); }
      return None;
    }

    method RecordReceipt(rawHash: string) returns (raised: Option<S.Failure>)
      modifies this
      ensures var r := S.RecordReceipt(old(State()), authority.failAt, rawHash);
              State() == OrSame(old(State()), r) && raised == Raised(r)
    {
      raised := Guard(S.RecordReceiptStage);
      if raised.Some? { return; }
      if recorded { return Some(S.AlreadyRecorded); }
      if rawHash != context.rawHash { return Some(S.RawMismatch); }
      recorded := true;
    }

    method ReserveExact(transport: string, canonicalHash: string) returns (raised: Option<S.Failure>)
      modifies this
      ensures var r := S.ReserveExact(old(State()), authority.State(), authority.failAt, transport, canonicalHash);
              State() == OrSame(old(State()), r) && raised == Raised(r)
    {
      raised := Guard(S.ReserveExactStage);
      if raised.Some? { return; }
      if !recorded || exactKey.Some? { return Some(S.OutOfOrder); }
      exactKey := Some((transport, canonicalHash));
      var ids := if exactKey.value in authority.exact then authority.exact[exactKey.value] else [];
      exactDuplicate := Some(ids != []);
      priorIds := S.MergeIds(priorIds, ids);
    }

    method ReserveSemantic(evidence: string) returns (raised: Option<S.Failure>)
      modifies this
      ensures var r := S.ReserveSemantic(old(State()), authority.State(), authority.failAt, evidence);
              State() == OrSame(old(State()), r) && raised == Raised(r)
    {
      raised := Guard(S.ReserveSemanticStage);
      if raised.Some? { return; }
      if exactKey.None? || semanticHash.Some? { return Some(S.OutOfOrder); }
      semanticHash := Some(evidence);
      var ids := if evidence in authority.semantic then authority.semantic[evidence] else [];
      semanticDuplicate := Some(ids != []);
      priorIds := S.MergeIds(priorIds, ids);
    }

    method PersistDecision(decided: Option<S.Decision>, id: Option<string>, outcome: S.Validation)
      returns (raised: Option<S.Failure>)
      modifies this
      ensures var r := S.PersistDecision(old(State()), authority.failAt, decided, id, outcome);
              State() == OrSame(old(State()), r) && raised == Raised(r)
    {
      raised := Guard(S.PersistDecisionStage);
      if raised.Some? { return; }
      if !recorded || validation.Some? { return Some(S.OutOfOrder); }
      if decided.Some? {
        if exactDuplicate.None? || semanticDuplicate.None? { return Some(S.OutOfOrder); }
        if decided.value != S.Decision(exactDuplicate.value, semanticDuplicate.value, priorIds) {
          return Some(S.InvalidResult);
        }
      }
      decision, canonicalId, validation := decided, id, Some(outcome);
    }

    /** `_apply_commit`. */
    method ApplyCommit() returns (raised: Option<S.Failure>)
      requires validation.Some? && (decision.Some? ==> exactKey.Some? && semanticHash.Some?)
      modifies authority
      ensures var r := S.ApplyCommit(State(), old(authority.State()));
              authority.State() == OrSame(old(authority.State()), r) && raised == Raised(r)
      ensures authority.failAt == old(authority.failAt) && authority.counter == old(authority.counter)
    {
      if context.receiptId in authority.receipts { return Some(S.DuplicateReceiptId); }
      authority.receipts := authority.receipts[context.receiptId :=
        S.Receipt(context.rawHash, number, decision, validation.value)];
      if decision.Some? && canonicalId.Some? {
        var key, evidence, id := exactKey.value, semanticHash.value, canonicalId.value;
        authority.exact := authority.exact[key := S.Ids(authority.exact, key) + [id]];
        authority.semantic := authority.semantic[evidence := S.Ids(authority.semantic, evidence) + [id]];
        authority.log := authority.log + [S.Applied(number, key, evidence, id, decision.value)];
      }
      return None;
    }

    method Commit() returns (raised: Option<S.Failure>)
      requires S.Reserved(State())
      modifies this, authority
      ensures (State(), authority.State(), raised) ==
              S.Commit(old(State()), old(authority.State()), old(authority.failAt))
      ensures authority.failAt == old(authority.failAt) && authority.counter == old(authority.counter)
    {
      if closed { return Some(S.TransactionClosed); }
      if rolledBack { return Some(S.TransactionRolledBack); }
      commitCalls := commitCalls + 1;
      if commitCalls != 1 || committed { return Some(S.CommitOnce); }
      if validation.None? { return Some(S.OutOfOrder); }
      if authority.failAt == Some(S.CommitStage) { return Some(S.Injected(S.CommitStage)); }
      ghost var before := State();
      assert before == old(State()).(commitCalls := old(commitCalls) + 1);
      raised := ApplyCommit();
      ghost var applied := S.ApplyCommit(before, old(authority.State()));
      assert applied == S.ApplyCommit(old(State()), old(authority.State()));
      hide S.ApplyCommit;
      if raised.Some? { return; }
      if authority.failAt == Some(S.CommitUnknownStage) { return Some(S.CommitUnknown); }
      committed := true;
    }

    /** `_invalidate_pending_authorizations_locked`: one pass over the states as they were. */
    method InvalidatePending()
      modifies this`states, this`authorizations
      ensures State() == S.InvalidatePending(old(State()))
    {
      var remaining := states.Keys;
      while remaining != {}
        invariant remaining <= states.Keys == old(states).Keys
        invariant forall k | k in states ::
          states[k] == if k in remaining then old(states)[k] else S.InvalidatedStates(old(states))[k]
      {
        var key :| key in remaining;
        if states[key].Pending? {
          states := states[key := S.Invalidated];
        }
        remaining := remaining - {key};
      }
      assert states == S.InvalidatedStates(old(states));
      authorizations := map[];
    }

    method Rollback() returns (raised: Option<S.Failure>)
      modifies this
      ensures var r := S.Rollback(old(State())); State() == OrSame(old(State()), r) && raised == Raised(r)
    {
      if closed { return Some(S.TransactionClosed); }
      if committed { return Some(S.CommittedNoRollback); }
      InvalidatePending();
      rolledBack := true;
      return None;
    }

    method Close() returns (raised: Option<S.Failure>)
      modifies this
      ensures var r := S.Close(old(State())); State() == OrSame(old(State()), r) && raised == Raised(r)
    {
      if closed { return Some(S.TransactionClosed); }
      InvalidatePending();
      closed := true;
      return None;
    }

    method IssueAuthorization(action: S.Action, canonicalHash: string, rawHash: string)
      returns (result: Result<S.Authorization, S.Failure>)
      modifies this
      ensures match S.Issue(old(State()), action, canonicalHash, rawHash)
              case Ok(issued) => State() == issued.0 && result == Ok(issued.1)
              case Err(e) => State() == old(State()) && result == Err(e)
    {
      if closed { return Err(S.TransactionClosed); }
      if rolledBack { return Err(S.TransactionRolledBack); }
      if !committed { return Err(S.NotCommitted); }
      var key := (generation, action);
      if key in states {
        match states[key]
        case Pending => return Err(S.AlreadyIssued);
        case Consumed => return Err(S.AlreadyConsumed);
        case Invalidated => return Err(S.WasInvalidated);
      }
      authCounter := authCounter + 1;
      var id := S.AuthId(number, generation, authCounter, action, canonicalHash);
      var issued := S.Authorization(authCounter, true, action, context.receiptId, rawHash, canonicalHash, number,
                                    generation, id);
      authorizations := authorizations[id := issued];
      states := states[key := S.Pending];
      return Ok(issued);
    }

    method ConsumeAuthorization(presented: S.Authorization, action: S.Action) returns (raised: Option<S.Failure>)
      modifies this
      ensures var r := S.Consume(old(State()), presented, action);
              State() == OrSame(old(State()), r) && raised == Raised(r)
    {
      if closed { return Some(S.TransactionClosed); }
      if rolledBack { return Some(S.TransactionRolledBack); }
      if !committed { return Some(S.NotCommitted); }
      if !presented.authorized { return Some(S.AuthorizationRequired); }
      var key := (presented.generation, action);
      var state := if key in states then Some(states[key]) else None;
      if presented.generation != generation {
        return Some(if state == Some(S.Invalidated) then S.WasInvalidated else S.GenerationStale);
      }
      if state == Some(S.Invalidated) { return Some(S.WasInvalidated); }
      if state == Some(S.Consumed) { return Some(S.AlreadyConsumed); }
      if state != Some(S.Pending) || presented.id !in authorizations || authorizations[presented.id] != presented ||
         presented.action != action || presented.number != number
      {
        return Some(S.AuthorizationStale);
      }
      states := states[key := S.Consumed];
      authorizations := authorizations - {presented.id};
      return None;
    }

    method AdvanceGeneration() returns (raised: Option<S.Failure>)
      modifies this
      ensures var r := S.Advance(old(State())); State() == OrSame(old(State()), r) && raised == Raised(r)
    {
      if closed { return Some(S.TransactionClosed); }
      if rolledBack { return Some(S.TransactionRolledBack); }
      if !committed { return Some(S.NotCommitted); }
      var current := set k | k in states && k.0 == generation :: states[k];
      if S.Consumed in current { return Some(S.AlreadyConsumed); }
      InvalidatePending();
      generation := generation + 1;
      return None;
    }
  }

  /** Both reservations of one receipt. */
  method Reserve(t: ReceiptTransaction, rawHash: string, transport: string, canonicalHash: string, evidence: string)
    returns (raised: Option<S.Failure>)
    modifies t
    ensures (t.State(), raised) ==
            S.Reserve(old(t.State()), t.authority.State(), t.authority.failAt, rawHash, transport, canonicalHash, evidence)
  {
    hide S.ReserveExact;
    hide S.ReserveSemantic;
    hide S.RecordReceipt;
    raised := t.RecordReceipt(rawHash);
    if raised.Some? { return; }
    raised := t.ReserveExact(transport, canonicalHash);
    if raised.Some? { return; }
    raised := t.ReserveSemantic(evidence);
  }

  /** `_process_validated_wire_event_v1_receipt`. */
  method ProcessIdentified(t: ReceiptTransaction, rawHash: string, wire: Json, identity: S.Identity, context: S.Context,
                           s: S.Surroundings)
    returns (result: Result<S.Validation, S.Failure>)
    modifies t, t.authority
    ensures (t.State(), t.authority.State(), result) ==
            S.ProcessIdentified(old(t.State()), old(t.authority.State()), old(t.authority.failAt), rawHash, wire,
                                identity, context, s)
    ensures t.authority.failAt == old(t.authority.failAt)
  {
    hide S.DeriveValidation;
    hide S.Reserve;
    hide S.PersistDecision;
    hide S.Commit;
    hide S.BuildCanonical;
    hide S.Shaped;
    if t.closed { return Err(S.TransactionClosed); }
    if t.rolledBack { return Err(S.TransactionRolledBack); }
    if context != t.context { return Err(S.ContextMismatch); }
    S.ReserveReserves(t.State(), t.authority.State(), t.authority.failAt, rawHash, context.transport,
                      identity.canonicalHash, identity.semanticHash);
    var raised := Reserve(t, rawHash, context.transport, identity.canonicalHash, identity.semanticHash);
    if raised.Some? { return Err(raised.value); }
    var decision := S.Decision(t.exactDuplicate.value, t.semanticDuplicate.value, t.priorIds);
    ghost var reserved := t.State();
    assert decision == S.ReservedDecision(reserved);
    if !S.Shaped(S.BuildCanonical(wire, identity, context, decision), s) { return Err(S.CanonicalRefused); }
    var validation := S.DeriveValidation(wire, decision);
    raised := t.PersistDecision(Some(decision), Some(identity.canonicalId), validation);
    if raised.Some? { return Err(raised.value); }
    PersistedIsReserved(reserved, t.authority.failAt, Some(identity.canonicalId), validation);
    raised := t.Commit();
    if raised.Some? { return Err(raised.value); }
    return Ok(validation);
  }

  lemma PersistedIsReserved(t: S.Transaction, failAt: Option<S.Stage>, id: Option<string>, validation: S.Validation)
    requires S.Undecided(t)
    requires S.PersistDecision(t, failAt, Some(S.ReservedDecision(t)), id, validation).Ok?
    ensures S.Reserved(S.PersistDecision(t, failAt, Some(S.ReservedDecision(t)), id, validation).value)
  {
  }

  /** `process_wire_event_v1_receipt_in_transaction`. */
  method ProcessInTransaction(t: ReceiptTransaction, raw: string, context: S.Context, s: S.Surroundings)
    returns (result: Result<S.Validation, S.Failure>)
    modifies t, t.authority
    ensures (t.State(), t.authority.State(), result) ==
            S.Process(old(t.State()), old(t.authority.State()), old(t.authority.failAt), raw, context, s)
  {
    var preflight := S.Preflight(raw, context, s);
    if preflight.None? { return Err(S.DocumentRejected); }
    var wire := preflight.value;
    result := ProcessIdentified(t, Sha256(raw), wire, S.IdentityValues(wire, s.cal), context, s);
    hide S.ProcessIdentified;
    hide S.IdentityValues;
    if result.Err? && !t.committed && !t.closed {
      var _ := t.Rollback();
    }
  }

  /** One receipt in a `with` block: rolled back on leaving it unless committed, and closed. */
  method ProcessWithin(t: ReceiptTransaction, rawHash: string, wire: Json, identity: S.Identity, context: S.Context,
                       s: S.Surroundings)
    returns (result: Result<S.Validation, S.Failure>)
    modifies t, t.authority
    ensures var done := S.ProcessIdentified(old(t.State()), old(t.authority.State()), old(t.authority.failAt), rawHash,
                                            wire, identity, context, s);
            t.authority.State() == done.1 && result == done.2
  {
    result := ProcessIdentified(t, rawHash, wire, identity, context, s);
    hide S.ProcessIdentified;
    hide S.InvalidatePending;
    if !t.committed {
      var _ := t.Rollback();
    }
    var _ := t.Close();
  }

  /** The authority and the answer after one receipt on a new transaction. */
  ghost function Processed(number: nat, a: S.Authority, failAt: Option<S.Stage>, raw: string, wire: Json,
                           context: S.Context, s: S.Surroundings): (r: (S.Authority, Result<S.Validation, S.Failure>))
    requires Identifiable(wire, s.cal)
  {
    var done := S.ProcessValidated(S.NewTransaction(number, context), a, failAt, Sha256(raw), wire, context, s);
    (done.1, done.2)
  }

  /** `process_wire_event_v1_receipt`, on a transaction of its own. */
  method ProcessReceipt(a: InMemoryDedupeAuthority, raw: string, context: S.Context, s: S.Surroundings)
    returns (result: Result<S.Validation, S.Failure>)
    modifies a
    ensures var wire := S.Preflight(raw, context, s);
            var refused := S.BeginFailure(old(a.available), old(a.failAt), context);
            if wire.None? || refused.Some? then
              a.State() == old(a.State()) &&
              result == Err(if wire.None? then S.DocumentRejected else refused.value)
            else
              (a.State(), result) ==
                Processed(old(a.counter) + 1, old(a.State()), old(a.failAt), raw, wire.value, context, s)
  {
    hide S.Preflight;
    hide S.BeginFailure;
    hide S.NewTransaction;
    hide S.ProcessIdentified;
    hide S.IdentityValues;
    hide Identifiable;
    hide Sha256;
    var preflight := S.Preflight(raw, context, s);
    if preflight.None? { return Err(S.DocumentRejected); }
    S.PreflightIsIdentifiable(raw, context, s);
    var t, raised := a.BeginReceiptTransaction(context);
    if raised.Some? { return Err(raised.value); }
    result := ProcessWithin(t, Sha256(raw), preflight.value, S.IdentityValues(preflight.value, s.cal), context, s);
  }

  /** `verify_and_authorize_canonical_event_v1`. */
  method VerifyAndAuthorize(t: ReceiptTransaction, document: Json, raw: string, context: S.Context, action: S.Action,
                            s: S.Surroundings)
    returns (result: Result<S.Authorization, S.Failure>)
    modifies t
    ensures match S.Verify(old(t.State()), document, raw, context, action, s)
            case Ok(issued) => t.State() == issued.0 && result == Ok(issued.1)
            case Err(e) => t.State() == old(t.State()) && result == Err(e)
  {
    hide Identifiable;
    hide Sha256;
    hide Render;
    hide S.IdentityValues;
    hide S.DeriveValidation;
    hide S.Preflight;
    hide S.BuildCanonical;
    hide S.Shaped;
    hide S.SameBytes;
    hide S.Eligible;
    hide S.Issue;
    if action.UnknownAction? { return Err(S.ActionNotKnown); }
    if t.closed { return Err(S.TransactionClosed); }
    if t.rolledBack { return Err(S.TransactionRolledBack); }
    if context != t.context { return Err(S.ContextMismatch); }
    if !t.committed { return Err(S.NotCurrent); }
    if !S.Shaped(document, s) { return Err(S.DocumentRejected); }
    var preflight := S.Preflight(raw, context, s);
    if preflight.None? { return Err(S.DocumentRejected); }
    if t.decision.None? { return Err(S.InvalidResult); }
    S.PreflightIsIdentifiable(raw, context, s);
    var wire, decision := preflight.value, t.decision.value;
    var identity := S.IdentityValues(wire, s.cal);
    var expected := S.BuildCanonical(wire, identity, context, decision);
    if !S.Shaped(expected, s) { return Err(S.CanonicalRefused); }
    if !S.SameBytes(document, expected) { return Err(S.DocumentMismatch); }
    if !S.Eligible(action, S.DeriveValidation(wire, decision)) { return Err(S.ActionNotEligible); }
    result := t.IssueAuthorization(action, identity.canonicalHash, Sha256(raw));
  }
}
