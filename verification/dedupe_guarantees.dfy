/**
 What holds of every run of one dedupe authority (contracts/event_v1.py).
 */
module DedupeGuarantees {
  import opened Outcomes
  import opened CanonicalJson
  import opened SemanticEvidence
  import opened DedupeSteps
  import opened DedupeRuns

  // ------------------------------------------------------ indexes and flags

  lemma {:induction false} ExactIdsFound(log: seq<Applied>, key: (string, string))
    ensures ExactIds(log, key) != [] <==> exists m :: 0 <= m < |log| && log[m].exactKey == key
  {
    if log != [] {
      var front := log[..|log| - 1];
      ExactIdsFound(front, key);
      if m :| 0 <= m < |log| && log[m].exactKey == key {
        assert m < |front| ==> front[m] == log[m];
      }
      if m :| 0 <= m < |front| && front[m].exactKey == key {
        assert log[m] == front[m];
      }
    }
  }

  lemma {:induction false} SemanticIdsFound(log: seq<Applied>, hash: string)
    ensures SemanticIds(log, hash) != [] <==> exists m :: 0 <= m < |log| && log[m].semanticHash == hash
  {
    if log != [] {
      var front := log[..|log| - 1];
      SemanticIdsFound(front, hash);
      if m :| 0 <= m < |log| && log[m].semanticHash == hash {
        assert m < |front| ==> front[m] == log[m];
      }
      if m :| 0 <= m < |front| && front[m].semanticHash == hash {
        assert log[m] == front[m];
      }
    }
  }

  /** Each duplicate flag says exactly whether an earlier applied receipt has the same key. */
  lemma FlagsAreRight(log: seq<Applied>, n: nat)
    requires n < |log| && DecidedRightly(log, n)
    ensures log[n].decision.exactDuplicate <==> exists m :: 0 <= m < n && log[m].exactKey == log[n].exactKey
    ensures log[n].decision.semanticDuplicate <==> exists m :: 0 <= m < n && log[m].semanticHash == log[n].semanticHash
  {
    hide MergeIds;
    ExactIdsFound(log[..n], log[n].exactKey);
    SemanticIdsFound(log[..n], log[n].semanticHash);
    forall m | 0 <= m < n ensures log[..n][m] == log[m] {}
  }

  lemma OneHashOneEvidence(canonicalHash: string, a: string, b: string, s: Surroundings)
    requires Sound(s.cal) && OneDocument(canonicalHash, a, s) && OneDocument(canonicalHash, b, s)
    ensures a == b
  {
    hide Projection;
    hide UniqueTimeframes;
    hide Render;
    hide CanonicalHash;
    hide SemanticHash;
    var v: Json :| Identifiable(v, s.cal) && CanonicalHash(v) == canonicalHash && SemanticHash(v, s.cal) == a;
    var w: Json :| Identifiable(w, s.cal) && CanonicalHash(w) == canonicalHash && SemanticHash(w, s.cal) == b;
    CanonicalHashFixesIdentity(v, w, s.cal);
  }

  /** After every run both indexes are the applied receipts grouped by key in commit order, the
      duplicate flags are right, and an exact duplicate is a semantic duplicate too. */
  lemma IndexesAreTheLog(calls: seq<Call>, s: Surroundings)
    requires Sound(s.cal)
    ensures var a := Run(EMPTY_SYSTEM, calls, s).authority;
            && (forall key :: Ids(a.exact, key) == ExactIds(a.log, key))
            && (forall hash :: Ids(a.semantic, hash) == SemanticIds(a.log, hash))
            && (forall n | 0 <= n < |a.log| ::
                  && (a.log[n].decision.exactDuplicate <==>
                      exists m :: 0 <= m < n && a.log[m].exactKey == a.log[n].exactKey)
                  && (a.log[n].decision.semanticDuplicate <==>
                      exists m :: 0 <= m < n && a.log[m].semanticHash == a.log[n].semanticHash)
                  && (a.log[n].decision.exactDuplicate ==> a.log[n].decision.semanticDuplicate))
  {
    RunKeepsInv(calls, s);
    var a := Run(EMPTY_SYSTEM, calls, s).authority;
    assert LogInv(a, s);
    hide Run;
    hide DecidedRightly;
    hide OneDocument;
    hide Sound;
    hide TxsInv;
    hide ConsumedInv;
    forall n | 0 <= n < |a.log| {
      FlagsAreRight(a.log, n);
    }
    forall m, n | 0 <= m < n < |a.log| && a.log[m].exactKey == a.log[n].exactKey
      ensures a.log[m].semanticHash == a.log[n].semanticHash
    {
      OneHashOneEvidence(a.log[n].exactKey.1, a.log[m].semanticHash, a.log[n].semanticHash, s);
    }
  }

  // ------------------------------------------------------ prior ids and eligibility

  predicate NoRepeats(ids: seq<string>) { forall i, j | 0 <= i < j < |ids| :: ids[i] != ids[j] }

  lemma {:induction false} WithoutRepeatsKeeps(ids: seq<string>)
    ensures NoRepeats(WithoutRepeats(ids)) && forall x :: x in WithoutRepeats(ids) <==> x in ids
  {
    if ids != [] {
      WithoutRepeatsKeeps(ids[..|ids| - 1]);
      assert ids == ids[..|ids| - 1] + [ids[|ids| - 1]];
    }
  }

  /** Ids already listed keep their places; later ones only follow. */
  lemma {:induction false} WithoutRepeatsExtends(ids: seq<string>, more: seq<string>)
    ensures WithoutRepeats(ids) <= WithoutRepeats(ids + more)
    decreases |more|
  {
    if more == [] {
      assert ids + more == ids;
    } else {
      var all := ids + more;
      assert all[..|all| - 1] == ids + more[..|more| - 1];
      WithoutRepeatsExtends(ids, more[..|more| - 1]);
    }
  }

  lemma MergeIdsIs(prior: seq<string>, ids: seq<string>)
    ensures var merged := MergeIds(prior, ids);
            NoRepeats(merged) && (forall x | x in merged :: x in prior || x in ids) &&
            (|merged| < 16 ==> forall x | x in prior || x in ids :: x in merged) &&
            (NoRepeats(prior) && |prior| <= 16 ==> prior <= merged)
  {
    WithoutRepeatsKeeps(prior + ids);
    if NoRepeats(prior) {
      WithoutRepeatsExtends(prior, ids);
      NothingToDrop(prior);
    }
    hide WithoutRepeats;
    forall x | x in MergeIds(prior, ids) ensures x in prior || x in ids {
      assert x in WithoutRepeats(prior + ids);
      assert x in prior + ids;
    }
  }

  lemma {:induction false} NothingToDrop(ids: seq<string>)
    requires NoRepeats(ids)
    ensures WithoutRepeats(ids) == ids
  {
    if ids != [] {
      NothingToDrop(ids[..|ids| - 1]);
    }
  }

  lemma {:induction false} ExactIdIsLogged(log: seq<Applied>, key: (string, string), id: string)
    ensures id in ExactIds(log, key) <==> exists m :: 0 <= m < |log| && log[m].exactKey == key && log[m].canonicalId == id
  {
    if log != [] {
      var front := log[..|log| - 1];
      ExactIdIsLogged(front, key, id);
      if m :| 0 <= m < |log| && log[m].exactKey == key && log[m].canonicalId == id {
        assert m < |front| ==> front[m] == log[m];
      }
      if m :| 0 <= m < |front| && front[m].exactKey == key && front[m].canonicalId == id {
        assert log[m] == front[m];
      }
    }
  }

  lemma {:induction false} SemanticIdIsLogged(log: seq<Applied>, hash: string, id: string)
    ensures id in SemanticIds(log, hash) <==>
            exists m :: 0 <= m < |log| && log[m].semanticHash == hash && log[m].canonicalId == id
  {
    if log != [] {
      var front := log[..|log| - 1];
      SemanticIdIsLogged(front, hash, id);
      if m :| 0 <= m < |log| && log[m].semanticHash == hash && log[m].canonicalId == id {
        assert m < |front| ==> front[m] == log[m];
      }
      if m :| 0 <= m < |front| && front[m].semanticHash == hash && front[m].canonicalId == id {
        assert log[m] == front[m];
      }
    }
  }

  /** An applied receipt that this one repeats, exactly or in evidence, has this event id. */
  predicate Repeats(log: seq<Applied>, key: (string, string), hash: string, id: string) {
    exists m :: 0 <= m < |log| && (log[m].exactKey == key || log[m].semanticHash == hash) && log[m].canonicalId == id
  }

  /** The prior ids of a decision are distinct event ids of applied receipts it repeats: at most
      16, and all of them when there are fewer. */
  lemma PriorIdsAreTheRepeated(log: seq<Applied>, key: (string, string), hash: string)
    ensures var prior := DecisionAfter(log, key, hash).priorIds;
            NoRepeats(prior) && |prior| <= 16 && (forall id | id in prior :: Repeats(log, key, hash, id)) &&
            (|prior| < 16 ==> forall id | Repeats(log, key, hash, id) :: id in prior)
  {
    var exact, semantic := ExactIds(log, key), SemanticIds(log, hash);
    var first := MergeIds([], exact);
    MergeIdsIs([], exact);
    MergeIdsIs(first, semantic);
    hide MergeIds;
    hide ExactIds;
    hide SemanticIds;
    var prior := MergeIds(first, semantic);
    assert |first| <= |prior|;
    forall id ensures id in exact || id in semantic <==> Repeats(log, key, hash, id) {
      ExactIdIsLogged(log, key, id);
      SemanticIdIsLogged(log, hash, id);
    }
    hide Repeats;
  }

  // ------------------------------------------------------ at most once

  lemma FirstOfItsHash(log: seq<Applied>, n: nat)
    requires n < |log| && DecidedRightly(log, n) && !log[n].decision.semanticDuplicate
    ensures forall m | 0 <= m < n :: log[m].semanticHash != log[n].semanticHash
  {
    hide DecidedRightly;
    FlagsAreRight(log, n);
  }

  /** Two transactions whose receipts are no semantic duplicates have different evidence. */
  lemma NoDuplicatesDiffer(log: seq<Applied>, t: Transaction, u: Transaction)
    requires forall n | 0 <= n < |log| :: DecidedRightly(log, n)
    requires OwnsInv(t, log) && OwnsInv(u, log) && t.committed && u.committed && t.number != u.number
    requires t.decision.Some? && !t.decision.value.semanticDuplicate
    requires u.decision.Some? && !u.decision.value.semanticDuplicate
    ensures t.semanticHash != u.semanticHash
  {
    var m :| 0 <= m < |log| && IsOwn(t, log[m]);
    var n :| 0 <= n < |log| && IsOwn(u, log[n]);
    FirstOfItsHash(log, m);
    FirstOfItsHash(log, n);
    assert m != n;
  }

  lemma GatedIsNew(t: Transaction, action: Action)
    requires GatedInv(t) && WasConsumed(t, action) && Gated(action)
    ensures t.decision.Some? && !t.decision.value.semanticDuplicate
  {
  }

  lemma ConsumedPairDiffers(sys: System, i: nat, j: nat, s: Surroundings)
    requires Inv(sys, s) && i < j < |sys.consumed| && sys.consumed[i].action == sys.consumed[j].action
    ensures sys.consumed[i].tx != sys.consumed[j].tx
    ensures Gated(sys.consumed[i].action) ==> sys.consumed[i].semanticHash != sys.consumed[j].semanticHash
  {
    var c, d := sys.consumed[i], sys.consumed[j];
    assert Recorded(sys.txs, c) && Recorded(sys.txs, d);
    OneTx(sys, c.tx, s);
    OneTx(sys, d.tx, s);
    if Gated(c.action) {
      hide WasConsumed;
      hide TableInv;
      hide OwnsInv;
      hide ReceiptInv;
      GatedIsNew(sys.txs[c.tx], c.action);
      GatedIsNew(sys.txs[d.tx], d.action);
      hide GatedInv;
      NoDuplicatesDiffer(sys.authority.log, sys.txs[c.tx], sys.txs[d.tx]);
    }
  }

  /** Over any run, with any retries, unknown commits, closed or advanced transactions: no
      transaction has an action consumed twice, and no action but the audit one - DISPATCH among
      them - is consumed twice for one semantic evidence hash. */
  lemma AtMostOnce(calls: seq<Call>, s: Surroundings)
    ensures var consumed := Run(EMPTY_SYSTEM, calls, s).consumed;
            forall i, j | 0 <= i < j < |consumed| && consumed[i].action == consumed[j].action ::
              consumed[i].tx != consumed[j].tx &&
              (Gated(consumed[i].action) ==> consumed[i].semanticHash != consumed[j].semanticHash)
  {
    var sys := Run(EMPTY_SYSTEM, calls, s);
    RunKeepsInv(calls, s);
    hide Inv;
    hide Run;
    forall i, j | 0 <= i < j < |sys.consumed| && sys.consumed[i].action == sys.consumed[j].action
      ensures sys.consumed[i].tx != sys.consumed[j].tx &&
              (Gated(sys.consumed[i].action) ==> sys.consumed[i].semanticHash != sys.consumed[j].semanticHash)
    {
      ConsumedPairDiffers(sys, i, j, s);
    }
  }

  /** Bytes with the bound hash are the receipt's own. */
  lemma BoundBytes(raw: string, bytes: string, context: Context, s: Surroundings)
    requires Preflight(raw, context, s).Some? && Preflight(bytes, context, s).Some?
    ensures bytes == raw
  {
    hide Identifiable;
    hide ReadDocument;
    Sha256Injective(bytes, raw);
  }

  lemma OwnHash(t: Transaction, raw: string, s: Surroundings)
    requires t.semanticHash.Some? && FromReceipt(t.context, t.semanticHash.value, s)
    requires Preflight(raw, t.context, s).Some?
    ensures t.semanticHash.value == SemanticHash(Preflight(raw, t.context, s).value, s.cal)
  {
    PreflightIsIdentifiable(raw, t.context, s);
    var bytes: string :| Preflight(bytes, t.context, s).Some? &&
                         t.semanticHash.value == SemanticHash(Preflight(bytes, t.context, s).value, s.cal);
    BoundBytes(raw, bytes, t.context, s);
  }

  lemma VerifiedIsOwn(t: Transaction, document: Json, raw: string, context: Context, action: Action,
                      log: seq<Applied>, s: Surroundings)
    requires TxInv(t, log, s) && Verify(t, document, raw, context, action, s).Ok?
    ensures t.semanticHash.Some? && Field(document, "semantic_evidence_hash") == Str(t.semanticHash.value)
  {
    hide TableInv;
    hide Preflight;
    hide Field;
    hide FromReceipt;
    VerifyEffect(t, document, raw, context, action, s);
    hide Identifiable;
    assert t.committed && t.semanticHash.Some? by {
      assert OwnsInv(t, log);
      hide Shaped;
      hide BuildCanonical;
    }
    hide Verify;
    OwnHash(t, raw, s);
    hide SemanticHash;
  }

  /** Only the document of the transaction's own receipt is ever authorized: the evidence hash
      recorded on consumption is the verified document's. */
  lemma AuthorizedDocumentIsOwn(calls: seq<Call>, tx: nat, document: Json, raw: string, context: Context,
                                action: Action, s: Surroundings)
    requires tx < |Run(EMPTY_SYSTEM, calls, s).txs|
    requires Verify(Run(EMPTY_SYSTEM, calls, s).txs[tx], document, raw, context, action, s).Ok?
    ensures Run(EMPTY_SYSTEM, calls, s).txs[tx].semanticHash.Some?
    ensures Field(document, "semantic_evidence_hash") == Str(Run(EMPTY_SYSTEM, calls, s).txs[tx].semanticHash.value)
  {
    var sys := Run(EMPTY_SYSTEM, calls, s);
    hide Verify;
    hide Field;
    RunKeepsInv(calls, s);
    OneTx(sys, tx, s);
    hide Inv;
    hide Run;
    VerifiedIsOwn(sys.txs[tx], document, raw, context, action, sys.authority.log, s);
  }

  /** In every transaction of every run, the registered authorizations and the PENDING states
      match one to one, all at the current generation, and so does every consumption. */
  lemma TablesMatch(calls: seq<Call>, tx: nat, s: Surroundings)
    requires tx < |Run(EMPTY_SYSTEM, calls, s).txs|
    ensures var t := Run(EMPTY_SYSTEM, calls, s).txs[tx];
            && (forall id | id in t.authorizations ::
                  id.generation == t.generation && (id.generation, id.action) in t.states &&
                  t.states[(id.generation, id.action)].Pending?)
            && (forall k | k in t.states && t.states[k].Pending? ::
                  exists id :: id in t.authorizations && (id.generation, id.action) == k)
            && (forall id, other | id in t.authorizations && other in t.authorizations ::
                  (id.generation, id.action) == (other.generation, other.action) ==> id == other)
            && (forall k | k in t.states && t.states[k].Consumed? :: k.0 == t.generation)
  {
    RunKeepsInv(calls, s);
    OneTx(Run(EMPTY_SYSTEM, calls, s), tx, s);
    hide Run;
    hide LogInv;
    hide OwnsInv;
    hide ReceiptInv;
    hide GatedInv;
    var t := Run(EMPTY_SYSTEM, calls, s).txs[tx];
    hide Inv;
    forall k | k in t.states && t.states[k].Pending?
      ensures exists id :: id in t.authorizations && (id.generation, id.action) == k
    {
      assert Backed(t, k);
      var id :| id in t.authorizations && id.action == k.1 && id.generation == k.0;
      assert (id.generation, id.action) == k;
    }
  }

  // ------------------------------------------------------ failures and stale authorizations

  /** Processing changes the authority exactly when it succeeds or the commit outcome is
      unknown; a failure at any other stage leaves both indexes as they were. */
  lemma OnlyCommitsApply(t: Transaction, a: Authority, failAt: Option<Stage>, rawHash: string, wire: Json,
                         identity: Identity, context: Context, s: Surroundings)
    ensures var (_, b, result) := ProcessIdentified(t, a, failAt, rawHash, wire, identity, context, s);
            b != a <==> result.Ok? || result == Err(CommitUnknown)
  {
    hide DeriveValidation;
    hide Ids;
    hide MergeIds;
    hide Reserve;
    ReserveReserves(t, a, failAt, rawHash, context.transport, identity.canonicalHash, identity.semanticHash);
    ReserveNeverUnknown(t, a, failAt, rawHash, context.transport, identity.canonicalHash, identity.semanticHash);
    var reserved := Reserve(t, a, failAt, rawHash, context.transport, identity.canonicalHash, identity.semanticHash).0;
    if Undecided(reserved) {
      DecideApplies(reserved, a, failAt, identity.canonicalId, DeriveValidation(wire, ReservedDecision(reserved)));
    }
    hide Decide;
  }

  lemma ReserveNeverUnknown(t: Transaction, a: Authority, failAt: Option<Stage>, rawHash: string, transport: string,
                            canonicalHash: string, semanticHash: string)
    ensures Reserve(t, a, failAt, rawHash, transport, canonicalHash, semanticHash).1 != Some(CommitUnknown)
    ensures Active(t) != Some(CommitUnknown)
  {
    hide Ids;
    hide MergeIds;
  }

  lemma DecideApplies(t: Transaction, a: Authority, failAt: Option<Stage>, canonicalId: string, validation: Validation)
    requires Undecided(t)
    ensures var (_, b, failed) := Decide(t, a, failAt, canonicalId, validation);
            b != a <==> failed.None? || failed == Some(CommitUnknown)
  {
    hide Ids;
    var (_, b, failed) := Decide(t, a, failAt, canonicalId, validation);
    assert failed.None? || failed == Some(CommitUnknown) ==> |b.log| == |a.log| + 1;
  }

  /** Transactions stay, their generation never goes back, and closing is final. */
  ghost predicate Later(sys: System, next: System) {
    |sys.txs| <= |next.txs| &&
    forall i | 0 <= i < |sys.txs| ::
      sys.txs[i].generation <= next.txs[i].generation && (sys.txs[i].closed ==> next.txs[i].closed)
  }

  lemma ProcessStepShell(t: Transaction, a: Authority, failAt: Option<Stage>, raw: string, context: Context,
                         s: Surroundings)
    ensures var next := Process(t, a, failAt, raw, context, s).0;
            next.generation == t.generation && next.closed == t.closed
  {
    if Preflight(raw, context, s).Some? {
      var wire := Preflight(raw, context, s).value;
      ProcessedShell(t, a, failAt, Sha256(raw), wire, IdentityValues(wire, s.cal), context, s);
    }
    hide ProcessIdentified;
    hide Preflight;
    hide IdentityValues;
  }

  lemma StepIsLater(sys: System, call: Call, s: Surroundings)
    ensures Later(sys, Step(sys, call, s))
  {
    hide Process;
    hide ProcessValidated;
    hide Verify;
    hide Preflight;
    match call.op
    case ProcessIn(tx, raw, context) =>
      if tx < |sys.txs| {
        ProcessStepShell(sys.txs[tx], sys.authority, call.failAt, raw, context, s);
      }
    case VerifyIn(tx, document, raw, context, action) =>
      if tx < |sys.txs| && Verify(sys.txs[tx], document, raw, context, action, s).Ok? {
        VerifyEffect(sys.txs[tx], document, raw, context, action, s);
      }
    case _ =>
  }

  lemma ReserveShell(t: Transaction, a: Authority, failAt: Option<Stage>, rawHash: string, transport: string,
                     canonicalHash: string, semanticHash: string)
    ensures SameShell(t, Reserve(t, a, failAt, rawHash, transport, canonicalHash, semanticHash).0)
  {
    hide Ids;
    hide MergeIds;
  }

  lemma DecideShell(t: Transaction, a: Authority, failAt: Option<Stage>, canonicalId: string, validation: Validation)
    requires Undecided(t)
    ensures SameShell(t, Decide(t, a, failAt, canonicalId, validation).0)
  {
    hide ApplyCommit;
  }

  /** Processing leaves generation, states and authorizations alone. */
  lemma ProcessedShell(t: Transaction, a: Authority, failAt: Option<Stage>, rawHash: string, wire: Json,
                       identity: Identity, context: Context, s: Surroundings)
    ensures SameShell(t, ProcessIdentified(t, a, failAt, rawHash, wire, identity, context, s).0)
  {
    hide DeriveValidation;
    hide Reserve;
    ReserveShell(t, a, failAt, rawHash, context.transport, identity.canonicalHash, identity.semanticHash);
    var reserved := Reserve(t, a, failAt, rawHash, context.transport, identity.canonicalHash, identity.semanticHash).0;
    if Undecided(reserved) {
      DecideShell(reserved, a, failAt, identity.canonicalId, DeriveValidation(wire, ReservedDecision(reserved)));
    }
    hide Decide;
    ReserveReserves(t, a, failAt, rawHash, context.transport, identity.canonicalHash, identity.semanticHash);
  }

  lemma {:induction false} RunIsLater(sys: System, calls: seq<Call>, s: Surroundings)
    ensures Later(sys, Run(sys, calls, s))
    decreases |calls|
  {
    hide Step;
    if calls != [] {
      var before := calls[..|calls| - 1];
      RunIsLater(sys, before, s);
      StepIsLater(Run(sys, before, s), calls[|calls| - 1], s);
    }
  }

  /** Nothing issued before an advance or a close is consumed after it, whatever happens next. */
  lemma StaleIsNeverConsumed(sys: System, end: Op, rest: seq<Call>, tx: nat, presented: Authorization, action: Action,
                             s: Surroundings)
    requires tx < |sys.txs| && presented.generation <= sys.txs[tx].generation
    requires (end == AdvanceIn(tx) && Advance(sys.txs[tx]).Ok?) || end == CloseIn(tx)
    ensures var after := Run(Step(sys, Call(end, None, true), s), rest, s);
            tx < |after.txs| && Consume(after.txs[tx], presented, action).Err?
  {
    var ended := Step(sys, Call(end, None, true), s);
    assert ended.txs[tx].closed || sys.txs[tx].generation < ended.txs[tx].generation;
    hide Step;
    RunIsLater(ended, rest, s);
    hide Run;
    hide Advance;
    hide Close;
  }

  // ------------------------------------------------------ what the guarantees rest on

  /** A first receipt, undisturbed, commits exactly when its receipt id is unused and the document
      built from it has its shape, with the decision the log of applied receipts calls for. A
      document that is refused leaves the authority as it was, after both reservations. */
  lemma FreshReceiptCommits(number: nat, a: Authority, wire: Json, identity: Identity, context: Context, s: Surroundings)
    requires ExactInv(a) && SemanticInv(a)
    ensures var (t, b, result) :=
              ProcessIdentified(NewTransaction(number, context), a, None, context.rawHash, wire, identity, context, s);
            var decision := DecisionAfter(a.log, (context.transport, identity.canonicalHash), identity.semanticHash);
            var shaped := Shaped(BuildCanonical(wire, identity, context, decision), s);
            (result.Ok? <==> context.receiptId !in a.receipts && shaped) &&
            (result.Ok? ==> Usable(t, context) && t.decision == Some(decision)) &&
            (!shaped ==> result == Err(CanonicalRefused) && b == a && Undecided(t) && t.decision.None?)
  {
    hide DeriveValidation;
    hide ExactInv;
    hide SemanticInv;
    hide DecisionAfter;
    hide BuildCanonical;
    hide Shaped;
    hide Ids;
    hide MergeIds;
    var begun := NewTransaction(number, context);
    var hash, evidence := identity.canonicalHash, identity.semanticHash;
    FreshReserves(begun, a, context.rawHash, context.transport, hash, evidence);
    ReservedRightly(begun, a, None, context.rawHash, context.transport, hash, evidence);
    ReserveShell(begun, a, None, context.rawHash, context.transport, hash, evidence);
    var reserved := Reserve(begun, a, None, context.rawHash, context.transport, hash, evidence).0;
    ReserveLeavesOpen(begun, a, context.rawHash, context.transport, hash, evidence);
    hide Reserve;
    FreshDecides(reserved, a, identity.canonicalId, DeriveValidation(wire, ReservedDecision(reserved)));
    hide Decide;
  }

  lemma ReserveLeavesOpen(t: Transaction, a: Authority, rawHash: string, transport: string, canonicalHash: string,
                          semanticHash: string)
    ensures Reserve(t, a, None, rawHash, transport, canonicalHash, semanticHash).0.decision == t.decision
  {
    hide Ids;
    hide MergeIds;
  }

  /** Committed, open, and nothing issued yet. */
  predicate Usable(t: Transaction, context: Context) {
    t.committed && Active(t).None? && t.context == context && t.states == map[] && t.authorizations == map[]
  }

  lemma FreshReserves(t: Transaction, a: Authority, rawHash: string, transport: string, canonicalHash: string,
                      semanticHash: string)
    requires Untouched(t) && !t.recorded && Active(t).None? && rawHash == t.context.rawHash
    ensures var (next, raised) := Reserve(t, a, None, rawHash, transport, canonicalHash, semanticHash);
            raised.None? && next.validation.None?
  {
    hide Ids;
    hide MergeIds;
  }

  lemma FreshDecides(t: Transaction, a: Authority, canonicalId: string, validation: Validation)
    requires Undecided(t) && Active(t).None? && t.validation.None? && !t.committed && t.commitCalls == 0
    ensures var (next, _, failed) := Decide(t, a, None, canonicalId, validation);
            (failed.None? <==> t.context.receiptId !in a.receipts) && SameShell(t, next) &&
            (failed.None? ==> next.committed && next.decision == Some(ReservedDecision(t)))
  {
    hide Ids;
  }

  /** The document built from a committed receipt, with its shape, is authorized for DISPATCH
      exactly when the event is ANALYSIS_READY and repeats nothing, and that authorization is then
      consumed. */
  lemma OwnDocumentDispatches(t: Transaction, raw: string, context: Context, s: Surroundings)
    requires Usable(t, context) && t.decision.Some? && Preflight(raw, context, s).Some?
    ensures var wire := Preflight(raw, context, s).value;
            var document := BuildCanonical(wire, IdentityValues(wire, s.cal), context, t.decision.value);
            var verified := Verify(t, document, raw, context, Dispatch, s);
            (verified.Ok? <==>
               Shaped(document, s) && Field(wire, "event_class") == Str("ANALYSIS_READY") &&
               !t.decision.value.exactDuplicate && !t.decision.value.semanticDuplicate) &&
            (verified.Ok? ==> Consume(verified.value.0, verified.value.1, Dispatch).Ok?)
  {
    hide Preflight;
    hide Identifiable;
    hide Render;
    hide IdentityValues;
    hide SetupId;
    hide Field;
    hide Sha256;
    hide BuildCanonical;
    hide Issue;
    hide Consume;
    PreflightIsIdentifiable(raw, context, s);
    var wire := Preflight(raw, context, s).value;
    var identity := IdentityValues(wire, s.cal);
    var document := BuildCanonical(wire, identity, context, t.decision.value);
    assert Shaped(document, s) ==> SameBytes(document, document);
    hide SameBytes;
    hide Shaped;
    EventClassesDiffer(wire);
    FreshIssueIsConsumed(t, Dispatch, identity.canonicalHash, Sha256(raw), context);
  }

  lemma FreshIssueIsConsumed(t: Transaction, action: Action, canonicalHash: string, rawHash: string, context: Context)
    requires Usable(t, context)
    ensures var issued := Issue(t, action, canonicalHash, rawHash);
            issued.Ok? && Consume(issued.value.0, issued.value.1, action).Ok?
  {
  }

  lemma EventClassesDiffer(wire: Json)
    ensures !(Field(wire, "event_class") == Str("LIFECYCLE") && Field(wire, "event_class") == Str("ANALYSIS_READY"))
  {
    assert "LIFECYCLE"[0] != "ANALYSIS_READY"[0];
  }
}
