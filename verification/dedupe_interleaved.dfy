/**
 The raw calls of two receipt transactions on one authority (contracts/event_v1.py), interleaved
 call by call. The authority's lock is reentrant, so one thread can do this; two threads cannot.
 */
module DedupeInterleaved {
  import opened Outcomes
  import opened DedupeSteps

  /** The calls that processing a receipt is made of, and the two that end it early. */
  datatype RawCall = RecordIt | ReserveExactly | ReserveSemantically | PersistIt | CommitIt | RollItBack | CloseIt

  /** What one transaction's calls pass: its context's own hash and transport, the identity of its
      receipt, and the validation derived from it. */
  datatype Given = Given(context: Context, identity: Identity, validation: Validation)

  function KeyOf(g: Given): (string, string) { (g.context.transport, g.identity.canonicalHash) }

  function OrSame<T>(before: T, r: Result<T, Failure>): T { match r case Ok(t) => t case Err(_) => before }

  /** One raw call; one that raises changes neither object, except that a commit was called. */
  function CallOn(t: Transaction, a: Authority, g: Given, call: RawCall, failAt: Option<Stage>)
    : (r: (Transaction, Authority))
    requires Reserved(t)
  {
    match call
    case RecordIt => (OrSame(t, RecordReceipt(t, failAt, g.context.rawHash)), a)
    case ReserveExactly =>
      (OrSame(t, ReserveExact(t, a, failAt, g.context.transport, g.identity.canonicalHash)), a)
    case ReserveSemantically => (OrSame(t, ReserveSemantic(t, a, failAt, g.identity.semanticHash)), a)
    case PersistIt =>
      if !Undecided(t) then (t, a)
      else
        (OrSame(t, PersistDecision(t, failAt, Some(ReservedDecision(t)), Some(g.identity.canonicalId), g.validation)), a)
    case CommitIt => var (t', b, _) := Commit(t, a, failAt); (t', b)
    case RollItBack => (OrSame(t, Rollback(t)), a)
    case CloseIt => (OrSame(t, Close(t)), a)
  }

  datatype Pair = Pair(a: Authority, one: Transaction, two: Transaction)

  datatype Move = Move(first: bool, call: RawCall, failAt: Option<Stage>)

  /** The semantic evidence hash both receipts have. */
  predicate SameEvidence(g: Given, h: Given) { g.identity.semanticHash == h.identity.semanticHash }

  /** Nothing applied so far has either exact key or the evidence hash. */
  predicate FreshKeys(a: Authority, g: Given, h: Given) {
    Ids(a.exact, KeyOf(g)) == [] && Ids(a.exact, KeyOf(h)) == [] && Ids(a.semantic, g.identity.semanticHash) == []
  }

  function Start(a: Authority, g: Given, h: Given): Pair {
    Pair(a, NewTransaction(1, g.context), NewTransaction(2, h.context))
  }

  // ------------------------------------------------------ what one transaction keeps

  /** The part of a transaction that reservations and commit depend on, given whether a commit
      has been applied. */
  predicate TxOk(t: Transaction, g: Given, applied: bool) {
    && t.context == g.context && Reserved(t)
    && t.exactKey in {None, Some(KeyOf(g))} && t.semanticHash in {None, Some(g.identity.semanticHash)}
    && (t.exactKey.None? <==> t.exactDuplicate.None?) && (t.semanticHash.None? <==> t.semanticDuplicate.None?)
    && (t.semanticHash.Some? ==> t.exactKey.Some?) && (t.exactKey.Some? ==> t.recorded)
    && (t.validation.Some? ==> t.decision.Some? && t.canonicalId.Some?)
    && (t.decision.Some? ==> t.validation.Some?)
    && (t.committed ==> t.validation.Some? && applied)
    && (t.exactDuplicate == Some(true) ==> applied && t.semanticDuplicate != Some(false))
    && (t.semanticDuplicate == Some(true) ==> applied)
    && (t.exactDuplicate != Some(true) && t.semanticDuplicate != Some(true) ==> t.priorIds == [])
  }

  /** Once a commit was applied it stays so, and the shared evidence has an entry from then on. */
  predicate AuthorityOk(a: Authority, g: Given, h: Given, applied: bool) {
    (applied <==> Ids(a.semantic, g.identity.semanticHash) != []) &&
    (!applied ==> FreshKeys(a, g, h))
  }

  /** What one call does to the transaction it is made on. */
  predicate CallEffect(t: Transaction, next: Transaction, g: Given, applied: bool, after: bool) {
    TxOk(next, g, after) && (applied ==> after) &&
    (after && !applied ==> t.semanticHash.Some? && next.semanticDuplicate == t.semanticDuplicate) &&
    (t.semanticHash.Some? ==> next.semanticHash == t.semanticHash && next.semanticDuplicate == t.semanticDuplicate) &&
    (t.semanticHash.None? && next.semanticHash.Some? ==> next.semanticDuplicate == Some(applied))
  }

  lemma NothingMerged(t: Transaction)
    ensures t.priorIds == [] ==> MergeIds(t.priorIds, []) == []
  {
  }

  lemma ExactKeeps(t: Transaction, a: Authority, g: Given, h: Given, failAt: Option<Stage>, applied: bool)
    requires SameEvidence(g, h) && TxOk(t, g, applied) && AuthorityOk(a, g, h, applied)
    ensures CallEffect(t, OrSame(t, ReserveExact(t, a, failAt, g.context.transport, g.identity.canonicalHash)), g,
                       applied, applied)
  {
    NothingMerged(t);
    hide MergeIds;
    hide Ids;
  }

  lemma SemanticKeeps(t: Transaction, a: Authority, g: Given, h: Given, failAt: Option<Stage>, applied: bool)
    requires SameEvidence(g, h) && TxOk(t, g, applied) && AuthorityOk(a, g, h, applied)
    ensures CallEffect(t, OrSame(t, ReserveSemantic(t, a, failAt, g.identity.semanticHash)), g, applied, applied)
  {
    NothingMerged(t);
    hide MergeIds;
    hide Ids;
  }

  lemma CommitKeeps(t: Transaction, a: Authority, g: Given, h: Given, failAt: Option<Stage>, applied: bool)
    requires SameEvidence(g, h) && TxOk(t, g, applied) && AuthorityOk(a, g, h, applied)
    ensures var (next, b, _) := Commit(t, a, failAt);
            var after := applied || b.log != a.log;
            AuthorityOk(b, g, h, after) && CallEffect(t, next, g, applied, after)
  {
    var (next, b, _) := Commit(t, a, failAt);
    assert b.log != a.log ==> |b.log| == |a.log| + 1;
    assert b == a || b.log != a.log;
  }

  lemma CallKeeps(t: Transaction, a: Authority, g: Given, h: Given, call: RawCall, failAt: Option<Stage>, applied: bool)
    requires SameEvidence(g, h) && TxOk(t, g, applied) && AuthorityOk(a, g, h, applied)
    ensures var (next, b) := CallOn(t, a, g, call, failAt);
            var after := applied || b.log != a.log;
            AuthorityOk(b, g, h, after) && CallEffect(t, next, g, applied, after)
  {
    hide InvalidatePending;
    hide ReserveExact;
    hide ReserveSemantic;
    hide Commit;
    hide AuthorityOk;
    match call
    case ReserveExactly => ExactKeeps(t, a, g, h, failAt, applied);
    case ReserveSemantically => SemanticKeeps(t, a, g, h, failAt, applied);
    case CommitIt => CommitKeeps(t, a, g, h, failAt, applied);
    case RollItBack => EndKeeps(t, g, applied);
    case CloseIt => EndKeeps(t, g, applied);
    case _ =>
  }

  lemma EndKeeps(t: Transaction, g: Given, applied: bool)
    requires TxOk(t, g, applied)
    ensures CallEffect(t, OrSame(t, Rollback(t)), g, applied, applied)
    ensures CallEffect(t, OrSame(t, Close(t)), g, applied, applied)
  {
    hide InvalidatedStates;
  }

  // ------------------------------------------------------ every interleaving

  predicate PairOk(p: Pair, g: Given, h: Given, applied: bool) {
    TxOk(p.one, g, applied) && TxOk(p.two, h, applied) && AuthorityOk(p.a, g, h, applied)
  }

  function PairStep(p: Pair, g: Given, h: Given, m: Move): Pair {
    if m.first then
      if !Reserved(p.one) then p
      else var (t, b) := CallOn(p.one, p.a, g, m.call, m.failAt); Pair(b, t, p.two)
    else
      if !Reserved(p.two) then p
      else var (t, b) := CallOn(p.two, p.a, h, m.call, m.failAt); Pair(b, p.one, t)
  }

  function PairRun(p: Pair, g: Given, h: Given, moves: seq<Move>): Pair
    decreases |moves|
  {
    if moves == [] then p
    else PairStep(PairRun(p, g, h, moves[..|moves| - 1]), g, h, moves[|moves| - 1])
  }

  /** Some commit of the two has been applied. */
  predicate Applied(before: Authority, p: Pair) { p.a.log != before.log }

  predicate BothReserved(p: Pair) { p.one.semanticHash.Some? && p.two.semanticHash.Some? }

  /** At every moment of the run at which a commit has been applied, both semantic reservations
      have been taken: both precede either applied commit. */
  predicate ReservedInTime(a: Authority, g: Given, h: Given, moves: seq<Move>)
    decreases |moves|
  {
    (moves == [] || ReservedInTime(a, g, h, moves[..|moves| - 1])) &&
    var p := PairRun(Start(a, g, h), g, h, moves);
    Applied(a, p) ==> BothReserved(p)
  }

  predicate NeitherRepeats(p: Pair) {
    p.one.semanticDuplicate != Some(true) && p.two.semanticDuplicate != Some(true)
  }

  lemma StepKeeps(p: Pair, g: Given, h: Given, m: Move, applied: bool)
    requires SameEvidence(g, h) && PairOk(p, g, h, applied)
    ensures var next := PairStep(p, g, h, m);
            var after := applied || next.a.log != p.a.log;
            PairOk(next, g, h, after) &&
            (NeitherRepeats(next) && (after ==> BothReserved(next)) <==>
             NeitherRepeats(p) && (applied ==> BothReserved(p)) && (after ==> BothReserved(next)))
  {
    hide CallOn;
    if m.first {
      CallKeeps(p.one, p.a, g, h, m.call, m.failAt, applied);
    } else {
      CallKeeps(p.two, p.a, h, g, m.call, m.failAt, applied);
    }
  }

  lemma LogGrows(p: Pair, g: Given, h: Given, m: Move)
    ensures |p.a.log| <= |PairStep(p, g, h, m).a.log|
    ensures PairStep(p, g, h, m).a.log != p.a.log ==> |p.a.log| < |PairStep(p, g, h, m).a.log|
  {
    hide InvalidatePending;
    hide MergeIds;
    hide Ids;
  }

  lemma {:induction false} RunKeeps(a: Authority, g: Given, h: Given, moves: seq<Move>)
    requires SameEvidence(g, h) && FreshKeys(a, g, h)
    ensures var p := PairRun(Start(a, g, h), g, h, moves);
            PairOk(p, g, h, Applied(a, p)) && |a.log| <= |p.a.log| &&
            (Applied(a, p) ==> |a.log| < |p.a.log|) &&
            (ReservedInTime(a, g, h, moves) <==>
             NeitherRepeats(p) && (Applied(a, p) ==> BothReserved(p)))
    decreases |moves|
  {
    if moves != [] {
      var front := moves[..|moves| - 1];
      var p := PairRun(Start(a, g, h), g, h, front);
      RunKeeps(a, g, h, front);
      StepKeeps(p, g, h, moves[|moves| - 1], Applied(a, p));
      LogGrows(p, g, h, moves[|moves| - 1]);
      hide PairStep;
      hide PairOk;
    }
  }

  /** Two receipts of one fresh evidence hash, their raw calls interleaved in any way, repeated,
      failing or rolled back as may be: when both end up committed, both were accepted as new
      exactly when both semantic reservations precede either applied commit. */
  lemma BothAcceptedIff(a: Authority, g: Given, h: Given, moves: seq<Move>)
    requires SameEvidence(g, h) && FreshKeys(a, g, h)
    ensures var p := PairRun(Start(a, g, h), g, h, moves);
            p.one.committed && p.two.committed ==>
              (p.one.decision == Some(Decision(false, false, [])) && p.two.decision == Some(Decision(false, false, []))
               <==> ReservedInTime(a, g, h, moves))
  {
    RunKeeps(a, g, h, moves);
    hide PairRun;
    hide ReservedInTime;
    hide AuthorityOk;
  }

  // ------------------------------------------------------ undisturbed interleavings

  /** The calls of one receipt in order. */
  const PROGRAM := [RecordIt, ReserveExactly, ReserveSemantically, PersistIt, CommitIt]

  function CallsOf(moves: seq<Move>, first: bool): seq<RawCall> {
    if moves == [] then []
    else
      var last := moves[|moves| - 1];
      CallsOf(moves[..|moves| - 1], first) + if last.first == first then [last.call] else []
  }

  /** The first n calls of the program have been made, none of them in vain. */
  predicate Made(t: Transaction, n: nat) {
    Active(t).None? && n <= 5 && (t.recorded <==> n >= 1) && (t.exactKey.Some? <==> n >= 2) &&
    (t.semanticHash.Some? <==> n >= 3) && (t.validation.Some? <==> n >= 4) && (t.committed <==> n == 5) &&
    (n < 5 ==> t.commitCalls == 0)
  }

  lemma NextCall(t: Transaction, a: Authority, g: Given, n: nat, applied: bool)
    requires Made(t, n) && n < 5 && TxOk(t, g, applied) && g.context.receiptId !in a.receipts
    ensures var (next, b) := CallOn(t, a, g, PROGRAM[n], None);
            Made(next, n + 1) &&
            b.receipts.Keys == if n == 4 then a.receipts.Keys + {g.context.receiptId} else a.receipts.Keys
  {
    hide MergeIds;
    hide Ids;
  }

  /** Each transaction's calls so far are a beginning of the program. */
  predicate InOrder(moves: seq<Move>) {
    CallsOf(moves, true) <= PROGRAM && CallsOf(moves, false) <= PROGRAM &&
    forall m | m in moves :: m.failAt.None?
  }

  lemma {:induction false} UndisturbedRun(a: Authority, g: Given, h: Given, moves: seq<Move>)
    requires SameEvidence(g, h) && FreshKeys(a, g, h) && InOrder(moves)
    requires g.context.receiptId != h.context.receiptId
    requires g.context.receiptId !in a.receipts && h.context.receiptId !in a.receipts
    ensures var p := PairRun(Start(a, g, h), g, h, moves);
            Made(p.one, |CallsOf(moves, true)|) && Made(p.two, |CallsOf(moves, false)|) &&
            (g.context.receiptId in p.a.receipts <==> |CallsOf(moves, true)| == 5) &&
            (h.context.receiptId in p.a.receipts <==> |CallsOf(moves, false)| == 5)
    decreases |moves|
  {
    if moves != [] {
      var front, last := moves[..|moves| - 1], moves[|moves| - 1];
      UndisturbedRun(a, g, h, front);
      RunKeeps(a, g, h, front);
      var p := PairRun(Start(a, g, h), g, h, front);
      var n := |CallsOf(front, last.first)|;
      assert CallsOf(moves, last.first)[n] == last.call == PROGRAM[n];
      assert last in moves;
      hide CallOn;
      hide AuthorityOk;
      if last.first {
        NextCall(p.one, p.a, g, n, Applied(a, p));
      } else {
        NextCall(p.two, p.a, h, n, Applied(a, p));
      }
      hide TxOk;
      hide Made;
    }
  }

  /** Two undisturbed receipts of one fresh evidence hash, interleaved call by call in any way, both
      commit; both are accepted as new exactly when both semantic reservations precede either
      commit. */
  lemma UndisturbedBothAcceptedIff(a: Authority, g: Given, h: Given, moves: seq<Move>)
    requires SameEvidence(g, h) && FreshKeys(a, g, h)
    requires g.context.receiptId != h.context.receiptId
    requires g.context.receiptId !in a.receipts && h.context.receiptId !in a.receipts
    requires CallsOf(moves, true) == CallsOf(moves, false) == PROGRAM && forall m | m in moves :: m.failAt.None?
    ensures var p := PairRun(Start(a, g, h), g, h, moves);
            p.one.committed && p.two.committed &&
            (p.one.decision == Some(Decision(false, false, [])) && p.two.decision == Some(Decision(false, false, []))
             <==> ReservedInTime(a, g, h, moves))
  {
    UndisturbedRun(a, g, h, moves);
    BothAcceptedIff(a, g, h, moves);
    hide PairRun;
    hide ReservedInTime;
  }
}
