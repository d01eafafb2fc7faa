/**
 What holds of every replay and of every arrival order (project_a/numeric_state.py).
 */
module NumericRuns {
  import opened Outcomes
  import opened CanonicalJson
  import opened NumericSteps

  // ------------------------------------------------------ levels

  predicate KeysUnique(levels: seq<Level>) { forall i, j | 0 <= i < j < |levels| :: levels[i].key != levels[j].key }

  lemma {:induction false} FindPut(levels: seq<Level>, level: Level, key: Key)
    ensures Find(Put(levels, level), key) == if key == level.key then Some(level) else Find(levels, key)
  {
    if levels != [] {
      var front, last := levels[..|levels| - 1], levels[|levels| - 1];
      assert (front + [level])[..|front|] == front;
      assert (Put(front, level) + [last])[..|Put(front, level)|] == Put(front, level);
      if last.key != level.key {
        FindPut(front, level, key);
      }
    }
  }

  lemma {:induction false} PutKeys(levels: seq<Level>, level: Level)
    requires KeysUnique(levels)
    ensures KeysUnique(Put(levels, level))
    ensures forall l | l in Put(levels, level) :: l == level || (l in levels && l.key != level.key)
  {
    if levels != [] {
      var front, last := levels[..|levels| - 1], levels[|levels| - 1];
      if last.key != level.key {
        PutKeys(front, level);
      }
    }
  }

  lemma {:induction false} FindUnique(levels: seq<Level>, level: Level)
    requires KeysUnique(levels) && level in levels
    ensures Find(levels, level.key) == Some(level)
  {
    var front, last := levels[..|levels| - 1], levels[|levels| - 1];
    if last != level {
      assert level in front;
      FindUnique(front, level);
    }
  }

  // ------------------------------------------------------ selection

  lemma BetterIrreflexive(a: Level)
    requires Rankable(a)
    ensures !Better(a, a)
  {
    BelowTotal(a.key.id.digest, a.key.id.digest);
  }

  /** `a` is better than `b`, and `c` is not: then `c` is not better than `a`. */
  lemma BetterOrders(a: Level, b: Level, c: Level)
    requires Rankable(a) && Rankable(b) && Rankable(c) && Better(a, b) && !Better(c, b)
    ensures !Better(c, a)
  {
    var x, y, z := a.key.id.digest, b.key.id.digest, c.key.id.digest;
    BelowTotal(z, y);
    if Below(x, y) && Below(z, x) {
      BelowTransitive(z, x, y);
    }
  }

  /** The selected level is a candidate that no candidate is better than. */
  lemma {:induction false} BestPicks(levels: seq<Level>, side: Side)
    ensures var best := Best(levels, side);
            (best.None? <==> forall l | l in levels :: !Candidate(l, side)) &&
            (best.Some? ==> best.value in levels && Candidate(best.value, side) &&
                            forall l | l in levels && Candidate(l, side) :: !Better(l, best.value))
  {
    if levels != [] {
      var front, last := levels[..|levels| - 1], levels[|levels| - 1];
      BestPicks(front, side);
      hide Better;
      var best := Best(front, side);
      assert forall l :: l in levels <==> l in front || l == last;
      if Candidate(last, side) {
        BetterIrreflexive(last);
        if best.Some? && Better(last, best.value) {
          BetterIrreflexive(best.value);
          forall l | l in front && Candidate(l, side) ensures !Better(l, last) {
            BetterOrders(last, best.value, l);
          }
        }
      }
    }
  }

  // ------------------------------------------------------ the tracked level

  /** The history strictly alternates, each release naming the level selected before it. */
  predicate Alternates(changes: seq<Change>) {
    (forall i | 0 <= i < |changes| :: changes[i].Selected? <==> i % 2 == 0) &&
    (forall i | 0 <= i && i + 1 < |changes| && i % 2 == 0 :: changes[i + 1].key == changes[i].key)
  }

  /** It ends in SELECTED exactly when a level is tracked, and that level it is. */
  predicate EndsTracked(changes: seq<Change>, tracked: Option<Tracked>) {
    (tracked.Some? <==> |changes| % 2 == 1) && (tracked.Some? ==> changes[|changes| - 1].key == tracked.value.key)
  }

  predicate Ended(c: Change) { c.Released? && c.reason.LevelEnded? }

  /** A level released because it ended has ended for good. */
  predicate EndedForGood(levels: seq<Level>, changes: seq<Change>) {
    forall i | 0 <= i < |changes| && Ended(changes[i]) ::
      Find(levels, changes[i].key).Some? && Terminal(Find(levels, changes[i].key).value.lifecycle)
  }

  predicate NeverReselected(changes: seq<Change>) {
    forall i, j | 0 <= i < j < |changes| && Ended(changes[i]) && changes[j].Selected? :: changes[j].key != changes[i].key
  }

  /** The tracked level exists, is in an active lifecycle and on the confirmed story's side. */
  predicate TrackedOk(m: Market) {
    m.tracked.Some? ==>
      m.prior.Some? && m.tracked.value.key.id.side == SideFor(m.prior.value) &&
      Find(m.levels, m.tracked.value.key).Some? && Active(Find(m.levels, m.tracked.value.key).value.lifecycle)
  }

  predicate PriorOk(m: Market) {
    match Story(m.expansions)
    case None => m.prior.None?
    case Some(e) => e.body.Expansion? && m.prior == Some(e.body.direction)
  }

  predicate HistoryOk(m: Market) {
    Alternates(m.changes) && EndsTracked(m.changes, m.tracked) && EndedForGood(m.levels, m.changes) &&
    NeverReselected(m.changes)
  }

  predicate MarketInv(m: Market) { KeysUnique(m.levels) && PriorOk(m) && TrackedOk(m) && HistoryOk(m) }

  /** While a story is told and nothing is tracked, every candidate is far away. */
  predicate NothingMissed(m: Market) {
    m.tracked.None? && m.prior.Some? ==>
      forall l | l in m.levels && Candidate(l, SideFor(m.prior.value)) :: l.distance.zone == Some(Far)
  }

  lemma EveryLifecycle(l: Lifecycle)
    ensures Active(l) <==> !Terminal(l)
  {
  }

  lemma TerminalStays(before: Lifecycle, after: Lifecycle)
    requires Terminal(before) && ValidTransition(before, after)
    ensures after == before
  {
  }

  lemma PriceKeeps(m: Market, e: Event)
    requires MarketInv(m)
    ensures MarketInv(WithPrice(m, e)) && WithPrice(m, e) == m.(prices := WithPrice(m, e).prices)
  {
  }

  lemma ReleaseKeepsHistory(m: Market, reason: Reason, e: Event)
    requires HistoryOk(m) && m.tracked.Some?
    requires reason.LevelEnded? ==> Find(m.levels, m.tracked.value.key).Some? &&
                                    Terminal(Find(m.levels, m.tracked.value.key).value.lifecycle)
    ensures HistoryOk(Release(m, reason, e))
  {
    hide Find;
    hide Terminal;
  }

  lemma SelectKeepsHistory(m: Market, level: Level, e: Event)
    requires HistoryOk(m) && m.tracked.None? && Find(m.levels, level.key) == Some(level) && Active(level.lifecycle)
    ensures HistoryOk(m.(tracked := Some(Tracked(level.key, level, e.time)),
                         changes := m.changes + [Selected(level.key, level, e.id, e.time)]))
  {
    EveryLifecycle(level.lifecycle);
    hide Find;
    hide Terminal;
    hide Active;
  }

  lemma ExpansionKeeps(m: Market, e: Event)
    requires MarketInv(m) && e.body.Expansion? && !e.body.scanner
    ensures MarketInv(OnExpansion(m, e))
  {
    var told := m.(expansions := m.expansions + [e]);
    assert told.expansions[..|told.expansions| - 1] == m.expansions;
    if m.tracked.Some? {
      ReleaseKeepsHistory(told, StoryReset, e);
    }
    hide HistoryOk;
    hide Find;
    hide KeysUnique;
  }

  /** Putting a level keeps every ended level ended. */
  lemma PutKeepsEnded(levels: seq<Level>, changes: seq<Change>, level: Level)
    requires EndedForGood(levels, changes)
    requires Find(levels, level.key).Some? ==> ValidTransition(Find(levels, level.key).value.lifecycle, level.lifecycle)
    ensures EndedForGood(Put(levels, level), changes)
  {
    hide Find;
    forall i | 0 <= i < |changes| && Ended(changes[i])
      ensures var found := Find(Put(levels, level), changes[i].key); found.Some? && Terminal(found.value.lifecycle)
    {
      FindPut(levels, level, changes[i].key);
      if changes[i].key == level.key {
        TerminalStays(Find(levels, level.key).value.lifecycle, level.lifecycle);
      }
    }
    hide Put;
  }

  lemma LiquidityKeeps(m: Market, e: Event)
    requires MarketInv(m) && e.body.Liquidity? && OnLiquidity(m, e).Ok?
    ensures MarketInv(OnLiquidity(m, e).value)
  {
    var level := LevelOf(e);
    var put := m.(levels := Put(m.levels, level), liquidity := m.liquidity + [e]);
    PutKeys(m.levels, level);
    PutKeepsEnded(m.levels, m.changes, level);
    EveryLifecycle(level.lifecycle);
    FindPut(m.levels, level, level.key);
    if m.tracked.Some? {
      FindPut(m.levels, level, m.tracked.value.key);
    }
    hide Find;
    hide Put;
    hide KeysUnique;
    hide LevelOf;
    hide EndedForGood;
    hide Terminal;
    hide Active;
    assert level.key == e.body.key && level.lifecycle == e.body.lifecycle by { LevelOfKey(e); }
    assert HistoryOk(put);
    if m.tracked.Some? && m.tracked.value.key == e.body.key && Terminal(e.body.lifecycle) {
      ReleaseKeepsHistory(put, LevelEnded(e.body.lifecycle), e);
    }
    hide HistoryOk;
  }

  lemma LevelOfKey(e: Event)
    requires e.body.Liquidity?
    ensures LevelOf(e).key == e.body.key && LevelOf(e).lifecycle == e.body.lifecycle
  {
  }

  lemma RenkoKeeps(m: Market, e: Event)
    requires MarketInv(m) && e.body.Renko?
    ensures MarketInv(OnRenko(m, e))
  {
    hide Find;
    hide KeysUnique;
    hide Alternates;
    hide EndsTracked;
    hide EndedForGood;
    hide NeverReselected;
  }

  /** Selecting keeps the invariant, takes the best candidate unless it is far, and misses none. */
  lemma SelectKeeps(m: Market, e: Event)
    requires MarketInv(m)
    ensures MarketInv(Select(m, e)) && NothingMissed(Select(m, e))
  {
    var story := Story(m.expansions);
    if m.tracked.None? && story.Some? {
      var side := SideFor(story.value.body.direction);
      var best := Best(m.levels, side);
      BestPicks(m.levels, side);
      if best.Some? {
        FindUnique(m.levels, best.value);
        if best.value.distance.zone == Some(Far) {
          forall l | l in m.levels && Candidate(l, side) ensures l.distance.zone == Some(Far) {
            assert !Better(l, best.value);
          }
        } else {
          SelectKeepsHistory(m, best.value, e);
        }
      }
      hide Best;
    }
    hide Story;
    hide Find;
    hide KeysUnique;
    hide HistoryOk;
  }

  lemma ApplyKeeps(m: Market, e: Event)
    requires MarketInv(m) && NothingMissed(m) && Apply(m, e).Ok?
    ensures MarketInv(Apply(m, e).value) && NothingMissed(Apply(m, e).value)
  {
    PriceKeeps(m, e);
    var priced := WithPrice(m, e);
    hide WithPrice;
    hide Select;
    hide OnLiquidity;
    hide OnExpansion;
    hide OnRenko;
    match e.body
    case Expansion(scanner, _, _, _, _, _, _, _) =>
      if !scanner {
        ExpansionKeeps(priced, e);
        hide MarketInv;
        SelectKeeps(OnExpansion(priced, e), e);
      }
    case Liquidity(_, _, _, _, _, _, _, _, _, _, _, _, _) =>
      LiquidityKeeps(priced, e);
      hide MarketInv;
      SelectKeeps(OnLiquidity(priced, e).value, e);
    case Renko(_, _, _) =>
      RenkoKeeps(priced, e);
      hide MarketInv;
      SelectKeeps(OnRenko(priced, e), e);
  }

  /** Tracked-level safety, over every replay of every event list. */
  lemma {:induction false} ReplayKeepsInv(events: seq<Event>)
    requires Replay(events).Ok?
    ensures MarketInv(Replay(events).value) && NothingMissed(Replay(events).value)
    decreases |events|
  {
    hide MarketInv;
    hide NothingMissed;
    hide Apply;
    if events == [] {
      EmptyMarketInv();
    } else {
      ReplayKeepsInv(events[..|events| - 1]);
      ApplyKeeps(Replay(events[..|events| - 1]).value, events[|events| - 1]);
    }
  }

  lemma EmptyMarketInv()
    ensures MarketInv(EMPTY_MARKET) && NothingMissed(EMPTY_MARKET)
  {
  }

  /** The history of a market: SELECTED and RELEASED alternate, each release naming the level
      selected before it, the last entry saying whether and what is tracked; and a level that was
      released because its lifecycle ended is never selected again. */
  predicate OrderlyChanges(m: Market) {
    (forall i | 0 <= i < |m.changes| :: m.changes[i].Selected? <==> i % 2 == 0) &&
    (forall i | 0 <= i && i + 1 < |m.changes| && i % 2 == 0 :: m.changes[i + 1].key == m.changes[i].key) &&
    (m.tracked.Some? <==> m.changes != [] && m.changes[|m.changes| - 1].Selected?) &&
    (m.tracked.Some? ==> m.changes[|m.changes| - 1].key == m.tracked.value.key) &&
    (forall i, j | 0 <= i < j < |m.changes| && Ended(m.changes[i]) && m.changes[j].Selected? ::
       m.changes[j].key != m.changes[i].key)
  }

  lemma ChangesAreOrderly(m: Market)
    requires HistoryOk(m)
    ensures OrderlyChanges(m)
  {
    hide EndedForGood;
    assert m.changes != [] ==> (m.changes[|m.changes| - 1].Selected? <==> (|m.changes| - 1) % 2 == 0);
  }

  /** What any replay leaves: a tracked level exists, is in an active lifecycle, and is on the side
      the latest confirmed fresh expansion expects; with none tracked, every candidate on that side
      is far away; and the history is orderly. */
  lemma TrackedLevelIsSafe(events: seq<Event>)
    requires Replay(events).Ok?
    ensures var m := Replay(events).value;
            var story := Story(m.expansions);
            OrderlyChanges(m) &&
            (m.tracked.Some? ==>
               story.Some? && m.tracked.value.key.id.side == SideFor(story.value.body.direction) &&
               Find(m.levels, m.tracked.value.key).Some? &&
               Active(Find(m.levels, m.tracked.value.key).value.lifecycle)) &&
            (m.tracked.None? && story.Some? ==>
               forall l | l in m.levels && Candidate(l, SideFor(story.value.body.direction)) ::
                 l.distance.zone == Some(Far))
  {
    ReplayKeepsInv(events);
    ChangesAreOrderly(Replay(events).value);
    hide Replay;
    hide OrderlyChanges;
    hide HistoryOk;
    hide KeysUnique;
    hide Find;
    hide Candidate;
    hide Story;
    hide Active;
  }

  // ------------------------------------------------------ sorting

  predicate IdsUnique(events: seq<Event>) { forall i, j | 0 <= i < j < |events| :: events[i].id != events[j].id }

  predicate InOrder(events: seq<Event>) { forall i, j | 0 <= i < j < |events| :: Earlier(events[i], events[j]) }

  lemma EarlierTotal(a: Event, b: Event)
    ensures Earlier(a, b) || Earlier(b, a) || a.id == b.id
    ensures !Earlier(a, a) && !(Earlier(a, b) && Earlier(b, a))
  {
    BelowTotal(a.id, b.id);
  }

  lemma EarlierTransitive(a: Event, b: Event, c: Event)
    requires Earlier(a, b) && Earlier(b, c)
    ensures Earlier(a, c)
  {
    if Below(a.id, b.id) && Below(b.id, c.id) {
      BelowTransitive(a.id, b.id, c.id);
    }
  }

  lemma {:induction false} InsertInOrder(e: Event, sorted: seq<Event>)
    requires InOrder(sorted) && forall x | x in sorted :: x.id != e.id
    ensures InOrder(Insert(e, sorted)) && multiset(Insert(e, sorted)) == multiset(sorted) + multiset{e}
  {
    hide Earlier;
    if sorted == [] {
    } else if Earlier(e, sorted[0]) {
      forall i | 0 <= i < |sorted| ensures Earlier(e, sorted[i]) {
        if i > 0 { EarlierTransitive(e, sorted[0], sorted[i]); }
      }
    } else {
      assert sorted == [sorted[0]] + sorted[1..];
      InsertInOrder(e, sorted[1..]);
      var rest := Insert(e, sorted[1..]);
      EarlierTotal(e, sorted[0]);
      forall i | 0 <= i < |rest| ensures Earlier(sorted[0], rest[i]) {
        assert rest[i] in multiset(rest);
      }
    }
  }

  lemma {:induction false} SortedInOrder(events: seq<Event>)
    requires IdsUnique(events)
    ensures InOrder(Sorted(events)) && multiset(Sorted(events)) == multiset(events)
  {
    if events != [] {
      var front, last := events[..|events| - 1], events[|events| - 1];
      SortedInOrder(front);
      assert events == front + [last];
      forall x | x in Sorted(front) ensures x.id != last.id {
        assert x in multiset(Sorted(front));
        assert x in front;
      }
      InsertInOrder(last, Sorted(front));
    }
  }

  lemma SortedIdsUnique(events: seq<Event>)
    requires IdsUnique(events)
    ensures IdsUnique(Sorted(events))
  {
    SortedInOrder(events);
    var sorted := Sorted(events);
    hide Sorted;
    hide Earlier;
    forall i, j | 0 <= i < j < |sorted| ensures sorted[i].id != sorted[j].id {
      EarlierTotal(sorted[i], sorted[i]);
      assert Earlier(sorted[i], sorted[j]);
      assert sorted[i] in multiset(sorted) && sorted[j] in multiset(sorted);
      assert sorted[i] in events && sorted[j] in events;
    }
  }

  /** An ordered list is fixed by its elements. */
  lemma {:induction false} OrderIsUnique(a: seq<Event>, b: seq<Event>)
    requires InOrder(a) && InOrder(b) && forall e :: e in a <==> e in b
    ensures a == b
    decreases |a|
  {
    hide Earlier;
    assert (a != [] ==> a[0] in b) && (b != [] ==> b[0] in a);
    if a != [] && b != [] {
      if a[0] != b[0] {
        EarlierTotal(a[0], b[0]);
      }
      EarlierIrreflexive(a);
      EarlierIrreflexive(b);
      assert forall e :: e in a[1..] <==> e in a && e != a[0];
      assert forall e :: e in b[1..] <==> e in b && e != b[0];
      OrderIsUnique(a[1..], b[1..]);
    }
  }

  lemma EarlierIrreflexive(a: seq<Event>)
    requires InOrder(a) && a != []
    ensures forall i | 0 < i < |a| :: a[i] != a[0]
  {
    EarlierTotal(a[0], a[0]);
    hide Earlier;
  }

  lemma SameElements(a: seq<Event>, b: seq<Event>)
    requires multiset(a) == multiset(b)
    ensures forall e :: e in a <==> e in b
  {
    forall e ensures e in a <==> e in b {
      assert e in multiset(a) <==> e in multiset(b);
    }
  }

  /** The rebuild depends on which events there are, not on how they arrived. */
  lemma SameEventsSameView(a: seq<Event>, b: seq<Event>)
    requires IdsUnique(a) && IdsUnique(b) && forall e :: e in a <==> e in b
    ensures Rebuild(a) == Rebuild(b)
  {
    SortedInOrder(a);
    SortedInOrder(b);
    SameElements(Sorted(a), a);
    SameElements(Sorted(b), b);
    hide RebuildSorted;
    hide Sorted;
    hide IdsUnique;
    OrderIsUnique(Sorted(a), Sorted(b));
  }

  // ------------------------------------------------------ prefixes

  lemma {:induction false} ReplayPrefix(events: seq<Event>, n: nat)
    requires n <= |events| && Replay(events).Ok?
    ensures Replay(events[..n]).Ok? && Replay(events[..n]).value.scanners <= Replay(events).value.scanners
    decreases |events|
  {
    if n == |events| {
      assert events[..n] == events;
    } else {
      var front := events[..|events| - 1];
      assert front[..n] == events[..n];
      ReplayPrefix(front, n);
      ApplyAddsScanners(Replay(front).value, events[|events| - 1]);
      hide Apply;
    }
  }

  /** The first failure is the failure of the whole. */
  lemma {:induction false} FailureStays(events: seq<Event>, n: nat)
    requires n <= |events| && Replay(events[..n]).Err?
    ensures Replay(events) == Replay(events[..n])
    decreases |events|
  {
    if n == |events| {
      assert events[..n] == events;
    } else {
      assert events[..|events| - 1][..n] == events[..n];
      FailureStays(events[..|events| - 1], n);
    }
  }

  lemma {:induction false} ScannersAreExpansions(events: seq<Event>)
    requires Replay(events).Ok?
    ensures forall e | e in Replay(events).value.scanners :: e.body.Expansion?
    decreases |events|
  {
    if events != [] {
      ScannersAreExpansions(events[..|events| - 1]);
      ApplyAddsScanners(Replay(events[..|events| - 1]).value, events[|events| - 1]);
      hide Apply;
    }
  }

  lemma ApplyAddsScanners(m: Market, e: Event)
    requires Apply(m, e).Ok?
    ensures m.scanners <= Apply(m, e).value.scanners
    ensures Apply(m, e).value.scanners == m.scanners || (e.body.Expansion? && Apply(m, e).value.scanners == m.scanners + [e])
  {
    hide Find;
    hide Put;
    hide Best;
    hide Story;
    hide NextPrice;
  }

  lemma ConflictGrows(few: seq<Event>, many: seq<Event>)
    requires few <= many && Conflicted(few)
    ensures Conflicted(many)
  {
    hide Conflict;
    var i, j :| 0 <= i < j < |few| && Conflict(few[i], few[j]);
    assert Conflict(many[i], many[j]);
  }

  /** Every prefix of a sorted list that rebuilds, rebuilds. */
  lemma PrefixRebuilds(ordered: seq<Event>, n: nat)
    requires n <= |ordered| && RebuildSorted(ordered).Ok?
    ensures RebuildSorted(ordered[..n]).Ok?
  {
    ReplayPrefix(ordered, n);
    hide Conflicted;
    var few, many := Replay(ordered[..n]).value.scanners, Replay(ordered).value.scanners;
    if Conflicted(few) {
      ConflictGrows(few, many);
    }
  }

  // ------------------------------------------------------ ingesting

  datatype Outcome = Accepted | Duplicate | Refused(failure: Failure)

  function Existing(events: seq<Event>, id: string): Option<Event> {
    if events == [] then None
    else if events[|events| - 1].id == id then Some(events[|events| - 1])
    else Existing(events[..|events| - 1], id)
  }

  /** `ingest`: the events held afterwards, and what came of it. */
  function Ingest(events: seq<Event>, e: Event): (seq<Event>, Outcome) {
    var existing := Existing(events, e.id);
    if existing.Some? then
      (events, if existing.value.payload != e.payload then Refused(EventIdConflict) else Duplicate)
    else
      match Rebuild(events + [e])
      case Ok(_) => (events + [e], Accepted)
      case Err(f) => (events, Refused(f))
  }

  lemma AcceptedIsAdded(events: seq<Event>, e: Event)
    requires Ingest(events, e).1 == Accepted
    ensures Ingest(events, e).0 == events + [e]
  {
    hide Rebuild;
  }

  /** Events arriving one after another; refused ones leave the state as it was. */
  function Arrivals(start: seq<Event>, arriving: seq<Event>): seq<Event> {
    if arriving == [] then start
    else Ingest(Arrivals(start, arriving[..|arriving| - 1]), arriving[|arriving| - 1]).0
  }

  predicate Held(events: seq<Event>) { IdsUnique(events) && Rebuild(events).Ok? }

  lemma {:induction false} ExistingFinds(events: seq<Event>, id: string)
    ensures Existing(events, id).None? <==> forall e | e in events :: e.id != id
    ensures Existing(events, id).Some? ==> Existing(events, id).value in events && Existing(events, id).value.id == id
  {
    if events != [] {
      ExistingFinds(events[..|events| - 1], id);
      assert events == events[..|events| - 1] + [events[|events| - 1]];
    }
  }

  lemma {:induction false} ArrivalsHeld(arriving: seq<Event>)
    ensures Held(Arrivals([], arriving))
  {
    hide Rebuild;
    if arriving == [] {
      assert Rebuild([]).Ok? by { EmptyRebuilds(); }
    } else {
      var before := Arrivals([], arriving[..|arriving| - 1]);
      ArrivalsHeld(arriving[..|arriving| - 1]);
      ExistingFinds(before, arriving[|arriving| - 1].id);
    }
  }

  lemma EmptyRebuilds()
    ensures Rebuild([]).Ok?
  {
  }

  /** Two runs that accepted the same events, in any order and with any duplicates or refusals
      in between, show the same state. */
  lemma StateIsOfTheAcceptedSet(a: seq<Event>, b: seq<Event>)
    requires forall e :: e in Arrivals([], a) <==> e in Arrivals([], b)
    ensures Rebuild(Arrivals([], a)).Ok? && Rebuild(Arrivals([], a)) == Rebuild(Arrivals([], b))
  {
    ArrivalsHeld(a);
    ArrivalsHeld(b);
    SameEventsSameView(Arrivals([], a), Arrivals([], b));
  }

  /** What arrives in order, and rebuilds as a whole, is accepted event by event. */
  lemma {:induction false} InOrderIsAccepted(ordered: seq<Event>)
    requires InOrder(ordered) && IdsUnique(ordered) && RebuildSorted(ordered).Ok?
    ensures Arrivals([], ordered) == ordered
    ensures forall n | 0 <= n < |ordered| :: Ingest(ordered[..n], ordered[n]).1 == Accepted
    decreases |ordered|
  {
    hide RebuildSorted;
    hide Earlier;
    if ordered != [] {
      var front, last := ordered[..|ordered| - 1], ordered[|ordered| - 1];
      assert front + [last] == ordered;
      PrefixRebuilds(ordered, |front|);
      InOrderIsAccepted(front);
      NewestIsAccepted(front, last);
      hide Ingest;
      forall n | 0 <= n < |ordered| ensures Ingest(ordered[..n], ordered[n]).1 == Accepted {
        if n < |front| {
          assert front[..n] == ordered[..n] && front[n] == ordered[n];
        } else {
          assert ordered[..n] == front;
        }
      }
    }
  }

  lemma NewestIsAccepted(front: seq<Event>, last: Event)
    requires InOrder(front + [last]) && IdsUnique(front + [last]) && RebuildSorted(front + [last]).Ok?
    ensures Ingest(front, last) == (front + [last], Accepted)
  {
    var ordered := front + [last];
    assert forall i | 0 <= i < |front| :: ordered[i] == front[i] && ordered[i].id != ordered[|front|].id;
    ExistingFinds(front, last.id);
    SortedIsFixed(ordered);
    hide RebuildSorted;
  }

  /** Loading a saved history always succeeds, record by record, and shows the same state, even
      where other arrival orders of the same events would be refused. */
  lemma SavedHistoryLoads(arriving: seq<Event>)
    ensures var held := Arrivals([], arriving);
            var saved := Sorted(held);
            (forall n | 0 <= n < |saved| :: Ingest(saved[..n], saved[n]).1 == Accepted) &&
            Arrivals([], saved) == saved && Rebuild(saved) == Rebuild(held)
  {
    var held := Arrivals([], arriving);
    var saved := Sorted(held);
    ArrivalsHeld(arriving);
    SortedInOrder(held);
    SortedIdsUnique(held);
    InOrderIsAccepted(saved);
    SameElements(saved, held);
    ArrivalsHeld(saved);
    SameEventsSameView(saved, held);
  }

  // ------------------------------------------------------ one level

  lemma NothingArrives()
    ensures Arrivals([], []) == []
  {
  }

  lemma ArrivalsStep(arriving: seq<Event>, e: Event)
    ensures Arrivals([], arriving + [e]) == Ingest(Arrivals([], arriving), e).0
  {
    assert (arriving + [e])[..|arriving|] == arriving;
    hide Ingest;
  }

  predicate OneLevel(events: seq<Event>, key: Key) {
    forall i | 0 <= i < |events| :: events[i].body.Liquidity? && events[i].body.key == key
  }

  predicate ValidChain(events: seq<Event>) {
    forall i | 0 <= i && i + 1 < |events| && events[i].body.Liquidity? && events[i + 1].body.Liquidity? ::
      ValidTransition(events[i].body.lifecycle, events[i + 1].body.lifecycle)
  }

  /** The events of one level replay exactly when each lifecycle may follow the one before it. */
  lemma {:induction false} OneLevelReplays(events: seq<Event>, key: Key)
    requires OneLevel(events, key)
    ensures Replay(events).Ok? <==> ValidChain(events)
    ensures Replay(events).Ok? ==>
              var m := Replay(events).value;
              m.scanners == [] && m.expansions == [] && m.tracked.None? &&
              Find(m.levels, key) == if events == [] then None else Some(LevelOf(events[|events| - 1]))
    decreases |events|
  {
    if events != [] {
      var front, last := events[..|events| - 1], events[|events| - 1];
      OneLevelReplays(front, key);
      ChainSnoc(front, last);
      assert front + [last] == events;
      if Replay(front).Ok? {
        OneLevelStep(Replay(front).value, last);
      }
      hide ValidChain;
      hide LevelOf;
      hide Find;
      hide Apply;
    }
  }

  lemma OneLevelStep(m: Market, e: Event)
    requires e.body.Liquidity? && m.scanners == [] && m.expansions == [] && m.tracked.None?
    ensures var before := Find(m.levels, e.body.key);
            Apply(m, e).Ok? <==> (before.None? || ValidTransition(before.value.lifecycle, e.body.lifecycle))
    ensures Apply(m, e).Ok? ==>
              var next := Apply(m, e).value;
              next.scanners == [] && next.expansions == [] && next.tracked.None? &&
              Find(next.levels, e.body.key) == Some(LevelOf(e))
  {
    hide LiquidityDistance;
    hide NextPrice;
    hide Find;
    hide Put;
    hide ValidTransition;
    hide Best;
    FindPut(m.levels, LevelOf(e), e.body.key);
  }

  lemma ChainSnoc(front: seq<Event>, last: Event)
    requires last.body.Liquidity? && forall i | 0 <= i < |front| :: front[i].body.Liquidity?
    ensures ValidChain(front + [last]) <==>
            ValidChain(front) &&
            (front != [] ==> ValidTransition(front[|front| - 1].body.lifecycle, last.body.lifecycle))
  {
    hide ValidTransition;
    var more := front + [last];
    assert forall i | 0 <= i < |front| :: more[i] == front[i];
    if ValidChain(more) && front != [] {
      assert more[|front| - 1 + 1] == last;
    }
  }

  lemma SortedIsFixed(ordered: seq<Event>)
    requires InOrder(ordered) && IdsUnique(ordered)
    ensures Sorted(ordered) == ordered
  {
    SortedInOrder(ordered);
    SameElements(Sorted(ordered), ordered);
    OrderIsUnique(Sorted(ordered), ordered);
  }

  /** The selection order leaves the version out: of two versions of one level that are otherwise
      alike, the one inserted first is taken. */
  lemma VersionsTie(a: Level, b: Level, side: Side)
    requires Candidate(a, side) && b == a.(key := Key(a.key.id, b.key.version))
    ensures Best([a, b], side) == Some(a) && Best([b, a], side) == Some(b)
  {
    BelowTotal(a.key.id.digest, a.key.id.digest);
    BestOfOne(a, side);
    BestOfOne(b, side);
    assert [a, b][..1] == [a] && [b, a][..1] == [b];
  }

  lemma BestOfOne(a: Level, side: Side)
    requires Candidate(a, side)
    ensures Best([a], side) == Some(a)
  {
    assert [a][..0] == [];
  }

  // ------------------------------------------------------ the Renko cycle

  predicate Clearing(e: Event) { e.body.Renko? && (e.body.stage.Reset? || e.body.stage.StageInvalidated?) }

  /** The cycle named last. */
  function CycleOf(renko: seq<Event>): Option<string> {
    if renko == [] then None
    else
      var last := renko[|renko| - 1];
      if last.body.Renko? && last.body.cycle.Some? then last.body.cycle else CycleOf(renko[..|renko| - 1])
  }

  /** Event n starts another cycle than the one named before it. */
  predicate NewCycle(renko: seq<Event>, n: nat)
    requires n < |renko|
  {
    var before := CycleOf(renko[..n]);
    renko[n].body.Renko? && renko[n].body.cycle.Some? && before.Some? && before != renko[n].body.cycle
  }

  /** Event i confirmed a stage, and nothing since has cleared it. */
  predicate Standing(renko: seq<Event>, stage: Stage, i: nat) {
    i < |renko| && renko[i].body.Renko? && renko[i].body.stage == stage && !Clearing(renko[i]) &&
    renko[i].confirmed && renko[i].freshness == "FRESH" &&
    forall n | i < n < |renko| :: !Clearing(renko[n]) && !NewCycle(renko, n)
  }

  ghost predicate RenkoOk(m: Market) {
    m.cycle == CycleOf(m.renko) && forall stage :: stage in m.stages <==> exists i: nat :: Standing(m.renko, stage, i)
  }

  lemma StandingSnoc(renko: seq<Event>, e: Event, stage: Stage, i: nat)
    requires i < |renko|
    ensures Standing(renko + [e], stage, i) <==>
            Standing(renko, stage, i) && !Clearing(e) && !NewCycle(renko + [e], |renko|)
  {
    var more := renko + [e];
    assert more[|renko|] == e;
    forall n | i < n < |renko| ensures Clearing(more[n]) == Clearing(renko[n]) && NewCycle(more, n) == NewCycle(renko, n) {
      assert more[..n] == renko[..n] && more[n] == renko[n];
    }
  }

  /** A stage stands after one more event if it stood and was not cleared, or was just confirmed. */
  lemma StandsAfter(renko: seq<Event>, e: Event, stage: Stage)
    requires e.body.Renko?
    ensures (exists i: nat :: Standing(renko + [e], stage, i)) <==>
            (e.body.stage == stage && !Clearing(e) && e.confirmed && e.freshness == "FRESH") ||
            (!Clearing(e) && !NewCycle(renko + [e], |renko|) && exists i: nat :: Standing(renko, stage, i))
  {
    var more := renko + [e];
    assert more[|renko|] == e;
    hide NewCycle;
    if i: nat :| Standing(renko, stage, i) {
      StandingSnoc(renko, e, stage, i);
    }
    if i: nat :| Standing(more, stage, i) {
      if i < |renko| {
        StandingSnoc(renko, e, stage, i);
      }
    }
    assert e.body.stage == stage && !Clearing(e) && e.confirmed && e.freshness == "FRESH" ==>
           Standing(more, stage, |renko|);
  }

  lemma RenkoStep(m: Market, e: Event)
    requires RenkoOk(m) && e.body.Renko?
    ensures RenkoOk(OnRenko(m, e))
  {
    var next, more := OnRenko(m, e), m.renko + [e];
    CycleSnoc(m.renko, e);
    assert more[..|m.renko|] == m.renko && more[|m.renko|] == e;
    hide CycleOf;
    hide Standing;
    forall stage ensures stage in next.stages <==> exists i: nat :: Standing(more, stage, i) {
      StandsAfter(m.renko, e, stage);
    }
  }

  lemma CycleSnoc(renko: seq<Event>, e: Event)
    ensures CycleOf(renko + [e]) == if e.body.Renko? && e.body.cycle.Some? then e.body.cycle else CycleOf(renko)
  {
    assert (renko + [e])[..|renko|] == renko;
  }

  lemma ApplyKeepsRenko(m: Market, e: Event)
    requires RenkoOk(m) && Apply(m, e).Ok?
    ensures RenkoOk(Apply(m, e).value)
  {
    var priced := WithPrice(m, e);
    assert RenkoOk(priced) by { SameRenko(m, priced); }
    if e.body.Renko? {
      RenkoStep(priced, e);
      SelectKeepsRenko(OnRenko(priced, e), e);
    } else {
      SameRenko(priced, Apply(m, e).value) by {
        hide Find;
        hide Put;
        hide Best;
        hide Story;
        hide LevelOf;
        hide RenkoOk;
      }
    }
    hide RenkoOk;
    hide OnRenko;
    hide Select;
    hide OnLiquidity;
    hide OnExpansion;
    hide WithPrice;
  }

  lemma SameRenko(m: Market, next: Market)
    requires RenkoOk(m) && next.renko == m.renko && next.cycle == m.cycle && next.stages == m.stages
    ensures RenkoOk(next)
  {
    hide Standing;
    hide CycleOf;
  }

  lemma SelectKeepsRenko(m: Market, e: Event)
    requires RenkoOk(m)
    ensures RenkoOk(Select(m, e))
  {
    hide RenkoOk;
    hide Best;
    hide Story;
    SameRenko(m, Select(m, e));
  }

  /** The confirmed stages are those confirmed since the last reset, invalidation or new cycle. */
  lemma {:induction false} StagesStand(events: seq<Event>)
    requires Replay(events).Ok?
    ensures var m := Replay(events).value;
            forall stage :: stage in m.stages <==> exists i: nat :: Standing(m.renko, stage, i)
    ensures RenkoOk(Replay(events).value)
    decreases |events|
  {
    if events != [] {
      StagesStand(events[..|events| - 1]);
      ApplyKeepsRenko(Replay(events[..|events| - 1]).value, events[|events| - 1]);
      hide Apply;
    }
  }

  function Rank(stage: Stage): nat {
    match stage case E1 => 1 case E2 => 2 case Main => 3 case Fire => 4 case _ => 0
  }

  lemma {:induction false} RankedAre(stages: set<Stage>, n: nat)
    requires n <= 4
    ensures forall stage :: stage in Ranked(stages, n) <==> stage in stages && 0 < Rank(stage) <= n
    ensures forall i, j | 0 <= i < j < |Ranked(stages, n)| :: Rank(Ranked(stages, n)[i]) < Rank(Ranked(stages, n)[j])
  {
    if n > 0 {
      RankedAre(stages, n - 1);
      assert Rank(RANKED[n - 1]) == n && forall stage | Rank(stage) == n :: stage == RANKED[n - 1];
      var front := Ranked(stages, n - 1);
      assert forall i | 0 <= i < |front| :: front[i] in front;
    }
  }

  lemma {:induction false} StagesAreRanked(events: seq<Event>)
    requires Replay(events).Ok?
    ensures forall stage | stage in Replay(events).value.stages :: Rank(stage) > 0
  {
    StagesStand(events);
    hide Replay;
  }

  lemma StateShowsStages(m: Market)
    requires forall stage | stage in m.stages :: Rank(stage) > 0
    ensures var shown := RenkoStateOf(m);
            (forall stage :: stage in shown.confirmed <==> stage in m.stages) &&
            (forall i, j | 0 <= i < j < |shown.confirmed| :: Rank(shown.confirmed[i]) < Rank(shown.confirmed[j])) &&
            (shown.maturity.None? <==> m.stages == {}) &&
            (shown.maturity.Some? ==>
               shown.maturity.value in m.stages && forall stage | stage in m.stages :: Rank(stage) <= Rank(shown.maturity.value))
  {
    RankedAre(m.stages, 4);
    var confirmed := Ranked(m.stages, 4);
    hide Ranked;
    if confirmed != [] {
      var top := confirmed[|confirmed| - 1];
      forall stage | stage in m.stages ensures Rank(stage) <= Rank(top) {
        assert stage in confirmed;
        var i :| 0 <= i < |confirmed| && confirmed[i] == stage;
      }
      assert top in confirmed;
    } else {
      forall stage ensures stage !in m.stages {
        assert stage !in confirmed;
      }
      assert m.stages == {};
    }
  }

  /** The Renko state that is shown: the confirmed stages are those standing, by rank, and the
      maturity is the one of highest rank. */
  lemma RenkoStateShowsStanding(events: seq<Event>)
    requires Replay(events).Ok?
    ensures var m := Replay(events).value;
            var shown := RenkoStateOf(m);
            (forall stage :: stage in shown.confirmed <==> exists i: nat :: Standing(m.renko, stage, i)) &&
            (forall i, j | 0 <= i < j < |shown.confirmed| :: Rank(shown.confirmed[i]) < Rank(shown.confirmed[j])) &&
            (shown.maturity.None? <==> m.stages == {}) &&
            (shown.maturity.Some? ==>
               shown.maturity.value in m.stages && forall stage | stage in m.stages :: Rank(stage) <= Rank(shown.maturity.value))
  {
    hide Replay;
    hide Standing;
    hide RenkoStateOf;
    hide RenkoOk;
    hide Rank;
    StagesStand(events);
    StagesAreRanked(events);
    StateShowsStages(Replay(events).value);
  }

  // ------------------------------------------------------ distances

  /** The zone, decided by cross multiplication, is that of the exact ratio; and a distance is
      available only for fresh inputs and a price that has not reached the level. */
  lemma ZonesFollowTheRatio(side: Side, level: Price, market: Price, atr: Option<Price>, inputsFresh: bool)
    ensures var d := LiquidityDistance(side, level, market, atr, inputsFresh);
            (d.status.Available? <==> inputsFresh && atr.Some? && (if side == Ask then market < level else level < market)) &&
            (d.zone.Some? <==> d.status.Available?) &&
            (d.zone.Some? ==>
               d.ratio.Some? &&
               (d.zone.value.NearTouch? <==> d.ratio.value <= 0.25) && (d.zone.value.Far? <==> d.ratio.value > 0.5))
  {
    if atr.Some? {
      var signed := if side == Ask then level - market else market - level;
      var absolute := if signed < 0.0 then -signed else signed;
      RatioBound(absolute, atr.value, absolute / atr.value);
    }
  }

  lemma RatioBound(absolute: real, atr: Price, ratio: real)
    requires ratio * atr == absolute
    ensures (absolute * 4.0 <= atr <==> ratio <= 0.25) && (absolute * 2.0 <= atr <==> ratio <= 0.5)
  {
    assert absolute * 4.0 <= atr <==> (ratio - 0.25) * atr <= 0.0;
    assert absolute * 2.0 <= atr <==> (ratio - 0.5) * atr <= 0.0;
  }

  // ------------------------------------------------------ prices and scanner evidence

  /** A point measured against the one before it. */
  predicate Measured(before: PricePoint, p: PricePoint) {
    p.delta == Some(p.price - before.price) && p.percent.Some? &&
    p.percent.value * before.price == (p.price - before.price) * 100.0 && p.movement.Some? &&
    (p.movement.value.Rise? <==> p.price > before.price) && (p.movement.value.Fall? <==> p.price < before.price)
  }

  predicate PathOk(prices: seq<PricePoint>) {
    (prices != [] ==> prices[0].delta.None? && prices[0].percent.None? && prices[0].movement.None?) &&
    forall i | 0 <= i && i + 1 < |prices| :: Measured(prices[i], prices[i + 1])
  }

  predicate Priced(e: Event) { !e.body.Renko? }

  function PriceOf(e: Event): Price
    requires Priced(e)
  {
    if e.body.Liquidity? then e.body.market else e.body.current
  }

  /** The points are those of the priced events, in order. */
  function PricedEvents(events: seq<Event>): (priced: seq<Event>)
    ensures forall e | e in priced :: Priced(e)
  {
    if events == [] then []
    else
      PricedEvents(events[..|events| - 1]) + if Priced(events[|events| - 1]) then [events[|events| - 1]] else []
  }

  predicate PointsOf(prices: seq<PricePoint>, priced: seq<Event>) {
    |prices| == |priced| &&
    forall i | 0 <= i < |prices| :: Priced(priced[i]) && prices[i].event == priced[i].id &&
                                    prices[i].time == priced[i].time && prices[i].price == PriceOf(priced[i])
  }

  lemma NextMeasured(prices: seq<PricePoint>, e: Event, price: Price)
    requires prices != []
    ensures Measured(prices[|prices| - 1], NextPrice(prices, e, price))
  {
    var before: real := prices[|prices| - 1].price;
    var p := NextPrice(prices, e, price);
    DivideBack((price - before) * 100.0, before);
    assert p.percent.value == (price - before) * 100.0 / before;
  }

  lemma NextPriceOk(prices: seq<PricePoint>, e: Event, price: Price)
    requires PathOk(prices)
    ensures PathOk(prices + [NextPrice(prices, e, price)])
  {
    if prices != [] {
      NextMeasured(prices, e, price);
      hide NextPrice;
      hide Measured;
    }
  }

  lemma DivideBack(x: real, y: real)
    requires y != 0.0
    ensures x / y * y == x
  {
  }

  lemma ApplyPrices(m: Market, e: Event)
    requires Apply(m, e).Ok?
    ensures Apply(m, e).value.prices ==
            if Priced(e) then m.prices + [NextPrice(m.prices, e, PriceOf(e))] else m.prices
  {
    hide Find;
    hide Put;
    hide Best;
    hide Story;
    hide NextPrice;
    hide LevelOf;
  }

  /** The price path holds every priced event in order, each step measured against the last. */
  lemma {:induction false} PricePathIsRight(events: seq<Event>)
    requires Replay(events).Ok?
    ensures PathOk(Replay(events).value.prices) && PointsOf(Replay(events).value.prices, PricedEvents(events))
    decreases |events|
  {
    if events != [] {
      var front, last := events[..|events| - 1], events[|events| - 1];
      PricePathIsRight(front);
      ApplyPrices(Replay(front).value, last);
      hide Apply;
      if Priced(last) {
        NextPriceOk(Replay(front).value.prices, last, PriceOf(last));
        PointOf(Replay(front).value.prices, last);
      }
      hide NextPrice;
      hide PathOk;
    }
  }

  lemma PointOf(prices: seq<PricePoint>, e: Event)
    requires Priced(e)
    ensures var p := NextPrice(prices, e, PriceOf(e)); p.event == e.id && p.time == e.time && p.price == PriceOf(e)
  {
  }

  lemma {:induction false} MatchesFound(expansions: seq<Event>, key: Correlation, e: Event)
    ensures e in Matches(expansions, key) <==> e in expansions && e.body.Expansion? && CorrelationOf(e) == key
  {
    if expansions != [] {
      MatchesFound(expansions[..|expansions| - 1], key, e);
      assert expansions == expansions[..|expansions| - 1] + [expansions[|expansions| - 1]];
      hide CorrelationOf;
    }
  }

  lemma {:induction false} MatchesDistinct(expansions: seq<Event>, key: Correlation)
    requires IdsUnique(expansions)
    ensures IdsUnique(Matches(expansions, key))
  {
    if expansions != [] {
      var front, last := expansions[..|expansions| - 1], expansions[|expansions| - 1];
      MatchesDistinct(front, key);
      forall e | e in Matches(front, key) ensures e.id != last.id {
        MatchesFound(front, key, e);
        var i :| 0 <= i < |front| && front[i] == e;
        assert expansions[i] == e;
      }
      hide CorrelationOf;
    }
  }

  lemma AnotherIn(events: seq<Event>, e: Event)
    requires IdsUnique(events) && |events| > 1
    ensures exists x :: x in events && x != e
  {
    var x := if events[0] == e then events[1] else events[0];
    assert x in events && x != e;
  }

  lemma OnlyOneIn(events: seq<Event>, e: Event)
    requires IdsUnique(events) && e in events && forall x | x in events :: x == e
    ensures events == [e]
  {
    if |events| > 1 { AnotherIn(events, e); }
  }

  /** The one directional expansion with the scanner event's symbol, feed, timeframe, bar and
      direction. */
  predicate OnlyMatch(scanner: Event, expansions: seq<Event>, e: Event)
    requires scanner.body.Expansion?
  {
    e in expansions && e.body.Expansion? && CorrelationOf(e) == CorrelationOf(scanner) &&
    forall other | other in expansions && other.body.Expansion? && CorrelationOf(other) == CorrelationOf(scanner) ::
      other == e
  }

  /** A scanner event is paired exactly when there is one directional expansion of its own symbol,
      feed, timeframe, bar and direction, and with that one. */
  lemma PairedWithTheOnlyMatch(scanner: Event, expansions: seq<Event>)
    requires scanner.body.Expansion? && IdsUnique(expansions)
    ensures var paired := QualityOf(scanner, expansions).paired;
            (paired.Some? <==> exists e :: OnlyMatch(scanner, expansions, e)) &&
            forall e | OnlyMatch(scanner, expansions, e) :: paired == Some(e.id)
  {
    var key := CorrelationOf(scanner);
    var matches := Matches(expansions, key);
    forall e ensures e in matches <==> e in expansions && e.body.Expansion? && CorrelationOf(e) == key {
      MatchesFound(expansions, key, e);
    }
    MatchesDistinct(expansions, key);
    hide CorrelationOf;
    hide Matches;
    if |matches| == 1 {
      assert OnlyMatch(scanner, expansions, matches[0]);
    }
    forall e | OnlyMatch(scanner, expansions, e) ensures |matches| == 1 && matches[0] == e {
      OnlyOneIn(matches, e);
    }
  }
}
