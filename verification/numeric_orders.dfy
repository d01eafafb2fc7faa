/**
 Which sets of events are accepted whatever order they arrive in (project_a/numeric_state.py).
 */
module NumericOrders {
  import opened Outcomes
  import opened CanonicalJson
  import opened NumericSteps
  import opened NumericRuns

  // ------------------------------------------------------ when a list replays

  /** The lifecycle of the last event of one level. */
  function LastOf(events: seq<Event>, key: Key): Option<Lifecycle> {
    if events == [] then None
    else
      var last := events[|events| - 1];
      if last.body.Liquidity? && last.body.key == key then Some(last.body.lifecycle)
      else LastOf(events[..|events| - 1], key)
  }

  predicate Follows(before: seq<Event>, e: Event) {
    e.body.Liquidity? ==>
      var last := LastOf(before, e.body.key);
      last.None? || ValidTransition(last.value, e.body.lifecycle)
  }

  /** Every level event may follow the last one of its own level before it. */
  predicate AllFollow(events: seq<Event>) {
    events == [] || (AllFollow(events[..|events| - 1]) && Follows(events[..|events| - 1], events[|events| - 1]))
  }

  predicate IsScanner(e: Event) { e.body.Expansion? && e.body.scanner }

  /** The stored levels are the last of each key, the stored scanner events those that came. */
  ghost predicate Stored(m: Market, events: seq<Event>) {
    (forall key ::
       var found := Find(m.levels, key);
       LastOf(events, key) == if found.Some? then Some(found.value.lifecycle) else None) &&
    (forall e :: e in m.scanners <==> e in events && IsScanner(e))
  }

  lemma FoundAfter(m: Market, e: Event, key: Key)
    requires e.body.Liquidity? && OnLiquidity(WithPrice(m, e), e).Ok?
    ensures Find(OnLiquidity(WithPrice(m, e), e).value.levels, key) ==
            if key == e.body.key then Some(LevelOf(e)) else Find(m.levels, key)
  {
    hide LevelOf;
    hide NextPrice;
    hide ValidTransition;
    LevelOfKey(e);
    FindPut(m.levels, LevelOf(e), key);
    hide Find;
    hide Put;
  }

  lemma SelectKeepsStored(m: Market, e: Event)
    ensures Select(m, e).levels == m.levels && Select(m, e).scanners == m.scanners
  {
    hide Best;
    hide Story;
  }

  lemma ApplyOkIff(m: Market, e: Event)
    ensures Apply(m, e).Ok? <==>
            (e.body.Liquidity? ==>
               var before := Find(m.levels, e.body.key);
               before.None? || ValidTransition(before.value.lifecycle, e.body.lifecycle))
  {
    hide NextPrice;
    hide Find;
    hide Put;
    hide Select;
    hide ValidTransition;
    hide LevelOf;
    hide Story;
  }

  lemma ApplyFinds(m: Market, e: Event, key: Key)
    requires Apply(m, e).Ok?
    ensures Find(Apply(m, e).value.levels, key) ==
            if e.body.Liquidity? && key == e.body.key then Some(LevelOf(e)) else Find(m.levels, key)
  {
    hide NextPrice;
    hide Find;
    hide LevelOf;
    hide Put;
    if e.body.Liquidity? {
      FoundAfter(m, e, key);
      SelectKeepsStored(OnLiquidity(WithPrice(m, e), e).value, e);
      hide OnLiquidity;
    } else if e.body.Expansion? {
      SelectKeepsStored(OnExpansion(WithPrice(m, e), e), e);
    } else {
      SelectKeepsStored(OnRenko(WithPrice(m, e), e), e);
    }
    hide Select;
    hide Story;
  }

  lemma ApplyScanners(m: Market, e: Event)
    requires Apply(m, e).Ok?
    ensures Apply(m, e).value.scanners == if IsScanner(e) then m.scanners + [e] else m.scanners
  {
    hide NextPrice;
    hide Find;
    hide LevelOf;
    hide Put;
    hide ValidTransition;
    if e.body.Liquidity? {
      SelectKeepsStored(OnLiquidity(WithPrice(m, e), e).value, e);
    } else if e.body.Expansion? {
      SelectKeepsStored(OnExpansion(WithPrice(m, e), e), e);
    } else {
      SelectKeepsStored(OnRenko(WithPrice(m, e), e), e);
    }
    hide Select;
    hide Story;
  }

  lemma ApplyStores(m: Market, events: seq<Event>, e: Event)
    requires Stored(m, events)
    ensures Apply(m, e).Ok? <==> Follows(events, e)
    ensures Apply(m, e).Ok? ==> Stored(Apply(m, e).value, events + [e])
  {
    ApplyOkIff(m, e);
    assert (events + [e])[..|events|] == events;
    hide ValidTransition;
    if Apply(m, e).Ok? {
      var next := Apply(m, e).value;
      ApplyScanners(m, e);
      hide Apply;
      if e.body.Liquidity? { LevelOfKey(e); }
      forall key
        ensures var found := Find(next.levels, key);
                LastOf(events + [e], key) == if found.Some? then Some(found.value.lifecycle) else None
      {
        ApplyFinds(m, e, key);
        hide LevelOf;
        hide Find;
      }
    }
  }

  /** A list of events replays exactly when every level event may follow the last of its own level
      before it; everything else is always taken. */
  lemma {:induction false} ReplaysIff(events: seq<Event>)
    ensures Replay(events).Ok? <==> AllFollow(events)
    ensures Replay(events).Ok? ==> Stored(Replay(events).value, events)
  {
    if events == [] {
      NothingStored();
    } else {
      var front, last := events[..|events| - 1], events[|events| - 1];
      assert front + [last] == events;
      ReplaysIff(front);
      if Replay(front).Ok? { ApplyStores(Replay(front).value, front, last); }
      hide Apply;
      hide Stored;
      hide Follows;
    }
  }

  lemma NothingStored()
    ensures Stored(EMPTY_MARKET, [])
  {
  }

  // ------------------------------------------------------ every pair of a level

  predicate Admits(a: Event, b: Event) {
    a.body.Liquidity? && b.body.Liquidity? && a.body.key == b.body.key ==>
      ValidTransition(a.body.lifecycle, b.body.lifecycle)
  }

  /** Of any two events of one level the later lifecycle may follow the earlier directly. */
  predicate PairwiseValid(ordered: seq<Event>) {
    forall i, j | 0 <= i < j < |ordered| :: Admits(ordered[i], ordered[j])
  }

  /** No two scanner events disagree about one bar. */
  predicate ScannersAgree(events: seq<Event>) {
    forall a, b | a in events && b in events && IsScanner(a) && IsScanner(b) :: !Conflict(a, b)
  }

  lemma {:induction false} LastOfIs(events: seq<Event>, key: Key)
    requires LastOf(events, key).Some?
    ensures exists i :: 0 <= i < |events| && events[i].body.Liquidity? && events[i].body.key == key &&
                        events[i].body.lifecycle == LastOf(events, key).value
  {
    var front, last := events[..|events| - 1], events[|events| - 1];
    if !(last.body.Liquidity? && last.body.key == key) {
      LastOfIs(front, key);
      var i :| 0 <= i < |front| && front[i].body.Liquidity? && front[i].body.key == key &&
               front[i].body.lifecycle == LastOf(front, key).value;
      assert events[i] == front[i];
    }
  }

  lemma {:induction false} PairwiseFollows(ordered: seq<Event>)
    requires PairwiseValid(ordered)
    ensures AllFollow(ordered)
  {
    if ordered != [] {
      var front, last := ordered[..|ordered| - 1], ordered[|ordered| - 1];
      assert forall i | 0 <= i < |front| :: front[i] == ordered[i];
      PairwiseFollows(front);
      if last.body.Liquidity? && LastOf(front, last.body.key).Some? {
        LastOfIs(front, last.body.key);
        var i :| 0 <= i < |front| && front[i].body.Liquidity? && front[i].body.key == last.body.key &&
                 front[i].body.lifecycle == LastOf(front, last.body.key).value;
        assert Admits(ordered[i], ordered[|front|]);
      }
    }
  }

  lemma PlacesInOrder(events: seq<Event>, a: nat, b: nat)
    requires InOrder(events) && a < |events| && b < |events| && Earlier(events[a], events[b])
    ensures a < b
  {
    EarlierTotal(events[a], events[b]);
    hide Earlier;
  }

  /** Fewer events in the same order keep the property. */
  lemma FewerPairwise(few: seq<Event>, many: seq<Event>)
    requires InOrder(few) && InOrder(many) && PairwiseValid(many) && forall e | e in few :: e in many
    ensures PairwiseValid(few)
  {
    hide Earlier;
    hide Admits;
    forall i, j | 0 <= i < j < |few| ensures Admits(few[i], few[j]) {
      assert few[i] in many && few[j] in many;
      var a :| 0 <= a < |many| && many[a] == few[i];
      var b :| 0 <= b < |many| && many[b] == few[j];
      assert Earlier(few[i], few[j]);
      PlacesInOrder(many, a, b);
      assert Admits(many[a], many[b]);
    }
  }

  lemma ConflictedIff(scanners: seq<Event>)
    ensures Conflicted(scanners) <==> exists a, b :: a in scanners && b in scanners && Conflict(a, b)
  {
    if i, j :| 0 <= i < j < |scanners| && Conflict(scanners[i], scanners[j]) {
      assert scanners[i] in scanners && scanners[j] in scanners;
    }
    if a, b :| a in scanners && b in scanners && Conflict(a, b) {
      var i :| 0 <= i < |scanners| && scanners[i] == a;
      var j :| 0 <= j < |scanners| && scanners[j] == b;
      assert Conflict(b, a);
      assert i != j;
      if i < j { assert Conflict(scanners[i], scanners[j]); } else { assert Conflict(scanners[j], scanners[i]); }
    }
  }

  /** A set of events rebuilds exactly when its sorted list replays and its scanner events agree. */
  lemma RebuildsIff(events: seq<Event>)
    requires IdsUnique(events)
    ensures Rebuild(events).Ok? <==> AllFollow(Sorted(events)) && ScannersAgree(events)
  {
    var ordered := Sorted(events);
    SortedInOrder(events);
    SameElements(ordered, events);
    ReplaysIff(ordered);
    hide Sorted;
    if Replay(ordered).Ok? {
      var scanners := Replay(ordered).value.scanners;
      hide Replay;
      hide AllFollow;
      ConflictedIff(scanners);
      hide Conflicted;
      hide Conflict;
      assert forall e :: e in scanners <==> e in events && IsScanner(e);
      hide IsScanner;
    }
  }

  // ------------------------------------------------------ every order of arrival

  /** The events arrive and every one is accepted. */
  predicate AllAccepted(arriving: seq<Event>) { Arrivals([], arriving) == arriving }

  lemma AcceptedStep(front: seq<Event>, last: Event)
    requires AllAccepted(front) && IdsUnique(front + [last]) && Rebuild(front + [last]).Ok?
    ensures AllAccepted(front + [last])
  {
    var arriving := front + [last];
    ArrivalsStep(front, last);
    ExistingFinds(front, last.id);
    assert forall i | 0 <= i < |front| :: arriving[i] == front[i];
    assert arriving[|front|] == last;
    hide Rebuild;
  }

  lemma {:induction false} PairwiseIsAccepted(arriving: seq<Event>, ordered: seq<Event>)
    requires IdsUnique(arriving) && InOrder(ordered) && PairwiseValid(ordered) && ScannersAgree(ordered)
    requires forall e | e in arriving :: e in ordered
    ensures AllAccepted(arriving)
    decreases |arriving|
  {
    if arriving != [] {
      var front, last := arriving[..|arriving| - 1], arriving[|arriving| - 1];
      assert arriving == front + [last];
      PairwiseIsAccepted(front, ordered);
      var sorted := Sorted(arriving);
      SortedInOrder(arriving);
      SameElements(sorted, arriving);
      FewerPairwise(sorted, ordered);
      PairwiseFollows(sorted);
      RebuildsIff(arriving);
      hide AllFollow;
      hide Rebuild;
      hide Sorted;
      hide AllAccepted;
      hide Conflict;
      hide PairwiseValid;
      AcceptedStep(front, last);
    } else {
      NothingArrives();
    }
  }

  lemma {:induction false} AtMostAll(arriving: seq<Event>)
    ensures |Arrivals([], arriving)| <= |arriving|
  {
    hide Rebuild;
    if arriving != [] { AtMostAll(arriving[..|arriving| - 1]); }
  }

  /** If all are accepted, so are the first ones. */
  lemma {:induction false} AcceptedPrefix(arriving: seq<Event>, n: nat)
    requires AllAccepted(arriving) && n <= |arriving|
    ensures AllAccepted(arriving[..n])
    decreases |arriving|
  {
    if n == |arriving| {
      assert arriving[..n] == arriving;
    } else {
      var front := arriving[..|arriving| - 1];
      AtMostAll(front);
      assert Arrivals([], front) == front by { AcceptedFront(arriving); }
      assert front[..n] == arriving[..n];
      AcceptedPrefix(front, n);
    }
  }

  lemma AcceptedFront(arriving: seq<Event>)
    requires AllAccepted(arriving) && arriving != []
    ensures AllAccepted(arriving[..|arriving| - 1])
  {
    hide Rebuild;
    hide Existing;
    var front := arriving[..|arriving| - 1];
    AtMostAll(front);
    assert arriving == front + [arriving[|arriving| - 1]];
  }

  /** Two events of a set, first in their order, then the others. */
  function PairFirst(ordered: seq<Event>, i: nat, j: nat): seq<Event>
    requires i < j < |ordered|
  {
    [ordered[i], ordered[j]] + (ordered[..i] + ordered[i + 1..j] + ordered[j + 1..])
  }

  lemma PairFirstIsAll(ordered: seq<Event>, i: nat, j: nat)
    requires i < j < |ordered|
    ensures multiset(PairFirst(ordered, i, j)) == multiset(ordered)
    ensures |PairFirst(ordered, i, j)| >= 2 && PairFirst(ordered, i, j)[..2] == [ordered[i], ordered[j]]
  {
    var a, b, c := ordered[..i], ordered[i + 1..j], ordered[j + 1..];
    assert ordered == a + [ordered[i]] + b + [ordered[j]] + c;
  }

  lemma InvalidPairRefused(a: Event, b: Event)
    requires Earlier(a, b) && a.id != b.id && !Admits(a, b)
    ensures Rebuild([a, b]).Err?
  {
    var pair := [a, b];
    assert pair[..1] == [a] && [a][..0] == [];
    EarlierTotal(a, a);
    SortedIsFixed(pair);
    RebuildsIff(pair);
    assert LastOf([a], a.body.key) == Some(a.body.lifecycle);
    assert !Follows([a], b);
    assert !AllFollow(pair);
  }

  lemma InvalidPairStops(ordered: seq<Event>, i: nat, j: nat)
    requires InOrder(ordered) && IdsUnique(ordered) && i < j < |ordered| && !Admits(ordered[i], ordered[j])
    ensures !AllAccepted(PairFirst(ordered, i, j))
  {
    var arriving := PairFirst(ordered, i, j);
    PairFirstIsAll(ordered, i, j);
    hide PairFirst;
    if AllAccepted(arriving) {
      AcceptedPrefix(arriving, 2);
      ArrivalsHeld(arriving[..2]);
      InvalidPairRefused(ordered[i], ordered[j]);
    }
  }

  lemma ArrangedIds(arriving: seq<Event>, events: seq<Event>)
    requires IdsUnique(events) && multiset(arriving) == multiset(events)
    ensures IdsUnique(arriving)
  {
    hide Earlier;
    forall i, j | 0 <= i < j < |arriving| ensures arriving[i].id != arriving[j].id {
      if arriving[i].id == arriving[j].id {
        SameElements(arriving, events);
        assert arriving[i] in arriving && arriving[j] in arriving;
        var m :| 0 <= m < |events| && events[m] == arriving[i];
        var n :| 0 <= n < |events| && events[n] == arriving[j];
        assert m == n;
        OnceOnly(events, m);
        TwiceAtLeast(arriving, i, j);
      }
    }
  }

  lemma OnceOnly(events: seq<Event>, m: nat)
    requires IdsUnique(events) && m < |events|
    ensures multiset(events)[events[m]] == 1
  {
    assert events == events[..m] + [events[m]] + events[m + 1..];
    assert events[m] !in events[..m] && events[m] !in events[m + 1..];
  }

  lemma TwiceAtLeast(events: seq<Event>, i: nat, j: nat)
    requires i < j < |events| && events[i] == events[j]
    ensures multiset(events)[events[i]] >= 2
  {
    assert events == events[..i] + [events[i]] + events[i + 1..j] + [events[j]] + events[j + 1..];
  }

  /** A set of events is accepted in full in every order of arrival exactly when, in its sorted list,
      of any two events of one level the later lifecycle may follow the earlier directly, and no two
      scanner events disagree about one bar. */
  lemma EveryOrderAcceptedIff(events: seq<Event>)
    requires IdsUnique(events)
    ensures (forall arriving | multiset(arriving) == multiset(events) :: AllAccepted(arriving)) <==>
            PairwiseValid(Sorted(events)) && ScannersAgree(events)
  {
    var ordered := Sorted(events);
    SortedInOrder(events);
    SortedIdsUnique(events);
    SameElements(ordered, events);
    hide Sorted;
    if PairwiseValid(ordered) && ScannersAgree(events) {
      forall arriving | multiset(arriving) == multiset(events) ensures AllAccepted(arriving) {
        ArrangedIds(arriving, events);
        SameElements(arriving, events);
        hide AllAccepted;
        hide PairwiseValid;
        PairwiseIsAccepted(arriving, ordered);
      }
    } else if !ScannersAgree(events) {
      RebuildsIff(events);
      hide Rebuild;
      ArrivalsHeld(events);
      hide ScannersAgree;
      hide PairwiseValid;
      assert multiset(events) == multiset(events) && !AllAccepted(events);
    } else {
      hide AllAccepted;
      hide Admits;
      var i, j :| 0 <= i < j < |ordered| && !Admits(ordered[i], ordered[j]);
      InvalidPairStops(ordered, i, j);
      PairFirstIsAll(ordered, i, j);
      hide PairFirst;
      assert multiset(PairFirst(ordered, i, j)) == multiset(events);
    }
  }
}
