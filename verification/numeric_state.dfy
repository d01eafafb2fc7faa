/**
 `NumericMarketState` (project_a/numeric_state.py): the fields it keeps, the loop that rebuilds
 them and the guarded `ingest`. The rebuild is proved to be the replay of numeric_steps.dfy.
 */
module NumericState {
  import opened Outcomes
  import opened NumericSteps
  import R = NumericRuns

  class NumericMarketState {
    /** `_events`, in insertion order. Ids and producer keys are one to one. */
    var events: seq<Event>
    var ordered: seq<Event>
    var levels: seq<Level>
    var prices: seq<PricePoint>
    var liquidity: seq<Event>
    var expansions: seq<Event>
    var scanners: seq<Event>
    var renko: seq<Event>
    var tracked: Option<Tracked>
    var changes: seq<Change>
    var cycle: Option<string>
    var stages: set<Stage>
    var prior: Option<Direction>
    var qualities: seq<Quality>
    var current: map<Family, Event>
    var previous: map<Family, Event>
    var renkoState: RenkoState

    ghost function Fields(): View
      reads this
    {
      View(ordered, Market(levels, prices, liquidity, expansions, scanners, renko, tracked, changes, cycle, stages, prior),
           qualities)
    }

    /** The fields shown beside go by the others. */
    ghost predicate ShownBeside()
      reads this
    {
      var m := Fields().market;
      current == CurrentOf(m) && previous == PreviousOf(m) && renkoState == RenkoStateOf(m)
    }

    /** Ids are unique, and every field is what a rebuild from the accepted events gives. */
    ghost predicate Valid()
      reads this
    {
      R.IdsUnique(events) && Rebuild(events) == Ok(Fields()) && ShownBeside()
    }

    constructor ()
      ensures Valid() && events == []
    {
      events, ordered, levels, prices, liquidity, expansions, scanners, renko := [], [], [], [], [], [], [], [];
      tracked, changes, cycle, stages, prior, qualities := None, [], None, {}, None, [];
      current, previous, renkoState := map[], map[], RenkoState(None, None, [], None, "NONE", false, "MISSING", None);
    }

    /** `_rebuild`: locals first, fields only when nothing has failed. */
    method RebuildFields() returns (raised: Option<Failure>)
      modifies this
      ensures events == old(events)
      ensures match Rebuild(events)
              case Ok(view) => Fields() == view && ShownBeside() && raised == None
              case Err(e) =>
                Fields() == old(Fields()) && current == old(current) && previous == old(previous) &&
                renkoState == old(renkoState) && raised == Some(e)
    {
      hide CurrentOf;
      hide PreviousOf;
      hide RenkoStateOf;
      hide Replay;
      hide Sorted;
      hide Conflicted;
      hide Qualities;
      var sorted := Sorted(events);
      var failed, m := ReplayEvents(sorted);
      if failed.Some? { return failed; }
      R.ScannersAreExpansions(sorted);
      var conflict := ScannersConflict(m.scanners);
      if conflict { return Some(ScannerConflict); }
      Show(sorted, m, Qualities(m.scanners, m.expansions));
      return None;
    }

    /** The assignments that end `_rebuild`. */
    method Show(sorted: seq<Event>, m: Market, evidence: seq<Quality>)
      modifies this
      ensures events == old(events) && Fields() == View(sorted, m, evidence) && ShownBeside()
    {
      hide CurrentOf;
      hide PreviousOf;
      hide RenkoStateOf;
      ShowEvents(sorted, m, evidence);
      ShowLevels(m);
      current, previous, renkoState := CurrentOf(m), PreviousOf(m), RenkoStateOf(m);
    }

    method ShowEvents(sorted: seq<Event>, m: Market, evidence: seq<Quality>)
      modifies this`ordered, this`liquidity, this`expansions, this`scanners, this`renko, this`qualities
      ensures ordered == sorted && qualities == evidence && liquidity == m.liquidity && expansions == m.expansions
      ensures scanners == m.scanners && renko == m.renko
    {
      ordered, qualities, liquidity, expansions := sorted, evidence, m.liquidity, m.expansions;
      scanners, renko := m.scanners, m.renko;
    }

    method ShowLevels(m: Market)
      modifies this`levels, this`prices, this`tracked, this`changes, this`cycle, this`stages, this`prior
      ensures levels == m.levels && prices == m.prices && tracked == m.tracked && changes == m.changes
      ensures cycle == m.cycle && stages == m.stages && prior == m.prior
    {
      levels, prices, tracked, changes := m.levels, m.prices, m.tracked, m.changes;
      cycle, stages, prior := m.cycle, m.stages, m.prior;
    }

    method IngestEvent(e: Event) returns (outcome: R.Outcome)
      requires Valid()
      modifies this
      ensures Valid() && (events, outcome) == R.Ingest(old(events), e)
      ensures !outcome.Accepted? ==> Fields() == old(Fields())
    {
      hide RebuildSorted;
      hide CurrentOf;
      hide PreviousOf;
      hide RenkoStateOf;
      var existing := R.Existing(events, e.id);
      R.ExistingFinds(events, e.id);
      if existing.Some? {
        return if existing.value.payload != e.payload then R.Refused(EventIdConflict) else R.Duplicate;
      }
      events := events + [e];
      var failed := RebuildFields();
      if failed.Some? {
        events := events[..|events| - 1];
        var _ := RebuildFields();
        return R.Refused(failed.value);
      }
      return R.Accepted;
    }

    /** `save_history`: the accepted events in their sorted order. */
    method SaveHistory() returns (saved: seq<Event>)
      requires Valid()
      ensures saved == Sorted(events)
    {
      return ordered;
    }
  }

  /** `load_history`: a saved history is accepted record by record and shows the same state. */
  method LoadHistory(saved: seq<Event>) returns (state: NumericMarketState, failed: Option<Failure>)
    ensures fresh(state) && state.Valid()
    ensures R.InOrder(saved) && R.IdsUnique(saved) && RebuildSorted(saved).Ok? ==>
              failed == None && state.events == saved && Ok(state.Fields()) == RebuildSorted(saved)
  {
    hide CurrentOf;
    hide PreviousOf;
    hide RenkoStateOf;
    hide Sorted;
    hide R.Existing;
    state := new NumericMarketState();
    var n := 0;
    ghost var regular := R.InOrder(saved) && R.IdsUnique(saved) && RebuildSorted(saved).Ok?;
    if regular {
      R.InOrderIsAccepted(saved);
      R.SortedIsFixed(saved);
      assert Rebuild(saved) == RebuildSorted(saved);
    }
    hide Rebuild;
    hide RebuildSorted;
    hide R.InOrder;
    hide R.IdsUnique;
    hide R.Ingest;
    while n < |saved|
      invariant 0 <= n <= |saved| && state.Valid() && fresh(state)
      invariant regular ==> state.events == saved[..n]
    {
      if regular {
        R.AcceptedIsAdded(saved[..n], saved[n]);
      }
      assert saved[..n] + [saved[n]] == saved[..n + 1];
      var outcome := state.IngestEvent(saved[n]);
      if outcome.Refused? {
        return state, Some(outcome.failure);
      }
      n := n + 1;
    }
    assert saved[..n] == saved;
    return state, None;
  }

  /** The loop of `_rebuild` over the sorted events, up to the first that fails. */
  method ReplayEvents(sorted: seq<Event>) returns (failed: Option<Failure>, m: Market)
    ensures match Replay(sorted)
            case Ok(r) => failed == None && m == r
            case Err(f) => failed == Some(f)
  {
    hide Apply;
    m := EMPTY_MARKET;
    failed := None;
    var n := 0;
    while n < |sorted|
      invariant 0 <= n <= |sorted| && Replay(sorted[..n]) == Ok(m)
    {
      assert sorted[..n + 1][..n] == sorted[..n] && sorted[..n + 1][n] == sorted[n];
      failed, m := OneEvent(m, sorted[n]);
      n := n + 1;
      if failed.Some? {
        R.FailureStays(sorted, n);
        return;
      }
    }
    assert sorted[..n] == sorted;
    failed := None;
  }

  /** The loop body of `_rebuild` for one event. */
  method OneEvent(before: Market, e: Event) returns (failed: Option<Failure>, after: Market)
    ensures match Apply(before, e)
            case Ok(m) => failed == None && after == m
            case Err(f) => failed == Some(f)
  {
    hide NextPrice;
    hide Find;
    hide Put;
    hide LevelOf;
    after := before;
    if e.body.Liquidity? {
      after := after.(prices := after.prices + [NextPrice(after.prices, e, e.body.market)]);
    } else if e.body.Expansion? {
      after := after.(prices := after.prices + [NextPrice(after.prices, e, e.body.current)]);
    }
    if e.body.Expansion? {
      if e.body.scanner {
        after := after.(scanners := after.scanners + [e]);
        return None, after;
      }
      after := after.(expansions := after.expansions + [e]);
      if e.confirmed && e.freshness == "FRESH" {
        if after.prior.Some? && e.body.direction != after.prior.value && after.tracked.Some? {
          after := after.(changes := after.changes + [Released(after.tracked.value.key, StoryReset, e.id, e.time)],
                          tracked := None);
        }
        after := after.(prior := Some(e.body.direction));
      }
    } else if e.body.Liquidity? {
      var known := Find(after.levels, e.body.key);
      if known.Some? && !ValidTransition(known.value.lifecycle, e.body.lifecycle) {
        return Some(InvalidTransition(known.value.lifecycle, e.body.lifecycle)), after;
      }
      after := after.(levels := Put(after.levels, LevelOf(e)), liquidity := after.liquidity + [e]);
      if after.tracked.Some? && after.tracked.value.key == e.body.key && Terminal(e.body.lifecycle) {
        after := after.(changes := after.changes + [Released(after.tracked.value.key, LevelEnded(e.body.lifecycle), e.id, e.time)],
                        tracked := None);
      }
    } else {
      if e.body.cycle.Some? && after.cycle.Some? && e.body.cycle != after.cycle {
        after := after.(stages := {});
      }
      if e.body.cycle.Some? {
        after := after.(cycle := e.body.cycle);
      }
      if e.body.stage.Reset? || e.body.stage.StageInvalidated? {
        after := after.(stages := {});
      } else if e.confirmed && e.freshness == "FRESH" {
        after := after.(stages := after.stages + {e.body.stage});
      }
      after := after.(renko := after.renko + [e]);
    }
    if after.tracked.None? {
      var story := Story(after.expansions);
      if story.Some? {
        var best := Best(after.levels, SideFor(story.value.body.direction));
        if best.Some? && best.value.distance.zone != Some(Far) {
          after := after.(tracked := Some(Tracked(best.value.key, best.value, e.time)),
                          changes := after.changes + [Selected(best.value.key, best.value, e.id, e.time)]);
        }
      }
    }
    failed := None;
  }

  function EvidenceKey(e: Event): (Correlation, string)
    requires e.body.Expansion?
  {
    (CorrelationOf(e), e.body.name)
  }

  /** The scanner loop: the facts last seen per correlation key and event name. */
  method ScannersConflict(scanners: seq<Event>) returns (conflict: bool)
    requires forall e | e in scanners :: e.body.Expansion?
    ensures conflict == Conflicted(scanners)
  {
    hide CorrelationOf;
    var facts: map<(Correlation, string), Facts> := map[];
    ghost var seenAt: map<(Correlation, string), int> := map[];
    conflict := false;
    for n := 0 to |scanners|
      invariant !conflict && facts.Keys == seenAt.Keys
      invariant forall key | key in facts :: 0 <= seenAt[key] < n && key == EvidenceKey(scanners[seenAt[key]])
      invariant forall i | 0 <= i < n :: EvidenceKey(scanners[i]) in facts && facts[EvidenceKey(scanners[i])] == scanners[i].body.facts
    {
      var key := EvidenceKey(scanners[n]);
      if key in facts && facts[key] != scanners[n].body.facts {
        assert Conflict(scanners[seenAt[key]], scanners[n]);
        return true;
      }
      facts := facts[key := scanners[n].body.facts];
      seenAt := seenAt[key := n];
    }
    forall i, j | 0 <= i < j < |scanners| ensures !Conflict(scanners[i], scanners[j]) {
      if EvidenceKey(scanners[i]) == EvidenceKey(scanners[j]) {
        assert scanners[i].body.facts == scanners[j].body.facts;
      }
    }
  }
}
