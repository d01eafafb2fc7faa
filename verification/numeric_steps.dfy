/**
 One pass over the sorted events of the numeric market state (project_a/numeric_state.py,
 `_rebuild`): what each event does to levels, prices, the tracked level and the Renko cycle.
 */
module NumericSteps {
  import opened Outcomes
  import opened CanonicalJson

  // ------------------------------------------------------ events

  datatype Direction = Up | Down

  datatype Side = Ask | Bid

  /** `liq1_<digest>`; the digest is taken over the side too, so an id belongs to one side. */
  datatype LevelId = LevelId(side: Side, digest: string)

  datatype Key = Key(id: LevelId, version: string)

  datatype Lifecycle =
    | Idle | Approach | Hit | Reject | Break | Invalidated | Expired | Removed | Stale | SourceUnavailable

  datatype Grade = Prime | Valid | Weak

  datatype Stage = E1 | E2 | Main | Fire | Reset | StageInvalidated

  type Price = r: real | r > 0.0 witness 1.0

  datatype Facts = Facts(quality: Option<string>, tooExtended: Option<bool>, bodyQuality: Option<real>,
                         opposing: Option<nat>, age: nat)

  datatype Body =
    | Liquidity(key: Key, lifecycle: Lifecycle, grade: Grade, mtf: nat, touches: nat, created: int, price: Price,
                market: Price, atr: Option<Price>, atrConfirmed: bool, levelFreshness: string,
                marketFreshness: string, atrFreshness: string)
    | Expansion(scanner: bool, name: string, symbol: string, feed: string, timeframe: string, direction: Direction,
                current: Price, facts: Facts)
    | Renko(cycle: Option<string>, stage: Stage, heading: string)

  /** A parsed event. Its id is a digest of the producer's identity for it, and `payload` stands
      for the digest of its whole content. */
  datatype Event = Event(id: string, payload: string, time: int, confirmed: bool, freshness: string, body: Body)
  {
    predicate Story() { body.Expansion? && !body.scanner && confirmed && freshness == "FRESH" }
  }

  // ------------------------------------------------------ distances

  datatype Zone = NearTouch | Near | Far

  datatype DistanceStatus = Unavailable | Crossed | Intersecting | Available

  datatype Distance = Distance(signed: real, absolute: real, ratio: Option<real>, zone: Option<Zone>,
                               status: DistanceStatus, expected: Direction)

  /** `liquidity_distance`. */
  function LiquidityDistance(side: Side, level: Price, market: Price, atr: Option<Price>, inputsFresh: bool): Distance {
    var signed := if side == Ask then level - market else market - level;
    var absolute := if signed < 0.0 then -signed else signed;
    var expected := if side == Ask then Up else Down;
    if !inputsFresh || atr.None? then Distance(signed, absolute, None, None, Unavailable, expected)
    else
      var ratio := Some(absolute / atr.value);
      if signed < 0.0 then Distance(signed, absolute, ratio, None, Crossed, expected)
      else if signed == 0.0 then Distance(signed, absolute, ratio, None, Intersecting, expected)
      else
        var zone :=
          if absolute * 4.0 <= atr.value then NearTouch else if absolute * 2.0 <= atr.value then Near else Far;
        Distance(signed, absolute, ratio, Some(zone), Available, expected)
  }

  // ------------------------------------------------------ state

  datatype Level = Level(key: Key, price: Price, created: int, grade: Grade, mtf: nat, touches: nat,
                         lifecycle: Lifecycle, confirmed: bool, freshness: string, lastEvent: string,
                         observed: int, distance: Distance)

  datatype Movement = Rise | Fall | Flat

  datatype PricePoint = PricePoint(event: string, time: int, price: Price, delta: Option<real>, percent: Option<real>,
                                   movement: Option<Movement>)

  datatype Reason = StoryReset | LevelEnded(lifecycle: Lifecycle)

  /** One entry of the tracked-level history. */
  datatype Change =
    | Selected(key: Key, choice: Level, source: string, at: int)
    | Released(key: Key, reason: Reason, source: string, at: int)

  datatype Tracked = Tracked(key: Key, choice: Level, at: int)

  datatype Market = Market(
    levels: seq<Level>, prices: seq<PricePoint>, liquidity: seq<Event>, expansions: seq<Event>, scanners: seq<Event>,
    renko: seq<Event>, tracked: Option<Tracked>, changes: seq<Change>, cycle: Option<string>, stages: set<Stage>,
    prior: Option<Direction>)

  const EMPTY_MARKET := Market([], [], [], [], [], [], None, [], None, {}, None)

  datatype Failure = EventIdConflict | InvalidTransition(before: Lifecycle, after: Lifecycle) | ScannerConflict

  predicate Active(l: Lifecycle) { l in {Idle, Approach, Hit} }

  predicate Terminal(l: Lifecycle) { l in {Reject, Break, Invalidated, Expired, Removed, Stale, SourceUnavailable} }

  /** `_valid_lifecycle_transition`. */
  predicate ValidTransition(before: Lifecycle, after: Lifecycle) {
    before == after ||
    match before
    case Idle => after in {Approach, Hit, Break, Invalidated}
    case Approach => after in {Hit, Break, Invalidated}
    case Hit => after in {Reject, Break, Invalidated}
    case _ => false
  }

  function SideFor(d: Direction): Side { if d.Up? then Ask else Bid }

  // ------------------------------------------------------ levels, in insertion order

  function Find(levels: seq<Level>, key: Key): Option<Level> {
    if levels == [] then None
    else if levels[|levels| - 1].key == key then Some(levels[|levels| - 1])
    else Find(levels[..|levels| - 1], key)
  }

  /** Store a level at its key: in the key's place if it has one, else at the end. */
  function Put(levels: seq<Level>, level: Level): seq<Level> {
    if levels == [] then [level]
    else if levels[|levels| - 1].key == level.key then levels[..|levels| - 1] + [level]
    else Put(levels[..|levels| - 1], level) + [levels[|levels| - 1]]
  }

  // ------------------------------------------------------ selection

  function ZoneRank(z: Zone): nat { match z case NearTouch => 0 case Near => 1 case Far => 2 }

  predicate Rankable(l: Level) {
    l.grade != Weak && l.distance.status.Available? && l.distance.zone.Some? && l.distance.ratio.Some?
  }

  /** The order of `_selection_sort_key`. It leaves the version out, so levels can tie. */
  predicate Better(a: Level, b: Level)
    requires Rankable(a) && Rankable(b)
  {
    var za, zb := ZoneRank(a.distance.zone.value), ZoneRank(b.distance.zone.value);
    var ra, rb := a.distance.ratio.value, b.distance.ratio.value;
    if za != zb then za < zb
    else if a.grade != b.grade then a.grade.Prime?
    else if a.mtf != b.mtf then a.mtf > b.mtf
    else if ra != rb then ra < rb
    else if a.touches != b.touches then a.touches < b.touches
    else if a.created != b.created then a.created > b.created
    else Below(a.key.id.digest, b.key.id.digest)
  }

  predicate Candidate(l: Level, side: Side) {
    l.key.id.side == side && Rankable(l) && Active(l.lifecycle) && l.confirmed && l.freshness == "FRESH"
  }

  /** The first of the stably sorted candidates. */
  function Best(levels: seq<Level>, side: Side): (best: Option<Level>)
    ensures best.Some? ==> Candidate(best.value, side)
  {
    if levels == [] then None
    else
      var last, best := levels[|levels| - 1], Best(levels[..|levels| - 1], side);
      if Candidate(last, side) && (best.None? || Better(last, best.value)) then Some(last) else best
  }

  // ------------------------------------------------------ one event

  function MovementOf(delta: real): Movement { if delta > 0.0 then Rise else if delta < 0.0 then Fall else Flat }

  function NextPrice(prices: seq<PricePoint>, e: Event, price: Price): PricePoint {
    if prices == [] then PricePoint(e.id, e.time, price, None, None, None)
    else
      var before := prices[|prices| - 1].price;
      var delta := price - before;
      PricePoint(e.id, e.time, price, Some(delta), Some(delta * 100.0 / before), Some(MovementOf(delta)))
  }

  function WithPrice(m: Market, e: Event): Market {
    match e.body
    case Liquidity(_, _, _, _, _, _, _, market, _, _, _, _, _) => m.(prices := m.prices + [NextPrice(m.prices, e, market)])
    case Expansion(_, _, _, _, _, _, market, _) => m.(prices := m.prices + [NextPrice(m.prices, e, market)])
    case Renko(_, _, _) => m
  }

  function Release(m: Market, reason: Reason, e: Event): Market
    requires m.tracked.Some?
  {
    m.(tracked := None, changes := m.changes + [Released(m.tracked.value.key, reason, e.id, e.time)])
  }

  /** A directional expansion; one that turns the confirmed story drops the tracked level. */
  function OnExpansion(m: Market, e: Event): Market
    requires e.body.Expansion?
  {
    var told := m.(expansions := m.expansions + [e]);
    if !e.Story() then told
    else
      var turned := m.prior.Some? && m.prior.value != e.body.direction;
      (if turned && m.tracked.Some? then Release(told, StoryReset, e) else told).(prior := Some(e.body.direction))
  }

  predicate InputsFresh(e: Event)
    requires e.body.Liquidity?
  {
    e.confirmed && e.body.levelFreshness == "FRESH" && e.body.marketFreshness == "FRESH" &&
    e.body.atrFreshness == "FRESH" && e.body.atrConfirmed
  }

  function LevelOf(e: Event): Level
    requires e.body.Liquidity?
  {
    var b := e.body;
    Level(b.key, b.price, b.created, b.grade, b.mtf, b.touches, b.lifecycle, e.confirmed, b.levelFreshness, e.id, e.time,
          LiquidityDistance(b.key.id.side, b.price, b.market, b.atr, InputsFresh(e)))
  }

  function OnLiquidity(m: Market, e: Event): Result<Market, Failure>
    requires e.body.Liquidity?
  {
    var before := Find(m.levels, e.body.key);
    if before.Some? && !ValidTransition(before.value.lifecycle, e.body.lifecycle)
    then Err(InvalidTransition(before.value.lifecycle, e.body.lifecycle))
    else
      var put := m.(levels := Put(m.levels, LevelOf(e)), liquidity := m.liquidity + [e]);
      if m.tracked.Some? && m.tracked.value.key == e.body.key && Terminal(e.body.lifecycle)
      then Ok(Release(put, LevelEnded(e.body.lifecycle), e))
      else Ok(put)
  }

  function OnRenko(m: Market, e: Event): Market
    requires e.body.Renko?
  {
    var b := e.body;
    var kept := if b.cycle.Some? && m.cycle.Some? && b.cycle != m.cycle then {} else m.stages;
    var stages :=
      if b.stage.Reset? || b.stage.StageInvalidated? then {}
      else if e.confirmed && e.freshness == "FRESH" then kept + {b.stage} else kept;
    m.(renko := m.renko + [e], stages := stages, cycle := if b.cycle.Some? then b.cycle else m.cycle)
  }

  /** The last confirmed, fresh, directional expansion. */
  function Story(expansions: seq<Event>): (story: Option<Event>)
    ensures story.Some? ==> story.value.Story()
  {
    if expansions == [] then None
    else if expansions[|expansions| - 1].Story() then Some(expansions[|expansions| - 1])
    else Story(expansions[..|expansions| - 1])
  }

  /** With nothing tracked, track the best candidate on the story's side unless it is far. */
  function Select(m: Market, e: Event): Market {
    if m.tracked.Some? || Story(m.expansions).None? then m
    else
      var best := Best(m.levels, SideFor(Story(m.expansions).value.body.direction));
      if best.None? || best.value.distance.zone == Some(Far) then m
      else
        m.(tracked := Some(Tracked(best.value.key, best.value, e.time)),
           changes := m.changes + [Selected(best.value.key, best.value, e.id, e.time)])
  }

  function Apply(m: Market, e: Event): Result<Market, Failure> {
    var priced := WithPrice(m, e);
    match e.body
    case Expansion(true, _, _, _, _, _, _, _) => Ok(priced.(scanners := priced.scanners + [e]))
    case Expansion(false, _, _, _, _, _, _, _) => Ok(Select(OnExpansion(priced, e), e))
    case Liquidity(_, _, _, _, _, _, _, _, _, _, _, _, _) =>
      (match OnLiquidity(priced, e) case Ok(next) => Ok(Select(next, e)) case Err(f) => Err(f))
    case Renko(_, _, _) => Ok(Select(OnRenko(priced, e), e))
  }

  function Replay(events: seq<Event>): Result<Market, Failure> {
    if events == [] then Ok(EMPTY_MARKET)
    else
      match Replay(events[..|events| - 1])
      case Ok(m) => Apply(m, events[|events| - 1])
      case Err(f) => Err(f)
  }

  // ------------------------------------------------------ scanner evidence

  datatype Correlation = Correlation(symbol: string, feed: string, timeframe: string, time: int, direction: Direction)

  function CorrelationOf(e: Event): Correlation
    requires e.body.Expansion?
  {
    Correlation(e.body.symbol, e.body.feed, e.body.timeframe, e.time, e.body.direction)
  }

  /** The directional expansions a scanner event could be about. */
  function Matches(expansions: seq<Event>, key: Correlation): seq<Event> {
    if expansions == [] then []
    else
      var last := expansions[|expansions| - 1];
      Matches(expansions[..|expansions| - 1], key) +
      if last.body.Expansion? && CorrelationOf(last) == key then [last] else []
  }

  datatype Quality = Quality(scanner: string, paired: Option<string>, key: Correlation, name: string, facts: Facts)

  function QualityOf(scanner: Event, expansions: seq<Event>): Quality
    requires scanner.body.Expansion?
  {
    var matches := Matches(expansions, CorrelationOf(scanner));
    Quality(scanner.id, if |matches| == 1 then Some(matches[0].id) else None, CorrelationOf(scanner),
            scanner.body.name, scanner.body.facts)
  }

  /** Two scanner events of one kind about one bar that disagree. */
  predicate Conflict(a: Event, b: Event) {
    a.body.Expansion? && b.body.Expansion? && CorrelationOf(a) == CorrelationOf(b) && a.body.name == b.body.name &&
    a.body.facts != b.body.facts
  }

  predicate Conflicted(scanners: seq<Event>) {
    exists i, j :: 0 <= i < j < |scanners| && Conflict(scanners[i], scanners[j])
  }

  function Qualities(scanners: seq<Event>, expansions: seq<Event>): seq<Quality> {
    if scanners == [] then []
    else
      Qualities(scanners[..|scanners| - 1], expansions) +
      if scanners[|scanners| - 1].body.Expansion? then [QualityOf(scanners[|scanners| - 1], expansions)] else []
  }

  // ------------------------------------------------------ the whole rebuild

  predicate Earlier(a: Event, b: Event) { a.time < b.time || (a.time == b.time && Below(a.id, b.id)) }

  function Insert(e: Event, sorted: seq<Event>): seq<Event> {
    if sorted == [] || Earlier(e, sorted[0]) then [e] + sorted else [sorted[0]] + Insert(e, sorted[1..])
  }

  /** The events by time, then id. */
  function Sorted(events: seq<Event>): seq<Event> {
    if events == [] then [] else Insert(events[|events| - 1], Sorted(events[..|events| - 1]))
  }

  // ------------------------------------------------------ what is shown beside

  datatype Family = LiquidityFamily | ExpansionFamily | QualityFamily | RenkoFamily

  function Observed(m: Market, family: Family): seq<Event> {
    match family
    case LiquidityFamily => m.liquidity
    case ExpansionFamily => m.expansions
    case QualityFamily => m.scanners
    case RenkoFamily => m.renko
  }

  const FAMILIES: set<Family> := {LiquidityFamily, ExpansionFamily, QualityFamily, RenkoFamily}

  /** The latest observation of each family that has one. */
  function CurrentOf(m: Market): map<Family, Event> {
    map family | family in FAMILIES && |Observed(m, family)| > 0 ::
      Observed(m, family)[|Observed(m, family)| - 1]
  }

  /** The one before it. */
  function PreviousOf(m: Market): map<Family, Event> {
    map family | family in FAMILIES && |Observed(m, family)| > 1 ::
      Observed(m, family)[|Observed(m, family)| - 2]
  }

  const RANKED := [E1, E2, Main, Fire]

  function Ranked(stages: set<Stage>, n: nat): seq<Stage>
    requires n <= 4
  {
    if n == 0 then [] else Ranked(stages, n - 1) + if RANKED[n - 1] in stages then [RANKED[n - 1]] else []
  }

  datatype RenkoState = RenkoState(cycle: Option<string>, maturity: Option<Stage>, confirmed: seq<Stage>,
                                   stage: Option<Stage>, heading: string, latestConfirmed: bool, freshness: string,
                                   event: Option<string>)

  function RenkoStateOf(m: Market): RenkoState {
    var confirmed := Ranked(m.stages, 4);
    var maturity := if confirmed == [] then None else Some(confirmed[|confirmed| - 1]);
    if m.renko == [] || !m.renko[|m.renko| - 1].body.Renko? then
      RenkoState(m.cycle, maturity, confirmed, None, "NONE", false, "MISSING", None)
    else
      var latest := m.renko[|m.renko| - 1];
      RenkoState(m.cycle, maturity, confirmed, Some(latest.body.stage), latest.body.heading, latest.confirmed,
                 latest.freshness, Some(latest.id))
  }

  /** Every other field that a rebuild sets. */
  datatype View = View(ordered: seq<Event>, market: Market, qualities: seq<Quality>)

  function RebuildSorted(ordered: seq<Event>): Result<View, Failure> {
    match Replay(ordered)
    case Err(f) => Err(f)
    case Ok(m) =>
      if Conflicted(m.scanners) then Err(ScannerConflict)
      else Ok(View(ordered, m, Qualities(m.scanners, m.expansions)))
  }

  function Rebuild(events: seq<Event>): Result<View, Failure> { RebuildSorted(Sorted(events)) }
}
