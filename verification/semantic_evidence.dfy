/**
 Identities of a wire event (contracts/event_v1.py): the evidence projection, its
 normalisation, the setup identity and the two content hashes.

 SHA-256 is a free constructor: a hash is its prefix followed by the hashed text, so equal
 hashes mean equal texts. Calendar parsing is a parameter.
 */
module SemanticEvidence {
  import opened Outcomes
  import opened DecimalText
  import opened CanonicalJson

  /** UTC spellings: `parse` accepts a spelling, `show` is the one spelling kept of an instant. */
  datatype Calendar = Calendar(parse: string -> Option<int>, show: int -> string)

  /** The kept spelling names the same instant. */
  ghost predicate Sound(cal: Calendar) {
    forall s: string | cal.parse(s).Some? :: cal.parse(cal.show(cal.parse(s).value)) == cal.parse(s)
  }

  const TIMESTAMP_KEYS: set<string> := {"bar_close", "evidence_time", "started_at", "ended_at", "effective_at"}

  const TOP_LEVEL_KEYS: set<string> := {"event_class", "event_type", "path", "hypothesis"}

  const PROJECTION_KEYS: set<string> :=
    {"projection_version", "setup_id", "event_class", "event_type", "path", "hypothesis", "snr", "hpa",
     "momentum", "rejection", "break", "invalidation", "expiry", "entry_window", "trigger", "geometry"}

  const SETUP_KEYS: set<string> := {"symbol", "aoi_id", "snr_identity", "hypothesis", "setup_origin"}

  function Sha256(text: string): string { "sha256:" + text }

  /** A member of an object; the schema makes every member read here present. */
  function Field(v: Json, key: string): Json {
    if v.Obj? && key in v.fields then v.fields[key] else Null
  }

  // ---------------------------------------------------------- setup identity

  /** Python's `bool(value)`. */
  predicate Truthy(v: Json) {
    match v
    case Null => false
    case Bool(b) => b
    case Int(n) => n != 0
    case Dec(d) => d.coef != 0
    case Str(s) => s != ""
    case Arr(items) => items != []
    case Obj(fields) => fields != map[]
  }

  function SetupInput(doc: Json, key: string): Json {
    if key == "symbol" then Field(doc, "symbol")
    else if key == "aoi_id" then Field(Field(doc, "setup_origin"), "aoi_id")
    else if key == "snr_identity" then Field(Field(Field(doc, "evidence"), "snr"), "identity")
    else if key == "hypothesis" then Field(doc, "hypothesis")
    else Field(Field(doc, "setup_origin"), "origin_id")
  }

  predicate HasSetup(doc: Json) {
    var origin := Field(doc, "setup_origin");
    var snr := Field(Field(doc, "evidence"), "snr");
    origin.Obj? && snr.Obj? && !Field(doc, "hypothesis").Null? &&
    Truthy(Field(origin, "origin_id")) && Truthy(Field(origin, "aoi_id")) && Truthy(Field(snr, "identity"))
  }

  function SetupInputs(doc: Json): Json { Obj(map k | k in SETUP_KEYS :: SetupInput(doc, k)) }

  /** `_stable_setup_id`. */
  function SetupId(doc: Json): Option<string> {
    if !HasSetup(doc) then None
    else
      match Render(SetupInputs(doc))
      case Ok(text) => Some("setup_" + text)
      case Err(_) => None
  }

  // -------------------------------------------------------------- projection

  /** `_TIMEFRAME_ORDER[item["timeframe"]]`; the schema admits only these four. */
  function Rank(item: Json): nat {
    var timeframe := Field(item, "timeframe");
    if timeframe == Str("1m") then 0
    else if timeframe == Str("5m") then 1
    else if timeframe == Str("15m") then 2
    else 3
  }

  /** `sorted(items, key=...)`: a stable insertion sort. */
  function SortByTimeframe(items: seq<Json>): seq<Json> {
    if items == [] then [] else Insert(items[0], SortByTimeframe(items[1..]))
  }

  function Insert(item: Json, sorted: seq<Json>): seq<Json> {
    if sorted == [] || Rank(item) <= Rank(sorted[0]) then [item] + sorted
    else [sorted[0]] + Insert(item, sorted[1..])
  }

  /** `_validate_unique_timeframes`. */
  predicate UniqueTimeframes(items: seq<Json>) {
    forall i, j | 0 <= i < j < |items| :: Rank(items[i]) != Rank(items[j])
  }

  function Projected(doc: Json, key: string): Json {
    var evidence := Field(doc, "evidence");
    if key == "projection_version" then Str("project-a-evidence/1.1")
    else if key == "setup_id" then
      (match SetupId(doc) case Some(id) => Str(id) case None => Null)
    else if key in TOP_LEVEL_KEYS then Field(doc, key)
    else if key == "hpa" || key == "momentum" then
      var entries := Field(evidence, key);
      if entries.Arr? then Arr(SortByTimeframe(entries.items)) else entries
    else Field(evidence, key)
  }

  function Projection(doc: Json): Json { Obj(map k | k in PROJECTION_KEYS :: Projected(doc, k)) }

  // ----------------------------------------------------------- normalisation

  /** The spelling kept of a string found under `key`. */
  function KeptText(key: Option<string>, s: string, cal: Calendar): Option<string> {
    if key.Some? && key.value in TIMESTAMP_KEYS then
      match cal.parse(s)
      case Some(instant) => Some(cal.show(instant))
      case None => None
    else Some(s)
  }

  /** No number out of bounds and no unreadable timestamp. */
  predicate Normalizable(v: Json, key: Option<string>, cal: Calendar)
    decreases v
  {
    match v
    case Str(s) => KeptText(key, s, cal).Some?
    case Int(_) => Render(v).Ok?
    case Dec(_) => Render(v).Ok?
    case Arr(items) => forall i | 0 <= i < |items| :: Normalizable(items[i], None, cal)
    case Obj(fields) => forall k | k in fields :: Normalizable(fields[k], Some(k), cal)
    case _ => true
  }

  /** `_normalized_semantic`: numbers become their canonical text, instants their one spelling. */
  function Normalize(v: Json, key: Option<string>, cal: Calendar): Json
    requires Normalizable(v, key, cal)
    decreases v
  {
    match v
    case Str(s) => Str(KeptText(key, s, cal).value)
    case Int(_) => Str(Render(v).value)
    case Dec(_) => Str(Render(v).value)
    case Arr(items) =>
      Arr(seq(|items|, i requires 0 <= i < |items| => Normalize(items[i], None, cal)))
    case Obj(fields) => Obj(map k | k in fields :: Normalize(fields[k], Some(k), cal))
    case _ => v
  }

  /** The same evidence: equal numbers however spelled, equal instants however spelled, and
      otherwise the same value. A number and a string also agree when the string is the
      number's canonical text, because normalisation turns the one into the other. */
  predicate SameEvidence(a: Json, b: Json, key: Option<string>, cal: Calendar)
    decreases a
  {
    match a
    case Str(s) =>
      (b.Str? && (if key.Some? && key.value in TIMESTAMP_KEYS then cal.parse(s) == cal.parse(b.s) else s == b.s)) ||
      ((b.Int? || b.Dec?) && Render(b).Ok? && KeptText(key, s, cal) == Some(Render(b).value))
    case Arr(items) =>
      b.Arr? && |items| == |b.items| &&
      forall i | 0 <= i < |items| :: SameEvidence(items[i], b.items[i], None, cal)
    case Obj(fields) =>
      b.Obj? && fields.Keys == b.fields.Keys &&
      forall k | k in fields :: SameEvidence(fields[k], b.fields[k], Some(k), cal)
    case Null => b.Null?
    case Bool(_) => a == b
    case _ =>
      ((b.Int? || b.Dec?) && SameNumber(NumberOf(a), NumberOf(b))) ||
      (b.Str? && Render(a).Ok? && KeptText(key, b.s, cal) == Some(Render(a).value))
  }

  lemma SameNumberText(a: Json, b: Json)
    requires (a.Int? || a.Dec?) && (b.Int? || b.Dec?) && Render(a).Ok? && Render(b).Ok?
    ensures Render(a) == Render(b) <==> SameNumber(NumberOf(a), NumberOf(b))
  {
    SameTextIff(a, b);
    SameNumberIff(NumberOf(a), NumberOf(b));
  }

  lemma SameSpelling(s: string, t: string, key: Option<string>, cal: Calendar)
    requires Sound(cal) && KeptText(key, s, cal).Some? && KeptText(key, t, cal).Some?
    ensures KeptText(key, s, cal) == KeptText(key, t, cal) <==>
            (if key.Some? && key.value in TIMESTAMP_KEYS then cal.parse(s) == cal.parse(t) else s == t)
  {
  }

  /** Normalisation identifies exactly the values that are the same evidence. */
  lemma {:induction false} NormalizeIff(a: Json, b: Json, key: Option<string>, cal: Calendar)
    requires Sound(cal) && Normalizable(a, key, cal) && Normalizable(b, key, cal)
    ensures Normalize(a, key, cal) == Normalize(b, key, cal) <==> SameEvidence(a, b, key, cal)
    decreases a
  {
    match a
    case Arr(items) =>
      if b.Arr? && |items| == |b.items| {
        forall i | 0 <= i < |items| {
          NormalizeIff(items[i], b.items[i], None, cal);
        }
        NormalizeItems(items, b.items, cal);
      } else if b.Arr? {
        assert |Normalize(a, key, cal).items| == |items| && |Normalize(b, key, cal).items| == |b.items|;
      }
    case Obj(fields) =>
      if b.Obj? && fields.Keys == b.fields.Keys {
        forall k | k in fields {
          NormalizeIff(fields[k], b.fields[k], Some(k), cal);
        }
        NormalizeFields(a, b, key, cal);
      } else if b.Obj? {
        assert Normalize(a, key, cal).fields.Keys == fields.Keys;
        assert Normalize(b, key, cal).fields.Keys == b.fields.Keys;
      }
    case Str(s) => if b.Str? { SameSpelling(s, b.s, key, cal); }
    case Int(_) => if b.Int? || b.Dec? { SameNumberText(a, b); }
    case Dec(_) => if b.Int? || b.Dec? { SameNumberText(a, b); }
    case _ =>
  }

  lemma NormalizeItems(a: seq<Json>, b: seq<Json>, cal: Calendar)
    requires Normalizable(Arr(a), None, cal) && Normalizable(Arr(b), None, cal) && |a| == |b|
    ensures Normalize(Arr(a), None, cal) == Normalize(Arr(b), None, cal) <==>
            forall i | 0 <= i < |a| :: Normalize(a[i], None, cal) == Normalize(b[i], None, cal)
  {
    var na, nb := Normalize(Arr(a), None, cal).items, Normalize(Arr(b), None, cal).items;
    assert forall i | 0 <= i < |a| :: na[i] == Normalize(a[i], None, cal) && nb[i] == Normalize(b[i], None, cal);
    assert na == nb <==> forall i | 0 <= i < |a| :: na[i] == nb[i];
  }

  lemma NormalizeFields(a: Json, b: Json, key: Option<string>, cal: Calendar)
    requires a.Obj? && b.Obj? && a.fields.Keys == b.fields.Keys
    requires Normalizable(a, key, cal) && Normalizable(b, key, cal)
    ensures Normalize(a, key, cal) == Normalize(b, key, cal) <==>
            forall k | k in a.fields :: Normalize(a.fields[k], Some(k), cal) == Normalize(b.fields[k], Some(k), cal)
  {
    var na, nb := Normalize(a, key, cal).fields, Normalize(b, key, cal).fields;
    assert na.Keys == nb.Keys;
    assert na == nb <==> forall k | k in a.fields :: na[k] == nb[k];
  }

  // ----------------------------------------------------------------- hashes

  predicate NumberFree(v: Json)
    decreases v
  {
    match v
    case Int(_) => false
    case Dec(_) => false
    case Arr(items) => forall i | 0 <= i < |items| :: NumberFree(items[i])
    case Obj(fields) => forall k | k in fields :: NumberFree(fields[k])
    case _ => true
  }

  lemma {:induction false} NormalizeNumberFree(v: Json, key: Option<string>, cal: Calendar)
    requires Normalizable(v, key, cal)
    ensures NumberFree(Normalize(v, key, cal))
    decreases v
  {
    match v
    case Arr(items) => forall i | 0 <= i < |items| { NormalizeNumberFree(items[i], None, cal); }
    case Obj(fields) => forall k | k in fields { NormalizeNumberFree(fields[k], Some(k), cal); }
    case _ =>
  }

  lemma {:induction false} ItemsRender(items: seq<Json>)
    ensures RenderItems(items).Ok? <==> forall i | 0 <= i < |items| :: Render(items[i]).Ok?
    decreases items
  {
    hide Render;
    if |items| > 1 {
      ItemsRender(items[1..]);
      assert items == [items[0]] + items[1..];
    }
  }

  lemma {:induction false} MembersRender(v: Json, keys: seq<string>)
    requires v.Obj? && forall k | k in keys :: k in v.fields
    ensures RenderMembers(v, keys).Ok? <==> forall k | k in keys :: Render(v.fields[k]).Ok?
    decreases |keys|
  {
    hide Render;
    if |keys| > 1 {
      MembersRender(v, keys[1..]);
      assert keys == [keys[0]] + keys[1..];
    }
  }

  /** An object prints exactly when all its members do. */
  lemma ObjectRenders(v: Json)
    requires v.Obj?
    ensures Render(v).Ok? <==> forall k | k in v.fields :: Render(v.fields[k]).Ok?
  {
    MembersRender(v, SortedKeys(v.fields.Keys));
  }

  lemma {:induction false} NumberFreeRenders(v: Json)
    requires NumberFree(v)
    ensures Render(v).Ok? && NumericForm(v) == v
    decreases v
  {
    match v
    case Arr(items) =>
      forall i | 0 <= i < |items| { NumberFreeRenders(items[i]); }
      ItemsRender(items);
      assert FormItems(items) == items;
    case Obj(fields) =>
      forall k | k in fields { NumberFreeRenders(fields[k]); }
      ObjectRenders(v);
    case _ =>
  }

  /** What schema and shape validation leave: printable, with readable timestamps and
      distinct timeframes. */
  predicate Identifiable(doc: Json, cal: Calendar) {
    var evidence := Field(doc, "evidence");
    Render(doc).Ok? && Normalizable(Projection(doc), None, cal) &&
    Field(evidence, "hpa").Arr? && UniqueTimeframes(Field(evidence, "hpa").items) &&
    Field(evidence, "momentum").Arr? && UniqueTimeframes(Field(evidence, "momentum").items)
  }

  /** The first component of `_identity_values`. */
  function CanonicalHash(doc: Json): string
    requires Render(doc).Ok?
  {
    Sha256(Render(doc).value)
  }

  function CanonicalEventId(doc: Json): string
    requires Render(doc).Ok?
  {
    "cevt_" + Render(doc).value
  }

  /** The hash of the normalised evidence projection. */
  function SemanticHash(doc: Json, cal: Calendar): string
    requires Identifiable(doc, cal)
  {
    var projection := Normalize(Projection(doc), None, cal);
    NormalizeNumberFree(Projection(doc), None, cal);
    NumberFreeRenders(projection);
    Sha256(Render(projection).value)
  }

  lemma Sha256Injective(a: string, b: string)
    ensures Sha256(a) == Sha256(b) <==> a == b
  {
    assert Sha256(a)[7..] == a && Sha256(b)[7..] == b;
  }

  /** Two events share a semantic evidence hash exactly when their projections are the same
      evidence; in particular equal hashes imply equal normalised projections. */
  lemma SemanticHashIff(a: Json, b: Json, cal: Calendar)
    requires Sound(cal) && Identifiable(a, cal) && Identifiable(b, cal)
    ensures SemanticHash(a, cal) == SemanticHash(b, cal) <==>
            SameEvidence(Projection(a), Projection(b), None, cal)
    ensures SemanticHash(a, cal) == SemanticHash(b, cal) <==>
            Normalize(Projection(a), None, cal) == Normalize(Projection(b), None, cal)
  {
    var pa, pb := Projection(a), Projection(b);
    hide Projection;
    var na, nb := Normalize(pa, None, cal), Normalize(pb, None, cal);
    NormalizeIff(pa, pb, None, cal);
    NormalizeNumberFree(pa, None, cal);
    NormalizeNumberFree(pb, None, cal);
    hide Normalize;
    hide SameEvidence;
    NumberFreeRenders(na);
    NumberFreeRenders(nb);
    hide Render;
    SameTextIff(na, nb);
    Sha256Injective(Render(na).value, Render(nb).value);
  }

  // --------------------------------------------------- reordered evidence

  predicate StrictlySorted(items: seq<Json>) {
    forall i, j | 0 <= i < j < |items| :: Rank(items[i]) < Rank(items[j])
  }

  lemma {:induction false} InsertElements(item: Json, sorted: seq<Json>)
    ensures multiset(Insert(item, sorted)) == multiset(sorted) + multiset{item}
  {
    hide Rank;
    if sorted != [] {
      assert sorted == [sorted[0]] + sorted[1..];
      if Rank(item) > Rank(sorted[0]) {
        InsertElements(item, sorted[1..]);
      }
    }
  }

  /** Everything in the list after an insertion was there before, or is the new item. */
  lemma InsertedFrom(item: Json, sorted: seq<Json>, x: Json)
    requires x in Insert(item, sorted)
    ensures x == item || x in sorted
  {
    InsertElements(item, sorted);
    hide Insert;
    assert x in multiset(Insert(item, sorted));
  }

  lemma {:induction false} InsertKeepsOrder(item: Json, sorted: seq<Json>)
    requires StrictlySorted(sorted) && forall i | 0 <= i < |sorted| :: Rank(sorted[i]) != Rank(item)
    ensures StrictlySorted(Insert(item, sorted))
  {
    hide Rank;
    if sorted != [] && Rank(item) > Rank(sorted[0]) {
      var tail := sorted[1..];
      InsertKeepsOrder(item, tail);
      var rest := Insert(item, tail);
      forall j | 0 <= j < |rest| ensures Rank(sorted[0]) < Rank(rest[j]) {
        InsertedFrom(item, tail, rest[j]);
      }
    }
  }

  lemma InsertSorted(item: Json, sorted: seq<Json>)
    requires StrictlySorted(sorted) && forall i | 0 <= i < |sorted| :: Rank(sorted[i]) != Rank(item)
    ensures StrictlySorted(Insert(item, sorted))
    ensures multiset(Insert(item, sorted)) == multiset(sorted) + multiset{item}
  {
    InsertElements(item, sorted);
    InsertKeepsOrder(item, sorted);
    hide Insert;
    hide StrictlySorted;
  }

  lemma {:induction false} SortSorts(items: seq<Json>)
    requires UniqueTimeframes(items)
    ensures StrictlySorted(SortByTimeframe(items)) && multiset(SortByTimeframe(items)) == multiset(items)
  {
    hide Rank;
    if items != [] {
      var tail := items[1..];
      var sorted := SortByTimeframe(tail);
      SortSorts(tail);
      assert items == [items[0]] + tail;
      forall i | 0 <= i < |sorted| ensures Rank(sorted[i]) != Rank(items[0]) {
        assert sorted[i] in multiset(tail);
        var j :| 0 <= j < |tail| && tail[j] == sorted[i];
        assert items[j + 1] == sorted[i];
      }
      InsertSorted(items[0], sorted);
    }
  }

  lemma HeadAndTail(a: seq<Json>)
    requires a != []
    ensures multiset(a[1..]) == multiset(a) - multiset{a[0]}
    ensures StrictlySorted(a) ==> StrictlySorted(a[1..])
  {
    assert a == [a[0]] + a[1..];
    hide Rank;
  }

  /** The first of a sorted list ranks below every other entry, so it is found first everywhere. */
  lemma SameHead(a: seq<Json>, b: seq<Json>)
    requires StrictlySorted(a) && StrictlySorted(b) && multiset(a) == multiset(b) && a != []
    ensures b != [] && a[0] == b[0]
  {
    hide Rank;
    assert a[0] in multiset(a);
    assert a[0] in b;
    var i :| 0 <= i < |b| && b[i] == a[0];
    assert b[0] in multiset(b);
    assert b[0] in a;
    var j :| 0 <= j < |a| && a[j] == b[0];
  }

  lemma {:induction false} SortedUnique(a: seq<Json>, b: seq<Json>)
    requires StrictlySorted(a) && StrictlySorted(b) && multiset(a) == multiset(b)
    ensures a == b
  {
    if a == [] {
      assert |multiset(b)| == |b|;
    } else {
      SameHead(a, b);
      HeadAndTail(a);
      HeadAndTail(b);
      hide StrictlySorted;
      SortedUnique(a[1..], b[1..]);
      assert a == [a[0]] + a[1..] && b == [b[0]] + b[1..];
    }
  }

  lemma SortIgnoresOrder(a: seq<Json>, b: seq<Json>)
    requires UniqueTimeframes(a) && UniqueTimeframes(b) && multiset(a) == multiset(b)
    ensures SortByTimeframe(a) == SortByTimeframe(b)
  {
    SortSorts(a);
    SortSorts(b);
    SortedUnique(SortByTimeframe(a), SortByTimeframe(b));
  }

  /** b differs from a at most in the order of the entries projected under `key`. */
  predicate SameEntriesReordered(a: Json, b: Json, key: string) {
    var ea, eb := Field(Field(a, "evidence"), key), Field(Field(b, "evidence"), key);
    ea.Arr? && eb.Arr? && UniqueTimeframes(ea.items) && UniqueTimeframes(eb.items) &&
    multiset(ea.items) == multiset(eb.items)
  }

  /** The projection does not see the order of the hpa and momentum entries. */
  lemma ReorderedEvidence(a: Json, b: Json, cal: Calendar)
    requires Identifiable(a, cal) && Identifiable(b, cal)
    requires SameEntriesReordered(a, b, "hpa") && SameEntriesReordered(a, b, "momentum")
    requires forall k | k in PROJECTION_KEYS && k != "hpa" && k != "momentum" :: Projected(a, k) == Projected(b, k)
    ensures SemanticHash(a, cal) == SemanticHash(b, cal)
  {
    hide Projected;
    hide SemanticHash;
    hide Identifiable;
    SameEntries(a, b, "hpa");
    SameEntries(a, b, "momentum");
    SameProjected(a, b);
    SameProjectionSameHash(a, b, cal);
  }

  lemma SameProjected(a: Json, b: Json)
    requires forall k | k in PROJECTION_KEYS :: Projected(a, k) == Projected(b, k)
    ensures Projection(a) == Projection(b)
  {
    hide Projected;
  }

  lemma SameEntries(a: Json, b: Json, key: string)
    requires key == "hpa" || key == "momentum"
    requires SameEntriesReordered(a, b, key)
    ensures Projected(a, key) == Projected(b, key)
  {
    hide Field;
    hide SetupId;
    SortIgnoresOrder(Field(Field(a, "evidence"), key).items, Field(Field(b, "evidence"), key).items);
    hide SortByTimeframe;
  }

  lemma SameProjectionSameHash(a: Json, b: Json, cal: Calendar)
    requires Identifiable(a, cal) && Identifiable(b, cal) && Projection(a) == Projection(b)
    ensures SemanticHash(a, cal) == SemanticHash(b, cal)
  {
    hide Projection;
  }

  const READ_KEYS: set<string> := TOP_LEVEL_KEYS + {"evidence", "setup_origin", "symbol"}

  predicate SameRead(a: Json, b: Json) { forall k | k in READ_KEYS :: Field(a, k) == Field(b, k) }

  lemma SameSetupInput(a: Json, b: Json, key: string)
    requires Field(a, "evidence") == Field(b, "evidence") && Field(a, "setup_origin") == Field(b, "setup_origin")
    requires Field(a, "symbol") == Field(b, "symbol") && Field(a, "hypothesis") == Field(b, "hypothesis")
    ensures SetupInput(a, key) == SetupInput(b, key)
  {
    hide Field;
  }

  lemma SameSetupInputs(a: Json, b: Json)
    requires Field(a, "evidence") == Field(b, "evidence") && Field(a, "setup_origin") == Field(b, "setup_origin")
    requires Field(a, "symbol") == Field(b, "symbol") && Field(a, "hypothesis") == Field(b, "hypothesis")
    ensures SetupInputs(a) == SetupInputs(b) && HasSetup(a) == HasSetup(b)
  {
    hide Field;
    hide Truthy;
    hide SetupInput;
    forall k | k in SETUP_KEYS ensures SetupInput(a, k) == SetupInput(b, k) {
      SameSetupInput(a, b, k);
    }
  }

  lemma SameReadSetup(a: Json, b: Json)
    requires SameRead(a, b)
    ensures SetupId(a) == SetupId(b)
  {
    hide Field;
    assert forall k | k in {"evidence", "setup_origin", "symbol", "hypothesis"} :: k in READ_KEYS;
    SameSetupInputs(a, b);
    hide SetupInputs;
    hide HasSetup;
    hide Render;
  }

  lemma SameReadProjected(a: Json, b: Json, key: string)
    requires SameRead(a, b) && key in PROJECTION_KEYS
    ensures Projected(a, key) == Projected(b, key)
  {
    SameReadSetup(a, b);
    hide SetupId;
    hide Field;
    hide SortByTimeframe;
    assert Field(a, "evidence") == Field(b, "evidence");
    assert key in TOP_LEVEL_KEYS ==> key in READ_KEYS && Field(a, key) == Field(b, key);
  }

  /** Members of the event outside the projection and the setup identity do not matter. */
  lemma OutsideFieldIgnored(doc: Json, key: string, value: Json)
    requires doc.Obj? && key !in READ_KEYS
    ensures Projection(Obj(doc.fields[key := value])) == Projection(doc)
  {
    var other := Obj(doc.fields[key := value]);
    assert SameRead(other, doc);
    hide SameRead;
    hide Projected;
    forall k | k in PROJECTION_KEYS ensures Projected(other, k) == Projected(doc, k) {
      SameReadProjected(other, doc, k);
    }
    SameProjected(other, doc);
  }

  // ------------------------------ equal documents have equal identities

  lemma SameFormField(a: Json, b: Json, key: string)
    requires NumericForm(a) == NumericForm(b)
    ensures NumericForm(Field(a, key)) == NumericForm(Field(b, key))
  {
    if a.Obj? {
      SameFormFields(a, b);
    }
  }

  lemma SameFormTruthy(a: Json, b: Json)
    requires NumericForm(a) == NumericForm(b)
    ensures Truthy(a) == Truthy(b)
  {
    if a.Int? || a.Dec? {
      LowestTermsShape(NumberOf(a));
      LowestTermsShape(NumberOf(b));
    } else if a.Obj? {
      SameFormFields(a, b);
      assert a.fields == map[] <==> a.fields.Keys == {};
      assert b.fields == map[] <==> b.fields.Keys == {};
    } else if a.Arr? {
      assert |FormItems(a.items)| == |FormItems(b.items)|;
    }
  }

  lemma FieldRenders(v: Json, key: string)
    requires Render(v).Ok?
    ensures Render(Field(v, key)).Ok?
  {
    if v.Obj? { ObjectRenders(v); }
  }

  lemma SetupInputRenders(doc: Json, key: string)
    requires Render(doc).Ok?
    ensures Render(SetupInput(doc, key)).Ok?
  {
    hide Render;
    hide Field;
    FieldRenders(doc, "symbol");
    FieldRenders(doc, "hypothesis");
    FieldRenders(doc, "setup_origin");
    FieldRenders(doc, "evidence");
    FieldRenders(Field(doc, "evidence"), "snr");
    FieldRenders(Field(Field(doc, "evidence"), "snr"), "identity");
    FieldRenders(Field(doc, "setup_origin"), "aoi_id");
    FieldRenders(Field(doc, "setup_origin"), "origin_id");
  }

  lemma SetupInputsRender(doc: Json)
    requires Render(doc).Ok?
    ensures Render(SetupInputs(doc)).Ok?
  {
    hide Render;
    hide SetupInput;
    forall k ensures Render(SetupInput(doc, k)).Ok? {
      SetupInputRenders(doc, k);
    }
    ObjectRenders(SetupInputs(doc));
  }

  lemma SameFormSetupInput(a: Json, b: Json, key: string)
    requires NumericForm(a) == NumericForm(b)
    ensures NumericForm(SetupInput(a, key)) == NumericForm(SetupInput(b, key))
  {
    hide NumericForm;
    hide Field;
    SameFormField(a, b, "symbol");
    SameFormField(a, b, "hypothesis");
    SameFormField(a, b, "setup_origin");
    SameFormField(Field(a, "setup_origin"), Field(b, "setup_origin"), "aoi_id");
    SameFormField(Field(a, "setup_origin"), Field(b, "setup_origin"), "origin_id");
    SameFormField(a, b, "evidence");
    SameFormField(Field(a, "evidence"), Field(b, "evidence"), "snr");
    SameFormField(Field(Field(a, "evidence"), "snr"), Field(Field(b, "evidence"), "snr"), "identity");
  }

  lemma SameFormKind(a: Json, b: Json)
    requires NumericForm(a) == NumericForm(b)
    ensures a.Obj? == b.Obj? && a.Null? == b.Null? && a.Arr? == b.Arr?
  {
  }

  lemma SameFormHasSetup(a: Json, b: Json)
    requires NumericForm(a) == NumericForm(b)
    ensures HasSetup(a) == HasSetup(b)
  {
    hide NumericForm;
    hide Truthy;
    hide Field;
    var oa, ob := Field(a, "setup_origin"), Field(b, "setup_origin");
    SameFormField(a, b, "setup_origin");
    SameFormField(a, b, "hypothesis");
    SameFormField(a, b, "evidence");
    SameFormField(Field(a, "evidence"), Field(b, "evidence"), "snr");
    var sa, sb := Field(Field(a, "evidence"), "snr"), Field(Field(b, "evidence"), "snr");
    SameFormKind(oa, ob);
    SameFormKind(sa, sb);
    SameFormKind(Field(a, "hypothesis"), Field(b, "hypothesis"));
    SameFormField(oa, ob, "origin_id");
    SameFormField(oa, ob, "aoi_id");
    SameFormField(sa, sb, "identity");
    SameFormTruthy(Field(oa, "origin_id"), Field(ob, "origin_id"));
    SameFormTruthy(Field(oa, "aoi_id"), Field(ob, "aoi_id"));
    SameFormTruthy(Field(sa, "identity"), Field(sb, "identity"));
  }

  lemma SameFormSetupId(a: Json, b: Json)
    requires NumericForm(a) == NumericForm(b) && Render(a).Ok? && Render(b).Ok?
    ensures SetupId(a) == SetupId(b)
  {
    SameFormHasSetup(a, b);
    SetupInputsRender(a);
    SetupInputsRender(b);
    forall k | k in SETUP_KEYS { SameFormSetupInput(a, b, k); }
    SameMemberForms(SetupInputs(a).fields, SetupInputs(b).fields);
    SameFormSameText(SetupInputs(a), SetupInputs(b));
  }

  lemma RankOfForm(item: Json)
    ensures Rank(NumericForm(item)) == Rank(item)
  {
    var t := Field(item, "timeframe");
    assert Field(NumericForm(item), "timeframe") == NumericForm(t);
  }

  lemma {:induction false} InsertForm(item: Json, sorted: seq<Json>)
    ensures FormItems(Insert(item, sorted)) == Insert(NumericForm(item), FormItems(sorted))
  {
    RankOfForm(item);
    if sorted != [] {
      RankOfForm(sorted[0]);
      hide Rank;
      hide NumericForm;
      InsertForm(item, sorted[1..]);
      assert FormItems(sorted)[1..] == FormItems(sorted[1..]);
      assert ([item] + sorted)[1..] == sorted;
      assert ([sorted[0]] + Insert(item, sorted[1..]))[1..] == Insert(item, sorted[1..]);
    }
  }

  lemma {:induction false} SortForm(items: seq<Json>)
    ensures FormItems(SortByTimeframe(items)) == SortByTimeframe(FormItems(items))
  {
    hide NumericForm;
    if items != [] {
      SortForm(items[1..]);
      InsertForm(items[0], SortByTimeframe(items[1..]));
      assert FormItems(items)[1..] == FormItems(items[1..]);
    }
  }

  lemma SameFormProjected(a: Json, b: Json, key: string)
    requires NumericForm(a) == NumericForm(b) && Render(a).Ok? && Render(b).Ok?
    ensures NumericForm(Projected(a, key)) == NumericForm(Projected(b, key))
  {
    hide Field;
    hide SetupId;
    hide Render;
    SameFormSetupId(a, b);
    SameFormField(a, b, key);
    SameFormField(a, b, "evidence");
    var ea, eb := Field(Field(a, "evidence"), key), Field(Field(b, "evidence"), key);
    SameFormField(Field(a, "evidence"), Field(b, "evidence"), key);
    SameFormSorted(ea, eb);
  }

  lemma SameFormSorted(a: Json, b: Json)
    requires NumericForm(a) == NumericForm(b)
    ensures a.Arr? == b.Arr?
    ensures a.Arr? ==> NumericForm(Arr(SortByTimeframe(a.items))) == NumericForm(Arr(SortByTimeframe(b.items)))
  {
    if a.Arr? {
      SortForm(a.items);
      SortForm(b.items);
    }
  }

  lemma {:induction false} SameFormSameEvidence(a: Json, b: Json, key: Option<string>, cal: Calendar)
    requires NumericForm(a) == NumericForm(b)
    ensures SameEvidence(a, b, key, cal)
    decreases a
  {
    match a
    case Arr(items) =>
      var fa, fb := FormItems(items), FormItems(b.items);
      assert fa == fb;
      forall i | 0 <= i < |items| ensures SameEvidence(items[i], b.items[i], None, cal) {
        assert fa[i] == fb[i];
        SameFormSameEvidence(items[i], b.items[i], None, cal);
      }
    case Obj(fields) =>
      SameFormFields(a, b);
      forall k | k in fields { SameFormSameEvidence(fields[k], b.fields[k], Some(k), cal); }
    case Int(_) => SameNumberIff(NumberOf(a), NumberOf(b));
    case Dec(_) => SameNumberIff(NumberOf(a), NumberOf(b));
    case _ =>
  }

  /** One canonical hash fixes the whole identity: setup, evidence hash and event class. Hence
      an exact duplicate is always a semantic duplicate. */
  lemma CanonicalHashFixesIdentity(a: Json, b: Json, cal: Calendar)
    requires Sound(cal) && Identifiable(a, cal) && Identifiable(b, cal)
    requires CanonicalHash(a) == CanonicalHash(b)
    ensures SemanticHash(a, cal) == SemanticHash(b, cal) && SetupId(a) == SetupId(b)
    ensures forall s, k :: Field(a, k) == Str(s) <==> Field(b, k) == Str(s)
  {
    hide Render;
    hide NumericForm;
    hide SameEvidence;
    hide Normalizable;
    hide SetupId;
    Sha256Injective(Render(a).value, Render(b).value);
    SameTextIff(a, b);
    SameFormSetupId(a, b);
    forall k | k in PROJECTION_KEYS { SameFormProjected(a, b, k); }
    SameMemberForms(Projection(a).fields, Projection(b).fields);
    SameFormSameEvidence(Projection(a), Projection(b), None, cal);
    SemanticHashIff(a, b, cal);
    forall s, k ensures Field(a, k) == Str(s) <==> Field(b, k) == Str(s) {
      SameFormField(a, b, k);
      SameFormString(Field(a, k), Field(b, k), s);
    }
  }

  lemma SameFormString(a: Json, b: Json, s: string)
    requires NumericForm(a) == NumericForm(b)
    ensures a == Str(s) <==> b == Str(s)
  {
  }

  /** Normalisation does conflate a number with its text: under one key, 1 and "1". */
  lemma NumberAndTextCoincide(cal: Calendar)
    ensures var n, t := Dec(Decimal(false, 1, 0)), Str("1");
            Normalizable(n, None, cal) && Normalizable(t, None, cal) &&
            Normalize(n, None, cal) == Normalize(t, None, cal) && NumericForm(n) != NumericForm(t)
  {
    TextOfOne();
    hide RenderDecimal;
    assert NumericForm(Dec(Decimal(false, 1, 0))).Dec?;
  }

  lemma TextOfOne()
    ensures RenderDecimal(Decimal(false, 1, 0)) == Ok("1")
  {
    var d := Decimal(false, 1, 0);
    assert Digits(1) == "1";
    assert FixedText(d) == "1";
    EstimatedLengthIsExact(d);
  }
}
