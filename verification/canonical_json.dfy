/**
 The canonical JSON printer (contracts/validation.py, `canonical_json`) and the strict
 reader of wire documents (contracts/event_v1.py, `_strict_json_object`).
 String escapes are those of section 7 of RFC 8259, numbers those of section 6.
 */
module CanonicalJson {
  import opened Outcomes
  import opened DecimalText

  /** A Python JSON value: an object is a map, so member order is not part of the value. */
  datatype Json =
    | Null
    | Bool(b: bool)
    | Int(n: int)
    | Dec(d: Decimal)
    | Str(s: string)
    | Arr(items: seq<Json>)
    | Obj(fields: map<string, Json>)

  datatype ReadError = Invalid | DuplicateKey | NonFinite | NotAnObject

  // ------------------------------------------------- code-point key order

  predicate Below(a: string, b: string) {
    if b == "" then false
    else if a == "" then true
    else a[0] < b[0] || (a[0] == b[0] && Below(a[1..], b[1..]))
  }

  lemma {:induction false} BelowTotal(a: string, b: string)
    ensures Below(a, b) || a == b || Below(b, a)
    ensures !(Below(a, b) && Below(b, a)) && !Below(a, a)
  {
    if a != "" && b != "" {
      BelowTotal(a[1..], b[1..]);
      assert a == [a[0]] + a[1..] && b == [b[0]] + b[1..];
    }
    if a != "" { BelowTotal(a[1..], a[1..]); }
  }

  lemma {:induction false} BelowTransitive(a: string, b: string, c: string)
    requires Below(a, b) && Below(b, c)
    ensures Below(a, c)
  {
    if a != "" && a[0] == b[0] == c[0] { BelowTransitive(a[1..], b[1..], c[1..]); }
  }

  predicate IsLeast(k: string, s: set<string>) { k in s && forall j | j in s :: j == k || Below(k, j) }

  lemma {:induction false} LeastExists(s: set<string>)
    requires s != {}
    ensures exists k :: IsLeast(k, s)
    decreases |s|
  {
    var x :| x in s;
    if s == {x} {
      assert IsLeast(x, s);
    } else {
      var rest := s - {x};
      LeastExists(rest);
      var k :| IsLeast(k, rest);
      BelowTotal(x, k);
      if Below(x, k) {
        forall j | j in s ensures j == x || Below(x, j) {
          if j in rest && j != k { BelowTransitive(x, k, j); }
        }
        assert IsLeast(x, s);
      } else {
        assert IsLeast(k, s);
      }
    }
  }

  lemma LeastUnique(s: set<string>, k: string, l: string)
    requires IsLeast(k, s) && IsLeast(l, s)
    ensures k == l
  {
    BelowTotal(k, l);
  }

  /** `sorted(value)` over the keys of a mapping. */
  function SortedKeys(s: set<string>): (keys: seq<string>)
    ensures forall k :: k in keys <==> k in s
    ensures |keys| == |s|
    decreases |s|
  {
    if s == {} then []
    else
      LeastExists(s);
      assert forall k, l | IsLeast(k, s) && IsLeast(l, s) :: k == l by {
        forall k, l | IsLeast(k, s) && IsLeast(l, s) ensures k == l { LeastUnique(s, k, l); }
      }
      var k :| IsLeast(k, s);
      [k] + SortedKeys(s - {k})
  }

  // -------------------------------------------------------------- printing

  function HexDigit(n: nat): char
    requires n < 16
  {
    if n < 10 then DigitChar(n) else 'a' + (n - 10) as char
  }

  function EscapeChar(c: char): string {
    if c == '"' then "\\\""
    else if c == '\\' then "\\\\"
    else if c == '\n' then "\\n"
    else if c == '\r' then "\\r"
    else if c == '\t' then "\\t"
    else if c as int == 8 then "\\b"
    else if c as int == 12 then "\\f"
    else if c < ' ' then "\\u00" + [HexDigit(c as int / 16), HexDigit(c as int % 16)]
    else [c]
  }

  function Escape(s: string): string {
    if s == "" then "" else EscapeChar(s[0]) + Escape(s[1..])
  }

  /** `json.dumps(value, ensure_ascii=False)` for a string. */
  function Quote(s: string): (t: string)
    ensures |t| >= 2 && t[0] == '"'
  {
    "\"" + Escape(s) + "\""
  }

  function Render(v: Json): Result<string, NumberError>
    decreases v
  {
    match v
    case Null => Ok("null")
    case Bool(b) => Ok(if b then "true" else "false")
    case Int(n) => RenderInt(n)
    case Dec(d) => RenderDecimal(d)
    case Str(s) => Ok(Quote(s))
    case Arr(items) =>
      (match RenderItems(items)
       case Err(e) => Err(e)
       case Ok(t) => Ok("[" + t + "]"))
    case Obj(fields) =>
      match RenderMembers(v, SortedKeys(fields.Keys))
      case Err(e) => Err(e)
      case Ok(t) => Ok("{" + t + "}")
  }

  /** `",".join(render(item) for item in value)`; the first refusal wins. */
  function RenderItems(items: seq<Json>): Result<string, NumberError>
    decreases items
  {
    if items == [] then Ok("")
    else
      match Render(items[0])
      case Err(e) => Err(e)
      case Ok(first) =>
        if |items| == 1 then Ok(first)
        else
          match RenderItems(items[1..])
          case Err(e) => Err(e)
          case Ok(rest) => Ok(first + ("," + rest))
  }

  function RenderMembers(v: Json, keys: seq<string>): Result<string, NumberError>
    requires v.Obj? && forall k | k in keys :: k in v.fields
    decreases v, |keys|
  {
    if keys == [] then Ok("")
    else
      match Render(v.fields[keys[0]])
      case Err(e) => Err(e)
      case Ok(first) =>
        var member := Quote(keys[0]) + (":" + first);
        if |keys| == 1 then Ok(member)
        else
          match RenderMembers(v, keys[1..])
          case Err(e) => Err(e)
          case Ok(rest) => Ok(member + ("," + rest))
  }

  // --------------------------------------------------------------- reading

  predicate IsSpace(c: char) { c in " \t\n\r" }

  function SkipSpace(t: string): (r: string)
    ensures |r| <= |t|
    ensures r == "" || !IsSpace(r[0])
  {
    if t != "" && IsSpace(t[0]) then SkipSpace(t[1..]) else t
  }

  function HexValue(c: char): Option<nat> {
    if IsDigit(c) then Some(DigitValue(c))
    else if 'a' <= c <= 'f' then Some(10 + (c as int - 'a' as int))
    else if 'A' <= c <= 'F' then Some(10 + (c as int - 'A' as int))
    else None
  }

  function Hex4(t: string): (r: Option<nat>)
    ensures r.Some? ==> |t| >= 4 && r.value < 0x1_0000
  {
    if |t| < 4 || HexValue(t[0]).None? || HexValue(t[1]).None? || HexValue(t[2]).None? || HexValue(t[3]).None?
    then None
    else
      HexInRange(t[0]); HexInRange(t[1]); HexInRange(t[2]); HexInRange(t[3]);
      Some(4096 * HexValue(t[0]).value + 256 * HexValue(t[1]).value + 16 * HexValue(t[2]).value
           + HexValue(t[3]).value)
  }

  lemma HexInRange(c: char)
    ensures HexValue(c).Some? ==> HexValue(c).value < 16
  {
  }

  /** What follows `\u`: one scalar value, or a surrogate pair joined. A lone surrogate has
      no place in a sequence of characters and is refused. */
  function ReadUnicodeEscape(t: string): (r: Result<(char, string), ReadError>)
    ensures r.Ok? ==> |r.value.1| < |t|
  {
    match Hex4(t)
    case None => Err(Invalid)
    case Some(n) =>
      if n < 0xD800 || 0xE000 <= n then Ok((n as char, t[4..]))
      else if n < 0xDC00 && |t| >= 6 && t[4] == '\\' && t[5] == 'u' then
        match Hex4(t[6..])
        case None => Err(Invalid)
        case Some(m) =>
          if 0xDC00 <= m < 0xE000 then
            Ok(((0x1_0000 + 1024 * (n - 0xD800) + (m - 0xDC00)) as char, t[10..]))
          else Err(Invalid)
      else Err(Invalid)
  }

  function ReadEscape(t: string): (r: Result<(char, string), ReadError>)
    ensures r.Ok? ==> |r.value.1| < |t|
  {
    if t == "" then Err(Invalid)
    else if t[0] == 'u' then ReadUnicodeEscape(t[1..])
    else if t[0] == '"' || t[0] == '\\' || t[0] == '/' then Ok((t[0], t[1..]))
    else if t[0] == 'n' then Ok(('\n', t[1..]))
    else if t[0] == 'r' then Ok(('\r', t[1..]))
    else if t[0] == 't' then Ok(('\t', t[1..]))
    else if t[0] == 'b' then Ok((8 as char, t[1..]))
    else if t[0] == 'f' then Ok((12 as char, t[1..]))
    else Err(Invalid)
  }

  /** The rest of a string after its opening quote. */
  function ReadString(t: string): (r: Result<(string, string), ReadError>)
    ensures r.Ok? ==> |r.value.1| < |t|
    decreases |t|
  {
    if t == "" then Err(Invalid)
    else if t[0] == '"' then Ok(("", t[1..]))
    else if t[0] == '\\' then
      match ReadEscape(t[1..])
      case Err(e) => Err(e)
      case Ok(step) =>
        (match ReadString(step.1)
         case Err(e) => Err(e)
         case Ok(tail) => Ok(([step.0] + tail.0, tail.1)))
    else if t[0] < ' ' then Err(Invalid)
    else
      match ReadString(t[1..])
      case Err(e) => Err(e)
      case Ok(tail) => Ok(([t[0]] + tail.0, tail.1))
  }

  predicate StartsWith(t: string, word: string) { |word| <= |t| && t[..|word|] == word }

  function ReadValue(t: string): (r: Result<(Json, string), ReadError>)
    ensures r.Ok? ==> |r.value.1| < |t|
    decreases |t|, 0
  {
    if t == "" then Err(Invalid)
    else if t[0] == '"' then
      match ReadString(t[1..])
      case Err(e) => Err(e)
      case Ok(s) => Ok((Str(s.0), s.1))
    else if t[0] == '{' then
      var body := SkipSpace(t[1..]);
      if body != "" && body[0] == '}' then Ok((Obj(map[]), body[1..]))
      else
        match ReadMembers(body)
        case Err(e) => Err(e)
        case Ok(ms) =>
          (match FromPairs(ms.0)
           case Err(e) => Err(e)
           case Ok(fields) => Ok((Obj(fields), ms.1)))
    else if t[0] == '[' then
      var body := SkipSpace(t[1..]);
      if body != "" && body[0] == ']' then Ok((Arr([]), body[1..]))
      else
        match ReadItems(body)
        case Err(e) => Err(e)
        case Ok(items) => Ok((Arr(items.0), items.1))
    else if StartsWith(t, "null") then Ok((Null, t[4..]))
    else if StartsWith(t, "true") then Ok((Bool(true), t[4..]))
    else if StartsWith(t, "false") then Ok((Bool(false), t[5..]))
    else
      match ReadNumber(t)
      case Some(n) => Ok((Dec(n.0), n.1))
      case None =>
        if StartsWith(t, "NaN") || StartsWith(t, "Infinity") || StartsWith(t, "-Infinity")
        then Err(NonFinite) else Err(Invalid)
  }

  /** One or more values separated by commas, through the closing bracket. */
  function ReadItems(t: string): (r: Result<(seq<Json>, string), ReadError>)
    ensures r.Ok? ==> |r.value.1| < |t|
    decreases |t|, 1
  {
    match ReadValue(t)
    case Err(e) => Err(e)
    case Ok(first) =>
      var after := SkipSpace(first.1);
      if after == "" then Err(Invalid)
      else if after[0] == ']' then Ok(([first.0], after[1..]))
      else if after[0] != ',' then Err(Invalid)
      else
        match ReadItems(SkipSpace(after[1..]))
        case Err(e) => Err(e)
        case Ok(rest) => Ok(([first.0] + rest.0, rest.1))
  }

  /** One or more `"key": value` pairs, through the closing brace. */
  function ReadMembers(t: string): (r: Result<(seq<(string, Json)>, string), ReadError>)
    ensures r.Ok? ==> |r.value.1| < |t|
    decreases |t|, 1
  {
    if t == "" || t[0] != '"' then Err(Invalid)
    else
      match ReadString(t[1..])
      case Err(e) => Err(e)
      case Ok(key) =>
        var colon := SkipSpace(key.1);
        if colon == "" || colon[0] != ':' then Err(Invalid)
        else
          match ReadValue(SkipSpace(colon[1..]))
          case Err(e) => Err(e)
          case Ok(value) =>
            var after := SkipSpace(value.1);
            if after == "" then Err(Invalid)
            else if after[0] == '}' then Ok(([(key.0, value.0)], after[1..]))
            else if after[0] != ',' then Err(Invalid)
            else
              match ReadMembers(SkipSpace(after[1..]))
              case Err(e) => Err(e)
              case Ok(rest) => Ok(([(key.0, value.0)] + rest.0, rest.1))
  }

  /** `object_pairs_hook`: a repeated key refuses the document. */
  function FromPairs(pairs: seq<(string, Json)>): Result<map<string, Json>, ReadError> {
    if pairs == [] then Ok(map[])
    else
      match FromPairs(pairs[..|pairs| - 1])
      case Err(e) => Err(e)
      case Ok(fields) =>
        var (key, value) := pairs[|pairs| - 1];
        if key in fields then Err(DuplicateKey) else Ok(fields[key := value])
  }

  /** `_strict_json_object` on decoded text. */
  function ReadDocument(t: string): Result<Json, ReadError> {
    match ReadValue(SkipSpace(t))
    case Err(e) => Err(e)
    case Ok(v) =>
      if SkipSpace(v.1) != "" then Err(Invalid)
      else if !v.0.Obj? then Err(NotAnObject)
      else Ok(v.0)
  }

  // ------------------------------------------------------------ round trip

  /** The value with every number in lowest terms: two values have the same form exactly
      when they are equal up to numeric equality (DecimalText.SameNumberIff). */
  function NumericForm(v: Json): Json
    decreases v
  {
    match v
    case Int(n) => Dec(LowestTerms(IntAsDecimal(n)))
    case Dec(d) => Dec(LowestTerms(d))
    case Arr(items) => Arr(FormItems(items))
    case Obj(fields) => Obj(map k | k in fields :: NumericForm(fields[k]))
    case _ => v
  }

  function FormItems(items: seq<Json>): (r: seq<Json>)
    ensures |r| == |items| && forall i | 0 <= i < |items| :: r[i] == NumericForm(items[i])
    decreases items
  {
    if items == [] then [] else [NumericForm(items[0])] + FormItems(items[1..])
  }

  /** The value the strict reader makes of a printed value: every number as its text spells it. */
  function Reread(v: Json): Json
    decreases v
  {
    match v
    case Int(n) => Dec(RereadNumber(LowestTerms(IntAsDecimal(n))))
    case Dec(d) => Dec(RereadNumber(LowestTerms(d)))
    case Arr(items) => Arr(RereadItems(items))
    case Obj(fields) => Obj(map k | k in fields :: Reread(fields[k]))
    case _ => v
  }

  function RereadItems(items: seq<Json>): (r: seq<Json>)
    ensures |r| == |items| && forall i | 0 <= i < |items| :: r[i] == Reread(items[i])
    decreases items
  {
    if items == [] then [] else [Reread(items[0])] + RereadItems(items[1..])
  }

  lemma RereadNumberForm(d: Decimal)
    ensures LowestTerms(RereadNumber(LowestTerms(d))) == LowestTerms(d)
  {
    var l := LowestTerms(d);
    LowestTermsShape(d);
    assert "" + NumberText(l) == NumberText(l) + "";
    hide ReadNumber;
    ReadNumberText(l, "");
  }

  /** Reading printed text changes no number. */
  lemma {:induction false} RereadForm(v: Json)
    ensures NumericForm(Reread(v)) == NumericForm(v)
    decreases v
  {
    match v
    case Int(n) => RereadNumberForm(IntAsDecimal(n));
    case Dec(d) => RereadNumberForm(d);
    case Arr(items) =>
      forall i | 0 <= i < |items| { RereadForm(items[i]); }
      assert FormItems(RereadItems(items)) == FormItems(items);
    case Obj(fields) =>
      forall k | k in fields { RereadForm(fields[k]); }
      SameMemberForms(Reread(v).fields, fields);
    case _ =>
  }

  lemma EscapeCharRead(c: char, tail: string)
    ensures EscapeChar(c) != ""
    ensures EscapeChar(c)[0] != '"'
    ensures (EscapeChar(c) == [c] && c != '\\' && c >= ' ') ||
            (EscapeChar(c)[0] == '\\' && ReadEscape(EscapeChar(c)[1..] + tail) == Ok((c, tail)))
  {
    var t := EscapeChar(c)[1..] + tail;
    if c != '"' && c != '\\' && c != '\n' && c != '\r' && c != '\t' && c as int != 8 && c as int != 12 && c < ' ' {
      var high, low := HexDigit(c as int / 16), HexDigit(c as int % 16);
      assert t == "u00" + [high, low] + tail;
      assert t[1..] == "00" + [high, low] + tail;
      HexOfDigit(c as int / 16);
      HexOfDigit(c as int % 16);
      assert Hex4(t[1..]) == Some(c as int);
      assert t[1..][4..] == tail;
    } else if c == '"' || c == '\\' || c == '\n' || c == '\r' || c == '\t' || c as int == 8 || c as int == 12 {
      assert t[1..] == tail;
    }
  }

  lemma HexOfDigit(n: nat)
    requires n < 16
    ensures HexValue(HexDigit(n)) == Some(n)
  {
  }

  /** One printed character in front of a text that reads on. */
  lemma ReadOneEscaped(c: char, tail: string, read: string, rest: string)
    requires ReadString(tail) == Ok((read, rest))
    ensures ReadString(EscapeChar(c) + tail) == Ok(([c] + read, rest))
  {
    EscapeCharRead(c, tail);
    var t := EscapeChar(c) + tail;
    assert t[1..] == EscapeChar(c)[1..] + tail;
    assert EscapeChar(c) == [c] ==> t[1..] == tail;
    hide ReadEscape;
    hide EscapeChar;
  }

  lemma Concat(a: string, b: string, c: string)
    ensures (a + b) + c == a + (b + c)
  {
  }

  lemma EscapeCons(s: string)
    requires s != ""
    ensures Escape(s) == EscapeChar(s[0]) + Escape(s[1..]) && s == [s[0]] + s[1..]
  {
    hide EscapeChar;
  }

  lemma EmptyString(rest: string)
    ensures ReadString(Escape("") + ("\"" + rest)) == Ok(("", rest))
  {
    assert "" + ("\"" + rest) == "\"" + rest;
    assert ("\"" + rest)[1..] == rest;
  }

  lemma {:induction false} ReadEscaped(s: string, rest: string)
    ensures ReadString(Escape(s) + ("\"" + rest)) == Ok((s, rest))
  {
    hide ReadString;
    hide EscapeChar;
    if s == "" {
      EmptyString(rest);
    } else {
      EscapeCons(s);
      hide Escape;
      ReadEscaped(s[1..], rest);
      var tail := Escape(s[1..]) + ("\"" + rest);
      ReadOneEscaped(s[0], tail, s[1..], rest);
      Concat(EscapeChar(s[0]), Escape(s[1..]), "\"" + rest);
    }
  }

  lemma NumberStart(lowest: Decimal)
    requires IsLowest(lowest)
    ensures var t := NumberText(lowest); t != "" && (IsDigit(t[0]) || t[0] == '-')
  {
    if lowest.coef != 0 {
      var ds := Digits(lowest.coef);
      assert PlaceDigits(ds, lowest.exp) != "" && IsDigit(PlaceDigits(ds, lowest.exp)[0]);
    }
  }

  /** The number a value holds, if it is one. */
  function NumberOf(v: Json): Decimal
    requires v.Int? || v.Dec?
  {
    if v.Int? then IntAsDecimal(v.n) else v.d
  }

  lemma RenderedNumber(v: Json)
    requires v.Int? || v.Dec?
    requires Render(v).Ok?
    ensures Render(v).value == NumberText(LowestTerms(NumberOf(v)))
    ensures IsLowest(LowestTerms(NumberOf(v)))
  {
    LowestTermsShape(NumberOf(v));
    if v.Int? { RenderIntText(v.n); } else { RenderDecimalText(v.d); }
  }

  lemma NumberRenderedStart(v: Json)
    requires Render(v).Ok? && (v.Int? || v.Dec?)
    ensures var t := Render(v).value; t != "" && (IsDigit(t[0]) || t[0] == '-')
  {
    hide Render;
    hide NumberText;
    hide LowestTerms;
    RenderedNumber(v);
    NumberStart(LowestTerms(NumberOf(v)));
  }

  /** Printed values start with a character that is no space, comma or closing bracket. */
  lemma RenderedStart(v: Json)
    requires Render(v).Ok?
    ensures var t := Render(v).value; t != "" && !IsSpace(t[0]) && t[0] !in ",]}:"
    ensures v.Int? || v.Dec? ==> IsDigit(Render(v).value[0]) || Render(v).value[0] == '-'
  {
    if v.Int? || v.Dec? {
      NumberRenderedStart(v);
      hide Render;
    } else {
      hide RenderItems;
      hide RenderMembers;
      hide Escape;
      hide SortedKeys;
    }
  }

  lemma ReadValueNumber(t: string, d: Decimal, rest: string)
    requires t != "" && (IsDigit(t[0]) || t[0] == '-') && ReadNumber(t) == Some((d, rest))
    ensures ReadValue(t) == Ok((Dec(d), rest))
  {
    hide ReadNumber;
  }

  lemma ReadRenderedNumber(v: Json, rest: string)
    requires v.Int? || v.Dec?
    requires Render(v).Ok? && EndsNumber(rest)
    ensures ReadValue(Render(v).value + rest) == Ok((Reread(v), rest))
  {
    RereadOfNumber(v);
    hide NumberText;
    hide ReadNumber;
    hide ReadValue;
    hide Render;
    hide Reread;
    hide RereadNumber;
    RenderedNumber(v);
    var lowest := LowestTerms(NumberOf(v));
    var text := NumberText(lowest);
    NumberStart(lowest);
    ReadNumberText(lowest, rest);
    assert (text + rest)[0] == text[0];
    ReadValueNumber(text + rest, RereadNumber(lowest), rest);
  }

  lemma RereadOfNumber(v: Json)
    requires v.Int? || v.Dec?
    ensures Reread(v) == Dec(RereadNumber(LowestTerms(NumberOf(v))))
  {
    hide RereadNumber;
    hide LowestTerms;
  }

  lemma ReadRenderedScalar(v: Json, rest: string)
    requires v.Null? || v.Bool? || v.Str?
    requires Render(v).Ok?
    ensures ReadValue(Render(v).value + rest) == Ok((v, rest))
  {
    hide ReadNumber;
    hide ReadItems;
    hide ReadMembers;
    hide Escape;
    var t := Render(v).value + rest;
    match v
    case Null => assert t[..4] == "null" && t[4..] == rest;
    case Bool(b) =>
      assert b ==> t[..4] == "true" && t[4..] == rest;
      assert !b ==> t[..5] == "false" && t[5..] == rest;
    case Str(s) =>
      ReadEscaped(s, rest);
      hide ReadString;
      assert t[0] == '"' && t[1..] == Escape(s) + ("\"" + rest);
  }

  /** Reading what was printed gives back the value as its text spells it, which is the printed
      value up to numeric equality. */
  lemma {:induction false} ReadRendered(v: Json, rest: string)
    requires Render(v).Ok? && EndsNumber(rest)
    ensures ReadValue(Render(v).value + rest) == Ok((Reread(v), rest))
    ensures NumericForm(Reread(v)) == NumericForm(v)
    decreases v, 2
  {
    RereadForm(v);
    hide Render;
    hide ReadValue;
    hide NumericForm;
    match v
    case Int(_) => ReadRenderedNumber(v, rest);
    case Dec(_) => ReadRenderedNumber(v, rest);
    case Arr(_) => ReadRenderedArray(v, rest);
    case Obj(_) => ReadRenderedObject(v, rest);
    case _ => ReadRenderedScalar(v, rest);
  }

  lemma ReadValueArray(t: string, items: seq<Json>, rest: string)
    requires |t| > 1 && t[0] == '[' && !IsSpace(t[1]) && t[1] != ']'
    requires ReadItems(t[1..]) == Ok((items, rest))
    ensures ReadValue(t) == Ok((Arr(items), rest))
  {
    hide ReadItems;
  }

  lemma ArrayText(v: Json, rest: string) returns (body: string)
    requires v.Arr? && Render(v).Ok?
    ensures RenderItems(v.items).Ok? && body == RenderItems(v.items).value + ("]" + rest)
    ensures body != "" && Render(v).value + rest == "[" + body
    ensures v.items == [] ==> body == "]" + rest
    ensures v.items != [] ==> !IsSpace(body[0]) && body[0] != ']'
  {
    body := RenderItems(v.items).value + ("]" + rest);
    if v.items != [] { RenderedStart(v.items[0]); }
  }

  lemma ReadEmpty(open: string, close: string, rest: string)
    requires (open == "[" && close == "]") || (open == "{" && close == "}")
    ensures ReadValue(open + (close + rest)) == Ok((if open == "[" then Arr([]) else Obj(map[]), rest))
  {
    var t := open + (close + rest);
    assert t[1..] == close + rest && (close + rest)[1..] == rest;
  }

  lemma ReadRenderedArray(v: Json, rest: string)
    requires v.Arr? && Render(v).Ok? && EndsNumber(rest)
    ensures ReadValue(Render(v).value + rest) == Ok((Reread(v), rest))
    decreases v, 1
  {
    var body := ArrayText(v, rest);
    hide ReadValue;
    hide ReadItems;
    hide Render;
    hide RenderItems;
    if v.items == [] {
      ReadEmpty("[", "]", rest);
    } else {
      assert ("[" + body)[1..] == body;
      ReadRenderedItems(v.items, rest);
      ReadValueArray("[" + body, RereadItems(v.items), rest);
    }
  }

  lemma ItemsLast(t: string, value: Json, rest: string)
    requires ReadValue(t) == Ok((value, "]" + rest))
    ensures ReadItems(t) == Ok(([value], rest))
  {
    hide ReadValue;
    assert ("]" + rest)[1..] == rest;
  }

  lemma ItemsMore(t: string, value: Json, more: string, items: seq<Json>, rest: string)
    requires ReadValue(t) == Ok((value, "," + more)) && more != "" && !IsSpace(more[0])
    requires ReadItems(more) == Ok((items, rest))
    ensures ReadItems(t) == Ok(([value] + items, rest))
  {
    hide ReadValue;
    assert ("," + more)[1..] == more;
    assert SkipSpace(more) == more;
  }

  lemma RereadCons(item: Json, items: seq<Json>)
    ensures RereadItems([item] + items) == [Reread(item)] + RereadItems(items)
  {
    hide Reread;
    assert ([item] + items)[1..] == items;
  }

  lemma ItemsStart(items: seq<Json>)
    requires items != [] && RenderItems(items).Ok?
    ensures var text := RenderItems(items).value; text != "" && !IsSpace(text[0])
  {
    hide Render;
    hide IsSpace;
    RenderedStart(items[0]);
  }

  lemma ItemsText(items: seq<Json>, rest: string)
    requires |items| > 1 && RenderItems(items).Ok?
    ensures Render(items[0]).Ok? && RenderItems(items[1..]).Ok?
    ensures var more := RenderItems(items[1..]).value + ("]" + rest);
            RenderItems(items).value + ("]" + rest) == Render(items[0]).value + ("," + more) &&
            more != "" && !IsSpace(more[0])
  {
    hide Render;
    hide IsSpace;
    var first, others := Render(items[0]).value, RenderItems(items[1..]).value;
    assert RenderItems(items).value == first + ("," + others);
    ItemsStart(items[1..]);
    hide RenderItems;
    Concat(first, "," + others, "]" + rest);
    Concat(",", others, "]" + rest);
  }

  lemma {:induction false} ReadRenderedItems(items: seq<Json>, rest: string)
    requires items != [] && RenderItems(items).Ok?
    ensures ReadItems(RenderItems(items).value + ("]" + rest)) == Ok((RereadItems(items), rest))
    decreases items
  {
    hide Render;
    hide ReadValue;
    hide Reread;
    hide RereadItems;
    assert items == [items[0]] + items[1..];
    RereadCons(items[0], items[1..]);
    if |items| == 1 {
      var text := RenderItems(items).value + ("]" + rest);
      ReadRendered(items[0], "]" + rest);
      ItemsLast(text, Reread(items[0]), rest);
      assert items[1..] == [] && [Reread(items[0])] + [] == [Reread(items[0])];
    } else {
      ItemsText(items, rest);
      var more := RenderItems(items[1..]).value + ("]" + rest);
      ReadRendered(items[0], "," + more);
      ReadRenderedItems(items[1..], rest);
      var text := RenderItems(items).value + ("]" + rest);
      hide RenderItems;
      hide IsSpace;
      ItemsMore(text, Reread(items[0]), more, RereadItems(items[1..]), rest);
      hide ReadItems;
    }
  }

  predicate Distinct(keys: seq<string>) {
    forall i, j | 0 <= i < j < |keys| :: keys[i] != keys[j]
  }

  lemma {:induction false} SortedKeysDistinct(s: set<string>)
    ensures Distinct(SortedKeys(s))
    decreases |s|
  {
    if s != {} {
      var keys := SortedKeys(s);
      SortedKeysDistinct(s - {keys[0]});
      assert keys[1..] == SortedKeys(s - {keys[0]});
      hide SortedKeys;
      forall i, j | 0 <= i < j < |keys| ensures keys[i] != keys[j] {
        assert keys[j] == keys[1..][j - 1];
        if i > 0 { assert keys[i] == keys[1..][i - 1]; }
      }
    }
  }

  /** The pairs read back carry the keys in order and the values as their text spells them. */
  predicate PairsMatch(pairs: seq<(string, Json)>, keys: seq<string>, v: Json)
    requires v.Obj? && forall k | k in keys :: k in v.fields
  {
    |pairs| == |keys| &&
    forall i | 0 <= i < |keys| :: pairs[i] == (keys[i], Reread(v.fields[keys[i]]))
  }

  lemma PairsCons(pair: (string, Json), pairs: seq<(string, Json)>, keys: seq<string>, v: Json)
    requires v.Obj? && (forall k | k in keys :: k in v.fields) && keys != []
    requires pair == (keys[0], Reread(v.fields[keys[0]]))
    requires if |keys| == 1 then pairs == [] else PairsMatch(pairs, keys[1..], v)
    ensures PairsMatch([pair] + pairs, keys, v)
    ensures pairs == [] ==> [pair] + pairs == [pair]
  {
    hide Reread;
    forall i | 0 < i < |keys| ensures ([pair] + pairs)[i] == (keys[i], Reread(v.fields[keys[i]])) {
      assert keys[i] == keys[1..][i - 1];
    }
  }

  lemma {:induction false} PairsBuildMap(pairs: seq<(string, Json)>, keys: seq<string>)
    requires |pairs| == |keys| && Distinct(keys)
    requires forall i | 0 <= i < |keys| :: pairs[i].0 == keys[i]
    ensures FromPairs(pairs).Ok?
    ensures forall k :: k in FromPairs(pairs).value <==> k in keys
    ensures forall i | 0 <= i < |keys| :: FromPairs(pairs).value[keys[i]] == pairs[i].1
  {
    if pairs != [] {
      var n := |pairs| - 1;
      var front := keys[..n];
      PairsBuildMap(pairs[..n], front);
      assert keys[n] !in front;
      assert keys == front + [keys[n]];
      assert FromPairs(pairs).value == FromPairs(pairs[..n]).value[keys[n] := pairs[n].1];
      forall i | 0 <= i < |keys| ensures FromPairs(pairs).value[keys[i]] == pairs[i].1 {
        if i < n { assert front[i] == keys[i] && pairs[..n][i] == pairs[i]; }
      }
    }
  }

  lemma ReadValueObject(t: string, pairs: seq<(string, Json)>, fields: map<string, Json>, rest: string)
    requires |t| > 1 && t[0] == '{' && t[1] == '"'
    requires ReadMembers(t[1..]) == Ok((pairs, rest)) && FromPairs(pairs) == Ok(fields)
    ensures ReadValue(t) == Ok((Obj(fields), rest))
  {
    hide ReadMembers;
    hide FromPairs;
  }

  lemma ObjectText(v: Json, rest: string) returns (keys: seq<string>, body: string)
    requires v.Obj? && Render(v).Ok?
    ensures keys == SortedKeys(v.fields.Keys) && RenderMembers(v, keys).Ok?
    ensures body == RenderMembers(v, keys).value + ("}" + rest)
    ensures body != "" && Render(v).value + rest == "{" + body
    ensures keys == [] ==> body == "}" + rest && v.fields == map[]
    ensures keys != [] ==> body[0] == '"'
  {
    keys := SortedKeys(v.fields.Keys);
    hide SortedKeys;
    MembersStart(v, keys);
    hide RenderMembers;
    var text := RenderMembers(v, keys).value;
    body := text + ("}" + rest);
    assert ("{" + text + "}") + rest == "{" + body;
    assert keys == [] ==> v.fields.Keys == {};
  }

  lemma MembersStart(v: Json, keys: seq<string>)
    requires v.Obj? && (forall k | k in keys :: k in v.fields)
    requires RenderMembers(v, keys).Ok?
    ensures keys == [] ==> RenderMembers(v, keys).value == ""
    ensures keys != [] ==> RenderMembers(v, keys).value != "" && RenderMembers(v, keys).value[0] == '"'
  {
    hide Quote;
    hide Render;
    if keys != [] { assert RenderMembers(v, keys).value[0] == Quote(keys[0])[0]; }
  }

  lemma ReadRenderedObject(v: Json, rest: string)
    requires v.Obj? && Render(v).Ok? && EndsNumber(rest)
    ensures ReadValue(Render(v).value + rest) == Ok((Reread(v), rest))
    decreases v, 1, 0
  {
    var keys, body := ObjectText(v, rest);
    hide Render;
    hide ReadValue;
    hide ReadMembers;
    hide RenderMembers;
    hide SortedKeys;
    hide FromPairs;
    if keys == [] {
      ReadEmpty("{", "}", rest);
      assert Reread(v).fields == map[];
    } else {
      ReadRenderedMembers(v, keys, rest);
      SortedKeysDistinct(v.fields.Keys);
      var pairs := ReadMembers(body).value.0;
      PairsBuildMap(pairs, keys);
      var fields := FromPairs(pairs).value;
      MatchingPairs(v, keys, pairs, fields);
      assert ("{" + body)[1..] == body;
      ReadValueObject("{" + body, pairs, fields, rest);
    }
  }

  lemma MatchingPairs(v: Json, keys: seq<string>, pairs: seq<(string, Json)>, fields: map<string, Json>)
    requires v.Obj? && (forall k :: k in keys <==> k in v.fields)
    requires PairsMatch(pairs, keys, v)
    requires forall k :: k in fields <==> k in keys
    requires forall i | 0 <= i < |keys| :: fields[keys[i]] == pairs[i].1
    ensures Obj(fields) == Reread(v)
  {
    assert forall k :: k in fields <==> k in v.fields;
    forall k | k in fields ensures fields[k] == Reread(v.fields[k]) {
      hide Reread;
      var i :| 0 <= i < |keys| && keys[i] == k;
      assert fields[keys[i]] == pairs[i].1;
    }
    assert fields == Reread(v).fields;
  }

  lemma SameMemberForms(a: map<string, Json>, b: map<string, Json>)
    requires forall k :: k in a <==> k in b
    requires forall k | k in a :: NumericForm(a[k]) == NumericForm(b[k])
    ensures NumericForm(Obj(a)) == NumericForm(Obj(b))
  {
    assert a.Keys == b.Keys;
  }

  lemma {:induction false} ReadRenderedMembers(v: Json, keys: seq<string>, rest: string)
    requires v.Obj? && (forall k | k in keys :: k in v.fields)
    requires keys != [] && RenderMembers(v, keys).Ok?
    ensures var r := ReadMembers(RenderMembers(v, keys).value + ("}" + rest));
            r.Ok? && r.value.1 == rest && PairsMatch(r.value.0, keys, v)
    decreases v, 0, |keys|
  {
    var value := v.fields[keys[0]];
    var last := |keys| == 1;
    var text := RenderMembers(v, keys).value + ("}" + rest);
    var first, more := MembersText(v, keys, rest);
    var after := (if last then "}" else ",") + more;
    var colon := ":" + (first + after);
    ReadMember(keys[0], first, after);
    hide ReadValue;
    hide ReadMembers;
    hide ReadString;
    hide Render;
    hide RenderMembers;
    hide Quote;
    hide SkipSpace;
    hide NumericForm;
    hide IsSpace;
    hide PairsMatch;
    ReadRendered(value, after);
    var read := Reread(value);
    hide Reread;
    if last {
      MembersLast(text, keys[0], colon, read, rest);
      PairsCons((keys[0], read), [], keys, v);
    } else {
      ReadRenderedMembers(v, keys[1..], rest);
      var pairs := ReadMembers(more).value.0;
      MembersMore(text, keys[0], colon, read, more, pairs, rest);
      PairsCons((keys[0], read), pairs, keys, v);
    }
  }

  lemma MembersText(v: Json, keys: seq<string>, rest: string) returns (first: string, more: string)
    requires v.Obj? && (forall k | k in keys :: k in v.fields)
    requires keys != [] && RenderMembers(v, keys).Ok?
    ensures Render(v.fields[keys[0]]) == Ok(first) && first != "" && !IsSpace(first[0])
    ensures |keys| > 1 ==> RenderMembers(v, keys[1..]).Ok?
    ensures more == if |keys| == 1 then rest else RenderMembers(v, keys[1..]).value + ("}" + rest)
    ensures |keys| > 1 ==> more != "" && more[0] == '"'
    ensures RenderMembers(v, keys).value + ("}" + rest) ==
            Quote(keys[0]) + (":" + (first + ((if |keys| == 1 then "}" else ",") + more)))
  {
    first := Render(v.fields[keys[0]]).value;
    RenderedStart(v.fields[keys[0]]);
    hide Render;
    hide Quote;
    if |keys| == 1 {
      more := rest;
      Associate(Quote(keys[0]), ":" + first, "", "}" + rest, first);
    } else {
      MembersStart(v, keys[1..]);
      var tail := RenderMembers(v, keys[1..]).value;
      assert RenderMembers(v, keys).value == (Quote(keys[0]) + (":" + first)) + ("," + tail);
      hide RenderMembers;
      more := tail + ("}" + rest);
      Associate(Quote(keys[0]), ":" + first, "," + tail, "}" + rest, first);
      assert ("," + tail) + ("}" + rest) == "," + more;
    }
  }

  lemma Associate(key: string, value: string, tail: string, end: string, first: string)
    requires value == ":" + first
    ensures ((key + value) + tail) + end == key + (":" + (first + (tail + end)))
    ensures (key + value) + end == key + (":" + (first + end))
  {
  }

  lemma MembersLast(t: string, key: string, colon: string, value: Json, rest: string)
    requires t != "" && t[0] == '"' && ReadString(t[1..]) == Ok((key, colon))
    requires colon != "" && colon[0] == ':' && SkipSpace(colon) == colon
    requires ReadValue(SkipSpace(colon[1..])) == Ok((value, "}" + rest))
    ensures ReadMembers(t) == Ok(([(key, value)], rest))
  {
    hide ReadString;
    hide ReadValue;
    assert ("}" + rest)[1..] == rest;
  }

  lemma MembersMore(t: string, key: string, colon: string, value: Json, more: string,
                    pairs: seq<(string, Json)>, rest: string)
    requires t != "" && t[0] == '"' && ReadString(t[1..]) == Ok((key, colon))
    requires colon != "" && colon[0] == ':' && SkipSpace(colon) == colon
    requires ReadValue(SkipSpace(colon[1..])) == Ok((value, "," + more))
    requires more != "" && more[0] == '"' && ReadMembers(more) == Ok((pairs, rest))
    ensures ReadMembers(t) == Ok(([(key, value)] + pairs, rest))
  {
    hide ReadString;
    hide ReadValue;
    assert ("," + more)[1..] == more;
  }

  /** The reader passes a quoted key and its colon and reaches the value. */
  lemma ReadMember(key: string, first: string, after: string)
    requires first != "" && !IsSpace(first[0])
    ensures var t := Quote(key) + (":" + (first + after));
            t != "" && t[0] == '"' &&
            ReadString(t[1..]) == Ok((key, ":" + (first + after))) &&
            SkipSpace(":" + (first + after)) == ":" + (first + after) &&
            (":" + (first + after))[1..] == first + after &&
            SkipSpace(first + after) == first + after
  {
    var tail := ":" + (first + after);
    ReadEscaped(key, tail);
    assert (Quote(key) + tail)[1..] == Escape(key) + ("\"" + tail);
    assert (first + after)[0] == first[0];
  }

  /** The strict reader accepts every printed document and gives back the printed value,
      up to numeric equality. */
  lemma DocumentRoundTrip(v: Json)
    requires v.Obj? && Render(v).Ok?
    ensures ReadDocument(Render(v).value) == Ok(Reread(v)) && NumericForm(Reread(v)) == NumericForm(v)
  {
    var t := Render(v).value;
    RenderedStart(v);
    assert t + "" == t;
    hide Render;
    hide ReadValue;
    ReadRendered(v, "");
  }

  lemma SameFormFields(a: Json, b: Json)
    requires a.Obj? && NumericForm(a) == NumericForm(b)
    ensures b.Obj? && a.fields.Keys == b.fields.Keys
    ensures forall k | k in a.fields :: NumericForm(a.fields[k]) == NumericForm(b.fields[k])
  {
    var fa, fb := NumericForm(a).fields, NumericForm(b).fields;
    assert fa.Keys == a.fields.Keys && fb.Keys == b.fields.Keys;
    forall k | k in a.fields ensures NumericForm(a.fields[k]) == NumericForm(b.fields[k]) {
      assert fa[k] == fb[k];
    }
  }

  /** The text depends only on the value up to numeric equality. */
  lemma {:induction false} SameFormSameText(a: Json, b: Json)
    requires NumericForm(a) == NumericForm(b) && Render(a).Ok? && Render(b).Ok?
    ensures Render(a) == Render(b)
    decreases a
  {
    match a
    case Arr(items) => SameFormSameItems(items, b.items);
    case Obj(fields) =>
      SameFormFields(a, b);
      SameFormSameMembers(a, b, SortedKeys(fields.Keys));
    case Int(_) => RenderedNumber(a); RenderedNumber(b);
    case Dec(_) => RenderedNumber(a); RenderedNumber(b);
    case _ =>
  }

  lemma {:induction false} SameFormSameItems(a: seq<Json>, b: seq<Json>)
    requires FormItems(a) == FormItems(b) && RenderItems(a).Ok? && RenderItems(b).Ok?
    ensures RenderItems(a) == RenderItems(b)
    decreases a
  {
    if a != [] {
      assert |a| == |FormItems(a)| == |FormItems(b)| == |b|;
      assert FormItems(a)[0] == FormItems(b)[0];
      SameFormSameText(a[0], b[0]);
      if |a| > 1 {
        assert FormItems(a[1..]) == FormItems(a)[1..] && FormItems(b[1..]) == FormItems(b)[1..];
        hide NumericForm;
        SameFormSameItems(a[1..], b[1..]);
      }
    }
  }

  lemma {:induction false} SameFormSameMembers(a: Json, b: Json, keys: seq<string>)
    requires a.Obj? && b.Obj? && (forall k | k in keys :: k in a.fields && k in b.fields)
    requires forall k | k in keys :: NumericForm(a.fields[k]) == NumericForm(b.fields[k])
    requires RenderMembers(a, keys).Ok? && RenderMembers(b, keys).Ok?
    ensures RenderMembers(a, keys) == RenderMembers(b, keys)
    decreases a, |keys|
  {
    hide NumericForm;
    if keys != [] {
      SameFormSameText(a.fields[keys[0]], b.fields[keys[0]]);
      if |keys| > 1 { SameFormSameMembers(a, b, keys[1..]); }
    }
  }

  /** Two accepted documents print alike exactly when they are equal up to numeric equality. */
  lemma SameTextIff(a: Json, b: Json)
    requires Render(a).Ok? && Render(b).Ok?
    ensures Render(a) == Render(b) <==> NumericForm(a) == NumericForm(b)
  {
    hide Render;
    hide NumericForm;
    hide ReadValue;
    ReadRendered(a, "");
    ReadRendered(b, "");
    if NumericForm(a) == NumericForm(b) { SameFormSameText(a, b); }
  }

  // ------------------------------------------------- printing what was read

  lemma ScaleStep(c: nat, k: nat)
    requires c > 0
    ensures c * Pow10(k) > 0
    ensures k == 0 ==> c * Pow10(k) == c
    ensures k > 0 ==> c * Pow10(k) == 10 * (c * Pow10(k - 1))
  {
    CancelFactor(c, 0, Pow10(k));
  }

  lemma {:induction false} DigitsOfScaled(c: nat, k: nat, n: nat)
    requires c > 0 && n == c * Pow10(k)
    ensures n > 0 && Digits(n) == Digits(c) + Zeros(k)
    decreases k
  {
    ScaleStep(c, k);
    hide Pow10;
    if k == 0 {
      assert Digits(c) + Zeros(0) == Digits(c);
    } else {
      DigitsOfScaled(c, k - 1, n / 10);
      DropLastDigit(n);
      assert Zeros(k) == Zeros(k - 1) + "0";
      assert Digits(c) + Zeros(k) == (Digits(c) + Zeros(k - 1)) + "0";
    }
  }

  lemma {:induction false} LowestTermsMagnitude(d: Decimal)
    requires d.coef != 0
    ensures Adjusted(LowestTerms(d)) == Adjusted(d) && d.exp <= LowestTerms(d).exp
    decreases d.coef
  {
    if d.coef % 10 == 0 {
      DropLastDigit(d.coef);
      LowestTermsMagnitude(Decimal(d.neg, d.coef / 10, d.exp + 1));
    }
  }

  /** Printed text is not always a fixed point of reading and printing again. A number with a
      positive exponent is read back as a long whole number, and that is refused once it has
      more than 64 digits: exactly when the number is at least 10^64 in magnitude. */
  lemma RereadAcceptedIff(d: Decimal)
    requires RenderDecimal(d).Ok?
    ensures ReadNumber(RenderDecimal(d).value).Some?
    ensures var again := RenderDecimal(ReadNumber(RenderDecimal(d).value).value.0);
            (again.Ok? <==> d.coef == 0 || Adjusted(d) < MAX_SIGNIFICANT_DIGITS) &&
            (again.Ok? ==> again == RenderDecimal(d))
  {
    var l := LowestTerms(d);
    RenderDecimalText(d);
    LowestTermsShape(d);
    var text := NumberText(l);
    assert text + "" == text;
    hide ReadNumber;
    ReadNumberText(l, "");
    var read := RereadNumber(l);
    if d.coef != 0 {
      LowestTermsMagnitude(d);
      if l.exp >= 0 { RenderReadWhole(l, read); } else { RenderReadFraction(d, l); }
    }
    if RenderDecimal(read).Ok? { RenderDecimalText(read); }
  }

  lemma ProductPositive(a: nat, b: nat)
    requires a > 0 && b > 0
    ensures a * b > 0
  {
  }

  lemma WholeRenders(d: Decimal)
    requires d.coef != 0 && d.exp == 0 && 0 <= Adjusted(d) <= MAX_ABS_EXPONENT
    ensures RenderDecimal(d).Ok? <==> Adjusted(d) < MAX_SIGNIFICANT_DIGITS
  {
    EstimatedLengthIsExact(d);
    hide Digits;
    hide Tidy;
    hide FixedMagnitude;
  }

  lemma RenderReadWhole(l: Decimal, read: Decimal)
    requires l.coef != 0 && l.exp >= 0 && 0 <= Adjusted(l) <= MAX_ABS_EXPONENT
    requires read.coef == l.coef * Pow10(l.exp) && read.exp == 0
    ensures RenderDecimal(read).Ok? <==> Adjusted(l) < MAX_SIGNIFICANT_DIGITS
  {
    hide Digits;
    hide RenderDecimal;
    DigitsOfScaled(l.coef, l.exp, read.coef);
    ProductPositive(l.coef, Pow10(l.exp));
    hide Pow10;
    assert Adjusted(read) == Adjusted(l);
    WholeRenders(read);
  }

  lemma RenderReadFraction(d: Decimal, l: Decimal)
    requires RenderDecimal(d).Ok? && d.coef != 0 && l.coef != 0 && l.neg == d.neg
    requires Adjusted(l) == Adjusted(d) && d.exp <= l.exp < 0
    ensures RenderDecimal(l).Ok? && Adjusted(d) < MAX_SIGNIFICANT_DIGITS
  {
    EstimatedLengthIsExact(l);
    hide Digits;
  }

  /** 1E+64 is accepted and printed, and its printed form is then refused. */
  lemma LargePowerIsNotReread()
    ensures var d := Decimal(false, 1, 64);
            RenderDecimal(d).Ok? &&
            ReadNumber(RenderDecimal(d).value).Some? &&
            RenderDecimal(ReadNumber(RenderDecimal(d).value).value.0).Err?
  {
    var d := Decimal(false, 1, 64);
    assert Digits(1) == "1";
    EstimatedLengthIsExact(d);
    assert RenderDecimal(d).Ok?;
    RereadAcceptedIff(d);
  }
}
