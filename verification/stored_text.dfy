/**
 Text that was printed by `canonical_json`, stored, and read again by plain `json.loads`
 (project_a_analysis/store.py, project_a_ai_review/audit.py): which values print the same again,
 which texts stay on one line, and that no part of a printed object is read as a whole document.
 */
module StoredText {
  import opened Outcomes
  import opened DecimalText
  import opened CanonicalJson

  // ------------------------------------------------------ plain reading

  /** The shortest decimal of the double nearest to a number: what `repr(float(text))` spells. */
  type Nearest = Decimal -> Decimal

  /** Shortest decimals of doubles are within the bounds of the printer. */
  ghost predicate Doubles(nearest: Nearest) {
    forall l: Decimal | IsLowest(l) && l.exp < 0 && RenderDecimal(l).Ok? :: RenderDecimal(nearest(l)).Ok?
  }

  function Signed(d: Decimal): int { if d.neg then 0 - d.coef else d.coef }

  /** A parsed document as `json.loads` gives it: digits alone become an int, any other number a
      float. */
  function Loaded(v: Json, nearest: Nearest): Json
    decreases v
  {
    match v
    case Dec(d) => if d.exp == 0 then Int(Signed(d)) else Dec(nearest(d))
    case Arr(items) => Arr(LoadedItems(items, nearest))
    case Obj(fields) => Obj(map k | k in fields :: Loaded(fields[k], nearest))
    case _ => v
  }

  function LoadedItems(items: seq<Json>, nearest: Nearest): (r: seq<Json>)
    ensures |r| == |items| && forall i | 0 <= i < |items| :: r[i] == Loaded(items[i], nearest)
    decreases items
  {
    if items == [] then [] else [Loaded(items[0], nearest)] + LoadedItems(items[1..], nearest)
  }

  /** `json.loads`; nothing when it raises. */
  function Loads(text: string, nearest: Nearest): Option<Json> {
    match ReadValue(SkipSpace(text))
    case Err(_) => None
    case Ok(read) => if SkipSpace(read.1) == "" then Some(Loaded(read.0, nearest)) else None
  }

  /** What comes back from the text of an accepted value. */
  function Returned(v: Json, nearest: Nearest): Json { Loaded(Reread(v), nearest) }

  lemma LoadsRendered(v: Json, nearest: Nearest)
    requires Render(v).Ok?
    ensures Loads(Render(v).value, nearest) == Some(Returned(v, nearest))
  {
    var t := Render(v).value;
    RenderedStart(v);
    assert t + "" == t;
    hide Render;
    hide ReadValue;
    hide Reread;
    hide Loaded;
    ReadRendered(v, "");
  }

  // ------------------------------------------------------ printing again

  /** The values whose printed text, read and printed again, is the same: every whole number that
      is not an int is zero or below 10^64 in magnitude, and every fraction is a double's. */
  predicate Stable(v: Json, nearest: Nearest)
    decreases v
  {
    match v
    case Dec(d) =>
      var l := LowestTerms(d);
      if l.exp >= 0 then d.coef == 0 || Adjusted(d) < MAX_SIGNIFICANT_DIGITS else SameNumber(nearest(l), l)
    case Arr(items) => forall i | 0 <= i < |items| :: Stable(items[i], nearest)
    case Obj(fields) => forall k | k in fields :: Stable(fields[k], nearest)
    case _ => true
  }

  /** Every number in the value is accepted. */
  predicate Printable(v: Json)
    decreases v
  {
    match v
    case Int(n) => RenderInt(n).Ok?
    case Dec(d) => RenderDecimal(d).Ok?
    case Arr(items) => forall i | 0 <= i < |items| :: Printable(items[i])
    case Obj(fields) => forall k | k in fields :: Printable(fields[k])
    case _ => true
  }

  lemma {:induction false} ItemsPrintIff(items: seq<Json>)
    ensures RenderItems(items).Ok? <==> forall i | 0 <= i < |items| :: Render(items[i]).Ok?
  {
    hide Render;
    if items != [] {
      ItemsPrintIff(items[1..]);
      assert forall i | 0 < i < |items| :: items[i] == items[1..][i - 1];
      assert forall i | 0 <= i < |items| - 1 :: items[1..][i] == items[i + 1];
    }
  }

  lemma {:induction false} MembersPrintIff(v: Json, keys: seq<string>)
    requires v.Obj? && forall k | k in keys :: k in v.fields
    ensures RenderMembers(v, keys).Ok? <==> forall k | k in keys :: Render(v.fields[k]).Ok?
    decreases |keys|
  {
    hide Render;
    hide Quote;
    if keys != [] {
      MembersPrintIff(v, keys[1..]);
      assert keys == [keys[0]] + keys[1..];
    }
  }

  /** A value prints exactly when every number in it is accepted. */
  lemma {:induction false} RendersIff(v: Json)
    ensures Render(v).Ok? <==> Printable(v)
    decreases v
  {
    match v
    case Arr(items) =>
      forall i | 0 <= i < |items| { RendersIff(items[i]); }
      ItemsPrintIff(items);
      hide RenderItems;
    case Obj(fields) =>
      var keys := SortedKeys(fields.Keys);
      hide SortedKeys;
      forall k | k in fields { RendersIff(fields[k]); }
      MembersPrintIff(v, keys);
      hide RenderMembers;
    case _ =>
  }

  lemma {:induction false} DigitsBound(n: nat)
    ensures n < Pow10(|Digits(n)|)
  {
    if n < 10 {
      assert Pow10(1) == 10 * Pow10(0);
    } else {
      DigitsBound(n / 10);
    }
  }

  lemma {:induction false} Pow10Grows(m: nat, n: nat)
    requires m <= n
    ensures Pow10(m) <= Pow10(n)
  {
    if m < n { Pow10Grows(m, n - 1); }
  }

  lemma TenToThe8()
    ensures Pow10(8) == 1_0000_0000
  {
    assert Pow10(4) == 1_0000;
    Pow10Add(4, 4);
  }

  lemma TenToThe64()
    ensures Pow10(64) == 1_0000_0000_0000_0000_0000_0000_0000_0000_0000_0000_0000_0000_0000_0000_0000_0000
  {
    TenToThe8();
    hide Pow10;
    Pow10Add(8, 8);
    Pow10Add(16, 16);
    Pow10Add(32, 32);
  }

  lemma RenderIntIff(n: int)
    ensures RenderInt(n).Ok? <==> |Digits(Abs(n))| <= MAX_SIGNIFICANT_DIGITS
  {
    DigitsBound(Abs(n));
    if |Digits(Abs(n))| <= MAX_SIGNIFICANT_DIGITS {
      Pow10Grows(|Digits(Abs(n))|, 64);
      TenToThe64();
    }
    hide Digits;
    hide Pow10;
  }

  lemma SignedForm(d: Decimal)
    requires d.exp == 0
    ensures LowestTerms(IntAsDecimal(Signed(d))) == LowestTerms(d)
  {
  }

  lemma WholeExponent(d: Decimal)
    requires d.exp >= 0
    ensures LowestTerms(d).exp >= 0
  {
    if d.coef != 0 { LowestTermsMagnitude(d); }
  }

  lemma IntComesBack(n: int, nearest: Nearest)
    ensures Returned(Int(n), nearest) == Int(n)
  {
    var l := LowestTerms(IntAsDecimal(n));
    WholeExponent(IntAsDecimal(n));
    var read := RereadNumber(l);
    RereadNumberForm(IntAsDecimal(n));
    SignedForm(read);
    SameNumberIff(IntAsDecimal(Signed(read)), IntAsDecimal(n));
    hide LowestTerms;
    assert Pow10(0) == 1;
  }

  lemma WholeReprints(d: Decimal, nearest: Nearest)
    requires RenderDecimal(d).Ok? && LowestTerms(d).exp >= 0
    ensures var x := Returned(Dec(d), nearest);
            NumericForm(x) == NumericForm(Dec(d)) && (Printable(x) <==> Stable(Dec(d), nearest))
  {
    var l := LowestTerms(d);
    var read := RereadNumber(l);
    RereadNumberForm(d);
    SignedForm(read);
    RenderIntIff(Signed(read));
    RereadDigits(d);
    hide LowestTerms;
    hide Digits;
    hide Pow10;
  }

  /** How many digits the whole number has that comes back. */
  lemma RereadDigits(d: Decimal)
    requires RenderDecimal(d).Ok? && LowestTerms(d).exp >= 0
    ensures |Digits(RereadNumber(LowestTerms(d)).coef)| <= MAX_SIGNIFICANT_DIGITS <==>
            d.coef == 0 || Adjusted(d) < MAX_SIGNIFICANT_DIGITS
  {
    var l := LowestTerms(d);
    LowestTermsShape(d);
    if d.coef != 0 {
      LowestTermsMagnitude(d);
      DigitsOfScaled(l.coef, l.exp, RereadNumber(l).coef);
    } else {
      assert Pow10(0) == 1;
    }
    hide LowestTerms;
    hide Pow10;
  }

  lemma FractionReprints(d: Decimal, nearest: Nearest)
    requires RenderDecimal(d).Ok? && LowestTerms(d).exp < 0 && Doubles(nearest)
    ensures var x := Returned(Dec(d), nearest);
            Printable(x) && (NumericForm(x) == NumericForm(Dec(d)) <==> Stable(Dec(d), nearest))
  {
    var l := LowestTerms(d);
    LowestTermsShape(d);
    LowestTermsMagnitude(d);
    RenderReadFraction(d, l);
    SameNumberIff(nearest(l), l);
    hide LowestTerms;
    hide RenderDecimal;
    hide Digits;
  }

  /** Reading back and printing again reproduces the form exactly of the stable values. */
  lemma {:induction false} FormReprints(v: Json, nearest: Nearest)
    requires Printable(v) && Doubles(nearest)
    ensures var x := Returned(v, nearest);
            Printable(x) && NumericForm(x) == NumericForm(v) <==> Stable(v, nearest)
    decreases v
  {
    hide Doubles;
    var x := Returned(v, nearest);
    match v
    case Int(n) => IntComesBack(n, nearest);
    case Dec(d) =>
      if LowestTerms(d).exp >= 0 { WholeReprints(d, nearest); } else { FractionReprints(d, nearest); }
    case Arr(items) =>
      forall i | 0 <= i < |items| { FormReprints(items[i], nearest); }
      ItemsReprint(items, nearest);
    case Obj(fields) =>
      forall k | k in fields { FormReprints(fields[k], nearest); }
      MembersReprint(v, nearest);
    case _ =>
  }

  lemma ItemsReprint(items: seq<Json>, nearest: Nearest)
    requires forall i | 0 <= i < |items| ::
               var x := Returned(items[i], nearest);
               (Printable(x) && NumericForm(x) == NumericForm(items[i]) <==> Stable(items[i], nearest))
    ensures var x := Returned(Arr(items), nearest);
            Printable(x) && NumericForm(x) == NumericForm(Arr(items)) <==> Stable(Arr(items), nearest)
  {
    var x := Returned(Arr(items), nearest);
    assert forall i | 0 <= i < |items| :: x.items[i] == Returned(items[i], nearest);
    assert NumericForm(x) == NumericForm(Arr(items)) <==>
           forall i | 0 <= i < |items| :: NumericForm(x.items[i]) == NumericForm(items[i]) by {
      var a, b := FormItems(x.items), FormItems(items);
      assert a == b <==> forall i | 0 <= i < |items| :: a[i] == b[i];
    }
    hide Returned;
  }

  lemma MembersReprint(v: Json, nearest: Nearest)
    requires v.Obj?
    requires forall k | k in v.fields ::
               var x := Returned(v.fields[k], nearest);
               (Printable(x) && NumericForm(x) == NumericForm(v.fields[k]) <==> Stable(v.fields[k], nearest))
    ensures var x := Returned(v, nearest);
            Printable(x) && NumericForm(x) == NumericForm(v) <==> Stable(v, nearest)
  {
    var x := Returned(v, nearest);
    assert forall k :: k in x.fields <==> k in v.fields;
    assert forall k | k in v.fields :: x.fields[k] == Returned(v.fields[k], nearest);
    hide Returned;
    if NumericForm(x) == NumericForm(v) { SameFormFields(x, v); }
    if forall k | k in v.fields :: NumericForm(x.fields[k]) == NumericForm(v.fields[k]) { SameMemberForms(x.fields, v.fields); }
  }

  /** A stored value prints the same again exactly when it is stable. */
  lemma ReprintIff(v: Json, nearest: Nearest)
    requires Render(v).Ok? && Doubles(nearest)
    ensures Render(Returned(v, nearest)) == Render(v) <==> Stable(v, nearest)
  {
    var x := Returned(v, nearest);
    RendersIff(v);
    RendersIff(x);
    FormReprints(v, nearest);
    hide Render;
    hide NumericForm;
    hide Returned;
    hide Stable;
    if Render(x).Ok? { SameTextIff(x, v); }
  }

  lemma MembersReturned(v: Json, nearest: Nearest)
    requires v.Obj?
    ensures Returned(v, nearest).Obj? && Returned(v, nearest).fields.Keys == v.fields.Keys
    ensures forall k | k in v.fields :: Returned(v, nearest).fields[k] == Returned(v.fields[k], nearest)
  {
  }

  /** An object is printed, printed again and stable as its one member is. */
  lemma OneMember(key: string, v: Json, nearest: Nearest)
    ensures var o := Obj(map[key := v]);
            (Render(o).Ok? <==> Render(v).Ok?) && (Stable(o, nearest) <==> Stable(v, nearest)) &&
            (Render(Returned(o, nearest)).Ok? <==> Render(Returned(v, nearest)).Ok?)
  {
    var o := Obj(map[key := v]);
    assert o.fields[key] == v;
    RendersIff(o);
    RendersIff(v);
    MembersReturned(o, nearest);
    RendersIff(Returned(o, nearest));
    RendersIff(Returned(v, nearest));
    hide Render;
    hide Returned;
  }

  lemma PowerShape()
    ensures var d := Decimal(false, 1, 64); LowestTerms(d) == d && Adjusted(d) == 64
  {
    assert Digits(1) == "1";
  }

  /** 1E+64 prints, and what comes back of it does not. */
  lemma LargePowerIsUnstable(nearest: Nearest)
    ensures var v := Dec(Decimal(false, 1, 64));
            Render(v).Ok? && !Stable(v, nearest) && Render(Returned(v, nearest)).Err?
  {
    hide Digits;
    hide LowestTerms;
    hide RenderDecimal;
    hide Loaded;
    hide Reread;
    hide ReadNumber;
    LargePowerIsNotReread();
    PowerShape();
    WholeReprints(Decimal(false, 1, 64), nearest);
    RendersIff(Returned(Dec(Decimal(false, 1, 64)), nearest));
  }

  // ------------------------------------------------------ lines

  /** Where `str.splitlines` ends a line. */
  predicate IsBreak(c: char) {
    c as int in {0x0A, 0x0B, 0x0C, 0x0D, 0x1C, 0x1D, 0x1E} || IsSeparator(c)
  }

  /** The line ends that the printer leaves as they are. */
  predicate IsSeparator(c: char) { c as int == 0x85 || c as int == 0x2028 || c as int == 0x2029 }

  predicate HasBreak(t: string) { exists i :: 0 <= i < |t| && IsBreak(t[i]) }

  predicate HasSeparator(s: string) { exists i :: 0 <= i < |s| && IsSeparator(s[i]) }

  /** No string or key in the value holds a separator. */
  predicate Unbroken(v: Json)
    decreases v
  {
    match v
    case Str(s) => !HasSeparator(s)
    case Arr(items) => forall i | 0 <= i < |items| :: Unbroken(items[i])
    case Obj(fields) => forall k | k in fields :: !HasSeparator(k) && Unbroken(fields[k])
    case _ => true
  }

  lemma BreakIn(a: string, b: string)
    ensures HasBreak(a + b) <==> HasBreak(a) || HasBreak(b)
  {
    hide IsBreak;
    if i :| 0 <= i < |a| && IsBreak(a[i]) { assert (a + b)[i] == a[i]; }
    if i :| 0 <= i < |b| && IsBreak(b[i]) { assert (a + b)[|a| + i] == b[i]; }
  }

  lemma EscapeCharBreaks(c: char)
    ensures HasBreak(EscapeChar(c)) <==> IsSeparator(c)
  {
    var t := EscapeChar(c);
    if IsSeparator(c) {
      assert t[0] == c;
    }
  }

  lemma {:induction false} EscapeBreaks(s: string)
    ensures HasBreak(Escape(s)) <==> HasSeparator(s)
  {
    hide IsBreak;
    hide IsSeparator;
    if s != "" {
      EscapeCons(s);
      EscapeBreaks(s[1..]);
      EscapeCharBreaks(s[0]);
      BreakIn(EscapeChar(s[0]), Escape(s[1..]));
      hide Escape;
      hide EscapeChar;
      hide HasBreak;
      if i :| 0 <= i < |s| && IsSeparator(s[i]) {
        assert i > 0 ==> s[1..][i - 1] == s[i];
      }
      if i :| 0 <= i < |s| - 1 && IsSeparator(s[1..][i]) {
        assert s[i + 1] == s[1..][i];
      }
    }
  }

  lemma QuoteBreaks(s: string)
    ensures HasBreak(Quote(s)) <==> HasSeparator(s)
  {
    EscapeBreaks(s);
    BreakIn("\"", Escape(s));
    BreakIn("\"" + Escape(s), "\"");
    hide Escape;
    hide HasSeparator;
  }

  lemma NumberUnbroken(v: Json)
    requires (v.Int? || v.Dec?) && Render(v).Ok?
    ensures !HasBreak(Render(v).value)
  {
    hide Render;
    hide LowestTerms;
    hide Digits;
    hide IsBreak;
    RenderedNumber(v);
    NoBreakInPunctuation();
    var l := LowestTerms(NumberOf(v));
    PlacedUnbroken(Digits(l.coef), l.exp);
    hide PlaceDigits;
    BreakIn(Sign(l.neg), PlaceDigits(Digits(l.coef), l.exp));
  }

  lemma PlacedUnbroken(ds: string, exp: int)
    requires AllDigits(ds)
    ensures !HasBreak(PlaceDigits(ds, exp))
  {
    var t := PlaceDigits(ds, exp);
    assert forall i | 0 <= i < |t| :: IsDigit(t[i]) || t[i] == '.';
  }

  /** Printed text has a line end in it exactly when some string or key of the value has a
      separator in it. */
  lemma {:induction false} TextBreaks(v: Json)
    requires Render(v).Ok?
    ensures HasBreak(Render(v).value) <==> !Unbroken(v)
    decreases v, 1
  {
    hide IsBreak;
    match v
    case Str(s) => QuoteBreaks(s);
    case Arr(items) =>
      ItemsBreak(items);
      var body := RenderItems(items).value;
      BreakIn("[", body);
      BreakIn("[" + body, "]");
      NoBreakInPunctuation();
      hide RenderItems;
      hide HasBreak;
    case Obj(fields) =>
      var keys := SortedKeys(fields.Keys);
      MembersBreak(v, keys);
      var body := RenderMembers(v, keys).value;
      BreakIn("{", body);
      BreakIn("{" + body, "}");
      NoBreakInPunctuation();
      hide RenderMembers;
      hide HasBreak;
      hide HasSeparator;
      hide SortedKeys;
    case Int(_) => NumberUnbroken(v);
    case Dec(_) => NumberUnbroken(v);
    case _ => NoBreakInPunctuation();
  }

  lemma NoBreakInPunctuation()
    ensures !HasBreak("[") && !HasBreak("]") && !HasBreak("{") && !HasBreak("}") && !HasBreak(",") && !HasBreak(":")
    ensures !HasBreak("-") && !HasBreak("0")
    ensures !HasBreak("null") && !HasBreak("true") && !HasBreak("false") && !HasBreak("")
  {
  }

  lemma {:induction false} ItemsBreak(items: seq<Json>)
    requires RenderItems(items).Ok?
    ensures HasBreak(RenderItems(items).value) <==> exists i :: 0 <= i < |items| && !Unbroken(items[i])
    decreases items, 0
  {
    hide Render;
    hide Unbroken;
    NoBreakInPunctuation();
    hide HasBreak;
    if items != [] {
      TextBreaks(items[0]);
      if |items| > 1 {
        ItemsBreak(items[1..]);
        var first, rest := Render(items[0]).value, RenderItems(items[1..]).value;
        BreakIn(first, "," + rest);
        BreakIn(",", rest);
        hide RenderItems;
        if i :| 0 <= i < |items| && !Unbroken(items[i]) {
          assert i > 0 ==> items[1..][i - 1] == items[i];
        }
        if i :| 0 <= i < |items| - 1 && !Unbroken(items[1..][i]) {
          assert items[i + 1] == items[1..][i];
        }
      }
    }
  }

  lemma {:induction false} MembersBreak(v: Json, keys: seq<string>)
    requires v.Obj? && (forall k | k in keys :: k in v.fields) && RenderMembers(v, keys).Ok?
    ensures HasBreak(RenderMembers(v, keys).value) <==>
            exists k :: k in keys && (HasSeparator(k) || !Unbroken(v.fields[k]))
    decreases v, 0, |keys|
  {
    hide Render;
    hide Unbroken;
    hide Quote;
    hide HasSeparator;
    NoBreakInPunctuation();
    hide HasBreak;
    if keys != [] {
      var first := Render(v.fields[keys[0]]).value;
      TextBreaks(v.fields[keys[0]]);
      QuoteBreaks(keys[0]);
      BreakIn(":", first);
      BreakIn(Quote(keys[0]), ":" + first);
      assert keys == [keys[0]] + keys[1..];
      if |keys| > 1 {
        MembersBreak(v, keys[1..]);
        var rest := RenderMembers(v, keys[1..]).value;
        BreakIn(",", rest);
        BreakIn(Quote(keys[0]) + (":" + first), "," + rest);
      } else {
        assert keys[1..] == [];
      }
    }
  }

  // ------------------------------------------------------ parts of a document

  /** What the reader took from a text it takes the same from a longer one, unless the text ends
      inside a number. */
  lemma {:induction false} SpaceExtends(t: string, more: string)
    requires SkipSpace(t) != ""
    ensures SkipSpace(t + more) == SkipSpace(t) + more
  {
    assert (t + more)[1..] == t[1..] + more;
    if IsSpace(t[0]) { SpaceExtends(t[1..], more); }
  }

  lemma EscapeExtends(t: string, more: string)
    requires ReadEscape(t).Ok?
    ensures ReadEscape(t + more) == Ok((ReadEscape(t).value.0, ReadEscape(t).value.1 + more))
  {
    assert (t + more)[1..] == t[1..] + more;
    if t[0] == 'u' { UnicodeExtends(t[1..], more); }
    hide ReadUnicodeEscape;
  }

  lemma UnicodeExtends(t: string, more: string)
    requires ReadUnicodeEscape(t).Ok?
    ensures ReadUnicodeEscape(t + more) == Ok((ReadUnicodeEscape(t).value.0, ReadUnicodeEscape(t).value.1 + more))
  {
    var longer := t + more;
    assert longer[4..] == t[4..] + more;
    Hex4Extends(t, more);
    if |t| >= 6 && t[4] == '\\' && t[5] == 'u' && Hex4(t[6..]).Some? {
      Hex4Extends(t[6..], more);
      assert longer[6..] == t[6..] + more;
      assert longer[10..] == t[10..] + more;
    }
    hide Hex4;
  }

  lemma Hex4Extends(t: string, more: string)
    requires Hex4(t).Some?
    ensures Hex4(t + more) == Hex4(t)
  {
    hide HexValue;
  }

  lemma {:induction false} StringExtends(t: string, more: string)
    requires ReadString(t).Ok?
    ensures ReadString(t + more) == Ok((ReadString(t).value.0, ReadString(t).value.1 + more))
    decreases |t|
  {
    hide ReadEscape;
    var longer := t + more;
    assert longer[1..] == t[1..] + more && longer[0] == t[0];
    if t[0] == '\\' {
      EscapeExtends(t[1..], more);
      StringExtends(ReadEscape(t[1..]).value.1, more);
    } else if t[0] != '"' {
      StringExtends(t[1..], more);
    }
  }

  /** A character that can follow a number inside a document. */
  predicate Closes(rest: string) { rest != "" && rest[0] in " \t\n\r,]}" }

  lemma {:induction false} RunExtends(t: string, more: string)
    requires DigitRun(t) < |t|
    ensures DigitRun(t + more) == DigitRun(t)
  {
    assert (t + more)[1..] == t[1..] + more;
    if IsDigit(t[0]) { RunExtends(t[1..], more); }
  }

  /** Where the digits of an exponent start. */
  function AfterSign(t: string): nat
    requires t != ""
  {
    if |t| > 1 && t[1] in "+-" then 2 else 1
  }

  lemma ExponentIs(t: string, digits: string, n: nat)
    requires t != "" && t[0] in "eE" && digits == t[AfterSign(t)..] && n == DigitRun(digits) > 0
    ensures ReadExponent(t) ==
            (if AfterSign(t) == 2 && t[1] == '-' then 0 - DigitsValue(digits[..n]) else DigitsValue(digits[..n]), digits[n..])
  {
    hide DigitsValue;
    hide DigitRun;
  }

  lemma ExponentRuns(t: string)
    requires t != "" && t[0] in "eE" && Closes(ReadExponent(t).1)
    ensures var digits := t[AfterSign(t)..]; 0 < DigitRun(digits) < |digits|
  {
    hide DigitsValue;
    hide DigitRun;
  }

  lemma ExponentExtends(t: string, more: string)
    requires Closes(ReadExponent(t).1)
    ensures ReadExponent(t + more) == (ReadExponent(t).0, ReadExponent(t).1 + more)
  {
    if t != "" && t[0] in "eE" {
      var digits := t[AfterSign(t)..];
      ExponentRuns(t);
      hide ReadExponent;
      hide DigitsValue;
      var n := DigitRun(digits);
      ExponentIs(t, digits, n);
      RunExtends(digits, more);
      hide DigitRun;
      assert (t + more)[AfterSign(t)..] == digits + more && AfterSign(t + more) == AfterSign(t);
      assert (digits + more)[..n] == digits[..n] && (digits + more)[n..] == digits[n..] + more;
      ExponentIs(t + more, digits + more, n);
    }
  }

  lemma PlainExtends(tail: string, more: string)
    requires FractionRun(tail) == 0 && Closes(ReadExponent(tail).1)
    ensures FractionRun(tail + more) == 0
    ensures ReadExponent(tail + more) == (ReadExponent(tail).0, ReadExponent(tail).1 + more)
  {
    NotPointed(tail);
    ExponentExtends(tail, more);
    assert (tail + more)[0] == tail[0];
    hide ReadExponent;
  }

  lemma PointedExtends(tail: string, fraction: nat, more: string)
    requires 0 < fraction == FractionRun(tail) && Closes(ReadExponent(tail[1 + fraction..]).1)
    ensures FractionRun(tail + more) == fraction && (tail + more)[1..1 + fraction] == tail[1..1 + fraction]
    ensures ReadExponent((tail + more)[1 + fraction..]) ==
            (ReadExponent(tail[1 + fraction..]).0, ReadExponent(tail[1 + fraction..]).1 + more)
  {
    var after := tail[1 + fraction..];
    ExponentEnds(after);
    ExponentExtends(after, more);
    hide ReadExponent;
    assert tail[1..][fraction..] == after;
    RunExtends(tail[1..], more);
    hide DigitRun;
    assert (tail + more)[1..] == tail[1..] + more && (tail + more)[0] == tail[0];
    assert (tail + more)[1 + fraction..] == after + more && (tail + more)[1..1 + fraction] == tail[1..1 + fraction];
  }

  lemma MagnitudeIs(body: string, whole: nat, front: string, tail: string, fraction: nat)
    requires 0 < whole <= |body| && body[..whole] == front && AllDigits(front) && body[whole..] == tail
    requires fraction == FractionRun(tail)
    ensures fraction == 0 ==>
              ReadMagnitude(body, whole) == (DigitsValue(front), ReadExponent(tail).0, ReadExponent(tail).1)
    ensures fraction > 0 ==>
              var after := ReadExponent(tail[1 + fraction..]);
              ReadMagnitude(body, whole) ==
                (DigitsValue(front + tail[1..1 + fraction]), after.0 - fraction, after.1)
  {
    hide ReadExponent;
    hide DigitsValue;
  }

  lemma MagnitudeExtends(body: string, whole: nat, more: string)
    requires 0 < whole <= |body| && AllDigits(body[..whole]) && Closes(ReadMagnitude(body, whole).2)
    ensures AllDigits((body + more)[..whole])
    ensures ReadMagnitude(body + more, whole) ==
            (ReadMagnitude(body, whole).0, ReadMagnitude(body, whole).1, ReadMagnitude(body, whole).2 + more)
  {
    hide AllDigits;
    hide ReadMagnitude;
    hide ReadExponent;
    hide FractionRun;
    hide DigitsValue;
    var longer, front, tail := body + more, body[..whole], body[whole..];
    assert longer[..whole] == front && longer[whole..] == tail + more;
    var fraction := FractionRun(tail);
    MagnitudeIs(body, whole, front, tail, fraction);
    if fraction == 0 {
      PlainExtends(tail, more);
    } else {
      PointedExtends(tail, fraction, more);
    }
    hide Closes;
    MagnitudeIs(longer, whole, front, tail + more, fraction);
  }

  lemma MagnitudeLeaves(body: string, whole: nat)
    requires 0 < whole <= |body| && AllDigits(body[..whole]) && Closes(ReadMagnitude(body, whole).2)
    ensures whole < |body|
  {
  }

  lemma NotPointed(tail: string)
    requires Closes(ReadExponent(tail).1)
    ensures tail != "" && tail[0] != '.'
  {
  }

  lemma ExponentEnds(after: string)
    requires Closes(ReadExponent(after).1)
    ensures after != ""
  {
  }

  lemma NumberExtends(t: string, more: string)
    requires ReadNumber(t).Some? && Closes(ReadNumber(t).value.1)
    ensures ReadNumber(t + more) == Some((ReadNumber(t).value.0, ReadNumber(t).value.1 + more))
  {
    hide ReadMagnitude;
    hide WholeRun;
    hide AllDigits;
    var neg := t[0] == '-';
    var body := if neg then t[1..] else t;
    assert (if neg then (t + more)[1..] else t + more) == body + more;
    var whole := WholeRun(body);
    MagnitudeExtends(body, whole, more);
    WholeExtends(body, whole, more);
    hide Closes;
  }

  lemma WholeExtends(body: string, whole: nat, more: string)
    requires 0 < whole == WholeRun(body) && Closes(ReadMagnitude(body, whole).2)
    ensures WholeRun(body + more) == whole
  {
    var run := DigitRun(body);
    if body[0] == '0' {
      assert (body + more)[0] == '0';
      assert DigitRun(body + more) > 0;
    } else {
      MagnitudeLeaves(body, whole);
      RunExtends(body, more);
    }
  }

  /** A value that the reader has seen the end of. */
  predicate Settled(t: string) {
    ReadValue(t).Ok? && (Closes(ReadValue(t).value.1) || (t != "" && t[0] in "\"{["))
  }

  lemma WordExtends(t: string, word: string, more: string)
    requires |word| <= |t| && t[..|word|] == word
    ensures (t + more)[..|word|] == word && (t + more)[|word|..] == t[|word|..] + more
  {
  }

  lemma ScalarExtends(t: string, more: string)
    requires Settled(t) && t[0] !in "\"{["
    ensures ReadValue(t + more) == Ok((ReadValue(t).value.0, ReadValue(t).value.1 + more))
  {
    hide ReadNumber;
    hide Closes;
    var longer := t + more;
    assert longer[0] == t[0];
    if StartsWith(t, "null") {
      WordExtends(t, "null", more);
    } else if StartsWith(t, "true") {
      WordExtends(t, "true", more);
    } else if StartsWith(t, "false") {
      WordExtends(t, "false", more);
    } else {
      NumberStarts(t);
      NumberExtends(t, more);
    }
  }

  lemma NumberStarts(t: string)
    requires ReadNumber(t).Some?
    ensures t != "" && (IsDigit(t[0]) || t[0] == '-')
  {
    hide DigitsValue;
    hide ReadMagnitude;
  }

  lemma Follow(rest: string)
    requires SkipSpace(rest) != "" && SkipSpace(rest)[0] in ",]}"
    ensures Closes(rest)
  {
  }

  lemma StringValueExtends(t: string, more: string)
    requires Settled(t) && t[0] == '"'
    ensures ReadValue(t + more) == Ok((ReadValue(t).value.0, ReadValue(t).value.1 + more))
  {
    hide ReadString;
    StringExtends(t[1..], more);
    assert (t + more)[1..] == t[1..] + more && (t + more)[0] == t[0];
  }

  lemma {:induction false} ValueExtends(t: string, more: string)
    requires Settled(t)
    ensures ReadValue(t + more) == Ok((ReadValue(t).value.0, ReadValue(t).value.1 + more))
    decreases |t|, 1
  {
    if t[0] == '"' {
      StringValueExtends(t, more);
    } else if t[0] == '{' {
      ObjectExtends(t, more);
    } else if t[0] == '[' {
      ArrayExtends(t, more);
    } else {
      ScalarExtends(t, more);
    }
  }

  /** The text behind an opening bracket. */
  lemma Opened(t: string, more: string)
    requires t != "" && SkipSpace(t[1..]) != ""
    ensures (t + more)[0] == t[0] && SkipSpace((t + more)[1..]) == SkipSpace(t[1..]) + more
  {
    assert (t + more)[1..] == t[1..] + more;
    SpaceExtends(t[1..], more);
  }

  lemma ArrayOf(t: string, body: string, items: seq<Json>, rest: string)
    requires t != "" && t[0] == '[' && SkipSpace(t[1..]) == body && body != ""
    requires if body[0] == ']' then items == [] && rest == body[1..] else ReadItems(body) == Ok((items, rest))
    ensures ReadValue(t) == Ok((Arr(items), rest))
  {
    hide SkipSpace;
    hide ReadItems;
  }

  lemma ArrayParts(t: string) returns (body: string, items: seq<Json>, rest: string)
    requires ReadValue(t).Ok? && t[0] == '['
    ensures body == SkipSpace(t[1..]) && body != "" && |body| < |t| && ReadValue(t) == Ok((Arr(items), rest))
    ensures if body[0] == ']' then items == [] && rest == body[1..] else ReadItems(body) == Ok((items, rest))
  {
    hide ReadItems;
    EmptyRefused();
    body := SkipSpace(t[1..]);
    hide SkipSpace;
    items := ReadValue(t).value.0.items;
    rest := ReadValue(t).value.1;
  }

  lemma {:induction false} ArrayExtends(t: string, more: string)
    requires ReadValue(t).Ok? && t[0] == '['
    ensures ReadValue(t + more) == Ok((ReadValue(t).value.0, ReadValue(t).value.1 + more))
    decreases |t|, 0
  {
    var body, items, rest := ArrayParts(t);
    hide ReadValue;
    hide ReadItems;
    Opened(t, more);
    hide SkipSpace;
    if body[0] != ']' {
      ItemsExtend(body, more);
    } else {
      assert (body + more)[1..] == body[1..] + more;
    }
    ArrayOf(t + more, body + more, items, rest + more);
  }

  lemma ItemsOf(t: string, item: Json, rest: string, after: string, others: seq<Json>, end: string)
    requires ReadValue(t) == Ok((item, rest)) && after == SkipSpace(rest) != "" && after[0] in ",]"
    requires if after[0] == ']' then others == [] && end == after[1..]
             else ReadItems(SkipSpace(after[1..])) == Ok((others, end))
    ensures ReadItems(t) == Ok(([item] + others, end))
  {
    hide ReadValue;
    hide SkipSpace;
    assert [item] + [] == [item];
  }

  lemma ItemsParts(t: string) returns (item: Json, rest: string, after: string, others: seq<Json>, end: string)
    requires ReadItems(t).Ok?
    ensures ReadValue(t) == Ok((item, rest)) && after == SkipSpace(rest) != "" && after[0] in ",]" && |after| < |t|
    ensures if after[0] == ']' then others == [] && end == after[1..]
            else SkipSpace(after[1..]) != "" && ReadItems(SkipSpace(after[1..])) == Ok((others, end))
    ensures ReadItems(t) == Ok(([item] + others, end))
  {
    hide ReadValue;
    EmptyRefused();
    item := ReadValue(t).value.0;
    rest := ReadValue(t).value.1;
    after := SkipSpace(rest);
    hide SkipSpace;
    if after[0] == ']' {
      others, end := [], after[1..];
      assert [item] + [] == [item];
    } else {
      others, end := ReadItems(SkipSpace(after[1..])).value.0, ReadItems(SkipSpace(after[1..])).value.1;
    }
  }

  lemma EmptyRefused()
    ensures ReadValue("").Err? && ReadItems("").Err? && ReadMembers("").Err?
  {
  }

  lemma {:induction false} ItemsExtend(t: string, more: string)
    requires ReadItems(t).Ok?
    ensures ReadItems(t + more) == Ok((ReadItems(t).value.0, ReadItems(t).value.1 + more))
    decreases |t|, 2
  {
    var item, rest, after, others, end := ItemsParts(t);
    hide ReadItems;
    Follow(rest);
    assert Settled(t);
    ValueExtends(t, more);
    hide ReadValue;
    SpaceExtends(rest, more);
    TailExtends(after, more);
    hide SkipSpace;
    if after[0] == ',' { ItemsExtend(SkipSpace(after[1..]), more); }
    ItemsOf(t + more, item, rest + more, after + more, others, end + more);
  }

  lemma TailExtends(after: string, more: string)
    requires after != ""
    ensures (after + more)[0] == after[0] && (after + more)[1..] == after[1..] + more
    ensures SkipSpace(after[1..]) != "" ==> SkipSpace((after + more)[1..]) == SkipSpace(after[1..]) + more
  {
    assert (after + more)[1..] == after[1..] + more;
    if SkipSpace(after[1..]) != "" { SpaceExtends(after[1..], more); }
  }

  lemma ObjectOf(t: string, body: string, fields: map<string, Json>, rest: string)
    requires t != "" && t[0] == '{' && SkipSpace(t[1..]) == body && body != ""
    requires if body[0] == '}' then fields == map[] && rest == body[1..]
             else ReadMembers(body).Ok? && FromPairs(ReadMembers(body).value.0) == Ok(fields) &&
                  rest == ReadMembers(body).value.1
    ensures ReadValue(t) == Ok((Obj(fields), rest))
  {
    hide SkipSpace;
    hide ReadMembers;
    hide FromPairs;
  }

  lemma ObjectParts(t: string) returns (body: string, fields: map<string, Json>, rest: string)
    requires ReadValue(t).Ok? && t[0] == '{'
    ensures body == SkipSpace(t[1..]) && body != "" && |body| < |t| && ReadValue(t) == Ok((Obj(fields), rest))
    ensures if body[0] == '}' then fields == map[] && rest == body[1..]
            else ReadMembers(body).Ok? && FromPairs(ReadMembers(body).value.0) == Ok(fields) &&
                 rest == ReadMembers(body).value.1
  {
    hide FromPairs;
    EmptyRefused();
    hide ReadMembers;
    body := SkipSpace(t[1..]);
    hide SkipSpace;
    fields := ReadValue(t).value.0.fields;
    rest := ReadValue(t).value.1;
  }

  lemma {:induction false} ObjectExtends(t: string, more: string)
    requires ReadValue(t).Ok? && t[0] == '{'
    ensures ReadValue(t + more) == Ok((ReadValue(t).value.0, ReadValue(t).value.1 + more))
    decreases |t|, 0
  {
    var body, fields, rest := ObjectParts(t);
    hide ReadValue;
    hide ReadMembers;
    hide FromPairs;
    Opened(t, more);
    hide SkipSpace;
    if body[0] != '}' {
      MembersExtend(body, more);
    } else {
      assert (body + more)[1..] == body[1..] + more;
    }
    ObjectOf(t + more, body + more, fields, rest + more);
  }

  /** The parts of a list of members: key, colon, value and what follows. */
  lemma MembersParts(t: string) returns (key: string, colon: string, valueText: string, after: string)
    requires ReadMembers(t).Ok?
    ensures t != "" && t[0] == '"' && ReadString(t[1..]).Ok? && key == ReadString(t[1..]).value.0
    ensures colon == SkipSpace(ReadString(t[1..]).value.1) && colon != "" && colon[0] == ':'
    ensures valueText == SkipSpace(colon[1..]) && valueText != "" && |valueText| < |t| && ReadValue(valueText).Ok?
    ensures after == SkipSpace(ReadValue(valueText).value.1) && after != "" && after[0] in ",}" && |after| < |t|
    ensures after[0] == ',' ==> ReadMembers(SkipSpace(after[1..])).Ok? && SkipSpace(after[1..]) != ""
  {
    hide ReadString;
    hide ReadValue;
    EmptyRefused();
    key := ReadString(t[1..]).value.0;
    colon := SkipSpace(ReadString(t[1..]).value.1);
    valueText := SkipSpace(colon[1..]);
    after := SkipSpace(ReadValue(valueText).value.1);
  }

  lemma MembersOf(t: string, key: string, colon: string, valueText: string, value: Json, after: string,
                  others: seq<(string, Json)>, end: string)
    requires t != "" && t[0] == '"' && ReadString(t[1..]).Ok? && key == ReadString(t[1..]).value.0
    requires colon == SkipSpace(ReadString(t[1..]).value.1) && colon != "" && colon[0] == ':'
    requires valueText == SkipSpace(colon[1..]) && ReadValue(valueText).Ok? && value == ReadValue(valueText).value.0
    requires after == SkipSpace(ReadValue(valueText).value.1) && after != "" && after[0] in ",}"
    requires if after[0] == '}' then others == [] && end == after[1..]
             else ReadMembers(SkipSpace(after[1..])) == Ok((others, end))
    ensures ReadMembers(t) == Ok(([(key, value)] + others, end))
  {
    hide ReadString;
    hide ReadValue;
    hide SkipSpace;
    assert [(key, value)] + [] == [(key, value)];
  }

  lemma MembersRest(t: string, key: string, colon: string, valueText: string, after: string)
    returns (others: seq<(string, Json)>, end: string)
    requires t != "" && t[0] == '"' && ReadString(t[1..]).Ok? && key == ReadString(t[1..]).value.0
    requires colon == SkipSpace(ReadString(t[1..]).value.1) && colon != "" && colon[0] == ':'
    requires valueText == SkipSpace(colon[1..]) && ReadValue(valueText).Ok?
    requires after == SkipSpace(ReadValue(valueText).value.1) && after != "" && after[0] in ",}"
    requires after[0] == ',' ==> ReadMembers(SkipSpace(after[1..])).Ok?
    ensures if after[0] == '}' then others == [] && end == after[1..]
            else ReadMembers(SkipSpace(after[1..])) == Ok((others, end))
    ensures ReadMembers(t) == Ok(([(key, ReadValue(valueText).value.0)] + others, end))
  {
    if after[0] == '}' {
      others, end := [], after[1..];
    } else {
      var read := ReadMembers(SkipSpace(after[1..])).value;
      others, end := read.0, read.1;
    }
    hide ReadMembers;
    MembersOf(t, key, colon, valueText, ReadValue(valueText).value.0, after, others, end);
    hide ReadString;
    hide ReadValue;
    hide SkipSpace;
  }

  lemma KeyExtends(t: string, more: string)
    requires t != "" && t[0] == '"' && ReadString(t[1..]).Ok? && SkipSpace(ReadString(t[1..]).value.1) != ""
    ensures (t + more)[0] == t[0] && ReadString((t + more)[1..]).Ok?
    ensures ReadString((t + more)[1..]).value.0 == ReadString(t[1..]).value.0
    ensures SkipSpace(ReadString((t + more)[1..]).value.1) == SkipSpace(ReadString(t[1..]).value.1) + more
  {
    hide ReadString;
    assert (t + more)[1..] == t[1..] + more;
    StringExtends(t[1..], more);
    SpaceExtends(ReadString(t[1..]).value.1, more);
  }

  lemma {:induction false} MembersExtend(t: string, more: string)
    requires ReadMembers(t).Ok?
    ensures ReadMembers(t + more) == Ok((ReadMembers(t).value.0, ReadMembers(t).value.1 + more))
    decreases |t|, 2
  {
    var key, colon, valueText, after := MembersParts(t);
    var others, end := MembersRest(t, key, colon, valueText, after);
    hide ReadMembers;
    KeyExtends(t, more);
    hide ReadString;
    var (value, rest) := ReadValue(valueText).value;
    Follow(rest);
    assert Settled(valueText);
    TailExtends(colon, more);
    ValueExtends(valueText, more);
    hide ReadValue;
    SpaceExtends(rest, more);
    TailExtends(after, more);
    hide SkipSpace;
    if after[0] == ',' { MembersExtend(SkipSpace(after[1..]), more); }
    MembersOf(t + more, key, colon + more, valueText + more, value, after + more, others, end + more);
  }

  lemma PrintedObject(v: Json)
    requires v.Obj? && Render(v).Ok?
    ensures Render(v).value != "" && Render(v).value[0] == '{'
    ensures ReadValue(Render(v).value) == Ok((Reread(v), ""))
  {
    var t := Render(v).value;
    hide RenderMembers;
    hide ReadValue;
    hide Reread;
    hide NumericForm;
    assert t + "" == t;
    ReadRendered(v, "");
  }

  lemma LoadsNeedsValue(part: string, nearest: Nearest)
    requires part != "" && part[0] == '{' && ReadValue(part).Err?
    ensures Loads(part, nearest).None?
  {
    hide ReadValue;
  }

  /** No proper beginning of a printed object is read as a document. */
  lemma PartRefused(v: Json, n: nat, nearest: Nearest)
    requires v.Obj? && Render(v).Ok? && 0 < n < |Render(v).value|
    ensures Loads(Render(v).value[..n], nearest).None?
  {
    hide Render;
    hide Reread;
    hide ReadValue;
    hide Loads;
    var t := Render(v).value;
    PrintedObject(v);
    var part, more := t[..n], t[n..];
    assert part + more == t && part[0] == '{';
    if ReadValue(part).Ok? {
      ObjectExtends(part, more);
    }
    LoadsNeedsValue(part, nearest);
  }
}
