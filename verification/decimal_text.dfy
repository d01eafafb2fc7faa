/**
 Decimal numbers and the fixed-point text that `canonical_json` prints for them
 (contracts/validation.py, the numeric branches of `render`).
 */
module DecimalText {
  import opened Outcomes

  const MAX_SIGNIFICANT_DIGITS := 64
  const MAX_ABS_EXPONENT := 10_000
  const MAX_NUMBER_CHARS := 2_048

  datatype NumberError = SignificantDigits | ExponentOutOfRange | RenderedLength

  /** Python's `Decimal.as_tuple()`: the value is (-1)^neg * coef * 10^exp. */
  datatype Decimal = Decimal(neg: bool, coef: nat, exp: int)

  // ---------------------------------------------------------------- digits

  predicate IsDigit(c: char) { '0' <= c <= '9' }

  predicate AllDigits(s: string) { forall i | 0 <= i < |s| :: IsDigit(s[i]) }

  function DigitChar(d: nat): (c: char)
    requires d < 10
    ensures IsDigit(c) && DigitValue(c) == d
  {
    '0' + d as char
  }

  function DigitValue(c: char): (d: nat)
    requires IsDigit(c)
    ensures d < 10 && (d == 0 <==> c == '0')
  {
    c as int - '0' as int
  }

  /** `str(n)` for a non-negative integer. */
  function Digits(n: nat): (s: string)
    ensures |s| > 0 && AllDigits(s)
    ensures s[0] == '0' ==> n == 0
    ensures (s[|s| - 1] == '0') == (n % 10 == 0)
  {
    if n < 10 then [DigitChar(n)] else Digits(n / 10) + [DigitChar(n % 10)]
  }

  /** The number a digit string denotes. */
  function DigitsValue(s: string): nat
    requires AllDigits(s)
  {
    PrefixValue(s, |s|)
  }

  /** The number denoted by the first n digits. */
  function PrefixValue(s: string, n: nat): nat
    requires n <= |s| && AllDigits(s)
  {
    if n == 0 then 0 else 10 * PrefixValue(s, n - 1) + DigitValue(s[n - 1])
  }

  lemma {:induction false} PrefixValueAgrees(s: string, t: string, n: nat)
    requires n <= |s| && n <= |t| && AllDigits(s) && AllDigits(t)
    requires forall i | 0 <= i < n :: s[i] == t[i]
    ensures PrefixValue(s, n) == PrefixValue(t, n)
  {
    if n > 0 { PrefixValueAgrees(s, t, n - 1); }
  }

  lemma DigitsValueSnoc(s: string, c: char)
    requires AllDigits(s) && IsDigit(c)
    ensures AllDigits(s + [c]) && DigitsValue(s + [c]) == 10 * DigitsValue(s) + DigitValue(c)
  {
    PrefixValueAgrees(s + [c], s, |s|);
  }

  function Zeros(n: nat): (s: string)
    ensures |s| == n && AllDigits(s)
    ensures forall i | 0 <= i < n :: s[i] == '0'
  {
    seq(n, i => '0')
  }

  function Pow10(n: nat): (p: nat)
    ensures p > 0
  {
    if n == 0 then 1 else 10 * Pow10(n - 1)
  }

  lemma {:induction false} DigitsValueOfDigits(n: nat)
    ensures DigitsValue(Digits(n)) == n
  {
    if n < 10 {
      assert PrefixValue(Digits(n), 0) == 0;
    } else {
      DigitsValueOfDigits(n / 10);
      DigitsValueSnoc(Digits(n / 10), DigitChar(n % 10));
    }
  }

  lemma {:induction false} AppendZeros(s: string, n: nat)
    requires AllDigits(s)
    ensures AllDigits(s + Zeros(n))
    ensures DigitsValue(s + Zeros(n)) == DigitsValue(s) * Pow10(n)
  {
    if n == 0 {
      assert s + Zeros(0) == s;
    } else {
      AppendZeros(s, n - 1);
      assert s + Zeros(n) == s + Zeros(n - 1) + ['0'];
      DigitsValueSnoc(s + Zeros(n - 1), '0');
      assert DigitsValue(s) * Pow10(n) == 10 * (DigitsValue(s) * Pow10(n - 1));
    }
  }

  lemma {:induction false} LeadingZeros(n: nat, s: string)
    requires AllDigits(s)
    ensures AllDigits(Zeros(n) + s)
    ensures DigitsValue(Zeros(n) + s) == DigitsValue(s)
  {
    if s == "" {
      assert Zeros(n) + s == [] + Zeros(n);
      AppendZeros([], n);
    } else {
      var front, last := s[..|s| - 1], s[|s| - 1];
      LeadingZeros(n, front);
      assert Zeros(n) + s == Zeros(n) + front + [last];
      DigitsValueSnoc(Zeros(n) + front, last);
      assert s == front + [last];
      DigitsValueSnoc(front, last);
    }
  }

  // ------------------------------------------------------------- rendering

  function Adjusted(d: Decimal): int { d.exp + |Digits(d.coef)| - 1 }

  function Sign(neg: bool): string { if neg then "-" else "" }

  /** `format(decimal, "f")` without its sign: fixed notation, every stored digit kept. */
  function FixedMagnitude(coef: nat, exp: int): string { PlaceDigits(Digits(coef), exp) }

  function PlaceDigits(ds: string, exp: int): string {
    if exp >= 0 then ds + Zeros(exp)
    else if |ds| > -exp then ds[..|ds| + exp] + "." + ds[|ds| + exp..]
    else "0." + Zeros(-exp - |ds|) + ds
  }

  function RightStrip(s: string, c: char): (r: string)
    ensures |r| <= |s| && r == s[..|r|]
    ensures forall i | |r| <= i < |s| :: s[i] == c
    ensures r != "" ==> r[|r| - 1] != c
  {
    if s != "" && s[|s| - 1] == c then RightStrip(s[..|s| - 1], c) else s
  }

  /** `text.rstrip("0").rstrip(".")`, applied only when there is a point. */
  function Tidy(s: string): string {
    if '.' in s then RightStrip(RightStrip(s, '0'), '.') else s
  }

  /** The length bound computed before any text is built. */
  function EstimatedLength(d: Decimal): int {
    var sign := if d.neg then 1 else 0;
    var digits := |Digits(d.coef)|;
    if Adjusted(d) >= 0 && d.exp < 0 then sign + Adjusted(d) + 1 + 1 + (-d.exp)
    else if Adjusted(d) >= 0 then sign + Adjusted(d) + 1
    else sign + 2 + (-Adjusted(d) - 1) + digits
  }

  function Abs(n: int): nat { if n < 0 then -n else n }

  /** The `Decimal` branch of `render`. */
  function RenderDecimal(d: Decimal): Result<string, NumberError> {
    if d.coef == 0 then Ok("0")
    else if |Digits(d.coef)| > MAX_SIGNIFICANT_DIGITS then Err(SignificantDigits)
    else if Abs(d.exp) > MAX_ABS_EXPONENT || Abs(Adjusted(d)) > MAX_ABS_EXPONENT then Err(ExponentOutOfRange)
    else if EstimatedLength(d) > MAX_NUMBER_CHARS then Err(RenderedLength)
    else
      var rendered := Tidy(Sign(d.neg) + FixedMagnitude(d.coef, d.exp));
      if |rendered| > MAX_NUMBER_CHARS then Err(RenderedLength) else Ok(rendered)
  }

  /** The `int` branch of `render`; the bit-length guard stands before `str(value)`. */
  function RenderInt(n: int): Result<string, NumberError> {
    if Abs(n) >= 0x1000_0000_0000_0000_0000_0000_0000_0000_0000_0000_0000_0000_0000_0000 then
      Err(SignificantDigits)
    else if |Digits(Abs(n))| > MAX_SIGNIFICANT_DIGITS then Err(SignificantDigits)
    else Ok(Sign(n < 0) + Digits(Abs(n)))
  }

  /** The bound is the exact length of the text before trailing zeros are dropped,
      so the second length check of the source can never fire. */
  lemma EstimatedLengthIsExact(d: Decimal)
    ensures EstimatedLength(d) == |Sign(d.neg) + FixedMagnitude(d.coef, d.exp)|
    ensures EstimatedLength(d) <= MAX_NUMBER_CHARS ==>
              |Tidy(Sign(d.neg) + FixedMagnitude(d.coef, d.exp))| <= MAX_NUMBER_CHARS
  {
  }

  // ------------------------------------------------------ numeric equality

  /** d as an integer multiple of 10^scale. */
  function Scaled(d: Decimal, scale: int): int
    requires scale <= d.exp
  {
    var magnitude := d.coef * Pow10(d.exp - scale);
    if d.neg then -magnitude else magnitude
  }

  /** a and b denote the same number. */
  predicate SameNumber(a: Decimal, b: Decimal) {
    var scale := if a.exp <= b.exp then a.exp else b.exp;
    Scaled(a, scale) == Scaled(b, scale)
  }

  /** The shortest spelling of the same number: no trailing zero, one zero. */
  function LowestTerms(d: Decimal): Decimal
    decreases d.coef
  {
    if d.coef == 0 then Decimal(false, 0, 0)
    else if d.coef % 10 == 0 then LowestTerms(Decimal(d.neg, d.coef / 10, d.exp + 1))
    else d
  }

  lemma {:induction false} Pow10Add(m: nat, n: nat)
    ensures Pow10(m + n) == Pow10(m) * Pow10(n)
  {
    if m > 0 { Pow10Add(m - 1, n); }
  }

  /** Moving to a finer scale multiplies by a power of ten, so any common scale may be used. */
  lemma SameAtAnyScale(a: Decimal, b: Decimal, scale: int)
    requires scale <= a.exp && scale <= b.exp
    ensures SameNumber(a, b) <==> Scaled(a, scale) == Scaled(b, scale)
  {
    var coarse := if a.exp <= b.exp then a.exp else b.exp;
    Rescale(a, coarse, scale);
    Rescale(b, coarse, scale);
    CancelFactor(Scaled(a, coarse), Scaled(b, coarse), Pow10(coarse - scale));
  }

  lemma Rescale(d: Decimal, coarse: int, fine: int)
    requires fine <= coarse <= d.exp
    ensures Scaled(d, fine) == Scaled(d, coarse) * Pow10(coarse - fine)
  {
    Pow10Add(d.exp - coarse, coarse - fine);
    Associate(d.coef, Pow10(d.exp - coarse), Pow10(coarse - fine));
  }

  lemma Associate(x: nat, p: nat, q: nat)
    ensures x * (p * q) == (x * p) * q && -(x * p) * q == -((x * p) * q)
  {
  }

  lemma CancelFactor(x: int, y: int, p: nat)
    requires p > 0
    ensures x * p == y * p <==> x == y
  {
    if x * p == y * p {
      assert (x - y) * p == 0;
    }
  }

  lemma SameNumberTransitive(a: Decimal, b: Decimal, c: Decimal)
    requires SameNumber(a, b) && SameNumber(b, c)
    ensures SameNumber(a, c)
  {
    var ab := if a.exp <= b.exp then a.exp else b.exp;
    var scale := if ab <= c.exp then ab else c.exp;
    SameAtAnyScale(a, b, scale);
    SameAtAnyScale(b, c, scale);
    SameAtAnyScale(a, c, scale);
  }

  lemma {:induction false} LowestTermsSameNumber(d: Decimal)
    ensures SameNumber(d, LowestTerms(d))
    decreases d.coef
  {
    if d.coef != 0 && d.coef % 10 == 0 {
      var shorter := Decimal(d.neg, d.coef / 10, d.exp + 1);
      assert Pow10(1) == 10 * Pow10(0);
      assert SameNumber(d, shorter);
      LowestTermsSameNumber(shorter);
      SameNumberTransitive(d, shorter, LowestTerms(d));
    }
  }

  lemma {:induction false} LowestTermsShape(d: Decimal)
    ensures var l := LowestTerms(d);
            (l.coef == 0 <==> d.coef == 0) && (l.coef == 0 ==> l == Decimal(false, 0, 0)) &&
            (l.coef != 0 ==> l.coef % 10 != 0 && l.neg == d.neg) && LowestTerms(l) == l
    decreases d.coef
  {
    if d.coef != 0 && d.coef % 10 == 0 {
      LowestTermsShape(Decimal(d.neg, d.coef / 10, d.exp + 1));
    }
  }

  lemma FactorTen(b: nat, k: nat)
    requires k > 0
    ensures (b * Pow10(k)) % 10 == 0
  {
    assert b * Pow10(k) == 10 * (b * Pow10(k - 1));
  }

  lemma LowestTermsUnique(a: Decimal, b: Decimal)
    requires SameNumber(a, b) && a.exp <= b.exp
    requires a.coef == 0 ==> a == Decimal(false, 0, 0)
    requires b.coef == 0 ==> b == Decimal(false, 0, 0)
    requires a.coef % 10 != 0 || a.coef == 0
    ensures a == b
  {
    var k := b.exp - a.exp;
    assert a.coef * Pow10(0) == a.coef;
    if b.coef == 0 {
      assert b.coef * Pow10(k) == 0;
    } else {
      CancelFactor(b.coef, 0, Pow10(k));
      if k > 0 { FactorTen(b.coef, k); } else { assert b.coef * Pow10(0) == b.coef; }
    }
  }

  /** Lowest terms decide numeric equality. */
  lemma SameNumberIff(a: Decimal, b: Decimal)
    ensures SameNumber(a, b) <==> LowestTerms(a) == LowestTerms(b)
  {
    var la, lb := LowestTerms(a), LowestTerms(b);
    LowestTermsSameNumber(a);
    LowestTermsSameNumber(b);
    LowestTermsShape(a);
    LowestTermsShape(b);
    if la == lb {
      SameNumberTransitive(a, la, b);
    }
    if SameNumber(a, b) {
      SameNumberTransitive(la, a, b);
      SameNumberTransitive(la, b, lb);
      if la.exp <= lb.exp { LowestTermsUnique(la, lb); } else { LowestTermsUnique(lb, la); }
    }
  }

  // ------------------------------------------------- text of a number

  /** The text of a nonzero number before and after tidying. */
  function FixedText(d: Decimal): string { Sign(d.neg) + FixedMagnitude(d.coef, d.exp) }

  lemma DropLastDigit(c: nat)
    requires c > 0 && c % 10 == 0
    ensures c / 10 > 0 && Digits(c) == Digits(c / 10) + "0"
  {
  }

  lemma {:induction false} StripOne(s: string, c: char)
    ensures RightStrip(s + [c], c) == RightStrip(s, c)
  {
    assert (s + [c])[..|s|] == s;
  }

  lemma MoveZeroWhole(short: string, e: nat)
    ensures PlaceDigits(short + "0", e) == PlaceDigits(short, e + 1)
  {
    assert "0" + Zeros(e) == Zeros(e + 1);
    assert (short + "0") + Zeros(e) == short + ("0" + Zeros(e));
  }

  lemma PointZero(short: string)
    requires short != ""
    ensures PlaceDigits(short + "0", -1) == short + ".0" && PlaceDigits(short, 0) == short
  {
    assert (short + "0")[..|short|] == short && (short + "0")[|short|..] == "0";
  }

  lemma TidyPointZero(text: string)
    requires text != "" && text[|text| - 1] != '.' && '.' !in text
    ensures Tidy(text + ".0") == text == Tidy(text)
  {
    assert text + ".0" == text + "." + "0" && (text + ".0")[|text|] == '.';
    StripOne(text + ".", '0');
    StripOne(text, '.');
  }

  lemma MoveZeroAtPoint(sign: string, short: string)
    requires AllDigits(short) && short != "" && (sign == "" || sign == "-")
    ensures Tidy(sign + PlaceDigits(short + "0", -1)) == Tidy(sign + PlaceDigits(short, 0))
  {
    PointZero(short);
    TidyPointZero(sign + short);
    assert sign + (short + ".0") == (sign + short) + ".0";
  }

  lemma MoveZeroFraction(short: string, e: int)
    requires short != "" && e < -1
    ensures PlaceDigits(short + "0", e) == PlaceDigits(short, e + 1) + "0"
    ensures '.' in PlaceDigits(short, e + 1)
  {
    var ds := short + "0";
    if |short| > -(e + 1) {
      assert ds[..|ds| + e] == short[..|short| + e + 1];
      assert ds[|ds| + e..] == short[|short| + e + 1..] + "0";
      assert PlaceDigits(short, e + 1)[|short| + e + 1] == '.';
    } else {
      assert PlaceDigits(short, e + 1)[1] == '.';
      assert "0." + Zeros(-e - |ds|) + (short + "0") == "0." + Zeros(-e - |ds|) + short + "0";
    }
  }

  /** Moving one trailing zero from the coefficient to the exponent does not change the text. */
  lemma TidyIgnoresTrailingZero(sign: string, short: string, e: int)
    requires AllDigits(short) && short != "" && (sign == "" || sign == "-")
    ensures Tidy(sign + PlaceDigits(short + "0", e)) == Tidy(sign + PlaceDigits(short, e + 1))
  {
    if e >= 0 {
      MoveZeroWhole(short, e);
    } else if e == -1 {
      MoveZeroAtPoint(sign, short);
    } else {
      MoveZeroFraction(short, e);
      var other := sign + PlaceDigits(short, e + 1);
      assert sign + PlaceDigits(short + "0", e) == other + "0";
      StripOne(other, '0');
    }
  }

  /** A number without trailing zeros prints in fixed form with nothing to strip. */
  lemma LowestTextIsTidy(d: Decimal)
    requires d.coef % 10 != 0
    ensures Tidy(FixedText(d)) == FixedText(d)
  {
    var text := FixedText(d);
    var ds := Digits(d.coef);
    if d.exp < 0 {
      assert text[|text| - 1] == ds[|ds| - 1];
      assert RightStrip(text, '0') == text;
      assert RightStrip(text, '.') == text;
    } else {
      assert forall i | 0 <= i < |text| :: text[i] != '.';
    }
  }

  lemma {:induction false} TextOfLowestTerms(d: Decimal)
    requires d.coef != 0
    ensures Tidy(FixedText(d)) == FixedText(LowestTerms(d))
    decreases d.coef
  {
    if d.coef % 10 == 0 {
      DropLastDigit(d.coef);
      TidyIgnoresTrailingZero(Sign(d.neg), Digits(d.coef / 10), d.exp);
      TextOfLowestTerms(Decimal(d.neg, d.coef / 10, d.exp + 1));
    } else {
      LowestTextIsTidy(d);
    }
  }

  /** What `render` prints for any accepted number: the fixed form of its lowest terms. */
  function NumberText(lowest: Decimal): string {
    if lowest.coef == 0 then "0" else FixedText(lowest)
  }

  lemma RenderDecimalText(d: Decimal)
    requires RenderDecimal(d).Ok?
    ensures RenderDecimal(d).value == NumberText(LowestTerms(d))
  {
    LowestTermsShape(d);
    if d.coef != 0 {
      TextOfLowestTerms(d);
    }
  }

  function IntAsDecimal(n: int): Decimal { Decimal(n < 0, Abs(n), 0) }

  lemma RenderIntText(n: int)
    requires RenderInt(n).Ok?
    ensures RenderInt(n).value == NumberText(LowestTerms(IntAsDecimal(n)))
  {
    var d := IntAsDecimal(n);
    LowestTermsShape(d);
    if n == 0 {
      assert Sign(false) + Digits(0) == "0";
    } else {
      TextOfLowestTerms(d);
      assert FixedText(d) == Sign(n < 0) + Digits(Abs(n));
      assert forall i | 0 <= i < |FixedText(d)| :: FixedText(d)[i] != '.';
    }
  }

  // ----------------------------------------------------------- reading

  /** How many leading characters are digits. */
  function DigitRun(t: string): (n: nat)
    ensures n <= |t| && AllDigits(t[..n])
    ensures n < |t| ==> !IsDigit(t[n])
  {
    if t != "" && IsDigit(t[0]) then
      var n := 1 + DigitRun(t[1..]);
      assert t[..n] == [t[0]] + t[1..][..n - 1];
      n
    else 0
  }

  lemma {:induction false} DigitRunOf(s: string, rest: string)
    requires AllDigits(s) && (rest == "" || !IsDigit(rest[0]))
    ensures DigitRun(s + rest) == |s|
  {
    if s == "" {
      assert s + rest == rest;
    } else {
      assert (s + rest)[1..] == s[1..] + rest;
      DigitRunOf(s[1..], rest);
    }
  }

  /** The optional exponent `[eE][-+]?\d+`: its value and what follows it. */
  function ReadExponent(t: string): (r: (int, string))
    ensures |r.1| <= |t|
  {
    if t == "" || t[0] !in "eE" then (0, t)
    else
      var signed := |t| > 1 && t[1] in "+-";
      var digits := t[if signed then 2 else 1..];
      var n := DigitRun(digits);
      if n == 0 then (0, t)
      else
        var magnitude: int := DigitsValue(digits[..n]);
        (if signed && t[1] == '-' then -magnitude else magnitude, digits[n..])
  }

  /** The optional fraction `\.\d+`: how many digits follow the point. */
  function FractionRun(tail: string): (n: nat)
    ensures n > 0 ==> 1 + n <= |tail| && tail[0] == '.' && AllDigits(tail[1..1 + n])
  {
    if tail != "" && tail[0] == '.' then
      var n := DigitRun(tail[1..]);
      assert tail[1..1 + n] == tail[1..][..n];
      n
    else 0
  }

  /** The whole part of `(?:0|[1-9]\d*)`: a leading zero stands alone. */
  function WholeRun(body: string): (n: nat)
    ensures n <= |body| && AllDigits(body[..n])
  {
    var run := DigitRun(body);
    assert run > 0 ==> body[..1] == body[..run][..1];
    if run > 0 && body[0] == '0' then 1 else run
  }

  /** The JSON number grammar, kept exact: `parse_int` and `parse_float` are both Decimal. */
  function ReadNumber(t: string): (r: Option<(Decimal, string)>)
    ensures r.Some? ==> |r.value.1| < |t|
  {
    var neg := t != "" && t[0] == '-';
    var body := if neg then t[1..] else t;
    var whole := WholeRun(body);
    if whole == 0 then None
    else
      var (coef, exp, rest) := ReadMagnitude(body, whole);
      Some((Decimal(neg, coef, exp), rest))
  }

  function ReadMagnitude(body: string, whole: nat): (r: (nat, int, string))
    requires 0 < whole <= |body| && AllDigits(body[..whole])
    ensures |r.2| < |body|
  {
    var tail := body[whole..];
    var fraction := FractionRun(tail);
    if fraction == 0 then
      var (exponent, rest) := ReadExponent(tail);
      (DigitsValue(body[..whole]), exponent, rest)
    else
      var (exponent, rest) := ReadExponent(tail[1 + fraction..]);
      (DigitsValue(body[..whole] + tail[1..1 + fraction]), exponent - fraction, rest)
  }

  /** No character that could continue a number. */
  predicate EndsNumber(rest: string) {
    rest == "" || (!IsDigit(rest[0]) && rest[0] !in ".eE")
  }

  lemma {:induction false} LowestTermsOfScaled(neg: bool, c: nat, e: nat)
    requires c % 10 != 0
    ensures LowestTerms(Decimal(neg, c * Pow10(e), 0)) == Decimal(neg, c, e)
  {
    LowestTermsAbsorb(neg, c, e, 0);
  }

  lemma {:induction false} LowestTermsAbsorb(neg: bool, c: nat, k: nat, exp: int)
    requires c % 10 != 0
    ensures LowestTerms(Decimal(neg, c * Pow10(k), exp)) == Decimal(neg, c, exp + k)
    decreases k
  {
    if k == 0 {
      assert c * Pow10(0) == c;
    } else {
      var shorter := c * Pow10(k - 1);
      assert c * Pow10(k) == 10 * shorter;
      CancelFactor(c, 0, Pow10(k - 1));
      LowestTermsAbsorb(neg, c, k - 1, exp + 1);
    }
  }

  lemma WholeRunOf(whole: string, tail: string)
    requires AllDigits(whole) && whole != "" && (whole[0] == '0' ==> whole == "0")
    requires tail == "" || !IsDigit(tail[0])
    ensures WholeRun(whole + tail) == |whole|
    ensures (whole + tail)[..|whole|] == whole && (whole + tail)[|whole|..] == tail
  {
    DigitRunOf(whole, tail);
  }

  lemma ReadSigned(neg: bool, body: string, coef: nat, exp: int, rest: string)
    requires body != "" && body[0] != '-' && WholeRun(body) > 0
    requires ReadMagnitude(body, WholeRun(body)) == (coef, exp, rest)
    ensures ReadNumber(Sign(neg) + body) == Some((Decimal(neg, coef, exp), rest))
  {
    var t := Sign(neg) + body;
    assert t[0] == if neg then '-' else body[0];
    assert (if neg then t[1..] else t) == body;
  }

  /** Reading plain digits: no point, no exponent. */
  lemma ReadWhole(neg: bool, body: string, ds: string, rest: string)
    requires AllDigits(ds) && ds != "" && (ds[0] == '0' ==> ds == "0") && EndsNumber(rest)
    requires body == ds + rest
    ensures ReadNumber(Sign(neg) + body) == Some((Decimal(neg, DigitsValue(ds), 0), rest))
  {
    WholeRunOf(ds, rest);
    WholeMagnitude(body, |ds|, rest);
    ReadSigned(neg, body, DigitsValue(ds), 0, rest);
  }

  lemma WholeMagnitude(body: string, whole: nat, rest: string)
    requires 0 < whole <= |body| && AllDigits(body[..whole]) && body[whole..] == rest && EndsNumber(rest)
    ensures ReadMagnitude(body, whole) == (DigitsValue(body[..whole]), 0, rest)
  {
    assert FractionRun(rest) == 0;
  }

  lemma FractionRunOf(fraction: string, rest: string, tail: string)
    requires AllDigits(fraction) && fraction != "" && EndsNumber(rest)
    requires tail == "." + (fraction + rest)
    ensures FractionRun(tail) == |fraction| && tail[1..1 + |fraction|] == fraction
    ensures tail[1 + |fraction|..] == rest
  {
    assert tail[1..] == fraction + rest;
    DigitRunOf(fraction, rest);
    assert tail[1..1 + |fraction|] == fraction;
  }

  lemma ReadMagnitudePointed(body: string, whole: nat, fraction: nat, digits: string)
    requires 0 < whole < |body| && AllDigits(body[..whole]) && AllDigits(digits)
    requires 0 < fraction == FractionRun(body[whole..])
    requires digits == body[..whole] + body[whole..][1..1 + fraction]
    requires EndsNumber(body[whole..][1 + fraction..])
    ensures ReadMagnitude(body, whole) == (DigitsValue(digits), 0 - fraction, body[whole..][1 + fraction..])
  {
    assert ReadExponent(body[whole..][1 + fraction..]) == (0, body[whole..][1 + fraction..]);
  }

  lemma PointedMagnitude(body: string, whole: string, fraction: string, rest: string, digits: string)
    requires AllDigits(whole) && whole != "" && (whole[0] == '0' ==> whole == "0")
    requires AllDigits(fraction) && fraction != "" && EndsNumber(rest)
    requires AllDigits(digits) && digits == whole + fraction
    requires body == whole + ("." + (fraction + rest))
    ensures WholeRun(body) == |whole| && body[0] == whole[0]
    ensures ReadMagnitude(body, |whole|) == (DigitsValue(digits), 0 - |fraction|, rest)
  {
    hide ReadMagnitude;
    var tail := "." + (fraction + rest);
    WholeRunOf(whole, tail);
    FractionRunOf(fraction, rest, tail);
    ReadMagnitudePointed(body, |whole|, |fraction|, digits);
  }

  /** Reading digits, a point and more digits. */
  lemma ReadPointed(neg: bool, body: string, whole: string, fraction: string, rest: string, digits: string)
    requires AllDigits(whole) && whole != "" && (whole[0] == '0' ==> whole == "0")
    requires AllDigits(fraction) && fraction != "" && EndsNumber(rest)
    requires AllDigits(digits) && digits == whole + fraction
    requires body == whole + ("." + (fraction + rest))
    ensures ReadNumber(Sign(neg) + body) == Some((Decimal(neg, DigitsValue(digits), 0 - |fraction|), rest))
  {
    hide ReadNumber;
    hide ReadMagnitude;
    PointedMagnitude(body, whole, fraction, rest, digits);
    ReadSigned(neg, body, DigitsValue(digits), 0 - |fraction|, rest);
  }

  predicate IsLowest(d: Decimal) { d.coef % 10 != 0 || d == Decimal(false, 0, 0) }

  lemma ReadPlacedWhole(neg: bool, ds: string, e: nat, rest: string)
    requires AllDigits(ds) && ds != "" && (ds[0] == '0' ==> ds == "0" && e == 0) && EndsNumber(rest)
    ensures ReadNumber(Sign(neg) + PlaceDigits(ds, e) + rest) ==
            Some((Decimal(neg, DigitsValue(ds) * Pow10(e), 0), rest))
  {
    hide ReadNumber;
    var digits := ds + Zeros(e);
    assert ds == "0" ==> digits == "0";
    AppendZeros(ds, e);
    ReadWhole(neg, digits + rest, digits, rest);
    assert Sign(neg) + digits + rest == Sign(neg) + (digits + rest);
  }

  /** Fixed form with a point is a whole part, the point and a fraction. */
  lemma SplitAtPoint(ds: string, e: int) returns (whole: string, fraction: string, digits: string)
    requires AllDigits(ds) && ds != "" && ds[0] != '0' && e < 0
    ensures PlaceDigits(ds, e) == whole + "." + fraction
    ensures AllDigits(whole) && whole != "" && (whole[0] == '0' ==> whole == "0")
    ensures AllDigits(fraction) && |fraction| == -e
    ensures digits == whole + fraction && AllDigits(digits) && DigitsValue(digits) == DigitsValue(ds)
  {
    if |ds| > -e {
      whole, fraction, digits := ds[..|ds| + e], ds[|ds| + e..], ds;
    } else {
      var pad := -e - |ds|;
      whole, fraction, digits := "0", Zeros(pad) + ds, Zeros(1 + pad) + ds;
      LeadingZeros(1 + pad, ds);
      assert Zeros(1 + pad) == "0" + Zeros(pad);
      assert "0." + Zeros(pad) + ds == "0" + "." + (Zeros(pad) + ds);
    }
  }

  lemma ReadPlacedFraction(neg: bool, ds: string, e: int, rest: string)
    requires AllDigits(ds) && ds != "" && ds[0] != '0' && EndsNumber(rest) && e < 0
    ensures ReadNumber(Sign(neg) + PlaceDigits(ds, e) + rest) == Some((Decimal(neg, DigitsValue(ds), e), rest))
  {
    var whole, fraction, digits := SplitAtPoint(ds, e);
    Regroup(Sign(neg), whole, ".", fraction, rest);
    ReadPointed(neg, whole + ("." + (fraction + rest)), whole, fraction, rest, digits);
  }

  lemma Regroup(a: string, b: string, c: string, d: string, e: string)
    ensures a + (b + c + d) + e == a + (b + (c + (d + e)))
  {
  }

  /** What the reader makes of a printed number: a number printed without a point comes back as
      a whole number with its zeros spelt out. */
  function RereadNumber(lowest: Decimal): Decimal {
    if lowest.exp >= 0 then Decimal(lowest.neg, lowest.coef * Pow10(lowest.exp), 0) else lowest
  }

  /** The reader inverts the printer on every number, up to numeric equality. */
  lemma ReadNumberText(lowest: Decimal, rest: string)
    requires IsLowest(lowest) && EndsNumber(rest)
    ensures ReadNumber(NumberText(lowest) + rest) == Some((RereadNumber(lowest), rest))
    ensures LowestTerms(RereadNumber(lowest)) == lowest
  {
    var neg, c, e := lowest.neg, lowest.coef, lowest.exp;
    DigitsValueOfDigits(c);
    if c == 0 {
      ReadPlacedWhole(neg, Digits(0), 0, rest);
      assert NumberText(lowest) == Sign(false) + PlaceDigits(Digits(0), 0);
      assert DigitsValue(Digits(0)) * Pow10(0) == 0;
    } else if e >= 0 {
      ReadPlacedWhole(neg, Digits(c), e, rest);
      LowestTermsOfScaled(neg, c, e);
    } else {
      ReadPlacedFraction(neg, Digits(c), e, rest);
    }
  }
}
