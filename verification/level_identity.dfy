/**
 The exact arithmetic of a liquidity level's identity (project_a/numeric_state.py): its price as
 a whole number of ticks, and the tick size as canonical text.
 */
module LevelIdentity {
  import opened Outcomes
  import opened DecimalText

  /** `_canonical_decimal`: fixed notation without trailing zeros, and one spelling of zero. */
  function CanonicalDecimal(d: Decimal): string { if d.coef == 0 then "0" else Tidy(FixedText(d)) }

  lemma CanonicalText(d: Decimal)
    ensures CanonicalDecimal(d) == NumberText(LowestTerms(d)) && IsLowest(LowestTerms(d))
  {
    LowestTermsShape(d);
    if d.coef != 0 {
      TextOfLowestTerms(d);
    }
  }

  /** Two numbers have the same text exactly when they are equal, however they are spelt. */
  lemma CanonicalDecimalIff(a: Decimal, b: Decimal)
    ensures CanonicalDecimal(a) == CanonicalDecimal(b) <==> SameNumber(a, b)
  {
    CanonicalText(a);
    CanonicalText(b);
    SameNumberIff(a, b);
    hide NumberText;
    hide ReadNumber;
    hide LowestTerms;
    assert NumberText(LowestTerms(a)) + "" == NumberText(LowestTerms(a));
    assert NumberText(LowestTerms(b)) + "" == NumberText(LowestTerms(b));
    ReadNumberText(LowestTerms(a), "");
    ReadNumberText(LowestTerms(b), "");
  }

  predicate Positive(d: Decimal) { !d.neg && d.coef > 0 }

  function Numerator(d: Decimal): nat { d.coef * Pow10(if d.exp > 0 then d.exp else 0) }

  function Denominator(d: Decimal): nat { Pow10(if d.exp < 0 then -d.exp else 0) }

  lemma PositiveProduct(a: nat, b: nat)
    requires a > 0 && b > 0
    ensures a * b > 0
  {
  }

  /** The level price in ticks, when it lies on the tick grid. The ratios need not be reduced:
      that changes neither the quotient nor whether there is a remainder. */
  function Ticks(price: Decimal, tick: Decimal): Option<nat>
    requires Positive(price) && Positive(tick)
  {
    var numerator := Numerator(price) * Denominator(tick);
    var denominator := Denominator(price) * Numerator(tick);
    PositiveProduct(tick.coef, Pow10(if tick.exp > 0 then tick.exp else 0));
    PositiveProduct(Denominator(price), Numerator(tick));
    if numerator % denominator == 0 then Some(numerator / denominator) else None
  }

  function Times(n: nat, d: Decimal): Decimal { Decimal(false, n * d.coef, d.exp) }

  lemma DivisionIff(x: nat, y: nat, n: nat)
    requires y > 0
    ensures (x % y == 0 && x / y == n) <==> x == n * y
  {
    if x == n * y {
      assert x / y == n by { DivideMultiple(n, y); }
    }
  }

  lemma DivideMultiple(n: nat, y: nat)
    requires y > 0
    ensures (n * y) / y == n && (n * y) % y == 0
  {
    var x := n * y;
    QuotientUnique(x, y, x / y, x % y, n);
  }

  lemma QuotientUnique(x: nat, y: nat, q: int, r: int, n: nat)
    requires x == q * y + r && 0 <= r < y && x == n * y
    ensures q == n && r == 0
  {
    assert (n - q) * y == r;
    if n > q { AtLeast(n - q, y); }
    if n < q { AtLeast(q - n, y); }
  }

  lemma AtLeast(d: int, y: int)
    requires d >= 1 && y > 0
    ensures d * y >= y && (-d) * y <= -y
  {
  }

  /** Both sides of the division, brought to the common scale of price and tick. */
  lemma CommonScale(price: Decimal, tick: Decimal, n: nat)
    requires Positive(price) && Positive(tick)
    ensures Numerator(price) * Denominator(tick) == n * (Denominator(price) * Numerator(tick)) <==>
            SameNumber(price, Times(n, tick))
  {
    var s := if price.exp <= tick.exp then price.exp else tick.exp;
    var pu := if price.exp > 0 then price.exp else 0;
    var pd := if price.exp < 0 then -price.exp else 0;
    var tu := if tick.exp > 0 then tick.exp else 0;
    var td := if tick.exp < 0 then -tick.exp else 0;
    var k := pd + td + s;
    Pow10Add(pu, td);
    Pow10Add(pd, tu);
    Pow10Add(price.exp - s, k);
    Pow10Add(tick.exp - s, k);
    var x, y := price.coef * Pow10(price.exp - s), n * tick.coef * Pow10(tick.exp - s);
    LeftSide(price.coef, Pow10(pu), Pow10(td), Pow10(price.exp - s), Pow10(k));
    RightSide(n, tick.coef, Pow10(pd), Pow10(tu), Pow10(tick.exp - s), Pow10(k));
    CancelFactor(x, y, Pow10(k));
  }

  lemma LeftSide(c: nat, a: nat, b: nat, r: nat, k: nat)
    requires a * b == r * k
    ensures c * a * b == c * r * k
  {
    assert c * a * b == c * (a * b) && c * r * k == c * (r * k);
  }

  lemma RightSide(n: nat, c: nat, a: nat, b: nat, r: nat, k: nat)
    requires a * b == r * k
    ensures n * (a * (c * b)) == n * c * r * k
  {
    assert n * (a * (c * b)) == n * c * (a * b) && n * c * r * k == n * c * (r * k);
  }

  /** A price is n ticks exactly when it equals n times the tick size: nothing is ever rounded. */
  lemma TicksIff(price: Decimal, tick: Decimal, n: nat)
    requires Positive(price) && Positive(tick)
    ensures Ticks(price, tick) == Some(n) <==> SameNumber(price, Times(n, tick))
  {
    PositiveProduct(tick.coef, Pow10(if tick.exp > 0 then tick.exp else 0));
    PositiveProduct(Denominator(price), Numerator(tick));
    DivisionIff(Numerator(price) * Denominator(tick), Denominator(price) * Numerator(tick), n);
    CommonScale(price, tick, n);
    hide Numerator;
    hide Denominator;
    hide SameNumber;
  }

  lemma TimesSame(n: nat, a: Decimal, b: Decimal)
    requires Positive(a) && Positive(b)
    ensures SameNumber(a, b) ==> SameNumber(Times(n, a), Times(n, b))
    ensures n > 0 && SameNumber(Times(n, a), Times(n, b)) ==> SameNumber(a, b)
  {
    var s := if a.exp <= b.exp then a.exp else b.exp;
    var p, q := Pow10(a.exp - s), Pow10(b.exp - s);
    assert n * a.coef * p == n * (a.coef * p) && n * b.coef * q == n * (b.coef * q);
    if n > 0 {
      CancelLeft(n, a.coef * p, b.coef * q);
    }
  }

  lemma CancelLeft(n: nat, x: int, y: int)
    requires n > 0
    ensures n * x == n * y ==> x == y
  {
    assert n * x == x * n && n * y == y * n;
    CancelFactor(x, y, n);
  }

  /** The part of the identity that prices go into. */
  function PriceIdentity(price: Decimal, tick: Decimal): Option<(string, nat)>
    requires Positive(price) && Positive(tick)
  {
    match Ticks(price, tick) case Some(n) => Some((CanonicalDecimal(tick), n)) case None => None
  }

  /** Two levels get the same price identity exactly when price and tick size are equal numbers. */
  lemma PriceIdentityIff(p: Decimal, t: Decimal, q: Decimal, u: Decimal)
    requires Positive(p) && Positive(t) && Positive(q) && Positive(u)
    requires Ticks(p, t).Some? && Ticks(q, u).Some?
    ensures PriceIdentity(p, t) == PriceIdentity(q, u) <==> SameNumber(p, q) && SameNumber(t, u)
  {
    var m, n := Ticks(p, t).value, Ticks(q, u).value;
    TicksIff(p, t, m);
    TicksIff(q, u, n);
    TicksIff(q, u, m);
    CanonicalDecimalIff(t, u);
    TimesSame(m, t, u);
    hide SameNumber;
    hide Ticks;
    hide CanonicalDecimal;
    hide Times;
    if SameNumber(t, u) {
      if m == n {
        SameNumberTransitive(p, Times(m, t), Times(m, u));
        SameNumberTransitive(p, Times(m, u), q);
      }
      if SameNumber(p, q) {
        SameNumberTransitive(q, p, Times(m, t));
        SameNumberTransitive(q, Times(m, t), Times(m, u));
      }
    }
  }
}
