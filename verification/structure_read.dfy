/**
 Fractal pivots, zigzag swings and the run of higher or lower swings (analyze/swing_pivots.py,
 analyze/structure_state.py, analyze/structure_read.py), and what new bars cannot change in them.
 */
module StructureRead {
  import Outcomes

  datatype Bar = Bar(time: int, high: real, low: real, close: real)

  datatype Kind = H | L

  datatype Pivot = Pivot(idx: nat, kind: Kind, price: real, time: int)

  // ------------------------------------------------------ pivots

  predicate Above(a: real, b: real, strict: bool) { if strict then a > b else a >= b }

  /** The high (or low) of bar i stands out from the k bars on either side. */
  predicate IsPivot(bars: seq<Bar>, kind: Kind, k: nat, strict: bool, i: nat)
    requires k <= i && i + k < |bars|
  {
    forall j | i - k <= j <= i + k && j != i ::
      if kind == H then Above(bars[i].high, bars[j].high, strict) else Above(bars[j].low, bars[i].low, strict)
  }

  function PivotAt(bars: seq<Bar>, kind: Kind, i: nat): Pivot
    requires i < |bars|
  {
    Pivot(i, kind, if kind == H then bars[i].high else bars[i].low, bars[i].time)
  }

  /** The pivots of one kind among bars k..n-1, in order. */
  function PivotsUpTo(bars: seq<Bar>, kind: Kind, k: nat, strict: bool, n: nat): (pivots: seq<Pivot>)
    requires n + k <= |bars|
    ensures forall p | p in pivots :: k <= p.idx < n && p.kind == kind
  {
    if n <= k then []
    else
      PivotsUpTo(bars, kind, k, strict, n - 1) +
      if IsPivot(bars, kind, k, strict, n - 1) then [PivotAt(bars, kind, n - 1)] else []
  }

  function Pivots(bars: seq<Bar>, kind: Kind, k: nat, strict: bool): seq<Pivot> {
    if |bars| < 2 * k + 1 then [] else PivotsUpTo(bars, kind, k, strict, |bars| - k)
  }

  /** `detect_pivots`. */
  method DetectPivots(bars: seq<Bar>, k: nat, strict: bool) returns (highs: seq<Pivot>, lows: seq<Pivot>)
    ensures highs == Pivots(bars, H, k, strict) && lows == Pivots(bars, L, k, strict)
  {
    highs, lows := [], [];
    if |bars| < 2 * k + 1 { return; }
    for i := k to |bars| - k
      invariant highs == PivotsUpTo(bars, H, k, strict, i) && lows == PivotsUpTo(bars, L, k, strict, i)
    {
      if IsPivot(bars, H, k, strict, i) { highs := highs + [PivotAt(bars, H, i)]; }
      if IsPivot(bars, L, k, strict, i) { lows := lows + [PivotAt(bars, L, i)]; }
    }
  }

  lemma {:induction false} PivotsKept(bars: seq<Bar>, more: seq<Bar>, kind: Kind, k: nat, strict: bool, n: nat)
    requires n + k <= |bars|
    ensures PivotsUpTo(bars + more, kind, k, strict, n) == PivotsUpTo(bars, kind, k, strict, n)
  {
    if n > k {
      PivotsKept(bars, more, kind, k, strict, n - 1);
      var all := bars + more;
      assert forall j | 0 <= j < |bars| :: all[j] == bars[j];
      assert IsPivot(all, kind, k, strict, n - 1) == IsPivot(bars, kind, k, strict, n - 1);
    }
  }

  // ------------------------------------------------------ the chronological list of both kinds

  function Insert(p: Pivot, sorted: seq<Pivot>): seq<Pivot> {
    if sorted == [] || p.idx <= sorted[0].idx then [p] + sorted else [sorted[0]] + Insert(p, sorted[1..])
  }

  /** A stable sort by index. */
  function SortByIndex(pivots: seq<Pivot>): seq<Pivot> {
    if pivots == [] then [] else Insert(pivots[0], SortByIndex(pivots[1..]))
  }

  /** The points `swing_sequence` hands to the zigzag: highs, then lows, sorted. */
  function Points(highs: seq<Pivot>, lows: seq<Pivot>): seq<Pivot> { SortByIndex(highs + lows) }

  lemma {:induction false} InsertBefore(a: Pivot, s: seq<Pivot>, last: Pivot)
    requires a.idx <= last.idx
    ensures Insert(a, s + [last]) == Insert(a, s) + [last]
  {
    if s != [] {
      assert (s + [last])[1..] == s[1..] + [last];
      if a.idx > s[0].idx {
        InsertBefore(a, s[1..], last);
      }
    }
  }

  lemma {:induction false} InsertLast(p: Pivot, s: seq<Pivot>)
    requires forall q | q in s :: q.idx < p.idx
    ensures Insert(p, s) == s + [p]
  {
    if s != [] {
      InsertLast(p, s[1..]);
    }
  }

  lemma {:induction false} SortKeeps(s: seq<Pivot>)
    ensures forall p :: p in SortByIndex(s) <==> p in s
  {
    if s != [] {
      SortKeeps(s[1..]);
      InsertKeeps(s[0], SortByIndex(s[1..]));
    }
  }

  lemma {:induction false} InsertKeeps(p: Pivot, s: seq<Pivot>)
    ensures forall q :: q in Insert(p, s) <==> q == p || q in s
  {
    if s != [] && p.idx > s[0].idx {
      InsertKeeps(p, s[1..]);
    }
  }

  /** An entry later than all others sorts to the end, wherever it stands. */
  lemma {:induction false} SortMovesLast(a: seq<Pivot>, p: Pivot, b: seq<Pivot>)
    requires forall q | q in a + b :: q.idx < p.idx
    ensures SortByIndex(a + [p] + b) == SortByIndex(a + b) + [p]
  {
    if a == [] {
      assert a + [p] + b == [p] + b && a + b == b;
      SortKeeps(b);
      InsertLast(p, SortByIndex(b));
    } else {
      assert (a + [p] + b)[1..] == a[1..] + [p] + b && (a + b)[1..] == a[1..] + b;
      SortMovesLast(a[1..], p, b);
      InsertBefore(a[0], SortByIndex(a[1..] + b), p);
    }
  }

  /** An entry no earlier than any other stays last. */
  lemma {:induction false} SortKeepsLast(a: seq<Pivot>, p: Pivot)
    requires forall q | q in a :: q.idx <= p.idx
    ensures SortByIndex(a + [p]) == SortByIndex(a) + [p]
  {
    if a != [] {
      assert (a + [p])[1..] == a[1..] + [p];
      SortKeepsLast(a[1..], p);
      InsertBefore(a[0], SortByIndex(a[1..]), p);
    }
  }

  function PointsUpTo(bars: seq<Bar>, k: nat, strict: bool, n: nat): seq<Pivot>
    requires n + k <= |bars|
  {
    Points(PivotsUpTo(bars, H, k, strict, n), PivotsUpTo(bars, L, k, strict, n))
  }

  lemma PointsStep(bars: seq<Bar>, k: nat, strict: bool, n: nat)
    requires k < n && n + k <= |bars|
    ensures PointsUpTo(bars, k, strict, n) ==
            PointsUpTo(bars, k, strict, n - 1) +
            (if IsPivot(bars, H, k, strict, n - 1) then [PivotAt(bars, H, n - 1)] else []) +
            (if IsPivot(bars, L, k, strict, n - 1) then [PivotAt(bars, L, n - 1)] else [])
  {
    var highs, lows := PivotsUpTo(bars, H, k, strict, n - 1), PivotsUpTo(bars, L, k, strict, n - 1);
    var h := if IsPivot(bars, H, k, strict, n - 1) then [PivotAt(bars, H, n - 1)] else [];
    var l := if IsPivot(bars, L, k, strict, n - 1) then [PivotAt(bars, L, n - 1)] else [];
    hide IsPivot;
    assert PivotsUpTo(bars, H, k, strict, n) == highs + h && PivotsUpTo(bars, L, k, strict, n) == lows + l;
    hide PivotsUpTo;
    MergeLast(highs, h, lows, l, n - 1);
  }

  lemma MergeLast(highs: seq<Pivot>, h: seq<Pivot>, lows: seq<Pivot>, l: seq<Pivot>, idx: nat)
    requires (forall q | q in highs :: q.idx < idx) && (forall q | q in lows :: q.idx < idx) && |h| <= 1 && |l| <= 1
    requires (forall q | q in h :: q.idx == idx) && (forall q | q in l :: q.idx == idx)
    ensures Points(highs + h, lows + l) == Points(highs, lows) + h + l
  {
    hide SortByIndex;
    if h != [] {
      assert h == [h[0]];
      SortMovesLast(highs, h[0], lows);
    }
    assert (highs + h) + (lows + l) == (highs + h + lows) + l;
    if l != [] {
      assert l == [l[0]];
      SortKeepsLast(highs + h + lows, l[0]);
    }
    assert highs + [] + lows == highs + lows && (highs + h + lows) + [] == highs + h + lows;
  }

  /** Below bar k there are no pivots yet. */
  lemma NoPointsYet(bars: seq<Bar>, k: nat, strict: bool, n: nat)
    requires n <= k && n + k <= |bars|
    ensures PointsUpTo(bars, k, strict, n) == []
  {
  }

  lemma {:induction false} PointsGrow(bars: seq<Bar>, k: nat, strict: bool, m: nat, n: nat)
    requires m <= n && n + k <= |bars|
    ensures PointsUpTo(bars, k, strict, m) <= PointsUpTo(bars, k, strict, n)
    decreases n
  {
    hide IsPivot;
    hide PivotAt;
    if m < n {
      PointsGrow(bars, k, strict, m, n - 1);
      if k < n {
        PointsStep(bars, k, strict, n);
      } else {
        NoPointsYet(bars, k, strict, m);
      }
      hide PointsUpTo;
    }
  }

  function BarPoints(bars: seq<Bar>, k: nat, strict: bool): seq<Pivot> {
    Points(Pivots(bars, H, k, strict), Pivots(bars, L, k, strict))
  }

  /** New bars only add pivots and points; none already there moves or goes. */
  lemma PointsKept(bars: seq<Bar>, more: seq<Bar>, k: nat, strict: bool)
    ensures Pivots(bars, H, k, strict) <= Pivots(bars + more, H, k, strict)
    ensures Pivots(bars, L, k, strict) <= Pivots(bars + more, L, k, strict)
    ensures BarPoints(bars, k, strict) <= BarPoints(bars + more, k, strict)
  {
    NoPoints();
    hide PivotsUpTo;
    hide Points;
    hide IsPivot;
    if |bars| >= 2 * k + 1 {
      var all, n := bars + more, |bars| - k;
      PivotsKept(bars, more, H, k, strict, n);
      PivotsKept(bars, more, L, k, strict, n);
      PivotsGrow(all, H, k, strict, n, |all| - k);
      PivotsGrow(all, L, k, strict, n, |all| - k);
      PointsGrow(all, k, strict, n, |all| - k);
    }
  }

  lemma NoPoints()
    ensures Points([], []) == []
  {
  }

  lemma {:induction false} PivotsGrow(bars: seq<Bar>, kind: Kind, k: nat, strict: bool, m: nat, n: nat)
    requires m <= n && n + k <= |bars|
    ensures PivotsUpTo(bars, kind, k, strict, m) <= PivotsUpTo(bars, kind, k, strict, n)
    decreases n
  {
    if m < n {
      PivotsGrow(bars, kind, k, strict, m, n - 1);
    }
  }

  // ------------------------------------------------------ zigzag

  function Abs(x: real): real { if x < 0.0 then -x else x }

  /** `p` is beyond `q` in the direction of its kind. */
  predicate Beyond(p: Pivot, q: Pivot) { if p.kind == H then p.price > q.price else p.price < q.price }

  function ZigStep(swings: seq<Pivot>, p: Pivot, minSwing: real): seq<Pivot> {
    if swings == [] then [p]
    else
      var last := swings[|swings| - 1];
      if p.kind == last.kind then
        if Beyond(p, last) then swings[..|swings| - 1] + [p] else swings
      else if Abs(p.price - last.price) >= minSwing then swings + [p]
      else swings
  }

  function Zigzag(points: seq<Pivot>, minSwing: real): seq<Pivot> {
    if points == [] then []
    else ZigStep(Zigzag(points[..|points| - 1], minSwing), points[|points| - 1], minSwing)
  }

  /** `_zigzag`. */
  method ZigzagSwings(points: seq<Pivot>, minSwing: real) returns (swings: seq<Pivot>)
    ensures swings == Zigzag(points, minSwing)
  {
    swings := [];
    for n := 0 to |points|
      invariant swings == Zigzag(points[..n], minSwing)
    {
      var p := points[n];
      assert points[..n + 1][..n] == points[..n];
      if swings == [] {
        swings := swings + [p];
      } else {
        var last := swings[|swings| - 1];
        if p.kind == last.kind {
          if (p.kind == H && p.price > last.price) || (p.kind == L && p.price < last.price) {
            swings := swings[|swings| - 1 := p];
          }
        } else if Abs(p.price - last.price) >= minSwing {
          swings := swings + [p];
        }
      }
    }
    assert points[..|points|] == points;
  }

  predicate Alternating(swings: seq<Pivot>) { forall i | 0 <= i && i + 1 < |swings| :: swings[i].kind != swings[i + 1].kind }

  /** The same kind, and at least as extreme. */
  predicate NoLess(p: Pivot, q: Pivot) { p.kind == q.kind && (p == q || Beyond(p, q)) }

  /** The new list keeps all old swings but the last, which may only have become more extreme. */
  predicate Refines(before: seq<Pivot>, after: seq<Pivot>) {
    before == [] ||
    (|before| <= |after| && after[..|before| - 1] == before[..|before| - 1] &&
     NoLess(after[|before| - 1], before[|before| - 1]))
  }

  lemma {:induction false} SwingsAlternate(points: seq<Pivot>, minSwing: real)
    ensures Alternating(Zigzag(points, minSwing))
  {
    if points != [] {
      SwingsAlternate(points[..|points| - 1], minSwing);
    }
  }

  lemma StepRefines(swings: seq<Pivot>, p: Pivot, minSwing: real)
    ensures Refines(swings, ZigStep(swings, p, minSwing))
  {
  }

  lemma RefinesOn(a: seq<Pivot>, b: seq<Pivot>, c: seq<Pivot>)
    requires Refines(a, b) && Refines(b, c)
    ensures Refines(a, c)
  {
    if a != [] {
      var n := |a| - 1;
      assert forall i | 0 <= i < n :: a[i] == a[..n][i] && b[i] == b[..n][i] && c[i] == c[..|b| - 1][i];
      if |a| < |b| {
        assert c[n] == c[..|b| - 1][n];
      }
    }
  }

  lemma {:induction false} PointsRefine(points: seq<Pivot>, more: seq<Pivot>, minSwing: real)
    ensures Refines(Zigzag(points, minSwing), Zigzag(points + more, minSwing))
    decreases |more|
  {
    if more == [] {
      assert points + more == points;
    } else {
      var front := more[..|more| - 1];
      var all := points + more;
      assert all[..|all| - 1] == points + front;
      PointsRefine(points, front, minSwing);
      StepRefines(Zigzag(points + front, minSwing), more[|more| - 1], minSwing);
      RefinesOn(Zigzag(points, minSwing), Zigzag(points + front, minSwing), Zigzag(all, minSwing));
    }
  }

  /** `swing_sequence` over the pivots of some bars. */
  function Swings(bars: seq<Bar>, k: nat, strict: bool, minSwing: real): seq<Pivot> {
    if minSwing <= 0.0 then [] else Zigzag(BarPoints(bars, k, strict), minSwing)
  }

  method SwingSequence(highs: seq<Pivot>, lows: seq<Pivot>, minSwing: real) returns (swings: seq<Pivot>)
    ensures swings == if minSwing <= 0.0 then [] else Zigzag(Points(highs, lows), minSwing)
  {
    if minSwing <= 0.0 { return []; }
    swings := ZigzagSwings(SortByIndex(highs + lows), minSwing);
  }

  /** No repaint: for fixed k and threshold, new bars keep every swing but the last; the swing now
      in the last one's place has its kind and is at least as extreme; and kinds alternate. */
  lemma NoRepaint(bars: seq<Bar>, more: seq<Bar>, k: nat, strict: bool, minSwing: real)
    ensures Refines(Swings(bars, k, strict, minSwing), Swings(bars + more, k, strict, minSwing))
    ensures Alternating(Swings(bars + more, k, strict, minSwing))
  {
    PointsKept(bars, more, k, strict);
    var points, all := BarPoints(bars, k, strict), BarPoints(bars + more, k, strict);
    hide BarPoints;
    assert all == points + all[|points|..];
    PointsRefine(points, all[|points|..], minSwing);
    SwingsAlternate(all, minSwing);
  }

  // ------------------------------------------------------ what the zigzag does not promise

  /** A high above the low before it, or a low below the high before it. */
  predicate RightSided(q: Pivot, last: Pivot) {
    if last.kind == H then last.price >= q.price else last.price <= q.price
  }

  /** Neighbouring swings may come closer than the threshold: a more extreme pivot can shrink the
      last gap exactly when the last swing lies on the wrong side of the one before it, a high
      below the prior low or a low above the prior high. */
  lemma GapCanShrinkIff(swings: seq<Pivot>, minSwing: real)
    requires |swings| >= 2 && Alternating(swings) && minSwing > 0.0
    requires var q, last := swings[|swings| - 2], swings[|swings| - 1]; Abs(last.price - q.price) >= minSwing
    ensures var q, last := swings[|swings| - 2], swings[|swings| - 1];
            (exists p: Pivot :: p.kind == last.kind && ZigStep(swings, p, minSwing) == swings[..|swings| - 1] + [p] &&
                                Abs(p.price - q.price) < minSwing)
            <==> !RightSided(q, last)
  {
    var q, last := swings[|swings| - 2], swings[|swings| - 1];
    if !RightSided(q, last) {
      var p := Pivot(last.idx + 1, last.kind, q.price, last.time);
      assert ZigStep(swings, p, minSwing) == swings[..|swings| - 1] + [p];
    }
    forall p: Pivot | p.kind == last.kind && ZigStep(swings, p, minSwing) == swings[..|swings| - 1] + [p] && RightSided(q, last)
      ensures Abs(p.price - q.price) >= minSwing
    {
      assert (swings[..|swings| - 1] + [p])[|swings| - 1] == p;
    }
  }

  lemma NoSwings(minSwing: real)
    ensures Zigzag([], minSwing) == []
  {
  }

  lemma ThreeSwings(a: Pivot, b: Pivot, c: Pivot, minSwing: real)
    requires a.kind == H && b.kind == L && c.kind == H && a.price == c.price && a.price > b.price
    ensures Zigzag([a, b, c], minSwing) == if a.price - b.price >= minSwing then [a, b, c] else [a]
  {
    NoSwings(minSwing);
    hide Zigzag;
    assert [] + [a] == [a] && [a] + [b] == [a, b] && [a, b] + [c] == [a, b, c];
    ZigzagSnoc([], a, minSwing);
    ZigzagSnoc([a], b, minSwing);
    ZigzagSnoc([a, b], c, minSwing);
  }

  lemma ZigzagSnoc(points: seq<Pivot>, p: Pivot, minSwing: real)
    ensures Zigzag(points + [p], minSwing) == ZigStep(Zigzag(points, minSwing), p, minSwing)
  {
    assert (points + [p])[..|points|] == points;
  }

  // ------------------------------------------------------ a threshold that moves

  /** A gap that one threshold lets through and the other does not. */
  predicate Between(gap: real, one: real, other: real) { one <= gap < other || other <= gap < one }

  /** The next point does not close an opposite-kind gap between the thresholds. */
  predicate StepAgrees(swings: seq<Pivot>, p: Pivot, one: real, other: real) {
    swings != [] && p.kind != swings[|swings| - 1].kind ==>
      !Between(Abs(p.price - swings[|swings| - 1].price), one, other)
  }

  /** No opposite-kind gap met along the fold lies between the thresholds. */
  predicate GapsAgree(points: seq<Pivot>, one: real, other: real) {
    points == [] ||
    (GapsAgree(points[..|points| - 1], one, other) &&
     StepAgrees(Zigzag(points[..|points| - 1], one), points[|points| - 1], one, other))
  }

  lemma StepSameIff(swings: seq<Pivot>, p: Pivot, one: real, other: real)
    ensures ZigStep(swings, p, one) == ZigStep(swings, p, other) <==> StepAgrees(swings, p, one, other)
  {
    assert |swings + [p]| == |swings| + 1;
  }

  /** The readings of every beginning of the points are the same under both thresholds. */
  predicate AlwaysSame(points: seq<Pivot>, one: real, other: real) {
    forall n | 0 <= n <= |points| :: Zigzag(points[..n], one) == Zigzag(points[..n], other)
  }

  lemma AlwaysSameSnoc(front: seq<Pivot>, p: Pivot, one: real, other: real)
    ensures AlwaysSame(front + [p], one, other) <==>
            AlwaysSame(front, one, other) && Zigzag(front + [p], one) == Zigzag(front + [p], other)
  {
    hide Zigzag;
    var points := front + [p];
    assert forall n | 0 <= n <= |front| :: points[..n] == front[..n];
    assert points[..|points|] == points && front[..|front|] == front;
    if AlwaysSame(front, one, other) && Zigzag(points, one) == Zigzag(points, other) {
      forall n | 0 <= n <= |points| ensures Zigzag(points[..n], one) == Zigzag(points[..n], other) {
        if n <= |front| {
          assert points[..n] == front[..n];
        } else {
          assert points[..n] == points;
        }
      }
    }
    if AlwaysSame(points, one, other) {
      forall n | 0 <= n <= |front| ensures Zigzag(front[..n], one) == Zigzag(front[..n], other) {
        assert points[..n] == front[..n];
      }
      assert Zigzag(points[..|points|], one) == Zigzag(points[..|points|], other);
    }
  }

  /** A changed threshold is harmless, for the whole list and every beginning of it, exactly when no
      opposite-kind gap met along the fold lies between the old and the new one. */
  lemma {:induction false} HarmlessIff(points: seq<Pivot>, one: real, other: real)
    ensures AlwaysSame(points, one, other) <==> GapsAgree(points, one, other)
    ensures GapsAgree(points, one, other) ==> Zigzag(points, one) == Zigzag(points, other)
  {
    if points == [] {
      assert points[..0] == [];
    } else {
      var front, p := points[..|points| - 1], points[|points| - 1];
      assert front + [p] == points;
      HarmlessIff(front, one, other);
      AlwaysSameSnoc(front, p, one, other);
      StepSameIff(Zigzag(front, one), p, one, other);
      ZigzagSnoc(front, p, one);
      ZigzagSnoc(front, p, other);
      hide ZigStep;
      hide StepAgrees;
      if AlwaysSame(front, one, other) {
        assert front[..|front|] == front;
      }
      hide Zigzag;
    }
  }

  lemma BarPointsAre(bars: seq<Bar>, k: nat, strict: bool)
    requires k <= |bars|
    ensures BarPoints(bars, k, strict) == PointsUpTo(bars, k, strict, |bars| - k)
  {
    NoPoints();
    hide Points;
    if |bars| < 2 * k + 1 { NoPointsYet(bars, k, strict, |bars| - k); }
  }

  lemma PointsUpToKept(bars: seq<Bar>, more: seq<Bar>, k: nat, strict: bool, n: nat)
    requires n + k <= |bars|
    ensures PointsUpTo(bars + more, k, strict, n) == PointsUpTo(bars, k, strict, n)
  {
    PivotsKept(bars, more, H, k, strict, n);
    PivotsKept(bars, more, L, k, strict, n);
    hide PivotsUpTo;
    hide Points;
  }

  /** What a bar adds to the points: a high, a low, both or neither. */
  function Added(bars: seq<Bar>, k: nat, strict: bool, i: nat): seq<Pivot>
    requires k <= i && i + k < |bars|
  {
    (if IsPivot(bars, H, k, strict, i) then [PivotAt(bars, H, i)] else []) +
    (if IsPivot(bars, L, k, strict, i) then [PivotAt(bars, L, i)] else [])
  }

  lemma AddedIsSmall(bars: seq<Bar>, k: nat, strict: bool, i: nat)
    requires k <= i && i + k < |bars|
    ensures |Added(bars, k, strict, i)| <= 2
    ensures |Added(bars, k, strict, i)| == 2 ==> Added(bars, k, strict, i)[0].kind != Added(bars, k, strict, i)[1].kind
  {
    hide IsPivot;
  }

  lemma AddedStep(bars: seq<Bar>, k: nat, strict: bool, n: nat)
    requires k < n && n + k <= |bars|
    ensures PointsUpTo(bars, k, strict, n) == PointsUpTo(bars, k, strict, n - 1) + Added(bars, k, strict, n - 1)
  {
    PointsStep(bars, k, strict, n);
    hide IsPivot;
    hide PivotAt;
    hide PointsUpTo;
  }

  lemma BarStep(bars: seq<Bar>, last: Bar, k: nat, strict: bool) returns (added: seq<Pivot>)
    ensures BarPoints(bars + [last], k, strict) == BarPoints(bars, k, strict) + added
    ensures |added| <= 2 && (|added| == 2 ==> added[0].kind != added[1].kind)
  {
    hide PointsUpTo;
    hide Added;
    hide Points;
    hide PivotsUpTo;
    var all := bars + [last];
    if |all| < 2 * k + 1 {
      return [];
    }
    hide BarPoints;
    var n := |all| - k;
    added := Added(all, k, strict, n - 1);
    BarPointsAre(all, k, strict);
    BarPointsAre(bars, k, strict);
    PointsUpToKept(bars, [last], k, strict, n - 1);
    AddedStep(all, k, strict, n);
    AddedIsSmall(all, k, strict, n - 1);
  }

  /** Two points of opposite kinds at once: a disagreement over the first cannot be made good by
      the second. */
  lemma PairSameIff(swings: seq<Pivot>, a: Pivot, b: Pivot, one: real, other: real)
    requires a.kind != b.kind
    ensures ZigStep(ZigStep(swings, a, one), b, one) == ZigStep(ZigStep(swings, a, other), b, other) <==>
            StepAgrees(swings, a, one, other) && StepAgrees(ZigStep(swings, a, one), b, one, other)
  {
    StepSameIff(swings, a, one, other);
    StepSameIff(ZigStep(swings, a, one), b, one, other);
    if !StepAgrees(swings, a, one, other) {
      assert |ZigStep(ZigStep(swings, a, one), b, one)| != |ZigStep(ZigStep(swings, a, other), b, other)|;
    }
  }

  lemma GapsAgreeSnoc(points: seq<Pivot>, p: Pivot, one: real, other: real)
    ensures GapsAgree(points + [p], one, other) <==>
            GapsAgree(points, one, other) && StepAgrees(Zigzag(points, one), p, one, other)
  {
    assert (points + [p])[..|points|] == points;
  }

  /** The reading after the points of one more bar is the same exactly when their gaps agree too. */
  lemma AddedSameIff(points: seq<Pivot>, added: seq<Pivot>, one: real, other: real)
    requires |added| <= 2 && (|added| == 2 ==> added[0].kind != added[1].kind) && GapsAgree(points, one, other)
    ensures Zigzag(points + added, one) == Zigzag(points + added, other) <==> GapsAgree(points + added, one, other)
  {
    HarmlessIff(points, one, other);
    hide Zigzag;
    hide GapsAgree;
    hide AlwaysSame;
    if added == [] {
      assert points + added == points;
    } else {
      var next := points + [added[0]];
      ZigzagSnoc(points, added[0], one);
      ZigzagSnoc(points, added[0], other);
      GapsAgreeSnoc(points, added[0], one, other);
      StepSameIff(Zigzag(points, one), added[0], one, other);
      if |added| == 1 {
        assert points + added == next;
      } else {
        assert points + added == next + [added[1]];
        ZigzagSnoc(next, added[1], one);
        ZigzagSnoc(next, added[1], other);
        GapsAgreeSnoc(next, added[1], one, other);
        PairSameIff(Zigzag(points, one), added[0], added[1], one, other);
      }
      hide ZigStep;
      hide StepAgrees;
    }
  }

  lemma {:induction false} AgreeingEarlier(points: seq<Pivot>, more: seq<Pivot>, one: real, other: real)
    requires GapsAgree(points + more, one, other)
    ensures GapsAgree(points, one, other)
    decreases |more|
  {
    hide GapsAgree;
    hide StepAgrees;
    if more == [] {
      assert points + more == points;
    } else {
      var front, last := more[..|more| - 1], more[|more| - 1];
      assert points + more == (points + front) + [last];
      GapsAgreeSnoc(points + front, last, one, other);
      AgreeingEarlier(points, front, one, other);
    }
  }

  /** The swings read after each of the bars are the same under both thresholds. */
  predicate ReadAlike(bars: seq<Bar>, k: nat, strict: bool, one: real, other: real) {
    forall n | 0 <= n <= |bars| :: Swings(bars[..n], k, strict, one) == Swings(bars[..n], k, strict, other)
  }

  lemma ReadAlikeSnoc(bars: seq<Bar>, last: Bar, k: nat, strict: bool, one: real, other: real)
    ensures ReadAlike(bars + [last], k, strict, one, other) <==>
            ReadAlike(bars, k, strict, one, other) &&
            Swings(bars + [last], k, strict, one) == Swings(bars + [last], k, strict, other)
  {
    hide Swings;
    var all := bars + [last];
    assert all[..|all|] == all;
    assert forall n | 0 <= n <= |bars| :: all[..n] == bars[..n];
    if ReadAlike(all, k, strict, one, other) {
      assert Swings(all[..|all|], k, strict, one) == Swings(all[..|all|], k, strict, other);
      forall n | 0 <= n <= |bars| ensures Swings(bars[..n], k, strict, one) == Swings(bars[..n], k, strict, other) {
        assert Swings(all[..n], k, strict, one) == Swings(all[..n], k, strict, other);
      }
    }
  }

  /** From bars: the swings read under two thresholds are the same after every bar exactly when no
      opposite-kind gap met among the bars' points lies between the two. */
  lemma {:induction false} BarsReadAlikeIff(bars: seq<Bar>, k: nat, strict: bool, one: real, other: real)
    requires one > 0.0 && other > 0.0
    ensures ReadAlike(bars, k, strict, one, other) <==> GapsAgree(BarPoints(bars, k, strict), one, other)
  {
    hide Zigzag;
    hide ReadAlike;
    if bars == [] {
      NothingReadAlike(k, strict, one, other);
    } else {
      var front, last := bars[..|bars| - 1], bars[|bars| - 1];
      assert front + [last] == bars;
      BarsReadAlikeIff(front, k, strict, one, other);
      ReadAlikeSnoc(front, last, k, strict, one, other);
      var added := BarStep(front, last, k, strict);
      var points := BarPoints(front, k, strict);
      hide BarPoints;
      hide GapsAgree;
      if GapsAgree(points, one, other) {
        AddedSameIff(points, added, one, other);
      } else if GapsAgree(points + added, one, other) {
        AgreeingEarlier(points, added, one, other);
      }
    }
  }

  lemma NothingReadAlike(k: nat, strict: bool, one: real, other: real)
    ensures ReadAlike([], k, strict, one, other) && BarPoints([], k, strict) == []
    ensures GapsAgree([], one, other)
  {
    NoPoints();
    var none: seq<Bar> := [];
    assert none[..0] == none;
    assert BarPoints([], k, strict) == [];
    hide Points;
  }

  type Period = n: nat | n > 0 witness 14

  /** `structure.min_swing`: how the threshold is made from the bars. */
  datatype Method = FromAtr(period: Period, times: real) | OfPrice(part: real) | Fixed(value: real)

  function Max(a: real, b: real): real { if a >= b then a else b }

  function TrueRange(bars: seq<Bar>, i: nat): real
    requires 0 < i < |bars|
  {
    var b, before := bars[i], bars[i - 1].close;
    Max(Max(b.high - b.low, Abs(b.high - before)), Abs(b.low - before))
  }

  /** The true ranges of bars from..to-1, added up. */
  function RangeSum(bars: seq<Bar>, from: nat, to: nat): real
    requires 0 < from <= to <= |bars|
  {
    if from == to then 0.0 else RangeSum(bars, from, to - 1) + TrueRange(bars, to - 1)
  }

  function AtrOf(bars: seq<Bar>, period: Period): Outcomes.Option<real> {
    if |bars| < period + 1 then Outcomes.None
    else Outcomes.Some(RangeSum(bars, |bars| - period, |bars|) / period as real)
  }

  /** `atr`: the mean true range of the last bars, nothing for too few. */
  method Atr(bars: seq<Bar>, period: Period) returns (mean: Outcomes.Option<real>)
    ensures mean == AtrOf(bars, period)
  {
    if |bars| < period + 1 { return Outcomes.None; }
    var sum := 0.0;
    for i := |bars| - period to |bars|
      invariant sum == RangeSum(bars, |bars| - period, i)
    {
      sum := sum + TrueRange(bars, i);
    }
    return Outcomes.Some(sum / period as real);
  }

  function Scaled(part: real, value: Outcomes.Option<real>): Outcomes.Option<real> {
    match value case None => Outcomes.None case Some(x) => Outcomes.Some(part * x)
  }

  function LastClose(bars: seq<Bar>): Outcomes.Option<real> {
    if bars == [] then Outcomes.None else Outcomes.Some(bars[|bars| - 1].close)
  }

  /** `min_swing_threshold` on the bars and their last close. */
  function MinSwing(bars: seq<Bar>, m: Method): Outcomes.Option<real> {
    match m
    case FromAtr(period, times) => Scaled(times, AtrOf(bars, period))
    case OfPrice(part) => Scaled(part, LastClose(bars))
    case Fixed(value) => Outcomes.Some(value)
  }

  /** The swings that `read_tf` reads from some bars: the threshold is made anew each time. */
  function ReadSwings(bars: seq<Bar>, k: nat, strict: bool, m: Method): seq<Pivot> {
    match MinSwing(bars, m)
    case None => []
    case Some(minSwing) => Swings(bars, k, strict, minSwing)
  }

  /** When the bars that came later change the threshold without passing a gap met so far, nothing
      already read is repainted. */
  lemma ReadingKept(bars: seq<Bar>, more: seq<Bar>, k: nat, strict: bool, m: Method)
    requires var later := MinSwing(bars + more, m); later.Some? && later.value > 0.0
    requires var now, later := MinSwing(bars, m), MinSwing(bars + more, m);
             now.Some? ==> GapsAgree(BarPoints(bars, k, strict), now.value, later.value)
    ensures Refines(ReadSwings(bars, k, strict, m), ReadSwings(bars + more, k, strict, m))
  {
    hide MinSwing;
    hide BarPoints;
    hide Zigzag;
    hide GapsAgree;
    var now, later := MinSwing(bars, m), MinSwing(bars + more, m);
    if now.Some? && now.value > 0.0 {
      HarmlessIff(BarPoints(bars, k, strict), now.value, later.value);
      NoRepaint(bars, more, k, strict, later.value);
    }
  }

  const FIVE_BARS := [Bar(0, 8.5, 8.2, 8.3), Bar(1, 10.0, 9.0, 9.5), Bar(2, 8.6, 8.0, 8.4), Bar(3, 10.0, 9.0, 9.0),
                      Bar(4, 9.0, 8.5, 9.0)]
  const WIDE_BAR := Bar(5, 9.0, 4.0, 5.0)

  function HighAt(i: nat): Pivot { Pivot(i, H, 10.0, i) }

  lemma FiveBarPoints(bars: seq<Bar>)
    requires bars == FIVE_BARS || bars == FIVE_BARS + [WIDE_BAR]
    ensures BarPoints(bars, 1, true) == [HighAt(1), Pivot(2, L, 8.0, 2), HighAt(3)]
  {
    var highs, lows := [HighAt(1), HighAt(3)], [Pivot(2, L, 8.0, 2)];
    FivePivots(bars);
    assert Pivots(bars, H, 1, true) == highs && Pivots(bars, L, 1, true) == lows;
    hide Pivots;
    SortFive();
  }

  lemma SortFive()
    ensures Points([HighAt(1), HighAt(3)], [Pivot(2, L, 8.0, 2)]) == [HighAt(1), Pivot(2, L, 8.0, 2), HighAt(3)]
  {
    var all := [HighAt(1), HighAt(3)] + [Pivot(2, L, 8.0, 2)];
    assert all[1..][1..] == [Pivot(2, L, 8.0, 2)] && all[1..][1..][1..] == [];
    assert SortByIndex([]) == [];
    assert SortByIndex(all[1..][1..]) == [Pivot(2, L, 8.0, 2)];
    assert [Pivot(2, L, 8.0, 2)][1..] == [];
    assert SortByIndex(all[1..]) == [Pivot(2, L, 8.0, 2), HighAt(3)];
  }

  lemma FivePivots(bars: seq<Bar>)
    requires bars == FIVE_BARS || bars == FIVE_BARS + [WIDE_BAR]
    ensures Pivots(bars, H, 1, true) == [HighAt(1), HighAt(3)] && Pivots(bars, L, 1, true) == [Pivot(2, L, 8.0, 2)]
  {
    assert bars[..5] == FIVE_BARS;
    assert forall i | 0 <= i < 5 :: bars[i] == FIVE_BARS[i];
    assert IsPivot(bars, H, 1, true, 1) && IsPivot(bars, L, 1, true, 2) && IsPivot(bars, H, 1, true, 3);
    assert !IsPivot(bars, L, 1, true, 1) by { assert !Above(bars[0].low, bars[1].low, true); }
    assert !IsPivot(bars, H, 1, true, 2) by { assert !Above(bars[2].high, bars[1].high, true); }
    assert !IsPivot(bars, L, 1, true, 3) by { assert !Above(bars[2].low, bars[3].low, true); }
    if |bars| == 6 {
      assert bars[5] == WIDE_BAR;
      assert !IsPivot(bars, H, 1, true, 4) by { assert !Above(bars[4].high, bars[3].high, true); }
      assert !IsPivot(bars, L, 1, true, 4) by { assert !Above(bars[5].low, bars[4].low, true); }
    }
    hide IsPivot;
    assert PivotsUpTo(bars, H, 1, true, 1) == [] && PivotsUpTo(bars, L, 1, true, 1) == [];
    assert PivotsUpTo(bars, H, 1, true, 2) == [HighAt(1)] && PivotsUpTo(bars, L, 1, true, 2) == [];
    assert PivotsUpTo(bars, H, 1, true, 3) == [HighAt(1)] && PivotsUpTo(bars, L, 1, true, 3) == [Pivot(2, L, 8.0, 2)];
    assert PivotsUpTo(bars, H, 1, true, 4) == [HighAt(1), HighAt(3)];
    assert PivotsUpTo(bars, L, 1, true, 4) == [Pivot(2, L, 8.0, 2)];
  }

  lemma WideBarThreshold()
    ensures MinSwing(FIVE_BARS, FromAtr(1, 1.0)) == Outcomes.Some(0.5)
    ensures MinSwing(FIVE_BARS + [WIDE_BAR], FromAtr(1, 1.0)) == Outcomes.Some(5.0)
  {
    var all := FIVE_BARS + [WIDE_BAR];
    assert RangeSum(FIVE_BARS, 4, 5) == TrueRange(FIVE_BARS, 4) == 0.5;
    assert RangeSum(all, 5, 6) == TrueRange(all, 5) == 5.0;
  }

  /** Read from bars, with the threshold made from the range of the last bar: one wide bar takes
      back two of the three swings read before it. */
  lemma WideBarRepaints()
    ensures var m := FromAtr(1, 1.0);
            var before, after := ReadSwings(FIVE_BARS, 1, true, m), ReadSwings(FIVE_BARS + [WIDE_BAR], 1, true, m);
            before == [HighAt(1), Pivot(2, L, 8.0, 2), HighAt(3)] && after == [HighAt(1)] && !Refines(before, after)
  {
    hide BarPoints;
    hide Zigzag;
    hide MinSwing;
    FiveBarPoints(FIVE_BARS);
    FiveBarPoints(FIVE_BARS + [WIDE_BAR]);
    WideBarThreshold();
    ThreeSwings(HighAt(1), Pivot(2, L, 8.0, 2), HighAt(3), 0.5);
    ThreeSwings(HighAt(1), Pivot(2, L, 8.0, 2), HighAt(3), 5.0);
  }

  // ------------------------------------------------------ higher and lower swings

  datatype Label = HH | LH | HL | LL | EQ

  function LabelOf(before: Pivot, p: Pivot): Label {
    if p.kind == H then if p.price > before.price then HH else if p.price < before.price then LH else EQ
    else if p.price > before.price then HL else if p.price < before.price then LL else EQ
  }

  predicate IsUp(l: Label) { l == HH || l == HL }

  predicate IsDown(l: Label) { l == LH || l == LL }

  datatype Trend = None | Up | Down

  predicate Confirms(l: Label, trend: Trend) { (trend.Up? && IsUp(l)) || (trend.Down? && IsDown(l)) }

  function TrendOf(l: Label): Trend { if IsUp(l) then Up else if IsDown(l) then Down else None }

  /** The last swing of a kind among the first n, if there is one. */
  function LastOf(swings: seq<Pivot>, kind: Kind, n: nat): (last: seq<Pivot>)
    requires n <= |swings|
    ensures |last| <= 1
  {
    if n == 0 then [] else if swings[n - 1].kind == kind then [swings[n - 1]] else LastOf(swings, kind, n - 1)
  }

  /** The label of swing n against the last one of its kind before it, if there is one. */
  function LabelAt(swings: seq<Pivot>, n: nat): (found: seq<Label>)
    requires n < |swings|
    ensures |found| <= 1
  {
    var before := LastOf(swings, swings[n].kind, n);
    if before == [] then [] else [LabelOf(before[0], swings[n])]
  }

  /** The labels of the first n swings. */
  function LabelsUpTo(swings: seq<Pivot>, n: nat): seq<Label>
    requires n <= |swings|
  {
    if n == 0 then [] else LabelsUpTo(swings, n - 1) + LabelAt(swings, n - 1)
  }

  function Labels(swings: seq<Pivot>): seq<Label> { LabelsUpTo(swings, |swings|) }

  /** In an alternating list the swing of a kind before swing n is two places back. */
  lemma TwoBack(swings: seq<Pivot>, n: nat)
    requires Alternating(swings) && n < |swings|
    ensures LastOf(swings, swings[n].kind, n) == if n < 2 then [] else [swings[n - 2]]
  {
    if n >= 2 {
      assert swings[n - 2].kind != swings[n - 1].kind && swings[n - 1].kind != swings[n].kind;
    } else if n == 1 {
      assert swings[0].kind != swings[1].kind;
    }
  }

  lemma {:induction false} AlternatingLabelsUpTo(swings: seq<Pivot>, n: nat)
    requires Alternating(swings) && n <= |swings|
    ensures var labels := LabelsUpTo(swings, n);
            |labels| == (if n < 2 then 0 else n - 2) &&
            forall i | 0 <= i < |labels| :: labels[i] == LabelOf(swings[i], swings[i + 2])
  {
    if n > 0 {
      AlternatingLabelsUpTo(swings, n - 1);
      TwoBack(swings, n - 1);
      hide Alternating;
      hide LabelOf;
    }
  }

  /** In an alternating list, as the zigzag makes it, each swing from the third on is labelled
      against the one two places back. */
  lemma AlternatingLabels(swings: seq<Pivot>)
    requires Alternating(swings)
    ensures var labels := Labels(swings);
            |labels| == (if |swings| < 2 then 0 else |swings| - 2) &&
            forall i | 0 <= i < |labels| :: labels[i] == LabelOf(swings[i], swings[i + 2])
  {
    AlternatingLabelsUpTo(swings, |swings|);
  }

  /** The first loop of `consecutive_hl_lh`. */
  method LabelSwings(swings: seq<Pivot>) returns (labels: seq<Label>)
    ensures labels == Labels(swings)
  {
    hide LabelOf;
    var before: map<Kind, Pivot> := map[];
    labels := [];
    for n := 0 to |swings|
      invariant forall kind :: LastOf(swings, kind, n) == if kind in before then [before[kind]] else []
      invariant labels == LabelsUpTo(swings, n)
    {
      var p := swings[n];
      assert LastOf(swings, p.kind, n) == if p.kind in before then [before[p.kind]] else [];
      if p.kind in before {
        labels := labels + [LabelOf(before[p.kind], p)];
      }
      before := before[p.kind := p];
    }
  }

  /** `consecutive_hl_lh`: the labels, and the longest run of confirming ones at their end. */
  method ConsecutiveHlLh(swings: seq<Pivot>) returns (count: nat, trend: Trend, labels: seq<Label>)
    ensures labels == Labels(swings) && count <= |labels|
    ensures trend == if labels == [] then None else TrendOf(labels[|labels| - 1])
    ensures (forall i | |labels| - count <= i < |labels| :: Confirms(labels[i], trend)) && (trend.None? ==> count == 0)
    ensures count < |labels| ==> !Confirms(labels[|labels| - 1 - count], trend)
  {
    labels := LabelSwings(swings);
    hide Labels;
    count, trend := 0, None;
    var i := |labels|;
    while i > 0
      invariant 0 <= i <= |labels| && count == |labels| - i
      invariant trend == if count == 0 then None else TrendOf(labels[|labels| - 1])
      invariant forall j | i <= j < |labels| :: Confirms(labels[j], trend)
    {
      var l := labels[i - 1];
      if trend.None? {
        trend := TrendOf(l);
        if trend.None? { return; }
        count := 1;
      } else if Confirms(l, trend) {
        count := count + 1;
      } else {
        return;
      }
      i := i - 1;
    }
  }

  lemma RefinedLabels(before: seq<Pivot>, after: seq<Pivot>)
    requires Refines(before, after) && Alternating(before) && Alternating(after)
    ensures var was, now := Labels(before), Labels(after);
            |was| <= |now| && (forall i | 0 <= i < |was| - 1 :: now[i] == was[i]) &&
            (was != [] && was[|was| - 1] in {HH, LL} ==> now[|was| - 1] == was[|was| - 1])
  {
    AlternatingLabels(before);
    AlternatingLabels(after);
    hide Labels;
    if |before| > 2 {
      var n := |before| - 1;
      forall i | 0 <= i < n ensures after[i] == before[i] {
        assert after[..n][i] == before[..n][i];
      }
      hide LabelOf;
      forall i | 0 <= i < n - 2 ensures Labels(after)[i] == Labels(before)[i] {
        assert after[i] == before[i] && after[i + 2] == before[i + 2];
      }
      if LabelOf(before[n - 2], before[n]) in {HH, LL} { FurtherOut(before[n - 2], before[n], after[n]); }
    }
  }

  lemma FurtherOut(q: Pivot, p: Pivot, next: Pivot)
    requires NoLess(next, p) && LabelOf(q, p) in {HH, LL}
    ensures LabelOf(q, next) == LabelOf(q, p)
  {
  }

  /** No repaint for the labels: for fixed k and threshold new bars keep all labels but the last, and
      a last label that says the swing went further out (HH or LL) stays too. */
  lemma LabelsKept(bars: seq<Bar>, more: seq<Bar>, k: nat, strict: bool, minSwing: real)
    ensures var before, after := Labels(Swings(bars, k, strict, minSwing)), Labels(Swings(bars + more, k, strict, minSwing));
            |before| <= |after| && (forall i | 0 <= i < |before| - 1 :: after[i] == before[i]) &&
            (before != [] && before[|before| - 1] in {HH, LL} ==> after[|before| - 1] == before[|before| - 1])
  {
    NoRepaint(bars, more, k, strict, minSwing);
    NoRepaint(bars, [], k, strict, minSwing);
    assert bars + [] == bars;
    hide Swings;
    RefinedLabels(Swings(bars, k, strict, minSwing), Swings(bars + more, k, strict, minSwing));
    hide Labels;
  }

  /** `min_swing_threshold`. */
  method MinSwingThreshold(bars: seq<Bar>, m: Method) returns (minSwing: Outcomes.Option<real>)
    ensures minSwing == MinSwing(bars, m)
  {
    match m {
      case FromAtr(period, times) =>
        var mean := Atr(bars, period);
        return Scaled(times, mean);
      case OfPrice(part) => return Scaled(part, LastClose(bars));
      case Fixed(value) => return Outcomes.Some(value);
    }
  }

  /** `read_tf`: threshold, pivots, swings and labels of the bars of one timeframe. */
  method ReadTf(bars: seq<Bar>, k: nat, strict: bool, m: Method)
    returns (swings: seq<Pivot>, count: nat, trend: Trend, labels: seq<Label>)
    ensures swings == ReadSwings(bars, k, strict, m) && labels == Labels(swings)
    ensures trend == if labels == [] then None else TrendOf(labels[|labels| - 1])
    ensures count <= |labels| && forall i | |labels| - count <= i < |labels| :: Confirms(labels[i], trend)
  {
    var minSwing := MinSwingThreshold(bars, m);
    hide MinSwing;
    hide Pivots;
    hide Zigzag;
    hide Labels;
    var highs, lows := DetectPivots(bars, k, strict);
    swings := [];
    if minSwing.Some? {
      swings := SwingSequence(highs, lows, minSwing.value);
    }
    count, trend, labels := ConsecutiveHlLh(swings);
  }
}
