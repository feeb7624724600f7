/** Axis ticks: evenly spaced indices on the x axis, round cent values on the y axis. */
module Ticks {
  import opened Arithmetic

  function Max(a: int, b: int): int { if a > b then a else b }

  function Min(a: int, b: int): int { if a < b then a else b }

  /** Division of signed machine integers: towards zero. */
  function TruncDiv(a: int, b: int): int
    requires b > 0
  {
    if a >= 0 then a / b else -(-a / b)
  }

  // ---- x axis ----

  /** `round(a / b)` for non-negative a: halves go up. */
  function RoundDiv(a: nat, b: nat): nat
    requires b > 0
  {
    (2 * a + b) / (2 * b)
  }

  function CeilDiv(a: nat, b: nat): nat
    requires b > 0
  {
    if a % b == 0 then a / b else a / b + 1
  }

  /** How many labels are wanted for `n` quotes. */
  function TargetCount(n: nat, maxLabels: nat, plotWidth: int, minGapPx: int): nat {
    var byGap := Max(TruncDiv(plotWidth, Max(minGapPx, 1)) + 1, 2);
    Min(Min(Max(maxLabels, 2), byGap), n)
  }

  /** Adding `b` moves a quotient by b/d rounded down or up. */
  lemma QuotientStep(a: nat, b: nat, d: nat)
    requires d > 0
    ensures b / d <= (a + b) / d - a / d <= CeilDiv(b, d)
  {
    QuotientOfSum(a, b, d);
  }

  lemma Halve(a: nat, b: nat)
    requires b > 0
    ensures 2 * a / (2 * b) == a / b && CeilDiv(2 * a, 2 * b) == CeilDiv(a, b)
  {
    var q, r := DivMod(a, b);
    assert 2 * a == (2 * b) * q + 2 * r;
    DivUnique(2 * a, 2 * b, q, 2 * r);
  }

  /** Rounding k * n / t for k = 0, 1, ... moves by n/t rounded down or up. */
  lemma RoundStep(k: nat, n: nat, t: nat)
    requires t > 0
    ensures n / t <= RoundDiv((k + 1) * n, t) - RoundDiv(k * n, t) <= CeilDiv(n, t)
  {
    assert 2 * ((k + 1) * n) + t == (2 * (k * n) + t) + 2 * n;
    QuotientStep(2 * (k * n) + t, 2 * n, 2 * t);
    Halve(n, t);
  }

  lemma RoundExact(q: nat, t: nat)
    requires t > 0
    ensures RoundDiv(t * q, t) == q
  {
    assert 2 * (t * q) + t == (2 * t) * q + t;
    DivUnique(2 * (t * q) + t, 2 * t, q, t);
  }

  /** The index list of the x axis: nothing, the only quote, both ends, or one rounded index a label. */
  function EvenIndices(n: nat, maxLabels: nat, plotWidth: int, minGapPx: int): (out: seq<int>)
    ensures n >= 2 ==> IsEvenlySpaced(out, n, TargetCount(n, maxLabels, plotWidth, minGapPx))
    ensures forall i :: 0 <= i < |out| ==> 0 <= out[i] < n
  {
    if n == 0 then []
    else if n == 1 then [0]
    else
      var target := TargetCount(n, maxLabels, plotWidth, minGapPx);
      if target == 2 then
        DivUnique(n - 1, 1, n - 1, 0);
        [0, n - 1]
      else RoundedIndices(n - 1, target - 1)
  }

  /** Exactly the target number of indices, from the first to the last quote, strictly increasing,
      with gaps that differ by at most one: neither the duplicate check nor the two repairs at the
      end ever change anything. */
  method ChooseEvenlySpacedIndices(n: nat, maxLabels: nat, plotWidth: int, minGapPx: int) returns (out: seq<int>)
    ensures out == EvenIndices(n, maxLabels, plotWidth, minGapPx)
  {
    if n == 0 {
      return [];
    }
    if n == 1 {
      return [0];
    }
    var target := TargetCount(n, maxLabels, plotWidth, minGapPx);
    if target == 2 {
      return [0, n - 1];
    }
    out := CollectIndices(n, target);
  }

  /** The general case: one rounded index per label. */
  method CollectIndices(n: nat, target: nat) returns (out: seq<int>)
    requires 2 < target <= n
    ensures out == RoundedIndices(n - 1, target - 1)
  {
    ghost var want := RoundedIndices(n - 1, target - 1);
    out := [];
    for k := 0 to target
      invariant out == want[..k]
    {
      var idx := RoundDiv(k * (n - 1), target - 1);
      RoundedAt(n - 1, target - 1, k);
      if |out| == 0 || out[|out| - 1] != idx {
        out := out + [idx];
      }
    }
    if |out| == 0 || out[0] != 0 {
      out := [0] + out;
    }
    if |out| == 0 || out[|out| - 1] != n - 1 {
      out := out + [n - 1];
    }
  }

  /** round(0 * n / t), ..., round(t * n / t). */
  function RoundedIndices(n: nat, t: nat): (want: seq<int>)
    requires 0 < t <= n
    ensures IsEvenlySpaced(want, n + 1, t + 1)
    ensures forall i :: 0 <= i < |want| ==> 0 <= want[i] <= n
  {
    var want := seq(t + 1, k requires 0 <= k <= t => RoundDiv(k * n, t));
    RoundedAreEven(n, t, want);
    want
  }

  lemma RoundedAreEven(n: nat, t: nat, want: seq<int>)
    requires 0 < t <= n && |want| == t + 1
    requires forall k :: 0 <= k <= t ==> want[k] == RoundDiv(k * n, t)
    ensures IsEvenlySpaced(want, n + 1, t + 1)
    ensures forall i :: 0 <= i < |want| ==> 0 <= want[i] <= n
  {
    RoundExact(0, t);
    RoundExact(n, t);
    forall i | 0 <= i < t
      ensures want[i] < want[i + 1] && EvenGap(want[i + 1] - want[i], n, t)
    {
      RoundedGap(n, t, want[i], want[i + 1], i);
    }
    forall i | 0 <= i < |want|
      ensures 0 <= want[i] <= n
    {
      RoundedInRange(i, n, t);
    }
  }

  lemma RoundedGap(n: nat, t: nat, a: int, b: int, i: nat)
    requires 0 < t <= n && a == RoundDiv(i * n, t) && b == RoundDiv((i + 1) * n, t)
    ensures a < b && EvenGap(b - a, n, t)
  {
    QuotientPositive(n, t);
    RoundStep(i, n, t);
  }

  lemma RoundedInRange(i: nat, n: nat, t: nat)
    requires 0 < t && i <= t
    ensures RoundDiv(i * n, t) <= n
  {
    MulMono(n, i, t);
    RoundExact(n, t);
    DivMono(2 * (i * n) + t, 2 * (t * n) + t, 2 * t);
  }

  lemma RoundedAt(n: nat, t: nat, k: nat)
    requires 0 < t <= n && k <= t
    ensures RoundedIndices(n, t)[k] == RoundDiv(k * n, t)
  {
  }

  /** The real gap n/t, rounded down or up. */
  predicate EvenGap(gap: int, n: nat, t: nat)
    requires t > 0
  {
    n / t <= gap <= CeilDiv(n, t)
  }

  predicate IsEvenlySpaced(out: seq<int>, n: nat, target: nat)
    requires n >= 2
  {
    && target >= 2 && |out| == target
    && out[0] == 0 && out[target - 1] == n - 1
    && (forall i :: 0 <= i < target - 1 ==> out[i] < out[i + 1])
    && (forall i :: 0 <= i < target - 1 ==> EvenGap(out[i + 1] - out[i], n - 1, target - 1))
  }

  function XOfIndex(idx: nat, n: nat, plotLeft: int, plotWidth: nat): int
    requires n >= 2
  {
    plotLeft + RoundDiv(idx * plotWidth, n - 1)
  }

  /** Every index lands inside the plot. */
  lemma XIsInside(idx: nat, n: nat, plotLeft: int, plotWidth: nat)
    requires n >= 2 && idx < n
    ensures plotLeft <= XOfIndex(idx, n, plotLeft, plotWidth) <= plotLeft + plotWidth
    ensures idx == 0 ==> XOfIndex(idx, n, plotLeft, plotWidth) == plotLeft
    ensures idx == n - 1 ==> XOfIndex(idx, n, plotLeft, plotWidth) == plotLeft + plotWidth
  {
    var d := n - 1;
    RoundExact(0, d);
    RoundExact(plotWidth, d);
    MulMono(plotWidth, idx, d);
    DivMono(2 * (idx * plotWidth) + d, 2 * (d * plotWidth) + d, 2 * d);
  }

  /** The target leaves the wanted gap between labels. */
  lemma TargetFits(n: nat, maxLabels: nat, plotWidth: nat, minGapPx: int)
    requires TargetCount(n, maxLabels, plotWidth, minGapPx) > 2
    ensures Max(minGapPx, 1) * (TargetCount(n, maxLabels, plotWidth, minGapPx) - 1) <= plotWidth
  {
    var g, t := Max(minGapPx, 1), TargetCount(n, maxLabels, plotWidth, minGapPx) - 1;
    assert plotWidth == g * (plotWidth / g) + plotWidth % g;
    MulMono(g, t, plotWidth / g);
  }

  lemma GapIsOverHalf(d: nat, t: nat, f: nat)
    requires 0 < t <= d && f >= d / t
    ensures 2 * (t * f) > d
  {
    QuotientPositive(d, t);
    assert d == t * (d / t) + d % t;
    MulMono(t, d / t, f);
    MulMono(t, 1, f);
  }

  /** Neighbouring ticks are more than half the wanted gap, less one pixel, apart. */
  lemma TicksKeepTheirDistance(out: seq<int>, n: nat, target: nat, maxLabels: nat, plotLeft: int, plotWidth: nat, minGapPx: int, i: nat)
    requires n >= 2 && target == TargetCount(n, maxLabels, plotWidth, minGapPx) && target > 2
    requires IsEvenlySpaced(out, n, target) && i + 1 < |out| && out[i] >= 0
    ensures 2 * (XOfIndex(out[i + 1], n, plotLeft, plotWidth) - XOfIndex(out[i], n, plotLeft, plotWidth)) > Max(minGapPx, 1) - 2
  {
    TargetFits(n, maxLabels, plotWidth, minGapPx);
    PixelGap(out[i], out[i + 1] - out[i], n - 1, target - 1, plotWidth, Max(minGapPx, 1));
  }

  lemma PixelGap(idx: nat, f: nat, d: nat, t: nat, width: nat, g: nat)
    requires 0 < t <= d && f >= d / t && g >= 1 && g * t <= width
    ensures 2 * (RoundDiv((idx + f) * width, d) - RoundDiv(idx * width, d)) > g - 2
  {
    var p := f * width / d;
    assert 2 * p > g - 2 by {
      GapIsOverHalf(d, t, f);
      GapBound(g, t, d, f, width, p);
    }
    PixelStep(idx, f, width, d);
  }

  lemma PixelStep(idx: nat, f: nat, width: nat, d: nat)
    requires d > 0
    ensures RoundDiv((idx + f) * width, d) - RoundDiv(idx * width, d) >= f * width / d
  {
    assert 2 * ((idx + f) * width) + d == (2 * (idx * width) + d) + 2 * (f * width);
    QuotientStep(2 * (idx * width) + d, 2 * (f * width), 2 * d);
    Halve(f * width, d);
  }

  lemma GapBound(g: nat, t: nat, d: nat, f: nat, width: nat, p: nat)
    requires d > 0 && g >= 1 && g * t <= width && 2 * (t * f) > d && p == f * width / d
    ensures 2 * p > g - 2
  {
    assert f * width == d * p + (f * width) % d;
    assert f * width < d * (p + 1);
    MulMono(f, g * t, width);
    assert f * (g * t) == g * (t * f);
    MulMono(g, d + 1, 2 * (t * f));
    assert g * d < 2 * (d * (p + 1));
    if g >= 2 * (p + 1) {
      MulMono(d, 2 * (p + 1), g);
    }
  }

  // ---- y axis ----

  function NiceCentTick(span: int): int {
    if 0 <= span <= 20 then 2
    else if 21 <= span <= 50 then 5
    else if 51 <= span <= 120 then 10
    else if 121 <= span <= 250 then 25
    else 50
  }

  function DivCeil(a: int, b: int): int
    requires b > 0
  {
    if a >= 0 then (a + b - 1) / b else TruncDiv(a, b)
  }

  function SpanOf(lo: int, hi: int): int { Max(hi - lo, 1) }

  lemma DivCeilIsLeast(a: int, b: int)
    requires b > 0
    ensures a <= DivCeil(a, b) * b < a + b
  {
    if a >= 0 {
      var q, r := (a + b - 1) / b, (a + b - 1) % b;
      assert a + b - 1 == b * q + r;
    } else {
      var q, r := -a / b, -a % b;
      assert -a == b * q + r;
    }
  }

  /** The y ticks are exactly the multiples of the tick step between the bounds, in order. */
  method BuildYTickCents(lo: int, hi: int) returns (out: seq<int>)
    ensures out == YTicks(lo, hi)
  {
    var tick := NiceCentTick(SpanOf(lo, hi));
    var c := DivCeil(lo, tick) * tick;
    out := [];
    while c <= hi
      invariant out + TicksFrom(c, hi, tick) == YTicks(lo, hi)
      decreases hi - c
    {
      out := out + [c];
      c := c + tick;
    }
  }

  function TicksFrom(c: int, hi: int, tick: int): seq<int>
    requires tick > 0
    decreases hi - c
  {
    if c <= hi then [c] + TicksFrom(c + tick, hi, tick) else []
  }

  function YTicks(lo: int, hi: int): seq<int> {
    var tick := NiceCentTick(SpanOf(lo, hi));
    TicksFrom(DivCeil(lo, tick) * tick, hi, tick)
  }

  lemma {:induction false} TicksFromAre(c: int, hi: int, tick: int, k: nat)
    requires tick > 0
    ensures k < |TicksFrom(c, hi, tick)| <==> c + tick * k <= hi
    ensures k < |TicksFrom(c, hi, tick)| ==> TicksFrom(c, hi, tick)[k] == c + tick * k
    decreases k
  {
    if k == 0 {
    } else {
      assert c + tick * k == (c + tick) + tick * (k - 1);
      if c <= hi {
        TicksFromAre(c + tick, hi, tick, k - 1);
      } else {
        MulMono(tick, 0, k);
      }
    }
  }

  /** What the y ticks mean: every tick is a multiple inside the bounds, and every multiple inside the
      bounds is a tick. */
  lemma YTicksAreTheMultiples(lo: int, hi: int, k: nat, m: int)
    ensures
      var tick := NiceCentTick(SpanOf(lo, hi));
      && (k < |YTicks(lo, hi)| ==> lo <= YTicks(lo, hi)[k] <= hi && YTicks(lo, hi)[k] == tick * (DivCeil(lo, tick) + k))
      && (lo <= tick * m <= hi ==> tick * m in YTicks(lo, hi))
  {
    var tick := NiceCentTick(SpanOf(lo, hi));
    var q := DivCeil(lo, tick);
    DivCeilIsLeast(lo, tick);
    TicksFromAre(q * tick, hi, tick, k);
    assert q * tick + tick * k == tick * (q + k);
    MulMono(tick, 0, k);
    if lo <= tick * m <= hi {
      assert q * tick + tick * (m - q) == tick * m;
      TicksFromAre(q * tick, hi, tick, m - q);
      assert YTicks(lo, hi)[m - q] == tick * m;
    }
  }

  /** As many ticks as steps fit between the bounds, one more or one fewer. */
  lemma YTickCount(lo: int, hi: int)
    requires lo <= hi
    ensures
      var tick, n := NiceCentTick(SpanOf(lo, hi)), |YTicks(lo, hi)|;
      tick * (n - 1) <= hi - lo < tick * (n + 1)
  {
    var tick, n := NiceCentTick(SpanOf(lo, hi)), |YTicks(lo, hi)|;
    DivCeilIsLeast(lo, tick);
    TicksFromAre(DivCeil(lo, tick) * tick, hi, tick, n);
    assert tick * (n + 1) == tick * n + tick;
    if n > 0 {
      TicksFromAre(DivCeil(lo, tick) * tick, hi, tick, n - 1);
    }
  }

  /** The steps divide the unit of currency, and keep the number of ticks readable whatever the range up to
      2.50: at least four from 0.21 on, and at most thirteen, or eleven where no step of 0.10 is taken. */
  lemma YTicksAreReadable(lo: int, hi: int)
    requires lo <= hi
    ensures 100 % NiceCentTick(SpanOf(lo, hi)) == 0
    ensures hi - lo <= 250 ==> |YTicks(lo, hi)| <= 13
    ensures hi - lo <= 50 || 121 <= hi - lo <= 250 ==> |YTicks(lo, hi)| <= 11
    ensures hi - lo >= 21 ==> |YTicks(lo, hi)| >= 4
  {
    YTickCount(lo, hi);
  }

  // ---- as many labels as fit ----

  /** So many labels are allowed by number, and by the wanted gap when there are more than two. */
  predicate LabelsFit(count: nat, n: nat, maxLabels: nat, plotWidth: nat, minGapPx: int) {
    2 <= count <= n && count <= Max(maxLabels, 2) && (count > 2 ==> Max(minGapPx, 1) * (count - 1) <= plotWidth)
  }

  /** The target is the greatest number of labels that is allowed. */
  lemma TargetIsGreatest(n: nat, maxLabels: nat, plotWidth: nat, minGapPx: int, count: nat)
    requires n >= 2
    ensures LabelsFit(TargetCount(n, maxLabels, plotWidth, minGapPx), n, maxLabels, plotWidth, minGapPx)
    ensures LabelsFit(count, n, maxLabels, plotWidth, minGapPx) ==> count <= TargetCount(n, maxLabels, plotWidth, minGapPx)
  {
    if TargetCount(n, maxLabels, plotWidth, minGapPx) > 2 {
      TargetFits(n, maxLabels, plotWidth, minGapPx);
    }
    if LabelsFit(count, n, maxLabels, plotWidth, minGapPx) && count > 2 {
      CountByGap(count - 1, plotWidth, Max(minGapPx, 1));
    }
  }

  lemma CountByGap(gaps: nat, width: nat, g: nat)
    requires g > 0 && g * gaps <= width
    ensures gaps <= width / g
  {
    var q, r := DivMod(width, g);
    if q < gaps {
      MulStep(g, q, gaps);
    }
  }
}
