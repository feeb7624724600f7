/** What the planner promises about a chart it accepts, and when it refuses one. */
module ChartProofs {
  import opened Wrappers
  import opened Arithmetic
  import opened Metrics
  import opened Moves
  import opened Ticks
  import opened Chart

  // ---- scale ----

  /** Unforced, the scale step fails exactly when even the smallest scale does not fit, and otherwise
      picks the largest scale in range that fits. */
  lemma ScaleIsLargestThatFits(scale: ScaleTheme, inner: nat, span: nat)
    requires span > 0 && scale.forcePxPerCent.None? && scale.minPxPerCent <= scale.maxPxPerCent
    ensures
      var px := PxPerCent(scale, inner, span);
      && (span * px > inner <==> span * scale.minPxPerCent > inner)
      && (span * px <= inner ==>
            scale.minPxPerCent <= px <= scale.maxPxPerCent &&
            forall p :: px < p <= scale.maxPxPerCent ==> span * p > inner)
  {
    var q, r := DivMod(inner, span);
    FitsExactly(span, q, r, scale.minPxPerCent);
    FitsExactly(span, q, r, PxPerCent(scale, inner, span));
    forall p | PxPerCent(scale, inner, span) < p <= scale.maxPxPerCent
      ensures span * PxPerCent(scale, inner, span) <= inner ==> span * p > inner
    {
      FitsExactly(span, q, r, p);
    }
  }

  lemma FitsExactly(span: nat, q: nat, r: nat, p: int)
    requires r < span
    ensures span * p <= span * q + r <==> p <= q
  {
    if p <= q {
      assert span * q == span * p + span * (q - p);
    } else {
      assert span * p == span * q + span + span * (p - q - 1);
    }
  }

  lemma RefusedForScaleExactly(quotes: seq<Quote>, moveCount: nat, theme: Theme)
    requires theme.scale.forcePxPerCent.None? && theme.scale.minPxPerCent <= theme.scale.maxPxPerCent
    ensures LayoutOf(quotes, moveCount, theme) == Err(RangeTooTall) <==>
              FrameOf(quotes, theme).Ok? &&
              SpanOf(FrameOf(quotes, theme).value.lo, FrameOf(quotes, theme).value.hi) * theme.scale.minPxPerCent > FrameOf(quotes, theme).value.inner
  {
    if FrameOf(quotes, theme).Ok? {
      var f := FrameOf(quotes, theme).value;
      ScaleIsLargestThatFits(theme.scale, f.inner, SpanOf(f.lo, f.hi));
    }
  }

  // ---- everything inside the plot ----

  /** Padding is not negative, and neither is any scale the theme allows. */
  predicate SaneScale(scale: ScaleTheme) {
    && scale.paddingCents >= 0
    && match scale.forcePxPerCent
       case Some(px) => px >= 0
       case None => 0 <= scale.minPxPerCent <= scale.maxPxPerCent
  }

  lemma RoundWithin(x: real, m: nat)
    requires 0.0 <= x <= m as real
    ensures 0 <= RoundReal(x) <= m
  {
  }

  lemma RealMulMono(a: real, b: real, c: real)
    requires a <= b && 0.0 <= c
    ensures a * c <= b * c
  {
    assert (b - a) * c >= 0.0;
  }

  /** A price between the bounds is drawn between the bottom and the top of the plot. */
  lemma PriceIsInside(price: real, lo: int, span: nat, px: nat, plotBottom: int)
    requires lo as real <= price * 100.0 <= (lo + span) as real
    ensures plotBottom - span * px <= YOfPrice(price, lo, px, plotBottom) <= plotBottom
  {
    var v := price * 100.0 - lo as real;
    RealMulMono(0.0, v, px as real);
    RealMulMono(v, span as real, px as real);
    assert span as real * px as real == (span * px) as real;
    RoundWithin(v * px as real, span * px);
  }

  lemma CentIsInside(cents: int, lo: int, span: nat, px: nat, plotBottom: int)
    requires lo <= cents <= lo + span
    ensures plotBottom - span * px <= YOfCents(cents, lo, px, plotBottom) <= plotBottom
  {
    MulMono(px, 0, cents - lo);
    MulMono(px, cents - lo, span);
  }

  /** The prices, in cents, lie between the padded bounds. */
  lemma PricesAreBounded(quotes: seq<Quote>, theme: Theme, i: nat)
    requires i < |quotes| && theme.scale.paddingCents >= 0
    ensures YMinCent(quotes, theme) as real <= quotes[i].price * 100.0 <= YMaxCent(quotes, theme) as real
  {
  }

  /** The bounds leave exactly the padding beyond the lowest and the highest price, in whole cents. */
  lemma BoundsArePadded(quotes: seq<Quote>, theme: Theme, i: nat)
    requires i < |quotes|
    ensures
      var lo, hi := YMinCent(quotes, theme) + theme.scale.paddingCents, YMaxCent(quotes, theme) - theme.scale.paddingCents;
      && lo as real <= quotes[i].price * 100.0 <= hi as real
      && (exists k :: 0 <= k < |quotes| && quotes[k].price * 100.0 < lo as real + 1.0)
      && (exists k :: 0 <= k < |quotes| && quotes[k].price * 100.0 > hi as real - 1.0)
  {
    var low :| 0 <= low < |quotes| && MinPrice(quotes) == quotes[low].price;
    var high :| 0 <= high < |quotes| && MaxPrice(quotes) == quotes[high].price;
    assert quotes[low].price * 100.0 < (YMinCent(quotes, theme) + theme.scale.paddingCents) as real + 1.0;
    assert quotes[high].price * 100.0 > (YMaxCent(quotes, theme) - theme.scale.paddingCents) as real - 1.0;
  }

  lemma BoundsAreOrdered(quotes: seq<Quote>, theme: Theme)
    requires quotes != [] && theme.scale.paddingCents >= 0
    ensures YMinCent(quotes, theme) <= YMaxCent(quotes, theme)
  {
    PricesAreBounded(quotes, theme, 0);
  }

  lemma ScaleIsNatural(theme: Theme, inner: nat, span: nat)
    requires SaneScale(theme.scale) && span > 0
    ensures PxPerCent(theme.scale, inner, span) >= 0
  {
  }

  predicate InsidePlot(layout: ChartLayout, x: int, y: int) {
    layout.plotLeft <= x <= layout.plotRight && layout.plotTop <= y <= layout.plotBottom
  }

  predicate PointIsInside(quotes: seq<Quote>, layout: ChartLayout, i: nat)
    requires i < |quotes|
  {
    |quotes| >= 2 && layout.plotWidth > 0 && InsidePlot(layout, Points(quotes, layout)[i].0, Points(quotes, layout)[i].1)
  }

  // ---- exactly when all quotes are inside ----

  predicate AllPointsInside(quotes: seq<Quote>, layout: ChartLayout) {
    forall i :: 0 <= i < |quotes| ==> PointIsInside(quotes, layout, i)
  }

  function Pixels(cents: real, px: int): int {
    RoundReal(cents * px as real)
  }

  /** How far above the lower bound a price is drawn. */
  function PixelsUp(price: real, lo: int, px: int): int {
    Pixels(price * 100.0 - lo as real, px)
  }

  /** The lowest price is rounded back to the lower bound, if it is below, and the highest to the upper. */
  predicate ExtremesRoundBack(quotes: seq<Quote>, theme: Theme, px: int)
    requires quotes != []
  {
    var lo := YMinCent(quotes, theme);
    0 <= PixelsUp(MinPrice(quotes), lo, px) && PixelsUp(MaxPrice(quotes), lo, px) <= SpanOf(lo, YMaxCent(quotes, theme)) * px
  }

  /** No padding is taken away, or just the one cent that rounding gives back; a scale of nothing draws
      everything on one line. */
  predicate PaddingSuits(quotes: seq<Quote>, theme: Theme, px: int)
    requires quotes != []
  {
    px == 0 ||
    (px > 0 && (theme.scale.paddingCents >= 0 || (theme.scale.paddingCents == -1 && ExtremesRoundBack(quotes, theme, px))))
  }

  lemma PixelsGrow(a: real, b: real, px: nat)
    requires a <= b
    ensures Pixels(a, px) <= Pixels(b, px)
  {
    RealMulMono(a, b, px as real);
    RoundGrows(a * px as real, b * px as real);
  }

  lemma RoundGrows(x: real, y: real)
    requires x <= y
    ensures RoundReal(x) <= RoundReal(y)
  {
  }

  /** More than a cent below the lower bound cannot be rounded back. */
  lemma FarBelow(cents: real, px: nat)
    requires cents < -1.0 && px > 0
    ensures Pixels(cents, px) < 0
  {
    RealMulMono(1.0, px as real, -cents);
    Negated(cents, px as real);
    RoundBelow(cents * px as real);
  }

  lemma Negated(a: real, b: real)
    ensures b * (-a) == -(a * b)
  {
  }

  lemma RoundBelow(x: real)
    requires x < -1.0
    ensures RoundReal(x) < 0
  {
    assert RoundReal(x) as real < 0.0;
  }

  lemma WithinBounds(price: real, lo: int, span: nat, px: nat)
    requires lo as real <= price * 100.0 <= (lo + span) as real
    ensures 0 <= PixelsUp(price, lo, px) <= span * px
  {
    PriceIsInside(price, lo, span, px, 0);
  }

  /** Non-negative padding rounds nothing, and two cents less than none cannot be rounded back. */
  lemma ExtremesByPadding(quotes: seq<Quote>, theme: Theme, px: nat)
    requires quotes != [] && px > 0
    ensures theme.scale.paddingCents >= 0 ==> ExtremesRoundBack(quotes, theme, px)
    ensures theme.scale.paddingCents <= -2 ==> !ExtremesRoundBack(quotes, theme, px)
  {
    var lo := YMinCent(quotes, theme);
    if theme.scale.paddingCents >= 0 {
      var low :| 0 <= low < |quotes| && MinPrice(quotes) == quotes[low].price;
      var high :| 0 <= high < |quotes| && MaxPrice(quotes) == quotes[high].price;
      PricesAreBounded(quotes, theme, low);
      PricesAreBounded(quotes, theme, high);
      WithinBounds(MinPrice(quotes), lo, SpanOf(lo, YMaxCent(quotes, theme)), px);
      WithinBounds(MaxPrice(quotes), lo, SpanOf(lo, YMaxCent(quotes, theme)), px);
    } else if theme.scale.paddingCents <= -2 {
      FarBelow(MinPrice(quotes) * 100.0 - lo as real, px);
    }
  }

  /** The frame's part of an accepted layout. */
  predicate PlotOf(quotes: seq<Quote>, theme: Theme, layout: ChartLayout) {
    && |quotes| >= 2 && layout.plotWidth > 0 && layout.plotRight == layout.plotLeft + layout.plotWidth
    && layout.yMinCent == YMinCent(quotes, theme)
    && layout.plotTop == layout.plotBottom - SpanOf(layout.yMinCent, YMaxCent(quotes, theme)) * layout.pxPerCent
  }

  lemma LayoutHasPlot(quotes: seq<Quote>, moveCount: nat, theme: Theme)
    ensures
      var r := LayoutOf(quotes, moveCount, theme);
      r.Ok? ==> PlotOf(quotes, theme, r.value)
  {
  }

  lemma PointIsInsideExactly(quotes: seq<Quote>, theme: Theme, layout: ChartLayout, i: nat)
    requires PlotOf(quotes, theme, layout) && i < |quotes|
    ensures PointIsInside(quotes, layout, i) <==>
              0 <= PixelsUp(quotes[i].price, layout.yMinCent, layout.pxPerCent)
                <= SpanOf(layout.yMinCent, YMaxCent(quotes, theme)) * layout.pxPerCent
  {
    XIsInside(i, |quotes|, layout.plotLeft, layout.plotWidth);
  }

  lemma AllInsideWithScale(quotes: seq<Quote>, theme: Theme, layout: ChartLayout)
    requires PlotOf(quotes, theme, layout) && layout.pxPerCent > 0
    ensures AllPointsInside(quotes, layout) <==> ExtremesRoundBack(quotes, theme, layout.pxPerCent)
  {
    if ExtremesRoundBack(quotes, theme, layout.pxPerCent) {
      forall i | 0 <= i < |quotes|
        ensures PointIsInside(quotes, layout, i)
      {
        var lo := layout.yMinCent as real;
        PixelsGrow(MinPrice(quotes) * 100.0 - lo, quotes[i].price * 100.0 - lo, layout.pxPerCent);
        PixelsGrow(quotes[i].price * 100.0 - lo, MaxPrice(quotes) * 100.0 - lo, layout.pxPerCent);
        PointIsInsideExactly(quotes, theme, layout, i);
      }
    }
    if AllPointsInside(quotes, layout) {
      var low :| 0 <= low < |quotes| && MinPrice(quotes) == quotes[low].price;
      var high :| 0 <= high < |quotes| && MaxPrice(quotes) == quotes[high].price;
      PointIsInsideExactly(quotes, theme, layout, low);
      PointIsInsideExactly(quotes, theme, layout, high);
    }
  }

  /** Without a positive scale the plot is a line that holds all points, or upside down and holds none. */
  lemma AllInsideWithoutScale(quotes: seq<Quote>, theme: Theme, layout: ChartLayout)
    requires PlotOf(quotes, theme, layout) && layout.pxPerCent <= 0
    ensures AllPointsInside(quotes, layout) <==> layout.pxPerCent == 0
  {
    if layout.pxPerCent == 0 {
      forall i | 0 <= i < |quotes|
        ensures PointIsInside(quotes, layout, i)
      {
        XIsInside(i, |quotes|, layout.plotLeft, layout.plotWidth);
        assert YOfPrice(quotes[i].price, layout.yMinCent, 0, layout.plotBottom) == layout.plotBottom;
      }
    } else {
      MulStep(SpanOf(layout.yMinCent, YMaxCent(quotes, theme)), 0, -layout.pxPerCent);
      assert SpanOf(layout.yMinCent, YMaxCent(quotes, theme)) * layout.pxPerCent < 0;
      assert !PointIsInside(quotes, layout, 0);
    }
  }

  /** For every theme: the quotes of an accepted chart are all drawn inside the plot if and only if no
      padding is taken away, or just one cent that rounds back, or the scale is zero. */
  lemma PointsAreInsideExactly(quotes: seq<Quote>, moveCount: nat, theme: Theme)
    ensures
      var r := LayoutOf(quotes, moveCount, theme);
      r.Ok? ==> |quotes| >= 2 && (AllPointsInside(quotes, r.value) <==> PaddingSuits(quotes, theme, r.value.pxPerCent))
  {
    var r := LayoutOf(quotes, moveCount, theme);
    if r.Ok? {
      LayoutHasPlot(quotes, moveCount, theme);
      if r.value.pxPerCent > 0 {
        AllInsideWithScale(quotes, theme, r.value);
        ExtremesByPadding(quotes, theme, r.value.pxPerCent);
      } else {
        AllInsideWithoutScale(quotes, theme, r.value);
      }
    }
  }

  /** In particular with padding and scales that are not negative. */
  lemma PointsAreInside(quotes: seq<Quote>, moveCount: nat, theme: Theme)
    requires SaneScale(theme.scale)
    ensures
      var r := LayoutOf(quotes, moveCount, theme);
      r.Ok? ==> AllPointsInside(quotes, r.value)
  {
    var r := LayoutOf(quotes, moveCount, theme);
    if r.Ok? {
      PointsAreInsideExactly(quotes, moveCount, theme);
      var f := FrameOf(quotes, theme).value;
      ScaleIsNatural(theme, f.inner, SpanOf(f.lo, f.hi));
    }
  }

  /** So is every y tick, and its caption ends at the axis gap without crossing the left margin. */
  lemma YTicksAreInside(quotes: seq<Quote>, moveCount: nat, theme: Theme, k: nat)
    requires SaneScale(theme.scale)
    ensures
      var r := LayoutOf(quotes, moveCount, theme);
      r.Ok? && k < |r.value.yTicks| ==> YTickIsInside(r.value, theme.layout, r.value.yTicks[k])
  {
    var r := LayoutOf(quotes, moveCount, theme);
    if r.Ok? && k < |r.value.yTicks| {
      var f := FrameOf(quotes, theme).value;
      var span := SpanOf(f.lo, f.hi);
      BoundsAreOrdered(quotes, theme);
      ScaleIsNatural(theme, f.inner, span);
      YTicksAreTheMultiples(f.lo, f.hi, k, 0);
      CentIsInside(YTicks(f.lo, f.hi)[k], f.lo, span, r.value.pxPerCent, r.value.plotBottom);
      WidestCaption(quotes, theme, k);
    }
  }

  predicate YTickIsInside(layout: ChartLayout, gaps: LayoutTheme, tick: YTick) {
    && layout.plotTop <= tick.y <= layout.plotBottom
    && tick.caption.x + tick.caption.box.width + gaps.yTickLabelToAxisGap == layout.plotLeft
    && gaps.outerLeft <= tick.caption.x
  }

  lemma WidestCaption(quotes: seq<Quote>, theme: Theme, k: nat)
    requires quotes != [] && k < |YTicks(YMinCent(quotes, theme), YMaxCent(quotes, theme))|
    ensures
      var text := FormatBrlCent(YTicks(YMinCent(quotes, theme), YMaxCent(quotes, theme))[k]);
      Chart.Upright(text, theme.typography.axisTickFontPx, theme.typography).width <= YCaptionWidth(quotes, theme)
  {
    var texts := CentTexts(YTicks(YMinCent(quotes, theme), YMaxCent(quotes, theme)));
    var widths := Widths(Boxes(texts, theme.typography.axisTickFontPx, TextRotation.Upright, theme.typography));
    assert widths[k] <= Greatest(widths);
  }

  lemma XTicksOfFrame(quotes: seq<Quote>, moveCount: nat, theme: Theme) returns (f: Frame, target: nat)
    requires LayoutOf(quotes, moveCount, theme).Ok?
    ensures FrameFits(f, |quotes|) && f.plotLeft == LayoutOf(quotes, moveCount, theme).value.plotLeft
    ensures f.plotLeft + f.plotWidth == LayoutOf(quotes, moveCount, theme).value.plotRight
    ensures target == TargetCount(|quotes|, theme.layout.maxXTickLabels, f.plotWidth, theme.layout.minXTickLabelGap)
    ensures IsEvenlySpaced(f.indices, |quotes|, target)
    ensures
      var ticks := LayoutOf(quotes, moveCount, theme).value.xTicks;
      |ticks| == |f.indices| &&
      forall k :: 0 <= k < |ticks| ==> ticks[k].idx == f.indices[k] && ticks[k].x == XOfIndex(f.indices[k], |quotes|, f.plotLeft, f.plotWidth)
  {
    f := FrameOf(quotes, theme).value;
    target := TargetCount(|quotes|, theme.layout.maxXTickLabels, f.plotWidth, theme.layout.minXTickLabelGap);
  }

  /** From the first to the last quote, and from the left to the right edge of the plot. */
  predicate SpanThePlot(ticks: seq<XTick>, n: nat, left: int, right: int) {
    var last := |ticks| - 1;
    last >= 1 && ticks[0].idx == 0 && ticks[0].x == left && ticks[last].idx == n - 1 && ticks[last].x == right
  }

  lemma XTicksSpanThePlot(quotes: seq<Quote>, moveCount: nat, theme: Theme)
    ensures
      var r := LayoutOf(quotes, moveCount, theme);
      r.Ok? ==> SpanThePlot(r.value.xTicks, |quotes|, r.value.plotLeft, r.value.plotRight)
  {
    if LayoutOf(quotes, moveCount, theme).Ok? {
      var f, target := XTicksOfFrame(quotes, moveCount, theme);
      FrameSpansThePlot(f, |quotes|, target);
    }
  }

  lemma FrameSpansThePlot(f: Frame, n: nat, target: nat)
    requires FrameFits(f, n) && IsEvenlySpaced(f.indices, n, target)
    ensures |f.indices| >= 2 && f.indices[0] == 0 && f.indices[|f.indices| - 1] == n - 1
    ensures XOfIndex(0, n, f.plotLeft, f.plotWidth) == f.plotLeft
    ensures XOfIndex(n - 1, n, f.plotLeft, f.plotWidth) == f.plotLeft + f.plotWidth
  {
    XIsInside(0, n, f.plotLeft, f.plotWidth);
    XIsInside(n - 1, n, f.plotLeft, f.plotWidth);
  }

  predicate Apart(ticks: seq<XTick>, gap: int) {
    forall k :: 0 <= k < |ticks| - 1 ==> 2 * (ticks[k + 1].x - ticks[k].x) > gap - 2
  }

  /** When there are more than two, they keep their distance. */
  lemma XTicksKeepTheirDistance(quotes: seq<Quote>, moveCount: nat, theme: Theme)
    ensures
      var r := LayoutOf(quotes, moveCount, theme);
      r.Ok? && |r.value.xTicks| > 2 ==> Apart(r.value.xTicks, Max(theme.layout.minXTickLabelGap, 1))
  {
    var r := LayoutOf(quotes, moveCount, theme);
    if r.Ok? && |r.value.xTicks| > 2 {
      var f, target := XTicksOfFrame(quotes, moveCount, theme);
      AllApart(r.value.xTicks, f, |quotes|, target, theme.layout);
    }
  }

  lemma AllApart(ticks: seq<XTick>, f: Frame, n: nat, target: nat, gaps: LayoutTheme)
    requires FrameFits(f, n) && target == TargetCount(n, gaps.maxXTickLabels, f.plotWidth, gaps.minXTickLabelGap) && target > 2
    requires IsEvenlySpaced(f.indices, n, target) && |ticks| == |f.indices|
    requires forall k :: 0 <= k < |ticks| ==> ticks[k].x == XOfIndex(f.indices[k], n, f.plotLeft, f.plotWidth)
    ensures Apart(ticks, Max(gaps.minXTickLabelGap, 1))
  {
    forall k | 0 <= k < |ticks| - 1
      ensures 2 * (ticks[k + 1].x - ticks[k].x) > Max(gaps.minXTickLabelGap, 1) - 2
    {
      TicksKeepTheirDistance(f.indices, n, target, gaps.maxXTickLabels, f.plotLeft, f.plotWidth, gaps.minXTickLabelGap, k);
    }
  }

  /** The plot is centred in the room left by texts and gaps, within one pixel. */
  lemma PlotIsCentred(quotes: seq<Quote>, moveCount: nat, theme: Theme)
    ensures
      var r := LayoutOf(quotes, moveCount, theme);
      r.Ok? ==> Centred(r.value, FrameOf(quotes, theme).value, theme.layout)
  {
  }

  predicate Centred(layout: ChartLayout, f: Frame, gaps: LayoutTheme) {
    var above := layout.plotTop - (f.areaTop + gaps.plotMinInnerTopGap);
    var below := f.areaTop + gaps.plotMinInnerTopGap + f.inner - layout.plotBottom;
    0 <= above <= below <= above + 1
  }

  /** A movement label never crosses the left and top margins, and stays inside the plot with its
      padding exactly when it fits. */
  lemma MovementLabelStaysInside(mv: ImportantMove, points: seq<(int, int)>, layout: ChartLayout, theme: Theme)
    requires mv.startIdx < |points| && mv.endIdx < |points|
    ensures
      var text := PlaceLayer(mv, points, layout, theme).caption;
      var (mx, my) := LabelMargins(theme);
      && mx == theme.layout.movementLabelCanvasGap + (if theme.movement.hasLabelBg then theme.movement.bgPaddingX else 0)
      && my == theme.layout.movementLabelCanvasGap + (if theme.movement.hasLabelBg then theme.movement.bgPaddingY else 0)
      && layout.plotLeft + mx <= text.x && layout.plotTop + my <= text.y
      && (text.x + text.box.width + mx <= layout.plotRight <==> text.box.width + 2 * mx <= layout.plotRight - layout.plotLeft)
      && (text.y + text.box.height + my <= layout.plotBottom <==> text.box.height + 2 * my <= layout.plotBottom - layout.plotTop)
  {
  }
}
