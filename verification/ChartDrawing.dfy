/** What an accepted plan shows: which quote is drawn where, what stands beside it, and how the texts are
    stacked. */
module ChartDrawing {
  import opened Wrappers
  import opened Arithmetic
  import opened Metrics
  import opened Moves
  import opened Ticks
  import opened Chart
  import opened ChartProofs

  // ---- time runs from left to right ----

  /** The first point is on the left edge, the last on the right, and every step to the right is the same
      up to rounding. */
  predicate RunsAcross(points: seq<(int, int)>, left: int, width: nat) {
    var last := |points| - 1;
    && last >= 1 && points[0].0 == left && points[last].0 == left + width
    && forall i :: 0 <= i < last ==> width / last <= points[i + 1].0 - points[i].0 <= CeilDiv(width, last)
  }

  lemma PointsRunAcross(quotes: seq<Quote>, layout: ChartLayout)
    requires |quotes| >= 2 && layout.plotWidth >= 0
    ensures RunsAcross(Points(quotes, layout), layout.plotLeft, layout.plotWidth)
  {
    var last := |quotes| - 1;
    var points := Points(quotes, layout);
    XIsInside(0, |quotes|, layout.plotLeft, layout.plotWidth);
    XIsInside(last, |quotes|, layout.plotLeft, layout.plotWidth);
    forall i | 0 <= i < last
      ensures layout.plotWidth / last <= points[i + 1].0 - points[i].0 <= CeilDiv(layout.plotWidth, last)
    {
      RoundStep(i, layout.plotWidth, last);
    }
  }

  /** Every x tick stands under its own quote and carries that quote's date. */
  predicate TicksStandUnderQuotes(ticks: seq<XTick>, quotes: seq<Quote>, points: seq<(int, int)>) {
    forall k :: 0 <= k < |ticks| ==>
      && 0 <= ticks[k].idx < |quotes| && ticks[k].idx < |points|
      && ticks[k].x == points[ticks[k].idx].0 && ticks[k].caption.text == quotes[ticks[k].idx].date
      && CentredOn(ticks[k].caption.x, ticks[k].caption.box.width, ticks[k].x, ticks[k].x)
  }

  // ---- prices run from bottom to top ----

  /** A higher price is never drawn below a lower one. */
  predicate HigherIsNotBelow(quotes: seq<Quote>, points: seq<(int, int)>) {
    forall i, j :: 0 <= i < |quotes| && 0 <= j < |quotes| && i < |points| && j < |points| && quotes[i].price <= quotes[j].price ==>
      points[j].1 <= points[i].1
  }

  lemma HigherIsUp(a: real, b: real, lo: int, px: nat, plotBottom: int)
    requires a <= b
    ensures YOfPrice(b, lo, px, plotBottom) <= YOfPrice(a, lo, px, plotBottom)
  {
    YIsPixels(a, lo, px, plotBottom);
    YIsPixels(b, lo, px, plotBottom);
    PixelsGrow(a * 100.0 - lo as real, b * 100.0 - lo as real, px);
  }

  lemma YIsPixels(price: real, lo: int, px: int, plotBottom: int)
    ensures YOfPrice(price, lo, px, plotBottom) == plotBottom - Pixels(price * 100.0 - lo as real, px)
  {
  }

  lemma PointsFollowPrices(quotes: seq<Quote>, layout: ChartLayout)
    requires |quotes| >= 2 && layout.plotWidth >= 0 && layout.pxPerCent >= 0
    ensures HigherIsNotBelow(quotes, Points(quotes, layout))
  {
    forall i, j | 0 <= i < |quotes| && 0 <= j < |quotes| && quotes[i].price <= quotes[j].price
      ensures Points(quotes, layout)[j].1 <= Points(quotes, layout)[i].1
    {
      HigherIsUp(quotes[i].price, quotes[j].price, layout.yMinCent, layout.pxPerCent, layout.plotBottom);
    }
  }

  /** A price of so many cents is drawn exactly where a tick of so many cents stands. */
  predicate OnTickWhenEqual(quotes: seq<Quote>, points: seq<(int, int)>, ticks: seq<YTick>) {
    forall i, k :: 0 <= i < |quotes| && i < |points| && 0 <= k < |ticks| && quotes[i].price == ticks[k].cents as real / 100.0 ==>
      points[i].1 == ticks[k].y
  }

  lemma CentsAreDrawnExactly(price: real, cents: int, lo: int, px: int, plotBottom: int)
    requires price == cents as real / 100.0
    ensures YOfPrice(price, lo, px, plotBottom) == YOfCents(cents, lo, px, plotBottom)
  {
    assert price * 100.0 - lo as real == (cents - lo) as real;
    assert (cents - lo) as real * px as real == ((cents - lo) * px) as real;
    RoundOfInt((cents - lo) * px);
  }

  lemma RoundOfInt(n: int)
    ensures RoundReal(n as real) == n
  {
  }

  /** An accepted layout is a frame with everything placed at one scale. */
  lemma LayoutIsPlaced(quotes: seq<Quote>, moveCount: nat, theme: Theme) returns (f: Frame, px: int)
    requires LayoutOf(quotes, moveCount, theme).Ok?
    ensures FrameOf(quotes, theme) == Ok(f) && FrameFits(f, |quotes|)
    ensures LayoutOf(quotes, moveCount, theme).value == PlaceAll(quotes, moveCount, theme, f, px)
  {
    f := FrameOf(quotes, theme).value;
    px := PxPerCent(theme.scale, f.inner, SpanOf(f.lo, f.hi));
  }

  /** Every y caption names its tick's amount and stands beside it. */
  predicate CaptionsStandBesideTicks(ticks: seq<YTick>) {
    forall k :: 0 <= k < |ticks| ==>
      && ticks[k].caption.text == FormatBrlCent(ticks[k].cents)
      && CentredOn(ticks[k].caption.y, ticks[k].caption.box.height, ticks[k].y, ticks[k].y)
  }

  lemma YCaptionsOf(quotes: seq<Quote>, moveCount: nat, theme: Theme, f: Frame, px: int)
    requires FrameFits(f, |quotes|)
    ensures CaptionsStandBesideTicks(PlaceAll(quotes, moveCount, theme, f, px).yTicks)
  {
  }

  lemma YTicksOf(quotes: seq<Quote>, moveCount: nat, theme: Theme, f: Frame, px: int, k: nat)
    requires FrameFits(f, |quotes|)
    ensures
      var layout := PlaceAll(quotes, moveCount, theme, f, px);
      k < |layout.yTicks| ==>
        && layout.yTicks[k].y == YOfCents(layout.yTicks[k].cents, layout.yMinCent, layout.pxPerCent, layout.plotBottom)
        && layout.yTicks[k].caption.text == FormatBrlCent(layout.yTicks[k].cents)
  {
  }

  lemma QuotesMeetTicks(quotes: seq<Quote>, moveCount: nat, theme: Theme, f: Frame, px: int)
    requires FrameFits(f, |quotes|)
    ensures
      var layout := PlaceAll(quotes, moveCount, theme, f, px);
      OnTickWhenEqual(quotes, Points(quotes, layout), layout.yTicks)
  {
    var layout := PlaceAll(quotes, moveCount, theme, f, px);
    forall i, k | 0 <= i < |quotes| && 0 <= k < |layout.yTicks| && quotes[i].price == layout.yTicks[k].cents as real / 100.0
      ensures Points(quotes, layout)[i].1 == layout.yTicks[k].y
    {
      YTicksOf(quotes, moveCount, theme, f, px, k);
      CentsAreDrawnExactly(quotes[i].price, layout.yTicks[k].cents, layout.yMinCent, layout.pxPerCent, layout.plotBottom);
    }
  }

  // ---- movement labels ----

  function Distance(a: int, b: int): nat {
    if a < b then b - a else a - b
  }

  /** The middle of two pixels, rounded towards zero. */
  lemma MiddleIsBetween(a: int, b: int)
    ensures a + b - 1 <= 2 * TruncDiv(a + b, 2) <= a + b + 1
  {
  }

  /** Of all positions that keep the margins, the clamped one is the nearest. */
  lemma ClampIsNearest(v: int, lo: int, hi: int, w: int)
    requires lo <= w <= hi
    ensures lo <= Clamp(v, lo, hi) <= hi && Distance(Clamp(v, lo, hi), v) <= Distance(w, v)
  {
  }

  /** A label's x is the nearest to centred on its segment; its y the nearest to standing `labelOffset` above
      the middle of a rise, or below the middle of a fall. */
  ghost predicate LabelSuits(layer: MovementLayer, mv: ImportantMove, points: seq<(int, int)>, layout: ChartLayout, theme: Theme)
    requires mv.startIdx < |points| && mv.endIdx < |points|
  {
    var (mx, my) := LabelMargins(theme);
    var text := layer.caption;
    && layer.startIdx == mv.startIdx && layer.endIdx == mv.endIdx && layer.kind == mv.kind && text.text == FormatDelta(mv.delta)
    && (exists x :: CentredOn(x, text.box.width, points[mv.startIdx].0, points[mv.endIdx].0)
                    && text.x == Clamp(x, layout.plotLeft + mx, layout.plotRight - text.box.width - mx))
    && (exists y :: BesideMiddle(y, mv.kind, text.box.height, theme.movement.labelOffset, points[mv.startIdx].1, points[mv.endIdx].1)
                    && text.y == Clamp(y, layout.plotTop + my, layout.plotBottom - text.box.height - my))
  }

  /** A span from `x` with the given width has its middle where `a` and `b` have theirs, up to a pixel. */
  predicate CentredOn(x: int, width: int, a: int, b: int) {
    a + b - 2 <= 2 * x + width <= a + b + 2
  }

  /** A label whose top is at `y` stands so far above the middle of `a` and `b`, or so far below it. */
  predicate BesideMiddle(y: int, kind: MoveKind, height: int, offset: int, a: int, b: int) {
    match kind
    case Rise => Middle(y + height + offset, a, b)
    case Fall => Middle(y - offset, a, b)
  }

  /** `m` is the middle of `a` and `b`, up to half a pixel. */
  predicate Middle(m: int, a: int, b: int) {
    a + b - 1 <= 2 * m <= a + b + 1
  }

  lemma LayerSuits(mv: ImportantMove, points: seq<(int, int)>, layout: ChartLayout, theme: Theme)
    requires mv.startIdx < |points| && mv.endIdx < |points|
    ensures LabelSuits(PlaceLayer(mv, points, layout, theme), mv, points, layout, theme)
  {
    var text := PlaceLayer(mv, points, layout, theme).caption;
    var midX := TruncDiv(points[mv.startIdx].0 + points[mv.endIdx].0, 2);
    var midY := TruncDiv(points[mv.startIdx].1 + points[mv.endIdx].1, 2);
    var x := midX - TruncDiv(text.box.width, 2);
    var y := if mv.kind.Rise? then midY - text.box.height - theme.movement.labelOffset else midY + theme.movement.labelOffset;
    assert CentredOn(x, text.box.width, points[mv.startIdx].0, points[mv.endIdx].0);
    assert BesideMiddle(y, mv.kind, text.box.height, theme.movement.labelOffset, points[mv.startIdx].1, points[mv.endIdx].1);
  }

  /** A label that needs no clamping stands clear of the middle of its segment: a rise's above, a fall's below. */
  lemma LabelClearsTheMiddle(mv: ImportantMove, points: seq<(int, int)>, layout: ChartLayout, theme: Theme)
    requires mv.startIdx < |points| && mv.endIdx < |points| && theme.movement.labelOffset >= 1
    requires
      var (mx, my) := LabelMargins(theme);
      var text := PlaceLayer(mv, points, layout, theme).caption;
      layout.plotTop + my < text.y && text.y + text.box.height + my < layout.plotBottom
    ensures
      var text := PlaceLayer(mv, points, layout, theme).caption;
      var y1, y2 := points[mv.startIdx].1, points[mv.endIdx].1;
      if mv.kind.Rise? then 2 * (text.y + text.box.height) < y1 + y2 else y1 + y2 < 2 * text.y
  {
    MiddleIsBetween(points[mv.startIdx].1, points[mv.endIdx].1);
  }

  // ---- the whole plan ----

  ghost predicate LayersSuit(plan: ChartPlan, moves: seq<ImportantMove>, theme: Theme)
    requires MovesFit(moves, |plan.points|)
  {
    |plan.layers| == |moves| &&
    forall k :: 0 <= k < |moves| ==> LabelSuits(plan.layers[k], moves[k], plan.points, plan.layout, theme)
  }

  /** One point a quote, in order of time and price, with the ticks where they belong. */
  predicate ShowsQuotes(plan: ChartPlan, quotes: seq<Quote>) {
    && |plan.points| == |quotes| && plan.layout.plotWidth > 0 && plan.layout.plotRight == plan.layout.plotLeft + plan.layout.plotWidth
    && RunsAcross(plan.points, plan.layout.plotLeft, plan.layout.plotWidth)
    && TicksStandUnderQuotes(plan.layout.xTicks, quotes, plan.points)
    && OnTickWhenEqual(quotes, plan.points, plan.layout.yTicks) && CaptionsStandBesideTicks(plan.layout.yTicks)
    && (plan.layout.pxPerCent >= 0 ==> HigherIsNotBelow(quotes, plan.points))
  }

  lemma TicksUnderQuotes(quotes: seq<Quote>, moveCount: nat, theme: Theme, f: Frame, px: int)
    requires FrameFits(f, |quotes|)
    ensures
      var layout := PlaceAll(quotes, moveCount, theme, f, px);
      TicksStandUnderQuotes(layout.xTicks, quotes, Points(quotes, layout))
  {
  }

  /** Every accepted plan shows each quote where its date and its price belong, and labels each move at its
      place. */
  lemma PlanShowsQuotes(quotes: seq<Quote>, moves: seq<ImportantMove>, theme: Theme)
    requires MovesFit(moves, |quotes|)
    ensures
      var r := PlanOf(quotes, moves, theme);
      r.Ok? ==> ShowsQuotes(r.value, quotes) && LayersSuit(r.value, moves, theme)
  {
    var r := PlanOf(quotes, moves, theme);
    if r.Ok? {
      LayoutHasPlot(quotes, |moves|, theme);
      PointsRunAcross(quotes, r.value.layout);
      var f, px := LayoutIsPlaced(quotes, |moves|, theme);
      TicksUnderQuotes(quotes, |moves|, theme, f, px);
      QuotesMeetTicks(quotes, |moves|, theme, f, px);
      YCaptionsOf(quotes, |moves|, theme, f, px);
      if r.value.layout.pxPerCent >= 0 {
        PointsFollowPrices(quotes, r.value.layout);
      }
      AllLayersSuit(moves, r.value.points, r.value.layout, theme);
    }
  }

  lemma AllLayersSuit(moves: seq<ImportantMove>, points: seq<(int, int)>, layout: ChartLayout, theme: Theme)
    requires MovesFit(moves, |points|)
    ensures LayersSuit(ChartPlan(layout, points, PlaceLayers(moves, points, layout, theme)), moves, theme)
  {
    forall k | 0 <= k < |moves|
      ensures LabelSuits(PlaceLayers(moves, points, layout, theme)[k], moves[k], points, layout, theme)
    {
      LayerSuits(moves[k], points, layout, theme);
    }
  }

  // ---- texts one below the other ----

  /** Title, subtitle, plot, x captions and axis labels follow each other downwards with the theme's gaps. */
  predicate Stacked(layout: ChartLayout, theme: Theme) {
    var l := theme.layout;
    && layout.title.y == l.outerTop
    && layout.title.y + layout.title.box.height + l.titleToSubtitleGap == layout.subtitle.y
    && layout.subtitle.y + layout.subtitle.box.height + l.subtitleToPlotGap + l.plotMinInnerTopGap <= layout.plotTop
    && (forall k :: 0 <= k < |layout.xTicks| ==> layout.plotBottom + theme.xTickLength + l.xTickToLabelGap == layout.xTicks[k].caption.y - layout.xTicks[k].caption.box.height)
    && (forall k, a :: 0 <= k < |layout.xTicks| && 0 <= a < |layout.axisLabels| ==>
          layout.xTicks[k].caption.y + l.plotMinInnerBottomGap <= layout.axisLabels[a].y)
    && (forall a :: 0 <= a < |layout.axisLabels| ==>
          layout.axisLabels[a].y + layout.axisLabels[a].box.height + l.axisLabelToCanvasEdgeGap + l.outerBottom <= theme.height)
  }

  lemma SubtitleHeight(a: string, b: string, fontPx: nat, t: Typography)
    ensures Chart.Upright(a, fontPx, t).height == Chart.Upright(b, fontPx, t).height
  {
  }

  /** The room an accepted frame has left, in terms of what stands above and below it. */
  predicate HasRoom(f: Frame, quotes: seq<Quote>, theme: Theme)
    requires forall i :: 0 <= i < |f.indices| ==> 0 <= f.indices[i] < |quotes|
  {
    var l := theme.layout;
    && f.inner == theme.height - BottomReserved(theme, AxisLabelHeight(theme), TallestCaption(f, quotes, theme))
                  - f.areaTop - l.plotMinInnerTopGap - l.plotMinInnerBottomGap
    && f.axisLabelHeight == AxisLabelHeight(theme)
    && f.areaTop == f.subtitleY + Chart.Upright("subtitle", theme.typography.subtitleFontPx, theme.typography).height + l.subtitleToPlotGap
    && f.subtitleY == l.outerTop + f.titleBox.height + l.titleToSubtitleGap
  }

  function TallestCaption(f: Frame, quotes: seq<Quote>, theme: Theme): int
    requires forall i :: 0 <= i < |f.indices| ==> 0 <= f.indices[i] < |quotes|
  {
    Greatest(Heights(Boxes(DateTexts(quotes, f.indices), theme.typography.axisTickFontPx, Rotate270, theme.typography)))
  }

  lemma RoomVertically(quotes: seq<Quote>, theme: Theme, lo: int, hi: int, plotLeft: int, plotWidth: int, indices: seq<int>)
    requires |quotes| >= 2 && plotWidth > 0 && forall i :: 0 <= i < |indices| ==> 0 <= indices[i] < |quotes|
    ensures var r := VerticalFrame(quotes, theme, lo, hi, plotLeft, plotWidth, indices); r.Ok? ==> HasRoom(r.value, quotes, theme)
  {
  }

  lemma RoomOfFrame(quotes: seq<Quote>, theme: Theme)
    requires FrameOf(quotes, theme).Ok?
    ensures FrameFits(FrameOf(quotes, theme).value, |quotes|) && HasRoom(FrameOf(quotes, theme).value, quotes, theme)
  {
    RoomWithin(quotes, theme, PlotLeft(theme, YCaptionWidth(quotes, theme)));
  }

  lemma RoomWithin(quotes: seq<Quote>, theme: Theme, plotLeft: int)
    requires |quotes| >= 2 && FrameWithin(quotes, theme, plotLeft).Ok?
    ensures HasRoom(FrameWithin(quotes, theme, plotLeft).value, quotes, theme)
  {
    var plotWidth := PlotWidth(theme, plotLeft);
    RoomVertically(quotes, theme, YMinCent(quotes, theme), YMaxCent(quotes, theme), plotLeft, plotWidth,
                   EvenIndices(|quotes|, theme.layout.maxXTickLabels, plotWidth, theme.layout.minXTickLabelGap));
  }

  lemma TextsAreStacked(quotes: seq<Quote>, moveCount: nat, theme: Theme)
    requires theme.layout.xLabelsToAxisLabelsGap >= 0
    ensures
      var r := LayoutOf(quotes, moveCount, theme);
      r.Ok? ==> Stacked(r.value, theme)
  {
    var r := LayoutOf(quotes, moveCount, theme);
    if r.Ok? {
      var f, px := LayoutIsPlaced(quotes, moveCount, theme);
      RoomOfFrame(quotes, theme);
      PlotIsCentred(quotes, moveCount, theme);
      SubtitleHeight("subtitle", r.value.subtitle.text, theme.typography.subtitleFontPx, theme.typography);
      CaptionsFit(quotes, moveCount, theme, f, px);
      AxisLabelsFit(theme);
    }
  }

  lemma AxisLabelsFit(theme: Theme)
    ensures
      var labels := AxisLabels(theme, AxisLabelHeight(theme));
      forall a :: 0 <= a < |labels| ==>
        && labels[a].y + labels[a].box.height + theme.layout.axisLabelToCanvasEdgeGap + theme.layout.outerBottom <= theme.height
        && labels[a].y == theme.height - theme.layout.outerBottom - theme.layout.axisLabelToCanvasEdgeGap - AxisLabelHeight(theme)
  {
  }

  lemma CaptionsFit(quotes: seq<Quote>, moveCount: nat, theme: Theme, f: Frame, px: int)
    requires FrameFits(f, |quotes|)
    ensures
      var layout := PlaceAll(quotes, moveCount, theme, f, px);
      forall k :: 0 <= k < |layout.xTicks| ==>
        && layout.xTicks[k].caption.box.height <= TallestCaption(f, quotes, theme)
        && layout.xTicks[k].caption.y == layout.plotBottom + theme.xTickLength + theme.layout.xTickToLabelGap + layout.xTicks[k].caption.box.height
  {
    var layout := PlaceAll(quotes, moveCount, theme, f, px);
    var captions := Heights(Boxes(DateTexts(quotes, f.indices), theme.typography.axisTickFontPx, Rotate270, theme.typography));
    forall k | 0 <= k < |layout.xTicks|
      ensures layout.xTicks[k].caption.box.height <= TallestCaption(f, quotes, theme)
    {
      assert layout.xTicks[k].caption.box.height == captions[k];
    }
  }

  /** Title, subtitle and plot begin at the same x; the y label begins at the left margin, and the x label
      ends where the plot ends. */
  lemma TextsAreAligned(quotes: seq<Quote>, moveCount: nat, theme: Theme)
    ensures var r := LayoutOf(quotes, moveCount, theme); r.Ok? ==> Aligned(r.value, theme)
  {
    if LayoutOf(quotes, moveCount, theme).Ok? {
      var f, px := LayoutIsPlaced(quotes, moveCount, theme);
      AxisLabelsAligned(theme, f.axisLabelHeight, LayoutOf(quotes, moveCount, theme).value);
    }
  }

  predicate Aligned(layout: ChartLayout, theme: Theme) {
    && layout.title.x == layout.plotLeft && layout.subtitle.x == layout.plotLeft
    && |layout.axisLabels| == (if theme.xLabel == "" then 0 else 1) + (if theme.yLabel == "" then 0 else 1)
    && forall a :: 0 <= a < |layout.axisLabels| ==> AxisLabelIsPlaced(layout.axisLabels[a], layout, theme)
  }

  lemma AxisLabelsAligned(theme: Theme, height: int, layout: ChartLayout)
    requires layout.plotRight == theme.width - theme.layout.outerRight && layout.axisLabels == AxisLabels(theme, height)
    ensures |layout.axisLabels| == (if theme.xLabel == "" then 0 else 1) + (if theme.yLabel == "" then 0 else 1)
    ensures forall a :: 0 <= a < |layout.axisLabels| ==> AxisLabelIsPlaced(layout.axisLabels[a], layout, theme)
  {
  }

  predicate AxisLabelIsPlaced(text: PositionedText, layout: ChartLayout, theme: Theme) {
    || (text.text == theme.yLabel && text.x == theme.layout.outerLeft)
    || (text.text == theme.xLabel && text.x + text.box.width == layout.plotRight)
  }

  // ---- when a chart is accepted ----

  /** Vertical room between the subtitle's gap and what is reserved at the bottom. */
  function Available(quotes: seq<Quote>, theme: Theme, indices: seq<int>): int
    requires forall i :: 0 <= i < |indices| ==> 0 <= indices[i] < |quotes|
  {
    var t, l := theme.typography, theme.layout;
    var captions := Heights(Boxes(DateTexts(quotes, indices), t.axisTickFontPx, Rotate270, t));
    theme.height - BottomReserved(theme, AxisLabelHeight(theme), Greatest(captions))
    - (l.outerTop + Chart.Upright(TitleText(|quotes|), t.titleFontPx, t).height + l.titleToSubtitleGap
       + Chart.Upright("subtitle", t.subtitleFontPx, t).height + l.subtitleToPlotGap)
  }

  /** The frame is refused exactly for no room across, or none down, with or without the gaps inside the plot. */
  predicate RefusedForRoom(r: Result<Frame, LayoutError>, width: int, room: int, inner: int) {
    && (r == Err(NoHorizontalRoom) <==> width <= 0)
    && (r == Err(NoVerticalRoom) <==> width > 0 && room <= 0)
    && (r == Err(NoInnerRoom) <==> width > 0 && room > 0 && inner <= 0)
    && (r.Ok? <==> width > 0 && room > 0 && inner > 0)
  }

  lemma FrameAcceptedExactly(quotes: seq<Quote>, theme: Theme)
    ensures |quotes| < 2 <==> FrameOf(quotes, theme) == Err(TooFewQuotes)
    ensures |quotes| >= 2 ==>
      var width := PlotWidth(theme, PlotLeft(theme, YCaptionWidth(quotes, theme)));
      var indices := EvenIndices(|quotes|, theme.layout.maxXTickLabels, width, theme.layout.minXTickLabelGap);
      var room := Available(quotes, theme, indices);
      RefusedForRoom(FrameOf(quotes, theme), width, room, room - theme.layout.plotMinInnerTopGap - theme.layout.plotMinInnerBottomGap)
  {
    if |quotes| >= 2 {
      var left := PlotLeft(theme, YCaptionWidth(quotes, theme));
      assert FrameOf(quotes, theme) == FrameWithin(quotes, theme, left);
      WithinAcceptedExactly(quotes, theme, left);
    }
  }

  lemma WithinAcceptedExactly(quotes: seq<Quote>, theme: Theme, plotLeft: int)
    requires |quotes| >= 2
    ensures FrameWithin(quotes, theme, plotLeft) != Err(TooFewQuotes)
    ensures
      var width := PlotWidth(theme, plotLeft);
      var indices := EvenIndices(|quotes|, theme.layout.maxXTickLabels, width, theme.layout.minXTickLabelGap);
      var room := Available(quotes, theme, indices);
      RefusedForRoom(FrameWithin(quotes, theme, plotLeft), width, room, room - theme.layout.plotMinInnerTopGap - theme.layout.plotMinInnerBottomGap)
  {
  }

  /** Whatever passes is drawn unless the range is too tall at the scale chosen. */
  lemma LayoutAcceptedExactly(quotes: seq<Quote>, moveCount: nat, theme: Theme)
    ensures
      var f := FrameOf(quotes, theme);
      LayoutOf(quotes, moveCount, theme).Ok? <==>
        f.Ok? && SpanOf(f.value.lo, f.value.hi) * PxPerCent(theme.scale, f.value.inner, SpanOf(f.value.lo, f.value.hi)) <= f.value.inner
  {
  }

  // ---- amounts ----

  predicate AllDigits(s: string) {
    forall i :: 0 <= i < |s| ==> '0' <= s[i] <= '9'
  }

  function Decimal(s: string): nat
    requires AllDigits(s)
  {
    if s == "" then 0 else 10 * Decimal(s[..|s| - 1]) + (s[|s| - 1] as int - '0' as int)
  }

  lemma {:induction false} NatTextReadsBack(n: nat)
    ensures AllDigits(NatText(n)) && Decimal(NatText(n)) == n && (n < 10 ==> |NatText(n)| == 1)
  {
    if n < 10 {
      assert NatText(n)[..0] == "";
    } else {
      NatTextReadsBack(n / 10);
      var last := ('0' as int + n % 10) as char;
      assert NatText(n)[..|NatText(n)| - 1] == NatText(n / 10);
    }
  }

  lemma DecimalOfTwo(whole: string, a: char, b: char)
    requires AllDigits(whole) && '0' <= a <= '9' && '0' <= b <= '9'
    ensures AllDigits(whole + [a, b])
    ensures Decimal(whole + [a, b]) == 100 * Decimal(whole) + 10 * (a as int - '0' as int) + (b as int - '0' as int)
  {
    var s := whole + [a, b];
    assert s[..|s| - 1] == whole + [a];
    assert (whole + [a])[..|whole|] == whole;
  }

  lemma TwoDigitsAre(n: nat) returns (a: char, b: char)
    requires n < 100
    ensures TwoDigits(n) == [a, b] && '0' <= a <= '9' && '0' <= b <= '9'
    ensures n == 10 * (a as int - '0' as int) + (b as int - '0' as int)
  {
    a, b := ('0' as int + n / 10) as char, ('0' as int + n % 10) as char;
    if n >= 10 {
      assert NatText(n) == NatText(n / 10) + [b] && NatText(n / 10) == [a];
    }
  }

  /** Whole units and two digits of cents, together the amount in cents. */
  lemma AmountReadsBack(cents: nat) returns (whole: string, part: string)
    ensures whole == NatText(cents / 100) && part == TwoDigits(cents % 100)
    ensures |part| == 2 && AllDigits(whole + part) && Decimal(whole + part) == cents
  {
    whole, part := NatText(cents / 100), TwoDigits(cents % 100);
    NatTextReadsBack(cents / 100);
    var a, b := TwoDigitsAre(cents % 100);
    DecimalOfTwo(whole, a, b);
  }

  /** The digits of a caption, without the comma before the last two, are the amount in cents; the sign is
      in front. */
  lemma CaptionReadsBack(cents: int) returns (whole: string, part: string)
    ensures FormatBrlCent(cents) == (if cents < 0 then "-" else "") + "R$ " + whole + "," + part
    ensures |part| == 2 && AllDigits(whole + part) && Decimal(whole + part) == if cents < 0 then -cents else cents
  {
    whole, part := AmountReadsBack(if cents < 0 then -cents else cents);
  }

  /** So do those of a movement label: its change to the nearest cent, with a sign always. */
  lemma DeltaReadsBack(delta: real) returns (whole: string, part: string)
    ensures FormatDelta(delta) == (if delta >= 0.0 then "+R$ " else "-R$ ") + whole + "," + part
    ensures |part| == 2 && AllDigits(whole + part)
    ensures -0.5 <= Decimal(whole + part) as real - Abs(delta) * 100.0 <= 0.5
  {
    whole, part := AmountReadsBack(RoundReal(Abs(delta) * 100.0));
  }

  // ---- title and subtitle ----

  /** The title of an accepted chart tells the number of quotes. */
  lemma TitleTellsQuotes(quotes: seq<Quote>, moveCount: nat, theme: Theme) returns (count: string)
    requires LayoutOf(quotes, moveCount, theme).Ok?
    ensures LayoutOf(quotes, moveCount, theme).value.title.text == "USD/BRL - últimos " + count + " pregões"
    ensures AllDigits(count) && Decimal(count) == |quotes|
  {
    var f, px := LayoutIsPlaced(quotes, moveCount, theme);
    count := NatText(|quotes|);
    NatTextReadsBack(|quotes|);
  }

  lemma IntTextReadsBack(n: int) returns (digits: string)
    ensures IntText(n) == if n < 0 then "-" + digits else digits
    ensures AllDigits(digits) && Decimal(digits) == if n < 0 then -n else n
  {
    digits := NatText(if n < 0 then -n else n);
    NatTextReadsBack(if n < 0 then -n else n);
  }

  /** The subtitle tells the scale, the threshold and the number of moves. */
  lemma SubtitleTellsMoves(px: int, cents: int, moveCount: nat) returns (scale: string, count: string)
    ensures SubtitleText(px, cents, moveCount) ==
              "escala vertical: " + (if px < 0 then "-" + scale else scale) + " px = R$ 0,01 • pernas importantes: ≥ "
              + FormatBrlCent(cents) + " • detectadas: " + count
    ensures AllDigits(scale) && Decimal(scale) == if px < 0 then -px else px
    ensures AllDigits(count) && Decimal(count) == moveCount
  {
    scale := IntTextReadsBack(px);
    count := NatText(moveCount);
    NatTextReadsBack(moveCount);
  }

  /** And those are the chart's own. */
  lemma SubtitleIsOwn(quotes: seq<Quote>, moveCount: nat, theme: Theme)
    ensures
      var r := LayoutOf(quotes, moveCount, theme);
      r.Ok? ==> r.value.subtitle.text == SubtitleText(r.value.pxPerCent, theme.movement.importantDeltaCents, moveCount)
  {
    if LayoutOf(quotes, moveCount, theme).Ok? {
      var f, px := LayoutIsPlaced(quotes, moveCount, theme);
    }
  }
}
