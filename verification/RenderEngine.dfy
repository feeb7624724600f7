/** The render engine: the planner as the code runs it, measuring every text through one cache.
    Whatever the cache holds from earlier frames, the plan is the one measured directly. */
module RenderEngine {
  import opened Wrappers
  import opened Metrics
  import opened Moves
  import opened Ticks
  import opened Chart
  import opened ChartDrawing

  method MeasureAll(metrics: FontMetricsCache, texts: seq<string>, fontPx: nat, rotation: TextRotation, t: Typography)
    returns (boxes: seq<TextBox>)
    requires metrics.AgreesWith(t)
    modifies metrics
    ensures metrics.AgreesWith(t) && boxes == Boxes(texts, fontPx, rotation, t)
  {
    boxes := [];
    for i := 0 to |texts|
      invariant metrics.AgreesWith(t)
      invariant |boxes| == i && forall k :: 0 <= k < i ==> boxes[k] == DirectBox(TextKey(texts[k], fontPx, rotation), t)
    {
      var box := metrics.Measure(texts[i], fontPx, rotation, t);
      boxes := boxes + [box];
    }
  }

  class Engine {
    const theme: Theme
    const metrics: FontMetricsCache

    constructor (theme: Theme)
      ensures this.theme == theme && fresh(metrics) && Valid()
    {
      this.theme := theme;
      metrics := new FontMetricsCache();
    }

    ghost predicate Valid()
      reads metrics
    {
      metrics.AgreesWith(theme.typography)
    }

    method MeasureUpright(text: string, fontPx: nat) returns (box: TextBox)
      requires Valid()
      modifies metrics
      ensures Valid() && box == Chart.Upright(text, fontPx, theme.typography)
    {
      box := metrics.Measure(text, fontPx, TextRotation.Upright, theme.typography);
    }

    /** Fills the cache with the texts a chart is likely to need; it can never change a plan. */
    method WarmUp(quotes: seq<Quote>, moves: seq<ImportantMove>)
      requires Valid()
      modifies metrics
      ensures Valid()
      ensures forall i :: 0 <= i < |quotes| ==> TextKey(quotes[i].date, theme.typography.axisTickFontPx, Rotate270) in metrics.cache
    {
      var t := theme.typography;
      var common := ["USD/BRL - últimos 30 pregões", "escala vertical: 19 px = R$ 0,01 | pernas importantes: >= R$ 0,03 | detectadas: 9", theme.xLabel, theme.yLabel];
      for i := 0 to |common|
        invariant Valid()
      {
        var _ := MeasureUpright(common[i], t.titleFontPx);
        var _ := MeasureUpright(common[i], t.subtitleFontPx);
        var _ := MeasureUpright(common[i], t.axisLabelFontPx);
      }
      for i := 0 to |moves|
        invariant Valid()
      {
        var _ := MeasureUpright(FormatDelta(moves[i].delta), t.movementLabelFontPx);
      }
      for i := 0 to |quotes|
        invariant Valid()
        invariant forall k :: 0 <= k < i ==> TextKey(quotes[k].date, t.axisTickFontPx, Rotate270) in metrics.cache
      {
        var _ := metrics.Measure(FormatBrlCent(RoundReal(quotes[i].price * 100.0)), t.axisTickFontPx, TextRotation.Upright, t);
        var _ := metrics.Measure(quotes[i].date, t.axisTickFontPx, Rotate270, t);
      }
    }

    method WidestYCaption(quotes: seq<Quote>) returns (width: int)
      requires Valid() && quotes != []
      modifies metrics
      ensures Valid() && width == YCaptionWidth(quotes, theme)
    {
      var ticks := BuildYTickCents(YMinCent(quotes, theme), YMaxCent(quotes, theme));
      var boxes := MeasureAll(metrics, CentTexts(ticks), theme.typography.axisTickFontPx, TextRotation.Upright, theme.typography);
      width := Greatest(Widths(boxes));
    }

    method TallestXCaption(texts: seq<string>) returns (height: int)
      requires Valid()
      modifies metrics
      ensures Valid()
      ensures height == Greatest(Heights(Boxes(texts, theme.typography.axisTickFontPx, Rotate270, theme.typography)))
    {
      var boxes := MeasureAll(metrics, texts, theme.typography.axisTickFontPx, Rotate270, theme.typography);
      height := Greatest(Heights(boxes));
    }

    method MeasureAxisLabels() returns (height: int)
      requires Valid()
      modifies metrics
      ensures Valid() && height == AxisLabelHeight(theme)
    {
      var xBox := MeasureUpright(theme.xLabel, theme.typography.axisLabelFontPx);
      var yBox := MeasureUpright(theme.yLabel, theme.typography.axisLabelFontPx);
      height := if theme.xLabel == "" && theme.yLabel == "" then 0 else Max(xBox.height, yBox.height);
    }

    /** The part of `build_layout` before the scale is chosen. */
    method BuildFrame(quotes: seq<Quote>) returns (r: Result<Frame, LayoutError>)
      requires Valid()
      modifies metrics
      ensures Valid() && r == FrameOf(quotes, theme)
    {
      if |quotes| < 2 {
        return Err(TooFewQuotes);
      }
      var captionWidth := WidestYCaption(quotes);
      r := BuildWithin(quotes, PlotLeft(theme, captionWidth));
    }

    method BuildWithin(quotes: seq<Quote>, plotLeft: int) returns (r: Result<Frame, LayoutError>)
      requires Valid() && |quotes| >= 2
      modifies metrics
      ensures Valid() && r == FrameWithin(quotes, theme, plotLeft)
    {
      var plotWidth := PlotWidth(theme, plotLeft);
      if plotWidth <= 0 {
        return Err(NoHorizontalRoom);
      }
      var indices := ChooseEvenlySpacedIndices(|quotes|, theme.layout.maxXTickLabels, plotWidth, theme.layout.minXTickLabelGap);
      r := BuildVertically(quotes, YMinCent(quotes, theme), YMaxCent(quotes, theme), plotLeft, plotWidth, indices);
    }

    method BuildVertically(quotes: seq<Quote>, lo: int, hi: int, plotLeft: int, plotWidth: int, indices: seq<int>) returns (r: Result<Frame, LayoutError>)
      requires Valid() && |quotes| >= 2 && plotWidth > 0 && forall i :: 0 <= i < |indices| ==> 0 <= indices[i] < |quotes|
      modifies metrics
      ensures Valid() && r == VerticalFrame(quotes, theme, lo, hi, plotLeft, plotWidth, indices)
    {
      var l := theme.layout;
      var titleBox := MeasureUpright(TitleText(|quotes|), theme.typography.titleFontPx);
      var subtitleBox := MeasureUpright("subtitle", theme.typography.subtitleFontPx);
      var subtitleY := l.outerTop + titleBox.height + l.titleToSubtitleGap;
      var areaTop := subtitleY + subtitleBox.height + l.subtitleToPlotGap;
      var captionHeight := TallestXCaption(DateTexts(quotes, indices));
      var axisLabelHeight := MeasureAxisLabels();
      var available := theme.height - BottomReserved(theme, axisLabelHeight, captionHeight) - areaTop;
      if available <= 0 {
        return Err(NoVerticalRoom);
      }
      var inner := available - l.plotMinInnerTopGap - l.plotMinInnerBottomGap;
      if inner <= 0 {
        return Err(NoInnerRoom);
      }
      r := Ok(Frame(lo, hi, plotLeft, plotWidth, indices, titleBox, subtitleY, areaTop, axisLabelHeight, inner));
    }

    method BuildYTicks(f: Frame, px: int, plotBottom: int) returns (ticks: seq<YTick>)
      requires Valid()
      modifies metrics
      ensures Valid() && ticks == PlaceYTicks(YTicks(f.lo, f.hi), f, theme, px, plotBottom)
    {
      var cents := BuildYTickCents(f.lo, f.hi);
      ticks := [];
      for i := 0 to |cents|
        invariant Valid()
        invariant |ticks| == i && forall k :: 0 <= k < i ==> ticks[k] == PlaceYTick(cents[k], f, theme, px, plotBottom)
      {
        var text := FormatBrlCent(cents[i]);
        var box := MeasureUpright(text, theme.typography.axisTickFontPx);
        var y := YOfCents(cents[i], f.lo, px, plotBottom);
        ticks := ticks + [YTick(cents[i], y,
          PositionedText(text, f.plotLeft - theme.layout.yTickLabelToAxisGap - box.width, y - TruncDiv(box.height, 2), box))];
      }
    }

    method BuildXTicks(quotes: seq<Quote>, f: Frame, plotBottom: int) returns (ticks: seq<XTick>)
      requires Valid() && FrameFits(f, |quotes|)
      modifies metrics
      ensures Valid() && ticks == PlaceXTicks(quotes, f, theme, plotBottom)
    {
      ticks := [];
      for i := 0 to |f.indices|
        invariant Valid()
        invariant |ticks| == i
        invariant forall k :: 0 <= k < i ==> ticks[k] == PlaceXTick(f.indices[k], quotes[f.indices[k]].date, |quotes|, f, theme, plotBottom)
      {
        var idx := f.indices[i];
        var x := XOfIndex(idx, |quotes|, f.plotLeft, f.plotWidth);
        var text := quotes[idx].date;
        var box := metrics.Measure(text, theme.typography.axisTickFontPx, Rotate270, theme.typography);
        ticks := ticks + [XTick(idx, x,
          PositionedText(text, x - TruncDiv(box.width, 2), plotBottom + theme.xTickLength + theme.layout.xTickToLabelGap + box.height, box))];
      }
    }

    method BuildLayout(quotes: seq<Quote>, moveCount: nat) returns (r: Result<ChartLayout, LayoutError>)
      requires Valid()
      modifies metrics
      ensures Valid() && r == LayoutOf(quotes, moveCount, theme)
    {
      var frame := BuildFrame(quotes);
      if frame.Err? {
        return Err(frame.error);
      }
      var f := frame.value;
      var px := PxPerCent(theme.scale, f.inner, SpanOf(f.lo, f.hi));
      if SpanOf(f.lo, f.hi) * px > f.inner {
        return Err(RangeTooTall);
      }
      var layout := BuildScaled(quotes, moveCount, f, px);
      r := Ok(layout);
    }

    /** The part of `build_layout` after the scale is chosen. */
    method BuildScaled(quotes: seq<Quote>, moveCount: nat, f: Frame, px: int) returns (layout: ChartLayout)
      requires Valid() && FrameFits(f, |quotes|)
      modifies metrics
      ensures Valid() && layout == PlaceAll(quotes, moveCount, theme, f, px)
    {
      var l := theme.layout;
      var plotHeight := SpanOf(f.lo, f.hi) * px;
      var plotTop := f.areaTop + l.plotMinInnerTopGap + TruncDiv(f.inner - plotHeight, 2);
      var plotBottom := plotTop + plotHeight;
      var subtitle := SubtitleText(px, theme.movement.importantDeltaCents, moveCount);
      var subtitleBox := MeasureUpright(subtitle, theme.typography.subtitleFontPx);
      var yTicks := BuildYTicks(f, px, plotBottom);
      var xTicks := BuildXTicks(quotes, f, plotBottom);
      layout := ChartLayout(
        f.plotLeft, theme.width - l.outerRight, plotTop, plotBottom, f.plotWidth, plotHeight, f.lo, f.hi, px,
        PositionedText(TitleText(|quotes|), f.plotLeft, l.outerTop, f.titleBox),
        PositionedText(subtitle, f.plotLeft, f.subtitleY, subtitleBox),
        yTicks, xTicks, AxisLabels(theme, f.axisLabelHeight));
    }

    method BuildMovementLayer(mv: ImportantMove, points: seq<(int, int)>, layout: ChartLayout) returns (layer: MovementLayer)
      requires Valid() && mv.startIdx < |points| && mv.endIdx < |points|
      modifies metrics
      ensures Valid() && layer == PlaceLayer(mv, points, layout, theme)
    {
      var (x1, y1) := points[mv.startIdx];
      var (x2, y2) := points[mv.endIdx];
      var text := FormatDelta(mv.delta);
      var box := MeasureUpright(text, theme.typography.movementLabelFontPx);
      var midX, midY := TruncDiv(x1 + x2, 2), TruncDiv(y1 + y2, 2);
      var x := midX - TruncDiv(box.width, 2);
      var y;
      match mv.kind {
        case Rise => y := midY - box.height - theme.movement.labelOffset;
        case Fall => y := midY + theme.movement.labelOffset;
      }
      var (marginX, marginY) := LabelMargins(theme);
      x := Clamp(x, layout.plotLeft + marginX, layout.plotRight - box.width - marginX);
      y := Clamp(y, layout.plotTop + marginY, layout.plotBottom - box.height - marginY);
      layer := MovementLayer(mv.startIdx, mv.endIdx, mv.kind, PositionedText(text, x, y, box));
    }

    method BuildLayers(moves: seq<ImportantMove>, points: seq<(int, int)>, layout: ChartLayout) returns (layers: seq<MovementLayer>)
      requires Valid() && MovesFit(moves, |points|)
      modifies metrics
      ensures Valid() && layers == PlaceLayers(moves, points, layout, theme)
    {
      layers := [];
      for i := 0 to |moves|
        invariant Valid()
        invariant |layers| == i && forall k :: 0 <= k < i ==> layers[k] == PlaceLayer(moves[k], points, layout, theme)
      {
        var layer := BuildMovementLayer(moves[i], points, layout);
        layers := layers + [layer];
      }
    }

    /** `plan` equals the plan measured without a cache, on every call of an engine's life; it shows each quote
        where its date and its price belong, and each move's label beside it. */
    method Plan(quotes: seq<Quote>, moves: seq<ImportantMove>) returns (r: Result<ChartPlan, LayoutError>)
      requires Valid() && MovesFit(moves, |quotes|)
      modifies metrics
      ensures Valid() && r == PlanOf(quotes, moves, theme)
      ensures r.Ok? ==> ShowsQuotes(r.value, quotes) && LayersSuit(r.value, moves, theme)
    {
      PlanShowsQuotes(quotes, moves, theme);
      var layout := BuildLayout(quotes, |moves|);
      if layout.Err? {
        return Err(layout.error);
      }
      LayoutNeedsTwoQuotes(quotes, |moves|, theme);
      var points := Points(quotes, layout.value);
      var layers := BuildLayers(moves, points, layout.value);
      r := Ok(ChartPlan(layout.value, points, layers));
    }

    /** Detect, then plan, as each frame of the demo does: the detection uses the default theme's threshold,
        whatever threshold the engine's own theme announces. The moves found always fit the quotes. */
    method PlanFrame(quotes: seq<Quote>) returns (r: Result<ChartPlan, LayoutError>, ghost moves: seq<ImportantMove>)
      requires Valid()
      modifies metrics
      ensures Valid() && IsReport(Prices(quotes), Threshold(DEFAULT_DELTA_CENTS), moves)
      ensures MovesFit(moves, |quotes|) && r == PlanOf(quotes, moves, theme)
    {
      var found := DetectImportantMoves(Prices(quotes), DEFAULT_DELTA_CENTS);
      moves := found;
      assert forall k :: 0 <= k < |found| ==> IsMove(Prices(quotes), Threshold(DEFAULT_DELTA_CENTS), found[k]);
      r := Plan(quotes, found);
    }
  }

  /** The default theme's threshold for important moves. */
  const DEFAULT_DELTA_CENTS := 3

  /** The engine's theme: the threshold given on the command line, or the default. */
  function DemoTheme(default: Theme, threshold: Option<int>): Theme {
    if threshold.None? then default
    else default.(movement := default.movement.(importantDeltaCents := threshold.value))
  }

  /** The subtitle of a frame announces the threshold that was really used exactly when none was given on
      the command line, or the default one. */
  lemma SubtitleIsRightExactly(default: Theme, threshold: Option<int>)
    requires default.movement.importantDeltaCents == DEFAULT_DELTA_CENTS
    ensures SameDetections(DemoTheme(default, threshold).movement.importantDeltaCents, DEFAULT_DELTA_CENTS) <==>
              threshold.None? || threshold.value == DEFAULT_DELTA_CENTS
  {
    ThresholdsAgreeExactly(DemoTheme(default, threshold).movement.importantDeltaCents, DEFAULT_DELTA_CENTS);
  }

  function Prices(quotes: seq<Quote>): seq<real> {
    seq(|quotes|, i requires 0 <= i < |quotes| => quotes[i].price)
  }
}
