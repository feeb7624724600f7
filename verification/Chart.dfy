/** The chart planner: geometry of the plot, ticks, points and movement labels.
    Prices are reals and pixels unbounded integers, so neither floating-point rounding nor 32-bit
    overflow is modelled. */
module Chart {
  import opened Wrappers
  import opened Metrics
  import opened Moves
  import opened Ticks

  datatype LayoutError = TooFewQuotes | NoHorizontalRoom | NoVerticalRoom | NoInnerRoom | RangeTooTall

  /** A quote with its date already formatted as day and month. */
  datatype Quote = Quote(date: string, price: real)

  datatype LayoutTheme = LayoutTheme(
    outerLeft: int, outerRight: int, outerTop: int, outerBottom: int,
    titleToSubtitleGap: int, subtitleToPlotGap: int,
    yTickLabelToAxisGap: int, xTickToLabelGap: int, xLabelsToAxisLabelsGap: int, axisLabelToCanvasEdgeGap: int,
    plotMinInnerTopGap: int, plotMinInnerBottomGap: int, movementLabelCanvasGap: int,
    maxXTickLabels: nat, minXTickLabelGap: int)

  datatype ScaleTheme = ScaleTheme(forcePxPerCent: Option<int>, minPxPerCent: int, maxPxPerCent: int, paddingCents: int)

  datatype MovementTheme = MovementTheme(importantDeltaCents: int, labelOffset: int, hasLabelBg: bool, bgPaddingX: int, bgPaddingY: int)

  datatype Theme = Theme(
    width: int, height: int, typography: Typography, layout: LayoutTheme, scale: ScaleTheme,
    xLabel: string, yLabel: string, xTickLength: int, movement: MovementTheme)

  datatype PositionedText = PositionedText(text: string, x: int, y: int, box: TextBox)

  datatype YTick = YTick(cents: int, y: int, caption: PositionedText)

  datatype XTick = XTick(idx: int, x: int, caption: PositionedText)

  datatype ChartLayout = ChartLayout(
    plotLeft: int, plotRight: int, plotTop: int, plotBottom: int, plotWidth: int, plotHeight: int,
    yMinCent: int, yMaxCent: int, pxPerCent: int,
    title: PositionedText, subtitle: PositionedText,
    yTicks: seq<YTick>, xTicks: seq<XTick>, axisLabels: seq<PositionedText>)

  // ---- numbers and texts ----

  function NatText(n: nat): string {
    if n < 10 then [('0' as int + n) as char] else NatText(n / 10) + [('0' as int + n % 10) as char]
  }

  function IntText(n: int): string {
    if n < 0 then "-" + NatText(-n) else NatText(n)
  }

  function TwoDigits(n: nat): string {
    if n < 10 then "0" + NatText(n) else NatText(n)
  }

  function FormatBrlCent(cents: int): string {
    var magnitude := if cents < 0 then -cents else cents;
    (if cents < 0 then "-" else "") + "R$ " + NatText(magnitude / 100) + "," + TwoDigits(magnitude % 100)
  }

  /** Two decimals, ties away from zero. */
  function FormatDelta(delta: real): string {
    var cents := RoundReal(Abs(delta) * 100.0);
    (if delta >= 0.0 then "+R$ " else "-R$ ") + NatText(cents / 100) + "," + TwoDigits(cents % 100)
  }

  /** To the nearest integer, halves away from zero. */
  function RoundReal(x: real): (r: int)
    ensures x >= 0.0 ==> r >= 0
    ensures -0.5 <= r as real - x <= 0.5
  {
    if x >= 0.0 then (x + 0.5).Floor else -((-x + 0.5).Floor)
  }

  function MinPrice(quotes: seq<Quote>): (p: real)
    requires quotes != []
    ensures forall i :: 0 <= i < |quotes| ==> p <= quotes[i].price
    ensures exists i :: 0 <= i < |quotes| && p == quotes[i].price
  {
    if |quotes| == 1 then quotes[0].price
    else
      var rest := MinPrice(quotes[1..]);
      assert forall i :: 0 < i < |quotes| ==> quotes[1..][i - 1] == quotes[i];
      if quotes[0].price < rest then quotes[0].price else rest
  }

  function MaxPrice(quotes: seq<Quote>): (p: real)
    requires quotes != []
    ensures forall i :: 0 <= i < |quotes| ==> quotes[i].price <= p
    ensures exists i :: 0 <= i < |quotes| && p == quotes[i].price
  {
    if |quotes| == 1 then quotes[0].price
    else
      var rest := MaxPrice(quotes[1..]);
      assert forall i :: 0 < i < |quotes| ==> quotes[1..][i - 1] == quotes[i];
      if quotes[0].price > rest then quotes[0].price else rest
  }

  /** Greatest width (or height), 0 for no boxes. */
  function Greatest(sizes: seq<int>): (m: int)
    ensures forall i :: 0 <= i < |sizes| ==> sizes[i] <= m
    ensures sizes != [] ==> m in sizes
  {
    if sizes == [] then 0
    else if |sizes| == 1 then sizes[0]
    else Max(sizes[0], Greatest(sizes[1..]))
  }

  function Boxes(texts: seq<string>, fontPx: nat, rotation: TextRotation, t: Typography): seq<TextBox> {
    seq(|texts|, i requires 0 <= i < |texts| => DirectBox(TextKey(texts[i], fontPx, rotation), t))
  }

  function Widths(boxes: seq<TextBox>): seq<int> {
    seq(|boxes|, i requires 0 <= i < |boxes| => boxes[i].width)
  }

  function Heights(boxes: seq<TextBox>): seq<int> {
    seq(|boxes|, i requires 0 <= i < |boxes| => boxes[i].height)
  }

  function CentTexts(cents: seq<int>): seq<string> {
    seq(|cents|, i requires 0 <= i < |cents| => FormatBrlCent(cents[i]))
  }

  function DateTexts(quotes: seq<Quote>, indices: seq<int>): seq<string>
    requires forall i :: 0 <= i < |indices| ==> 0 <= indices[i] < |quotes|
  {
    seq(|indices|, i requires 0 <= i < |indices| => quotes[indices[i]].date)
  }

  // ---- scale ----

  /** Pixels per cent: forced, or the largest that fits, clamped. */
  function PxPerCent(scale: ScaleTheme, inner: int, span: int): int
    requires span > 0
  {
    match scale.forcePxPerCent
    case Some(px) => px
    case None => Min(Max(TruncDiv(inner, span), scale.minPxPerCent), scale.maxPxPerCent)
  }

  function YOfPrice(price: real, yMinCent: int, pxPerCent: int, plotBottom: int): int {
    plotBottom - RoundReal((price * 100.0 - yMinCent as real) * pxPerCent as real)
  }

  function YOfCents(cents: int, yMinCent: int, pxPerCent: int, plotBottom: int): int {
    plotBottom - (cents - yMinCent) * pxPerCent
  }

  // ---- layout, measured directly ----

  /** What is known before the scale is chosen. */
  datatype Frame = Frame(lo: int, hi: int, plotLeft: int, plotWidth: int, indices: seq<int>, titleBox: TextBox, subtitleY: int, areaTop: int, axisLabelHeight: int, inner: int)

  function YMinCent(quotes: seq<Quote>, theme: Theme): int
    requires quotes != []
  {
    (MinPrice(quotes) * 100.0).Floor - theme.scale.paddingCents
  }

  function YMaxCent(quotes: seq<Quote>, theme: Theme): int
    requires quotes != []
  {
    Ceil(MaxPrice(quotes) * 100.0) + theme.scale.paddingCents
  }

  function TitleText(n: nat): string {
    "USD/BRL - últimos " + NatText(n) + " pregões"
  }

  function SubtitleText(pxPerCent: int, importantDeltaCents: int, moveCount: nat): string {
    "escala vertical: " + IntText(pxPerCent) + " px = R$ 0,01 • pernas importantes: ≥ "
    + FormatBrlCent(importantDeltaCents) + " • detectadas: " + NatText(moveCount)
  }

  function Upright(text: string, fontPx: nat, t: Typography): TextBox {
    DirectBox(TextKey(text, fontPx, TextRotation.Upright), t)
  }

  function AxisLabelHeight(theme: Theme): int {
    if theme.xLabel == "" && theme.yLabel == "" then 0
    else Max(Upright(theme.xLabel, theme.typography.axisLabelFontPx, theme.typography).height,
             Upright(theme.yLabel, theme.typography.axisLabelFontPx, theme.typography).height)
  }

  function BottomReserved(theme: Theme, axisLabelHeight: int, maxXLabelHeight: int): int {
    var l := theme.layout;
    l.outerBottom + l.axisLabelToCanvasEdgeGap + axisLabelHeight
    + (if axisLabelHeight == 0 then 0 else l.xLabelsToAxisLabelsGap)
    + maxXLabelHeight + l.xTickToLabelGap + theme.xTickLength
  }

  /** Width of the widest y caption. */
  function YCaptionWidth(quotes: seq<Quote>, theme: Theme): int
    requires quotes != []
  {
    Greatest(Widths(Boxes(CentTexts(YTicks(YMinCent(quotes, theme), YMaxCent(quotes, theme))),
                          theme.typography.axisTickFontPx, TextRotation.Upright, theme.typography)))
  }

  /** Room below the title and above the axis labels, once the horizontal room is known. */
  function VerticalFrame(quotes: seq<Quote>, theme: Theme, lo: int, hi: int, plotLeft: int, plotWidth: int, indices: seq<int>): (r: Result<Frame, LayoutError>)
    requires |quotes| >= 2 && plotWidth > 0 && forall i :: 0 <= i < |indices| ==> 0 <= indices[i] < |quotes|
    ensures r.Ok? ==> r.value.inner > 0 && r.value.indices == indices
    ensures r.Ok? ==> r.value.lo == lo && r.value.hi == hi && r.value.plotLeft == plotLeft && r.value.plotWidth == plotWidth
    ensures r.Err? ==> !r.error.RangeTooTall?
  {
    var t, l := theme.typography, theme.layout;
    var titleBox := Upright(TitleText(|quotes|), t.titleFontPx, t);
    var subtitleY := l.outerTop + titleBox.height + l.titleToSubtitleGap;
    var areaTop := subtitleY + Upright("subtitle", t.subtitleFontPx, t).height + l.subtitleToPlotGap;
    var xBoxes := Boxes(DateTexts(quotes, indices), t.axisTickFontPx, Rotate270, t);
    var available := theme.height - BottomReserved(theme, AxisLabelHeight(theme), Greatest(Heights(xBoxes))) - areaTop;
    var inner := available - l.plotMinInnerTopGap - l.plotMinInnerBottomGap;
    if available <= 0 then Err(NoVerticalRoom)
    else if inner <= 0 then Err(NoInnerRoom)
    else Ok(Frame(lo, hi, plotLeft, plotWidth, indices, titleBox, subtitleY, areaTop, AxisLabelHeight(theme), inner))
  }

  function PlotLeft(theme: Theme, captionWidth: int): int {
    theme.layout.outerLeft + captionWidth + theme.layout.yTickLabelToAxisGap
  }

  function PlotWidth(theme: Theme, plotLeft: int): int {
    theme.width - theme.layout.outerRight - plotLeft
  }

  function FrameOf(quotes: seq<Quote>, theme: Theme): (r: Result<Frame, LayoutError>)
    ensures r.Ok? ==> FrameFits(r.value, |quotes|) && r.value.inner > 0
    ensures r.Ok? ==> r.value.plotLeft + r.value.plotWidth == theme.width - theme.layout.outerRight
    ensures r.Ok? ==> r.value.plotLeft == theme.layout.outerLeft + YCaptionWidth(quotes, theme) + theme.layout.yTickLabelToAxisGap
    ensures r.Ok? ==> r.value.lo == YMinCent(quotes, theme) && r.value.hi == YMaxCent(quotes, theme)
    ensures r.Ok? ==> r.value.indices == EvenIndices(|quotes|, theme.layout.maxXTickLabels, r.value.plotWidth, theme.layout.minXTickLabelGap)
    ensures r.Err? ==> !r.error.RangeTooTall?
  {
    if |quotes| < 2 then Err(TooFewQuotes)
    else FrameWithin(quotes, theme, PlotLeft(theme, YCaptionWidth(quotes, theme)))
  }

  /** The frame once the y captions have fixed the left edge of the plot. */
  function FrameWithin(quotes: seq<Quote>, theme: Theme, plotLeft: int): (r: Result<Frame, LayoutError>)
    requires |quotes| >= 2
    ensures r.Ok? ==> FrameFits(r.value, |quotes|) && r.value.inner > 0 && r.value.plotLeft == plotLeft
    ensures r.Ok? ==> r.value.plotLeft + r.value.plotWidth == theme.width - theme.layout.outerRight
    ensures r.Ok? ==> r.value.lo == YMinCent(quotes, theme) && r.value.hi == YMaxCent(quotes, theme)
    ensures r.Ok? ==> r.value.indices == EvenIndices(|quotes|, theme.layout.maxXTickLabels, r.value.plotWidth, theme.layout.minXTickLabelGap)
    ensures r.Err? ==> !r.error.RangeTooTall?
  {
    var plotWidth := PlotWidth(theme, plotLeft);
    if plotWidth <= 0 then Err(NoHorizontalRoom)
    else
      VerticalFrame(quotes, theme, YMinCent(quotes, theme), YMaxCent(quotes, theme), plotLeft, plotWidth,
                    EvenIndices(|quotes|, theme.layout.maxXTickLabels, plotWidth, theme.layout.minXTickLabelGap))
  }

  function PlaceYTick(cents: int, f: Frame, theme: Theme, px: int, plotBottom: int): YTick {
    var text := FormatBrlCent(cents);
    var box := Upright(text, theme.typography.axisTickFontPx, theme.typography);
    var y := YOfCents(cents, f.lo, px, plotBottom);
    YTick(cents, y, PositionedText(text, f.plotLeft - theme.layout.yTickLabelToAxisGap - box.width, y - TruncDiv(box.height, 2), box))
  }

  function PlaceXTick(idx: nat, text: string, n: nat, f: Frame, theme: Theme, plotBottom: int): XTick
    requires n >= 2 && f.plotWidth >= 0
  {
    var box := DirectBox(TextKey(text, theme.typography.axisTickFontPx, Rotate270), theme.typography);
    var x := XOfIndex(idx, n, f.plotLeft, f.plotWidth);
    XTick(idx, x, PositionedText(text, x - TruncDiv(box.width, 2), plotBottom + theme.xTickLength + theme.layout.xTickToLabelGap + box.height, box))
  }

  function AxisLabels(theme: Theme, axisLabelHeight: int): seq<PositionedText> {
    var t, l := theme.typography, theme.layout;
    var y := theme.height - l.outerBottom - l.axisLabelToCanvasEdgeGap - axisLabelHeight;
    var xBox, yBox := Upright(theme.xLabel, t.axisLabelFontPx, t), Upright(theme.yLabel, t.axisLabelFontPx, t);
    (if theme.yLabel == "" then [] else [PositionedText(theme.yLabel, l.outerLeft, y, yBox)])
    + (if theme.xLabel == "" then [] else [PositionedText(theme.xLabel, theme.width - l.outerRight - xBox.width, y, xBox)])
  }

  /** The indices and the width a frame hands on. */
  predicate FrameFits(f: Frame, n: nat) {
    n >= 2 && f.plotWidth > 0 && forall i :: 0 <= i < |f.indices| ==> 0 <= f.indices[i] < n
  }

  function PlaceXTicks(quotes: seq<Quote>, f: Frame, theme: Theme, plotBottom: int): seq<XTick>
    requires FrameFits(f, |quotes|)
  {
    seq(|f.indices|, k requires 0 <= k < |f.indices| =>
      PlaceXTick(f.indices[k], quotes[f.indices[k]].date, |quotes|, f, theme, plotBottom))
  }

  function PlaceYTicks(cents: seq<int>, f: Frame, theme: Theme, px: int, plotBottom: int): seq<YTick> {
    seq(|cents|, k requires 0 <= k < |cents| => PlaceYTick(cents[k], f, theme, px, plotBottom))
  }

  /** Everything that depends on the scale. */
  function PlaceAll(quotes: seq<Quote>, moveCount: nat, theme: Theme, f: Frame, px: int): ChartLayout
    requires FrameFits(f, |quotes|)
  {
    var plotHeight := SpanOf(f.lo, f.hi) * px;
    var plotTop := f.areaTop + theme.layout.plotMinInnerTopGap + TruncDiv(f.inner - plotHeight, 2);
    var plotBottom := plotTop + plotHeight;
    var subtitle := SubtitleText(px, theme.movement.importantDeltaCents, moveCount);
    ChartLayout(
      f.plotLeft, theme.width - theme.layout.outerRight, plotTop, plotBottom, f.plotWidth, plotHeight,
      f.lo, f.hi, px,
      PositionedText(TitleText(|quotes|), f.plotLeft, theme.layout.outerTop, f.titleBox),
      PositionedText(subtitle, f.plotLeft, f.subtitleY, Upright(subtitle, theme.typography.subtitleFontPx, theme.typography)),
      PlaceYTicks(YTicks(f.lo, f.hi), f, theme, px, plotBottom),
      PlaceXTicks(quotes, f, theme, plotBottom),
      AxisLabels(theme, f.axisLabelHeight))
  }

  /** The whole layout as a function of quotes and theme alone: no cache is involved. */
  function LayoutOf(quotes: seq<Quote>, moveCount: nat, theme: Theme): Result<ChartLayout, LayoutError> {
    match FrameOf(quotes, theme)
    case Err(e) => Err(e)
    case Ok(f) =>
      var px := PxPerCent(theme.scale, f.inner, SpanOf(f.lo, f.hi));
      if SpanOf(f.lo, f.hi) * px > f.inner then Err(RangeTooTall) else Ok(PlaceAll(quotes, moveCount, theme, f, px))
  }

  // ---- points and movement labels ----

  function Points(quotes: seq<Quote>, layout: ChartLayout): seq<(int, int)>
    requires |quotes| >= 2 && layout.plotWidth >= 0
  {
    seq(|quotes|, i requires 0 <= i < |quotes| =>
      (XOfIndex(i, |quotes|, layout.plotLeft, layout.plotWidth), YOfPrice(quotes[i].price, layout.yMinCent, layout.pxPerCent, layout.plotBottom)))
  }

  function Clamp(v: int, lo: int, hi: int): int {
    if lo > hi then lo else Min(Max(v, lo), hi)
  }

  datatype MovementLayer = MovementLayer(startIdx: nat, endIdx: nat, kind: MoveKind, caption: PositionedText)

  /** Padding of a label's background, plus the gap it keeps from the plot's edges. */
  function LabelMargins(theme: Theme): (int, int) {
    var m, gap := theme.movement, theme.layout.movementLabelCanvasGap;
    if m.hasLabelBg then (m.bgPaddingX + gap, m.bgPaddingY + gap) else (gap, gap)
  }

  function PlaceLayer(mv: ImportantMove, points: seq<(int, int)>, layout: ChartLayout, theme: Theme): MovementLayer
    requires mv.startIdx < |points| && mv.endIdx < |points|
  {
    var (x1, y1), (x2, y2) := points[mv.startIdx], points[mv.endIdx];
    var text := FormatDelta(mv.delta);
    var box := Upright(text, theme.typography.movementLabelFontPx, theme.typography);
    var midX, midY := TruncDiv(x1 + x2, 2), TruncDiv(y1 + y2, 2);
    var (marginX, marginY) := LabelMargins(theme);
    var x := midX - TruncDiv(box.width, 2);
    var y := if mv.kind.Rise? then midY - box.height - theme.movement.labelOffset else midY + theme.movement.labelOffset;
    MovementLayer(mv.startIdx, mv.endIdx, mv.kind, PositionedText(text,
      Clamp(x, layout.plotLeft + marginX, layout.plotRight - box.width - marginX),
      Clamp(y, layout.plotTop + marginY, layout.plotBottom - box.height - marginY), box))
  }

  datatype ChartPlan = ChartPlan(layout: ChartLayout, points: seq<(int, int)>, layers: seq<MovementLayer>)

  predicate MovesFit(moves: seq<ImportantMove>, n: nat) {
    forall k :: 0 <= k < |moves| ==> moves[k].startIdx < n && moves[k].endIdx < n
  }

  lemma LayoutNeedsTwoQuotes(quotes: seq<Quote>, moveCount: nat, theme: Theme)
    ensures
      var r := LayoutOf(quotes, moveCount, theme);
      r.Ok? ==> |quotes| >= 2 && r.value.plotWidth > 0
  {
  }

  function PlaceLayers(moves: seq<ImportantMove>, points: seq<(int, int)>, layout: ChartLayout, theme: Theme): seq<MovementLayer>
    requires MovesFit(moves, |points|)
  {
    seq(|moves|, k requires 0 <= k < |moves| => PlaceLayer(moves[k], points, layout, theme))
  }

  function PlanOf(quotes: seq<Quote>, moves: seq<ImportantMove>, theme: Theme): Result<ChartPlan, LayoutError>
    requires MovesFit(moves, |quotes|)
  {
    match LayoutOf(quotes, |moves|, theme)
    case Err(e) => Err(e)
    case Ok(layout) =>
      LayoutNeedsTwoQuotes(quotes, |moves|, theme);
      var points := Points(quotes, layout);
      Ok(ChartPlan(layout, points, PlaceLayers(moves, points, layout, theme)))
  }
}
