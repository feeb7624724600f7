/** Detection of important moves: maximal runs of quotes that keep rising or keep falling.
    Prices are reals, so rounding is not modelled. */
module Moves {

  datatype MoveKind = Rise | Fall

  datatype ImportantMove = ImportantMove(startIdx: nat, endIdx: nat, delta: real, kind: MoveKind)

  const EPS := 0.0000001

  function Threshold(cents: int): real {
    cents as real / 100.0
  }

  function Abs(x: real): real {
    if x < 0.0 then -x else x
  }

  /** Direction of the step from quote `i - 1` to quote `i`: 1, -1, or 0 when it is flat. */
  function Direction(quotes: seq<real>, i: nat): int
    requires 0 < i < |quotes|
  {
    var step := quotes[i] - quotes[i - 1];
    if step > EPS then 1 else if step < -EPS then -1 else 0
  }

  /** A step is flat up to a ten-millionth either way. */
  lemma FlatExactly(quotes: seq<real>, i: nat)
    requires 0 < i < |quotes|
    ensures Direction(quotes, i) == 0 <==> -0.0000001 <= quotes[i] - quotes[i - 1] <= 0.0000001
    ensures Direction(quotes, i) == 1 <==> quotes[i] > quotes[i - 1] + 0.0000001
    ensures Direction(quotes, i) == -1 <==> quotes[i] < quotes[i - 1] - 0.0000001
  {
  }

  /** All steps from `s` to `e` go the same way, none flat. */
  predicate IsRun(quotes: seq<real>, s: nat, e: nat) {
    s < e < |quotes| && Direction(quotes, e) != 0 &&
    forall i :: s < i <= e ==> Direction(quotes, i) == Direction(quotes, e)
  }

  /** A run that cannot be extended on either side. */
  predicate IsMaximalRun(quotes: seq<real>, s: nat, e: nat) {
    IsRun(quotes, s, e) &&
    (s > 0 ==> Direction(quotes, s) != Direction(quotes, e)) &&
    (e + 1 < |quotes| ==> Direction(quotes, e + 1) != Direction(quotes, e))
  }

  predicate IsImportant(quotes: seq<real>, threshold: real, s: nat, e: nat)
    requires s < |quotes| && e < |quotes|
  {
    Abs(quotes[e] - quotes[s]) + EPS >= threshold
  }

  /** Important is a change of the threshold's cents, up to a ten-millionth, either way. */
  lemma ImportantExactly(quotes: seq<real>, cents: int, s: nat, e: nat)
    requires s < |quotes| && e < |quotes|
    ensures IsImportant(quotes, Threshold(cents), s, e) <==>
              quotes[e] - quotes[s] >= cents as real / 100.0 - 0.0000001 || quotes[s] - quotes[e] >= cents as real / 100.0 - 0.0000001
  {
  }

  /** A reported move is a maximal run, important, with its total change and its direction. */
  predicate IsMove(quotes: seq<real>, threshold: real, m: ImportantMove) {
    IsMaximalRun(quotes, m.startIdx, m.endIdx) &&
    IsImportant(quotes, threshold, m.startIdx, m.endIdx) &&
    m.delta == quotes[m.endIdx] - quotes[m.startIdx] &&
    m.kind == (if Direction(quotes, m.endIdx) == 1 then Rise else Fall)
  }

  predicate Reports(moves: seq<ImportantMove>, s: nat, e: nat) {
    exists k :: 0 <= k < |moves| && moves[k].startIdx == s && moves[k].endIdx == e
  }

  predicate InOrder(moves: seq<ImportantMove>) {
    forall j, k :: 0 <= j < k < |moves| ==> moves[j].endIdx <= moves[k].startIdx
  }

  /** The moves found among the runs that end before `limit`, in order, each once. */
  ghost predicate ReportUpTo(quotes: seq<real>, threshold: real, moves: seq<ImportantMove>, limit: nat) {
    && InOrder(moves)
    && (forall k :: 0 <= k < |moves| ==> IsMove(quotes, threshold, moves[k]) && moves[k].endIdx < limit)
    && (forall s: nat, e: nat :: IsMaximalRun(quotes, s, e) && e < limit && IsImportant(quotes, threshold, s, e) ==> Reports(moves, s, e))
  }

  /** The complete report. */
  ghost predicate IsReport(quotes: seq<real>, threshold: real, moves: seq<ImportantMove>) {
    ReportUpTo(quotes, threshold, moves, |quotes|)
  }

  /** The change over a run has the run's sign. */
  lemma {:induction false} RunHasItsSign(quotes: seq<real>, s: nat, e: nat)
    requires IsRun(quotes, s, e)
    ensures Direction(quotes, e) == 1 ==> quotes[e] - quotes[s] > EPS
    ensures Direction(quotes, e) == -1 ==> quotes[e] - quotes[s] < -EPS
  {
    assert Direction(quotes, s + 1) == Direction(quotes, e);
    if s + 1 < e {
      assert Direction(quotes, e - 1) == Direction(quotes, e);
      RunHasItsSign(quotes, s, e - 1);
    }
  }

  method DetectImportantMoves(quotes: seq<real>, thresholdCents: int) returns (out: seq<ImportantMove>)
    ensures IsReport(quotes, Threshold(thresholdCents), out)
  {
    if |quotes| < 2 {
      return [];
    }
    var threshold := Threshold(thresholdCents);
    out := [];
    var runStart := 0;
    var runDelta := 0.0;
    var direction := 0;
    for i := 1 to |quotes|
      invariant runStart < i
      invariant runDelta == quotes[i - 1] - quotes[runStart]
      invariant direction == 0 <==> runStart == i - 1
      invariant direction == (if i == 1 then 0 else Direction(quotes, i - 1))
      invariant direction != 0 ==> IsRun(quotes, runStart, i - 1)
      invariant runStart > 0 && direction != 0 ==> Direction(quotes, runStart) != direction
      invariant ReportUpTo(quotes, threshold, out, runStart + 1)
    {
      var step := quotes[i] - quotes[i - 1];
      var stepDirection := Direction(quotes, i);
      if stepDirection == 0 {
        out := MaybePushMove(quotes, out, runStart, i - 1, runDelta, threshold);
        runStart := i;
        runDelta := 0.0;
        direction := 0;
      } else if direction == 0 {
        runStart := i - 1;
        runDelta := step;
        direction := stepDirection;
      } else if stepDirection == direction {
        runDelta := runDelta + step;
      } else {
        out := MaybePushMove(quotes, out, runStart, i - 1, runDelta, threshold);
        runStart := i - 1;
        runDelta := step;
        direction := stepDirection;
      }
    }
    out := MaybePushMove(quotes, out, runStart, |quotes| - 1, runDelta, threshold);
  }

  /** Closing the current run: `[start, end]` is either a single quote or a maximal run. */
  method MaybePushMove(quotes: seq<real>, moves: seq<ImportantMove>, start: nat, end: nat, delta: real, threshold: real)
    returns (out: seq<ImportantMove>)
    requires start <= end < |quotes| && delta == quotes[end] - quotes[start]
    requires start < end ==> IsMaximalRun(quotes, start, end)
    requires ReportUpTo(quotes, threshold, moves, start + 1)
    ensures ReportUpTo(quotes, threshold, out, end + 1)
  {
    if end <= start || Abs(delta) + EPS < threshold {
      NothingBetween(quotes, threshold, moves, start, end);
      return moves;
    }
    var move := ImportantMove(start, end, delta, if delta >= 0.0 then Rise else Fall);
    RunHasItsSign(quotes, start, end);
    out := moves + [move];
    forall s: nat, e: nat | IsMaximalRun(quotes, s, e) && e <= end && IsImportant(quotes, threshold, s, e)
      ensures Reports(out, s, e)
    {
      MaximalRunsAreApart(quotes, s, e, start, end);
      if e <= start {
        assert Reports(moves, s, e);
        var k :| 0 <= k < |moves| && moves[k].startIdx == s && moves[k].endIdx == e;
        assert out[k].startIdx == s && out[k].endIdx == e;
      } else {
        assert out[|moves|].startIdx == s && out[|moves|].endIdx == e;
      }
    }
  }

  /** Two maximal runs are the same or follow one another. */
  lemma MaximalRunsAreApart(quotes: seq<real>, s: nat, e: nat, s': nat, e': nat)
    requires IsMaximalRun(quotes, s, e) && IsMaximalRun(quotes, s', e')
    ensures (s == s' && e == e') || e <= s' || e' <= s
  {
    if s <= s' < e {
      SameRun(quotes, s, e, s', e');
    } else if s' <= s < e' {
      SameRun(quotes, s', e', s, e);
    }
  }

  lemma SameRun(quotes: seq<real>, s: nat, e: nat, s': nat, e': nat)
    requires IsMaximalRun(quotes, s, e) && IsMaximalRun(quotes, s', e') && s <= s' < e
    ensures s == s' && e == e'
  {
    var d := Direction(quotes, s' + 1);
    assert d == Direction(quotes, e) && d == Direction(quotes, e');
  }

  lemma NothingBetween(quotes: seq<real>, threshold: real, moves: seq<ImportantMove>, start: nat, end: nat)
    requires start <= end < |quotes|
    requires start < end ==> IsMaximalRun(quotes, start, end) && !IsImportant(quotes, threshold, start, end)
    requires ReportUpTo(quotes, threshold, moves, start + 1)
    ensures ReportUpTo(quotes, threshold, moves, end + 1)
  {
    forall s: nat, e: nat | IsMaximalRun(quotes, s, e) && e <= end && IsImportant(quotes, threshold, s, e)
      ensures Reports(moves, s, e)
    {
      if start < end {
        MaximalRunsAreApart(quotes, s, e, start, end);
      }
    }
  }

  // ---- the report is unique ----

  lemma MovesWithSameRunAgree(quotes: seq<real>, threshold: real, a: ImportantMove, b: ImportantMove)
    requires IsMove(quotes, threshold, a) && IsMove(quotes, threshold, b) && a.startIdx == b.startIdx && a.endIdx == b.endIdx
    ensures a == b
  {
  }

  /** `a[k]` is in `b`, at or after position `k` when the reports agree before it. */
  lemma FindInOther(quotes: seq<real>, threshold: real, a: seq<ImportantMove>, b: seq<ImportantMove>, k: nat) returns (j: nat)
    requires IsReport(quotes, threshold, a) && IsReport(quotes, threshold, b)
    requires k < |a| && k <= |b| && a[..k] == b[..k]
    ensures k <= j < |b| && b[j] == a[k]
  {
    assert IsMove(quotes, threshold, a[k]);
    assert Reports(b, a[k].startIdx, a[k].endIdx);
    j :| 0 <= j < |b| && b[j].startIdx == a[k].startIdx && b[j].endIdx == a[k].endIdx;
    MovesWithSameRunAgree(quotes, threshold, a[k], b[j]);
    assert forall i :: 0 <= i < k ==> a[..k][i] == a[i] && b[..k][i] == b[i];
  }

  lemma {:induction false} ReportsAgreeUpTo(quotes: seq<real>, threshold: real, a: seq<ImportantMove>, b: seq<ImportantMove>, k: nat)
    requires IsReport(quotes, threshold, a) && IsReport(quotes, threshold, b) && k <= |a|
    ensures k <= |b| && a[..k] == b[..k]
  {
    if k > 0 {
      ReportsAgreeUpTo(quotes, threshold, a, b, k - 1);
      var j := FindInOther(quotes, threshold, a, b, k - 1);
      var i := FindInOther(quotes, threshold, b, a, k - 1);
      assert IsMove(quotes, threshold, a[k - 1]) && IsMove(quotes, threshold, b[k - 1]);
      assert a[k - 1] == b[k - 1];
      assert a[..k] == a[..k - 1] + [a[k - 1]];
    }
  }

  /** `DetectImportantMoves` has one possible answer. */
  lemma ReportIsUnique(quotes: seq<real>, threshold: real, a: seq<ImportantMove>, b: seq<ImportantMove>)
    requires IsReport(quotes, threshold, a) && IsReport(quotes, threshold, b)
    ensures a == b
  {
    ReportsAgreeUpTo(quotes, threshold, a, b, |a|);
    ReportsAgreeUpTo(quotes, threshold, b, a, |b|);
    assert a[..|a|] == a && b[..|b|] == b;
  }

  // ---- stability under extension ----

  /** The last quote reached from `e` without changing direction. */
  function RunEnd(quotes: seq<real>, e: nat): (r: nat)
    requires 0 < e < |quotes|
    ensures e <= r < |quotes|
    decreases |quotes| - e
  {
    if e + 1 < |quotes| && Direction(quotes, e + 1) == Direction(quotes, e) then RunEnd(quotes, e + 1) else e
  }

  lemma {:induction false} RunEndIsMaximal(quotes: seq<real>, s: nat, e: nat)
    requires IsRun(quotes, s, e) && (s > 0 ==> Direction(quotes, s) != Direction(quotes, e))
    ensures IsMaximalRun(quotes, s, RunEnd(quotes, e)) && Direction(quotes, RunEnd(quotes, e)) == Direction(quotes, e)
    decreases |quotes| - e
  {
    if e + 1 < |quotes| && Direction(quotes, e + 1) == Direction(quotes, e) {
      RunEndIsMaximal(quotes, s, e + 1);
    }
  }

  /** A run changes the price by more the longer it lasts. */
  lemma LongerRunChangesMore(quotes: seq<real>, s: nat, e: nat, e': nat)
    requires s < e <= e' && IsRun(quotes, s, e')
    ensures Abs(quotes[e'] - quotes[s]) >= Abs(quotes[e] - quotes[s])
  {
    assert Direction(quotes, e) == Direction(quotes, e');
    RunHasItsSign(quotes, s, e);
    RunHasItsSign(quotes, s, e');
    if e < e' {
      assert IsRun(quotes, e, e');
      RunHasItsSign(quotes, e, e');
    }
  }

  /** The same move, or the same move still going on. */
  predicate Continues(m: ImportantMove, m': ImportantMove) {
    m'.startIdx == m.startIdx && m'.kind == m.kind && m'.endIdx >= m.endIdx && (m'.endIdx == m.endIdx ==> m' == m)
  }

  /** A move found on a prefix is found on every longer prefix, unchanged or prolonged, and only one
      that ends at the prefix's last quote can be prolonged. */
  lemma MoveSurvives(quotes: seq<real>, more: seq<real>, threshold: real, m: ImportantMove, longer: seq<ImportantMove>) returns (j: nat)
    requires IsMove(quotes, threshold, m) && IsReport(quotes + more, threshold, longer)
    ensures j < |longer| && Continues(m, longer[j])
    ensures m.endIdx < |quotes| - 1 ==> longer[j] == m
  {
    var q := quotes + more;
    var s, e := m.startIdx, m.endIdx;
    assert forall i :: 0 < i < |quotes| ==> Direction(q, i) == Direction(quotes, i);
    assert IsRun(q, s, e);
    RunEndIsMaximal(q, s, e);
    var e' := RunEnd(q, e);
    LongerRunChangesMore(q, s, e, e');
    assert Reports(longer, s, e');
    j :| 0 <= j < |longer| && longer[j].startIdx == s && longer[j].endIdx == e';
    assert IsMove(q, threshold, longer[j]);
  }

  /** Conversely nothing new appears before the prefix's last quote. */
  lemma NothingNewBefore(quotes: seq<real>, more: seq<real>, threshold: real, found: seq<ImportantMove>, m: ImportantMove)
    requires IsReport(quotes, threshold, found) && IsMove(quotes + more, threshold, m) && m.endIdx < |quotes| - 1
    ensures m in found
  {
    var q := quotes + more;
    var s, e := m.startIdx, m.endIdx;
    assert forall i :: 0 < i < |quotes| ==> Direction(q, i) == Direction(quotes, i);
    assert IsMaximalRun(quotes, s, e);
    assert Reports(found, s, e);
    var k :| 0 <= k < |found| && found[k].startIdx == s && found[k].endIdx == e;
    MovesWithSameRunAgree(quotes, threshold, found[k], m);
  }

  predicate AllContinue(found: seq<ImportantMove>, longer: seq<ImportantMove>) {
    forall m :: m in found ==> exists m' :: m' in longer && Continues(m, m')
  }

  /** Detection is stable while quotes arrive. */
  lemma DetectionIsStable(quotes: seq<real>, more: seq<real>, threshold: real, found: seq<ImportantMove>, longer: seq<ImportantMove>)
    requires IsReport(quotes, threshold, found) && IsReport(quotes + more, threshold, longer)
    ensures AllContinue(found, longer)
    ensures forall m: ImportantMove :: m.endIdx < |quotes| - 1 ==> (m in found <==> m in longer)
  {
    forall m | m in found
      ensures exists m' :: m' in longer && Continues(m, m')
      ensures m.endIdx < |quotes| - 1 ==> m in longer
    {
      var j := MoveSurvives(quotes, more, threshold, m, longer);
      assert longer[j] in longer;
    }
    forall m | m in longer && m.endIdx < |quotes| - 1
      ensures m in found
    {
      NothingNewBefore(quotes, more, threshold, found, m);
    }
  }

  lemma OneMoreQuote(quotes: seq<real>, len: nat, threshold: real, found: seq<ImportantMove>, longer: seq<ImportantMove>)
    requires 0 < len <= |quotes|
    requires IsReport(quotes[..len - 1], threshold, found) && IsReport(quotes[..len], threshold, longer)
    ensures AllContinue(found, longer)
  {
    assert quotes[..len] == quotes[..len - 1] + [quotes[len - 1]];
    DetectionIsStable(quotes[..len - 1], [quotes[len - 1]], threshold, found, longer);
  }

  /** The growing-prefix loop of the demo: each frame's moves continue those of the frame before. */
  method DetectOnGrowingPrefixes(quotes: seq<real>, thresholdCents: int) returns (frames: seq<seq<ImportantMove>>)
    ensures |frames| == if |quotes| >= 3 then |quotes| - 2 else 0
    ensures forall k :: 0 <= k < |frames| ==> IsReport(quotes[..k + 3], Threshold(thresholdCents), frames[k])
    ensures forall k :: 0 <= k < |frames| - 1 ==> AllContinue(frames[k], frames[k + 1])
  {
    frames := [];
    var len := 3;
    while len <= |quotes|
      invariant len == |frames| + 3 && (if |quotes| >= 3 then len <= |quotes| + 1 else len == 3)
      invariant forall k :: 0 <= k < |frames| ==> IsReport(quotes[..k + 3], Threshold(thresholdCents), frames[k])
      invariant forall k :: 0 <= k < |frames| - 1 ==> AllContinue(frames[k], frames[k + 1])
    {
      var moves := DetectImportantMoves(quotes[..len], thresholdCents);
      if |frames| > 0 {
        OneMoreQuote(quotes, len, Threshold(thresholdCents), frames[|frames| - 1], moves);
      }
      frames := frames + [moves];
      len := len + 1;
    }
  }

  // ---- when two thresholds find the same moves ----

  ghost predicate SameDetections(a: int, b: int) {
    forall quotes: seq<real>, moves :: IsReport(quotes, Threshold(a), moves) <==> IsReport(quotes, Threshold(b), moves)
  }

  /** Every run changes the price by more than rounding, so a threshold that is not positive admits all. */
  lemma AllRunsPass(quotes: seq<real>, cents: int, s: nat, e: nat)
    requires s < |quotes| && e < |quotes| && cents <= 0
    ensures IsImportant(quotes, Threshold(cents), s, e)
  {
  }

  lemma NonPositiveAgree(quotes: seq<real>, a: int, b: int, moves: seq<ImportantMove>)
    requires a <= 0 && b <= 0 && IsReport(quotes, Threshold(a), moves)
    ensures IsReport(quotes, Threshold(b), moves)
  {
    forall k | 0 <= k < |moves|
      ensures IsMove(quotes, Threshold(b), moves[k])
    {
      AllRunsPass(quotes, b, moves[k].startIdx, moves[k].endIdx);
    }
    forall s: nat, e: nat | IsMaximalRun(quotes, s, e) && IsImportant(quotes, Threshold(b), s, e)
      ensures Reports(moves, s, e)
    {
      AllRunsPass(quotes, a, s, e);
    }
  }

  /** A single rise half a cent above the lower threshold is found with the lower one only. */
  lemma HalfACentTellsThemApart(low: int, high: int)
    requires low < high && high > 0
    ensures !SameDetections(low, high)
  {
    var rise := if low > 0 then low as real / 100.0 + 0.005 else 0.005;
    var quotes := [0.0, rise];
    var move := ImportantMove(0, 1, rise, Rise);
    assert Direction(quotes, 1) == 1;
    assert IsMaximalRun(quotes, 0, 1) && IsMove(quotes, Threshold(low), move);
    assert [move][0] == move;
    assert Reports([move], 0, 1);
    assert IsReport(quotes, Threshold(low), [move]);
    assert !IsMove(quotes, Threshold(high), move);
    assert !IsReport(quotes, Threshold(high), [move]);
  }

  /** Two thresholds in cents find the same moves in all quotes exactly when they are equal or neither is
      positive. */
  lemma ThresholdsAgreeExactly(a: int, b: int)
    ensures SameDetections(a, b) <==> a == b || (a <= 0 && b <= 0)
  {
    if a <= 0 && b <= 0 {
      forall quotes: seq<real>, moves
        ensures IsReport(quotes, Threshold(a), moves) <==> IsReport(quotes, Threshold(b), moves)
      {
        if IsReport(quotes, Threshold(a), moves) {
          NonPositiveAgree(quotes, a, b, moves);
        }
        if IsReport(quotes, Threshold(b), moves) {
          NonPositiveAgree(quotes, b, a, moves);
        }
      }
    } else if a < b {
      HalfACentTellsThemApart(a, b);
    } else if b < a {
      HalfACentTellsThemApart(b, a);
      assert SameDetections(a, b) ==> SameDetections(b, a);
    }
  }
}
