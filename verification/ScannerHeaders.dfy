/** When the scanner is right, read off the headers and depths of a file before the scan. */
module ScannerHeaders {
  import opened Scanner

  // ---- hiding ----

  /** The module of `g` goes on after line `h`. */
  predicate GoesOnAfter(lines: seq<Line>, g: nat, h: nat)
    requires h < |lines|
  {
    Extends(lines, g, h + 1)
  }

  /** Some test module goes on after line `h`. */
  predicate CoveredAfter(lines: seq<Line>, h: nat)
    requires h < |lines|
  {
    exists g :: 0 <= g <= h && GoesOnAfter(lines, g, h)
  }

  /** A header that opens no more than it closes stands in a module that goes on, or at the end. */
  predicate OneLinersAreCovered(lines: seq<Line>) {
    forall h :: 0 <= h < |lines| - 1 && IsHeader(lines, h) && Net(lines[h]) <= 0 ==> CoveredAfter(lines, h)
  }

  /** Inside a module that goes on a header can only keep what the module covers anyway. */
  lemma CoveredHidesNothing(lines: seq<Line>, h: nat, i: nat)
    requires i < |lines| && OpenAt(lines, h, i) && CoveredAfter(lines, h)
    ensures InModule(lines, i)
  {
    var g :| 0 <= g <= h && GoesOnAfter(lines, g, h);
    forall m | g < m <= i
      ensures Depth(lines, m) > Depth(lines, g)
    {
      if m > h {
        assert Depth(lines, m) >= Depth(lines, h + 1) > Depth(lines, g);
      }
    }
    assert Extends(lines, g, i);
  }

  /** Otherwise the very next line is hidden, unless it is a header itself. */
  lemma UncoveredHidesNext(lines: seq<Line>, h: nat)
    requires h + 1 < |lines| && IsHeader(lines, h) && !CoveredAfter(lines, h) && !IsHeader(lines, h + 1)
    ensures Hidden(lines, h + 1)
  {
    assert OpenAt(lines, h, h + 1);
    var next := h + 1;
    forall g | 0 <= g < next
      ensures !Extends(lines, g, next)
    {
      assert !GoesOnAfter(lines, g, h);
    }
  }

  predicate HeadersAreApart(lines: seq<Line>) {
    forall h :: 0 <= h < |lines| - 1 && IsHeader(lines, h) ==> !IsHeader(lines, h + 1)
  }

  /** Headers are apart whenever the attribute stands on a line of its own. */
  lemma NeighbourCarriesAttribute(lines: seq<Line>, h: nat)
    requires h + 1 < |lines| && IsHeader(lines, h) && IsHeader(lines, h + 1)
    ensures StartsCfgTest(lines[h + 1])
  {
  }

  lemma CoveredOneLinersHideNothing(lines: seq<Line>, i: nat)
    requires OneLinersAreCovered(lines) && i < |lines|
    ensures !Hidden(lines, i)
  {
    if Hidden(lines, i) {
      OnlyTheseHeadersMislead(lines, i);
      var h :| 0 <= h < i && OpenAt(lines, h, i) && Net(lines[h]) <= 0;
      CoveredHidesNothing(lines, h, i);
      assert false;
    }
  }

  predicate NothingHidden(lines: seq<Line>) {
    forall i :: 0 <= i < |lines| ==> !Hidden(lines, i)
  }

  /** Where no test-module header directly follows another, no line is hidden if and only if every header
      that opens no more than it closes is the last line or stands in a module that goes on after it. */
  lemma HidingExactly(lines: seq<Line>)
    requires HeadersAreApart(lines)
    ensures NothingHidden(lines) <==> OneLinersAreCovered(lines)
  {
    if OneLinersAreCovered(lines) {
      forall i | 0 <= i < |lines|
        ensures !Hidden(lines, i)
      {
        CoveredOneLinersHideNothing(lines, i);
      }
    } else {
      var h :| 0 <= h < |lines| - 1 && IsHeader(lines, h) && Net(lines[h]) <= 0 && !CoveredAfter(lines, h);
      UncoveredHidesNext(lines, h);
    }
  }

  // ---- leaking ----

  /** The header of a module that lies in no other. */
  predicate Outermost(lines: seq<Line>, h: nat)
    requires h < |lines|
  {
    IsHeader(lines, h) && !exists g :: 0 <= g < h && Extends(lines, g, h)
  }

  /** A module that covers a line and lies in no other. */
  lemma {:induction false} OutermostAround(lines: seq<Line>, h: nat, i: nat) returns (g: nat)
    requires i <= |lines| && Extends(lines, h, i)
    ensures g < i && Outermost(lines, g) && Extends(lines, g, i)
    decreases h
  {
    if f :| 0 <= f < h && Extends(lines, f, h) {
      ExtendsThrough(lines, f, h, i);
      g := OutermostAround(lines, f, i);
    } else {
      g := h;
    }
  }

  lemma ExtendsThrough(lines: seq<Line>, f: nat, h: nat, i: nat)
    requires i <= |lines| && Extends(lines, h, i) && Extends(lines, f, h)
    ensures Extends(lines, f, i)
  {
    forall m | f < m <= i
      ensures Depth(lines, m) > Depth(lines, f)
    {
      if m > h {
        assert Depth(lines, m) > Depth(lines, h) > Depth(lines, f);
      }
    }
  }

  /** Some line the module of `h` covers, and that heads no module, is not under the depth recorded for `h`
      any more nor under one recorded inside. */
  predicate ModuleLeaks(lines: seq<Line>, h: nat)
    requires h < |lines|
  {
    exists i :: h < i < |lines| && Extends(lines, h, i) && !IsHeader(lines, i) && !OpenSince(lines, h, i)
  }

  /** A recorded depth of a header from `h` on is still open before line `i`. */
  predicate OpenSince(lines: seq<Line>, h: nat, i: nat)
    requires i <= |lines|
  {
    exists x :: h <= x < i && OpenAt(lines, x, i)
  }

  /** Before an outermost module nothing that is recorded reaches into it, if nothing is hidden. */
  lemma NothingReachesIn(lines: seq<Line>, h: nat, x: nat, i: nat)
    requires OneLinersAreCovered(lines) && h < i <= |lines| && Outermost(lines, h) && x < h
    ensures !OpenAt(lines, x, i)
  {
    if OpenAt(lines, x, i) {
      assert OpenAt(lines, x, h);
      if Net(lines[x]) > 0 {
        OpenAndExtends(lines, x, h);
      } else {
        ReachedIsCovered(lines, x, h);
      }
      assert false;
    }
  }

  lemma ReachedIsCovered(lines: seq<Line>, x: nat, h: nat)
    requires h < |lines| && OpenAt(lines, x, h) && CoveredAfter(lines, x)
    ensures exists g :: 0 <= g < h && Extends(lines, g, h)
  {
    var g :| 0 <= g <= x && GoesOnAfter(lines, g, x);
    forall m | g < m <= h
      ensures Depth(lines, m) > Depth(lines, g)
    {
      if m > x {
        assert Depth(lines, m) >= Depth(lines, x + 1) > Depth(lines, g);
      }
    }
    assert Extends(lines, g, h);
  }

  predicate NothingLeaked(lines: seq<Line>) {
    forall i :: 0 <= i < |lines| ==> !Leaked(lines, i)
  }

  /** If nothing is hidden, lines leak exactly from the outermost modules that leak, and these have headers
      that open at least two levels. */
  lemma LeakingExactly(lines: seq<Line>)
    requires OneLinersAreCovered(lines)
    ensures NothingLeaked(lines) <==> forall h :: 0 <= h < |lines| && Outermost(lines, h) ==> !ModuleLeaks(lines, h)
    ensures forall h :: 0 <= h < |lines| && ModuleLeaks(lines, h) ==> Net(lines[h]) >= 2
  {
    forall h, i | 0 <= h < i < |lines| && Outermost(lines, h) && Extends(lines, h, i) && !IsHeader(lines, i) && !OpenSince(lines, h, i)
      ensures Leaked(lines, i)
    {
      ModuleLeakIsLeak(lines, h, i);
    }
    forall i | 0 <= i < |lines| && Leaked(lines, i)
      ensures exists h :: 0 <= h < |lines| && Outermost(lines, h) && ModuleLeaks(lines, h)
    {
      var h :| 0 <= h < i && Extends(lines, h, i);
      h := OutermostAround(lines, h, i);
      assert ModuleLeaks(lines, h);
    }
    forall h | 0 <= h < |lines| && ModuleLeaks(lines, h)
      ensures Net(lines[h]) >= 2
    {
      LeakNeedsTwoLevels(lines, h);
    }
  }

  lemma LeakNeedsTwoLevels(lines: seq<Line>, h: nat)
    requires h < |lines| && ModuleLeaks(lines, h)
    ensures Net(lines[h]) >= 2
  {
    var i :| h < i < |lines| && Extends(lines, h, i) && !IsHeader(lines, i) && !OpenSince(lines, h, i);
    OpenAndExtends(lines, h, i);
  }

  lemma ModuleLeakIsLeak(lines: seq<Line>, h: nat, i: nat)
    requires OneLinersAreCovered(lines) && h < i < |lines| && Outermost(lines, h)
    requires Extends(lines, h, i) && !IsHeader(lines, i) && !OpenSince(lines, h, i)
    ensures Leaked(lines, i)
  {
    if x :| 0 <= x < i && OpenAt(lines, x, i) {
      if x < h {
        NothingReachesIn(lines, h, x, i);
      }
      assert false;
    }
  }

  /** For every file in which no test-module header directly follows another, the scanner yields exactly the
      lines outside the test modules if and only if its one-line modules are covered and no outermost module
      leaks. */
  lemma ScannerAgreesWhereHeadersAreApart(lines: seq<Line>)
    requires HeadersAreApart(lines)
    ensures Production(lines, |lines|) == OutsideModules(lines, |lines|) <==>
              OneLinersAreCovered(lines) && forall h :: 0 <= h < |lines| && Outermost(lines, h) ==> !ModuleLeaks(lines, h)
  {
    Agreement(lines);
    HidingExactly(lines);
    if OneLinersAreCovered(lines) {
      LeakingExactly(lines);
    }
  }

  lemma Agreement(lines: seq<Line>)
    ensures Production(lines, |lines|) == OutsideModules(lines, |lines|) <==> NothingHidden(lines) && NothingLeaked(lines)
  {
    ScannerAgreesExactly(lines, |lines|);
  }

  // ---- depths between ----

  /** A line of the module lies deeper than its header, yet not as deep as the recorded depth. */
  predicate FallsBetween(lines: seq<Line>, h: nat, m: nat)
    requires m <= |lines| && h < |lines|
  {
    Extends(lines, h, m) && Depth(lines, m) < Depth(lines, h + 1)
  }

  predicate NeverBetween(lines: seq<Line>, h: nat)
    requires h < |lines|
  {
    forall m :: h < m < |lines| ==> !FallsBetween(lines, h, m)
  }

  lemma NeverBetweenStaysOpen(lines: seq<Line>, h: nat, i: nat)
    requires h < i < |lines| && NeverBetween(lines, h) && Extends(lines, h, i)
    ensures OpenAt(lines, h, i)
  {
    forall m | h < m <= i
      ensures Depth(lines, m) >= Depth(lines, h + 1)
    {
      assert Extends(lines, h, m) && !FallsBetween(lines, h, m);
    }
  }

  /** A module whose depth never falls between does not leak. */
  lemma NeverBetweenNoLeak(lines: seq<Line>, h: nat)
    requires h < |lines| && NeverBetween(lines, h)
    ensures !ModuleLeaks(lines, h)
  {
    forall i | h < i < |lines| && Extends(lines, h, i)
      ensures OpenSince(lines, h, i)
    {
      NeverBetweenStaysOpen(lines, h, i);
    }
  }

  lemma {:induction false} FirstBetween(lines: seq<Line>, h: nat, m: nat) returns (first: nat)
    requires h < m < |lines| && FallsBetween(lines, h, m)
    ensures h < first <= m && FallsBetween(lines, h, first)
    ensures forall k :: h < k < first ==> Depth(lines, k) >= Depth(lines, h + 1)
  {
    if k :| h < k < m && Depth(lines, k) < Depth(lines, h + 1) {
      assert FallsBetween(lines, h, k);
      first := FirstBetween(lines, h, k);
    } else {
      first := m;
    }
  }

  /** Neither a test-module header nor the line before it closes more than it opens, and headers are apart. */
  predicate Ordinary(lines: seq<Line>) {
    HeadersAreApart(lines) &&
    forall h :: 0 <= h < |lines| && IsHeader(lines, h) ==> Net(lines[h]) >= 0 && (h > 0 ==> Net(lines[h - 1]) >= 0)
  }

  /** In an ordinary file the first line that falls between is leaked by its module. */
  lemma BetweenLeaks(lines: seq<Line>, h: nat, m: nat)
    requires Ordinary(lines) && h < m < |lines| && FallsBetween(lines, h, m)
    ensures ModuleLeaks(lines, h)
  {
    var first := FirstBetween(lines, h, m);
    DepthNext(lines, first - 1);
    assert first > h + 1 && Net(lines[first - 1]) < 0;
    if x :| h <= x < first && OpenAt(lines, x, first) {
      assert false;
    }
    assert !OpenSince(lines, h, first);
  }

  /** No outermost module has a line whose depth lies between its header's and the one recorded. */
  predicate OutermostNeverBetween(lines: seq<Line>) {
    forall h :: 0 <= h < |lines| && Outermost(lines, h) ==> NeverBetween(lines, h)
  }

  /** For every file: it is enough that one-line test modules are covered and that no outermost module has a
      line at a depth between. */
  lemma ScannerAgreesByHeaders(lines: seq<Line>)
    requires OneLinersAreCovered(lines) && OutermostNeverBetween(lines)
    ensures Production(lines, |lines|) == OutsideModules(lines, |lines|)
  {
    forall i | 0 <= i < |lines|
      ensures !Hidden(lines, i)
    {
      CoveredOneLinersHideNothing(lines, i);
    }
    forall h | 0 <= h < |lines| && Outermost(lines, h)
      ensures !ModuleLeaks(lines, h)
    {
      NeverBetweenNoLeak(lines, h);
    }
    LeakingExactly(lines);
    Agreement(lines);
  }

  /** For ordinary files that is exactly when the scanner yields the lines outside the test modules. */
  lemma ScannerAgreesByHeadersExactly(lines: seq<Line>)
    requires Ordinary(lines)
    ensures Production(lines, |lines|) == OutsideModules(lines, |lines|) <==>
              OneLinersAreCovered(lines) && OutermostNeverBetween(lines)
  {
    if OneLinersAreCovered(lines) && OutermostNeverBetween(lines) {
      ScannerAgreesByHeaders(lines);
    }
    if Production(lines, |lines|) == OutsideModules(lines, |lines|) {
      Agreement(lines);
      HidingExactly(lines);
      LeakingExactly(lines);
      forall h, m | 0 <= h < m < |lines| && Outermost(lines, h)
        ensures !FallsBetween(lines, h, m)
      {
        if FallsBetween(lines, h, m) {
          BetweenLeaks(lines, h, m);
        }
      }
    }
  }
}
