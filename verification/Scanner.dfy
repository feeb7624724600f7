/** The line scanner that separates production lines from test modules by counting braces. */
module Scanner {

  type Line = string

  // ---- one line ----

  predicate IsSpace(c: char) {
    c == ' ' || '\t' <= c <= '\r'
  }

  predicate IsWord(c: char) {
    'a' <= c <= 'z' || 'A' <= c <= 'Z' || '0' <= c <= '9' || c == '_'
  }

  function Count(line: Line, c: char): nat {
    if line == "" then 0 else (if line[0] == c then 1 else 0) + Count(line[1..], c)
  }

  /** What `strip` leaves, as far as its first characters matter. */
  function StripLeft(line: Line): Line {
    if line != "" && IsSpace(line[0]) then StripLeft(line[1..]) else line
  }

  const CFG_TEST := "#[cfg(test)]"

  predicate StartsCfgTest(line: Line) {
    CFG_TEST <= StripLeft(line)
  }

  /** `\bmod\s+\w+\s*\{` somewhere in the line. */
  predicate NamesModule(line: Line) {
    exists i, j, k, l :: 0 <= i && i + 3 < j < k <= l < |line| && ModuleHeaderAt(line, i, j, k, l)
  }

  predicate ModuleHeaderAt(line: Line, i: nat, j: nat, k: nat, l: nat)
    requires i + 3 < j < k <= l < |line|
  {
    && (i == 0 || !IsWord(line[i - 1])) && line[i..i + 3] == "mod"
    && (forall m :: i + 3 <= m < j ==> IsSpace(line[m]))
    && (forall m :: j <= m < k ==> IsWord(line[m]))
    && (forall m :: k <= m < l ==> IsSpace(line[m]))
    && line[l] == '{'
  }

  /** Blank lines and lines that start with `#` do not end a pending `#[cfg(test)]`. */
  predicate KeepsPending(line: Line) {
    StripLeft(line) == "" || StripLeft(line)[0] == '#'
  }

  function Net(line: Line): int {
    Count(line, '{') - Count(line, '}')
  }

  // ---- the file, declaratively ----

  /** Brace depth before line `i`. */
  function Depth(lines: seq<Line>, i: nat): int
    requires i <= |lines|
  {
    if i == 0 then 0 else Depth(lines, i - 1) + Net(lines[i - 1])
  }

  /** A `#[cfg(test)]` before line `i` is still waiting for its module. */
  predicate Pending(lines: seq<Line>, i: nat)
    requires i <= |lines|
    decreases i, 0
  {
    i > 0 && !IsHeader(lines, i - 1) &&
    (StartsCfgTest(lines[i - 1]) || (Pending(lines, i - 1) && KeepsPending(lines[i - 1])))
  }

  /** Line `i` opens a test module. */
  predicate IsHeader(lines: seq<Line>, i: nat)
    requires i < |lines|
    decreases i, 1
  {
    NamesModule(lines[i]) && (StartsCfgTest(lines[i]) || Pending(lines, i))
  }

  /** The module opened at line `h` is still open before line `i`: the depth has not fallen below the
      depth after its header. */
  predicate OpenAt(lines: seq<Line>, h: nat, i: nat)
    requires i <= |lines|
  {
    h < i && IsHeader(lines, h) && forall m :: h < m <= i ==> Depth(lines, m) >= Depth(lines, h + 1)
  }

  /** Line `i` is a header or lies in an open test module. */
  predicate InTestModule(lines: seq<Line>, i: nat)
    requires i < |lines|
  {
    IsHeader(lines, i) || exists h :: 0 <= h < i && OpenAt(lines, h, i)
  }

  /** The numbers of the production lines among the first `n`. */
  function Production(lines: seq<Line>, n: nat): seq<nat>
    requires n <= |lines|
  {
    if n == 0 then []
    else Production(lines, n - 1) + (if InTestModule(lines, n - 1) then [] else [n - 1])
  }

  // ---- the scanner ----

  /** The stack of recorded depths, with the headers that pushed them. */
  ghost predicate StackFits(lines: seq<Line>, i: nat, stack: seq<int>, pushed: seq<nat>)
    requires i <= |lines|
  {
    && |stack| == |pushed|
    && (forall k :: 0 <= k < |pushed| ==> pushed[k] < i && IsHeader(lines, pushed[k]) && stack[k] == Depth(lines, pushed[k] + 1))
  }

  /** Every open module is on the stack, and every entry is covered by an open module at or above it
      whose depth is no greater. */
  ghost predicate StackCovers(lines: seq<Line>, i: nat, stack: seq<int>, pushed: seq<nat>)
    requires i <= |lines| && |stack| == |pushed|
  {
    && (forall h: nat :: OpenAt(lines, h, i) ==> h in pushed)
    && (forall k :: 0 <= k < |stack| ==> Covered(lines, i, stack, pushed, k))
  }

  ghost predicate Covered(lines: seq<Line>, i: nat, stack: seq<int>, pushed: seq<nat>, k: nat)
    requires i <= |lines| && |stack| == |pushed| && k < |stack|
  {
    exists c :: k <= c < |stack| && stack[c] <= stack[k] && OpenAt(lines, pushed[c], i)
  }

  lemma StackEmptyExactly(lines: seq<Line>, i: nat, stack: seq<int>, pushed: seq<nat>)
    requires i <= |lines| && StackFits(lines, i, stack, pushed) && StackCovers(lines, i, stack, pushed)
    ensures stack == [] <==> !exists h :: 0 <= h < i && OpenAt(lines, h, i)
  {
    if stack != [] {
      assert Covered(lines, i, stack, pushed, 0);
    }
  }

  /** After line `i` a module is open exactly when it was just opened, or was open before and the depth
      has not fallen below its own. */
  lemma OpenNext(lines: seq<Line>, h: nat, i: nat)
    requires i < |lines|
    ensures OpenAt(lines, h, i + 1) <==>
              (h == i && IsHeader(lines, i)) || (OpenAt(lines, h, i) && Depth(lines, i + 1) >= Depth(lines, h + 1))
  {
  }

  /** The first `n` entries are those up to the topmost one that is not deeper than `depth`. */
  predicate Keeps(stack: seq<int>, depth: int, n: nat) {
    n <= |stack| && (n > 0 ==> stack[n - 1] <= depth) && forall k :: n <= k < |stack| ==> depth < stack[k]
  }

  /** `while stack and depth < stack[-1]: pop`, as a function. */
  function KeepUpTo(stack: seq<int>, depth: int): (n: nat)
    ensures Keeps(stack, depth, n)
  {
    if stack == [] || stack[|stack| - 1] <= depth then |stack| else KeepUpTo(stack[..|stack| - 1], depth)
  }

  /** Popping by the new depth keeps exactly what must be kept. */
  lemma PopKeepsCover(lines: seq<Line>, i: nat, stack: seq<int>, pushed: seq<nat>, n: nat)
    requires i < |lines| && StackFits(lines, i, stack, pushed) && StackCovers(lines, i, stack, pushed) && !IsHeader(lines, i)
    requires n == KeepUpTo(stack, Depth(lines, i + 1))
    ensures StackCovers(lines, i + 1, stack[..n], pushed[..n])
  {
    var next := i + 1;
    var stack', pushed' := stack[..n], pushed[..n];
    forall h: nat | OpenAt(lines, h, next)
      ensures h in pushed'
    {
      PopKeepsOpen(lines, i, stack, pushed, n, h);
    }
    forall k | 0 <= k < n
      ensures Covered(lines, next, stack', pushed', k)
    {
      assert Covered(lines, i, stack, pushed, k) && Covered(lines, i, stack, pushed, n - 1);
      CoverAfterPop(lines, i, stack, pushed, n, k);
    }
  }

  lemma PopFits(lines: seq<Line>, i: nat, stack: seq<int>, pushed: seq<nat>, n: nat)
    requires i < |lines| && StackFits(lines, i, stack, pushed) && n <= |stack|
    ensures StackFits(lines, i + 1, stack[..n], pushed[..n])
  {
  }

  lemma PopKeepsOpen(lines: seq<Line>, i: nat, stack: seq<int>, pushed: seq<nat>, n: nat, h: nat)
    requires i < |lines| && StackFits(lines, i, stack, pushed) && Keeps(stack, Depth(lines, i + 1), n)
    requires !IsHeader(lines, i) && OpenAt(lines, h, i + 1)
    requires OpenAt(lines, h, i) ==> h in pushed
    ensures h in pushed[..n]
  {
    OpenNext(lines, h, i);
    var k :| 0 <= k < |pushed| && pushed[k] == h;
    assert stack[k] <= Depth(lines, i + 1);
    assert pushed[..n][k] == h;
  }

  /** After popping, the top entry is an open module: nothing that is left could cover it otherwise. */
  lemma TopIsOpen(lines: seq<Line>, i: nat, stack: seq<int>, pushed: seq<nat>, n: nat, depth: int)
    requires i <= |lines| && |stack| == |pushed|
    requires 0 < n && Keeps(stack, depth, n) && Covered(lines, i, stack, pushed, n - 1)
    ensures OpenAt(lines, pushed[n - 1], i)
  {
    var top :| n - 1 <= top < |stack| && stack[top] <= stack[n - 1] && OpenAt(lines, pushed[top], i);
  }

  lemma StaysOpen(lines: seq<Line>, i: nat, stack: seq<int>, pushed: seq<nat>, c: nat)
    requires i < |lines| && StackFits(lines, i, stack, pushed) && c < |stack|
    requires OpenAt(lines, pushed[c], i) && stack[c] <= Depth(lines, i + 1)
    ensures OpenAt(lines, pushed[c], i + 1)
  {
    OpenNext(lines, pushed[c], i);
  }

  lemma CoverInPrefix(lines: seq<Line>, i: nat, stack: seq<int>, pushed: seq<nat>, n: nat, k: nat, c: nat)
    requires i <= |lines| && |stack| == |pushed| && k <= c < n <= |stack|
    requires stack[c] <= stack[k] && OpenAt(lines, pushed[c], i)
    ensures Covered(lines, i, stack[..n], pushed[..n], k)
  {
    assert stack[..n][c] == stack[c] && pushed[..n][c] == pushed[c];
  }

  lemma CoverGoesOn(lines: seq<Line>, i: nat, stack: seq<int>, pushed: seq<nat>, n: nat, k: nat, c: nat)
    requires i < |lines| && StackFits(lines, i, stack, pushed) && k <= c < n <= |stack|
    requires stack[c] <= stack[k] && stack[c] <= Depth(lines, i + 1) && OpenAt(lines, pushed[c], i)
    ensures Covered(lines, i + 1, stack[..n], pushed[..n], k)
  {
    StaysOpen(lines, i, stack, pushed, c);
    CoverInPrefix(lines, i + 1, stack, pushed, n, k, c);
  }

  /** If the new depth closed an entry's cover, the top entry takes over. */
  lemma CoverAfterPop(lines: seq<Line>, i: nat, stack: seq<int>, pushed: seq<nat>, n: nat, k: nat)
    requires i < |lines| && StackFits(lines, i, stack, pushed)
    requires k < n && Keeps(stack, Depth(lines, i + 1), n)
    requires Covered(lines, i, stack, pushed, k) && Covered(lines, i, stack, pushed, n - 1)
    ensures Covered(lines, i + 1, stack[..n], pushed[..n], k)
  {
    var c :| k <= c < |stack| && stack[c] <= stack[k] && OpenAt(lines, pushed[c], i);
    if stack[c] > Depth(lines, i + 1) {
      TopIsOpen(lines, i, stack, pushed, n, Depth(lines, i + 1));
      c := n - 1;
    }
    CoverGoesOn(lines, i, stack, pushed, n, k, c);
  }

  /** A header's own depth goes on top of the stack. */
  lemma PushFits(lines: seq<Line>, i: nat, stack: seq<int>, pushed: seq<nat>)
    requires i < |lines| && StackFits(lines, i, stack, pushed) && IsHeader(lines, i)
    ensures StackFits(lines, i + 1, stack + [Depth(lines, i + 1)], pushed + [i])
  {
  }

  lemma PushKeepsOpen(lines: seq<Line>, i: nat, pushed: seq<nat>, h: nat)
    requires i < |lines| && OpenAt(lines, h, i + 1)
    requires h != i ==> (OpenAt(lines, h, i) ==> h in pushed)
    ensures h in pushed + [i]
  {
    OpenNext(lines, h, i);
    assert (pushed + [i])[|pushed|] == i;
  }

  /** Entries deeper than the header are covered by it; the others keep their cover. */
  lemma PushCovers(lines: seq<Line>, i: nat, stack: seq<int>, pushed: seq<nat>, k: nat)
    requires i < |lines| && IsHeader(lines, i) && StackFits(lines, i, stack, pushed) && k <= |stack|
    requires k < |stack| ==> Covered(lines, i, stack, pushed, k)
    ensures Covered(lines, i + 1, stack + [Depth(lines, i + 1)], pushed + [i], k)
  {
    var d := Depth(lines, i + 1);
    var stack', pushed' := stack + [d], pushed + [i];
    OpenNext(lines, i, i);
    assert stack'[|stack|] == d && pushed'[|stack|] == i;
    var best := |stack|;
    if k < |stack| {
      assert stack'[k] == stack[k];
      if stack[k] < d {
        best :| k <= best < |stack| && stack[best] <= stack[k] && OpenAt(lines, pushed[best], i);
        OpenNext(lines, pushed[best], i);
        assert stack'[best] == stack[best] && pushed'[best] == pushed[best];
      }
    }
    assert k <= best < |stack'| && stack'[best] <= stack'[k] && OpenAt(lines, pushed'[best], i + 1);
  }

  lemma PushKeepsCover(lines: seq<Line>, i: nat, stack: seq<int>, pushed: seq<nat>)
    requires i < |lines| && StackFits(lines, i, stack, pushed) && StackCovers(lines, i, stack, pushed) && IsHeader(lines, i)
    ensures StackCovers(lines, i + 1, stack + [Depth(lines, i + 1)], pushed + [i])
  {
    forall h: nat | OpenAt(lines, h, i + 1)
      ensures h in pushed + [i]
    {
      PushKeepsOpen(lines, i, pushed, h);
    }
    var next, stack', pushed' := i + 1, stack + [Depth(lines, i + 1)], pushed + [i];
    forall k | 0 <= k < |stack'|
      ensures Covered(lines, next, stack', pushed', k)
    {
      PushCovers(lines, i, stack, pushed, k);
    }
  }

  /** The whole invariant of the stack, before line `i`. */
  ghost predicate StackOk(lines: seq<Line>, i: nat, stack: seq<int>, pushed: seq<nat>)
    requires i <= |lines|
  {
    StackFits(lines, i, stack, pushed) && StackCovers(lines, i, stack, pushed)
  }

  function AfterPush(lines: seq<Line>, i: nat, stack: seq<int>): seq<int>
    requires i < |lines|
  {
    if IsHeader(lines, i) then stack + [Depth(lines, i + 1)] else stack
  }

  /** One line: push if it is a header, then pop everything deeper than the new depth. */
  lemma StackStep(lines: seq<Line>, i: nat, stack: seq<int>, pushed: seq<nat>) returns (next: seq<nat>)
    requires i < |lines| && StackOk(lines, i, stack, pushed)
    ensures StackOk(lines, i + 1, AfterPush(lines, i, stack)[..KeepUpTo(AfterPush(lines, i, stack), Depth(lines, i + 1))], next)
  {
    if IsHeader(lines, i) {
      var stack' := AfterPush(lines, i, stack);
      PushFits(lines, i, stack, pushed);
      PushKeepsCover(lines, i, stack, pushed);
      next := pushed + [i];
      assert stack'[..KeepUpTo(stack', Depth(lines, i + 1))] == stack';
    } else {
      var n := KeepUpTo(stack, Depth(lines, i + 1));
      PopFits(lines, i, stack, pushed, n);
      PopKeepsCover(lines, i, stack, pushed, n);
      next := pushed[..n];
    }
  }

  /** For every file whatsoever, the scanner yields exactly the lines that are neither headers of test
      modules nor inside an open one. */
  method ProductionLines(lines: seq<Line>) returns (out: seq<nat>)
    ensures out == Production(lines, |lines|)
  {
    out := [];
    var testModuleDepths: seq<int> := [];
    ghost var pushed: seq<nat> := [];
    var pendingCfgTest := false;
    var braceDepth: int := 0;
    for i := 0 to |lines|
      invariant out == Production(lines, i)
      invariant pendingCfgTest == Pending(lines, i)
      invariant braceDepth == Depth(lines, i)
      invariant StackOk(lines, i, testModuleDepths, pushed)
    {
      var line := lines[i];
      var startsCfgTest := StartsCfgTest(line);
      var startsHere := (pendingCfgTest || startsCfgTest) && NamesModule(line);
      StackEmptyExactly(lines, i, testModuleDepths, pushed);
      if testModuleDepths == [] && !startsHere {
        out := out + [i];
      }
      braceDepth := braceDepth + Count(line, '{') - Count(line, '}');
      testModuleDepths, pushed := UpdateDepths(lines, i, testModuleDepths, pushed, startsHere, braceDepth);
      if startsCfgTest {
        pendingCfgTest := true;
      }
      if startsHere || !KeepsPending(line) {
        pendingCfgTest := false;
      }
    }
  }

  /** A header's line records the depth after it; then every recorded depth above the new one goes. */
  method UpdateDepths(ghost lines: seq<Line>, ghost i: nat, stack: seq<int>, ghost pushed: seq<nat>, startsHere: bool, depth: int)
      returns (kept: seq<int>, ghost next: seq<nat>)
    requires i < |lines| && StackOk(lines, i, stack, pushed)
    requires startsHere == IsHeader(lines, i) && depth == Depth(lines, i + 1)
    ensures StackOk(lines, i + 1, kept, next)
  {
    next := StackStep(lines, i, stack, pushed);
    kept := if startsHere then stack + [depth] else stack;
    kept := PopBelow(kept, depth);
  }

  method PopBelow(stack: seq<int>, depth: int) returns (kept: seq<int>)
    ensures kept == stack[..KeepUpTo(stack, depth)]
  {
    kept := stack;
    while kept != [] && depth < kept[|kept| - 1]
      invariant kept <= stack && KeepUpTo(kept, depth) == KeepUpTo(stack, depth)
    {
      kept := kept[..|kept| - 1];
    }
  }

  // ---- what a test module really covers ----

  /** The module headed at line `h` reaches line `i`: the depth has stayed above the header's own. */
  predicate Extends(lines: seq<Line>, h: nat, i: nat)
    requires i <= |lines|
  {
    h < i && IsHeader(lines, h) && forall m :: h < m <= i ==> Depth(lines, m) > Depth(lines, h)
  }

  predicate InModule(lines: seq<Line>, i: nat)
    requires i < |lines|
  {
    IsHeader(lines, i) || exists h :: 0 <= h < i && Extends(lines, h, i)
  }

  /** The numbers of the lines outside every test module, among the first `n`. */
  function OutsideModules(lines: seq<Line>, n: nat): seq<nat>
    requires n <= |lines|
  {
    if n == 0 then []
    else OutsideModules(lines, n - 1) + (if InModule(lines, n - 1) then [] else [n - 1])
  }

  /** Outside every test module, yet some recorded depth has not been left. */
  predicate Hidden(lines: seq<Line>, i: nat)
    requires i < |lines|
  {
    !InModule(lines, i) && exists h :: 0 <= h < i && OpenAt(lines, h, i)
  }

  /** Inside a test module, yet every recorded depth has been left. */
  predicate Leaked(lines: seq<Line>, i: nat)
    requires i < |lines|
  {
    InModule(lines, i) && !IsHeader(lines, i) && !exists h :: 0 <= h < i && OpenAt(lines, h, i)
  }

  predicate NothingHiddenOrLeaked(lines: seq<Line>, n: nat)
    requires n <= |lines|
  {
    forall i :: 0 <= i < n ==> !Hidden(lines, i) && !Leaked(lines, i)
  }

  /** For every file whatsoever: the scanner yields the lines outside the test modules if and only if no
      line outside them is hidden and no line inside one is leaked. */
  lemma {:induction false} ScannerAgreesExactly(lines: seq<Line>, n: nat)
    requires n <= |lines|
    ensures Production(lines, n) == OutsideModules(lines, n) <==> NothingHiddenOrLeaked(lines, n)
  {
    if n > 0 {
      ScannerAgreesExactly(lines, n - 1);
      ProductionIsBelow(lines, n - 1);
      OutsideIsBelow(lines, n - 1);
      SameTail(Production(lines, n - 1), InTestModule(lines, n - 1), OutsideModules(lines, n - 1), InModule(lines, n - 1), n - 1);
      VerdictsDiffer(lines, n - 1);
      OneMore(lines, n - 1);
    }
  }

  lemma VerdictsDiffer(lines: seq<Line>, i: nat)
    requires i < |lines|
    ensures InTestModule(lines, i) == InModule(lines, i) <==> !Hidden(lines, i) && !Leaked(lines, i)
  {
  }

  lemma OneMore(lines: seq<Line>, n: nat)
    requires n < |lines|
    ensures NothingHiddenOrLeaked(lines, n + 1) <==>
              NothingHiddenOrLeaked(lines, n) && !Hidden(lines, n) && !Leaked(lines, n)
  {
  }

  lemma SameTail(p: seq<nat>, skipped: bool, o: seq<nat>, left: bool, n: nat)
    requires (forall k :: 0 <= k < |p| ==> p[k] < n) && (forall k :: 0 <= k < |o| ==> o[k] < n)
    ensures p + (if skipped then [] else [n]) == o + (if left then [] else [n]) <==> p == o && skipped == left
  {
    var p', o' := p + (if skipped then [] else [n]), o + (if left then [] else [n]);
    assert skipped ==> p' == p;
    assert left ==> o' == o;
    assert !skipped ==> p'[|p|] == n && p'[..|p|] == p;
    assert !left ==> o'[|o|] == n && o'[..|o|] == o;
  }

  lemma {:induction false} ProductionIsBelow(lines: seq<Line>, n: nat)
    requires n <= |lines|
    ensures forall k :: 0 <= k < |Production(lines, n)| ==> Production(lines, n)[k] < n
  {
    if n > 0 {
      ProductionIsBelow(lines, n - 1);
    }
  }

  lemma {:induction false} OutsideIsBelow(lines: seq<Line>, n: nat)
    requires n <= |lines|
    ensures forall k :: 0 <= k < |OutsideModules(lines, n)| ==> OutsideModules(lines, n)[k] < n
  {
    if n > 0 {
      OutsideIsBelow(lines, n - 1);
    }
  }

  /** A header that opens more than it closes never records too little, and one that opens at most one
      more never records too much. */
  lemma OpenAndExtends(lines: seq<Line>, h: nat, i: nat)
    requires i <= |lines|
    ensures OpenAt(lines, h, i) && Net(lines[h]) > 0 ==> Extends(lines, h, i)
    ensures Extends(lines, h, i) && Net(lines[h]) <= 1 ==> OpenAt(lines, h, i)
  {
  }

  /** Lines are hidden only by headers that open no more than they close, and leaked only from modules
      whose header opens at least two levels. */
  lemma OnlyTheseHeadersMislead(lines: seq<Line>, i: nat)
    requires i < |lines|
    ensures Hidden(lines, i) ==> exists h :: 0 <= h < i && OpenAt(lines, h, i) && Net(lines[h]) <= 0
    ensures Leaked(lines, i) ==> exists h :: 0 <= h < i && Extends(lines, h, i) && Net(lines[h]) >= 2
  {
    if Hidden(lines, i) {
      var h :| 0 <= h < i && OpenAt(lines, h, i);
      OpenAndExtends(lines, h, i);
    }
    if Leaked(lines, i) {
      var h :| 0 <= h < i && Extends(lines, h, i);
      OpenAndExtends(lines, h, i);
    }
  }

  /** So in every file, nested as it may be, whose test-module headers open exactly one level, the scanner
      yields exactly the lines outside the test modules. */
  lemma ScannerAgreesOnSingleOpeners(lines: seq<Line>)
    requires forall h :: 0 <= h < |lines| && IsHeader(lines, h) ==> Net(lines[h]) == 1
    ensures Production(lines, |lines|) == OutsideModules(lines, |lines|)
  {
    forall i | 0 <= i < |lines|
      ensures !Hidden(lines, i) && !Leaked(lines, i)
    {
      OnlyTheseHeadersMislead(lines, i);
    }
    ScannerAgreesExactly(lines, |lines|);
  }

  // ---- both ways to fail ----

  /** After a one-line test module the line that follows it is hidden. */
  lemma OneLineModuleHides(header: Line, line: Line)
    requires StartsCfgTest(header) && NamesModule(header) && Net(header) == 0
    requires !NamesModule(line)
    ensures Hidden([header, line], 1) && Production([header, line], 2) != OutsideModules([header, line], 2)
  {
    var lines := [header, line];
    assert IsHeader(lines, 0) && !IsHeader(lines, 1);
    assert Depth(lines, 1) == 0;
    assert OpenAt(lines, 0, 1) && !Extends(lines, 0, 1);
    assert Hidden(lines, 1);
    ScannerAgreesExactly(lines, 2);
  }

  /** A header that opens two levels records the inner one: once that is closed, the rest of the module is
      yielded as production. */
  lemma DoubleOpenerLeaks(header: Line, line: Line)
    requires StartsCfgTest(header) && NamesModule(header) && Net(header) == 2
    requires !NamesModule(line)
    ensures
      var lines := [header, "}", line, "}"];
      Leaked(lines, 2) && Production(lines, 4) != OutsideModules(lines, 4)
  {
    var lines := [header, "}", line, "}"];
    ClosingBrace();
    assert IsHeader(lines, 0) && !IsHeader(lines, 1) && !IsHeader(lines, 2);
    DepthNext(lines, 0);
    DepthNext(lines, 1);
    assert Extends(lines, 0, 2) && !OpenAt(lines, 0, 2);
    assert Leaked(lines, 2);
    ScannerAgreesExactly(lines, 4);
  }

  lemma DepthNext(lines: seq<Line>, i: nat)
    requires i < |lines|
    ensures Depth(lines, i + 1) == Depth(lines, i) + Net(lines[i])
  {
  }

  lemma ClosingBrace()
    ensures Net("}") == -1 && !NamesModule("}")
  {
    assert "}"[1..] == "";
  }

  const BEFORE_BRACES := CFG_TEST + "mod t"
  const ONE_LINER := BEFORE_BRACES + "{}"
  const DOUBLE_OPENER := BEFORE_BRACES + "{fn f(){"

  lemma TestModuleOpening(rest: Line)
    requires rest != "" && rest[0] == '{'
    ensures StartsCfgTest(BEFORE_BRACES + rest) && NamesModule(BEFORE_BRACES + rest)
  {
    var header := BEFORE_BRACES + rest;
    assert header[0] == '#';
    assert CFG_TEST <= header;
    ModuleHeaderNames(header, 12, 16, 17, 17);
  }

  lemma NetOfOpening(rest: Line)
    ensures Net(BEFORE_BRACES + rest) == Net(rest)
  {
    CountOfJoin(BEFORE_BRACES, rest, '{');
    CountOfJoin(BEFORE_BRACES, rest, '}');
    NoneCounted(BEFORE_BRACES, '{');
    NoneCounted(BEFORE_BRACES, '}');
  }

  /** The two failures at concrete files. */
  lemma ScannerFails()
    ensures Hidden([ONE_LINER, "fn f();"], 1)
    ensures Leaked([DOUBLE_OPENER, "}", "fn f();", "}"], 2)
  {
    TestModuleOpening("{}");
    TestModuleOpening("{fn f(){");
    NetOfOpening("{}");
    NetOfOpening("{fn f(){");
    OneLinerNet();
    DoubleOpenerNet();
    assert !NamesModule("fn f();");
    OneLineModuleHides(ONE_LINER, "fn f();");
    DoubleOpenerLeaks(DOUBLE_OPENER, "fn f();");
  }

  lemma OneLinerNet()
    ensures Net("{}") == 0
  {
    assert "{}"[1..] == "}";
  }

  lemma DoubleOpenerNet()
    ensures Net("{fn f(){") == 2
  {
    assert "{fn f(){" == "{fn f()" + "{" && "{fn f()" == "{" + "fn f()";
    forall c: char
      ensures Count("{fn f(){", c) == Count("{", c) + Count("fn f()", c) + Count("{", c)
    {
      CountOfJoin("{fn f()", "{", c);
      CountOfJoin("{", "fn f()", c);
    }
    NoneCounted("fn f()", '{');
    NoneCounted("fn f()", '}');
  }

  lemma {:induction false} CountOfJoin(s: Line, t: Line, c: char)
    ensures Count(s + t, c) == Count(s, c) + Count(t, c)
  {
    if s == "" {
      assert s + t == t;
    } else {
      assert (s + t)[1..] == s[1..] + t;
      CountOfJoin(s[1..], t, c);
    }
  }

  lemma {:induction false} NoneCounted(s: Line, c: char)
    requires c !in s
    ensures Count(s, c) == 0
  {
    if s != "" {
      NoneCounted(s[1..], c);
    }
  }

  lemma ModuleHeaderNames(line: Line, i: nat, j: nat, k: nat, l: nat)
    requires i + 3 < j < k <= l < |line| && ModuleHeaderAt(line, i, j, k, l)
    ensures NamesModule(line)
  {
  }
}
