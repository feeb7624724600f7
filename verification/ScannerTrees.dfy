/** Files whose blocks open and close line for line, as trees: an independent reading of which lines belong
    to a test module. */
module ScannerTrees {
  import opened Scanner

  /** Lines and brace blocks, in order: a line that leaves the depth alone, or a block between a header
      that opens more than it closes and a footer that closes just that. */
  datatype Forest =
    | Empty
    | Line(line: Line, rest: Forest)
    | Block(header: Line, body: Forest, footer: Line, rest: Forest)

  function Flatten(f: Forest): (lines: seq<Line>)
    ensures |lines| == Size(f)
  {
    match f
    case Empty => []
    case Line(line, rest) => [line] + Flatten(rest)
    case Block(header, body, footer, rest) => [header] + Flatten(body) + [footer] + Flatten(rest)
  }

  function Size(f: Forest): nat {
    match f
    case Empty => 0
    case Line(_, rest) => 1 + Size(rest)
    case Block(_, body, _, rest) => 2 + Size(body) + Size(rest)
  }

  predicate Nested(f: Forest) {
    match f
    case Empty => true
    case Line(line, rest) => Net(line) == 0 && Nested(rest)
    case Block(header, body, footer, rest) =>
      Net(header) > 0 && Net(footer) == -Net(header) && Nested(body) && Nested(rest)
  }

  /** The forest sits in the file at line `at`. */
  predicate SitsAt(f: Forest, lines: seq<Line>, at: nat) {
    at + Size(f) <= |lines| &&
    match f
    case Empty => true
    case Line(line, rest) => lines[at] == line && SitsAt(rest, lines, at + 1)
    case Block(header, body, footer, rest) =>
      && lines[at] == header && SitsAt(body, lines, at + 1)
      && lines[Foot(body, at)] == footer && SitsAt(rest, lines, Foot(body, at) + 1)
  }

  /** Where the footer of a block headed at `at` is. */
  function Foot(body: Forest, at: nat): nat {
    at + 1 + Size(body)
  }

  lemma {:induction false} FlattenSits(f: Forest, lines: seq<Line>, at: nat)
    requires at + Size(f) <= |lines| && lines[at..at + Size(f)] == Flatten(f)
    ensures SitsAt(f, lines, at)
  {
    match f
    case Empty =>
    case Line(line, rest) =>
      LineParts(line, Flatten(rest), lines, at);
      FlattenSits(rest, lines, at + 1);
    case Block(header, body, footer, rest) =>
      BlockParts(header, Flatten(body), footer, Flatten(rest), lines, at);
      FlattenSits(body, lines, at + 1);
      FlattenSits(rest, lines, Foot(body, at) + 1);
  }

  lemma LineParts(line: Line, rest: seq<Line>, lines: seq<Line>, at: nat)
    requires at + 1 + |rest| <= |lines| && lines[at..at + 1 + |rest|] == [line] + rest
    ensures lines[at] == line && lines[at + 1..at + 1 + |rest|] == rest
  {
    var s := lines[at..at + 1 + |rest|];
    assert s[0] == lines[at];
    SliceOfSlice(lines, at, |s|, 1, |s|);
    assert s[1..|s|] == rest;
  }

  lemma BlockParts(header: Line, body: seq<Line>, footer: Line, rest: seq<Line>, lines: seq<Line>, at: nat)
    requires at + 2 + |body| + |rest| <= |lines|
    requires lines[at..at + 2 + |body| + |rest|] == [header] + body + [footer] + rest
    ensures lines[at] == header && lines[at + 1 + |body|] == footer
    ensures lines[at + 1..at + 1 + |body|] == body
    ensures lines[at + 2 + |body|..at + 2 + |body| + |rest|] == rest
  {
    var s := lines[at..at + 2 + |body| + |rest|];
    assert s[0] == lines[at] && s[1 + |body|] == lines[at + 1 + |body|];
    SliceOfSlice(lines, at, |s|, 1, 1 + |body|);
    SliceOfSlice(lines, at, |s|, 2 + |body|, |s|);
    assert s[1..1 + |body|] == body && s[2 + |body|..|s|] == rest;
  }

  lemma SliceOfSlice(lines: seq<Line>, at: nat, n: nat, i: nat, j: nat)
    requires at + n <= |lines| && i <= j <= n
    ensures lines[at..at + n][i..j] == lines[at + i..at + j]
  {
    var s, t := lines[at..at + n][i..j], lines[at + i..at + j];
    forall k | 0 <= k < |s|
      ensures s[k] == t[k]
    {
      assert s[k] == lines[at..at + n][i + k] == lines[at + (i + k)];
      assert t[k] == lines[(at + i) + k];
    }
  }

  /** Line `i` heads a test module or lies in the subtree of one. */
  predicate InTestSubtree(f: Forest, lines: seq<Line>, at: nat, i: nat)
    requires SitsAt(f, lines, at) && at <= i < at + Size(f)
  {
    match f
    case Line(_, rest) => if i == at then IsHeader(lines, at) else InTestSubtree(rest, lines, at + 1, i)
    case Block(_, body, _, rest) =>
      if i > Foot(body, at) then InTestSubtree(rest, lines, Foot(body, at) + 1, i)
      else IsHeader(lines, at) || IsHeader(lines, i) || (at < i < Foot(body, at) && InTestSubtree(body, lines, at + 1, i))
  }

  /** Header and footer of a nested block balance each other. */
  lemma BlockDepths(f: Forest, lines: seq<Line>, at: nat)
    requires f.Block? && SitsAt(f, lines, at) && Nested(f)
    ensures
      var foot := Foot(f.body, at);
      && foot + 1 <= at + Size(f) == foot + 1 + Size(f.rest) <= |lines|
      && Depth(lines, at + 1) > Depth(lines, at)
      && Depth(lines, foot + 1) - Depth(lines, foot) == Depth(lines, at) - Depth(lines, at + 1)
  {
  }

  /** A nested forest ends at the depth it began at and never goes below it. */
  lemma {:induction false} DepthOver(f: Forest, lines: seq<Line>, at: nat, m: nat)
    requires SitsAt(f, lines, at) && Nested(f) && at <= m <= at + Size(f)
    ensures Depth(lines, m) >= Depth(lines, at)
    ensures Depth(lines, at + Size(f)) == Depth(lines, at)
  {
    match f
    case Empty =>
    case Line(_, rest) =>
      DepthOver(rest, lines, at + 1, if m == at then at + 1 else m);
    case Block(_, body, _, rest) =>
      var foot := Foot(body, at);
      BlockDepths(f, lines, at);
      DepthOver(body, lines, at + 1, if at < m <= foot then m else foot);
      DepthOver(rest, lines, foot + 1, if m > foot then m else foot + 1);
  }

  predicate ExtendsSince(lines: seq<Line>, at: nat, i: nat)
    requires i <= |lines|
  {
    exists h :: at <= h < i && Extends(lines, h, i)
  }

  /** A module headed in a forest is over by the forest's end, and stays so. */
  lemma OverBeyond(f: Forest, lines: seq<Line>, at: nat, h: nat, i: nat)
    requires SitsAt(f, lines, at) && Nested(f) && at <= h < at + Size(f) <= i <= |lines|
    ensures !Extends(lines, h, i)
  {
    DepthOver(f, lines, at, h);
    assert h < at + Size(f) <= i;
    assert Depth(lines, at + Size(f)) <= Depth(lines, h);
  }

  /** The tree's view and the depth's view agree. */
  lemma {:induction false} SubtreeIsModule(f: Forest, lines: seq<Line>, at: nat, i: nat)
    requires SitsAt(f, lines, at) && Nested(f) && at <= i < at + Size(f)
    ensures InTestSubtree(f, lines, at, i) <==> (IsHeader(lines, i) || ExtendsSince(lines, at, i))
  {
    match f
    case Line(_, rest) =>
      if i > at {
        SubtreeIsModule(rest, lines, at + 1, i);
        SinceNext(lines, at, i);
        assert Depth(lines, at + 1) == Depth(lines, at);
      }
    case Block(_, body, _, rest) =>
      var foot := Foot(body, at);
      if i > foot {
        SubtreeIsModule(rest, lines, foot + 1, i);
        SinceBeyondBlock(f, lines, at, i);
      } else if i > at {
        HeaderExtends(f, lines, at, i);
        SinceNext(lines, at, i);
        if i < foot {
          SubtreeIsModule(body, lines, at + 1, i);
        } else {
          NothingBeyond(body, lines, at + 1, i);
        }
      }
  }

  lemma SinceNext(lines: seq<Line>, at: nat, i: nat)
    requires at < i <= |lines|
    ensures ExtendsSince(lines, at, i) <==> (Extends(lines, at, i) || ExtendsSince(lines, at + 1, i))
  {
    if h :| at <= h < i && Extends(lines, h, i) && h != at {
      assert at + 1 <= h;
    }
  }

  lemma NothingBeyond(f: Forest, lines: seq<Line>, at: nat, i: nat)
    requires SitsAt(f, lines, at) && Nested(f) && i == at + Size(f)
    ensures !ExtendsSince(lines, at, i)
  {
    if h :| at <= h < i && Extends(lines, h, i) {
      OverBeyond(f, lines, at, h, i);
    }
  }

  lemma HeaderExtends(f: Forest, lines: seq<Line>, at: nat, i: nat)
    requires f.Block? && SitsAt(f, lines, at) && Nested(f) && at < i <= Foot(f.body, at)
    ensures Extends(lines, at, i) <==> IsHeader(lines, at)
    ensures OpenAt(lines, at, i) <==> IsHeader(lines, at)
  {
    forall m: nat | at < m <= i
      ensures Depth(lines, m) >= Depth(lines, at + 1) > Depth(lines, at)
    {
      DepthOver(f.body, lines, at + 1, m);
    }
  }

  lemma SinceBeyondBlock(f: Forest, lines: seq<Line>, at: nat, i: nat)
    requires f.Block? && SitsAt(f, lines, at) && Nested(f) && Foot(f.body, at) < i <= |lines|
    ensures ExtendsSince(lines, at, i) <==> ExtendsSince(lines, Foot(f.body, at) + 1, i)
  {
    var foot, block := Foot(f.body, at), Block(f.header, f.body, f.footer, Empty);
    if h :| at <= h < i && Extends(lines, h, i) {
      if h <= foot {
        OverBeyond(block, lines, at, h, i);
      }
      assert foot + 1 <= h;
    }
  }

  lemma FlattenSitsAtStart(f: Forest)
    ensures SitsAt(f, Flatten(f), 0)
  {
    assert Flatten(f)[0..0 + Size(f)] == Flatten(f);
    FlattenSits(f, Flatten(f), 0);
  }

  /** In every nested file, whatever its headers open, the test modules cover exactly the subtrees of their
      headers. */
  lemma SubtreesAreModules(f: Forest, i: nat)
    requires Nested(f) && i < Size(f)
    ensures SitsAt(f, Flatten(f), 0)
    ensures InTestSubtree(f, Flatten(f), 0, i) <==> InModule(Flatten(f), i)
  {
    FlattenSitsAtStart(f);
    SubtreeIsModule(f, Flatten(f), 0, i);
  }

  /** Inside a nested file a module of a header that opens a block stays recorded to its end. */
  lemma {:induction false} ExtendsIsOpen(f: Forest, lines: seq<Line>, at: nat, h: nat, i: nat)
    requires SitsAt(f, lines, at) && Nested(f) && at <= h < at + Size(f) && i <= |lines| && Extends(lines, h, i)
    ensures OpenAt(lines, h, i)
  {
    match f
    case Line(_, rest) =>
      if h > at {
        ExtendsIsOpen(rest, lines, at + 1, h, i);
      }
    case Block(_, body, _, rest) =>
      var foot := Foot(body, at);
      if h == at {
        if i > foot {
          OverBeyond(Block(f.header, body, f.footer, Empty), lines, at, h, i);
        } else {
          HeaderExtends(f, lines, at, i);
        }
      } else if h < foot {
        ExtendsIsOpen(body, lines, at + 1, h, i);
      } else if h > foot {
        ExtendsIsOpen(rest, lines, foot + 1, h, i);
      }
  }

  /** The lines of a file that lie outside the subtrees of test modules. */
  function OutsideTests(f: Forest, n: nat): seq<nat>
    requires n <= Size(f) && SitsAt(f, Flatten(f), 0)
  {
    if n == 0 then []
    else OutsideTests(f, n - 1) + (if InTestSubtree(f, Flatten(f), 0, n - 1) then [] else [n - 1])
  }

  lemma {:induction false} OutsideTestsIsOutsideModules(f: Forest, n: nat)
    requires Nested(f) && n <= Size(f)
    ensures SitsAt(f, Flatten(f), 0) && OutsideTests(f, n) == OutsideModules(Flatten(f), n)
  {
    FlattenSitsAtStart(f);
    if n > 0 {
      OutsideTestsIsOutsideModules(f, n - 1);
      SubtreesAreModules(f, n - 1);
    }
  }

  /** When the blocks of a file open and close line for line, the scanner yields exactly the lines outside
      the subtrees of test modules unless a header that opens no more than it closes hides some. */
  lemma ScannerAgreesWithTree(f: Forest)
    requires Nested(f)
    ensures SitsAt(f, Flatten(f), 0)
    ensures Production(Flatten(f), Size(f)) == OutsideTests(f, Size(f)) <==>
              forall i :: 0 <= i < Size(f) ==> !Hidden(Flatten(f), i)
  {
    var lines := Flatten(f);
    OutsideTestsIsOutsideModules(f, Size(f));
    forall i | 0 <= i < Size(f)
      ensures !Leaked(lines, i)
    {
      if h :| 0 <= h < i && Extends(lines, h, i) {
        ExtendsIsOpen(f, lines, 0, h, i);
      }
    }
    ScannerAgreesExactly(lines, Size(f));
  }

  /** In particular when every test-module header opens more than it closes. */
  lemma ScannerAgreesWhenHeadersOpen(f: Forest)
    requires Nested(f)
    requires forall h :: 0 <= h < Size(f) && IsHeader(Flatten(f), h) ==> Net(Flatten(f)[h]) > 0
    ensures SitsAt(f, Flatten(f), 0)
    ensures Production(Flatten(f), Size(f)) == OutsideTests(f, Size(f))
  {
    ScannerAgreesWithTree(f);
    forall i | 0 <= i < Size(f)
      ensures !Hidden(Flatten(f), i)
    {
      OnlyTheseHeadersMislead(Flatten(f), i);
    }
  }
}
