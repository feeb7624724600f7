/** Which lines head a test module, read off the characters of the file alone: no state of the scanner. */
module ScannerAttributes {
  import opened Scanner

  // ---- characters ----

  /** White space is the blank and the five control characters from tab to carriage return. */
  lemma SpacesAre(c: char)
    ensures IsSpace(c) <==> c in {' ', '\t', '\n', '\U{000B}', '\U{000C}', '\r'}
  {
  }

  /** Letters, digits and the underscore make words; white space, braces, brackets and `#` do not. */
  lemma WordsAre(c: char)
    ensures IsWord(c) ==> !IsSpace(c) && c !in {'{', '}', '#', '[', ']', '(', ')', ';', ':', '!'}
    ensures IsWord(c) <==> c == '_' || 48 <= c as int <= 57 || 65 <= c as int <= 90 || 97 <= c as int <= 122
  {
  }

  // ---- how a line begins ----

  predicate Blank(line: Line) {
    forall j :: 0 <= j < |line| ==> IsSpace(line[j])
  }

  /** The text stands at `k`, with nothing but white space before it. */
  predicate BeginsAt(line: Line, text: string, k: nat) {
    k + |text| <= |line| && line[k..k + |text|] == text && forall j :: 0 <= j < k ==> IsSpace(line[j])
  }

  ghost predicate Begins(line: Line, text: string) {
    exists k: nat :: BeginsAt(line, text, k)
  }

  lemma {:induction false} StripsSpaces(line: Line) returns (k: nat)
    ensures k <= |line| && StripLeft(line) == line[k..]
    ensures forall j :: 0 <= j < k ==> IsSpace(line[j])
    ensures k < |line| ==> !IsSpace(line[k])
  {
    if line != "" && IsSpace(line[0]) {
      var m := StripsSpaces(line[1..]);
      k := m + 1;
      assert line[1..][m..] == line[k..];
      assert forall j :: 1 <= j < k ==> line[j] == line[1..][j - 1];
      assert k < |line| ==> line[k] == line[1..][m];
    } else {
      k := 0;
    }
  }

  /** `strip().startswith(text)` for a text that begins with no white space. */
  lemma BeginsExactly(line: Line, text: string)
    requires text != "" && !IsSpace(text[0])
    ensures text <= StripLeft(line) <==> Begins(line, text)
  {
    var k := StripsSpaces(line);
    if text <= StripLeft(line) {
      assert BeginsAt(line, text, k);
    }
    if m: nat :| BeginsAt(line, text, m) {
      assert line[m] == text[0];
      assert m == k;
    }
  }

  lemma BlankExactly(line: Line)
    ensures StripLeft(line) == "" <==> Blank(line)
  {
    var k := StripsSpaces(line);
  }

  lemma StartsCfgTestExactly(line: Line)
    ensures StartsCfgTest(line) <==> Begins(line, "#[cfg(test)]")
  {
    BeginsExactly(line, "#[cfg(test)]");
  }

  lemma KeepsPendingExactly(line: Line)
    ensures KeepsPending(line) <==> Blank(line) || Begins(line, "#")
  {
    BlankExactly(line);
    BeginsExactly(line, "#");
  }

  // ---- which lines head a test module ----

  /** The attribute for tests, on a line that names no module itself. */
  ghost predicate LoneAttribute(line: Line) {
    Begins(line, "#[cfg(test)]") && !NamesModule(line)
  }

  /** A line that may stand between the attribute and its module. */
  ghost predicate MayFollow(line: Line) {
    (Blank(line) || Begins(line, "#")) && !NamesModule(line)
  }

  ghost predicate Attributes(lines: seq<Line>, h: nat, i: nat)
    requires i <= |lines|
  {
    h < i && LoneAttribute(lines[h]) && forall m :: h < m < i ==> MayFollow(lines[m])
  }

  ghost predicate Attributed(lines: seq<Line>, i: nat)
    requires i <= |lines|
  {
    exists h: nat :: Attributes(lines, h, i)
  }

  lemma AttributedNext(lines: seq<Line>, i: nat)
    requires i < |lines|
    ensures Attributed(lines, i + 1) <==> LoneAttribute(lines[i]) || (Attributed(lines, i) && MayFollow(lines[i]))
  {
    if Attributed(lines, i) && MayFollow(lines[i]) {
      var h: nat :| Attributes(lines, h, i);
      assert Attributes(lines, h, i + 1);
    }
    if LoneAttribute(lines[i]) {
      assert Attributes(lines, i, i + 1);
    }
    if Attributed(lines, i + 1) {
      var h: nat :| Attributes(lines, h, i + 1);
      assert h < i ==> Attributes(lines, h, i);
    }
  }

  /** An attribute waits exactly when one stands above, with nothing but blank lines and attributes between. */
  lemma {:induction false} PendingExactly(lines: seq<Line>, i: nat)
    requires i <= |lines|
    ensures Pending(lines, i) <==> Attributed(lines, i)
  {
    if i > 0 {
      PendingExactly(lines, i - 1);
      AttributedNext(lines, i - 1);
      StartsCfgTestExactly(lines[i - 1]);
      KeepsPendingExactly(lines[i - 1]);
    }
  }

  /** For every line of every file: it heads a test module if and only if it names a module and either begins
      with the attribute or has it above, on a line that names none, with only blank lines and lines that begin
      with `#` in between, none of which names a module. */
  lemma HeadersExactly(lines: seq<Line>, i: nat)
    requires i < |lines|
    ensures IsHeader(lines, i) <==> NamesModule(lines[i]) && (Begins(lines[i], "#[cfg(test)]") || Attributed(lines, i))
  {
    PendingExactly(lines, i);
    StartsCfgTestExactly(lines[i]);
  }

  // ---- what the scanner does with them ----

  lemma {:induction false} ProductionHolds(lines: seq<Line>, n: nat, i: nat)
    requires n <= |lines|
    ensures i in Production(lines, n) <==> i < n && !InTestModule(lines, i)
  {
    if n > 0 {
      ProductionHolds(lines, n - 1, i);
      var tail: seq<nat> := if InTestModule(lines, n - 1) then [] else [n - 1];
      assert i in Production(lines, n) <==> i in Production(lines, n - 1) || i in tail;
    }
  }

  /** The usual form: the attribute on a line of its own, perhaps further attributes and blank lines, then the
      module. No line of the module is yielded, whatever stands in it and around it. */
  lemma AttributedModuleIsSkipped(lines: seq<Line>, h: nat, i: nat, m: nat)
    requires i < |lines| && Attributes(lines, h, i) && NamesModule(lines[i]) && Net(lines[i]) <= 1
    requires m == i || (m < |lines| && i < m && forall k :: i < k <= m ==> Depth(lines, k) > Depth(lines, i))
    ensures m !in Production(lines, |lines|)
  {
    HeadersExactly(lines, i);
    if m != i {
      assert Extends(lines, i, m);
      OpenAndExtends(lines, i, m);
    }
    ProductionHolds(lines, |lines|, m);
  }

  /** A lone attribute whose module does not follow is of no effect: the next line that is neither blank nor
      begins with `#` ends the wait, and a module named below that is production unless it lies in another. */
  lemma InterruptedAttributeIsLost(lines: seq<Line>, b: nat, i: nat)
    requires b < i < |lines| && !Blank(lines[b]) && !Begins(lines[b], "#")
    requires forall m :: b < m <= i ==> !Begins(lines[m], "#[cfg(test)]")
    ensures !IsHeader(lines, i)
  {
    HeadersExactly(lines, i);
    AttributeBeginsWithHash(lines[b]);
    forall h: nat
      ensures !Attributes(lines, h, i)
    {
      if h < b {
        assert !MayFollow(lines[b]);
      }
    }
  }

  lemma AttributeBeginsWithHash(line: Line)
    ensures Begins(line, "#[cfg(test)]") ==> Begins(line, "#")
  {
    if k: nat :| BeginsAt(line, "#[cfg(test)]", k) {
      assert line[k..k + 1] == line[k..k + 12][..1] == "#";
      assert BeginsAt(line, "#", k);
    }
  }

  // ---- naming a module ----

  lemma ModuleHeaderChars(line: Line, i: nat, j: nat, k: nat, l: nat)
    requires i + 3 < j < k <= l < |line| && ModuleHeaderAt(line, i, j, k, l)
    ensures line[i] == 'm' && line[i + 1] == 'o' && line[i + 2] == 'd' && (i == 0 || !IsWord(line[i - 1]))
    ensures IsSpace(line[i + 3]) && IsWord(line[j]) && line[l] == '{'
  {
    var word := line[i..i + 3];
    assert word[0] == line[i] && word[1] == line[i + 1] && word[2] == line[i + 2];
  }

  /** A line names a module only if an `m` that ends no word is followed by white space three places on, and a
      brace comes later. */
  lemma NamingNeeds(line: Line)
    requires forall i :: 0 <= i < |line| - 5 && line[i] == 'm' && IsSpace(line[i + 3]) ==> i > 0 && IsWord(line[i - 1])
    ensures !NamesModule(line)
  {
    forall i, j, k, l | 0 <= i && i + 3 < j < k <= l < |line| && ModuleHeaderAt(line, i, j, k, l)
      ensures false
    {
      ModuleHeaderChars(line, i, j, k, l);
    }
  }

  lemma NamingNeedsBrace(line: Line)
    requires '{' !in line
    ensures !NamesModule(line)
  {
    forall i, j, k, l | 0 <= i && i + 3 < j < k <= l < |line| && ModuleHeaderAt(line, i, j, k, l)
      ensures false
    {
      ModuleHeaderChars(line, i, j, k, l);
    }
  }

  lemma PublicModule()
    ensures NamesModule("  pub mod tests {")
  {
    ModuleHeaderNames("  pub mod tests {", 6, 10, 15, 16);
  }

  /** Other words, modules in other files, and names that are missing. */
  lemma NoModules()
    ensures !NamesModule("submod t{") && !NamesModule("mod!t {") && !NamesModule("mod t;") && !NamesModule("mod {")
  {
    NamingNeeds("submod t{");
    NamingNeeds("mod!t {");
    NamingNeeds("mod {");
    NamingNeedsBrace("mod t;");
  }

  // ---- the usual form at a concrete file ----

  const HEADER := "mod t{"

  function TwoLineForm(header: Line, item: Line): seq<Line> {
    [CFG_TEST, "#[x]", "", header, item, "}", item]
  }

  lemma HeaderNames()
    ensures NamesModule(HEADER) && Net(HEADER) == 1
  {
    ModuleHeaderNames(HEADER, 0, 4, 5, 5);
    assert HEADER == "mod t" + "{";
    CountOfJoin("mod t", "{", '{');
    CountOfJoin("mod t", "{", '}');
    NoneCounted("mod t", '{');
    NoneCounted("mod t", '}');
  }

  lemma NoBraces(line: Line)
    requires '{' !in line && '}' !in line
    ensures !NamesModule(line) && Net(line) == 0
  {
    NamingNeedsBrace(line);
    NoneCounted(line, '{');
    NoneCounted(line, '}');
  }

  lemma FirstIsLone()
    ensures LoneAttribute(CFG_TEST) && Net(CFG_TEST) == 0
  {
    NoBraces(CFG_TEST);
    BeginsItself(CFG_TEST);
  }

  lemma BeginsItself(line: Line)
    ensures Begins(line, line)
  {
    assert BeginsAt(line, line, 0);
  }

  lemma SecondMayFollow()
    ensures MayFollow("#[x]") && Net("#[x]") == 0
  {
    NoBraces("#[x]");
    assert BeginsAt("#[x]", "#", 0);
  }

  lemma ThirdMayFollow()
    ensures MayFollow("") && Net("") == 0
  {
    NoBraces("");
  }

  lemma AttributeAbove(lines: seq<Line>)
    requires |lines| > 3 && LoneAttribute(lines[0]) && MayFollow(lines[1]) && MayFollow(lines[2]) && NamesModule(lines[3])
    ensures Attributed(lines, 3)
  {
    assert Attributes(lines, 0, 3);
  }

  /** Of the seven lines the attributes, the blank line and what follows the module are yielded. */
  lemma TwoLineFormIsSkipped(header: Line, item: Line)
    requires NamesModule(header) && Net(header) == 1 && !NamesModule(item) && Net(item) == 0
    ensures Production(TwoLineForm(header, item), 7) == [0, 1, 2, 6]
  {
    FirstIsLone();
    SecondMayFollow();
    ThirdMayFollow();
    ClosingBrace();
    SevenLines(TwoLineForm(header, item));
  }

  lemma SevenLines(lines: seq<Line>)
    requires |lines| == 7 && LoneAttribute(lines[0]) && MayFollow(lines[1]) && MayFollow(lines[2]) && NamesModule(lines[3])
    requires !NamesModule(lines[4]) && !NamesModule(lines[5]) && !NamesModule(lines[6])
    requires Net(lines[0]) == Net(lines[1]) == Net(lines[2]) == Net(lines[4]) == 0 && Net(lines[3]) == 1 && Net(lines[5]) == -1
    ensures Production(lines, 7) == [0, 1, 2, 6]
  {
    AttributeAbove(lines);
    HeadersExactly(lines, 3);
    TwoLineDepths(lines);
    TwoLineVerdicts(lines);
    TwoLineProduction(lines);
  }

  lemma TwoLineDepths(lines: seq<Line>)
    requires |lines| == 7 && Net(lines[0]) == Net(lines[1]) == Net(lines[2]) == Net(lines[4]) == 0
    requires Net(lines[3]) == 1 && Net(lines[5]) == -1
    ensures Depth(lines, 3) == 0 && Depth(lines, 4) == 1 && Depth(lines, 5) == 1 && Depth(lines, 6) == 0
  {
    DepthNext(lines, 0);
    DepthNext(lines, 1);
    DepthNext(lines, 2);
    DepthNext(lines, 3);
    DepthNext(lines, 4);
    DepthNext(lines, 5);
  }

  lemma TwoLineVerdicts(lines: seq<Line>)
    requires |lines| == 7 && IsHeader(lines, 3) && forall i :: 0 <= i < 7 && i != 3 ==> !NamesModule(lines[i])
    requires Depth(lines, 4) == 1 && Depth(lines, 5) == 1 && Depth(lines, 6) == 0
    ensures forall i :: 0 <= i < 7 ==> (InTestModule(lines, i) <==> 3 <= i <= 5)
  {
    assert OpenAt(lines, 3, 4) && OpenAt(lines, 3, 5) && !OpenAt(lines, 3, 6);
  }

  lemma TwoLineProduction(lines: seq<Line>)
    requires |lines| == 7 && forall i :: 0 <= i < 7 ==> (InTestModule(lines, i) <==> 3 <= i <= 5)
    ensures Production(lines, 7) == [0, 1, 2, 6]
  {
    assert Production(lines, 1) == [0];
    assert Production(lines, 2) == [0, 1];
    assert Production(lines, 3) == [0, 1, 2];
    assert Production(lines, 4) == [0, 1, 2];
    assert Production(lines, 5) == [0, 1, 2];
    assert Production(lines, 6) == [0, 1, 2];
  }
}
