/**
 * The whitespace rule (WS001). Every check is a test on one line and its neighbours,
 * except the run of blank lines, which the rule counts in an instance field across
 * calls. Every finding is a warning on the line's 1-based number.
 */
module WhitespaceRules {
  import opened Wrappers
  import opened Text
  import opened Findings

  const RuleId: string := "WS001"

  /** The prefixes that make a stripped line an admonition paragraph. */
  const AdmonitionMarkers: seq<string> := ["NOTE:", "TIP:", "IMPORTANT:", "WARNING:", "CAUTION:"]

  function Warn(message: string, line: string, lineNumber: nat): Finding {
    Finding(message, Warning, Position(lineNumber + 1), Some(RuleId), Some(LineText(line)))
  }

  function Opt(condition: bool, f: Finding): seq<Finding> {
    if condition then [f] else []
  }

  /** The counter after a line: one more for a blank line, back to zero otherwise. */
  function NextCount(count: nat, line: string): nat {
    if IsBlank(line) then count + 1 else 0
  }

  /** The line, indentation removed, starts with a list marker not followed by a space. */
  predicate MarkerWithoutSpace(line: string) {
    var rest := LStrip(line);
    rest != [] && rest[0] in {'*', '-', '.'} && (|rest| == 1 || rest[1] != ' ')
  }

  function MarkerFinding(line: string, lineNumber: nat): Finding
    requires LStrip(line) != []
  {
    Warn("Missing space after the marker '" + [LStrip(line)[0]] + "'", line, lineNumber)
  }

  predicate IsHeading(line: string) {
    line != [] && line[0] == '='
  }

  /** The `=` run of a heading is followed by something other than a space. */
  predicate RunWithoutSpace(line: string) {
    var level := LeadingRun(line, '=');
    |line| > level && line[level] != ' '
  }

  /** The stripped line starts with one of the admonition markers from index `i` on. */
  predicate AdmonitionFrom(stripped: string, i: nat)
    requires i <= |AdmonitionMarkers|
    decreases |AdmonitionMarkers| - i
  {
    i < |AdmonitionMarkers| && (StartsWith(stripped, AdmonitionMarkers[i]) || AdmonitionFrom(stripped, i + 1))
  }

  predicate IsAdmonition(line: string) {
    AdmonitionFrom(Strip(line), 0)
  }

  lemma {:induction false} AdmonitionFromIff(stripped: string, i: nat)
    requires i <= |AdmonitionMarkers|
    ensures AdmonitionFrom(stripped, i) <==>
      exists k :: i <= k < |AdmonitionMarkers| && StartsWith(stripped, AdmonitionMarkers[k])
    decreases |AdmonitionMarkers| - i
  {
    if i < |AdmonitionMarkers| {
      AdmonitionFromIff(stripped, i + 1);
    }
  }

  /** The line before exists and is not blank. */
  predicate PrecededByText(context: seq<string>, lineNumber: nat) {
    0 < lineNumber <= |context| && !IsBlank(context[lineNumber - 1])
  }

  /** The line after exists and is not blank. */
  predicate FollowedByText(context: seq<string>, lineNumber: nat) {
    lineNumber + 1 < |context| && !IsBlank(context[lineNumber + 1])
  }

  /** A heading or admonition line past the end of the context makes `check_line` read
      the line before it out of range. */
  predicate IndexFails(line: string, lineNumber: nat, context: seq<string>) {
    (IsHeading(line) || IsAdmonition(line)) && lineNumber > 0 && lineNumber - 1 >= |context|
  }

  function BlankPart(count: nat, line: string, lineNumber: nat): seq<Finding> {
    Opt(IsBlank(line) && count + 1 > 2, Warn("Too many consecutive empty lines", line, lineNumber))
  }

  function MarkerPart(line: string, lineNumber: nat): seq<Finding> {
    if MarkerWithoutSpace(line) then [MarkerFinding(line, lineNumber)] else []
  }

  function TrailingPart(line: string, lineNumber: nat): seq<Finding> {
    Opt(RStrip(line) != line, Warn("Line contains trailing whitespace", line, lineNumber))
  }

  function TabPart(line: string, lineNumber: nat): seq<Finding> {
    Opt('\t' in line, Warn("Line contains tabs (use spaces instead)", line, lineNumber))
  }

  function HeadingFindings(line: string, lineNumber: nat, context: seq<string>): seq<Finding> {
    Opt(RunWithoutSpace(line), Warn("Missing space after " + Repeat('=', LeadingRun(line, '=')), line, lineNumber))
    + Opt(PrecededByText(context, lineNumber), Warn("Section title should be preceded by a blank line", line, lineNumber))
    + Opt(FollowedByText(context, lineNumber), Warn("Section title should be followed by a blank line", line, lineNumber))
  }

  function HeadingPart(line: string, lineNumber: nat, context: seq<string>): seq<Finding> {
    if IsHeading(line) then HeadingFindings(line, lineNumber, context) else []
  }

  function AdmonitionPart(line: string, lineNumber: nat, context: seq<string>): seq<Finding> {
    Opt(IsAdmonition(line) && PrecededByText(context, lineNumber),
      Warn("Admonition block should be preceded by a blank line", line, lineNumber))
  }

  /** What `check_line` reports for `line`, given the counter before it, in the order the
      checks run. */
  function WhitespaceLine(count: nat, line: string, lineNumber: nat, context: seq<string>): Result<seq<Finding>, CheckError> {
    if IndexFails(line, lineNumber, context) then Err(IndexOutOfRange)
    else
      Ok(BlankPart(count, line, lineNumber) + MarkerPart(line, lineNumber) + TrailingPart(line, lineNumber)
        + TabPart(line, lineNumber) + HeadingPart(line, lineNumber, context) + AdmonitionPart(line, lineNumber, context))
  }

  class WhitespaceRule {
    var consecutiveEmptyLines: nat

    constructor()
      ensures consecutiveEmptyLines == 0
    {
      consecutiveEmptyLines := 0;
    }

    /** `check_line`. The counter is updated first, so it moves even when a later check
        fails. */
    method CheckLine(line: string, lineNumber: nat, context: seq<string>) returns (result: Result<seq<Finding>, CheckError>)
      modifies this
      ensures consecutiveEmptyLines == NextCount(old(consecutiveEmptyLines), line)
      ensures result == WhitespaceLine(old(consecutiveEmptyLines), line, lineNumber, context)
    {
      var count := consecutiveEmptyLines;
      var blank: seq<Finding> := [];
      if IsBlank(line) {
        consecutiveEmptyLines := consecutiveEmptyLines + 1;
        if consecutiveEmptyLines > 2 {
          blank := [Warn("Too many consecutive empty lines", line, lineNumber)];
        }
      } else {
        consecutiveEmptyLines := 0;
      }
      result := CheckContent(blank, count, line, lineNumber, context);
    }
  }

  /** The rest of `check_line` once the blank-line run has been counted: the marker,
      trailing-whitespace and tab checks, then the heading and admonition checks, which
      read the line before from the context. */
  method CheckContent(blank: seq<Finding>, count: nat, line: string, lineNumber: nat, context: seq<string>)
    returns (result: Result<seq<Finding>, CheckError>)
    requires blank == BlankPart(count, line, lineNumber)
    ensures result == WhitespaceLine(count, line, lineNumber, context)
  {
    var marker := CheckMarker(line, lineNumber);
    var trailing: seq<Finding> := [];
    if RStrip(line) != line {
      trailing := [Warn("Line contains trailing whitespace", line, lineNumber)];
    }
    var tab: seq<Finding> := [];
    if '\t' in line {
      tab := [Warn("Line contains tabs (use spaces instead)", line, lineNumber)];
    }
    var simple := blank + marker + trailing + tab;

    var heading: seq<Finding> := [];
    if line != [] && line[0] == '=' {
      var r := CheckHeading(line, lineNumber, context);
      if r.Err? {
        return Err(IndexOutOfRange);
      }
      heading := r.value;
    }
    var admonition: seq<Finding> := [];
    if IsAdmonition(line) {
      var r := CheckAdmonition(line, lineNumber, context);
      if r.Err? {
        return Err(IndexOutOfRange);
      }
      admonition := r.value;
    }
    result := Ok(simple + heading + admonition);
    WhitespaceLineOk(count, line, lineNumber, context, simple, heading, admonition);
  }

  /** The list-marker check of `check_line`. */
  method CheckMarker(line: string, lineNumber: nat) returns (findings: seq<Finding>)
    ensures findings == MarkerPart(line, lineNumber)
  {
    findings := [];
    var rest := LStrip(line);
    if rest != [] && rest[0] in {'*', '-', '.'} {
      var content := rest[1..];
      if !(content != [] && content[0] == ' ') {
        findings := [MarkerFinding(line, lineNumber)];
      }
    }
  }

  /** The section-title checks of `check_line`: the `=` run is counted one character at a
      time, then the line after it and the lines around it are checked. */
  method CheckHeading(line: string, lineNumber: nat, context: seq<string>) returns (result: Result<seq<Finding>, CheckError>)
    requires IsHeading(line)
    ensures result == if 0 < lineNumber && |context| < lineNumber then Err(IndexOutOfRange)
      else Ok(HeadingFindings(line, lineNumber, context))
  {
    var level := 0;
    while level < |line| && line[level] == '='
      invariant level <= |line|
      invariant forall k :: 0 <= k < level ==> line[k] == '='
    {
      level := level + 1;
    }
    LeadingRunIs(line, '=', level);
    var run: seq<Finding> := [];
    if |line| > level && line[level] != ' ' {
      run := [Warn("Missing space after " + Repeat('=', level), line, lineNumber)];
    }
    assert run == Opt(RunWithoutSpace(line), Warn("Missing space after " + Repeat('=', LeadingRun(line, '=')), line, lineNumber));
    var preceded: seq<Finding> := [];
    if lineNumber > 0 {
      if lineNumber - 1 >= |context| {
        return Err(IndexOutOfRange);
      }
      if !IsBlank(context[lineNumber - 1]) {
        preceded := [Warn("Section title should be preceded by a blank line", line, lineNumber)];
      }
    }
    assert preceded == Opt(PrecededByText(context, lineNumber), Warn("Section title should be preceded by a blank line", line, lineNumber));
    var followed: seq<Finding> := [];
    if lineNumber < |context| - 1 && !IsBlank(context[lineNumber + 1]) {
      followed := [Warn("Section title should be followed by a blank line", line, lineNumber)];
    }
    assert followed == Opt(FollowedByText(context, lineNumber), Warn("Section title should be followed by a blank line", line, lineNumber));
    var findings := run + preceded + followed;
    assert findings == HeadingFindings(line, lineNumber, context);
    result := Ok(findings);
  }

  /** The admonition check of `check_line`. */
  method CheckAdmonition(line: string, lineNumber: nat, context: seq<string>) returns (result: Result<seq<Finding>, CheckError>)
    requires IsAdmonition(line)
    ensures result == if 0 < lineNumber && |context| < lineNumber then Err(IndexOutOfRange)
      else Ok(AdmonitionPart(line, lineNumber, context))
  {
    var findings: seq<Finding> := [];
    if lineNumber > 0 {
      if lineNumber - 1 >= |context| {
        return Err(IndexOutOfRange);
      }
      if !IsBlank(context[lineNumber - 1]) {
        findings := [Warn("Admonition block should be preceded by a blank line", line, lineNumber)];
      }
    }
    result := Ok(findings);
  }

  /** Assembling the parts: with no index failure, the call reports the parts in order. */
  lemma WhitespaceLineOk(count: nat, line: string, lineNumber: nat, context: seq<string>,
                         simple: seq<Finding>, heading: seq<Finding>, admonition: seq<Finding>)
    requires simple == BlankPart(count, line, lineNumber) + MarkerPart(line, lineNumber)
      + TrailingPart(line, lineNumber) + TabPart(line, lineNumber)
    requires !IndexFails(line, lineNumber, context)
    requires heading == HeadingPart(line, lineNumber, context)
    requires admonition == AdmonitionPart(line, lineNumber, context)
    ensures WhitespaceLine(count, line, lineNumber, context) == Ok(simple + heading + admonition)
  {
  }

  // ---------------------------------------------------------------------------------
  // What a single call reports
  // ---------------------------------------------------------------------------------

  /** Trailing whitespace is reported exactly when the line ends with a whitespace
      character. */
  lemma TrailingIff(line: string)
    ensures RStrip(line) != line <==> line != [] && IsSpace(line[|line| - 1])
  {
    RStripSpec(line);
  }

  /** Every finding is a WS001 warning on line `lineNumber + 1`. */
  predicate AllWarnings(findings: seq<Finding>, lineNumber: nat) {
    forall f :: f in findings ==>
      f.severity == Warning && f.position.line == lineNumber + 1 && f.ruleId == Some(RuleId)
  }

  lemma WarningsAppend(a: seq<Finding>, b: seq<Finding>, lineNumber: nat)
    requires AllWarnings(a, lineNumber) && AllWarnings(b, lineNumber)
    ensures AllWarnings(a + b, lineNumber)
  {
    forall f | f in a + b
      ensures f.severity == Warning && f.position.line == lineNumber + 1 && f.ruleId == Some(RuleId)
    {
      if f !in a {
        assert f in b;
      }
    }
  }

  /** The four line-local parts of a call, each a WS001 warning list that is empty
      exactly when its check does not apply. */
  lemma LocalPartsSpec(count: nat, line: string, lineNumber: nat)
    ensures AllWarnings(BlankPart(count, line, lineNumber), lineNumber)
    ensures AllWarnings(MarkerPart(line, lineNumber), lineNumber)
    ensures AllWarnings(TrailingPart(line, lineNumber), lineNumber)
    ensures AllWarnings(TabPart(line, lineNumber), lineNumber)
    ensures BlankPart(count, line, lineNumber) == [] <==> !(IsBlank(line) && count >= 2)
    ensures MarkerPart(line, lineNumber) == [] <==> !MarkerWithoutSpace(line)
    ensures TrailingPart(line, lineNumber) == [] <==> !(line != [] && IsSpace(line[|line| - 1]))
    ensures TabPart(line, lineNumber) == [] <==> '\t' !in line
  {
    TrailingIff(line);
  }

  /** The heading part: WS001 warnings, empty exactly when the line is no heading or none
      of its three checks applies. */
  lemma HeadingPartSpec(line: string, lineNumber: nat, context: seq<string>)
    ensures AllWarnings(HeadingPart(line, lineNumber, context), lineNumber)
    ensures HeadingPart(line, lineNumber, context) == [] <==>
      !(IsHeading(line) && (RunWithoutSpace(line) || PrecededByText(context, lineNumber) || FollowedByText(context, lineNumber)))
  {
    if IsHeading(line) {
      var a := Opt(RunWithoutSpace(line), Warn("Missing space after " + Repeat('=', LeadingRun(line, '=')), line, lineNumber));
      var b := Opt(PrecededByText(context, lineNumber), Warn("Section title should be preceded by a blank line", line, lineNumber));
      var c := Opt(FollowedByText(context, lineNumber), Warn("Section title should be followed by a blank line", line, lineNumber));
      assert HeadingPart(line, lineNumber, context) == a + b + c;
      WarningsAppend(a, b, lineNumber);
      WarningsAppend(a + b, c, lineNumber);
    }
  }

  /** The admonition part: WS001 warnings, empty exactly when the line is no admonition
      or the line before is blank or absent. */
  lemma AdmonitionPartSpec(line: string, lineNumber: nat, context: seq<string>)
    ensures AllWarnings(AdmonitionPart(line, lineNumber, context), lineNumber)
    ensures AdmonitionPart(line, lineNumber, context) == [] <==> !(IsAdmonition(line) && PrecededByText(context, lineNumber))
  {
  }

  /** The call fails exactly for a heading or admonition line whose line before lies past
      the end of the context; otherwise every finding is a WS001 warning on the line's
      1-based number, and there are none exactly when no check applies. */
  lemma WhitespaceLineSpec(count: nat, line: string, lineNumber: nat, context: seq<string>)
    ensures var r := WhitespaceLine(count, line, lineNumber, context);
      && (r.Err? <==> IndexFails(line, lineNumber, context))
      && (r.Ok? ==>
            && AllWarnings(r.value, lineNumber)
            && (r.value == [] <==>
                  && !(IsBlank(line) && count >= 2)
                  && !MarkerWithoutSpace(line)
                  && !(line != [] && IsSpace(line[|line| - 1]))
                  && '\t' !in line
                  && !(IsHeading(line) &&
                         (RunWithoutSpace(line) || PrecededByText(context, lineNumber) || FollowedByText(context, lineNumber)))
                  && !(IsAdmonition(line) && PrecededByText(context, lineNumber))))
  {
    if !IndexFails(line, lineNumber, context) {
      LocalPartsSpec(count, line, lineNumber);
      HeadingPartSpec(line, lineNumber, context);
      AdmonitionPartSpec(line, lineNumber, context);
      var p1 := BlankPart(count, line, lineNumber);
      var p2 := MarkerPart(line, lineNumber);
      var p3 := TrailingPart(line, lineNumber);
      var p4 := TabPart(line, lineNumber);
      var p5 := HeadingPart(line, lineNumber, context);
      var p6 := AdmonitionPart(line, lineNumber, context);
      assert WhitespaceLine(count, line, lineNumber, context).value == p1 + p2 + p3 + p4 + p5 + p6;
      WarningsAppend(p1, p2, lineNumber);
      WarningsAppend(p1 + p2, p3, lineNumber);
      WarningsAppend(p1 + p2 + p3, p4, lineNumber);
      WarningsAppend(p1 + p2 + p3 + p4, p5, lineNumber);
      WarningsAppend(p1 + p2 + p3 + p4 + p5, p6, lineNumber);
      assert p1 + p2 + p3 + p4 + p5 + p6 == [] <==> p1 == [] && p2 == [] && p3 == [] && p4 == [] && p5 == [] && p6 == [] by {
        EmptyConcat(p1, p2, p3, p4, p5, p6);
      }
    }
  }

  lemma EmptyConcat<T>(a: seq<T>, b: seq<T>, c: seq<T>, d: seq<T>, e: seq<T>, f: seq<T>)
    ensures a + b + c + d + e + f == [] <==> a == [] && b == [] && c == [] && d == [] && e == [] && f == []
  {
    assert |a + b + c + d + e + f| == |a| + |b| + |c| + |d| + |e| + |f|;
  }

  // ---------------------------------------------------------------------------------
  // A fresh instance driven over a whole document, line by line
  // ---------------------------------------------------------------------------------

  /** The counter of a fresh instance after the first `i` lines. */
  function CountAfter(doc: seq<string>, i: nat): nat
    requires i <= |doc|
  {
    if i == 0 then 0 else NextCount(CountAfter(doc, i - 1), doc[i - 1])
  }

  /** The WS001 findings of a fresh instance on the first `i` lines; every call is within
      the document, so none fails. */
  function WhitespaceBefore(doc: seq<string>, i: nat): seq<Finding>
    requires i <= |doc|
  {
    if i == 0 then []
    else
      var r := WhitespaceLine(CountAfter(doc, i - 1), doc[i - 1], i - 1, doc);
      WhitespaceBefore(doc, i - 1) + (if r.Ok? then r.value else [])
  }

  function WhitespaceFindings(doc: seq<string>): seq<Finding> {
    WhitespaceBefore(doc, |doc|)
  }

  /** A fresh instance handed every line of the document in turn. */
  method CheckWhitespace(doc: seq<string>) returns (findings: seq<Finding>)
    ensures findings == WhitespaceFindings(doc)
  {
    var rule := new WhitespaceRule();
    findings := [];
    var i := 0;
    while i < |doc|
      invariant i <= |doc|
      invariant rule.consecutiveEmptyLines == CountAfter(doc, i)
      invariant findings == WhitespaceBefore(doc, i)
    {
      var result := rule.CheckLine(doc[i], i, doc);
      findings := findings + result.value;
      i := i + 1;
    }
  }

  /** The counter is the length of the run of blank lines that ends the prefix: it is at
      least `m` exactly when the last `m` lines of the prefix are all blank. */
  lemma {:induction false} CountIsBlankRun(doc: seq<string>, i: nat, m: nat)
    requires m <= i <= |doc|
    ensures CountAfter(doc, i) >= m <==> forall j :: i - m <= j < i ==> IsBlank(doc[j])
  {
    if m > 0 {
      CountIsBlankRun(doc, i - 1, m - 1);
    }
  }

  /** Line `k` of a document is reported as one blank line too many exactly when it and
      the two lines before it are blank: the third and every later line of a blank run. */
  lemma TooManyIff(doc: seq<string>, k: nat)
    requires k < |doc|
    ensures (IsBlank(doc[k]) && CountAfter(doc, k) >= 2) <==>
      2 <= k && IsBlank(doc[k - 2]) && IsBlank(doc[k - 1]) && IsBlank(doc[k])
  {
    if k >= 2 {
      CountIsBlankRun(doc, k, 2);
    } else {
      CountBounded(doc, k);
    }
  }

  /** The counter never exceeds the number of lines seen. */
  lemma {:induction false} CountBounded(doc: seq<string>, i: nat)
    requires i <= |doc|
    ensures CountAfter(doc, i) <= i
  {
    if i > 0 {
      CountBounded(doc, i - 1);
    }
  }
}
