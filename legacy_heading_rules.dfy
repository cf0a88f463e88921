/**
 * The older, character-counting revision of the three heading rules. Lines are
 * numbered from 1, the context is the stripped line, and a line is considered only
 * when it is non-empty, starts with `=` and is not an underline (a line that strips
 * to `=` characters only).
 */
module LegacyHeadingRules {
  import opened Wrappers
  import opened Text
  import opened Seqs
  import opened Findings
  import opened Document
  import opened FirstOccurrence
  import HeadingRules

  const FormatRuleId: string := "HEAD002"
  const IncrementationRuleId: string := "HEAD001"
  const TopLevelRuleId: string := "HEAD003"

  /** The inner loop every rule runs: count the `=` characters that start the line. */
  method CountLevel(line: string) returns (level: nat)
    ensures level == LeadingRun(line, '=')
  {
    level := 0;
    while level < |line| && line[level] == '='
      invariant level <= |line|
      invariant forall i :: 0 <= i < level ==> line[i] == '='
    {
      level := level + 1;
    }
    LeadingRunIs(line, '=', level);
  }

  /** Non-empty and starting with `=`. */
  predicate StartsWithEquals(line: string) {
    line != [] && line[0] == '='
  }

  /** `line.strip() == '=' * len(line.strip())`: the stripped line is made of `=` only
      (see `AllCharIsRepeat`). */
  predicate IsUnderline(line: string) {
    AllChar(Strip(line), '=')
  }

  /** The lines the format and top-level rules look at. */
  predicate Considered(line: string) {
    StartsWithEquals(line) && !IsUnderline(line)
  }

  /** A line starting with `=` strips to one of its prefixes, followed by whitespace
      only. */
  lemma StripOfEqualsLine(line: string)
    requires StartsWithEquals(line)
    ensures var m := |Strip(line)|;
      && 1 <= m <= |line| && Strip(line) == line[..m]
      && (forall i :: m <= i < |line| ==> IsSpace(line[i]))
  {
    assert !IsSpace('=');
    RStripSpec(line);
    NotBlankWhenFirstNonSpace(line);
  }

  /** The incrementation rule's underline test, `level == len(line.strip())`, agrees with
      the other two rules' test on the lines that reach it. */
  lemma UnderlineTestsAgree(line: string)
    requires StartsWithEquals(line)
    ensures IsUnderline(line) <==> LeadingRun(line, '=') == |Strip(line)|
  {
    StripOfEqualsLine(line);
    var m := |Strip(line)|;
    assert forall i :: 0 <= i < m ==> line[i] == Strip(line)[i];
    if IsUnderline(line) {
      assert !IsSpace('=');
      assert m == |line| || line[m] != '=';
      LeadingRunIs(line, '=', m);
    }
  }

  /** A considered line has a character after its `=` run, and its stripped form goes
      past the run. */
  lemma ConsideredRun(line: string)
    requires Considered(line)
    ensures LeadingRun(line, '=') < |Strip(line)| <= |line|
  {
    UnderlineTestsAgree(line);
    StripOfEqualsLine(line);
  }

  // ---------------------------------------------------------------------------------
  // HEAD002: heading format
  // ---------------------------------------------------------------------------------

  function MissingSpaceFinding(level: nat, line: string, lineNum: nat): Finding {
    Finding("Missing space after " + Repeat('=', level), Error, Position(lineNum),
      Some(FormatRuleId), Some(LineText(Strip(line))))
  }

  function CaseFinding(line: string, lineNum: nat): Finding {
    Finding("Heading should start with uppercase letter", Warning, Position(lineNum),
      Some(FormatRuleId), Some(LineText(Strip(line))))
  }

  /** The findings of `HeadingFormatRule.check` for line number `lineNum` (1-based). */
  function FormatLine(line: string, lineNum: nat): (r: seq<Finding>)
    ensures !Considered(line) ==> r == []
    ensures |r| <= 2
    ensures forall f :: f in r ==> f.ruleId == Some(FormatRuleId) && f.position == Position(lineNum)
  {
    if !StartsWithEquals(line) || IsUnderline(line) then []
    else LevelFindings(line, LeadingRun(line, '='), lineNum)
  }

  /** The two checks on a considered line whose `=` run has length `level`. */
  function LevelFindings(line: string, level: nat, lineNum: nat): seq<Finding>
    requires level <= |line|
  {
    var headingText := Strip(line[level..]);
    (if level > 0 && (|line| <= level || line[level] != ' ') then [MissingSpaceFinding(level, line, lineNum)] else [])
    + (if headingText != [] && FirstWordStartsLower(headingText) then [CaseFinding(line, lineNum)] else [])
  }

  /** On a considered line, the "Missing space" error is given exactly when the `=` run
      is followed by something other than a space character; a tab counts as missing. */
  lemma FormatLineMissingSpace(line: string, lineNum: nat)
    requires Considered(line)
    ensures var k := LeadingRun(line, '=');
      && k < |line|
      && (MissingSpaceFinding(k, line, lineNum) in FormatLine(line, lineNum) <==> line[k] != ' ')
      && (forall f :: f in FormatLine(line, lineNum) && f.severity == Error ==>
            f == MissingSpaceFinding(k, line, lineNum))
  {
    ConsideredRun(line);
  }

  /** The uppercase warning is given exactly on a considered line whose heading text,
      the stripped rest after the `=` run, starts with a lowercase first word. Besides
      it, a line can only get the missing-space error. */
  lemma FormatLineCaseIff(line: string, lineNum: nat)
    ensures CaseFinding(line, lineNum) in FormatLine(line, lineNum) <==>
      Considered(line) && FirstWordStartsLower(Strip(line[LeadingRun(line, '=')..]))
    ensures forall f :: f in FormatLine(line, lineNum) ==>
      f == MissingSpaceFinding(LeadingRun(line, '='), line, lineNum) || f == CaseFinding(line, lineNum)
  {
    if Considered(line) {
      ConsideredRun(line);
      FormatLineConsidered(line, lineNum);
    }
  }

  /** A line starting with `=` that holds a character that is neither whitespace nor
      `=` is not an underline. */
  lemma NotUnderline(line: string, i: nat)
    requires StartsWithEquals(line)
    requires i < |line| && !IsSpace(line[i]) && line[i] != '='
    ensures !IsUnderline(line)
  {
    StripOfEqualsLine(line);
    assert i < |Strip(line)|;
    assert Strip(line)[i] == line[i];
  }

  /** When the character after the `=` run is a lowercase letter, so is the first
      character of the stripped heading text. */
  lemma HeadingTextStartsLower(line: string, k: nat)
    requires k < |line| && IsLower(line[k])
    ensures FirstWordStartsLower(Strip(line[k..]))
  {
    var rest := line[k..];
    assert !IsSpace(rest[0]);
    StripKeepsFirst(rest);
    StripKeepsFirst(Strip(rest));
  }

  lemma FormatLineConsidered(line: string, lineNum: nat)
    requires Considered(line)
    ensures FormatLine(line, lineNum) == LevelFindings(line, LeadingRun(line, '='), lineNum)
  {
  }

  lemma LowercaseNotUnderline(line: string, k: nat)
    requires StartsWithEquals(line) && k == LeadingRun(line, '=')
    requires k < |line| && IsLower(line[k])
    ensures !IsUnderline(line)
  {
    assert !IsSpace(line[k]);
    NotUnderline(line, k);
  }

  lemma LowercaseLevelFindings(line: string, k: nat, lineNum: nat)
    requires 0 < k < |line| && IsLower(line[k])
    ensures LevelFindings(line, k, lineNum) == [MissingSpaceFinding(k, line, lineNum), CaseFinding(line, lineNum)]
  {
    HeadingTextStartsLower(line, k);
  }

  /** A line whose `=` run is followed directly by a lowercase letter gets both findings,
      the error first. */
  lemma FormatLineLowercaseNoSpace(line: string, lineNum: nat)
    requires StartsWithEquals(line)
    requires LeadingRun(line, '=') < |line| && IsLower(line[LeadingRun(line, '=')])
    ensures FormatLine(line, lineNum) ==
      [MissingSpaceFinding(LeadingRun(line, '='), line, lineNum), CaseFinding(line, lineNum)]
  {
    var k := LeadingRun(line, '=');
    LowercaseNotUnderline(line, k);
    FormatLineConsidered(line, lineNum);
    LowercaseLevelFindings(line, k, lineNum);
  }

  function FormatNumbered(l: NumberedLine): seq<Finding> {
    FormatLine(l.text, l.number + 1)
  }

  /** `HeadingFormatRule.check`. */
  function FormatFindings(doc: seq<string>): seq<Finding> {
    FlatMap(Numbered(doc), FormatNumbered)
  }

  method CheckFormat(doc: seq<string>) returns (findings: seq<Finding>)
    ensures findings == FormatFindings(doc)
  {
    findings := [];
    var i := 0;
    while i < |doc|
      invariant i <= |doc|
      invariant findings == FormatFindings(doc[..i])
    {
      FormatFindingsSnoc(doc, i);
      var lineFindings := CheckFormatLine(doc[i], i + 1);
      findings := findings + lineFindings;
      i := i + 1;
    }
    assert doc[..i] == doc;
  }

  lemma FormatFindingsSnoc(doc: seq<string>, i: nat)
    requires i < |doc|
    ensures FormatFindings(doc[..i + 1]) == FormatFindings(doc[..i]) + FormatLine(doc[i], i + 1)
  {
    NumberedSnoc(doc, i);
    var lines := Numbered(doc[..i + 1]);
    assert lines[..i] == Numbered(doc[..i]);
  }

  /** The body of the loop in `HeadingFormatRule.check`, for one line. */
  method CheckFormatLine(line: string, lineNum: nat) returns (findings: seq<Finding>)
    ensures findings == FormatLine(line, lineNum)
  {
    findings := [];
    if !StartsWithEquals(line) {
      return;
    }
    if IsUnderline(line) {
      return;
    }
    var level := CountLevel(line);
    FormatLineConsidered(line, lineNum);
    var headingText := Strip(line[level..]);
    if level > 0 && (|line| <= level || line[level] != ' ') {
      findings := findings + [MissingSpaceFinding(level, line, lineNum)];
    }
    if headingText != [] && FirstWordStartsLower(headingText) {
      findings := findings + [CaseFinding(line, lineNum)];
    }
  }

  /** A two-line document gets the findings of its first line, then those of its
      second. */
  lemma FormatFindingsTwoLines(a: string, b: string)
    ensures FormatFindings([a, b]) == FormatLine(a, 1) + FormatLine(b, 2)
  {
    var lines := Numbered([a, b]);
    assert lines == [NumberedLine(0, a), NumberedLine(1, b)];
    FlatMapPair(NumberedLine(0, a), NumberedLine(1, b), FormatNumbered);
  }

  /** A line made of `k` characters `=` followed directly by a lowercase letter gets
      both findings, the error naming `k` characters `=`: `=level 1` gives "Missing
      space after =" and the uppercase warning, `==level 2` "Missing space after ==" and
      the uppercase warning (with `FormatFindingsTwoLines`, the two-line document gives
      those four findings in that order). */
  lemma RunThenLowercase(line: string, k: nat, lineNum: nat)
    requires 0 < k < |line| && IsLower(line[k])
    requires forall i :: 0 <= i < k ==> line[i] == '='
    ensures FormatLine(line, lineNum) == [MissingSpaceFinding(k, line, lineNum), CaseFinding(line, lineNum)]
  {
    LeadingRunIs(line, '=', k);
    FormatLineLowercaseNoSpace(line, lineNum);
  }

  /** Positions are 1-based line numbers of the document. */
  lemma FormatFindingsShape(doc: seq<string>)
    ensures |FormatFindings(doc)| <= 2 * |doc|
    ensures forall f :: f in FormatFindings(doc) ==>
      f.ruleId == Some(FormatRuleId) && 1 <= f.Line() <= |doc| && Considered(doc[f.Line() - 1])
  {
    var lines := Numbered(doc);
    FlatMapLength(lines, FormatNumbered, 2);
    forall f | f in FormatFindings(doc)
      ensures f.ruleId == Some(FormatRuleId) && 1 <= f.Line() <= |doc| && Considered(doc[f.Line() - 1])
    {
      FormatFindingShape(doc, f);
    }
  }

  lemma FormatFindingShape(doc: seq<string>, f: Finding)
    requires f in FormatFindings(doc)
    ensures f.ruleId == Some(FormatRuleId) && 1 <= f.Line() <= |doc| && Considered(doc[f.Line() - 1])
  {
    var lines := Numbered(doc);
    FlatMapMember(lines, FormatNumbered, f);
    var l :| l in lines && f in FormatNumbered(l);
    NumberedMember(doc, l);
    FormatLineFinding(l.text, l.number + 1, f);
  }

  lemma FormatLineFinding(line: string, lineNum: nat, f: Finding)
    requires f in FormatLine(line, lineNum)
    ensures f.ruleId == Some(FormatRuleId) && f.Line() == lineNum && Considered(line)
  {
  }

  /** The two revisions part ways on underlines: `====` is skipped here but reported as
      a missing space by the regular-expression revision. */
  lemma RevisionsDisagreeOnUnderlines(line: string, lineNum: nat)
    requires line != [] && AllChar(line, '=')
    ensures FormatLine(line, lineNum + 1) == []
    ensures HeadingRules.FormatLine(line, lineNum) == [HeadingRules.MissingSpaceFinding(line, line, lineNum)]
  {
    StripOfEqualsLine(line);
    HeadingRules.FormatLineAllEquals(line, lineNum);
  }

  // ---------------------------------------------------------------------------------
  // HEAD001: heading incrementation
  // ---------------------------------------------------------------------------------

  /** A heading the incrementation rule takes into account: its level and 1-based line. */
  datatype Title = Title(level: nat, lineNum: nat, text: string)

  /** The incrementation rule's own test: starts with `=` and the `=` run is not the
      whole stripped line. */
  predicate CountsAsTitle(line: string) {
    StartsWithEquals(line) && LeadingRun(line, '=') != |Strip(line)|
  }

  function TitleAt(l: NumberedLine): seq<Title> {
    if CountsAsTitle(l.text) then [Title(LeadingRun(l.text, '='), l.number + 1, l.text)] else []
  }

  function Titles(doc: seq<string>): seq<Title> {
    FlatMap(Numbered(doc), TitleAt)
  }

  function IncrementFinding(t: Title, current: nat): Finding {
    Finding("Heading level skipped: found h" + NatToString(t.level) + " after h" + NatToString(current),
      Error, Position(t.lineNum), Some(IncrementationRuleId), Some(LineText(Strip(t.text))))
  }

  /** Title `k` jumps more than one level below title `k - 1`. */
  predicate Skips(ts: seq<Title>, k: nat)
    requires 1 <= k < |ts|
  {
    ts[k].level > ts[k - 1].level + 1
  }

  /** The findings after the titles `ts`: the first sets the level, each later one is
      compared with the one before. */
  function IncrementFindings(ts: seq<Title>): seq<Finding> {
    if |ts| <= 1 then []
    else
      var n := |ts| - 1;
      IncrementFindings(ts[..n]) + (if Skips(ts, n) then [IncrementFinding(ts[n], ts[n - 1].level)] else [])
  }

  /** `HeadingIncrementationRule.check`. */
  function IncrementationFindings(doc: seq<string>): seq<Finding> {
    IncrementFindings(Titles(doc))
  }

  lemma IncrementFindingsSnoc(ts: seq<Title>, t: Title, current: nat)
    requires ts == [] ==> current == 0
    requires ts != [] ==> current == ts[|ts| - 1].level >= 1
    ensures IncrementFindings(ts + [t]) == IncrementFindings(ts)
      + (if current != 0 && t.level > current + 1 then [IncrementFinding(t, current)] else [])
  {
    var s := ts + [t];
    assert s[..|ts|] == ts;
    if ts != [] {
      assert s[|ts|] == t && s[|ts| - 1] == ts[|ts| - 1];
      assert Skips(s, |ts|) <==> t.level > current + 1;
    }
  }

  method CheckIncrementation(doc: seq<string>) returns (findings: seq<Finding>)
    ensures findings == IncrementationFindings(doc)
  {
    findings := [];
    var currentLevel: nat := 0;
    var lastHeadingLine: nat := 0;
    var i := 0;
    while i < |doc|
      invariant i <= |doc|
      invariant findings == IncrementFindings(Titles(doc[..i]))
      invariant var ts := Titles(doc[..i]);
        && (ts == [] ==> currentLevel == 0)
        && (ts != [] ==> currentLevel == ts[|ts| - 1].level >= 1)
    {
      ghost var ts := Titles(doc[..i]);
      TitlesSnoc(doc, i);
      var line := doc[i];
      var lineNum := i + 1;
      i := i + 1;
      if !StartsWithEquals(line) {
        assert Titles(doc[..i]) == ts;
        continue;
      }
      var level := CountLevel(line);
      if level == |Strip(line)| {
        assert Titles(doc[..i]) == ts;
        continue;
      }
      var t := Title(level, lineNum, line);
      assert Titles(doc[..i]) == ts + [t];
      IncrementFindingsSnoc(ts, t, currentLevel);
      if currentLevel == 0 {
        currentLevel := level;
        lastHeadingLine := lineNum;
        continue;
      }
      if level > currentLevel + 1 {
        findings := findings + [IncrementFinding(t, currentLevel)];
      }
      currentLevel := level;
      lastHeadingLine := lineNum;
    }
    assert doc[..i] == doc;
  }

  lemma TitlesSnoc(doc: seq<string>, i: nat)
    requires i < |doc|
    ensures Titles(doc[..i + 1]) == Titles(doc[..i])
      + (if CountsAsTitle(doc[i]) then [Title(LeadingRun(doc[i], '='), i + 1, doc[i])] else [])
  {
    NumberedSnoc(doc, i);
    var lines := Numbered(doc[..i + 1]);
    assert lines[..i] == Numbered(doc[..i]);
  }

  /** The titles are exactly the lines that count as titles, at least level 1, at their
      1-based line numbers. */
  lemma TitlesExact(doc: seq<string>)
    ensures var ts := Titles(doc);
      && (forall k :: 0 <= k < |ts| ==>
            1 <= ts[k].lineNum <= |doc| && doc[ts[k].lineNum - 1] == ts[k].text
            && CountsAsTitle(ts[k].text) && ts[k].level == LeadingRun(ts[k].text, '=') >= 1)
      && (forall n :: 0 <= n < |doc| && CountsAsTitle(doc[n]) ==>
            exists k :: 0 <= k < |ts| && ts[k].lineNum == n + 1)
  {
    var ts := Titles(doc);
    forall k | 0 <= k < |ts|
      ensures 1 <= ts[k].lineNum <= |doc| && doc[ts[k].lineNum - 1] == ts[k].text
        && CountsAsTitle(ts[k].text) && ts[k].level == LeadingRun(ts[k].text, '=') >= 1
    {
      TitleSound(doc, k);
    }
    forall n | 0 <= n < |doc| && CountsAsTitle(doc[n])
      ensures exists k :: 0 <= k < |ts| && ts[k].lineNum == n + 1
    {
      TitleComplete(doc, n);
    }
  }

  lemma TitleSound(doc: seq<string>, k: nat)
    requires k < |Titles(doc)|
    ensures var t := Titles(doc)[k];
      1 <= t.lineNum <= |doc| && doc[t.lineNum - 1] == t.text
      && CountsAsTitle(t.text) && t.level == LeadingRun(t.text, '=') >= 1
  {
    var lines := Numbered(doc);
    FlatMapFrom(lines, TitleAt, k);
    var j :| 0 <= j < |lines| && Titles(doc)[k] in TitleAt(lines[j]);
    assert lines[j] == NumberedLine(j, doc[j]);
    assert TitleAt(lines[j]) == [Titles(doc)[k]];
  }

  lemma TitleComplete(doc: seq<string>, n: nat)
    requires n < |doc| && CountsAsTitle(doc[n])
    ensures exists k :: 0 <= k < |Titles(doc)| && Titles(doc)[k].lineNum == n + 1
  {
    var lines := Numbered(doc);
    var t := Title(LeadingRun(doc[n], '='), n + 1, doc[n]);
    assert lines[n] == NumberedLine(n, doc[n]);
    assert t in TitleAt(lines[n]);
    FlatMapHas(lines, TitleAt, n, t);
    var k :| 0 <= k < |Titles(doc)| && Titles(doc)[k] == t;
  }

  /**
   * The first title is the baseline and is never flagged; a later title is flagged,
   * once, exactly when its level exceeds the previous title's level by more than one,
   * and the baseline moves to every title, flagged or not.
   */
  lemma IncrementFindingsIff(ts: seq<Title>)
    ensures |IncrementFindings(ts)| <= if ts == [] then 0 else |ts| - 1
    ensures forall f :: f in IncrementFindings(ts) <==>
      exists k :: 1 <= k < |ts| && Skips(ts, k) && f == IncrementFinding(ts[k], ts[k - 1].level)
  {
    IncrementFindingsCount(ts);
    forall f | f in IncrementFindings(ts)
      ensures exists k :: 1 <= k < |ts| && Skips(ts, k) && f == IncrementFinding(ts[k], ts[k - 1].level)
    {
      IncrementFindingSound(ts, f);
    }
    forall f, k | 1 <= k < |ts| && Skips(ts, k) && f == IncrementFinding(ts[k], ts[k - 1].level)
      ensures f in IncrementFindings(ts)
    {
      IncrementFindingComplete(ts, k);
    }
  }

  /** The last title contributes its own finding, if any, after the earlier ones'. */
  lemma IncrementFindingsLast(ts: seq<Title>)
    requires |ts| > 1
    ensures var n := |ts| - 1;
      IncrementFindings(ts) == IncrementFindings(ts[..n])
        + (if Skips(ts, n) then [IncrementFinding(ts[n], ts[n - 1].level)] else [])
  {
  }

  lemma {:induction false} IncrementFindingsCount(ts: seq<Title>)
    ensures |IncrementFindings(ts)| <= if ts == [] then 0 else |ts| - 1
  {
    if |ts| > 1 {
      IncrementFindingsCount(ts[..|ts| - 1]);
      IncrementFindingsLast(ts);
    }
  }

  lemma {:induction false} IncrementFindingSound(ts: seq<Title>, f: Finding)
    requires f in IncrementFindings(ts)
    ensures exists k :: 1 <= k < |ts| && Skips(ts, k) && f == IncrementFinding(ts[k], ts[k - 1].level)
  {
    var n := |ts| - 1;
    var ts' := ts[..n];
    IncrementFindingsLast(ts);
    if f in IncrementFindings(ts') {
      IncrementFindingSound(ts', f);
      var k :| 1 <= k < |ts'| && Skips(ts', k) && f == IncrementFinding(ts'[k], ts'[k - 1].level);
      assert ts[k] == ts'[k] && ts[k - 1] == ts'[k - 1];
    } else {
      assert Skips(ts, n) && f == IncrementFinding(ts[n], ts[n - 1].level);
    }
  }

  lemma {:induction false} IncrementFindingComplete(ts: seq<Title>, k: nat)
    requires 1 <= k < |ts| && Skips(ts, k)
    ensures IncrementFinding(ts[k], ts[k - 1].level) in IncrementFindings(ts)
  {
    var n := |ts| - 1;
    var ts' := ts[..n];
    IncrementFindingsLast(ts);
    if k < n {
      assert ts[k] == ts'[k] && ts[k - 1] == ts'[k - 1];
      IncrementFindingComplete(ts', k);
    }
  }

  // ---------------------------------------------------------------------------------
  // HEAD003: a single top-level heading
  // ---------------------------------------------------------------------------------

  /** A considered line whose `=` run has length exactly 1. */
  predicate IsTopLevel(line: string) {
    Considered(line) && LeadingRun(line, '=') == 1
  }

  /** The remembered first top-level heading: its 1-based line and its text after the
      `=`, stripped. */
  datatype Anchor = Anchor(lineNum: nat, text: string)

  function AnchorOf(l: NumberedLine): Anchor {
    Anchor(l.number + 1, Strip(if l.text == [] then [] else l.text[1..]))
  }

  function TopLevelFinding(first: Anchor, l: NumberedLine): Finding {
    Finding("Multiple top-level headings found. First heading at line " + NatToString(first.lineNum)
      + ": '" + first.text + "'",
      Error, Position(l.number + 1), Some(TopLevelRuleId), Some(LineText(Strip(l.text))))
  }

  predicate TopLevelLine(l: NumberedLine) {
    IsTopLevel(l.text)
  }

  /** The finding for top-level line `l`, given the first top-level line. */
  function Cite(first: NumberedLine, l: NumberedLine): Finding {
    TopLevelFinding(AnchorOf(first), l)
  }

  /** `MultipleTopLevelHeadingsRule.check`. */
  function MultipleTopLevelFindings(doc: seq<string>): seq<Finding> {
    Later(Numbered(doc), TopLevelLine, Cite)
  }

  method CheckTopLevel(doc: seq<string>) returns (findings: seq<Finding>)
    ensures findings == MultipleTopLevelFindings(doc)
  {
    var lines := Numbered(doc);
    findings := [];
    var firstTopLevel: Option<Anchor> := None;
    var i := 0;
    while i < |doc|
      invariant i <= |doc|
      invariant findings == Later(lines[..i], TopLevelLine, Cite)
      invariant firstTopLevel.None? <==> First(lines[..i], TopLevelLine).None?
      invariant firstTopLevel.Some? ==> firstTopLevel.value == AnchorOf(First(lines[..i], TopLevelLine).value)
    {
      LaterStep(lines, i, TopLevelLine, Cite);
      var line := doc[i];
      assert lines[i] == NumberedLine(i, line);
      var lineNum := i + 1;
      i := i + 1;
      if !StartsWithEquals(line) {
        continue;
      }
      if IsUnderline(line) {
        continue;
      }
      var level := CountLevel(line);
      if level == 1 {
        var headingText := Strip(line[level..]);
        if firstTopLevel.None? {
          firstTopLevel := Some(Anchor(lineNum, headingText));
        } else {
          findings := findings + [TopLevelFinding(firstTopLevel.value, lines[i - 1])];
        }
      }
    }
    assert lines[..i] == lines;
  }

  /** Line `j` is the first top-level line of `doc`. */
  predicate FirstTopLevelAt(doc: seq<string>, j: nat) {
    j < |doc| && IsTopLevel(doc[j]) && forall i :: 0 <= i < j ==> !IsTopLevel(doc[i])
  }

  /** One finding of the document, read back in terms of its lines. */
  lemma TopLevelFindingOfDoc(doc: seq<string>, j: nat, k: nat)
    requires j < k < |doc|
    requires First(Numbered(doc), TopLevelLine) == Some(Numbered(doc)[j])
    requires TopLevelLine(Numbered(doc)[k])
    ensures FirstTopLevelAt(doc, j) && IsTopLevel(doc[k])
    ensures Cite(Numbered(doc)[j], Numbered(doc)[k])
      == TopLevelFinding(Anchor(j + 1, Strip(doc[j][1..])), NumberedLine(k, doc[k]))
  {
    var ls := Numbered(doc);
    assert ls[j] == NumberedLine(j, doc[j]) && ls[k] == NumberedLine(k, doc[k]);
    FirstSpec(ls, TopLevelLine);
    var j' :| 0 <= j' < |ls| && ls[j] == ls[j'] && TopLevelLine(ls[j'])
      && forall i :: 0 <= i < j' ==> !TopLevelLine(ls[i]);
    assert j' == j;
    forall i | 0 <= i < j
      ensures !IsTopLevel(doc[i])
    {
      assert ls[i].text == doc[i];
    }
  }

  /** A top-level line after the first one gets the finding that cites the first. */
  lemma TopLevelComplete(doc: seq<string>, j: nat, k: nat)
    requires j < k < |doc| && FirstTopLevelAt(doc, j) && IsTopLevel(doc[k])
    ensures TopLevelFinding(Anchor(j + 1, Strip(doc[j][1..])), NumberedLine(k, doc[k])) in MultipleTopLevelFindings(doc)
  {
    var ls := Numbered(doc);
    assert forall i :: 0 <= i < |doc| ==> ls[i] == NumberedLine(i, doc[i]);
    LaterComplete(ls, TopLevelLine, Cite, j, k);
  }

  /** Every finding cites the first top-level line and sits on a later top-level line. */
  lemma TopLevelSound(doc: seq<string>)
    ensures forall f :: f in MultipleTopLevelFindings(doc) ==>
      exists j: nat, k: nat :: (j < k < |doc| && FirstTopLevelAt(doc, j) && IsTopLevel(doc[k])
        && f == TopLevelFinding(Anchor(j + 1, Strip(doc[j][1..])), NumberedLine(k, doc[k])))
  {
    var ls := Numbered(doc);
    LaterCiteFirst(ls, TopLevelLine, Cite);
    forall f | f in MultipleTopLevelFindings(doc)
      ensures exists j: nat, k: nat :: (j < k < |doc| && FirstTopLevelAt(doc, j) && IsTopLevel(doc[k])
        && f == TopLevelFinding(Anchor(j + 1, Strip(doc[j][1..])), NumberedLine(k, doc[k])))
    {
      var j, k :| 0 <= j < k < |ls| && First(ls, TopLevelLine) == Some(ls[j]) && TopLevelLine(ls[k])
        && f == Cite(ls[j], ls[k]);
      TopLevelFindingOfDoc(doc, j, k);
    }
  }

  /**
   * For a document: `t` level-1 headings give `t - 1` errors; the first one is never
   * flagged; each error is on a later level-1 heading and cites the first one's 1-based
   * line and its text after the `=`, stripped.
   */
  lemma MultipleTopLevelSpec(doc: seq<string>)
    ensures var t := |Filter(Numbered(doc), TopLevelLine)|;
      |MultipleTopLevelFindings(doc)| == if t == 0 then 0 else t - 1
    ensures forall f :: f in MultipleTopLevelFindings(doc) ==>
      exists j: nat, k: nat :: (j < k < |doc| && FirstTopLevelAt(doc, j) && IsTopLevel(doc[k])
        && f == TopLevelFinding(Anchor(j + 1, Strip(doc[j][1..])), NumberedLine(k, doc[k])))
    ensures forall j: nat, k: nat :: j < k < |doc| && FirstTopLevelAt(doc, j) && IsTopLevel(doc[k]) ==>
      TopLevelFinding(Anchor(j + 1, Strip(doc[j][1..])), NumberedLine(k, doc[k])) in MultipleTopLevelFindings(doc)
  {
    forall j: nat, k: nat | j < k < |doc| && FirstTopLevelAt(doc, j) && IsTopLevel(doc[k])
      ensures TopLevelFinding(Anchor(j + 1, Strip(doc[j][1..])), NumberedLine(k, doc[k])) in MultipleTopLevelFindings(doc)
    {
      TopLevelComplete(doc, j, k);
    }
    LaterCount(Numbered(doc), TopLevelLine, Cite);
    TopLevelSound(doc);
  }

  // ---------------------------------------------------------------------------------
  // All three rules together
  // ---------------------------------------------------------------------------------

  /** A document whose every line is empty, does not start with `=`, or is an underline
      gets no finding from any of the three rules. */
  lemma NoHeadingsNoFindings(doc: seq<string>)
    requires forall i :: 0 <= i < |doc| ==> !Considered(doc[i])
    ensures FormatFindings(doc) == []
    ensures IncrementationFindings(doc) == []
    ensures MultipleTopLevelFindings(doc) == []
  {
    var lines := Numbered(doc);
    forall l | l in lines
      ensures FormatNumbered(l) == [] && TitleAt(l) == [] && !TopLevelLine(l)
    {
      var j :| 0 <= j < |lines| && lines[j] == l;
      assert !Considered(l.text);
      if StartsWithEquals(l.text) {
        UnderlineTestsAgree(l.text);
      }
    }
    FlatMapNone(lines, FormatNumbered);
    FlatMapNone(lines, TitleAt);
    FilterNone(lines, TopLevelLine);
    LaterCount(lines, TopLevelLine, Cite);
  }
}
