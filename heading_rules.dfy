/**
 * The regular-expression revision of the three heading rules (HEAD001, HEAD002,
 * HEAD003). Each pattern is written out as the recogniser it amounts to on a single
 * line: `^(=+)(\s*)(.*)$`, `^(=+)\s` and `^=\s`.
 */
module HeadingRules {
  import opened Wrappers
  import opened Text
  import opened Seqs
  import opened Findings
  import opened Document
  import opened FirstOccurrence

  const FormatRuleId: string := "HEAD002"
  const HierarchyRuleId: string := "HEAD001"
  const TopLevelRuleId: string := "HEAD003"

  // ---------------------------------------------------------------------------------
  // HEAD002: heading format
  // ---------------------------------------------------------------------------------

  /** The three groups of `^(=+)(\s*)(.*)$`. */
  datatype HeadingMatch = HeadingMatch(equals: string, space: string, text: string)

  /** The length of the whitespace run that starts `s`. */
  function LeadingSpace(s: string): (n: nat)
    ensures n <= |s|
    ensures forall i :: 0 <= i < n ==> IsSpace(s[i])
    ensures n < |s| ==> !IsSpace(s[n])
  {
    if s != [] && IsSpace(s[0]) then 1 + LeadingSpace(s[1..]) else 0
  }

  /** The whitespace run that starts `s` ends where the first other character is. */
  lemma {:induction false} LeadingSpaceIs(s: string, n: nat)
    requires n <= |s|
    requires forall i :: 0 <= i < n ==> IsSpace(s[i])
    requires n == |s| || !IsSpace(s[n])
    ensures LeadingSpace(s) == n
  {
    if n > 0 {
      LeadingSpaceIs(s[1..], n - 1);
    }
  }

  /** `^(=+)(\s*)(.*)$` matched against a line: the longest `=` run, the longest
      whitespace run after it, and the rest. */
  function MatchFormat(line: string): (r: Option<HeadingMatch>)
    ensures r.Some? <==> line != [] && line[0] == '='
  {
    if line == [] || line[0] != '=' then None
    else
      var k := LeadingRun(line, '=');
      var rest := line[k..];
      var w := LeadingSpace(rest);
      Some(HeadingMatch(line[..k], rest[..w], rest[w..]))
  }

  /** The pattern matches exactly the lines that start with `=`, and cuts them into a
      non-empty `=` run that cannot be extended, whitespace, and a rest that does not
      start with whitespace. */
  lemma MatchFormatSpec(line: string)
    requires line != [] && line[0] == '='
    ensures var m := MatchFormat(line).value;
      && line == m.equals + m.space + m.text
      && m.equals != [] && AllChar(m.equals, '=')
      && (|m.equals| < |line| ==> line[|m.equals|] != '=')
      && (forall i :: 0 <= i < |m.space| ==> IsSpace(m.space[i]))
      && (m.text != [] ==> !IsSpace(m.text[0]))
  {
    var k := LeadingRun(line, '=');
    var rest := line[k..];
    var w := LeadingSpace(rest);
    assert line == line[..k] + rest[..w] + rest[w..];
  }

  function MissingSpaceFinding(equals: string, line: string, lineNum: nat): Finding {
    Finding("Missing space after " + equals, Error, Position(lineNum + 1),
      Some(FormatRuleId), Some(LineText(line)))
  }

  function CaseFinding(line: string, lineNum: nat): Finding {
    Finding("Heading should start with uppercase letter", Warning, Position(lineNum + 1),
      Some(FormatRuleId), Some(LineText(line)))
  }

  /** `HeadingFormatRule.check_line`: a missing space after the `=` run is an error, a
      lowercase first word a warning. */
  function FormatLine(line: string, lineNum: nat): (r: seq<Finding>)
    ensures line == [] || line[0] != '=' ==> r == []
    ensures |r| <= 2
  {
    match MatchFormat(line)
    case None => []
    case Some(m) =>
      (if m.space == [] then [MissingSpaceFinding(m.equals, line, lineNum)] else [])
      + (if m.text != [] && FirstWordStartsLower(m.text) then [CaseFinding(line, lineNum)] else [])
  }

  /** Every finding of a line is a HEAD002 finding at that line's 1-based number. */
  lemma FormatLineAt(line: string, lineNum: nat)
    ensures forall f :: f in FormatLine(line, lineNum) ==>
      f.ruleId == Some(FormatRuleId) && f.position == Position(lineNum + 1)
  {
  }

  /** The first character after the `=` run is not whitespace (or there is none). */
  predicate NoSpaceAfterRun(line: string) {
    var k := LeadingRun(line, '=');
    k == |line| || !IsSpace(line[k])
  }

  /** The missing-space error is given exactly when the `=` run is not followed by
      whitespace; it names the run, and it is the only error of the line. */
  lemma FormatLineMissingSpace(line: string, lineNum: nat)
    requires line != [] && line[0] == '='
    ensures var k := LeadingRun(line, '=');
      MissingSpaceFinding(line[..k], line, lineNum) in FormatLine(line, lineNum) <==> NoSpaceAfterRun(line)
    ensures var k := LeadingRun(line, '=');
      forall f :: f in FormatLine(line, lineNum) && f.severity == Error ==>
        f == MissingSpaceFinding(line[..k], line, lineNum)
  {
    var m := MatchFormat(line).value;
    SpaceGroupEmpty(line);
    var missing := MissingSpaceFinding(m.equals, line, lineNum);
    assert missing.severity == Error && CaseFinding(line, lineNum).severity == Warning;
  }

  /** A line gets no finding other than the missing-space error and the case warning. */
  lemma FormatLineNothingElse(line: string, lineNum: nat)
    ensures var k := LeadingRun(line, '=');
      forall f :: f in FormatLine(line, lineNum) ==>
        f == MissingSpaceFinding(line[..k], line, lineNum) || f == CaseFinding(line, lineNum)
  {
    if line != [] && line[0] == '=' {
      SpaceGroupEmpty(line);
    }
  }

  /** The whitespace group is empty exactly when no whitespace follows the `=` run, and
      the `=` group is that run. */
  lemma SpaceGroupEmpty(line: string)
    requires line != [] && line[0] == '='
    ensures MatchFormat(line).value.space == [] <==> NoSpaceAfterRun(line)
    ensures MatchFormat(line).value.equals == line[..LeadingRun(line, '=')]
  {
    var k := LeadingRun(line, '=');
    var rest := line[k..];
    var w := LeadingSpace(rest);
    assert |rest[..w]| == w;
    assert rest != [] ==> rest[0] == line[k];
  }

  /** Where the heading text starts: after the `=` run and the whitespace that follows
      it. */
  function TextStart(line: string): (t: nat)
    ensures t <= |line|
  {
    var k := LeadingRun(line, '=');
    k + LeadingSpace(line[k..])
  }

  /** The first character after the `=` run and the whitespace after it is a lowercase
      letter. */
  predicate LowercaseAfterRun(line: string) {
    TextStart(line) < |line| && IsLower(line[TextStart(line)])
  }

  /** The case warning is given exactly when the heading text after the whitespace
      starts with a lowercase letter; empty heading text never gets it. */
  lemma FormatLineCase(line: string, lineNum: nat)
    requires line != [] && line[0] == '='
    ensures CaseFinding(line, lineNum) in FormatLine(line, lineNum) <==> LowercaseAfterRun(line)
  {
    var m := MatchFormat(line).value;
    MatchFormatSpec(line);
    TextStartIsMatchText(line);
    CaseFindingOfMatch(line, lineNum);
    StartsLowerWhenNoSpace(m.text);
  }

  /** The heading text group starts where `TextStart` says. */
  lemma TextStartIsMatchText(line: string)
    requires line != [] && line[0] == '='
    ensures line[TextStart(line)..] == MatchFormat(line).value.text
  {
    var m := MatchFormat(line).value;
    MatchFormatSpec(line);
    var k := LeadingRun(line, '=');
    assert |m.equals| == k;
    assert line[k..] == m.space + m.text;
    LeadingSpaceIs(line[k..], |m.space|);
  }

  /** On a matching line, the case warning is given exactly when the text group is
      non-empty and its first word starts lowercase. */
  lemma CaseFindingOfMatch(line: string, lineNum: nat)
    requires line != [] && line[0] == '='
    ensures var m := MatchFormat(line).value;
      CaseFinding(line, lineNum) in FormatLine(line, lineNum) <==> m.text != [] && FirstWordStartsLower(m.text)
  {
    var m := MatchFormat(line).value;
    assert MissingSpaceFinding(m.equals, line, lineNum) != CaseFinding(line, lineNum);
  }

  /** For text that does not start with whitespace, the first word starts lowercase
      exactly when its first character is lowercase. */
  lemma StartsLowerWhenNoSpace(t: string)
    requires t != [] ==> !IsSpace(t[0])
    ensures t != [] && FirstWordStartsLower(t) <==> t != [] && IsLower(t[0])
  {
    if t != [] {
      StripKeepsFirst(t);
    }
  }

  /** A line made of `=` characters only, such as `====`, is reported as a heading with
      no space after its markers, and nothing else. */
  lemma FormatLineAllEquals(line: string, lineNum: nat)
    requires line != [] && AllChar(line, '=')
    ensures FormatLine(line, lineNum) == [MissingSpaceFinding(line, line, lineNum)]
  {
    LeadingRunIs(line, '=', |line|);
    assert line[..|line|] == line && line[|line|..] == [];
  }

  /** The findings of line `l.number`. */
  function FormatNumbered(l: NumberedLine): seq<Finding> {
    FormatLine(l.text, l.number)
  }

  /** `HeadingFormatRule.check`: every line's findings, in order. */
  function FormatFindings(doc: seq<string>): seq<Finding> {
    FlatMap(Numbered(doc), FormatNumbered)
  }

  method CheckFormat(doc: seq<string>) returns (findings: seq<Finding>)
    ensures findings == FormatFindings(doc)
  {
    var lines := Numbered(doc);
    findings := [];
    var i := 0;
    while i < |doc|
      invariant i <= |doc|
      invariant findings == FlatMap(lines[..i], FormatNumbered)
    {
      FlatMapSnoc(lines, i, FormatNumbered);
      findings := findings + FormatLine(doc[i], i);
      i := i + 1;
    }
    assert lines[..i] == lines;
  }

  /** HEAD002 findings sit on 1-based lines of the document, at most two per line, and
      only on lines that start with `=`. */
  lemma FormatFindingsShape(doc: seq<string>)
    ensures |FormatFindings(doc)| <= 2 * |doc|
    ensures forall f :: f in FormatFindings(doc) ==>
      && f.ruleId == Some(FormatRuleId)
      && 1 <= f.Line() <= |doc|
      && doc[f.Line() - 1] != [] && doc[f.Line() - 1][0] == '='
  {
    var lines := Numbered(doc);
    FlatMapLength(lines, FormatNumbered, 2);
    forall f | f in FormatFindings(doc)
      ensures && f.ruleId == Some(FormatRuleId)
              && 1 <= f.Line() <= |doc|
              && doc[f.Line() - 1] != [] && doc[f.Line() - 1][0] == '='
    {
      FlatMapMember(lines, FormatNumbered, f);
      var l :| l in lines && f in FormatNumbered(l);
      var j :| 0 <= j < |lines| && lines[j] == l;
      assert l == NumberedLine(j, doc[j]);
      FormatLineAt(doc[j], j);
      assert f.Line() == j + 1 && FormatLine(doc[j], j) != [];
    }
  }

  // ---------------------------------------------------------------------------------
  // HEAD001: heading hierarchy
  // ---------------------------------------------------------------------------------

  /** The `(level, line_num, line)` triples `get_heading_levels` collects. */
  datatype Heading = Heading(level: nat, number: nat, text: string)

  /** `^(=+)\s`: the level of a heading line, which is an `=` run followed by
      whitespace. */
  function HeadingLevel(line: string): (r: Option<nat>)
    ensures r.Some? <==> exists k :: 1 <= k < |line| && AllChar(line[..k], '=') && IsSpace(line[k])
    ensures r.Some? ==> 1 <= r.value < |line| && AllChar(line[..r.value], '=') && IsSpace(line[r.value])
    ensures AllChar(line, '=') ==> r == None
  {
    var k := LeadingRun(line, '=');
    if 1 <= k < |line| && IsSpace(line[k]) then Some(k) else None
  }

  function HeadingAt(l: NumberedLine): seq<Heading> {
    match HeadingLevel(l.text)
    case None => []
    case Some(level) => [Heading(level, l.number, l.text)]
  }

  /** The headings of a document, in line order. */
  function Headings(doc: seq<string>): seq<Heading> {
    FlatMap(Numbered(doc), HeadingAt)
  }

  /** `get_heading_levels`. */
  method GetHeadingLevels(doc: seq<string>) returns (headings: seq<Heading>)
    ensures headings == Headings(doc)
  {
    var lines := Numbered(doc);
    headings := [];
    var i := 0;
    while i < |doc|
      invariant i <= |doc|
      invariant headings == FlatMap(lines[..i], HeadingAt)
    {
      FlatMapSnoc(lines, i, HeadingAt);
      var level := HeadingLevel(doc[i]);
      if level.Some? {
        headings := headings + [Heading(level.value, i, doc[i])];
      }
      i := i + 1;
    }
    assert lines[..i] == lines;
  }

  /**
   * The headings are exactly the lines that match `^(=+)\s`, in strictly increasing
   * line order, each with its line's text and `=` count.
   */
  lemma HeadingsExact(doc: seq<string>)
    ensures var hs := Headings(doc);
      && (forall k :: 0 <= k < |hs| ==>
            hs[k].number < |doc| && doc[hs[k].number] == hs[k].text
            && HeadingLevel(hs[k].text) == Some(hs[k].level) && hs[k].level >= 1)
      && (forall k, k' :: 0 <= k < k' < |hs| ==> hs[k].number < hs[k'].number)
      && (forall n :: 0 <= n < |doc| && HeadingLevel(doc[n]).Some? ==>
            exists k :: 0 <= k < |hs| && hs[k].number == n)
  {
    var lines, hs := Numbered(doc), Headings(doc);
    forall k | 0 <= k < |hs|
      ensures hs[k].number < |doc| && doc[hs[k].number] == hs[k].text
        && HeadingLevel(hs[k].text) == Some(hs[k].level) && hs[k].level >= 1
    {
      FlatMapFrom(lines, HeadingAt, k);
    }
    FlatMapOrdered(lines, HeadingAt, (h: Heading) => h.number as int);
    forall n | 0 <= n < |doc| && HeadingLevel(doc[n]).Some?
      ensures exists k :: 0 <= k < |hs| && hs[k].number == n
    {
      var h := Heading(HeadingLevel(doc[n]).value, n, doc[n]);
      FlatMapHas(lines, HeadingAt, n, h);
    }
  }

  function SkipFinding(h: Heading, previous: nat): Finding {
    Finding("Heading level skipped: found h" + NatToString(h.level) + " after h" + NatToString(previous),
      Error, Position(h.number + 1), Some(HierarchyRuleId), Some(LineText(h.text)))
  }

  /** Heading `k` jumps more than one level below heading `k - 1`. */
  predicate Skips(hs: seq<Heading>, k: nat)
    requires 1 <= k < |hs|
  {
    hs[k].level > hs[k - 1].level + 1
  }

  /** The findings of the comparison loop after `|hs|` headings, each heading compared
      with the one before it. */
  function SkipFindings(hs: seq<Heading>): seq<Finding>
  {
    if |hs| <= 1 then []
    else
      var n := |hs| - 1;
      SkipFindings(hs[..n]) + (if Skips(hs, n) then [SkipFinding(hs[n], hs[n - 1].level)] else [])
  }

  lemma SkipFindingsSnoc(hs: seq<Heading>, i: nat)
    requires 1 <= i < |hs|
    ensures SkipFindings(hs[..i + 1]) ==
      SkipFindings(hs[..i]) + (if Skips(hs, i) then [SkipFinding(hs[i], hs[i - 1].level)] else [])
  {
    assert hs[..i + 1][..i] == hs[..i];
  }

  /** `HeadingHierarchyRule.check`. */
  function HierarchyFindings(doc: seq<string>): seq<Finding> {
    SkipFindings(Headings(doc))
  }

  method CheckHierarchy(doc: seq<string>) returns (findings: seq<Finding>)
    ensures findings == HierarchyFindings(doc)
  {
    findings := [];
    var headings := GetHeadingLevels(doc);
    if |headings| == 0 {
      return;
    }
    var currentLevel := headings[0].level;
    var i := 1;
    while i < |headings|
      invariant 1 <= i <= |headings|
      invariant currentLevel == headings[i - 1].level
      invariant findings == SkipFindings(headings[..i])
    {
      SkipFindingsSnoc(headings, i);
      var h := headings[i];
      if h.level > currentLevel + 1 {
        findings := findings + [SkipFinding(h, currentLevel)];
      }
      currentLevel := h.level;
      i := i + 1;
    }
    assert headings[..i] == headings;
  }

  /**
   * A finding is produced for heading `k` exactly when it is not the first one and its
   * level exceeds the level of the heading just before it by more than one; a heading
   * that keeps, lowers or raises the level by one is never flagged. The findings come
   * in heading order, at most one per heading after the first.
   */
  lemma {:induction false} SkipFindingsIff(hs: seq<Heading>)
    ensures |SkipFindings(hs)| <= if hs == [] then 0 else |hs| - 1
    ensures forall f :: f in SkipFindings(hs) <==>
      exists k :: 1 <= k < |hs| && Skips(hs, k) && f == SkipFinding(hs[k], hs[k - 1].level)
  {
    if |hs| > 1 {
      var n := |hs| - 1;
      var hs' := hs[..n];
      SkipFindingsIff(hs');
      var last := if Skips(hs, n) then [SkipFinding(hs[n], hs[n - 1].level)] else [];
      assert SkipFindings(hs) == SkipFindings(hs') + last;
      forall f | f in SkipFindings(hs)
        ensures exists k :: 1 <= k < |hs| && Skips(hs, k) && f == SkipFinding(hs[k], hs[k - 1].level)
      {
        if f in SkipFindings(hs') {
          var k :| 1 <= k < |hs'| && Skips(hs', k) && f == SkipFinding(hs'[k], hs'[k - 1].level);
          assert hs[k] == hs'[k] && hs[k - 1] == hs'[k - 1];
        } else {
          assert f in last;
        }
      }
      forall f, k | 1 <= k < |hs| && Skips(hs, k) && f == SkipFinding(hs[k], hs[k - 1].level)
        ensures f in SkipFindings(hs)
      {
        if k < n {
          assert hs[k] == hs'[k] && hs[k - 1] == hs'[k - 1];
          assert Skips(hs', k);
        }
      }
    }
  }

  /** A document with no headings, or with one, has no hierarchy findings; the first
      heading of a document is never flagged; each finding is an error on a heading that
      skips a level. */
  lemma HierarchyFindingsSpec(doc: seq<string>)
    ensures |Headings(doc)| <= 1 ==> HierarchyFindings(doc) == []
    ensures forall f :: f in HierarchyFindings(doc) ==>
      && f.severity == Error && f.ruleId == Some(HierarchyRuleId)
      && f.Line() != Headings(doc)[0].number + 1
      && exists k :: 1 <= k < |Headings(doc)| && Skips(Headings(doc), k)
           && f.Line() == Headings(doc)[k].number + 1
  {
    var hs := Headings(doc);
    HeadingsExact(doc);
    SkipFindingsIff(hs);
    forall f | f in HierarchyFindings(doc)
      ensures && f.severity == Error && f.ruleId == Some(HierarchyRuleId)
              && f.Line() != hs[0].number + 1
              && exists k :: 1 <= k < |hs| && Skips(hs, k) && f.Line() == hs[k].number + 1
    {
      var k :| 1 <= k < |hs| && Skips(hs, k) && f == SkipFinding(hs[k], hs[k - 1].level);
      assert hs[0].number < hs[k].number;
    }
  }

  // ---------------------------------------------------------------------------------
  // HEAD003: a single top-level heading
  // ---------------------------------------------------------------------------------

  /** `^=\s`. */
  predicate IsTopLevel(line: string) {
    |line| >= 2 && line[0] == '=' && IsSpace(line[1])
  }

  /** What the rule remembers of the first top-level heading: its 1-based line and its
      stripped text. */
  datatype Anchor = Anchor(line: nat, text: string)

  function AnchorOf(l: NumberedLine): Anchor {
    Anchor(l.number + 1, Strip(l.text))
  }

  function TopLevelFinding(first: Anchor, l: NumberedLine): Finding {
    Finding("Multiple top-level headings found. First heading at line " + NatToString(first.line)
      + ": '" + first.text + "'",
      Error, Position(l.number + 1), Some(TopLevelRuleId), Some(LineText(l.text)))
  }

  predicate TopLevelLine(l: NumberedLine) {
    IsTopLevel(l.text)
  }

  /** The finding for top-level line `l`, given the first top-level line. */
  function Cite(first: NumberedLine, l: NumberedLine): Finding {
    TopLevelFinding(AnchorOf(first), l)
  }

  /** `MultipleTopLevelHeadingsRule.check`. */
  function MultipleTopLevelFindings(doc: seq<string>): seq<Finding> {
    Later(Numbered(doc), TopLevelLine, Cite)
  }

  method CheckTopLevel(doc: seq<string>) returns (findings: seq<Finding>)
    ensures findings == MultipleTopLevelFindings(doc)
  {
    var lines := Numbered(doc);
    findings := [];
    var firstTopLevel: Option<Anchor> := None;
    var i := 0;
    while i < |doc|
      invariant i <= |doc|
      invariant findings == Later(lines[..i], TopLevelLine, Cite)
      invariant firstTopLevel.None? <==> First(lines[..i], TopLevelLine).None?
      invariant firstTopLevel.Some? ==> firstTopLevel.value == AnchorOf(First(lines[..i], TopLevelLine).value)
    {
      LaterStep(lines, i, TopLevelLine, Cite);
      var line := doc[i];
      assert lines[i] == NumberedLine(i, line);
      if IsTopLevel(line) {
        if firstTopLevel.None? {
          firstTopLevel := Some(Anchor(i + 1, Strip(line)));
        } else {
          findings := findings + [TopLevelFinding(firstTopLevel.value, lines[i])];
        }
      }
      i := i + 1;
    }
    assert lines[..i] == lines;
  }

  /** The message that cites heading `j` of `doc` as the first top-level one. */
  function TopLevelMessage(doc: seq<string>, j: nat): string
    requires j < |doc|
  {
    "Multiple top-level headings found. First heading at line " + NatToString(j + 1)
      + ": '" + Strip(doc[j]) + "'"
  }

  /** Line `j` is the first top-level line of `doc`. */
  predicate FirstTopLevelAt(doc: seq<string>, j: nat) {
    j < |doc| && IsTopLevel(doc[j]) && forall i :: 0 <= i < j ==> !IsTopLevel(doc[i])
  }

  /** One finding of the document, read back in terms of its lines. */
  lemma TopLevelFindingOfDoc(doc: seq<string>, j: nat, k: nat)
    requires j < k < |doc|
    requires First(Numbered(doc), TopLevelLine) == Some(Numbered(doc)[j])
    ensures FirstTopLevelAt(doc, j)
    ensures var f := TopLevelFinding(AnchorOf(Numbered(doc)[j]), Numbered(doc)[k]);
      f.message == TopLevelMessage(doc, j) && f.Line() == k + 1 && f.severity == Error
  {
    var ls := Numbered(doc);
    FirstSpec(ls, TopLevelLine);
    var j' :| 0 <= j' < |ls| && ls[j] == ls[j'] && IsTopLevel(ls[j'].text)
      && forall i :: 0 <= i < j' ==> !IsTopLevel(ls[i].text);
    assert j' == j;
    forall i | 0 <= i < j
      ensures !IsTopLevel(doc[i])
    {
      assert ls[i].text == doc[i];
    }
  }

  /** A top-level line after the first one gets the finding that cites the first. */
  lemma TopLevelComplete(doc: seq<string>, j: nat, k: nat)
    requires j < k < |doc| && FirstTopLevelAt(doc, j) && IsTopLevel(doc[k])
    ensures TopLevelFinding(Anchor(j + 1, Strip(doc[j])), NumberedLine(k, doc[k])) in MultipleTopLevelFindings(doc)
  {
    var ls := Numbered(doc);
    assert forall i :: 0 <= i < |doc| ==> ls[i] == NumberedLine(i, doc[i]);
    LaterComplete(ls, TopLevelLine, Cite, j, k);
  }

  /** Every finding cites the first top-level line and sits on a later top-level line. */
  lemma TopLevelSound(doc: seq<string>)
    ensures forall f :: f in MultipleTopLevelFindings(doc) ==>
      exists j: nat, k: nat :: (j < k < |doc| && FirstTopLevelAt(doc, j) && IsTopLevel(doc[k])
        && f.severity == Error && f.Line() == k + 1 && f.message == TopLevelMessage(doc, j))
  {
    var ls := Numbered(doc);
    LaterCiteFirst(ls, TopLevelLine, Cite);
    forall f | f in MultipleTopLevelFindings(doc)
      ensures exists j: nat, k: nat :: (j < k < |doc| && FirstTopLevelAt(doc, j) && IsTopLevel(doc[k])
        && f.severity == Error && f.Line() == k + 1 && f.message == TopLevelMessage(doc, j))
    {
      var j, k :| 0 <= j < k < |ls| && First(ls, TopLevelLine) == Some(ls[j]) && TopLevelLine(ls[k])
        && f == Cite(ls[j], ls[k]);
      TopLevelFindingOfDoc(doc, j, k);
    }
  }

  /**
   * For a document: `t` top-level lines give `t - 1` errors; the first top-level line is
   * never flagged; each error is on a later top-level line and cites the first one.
   */
  lemma MultipleTopLevelSpec(doc: seq<string>)
    ensures var t := |Filter(Numbered(doc), TopLevelLine)|;
      |MultipleTopLevelFindings(doc)| == if t == 0 then 0 else t - 1
    ensures forall f :: f in MultipleTopLevelFindings(doc) ==>
      exists j: nat, k: nat :: (j < k < |doc| && FirstTopLevelAt(doc, j) && IsTopLevel(doc[k])
        && f.severity == Error && f.Line() == k + 1 && f.message == TopLevelMessage(doc, j))
    ensures forall j: nat, k: nat :: j < k < |doc| && FirstTopLevelAt(doc, j) && IsTopLevel(doc[k]) ==>
      TopLevelFinding(Anchor(j + 1, Strip(doc[j])), NumberedLine(k, doc[k])) in MultipleTopLevelFindings(doc)
  {
    forall j: nat, k: nat | j < k < |doc| && FirstTopLevelAt(doc, j) && IsTopLevel(doc[k])
      ensures TopLevelFinding(Anchor(j + 1, Strip(doc[j])), NumberedLine(k, doc[k])) in MultipleTopLevelFindings(doc)
    {
      TopLevelComplete(doc, j, k);
    }
    LaterCount(Numbered(doc), TopLevelLine, Cite);
    TopLevelSound(doc);
  }
}
