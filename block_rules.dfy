/**
 * The block rules. Both keep, in an instance field, the delimiters of the blocks they
 * consider open (delimiter to the 0-based line that opened it) and toggle it on every
 * delimiter line: BLOCK001 reports an opening delimiter that no later line closes,
 * BLOCK002 a delimiter that is not set off from its text by a blank line or a heading.
 */
module BlockRules {
  import opened Wrappers
  import opened Text
  import opened Findings

  const UnterminatedRuleId: string := "BLOCK001"
  const SpacingRuleId: string := "BLOCK002"

  /** The eight delimiters and the kind of block each one delimits. */
  const BlockKinds: map<string, string> := map[
    "----" := "listing block",
    "====" := "example block",
    "****" := "sidebar block",
    "...." := "literal block",
    "____" := "quote block",
    "|===" := "table block",
    "////" := "comment block",
    "++++" := "passthrough block"]

  /** The open delimiters, each with the 0-based line that opened it. */
  type OpenBlocks = map<string, nat>

  /** A delimiter closes its block when it is open, and opens one at `lineNumber` when
      it is not. */
  function Toggle(open: OpenBlocks, marker: string, lineNumber: nat): OpenBlocks {
    if marker in open then open - {marker} else open[marker := lineNumber]
  }

  /** The open delimiters after a line: only a line that strips to a delimiter changes
      them. */
  function NextOpen(open: OpenBlocks, line: string, lineNumber: nat): OpenBlocks {
    var marker := Strip(line);
    if marker in BlockKinds then Toggle(open, marker, lineNumber) else open
  }

  /** A line that does not strip to a delimiter leaves the open delimiters alone; a
      delimiter line flips exactly its own delimiter, recording its line when it opens,
      and leaves every other delimiter as it was. */
  lemma NextOpenSpec(open: OpenBlocks, line: string, lineNumber: nat)
    ensures Strip(line) !in BlockKinds ==> NextOpen(open, line, lineNumber) == open
    ensures var next := NextOpen(open, line, lineNumber); var m := Strip(line);
      m in BlockKinds ==>
        && (m in next <==> m !in open)
        && (m in next ==> next[m] == lineNumber)
        && (forall k :: k != m ==> (k in next <==> k in open) && (k in next ==> next[k] == open[k]))
  {
  }

  /** Some line from `start` on strips to `marker`. */
  predicate TerminatedAfter(context: seq<string>, start: nat, marker: string) {
    exists k :: start <= k < |context| && Strip(context[k]) == marker
  }

  // ---------------------------------------------------------------------------------
  // BLOCK001: unterminated blocks
  // ---------------------------------------------------------------------------------

  function UnterminatedFinding(marker: string, line: string, lineNumber: nat): Finding
    requires marker in BlockKinds
  {
    Finding("Unterminated " + BlockKinds[marker] + " starting", Error,
      Position(lineNumber + 1), Some(UnterminatedRuleId), Some(LineText(line)))
  }

  /** What `check_line` reports for `line` at `lineNumber`, given the open delimiters
      before it: an opening delimiter no later line of the context repeats. */
  function UnterminatedLine(open: OpenBlocks, line: string, lineNumber: nat, context: seq<string>): seq<Finding> {
    var marker := Strip(line);
    if marker in BlockKinds && marker !in open && !TerminatedAfter(context, lineNumber + 1, marker) then
      [UnterminatedFinding(marker, line, lineNumber)]
    else []
  }

  /** At most one finding, an error of BLOCK001 on the 1-based line, and only for a
      delimiter that opens a block no later line closes. */
  lemma UnterminatedLineSpec(open: OpenBlocks, line: string, lineNumber: nat, context: seq<string>)
    ensures var r := UnterminatedLine(open, line, lineNumber, context);
      && |r| <= 1
      && (r != [] <==>
            Strip(line) in BlockKinds && Strip(line) !in open
            && forall k :: lineNumber + 1 <= k < |context| ==> Strip(context[k]) != Strip(line))
      && forall f :: f in r ==>
            f.severity == Error && f.position.line == lineNumber + 1 && f.ruleId == Some(UnterminatedRuleId)
  {
  }

  class UnterminatedBlockRule {
    var openBlocks: OpenBlocks

    constructor()
      ensures openBlocks == map[]
    {
      openBlocks := map[];
    }

    /** `check_line`: toggle the delimiter and, when it opens a block, look ahead in the
        context for a line that closes it. */
    method CheckLine(line: string, lineNumber: nat, context: seq<string>) returns (findings: seq<Finding>)
      modifies this
      ensures openBlocks == NextOpen(old(openBlocks), line, lineNumber)
      ensures findings == UnterminatedLine(old(openBlocks), line, lineNumber, context)
    {
      findings := [];
      var stripped := Strip(line);
      if stripped in BlockKinds {
        if stripped in openBlocks {
          openBlocks := openBlocks - {stripped};
        } else {
          ghost var before := openBlocks;
          openBlocks := openBlocks[stripped := lineNumber];
          var isTerminated := false;
          var i := lineNumber + 1;
          while i < |context|
            invariant lineNumber + 1 <= i
            invariant !isTerminated
            invariant forall k :: lineNumber + 1 <= k < i && k < |context| ==> Strip(context[k]) != stripped
          {
            if Strip(context[i]) == stripped {
              isTerminated := true;
              break;
            }
            i := i + 1;
          }
          if !isTerminated {
            findings := [UnterminatedFinding(stripped, line, lineNumber)];
          }
        }
      }
    }
  }

  // ---------------------------------------------------------------------------------
  // A fresh instance driven over a whole document, line by line
  // ---------------------------------------------------------------------------------

  /** The open delimiters of a fresh instance after the first `i` lines. */
  function OpenAfter(doc: seq<string>, i: nat): OpenBlocks
    requires i <= |doc|
  {
    if i == 0 then map[] else NextOpen(OpenAfter(doc, i - 1), doc[i - 1], i - 1)
  }

  /** The BLOCK001 findings of a fresh instance on the first `i` lines. */
  function UnterminatedBefore(doc: seq<string>, i: nat): seq<Finding>
    requires i <= |doc|
  {
    if i == 0 then []
    else UnterminatedBefore(doc, i - 1) + UnterminatedLine(OpenAfter(doc, i - 1), doc[i - 1], i - 1, doc)
  }

  function UnterminatedFindings(doc: seq<string>): seq<Finding> {
    UnterminatedBefore(doc, |doc|)
  }

  /** A fresh instance handed every line of the document in turn, with the document as
      the context. */
  method CheckUnterminated(doc: seq<string>) returns (findings: seq<Finding>)
    ensures findings == UnterminatedFindings(doc)
  {
    var rule := new UnterminatedBlockRule();
    findings := [];
    var i := 0;
    while i < |doc|
      invariant i <= |doc|
      invariant rule.openBlocks == OpenAfter(doc, i)
      invariant findings == UnterminatedBefore(doc, i)
    {
      var lineFindings := rule.CheckLine(doc[i], i, doc);
      findings := findings + lineFindings;
      i := i + 1;
    }
  }

  /** How many of the first `i` lines strip to `marker`. */
  function Occurrences(doc: seq<string>, i: nat, marker: string): nat
    requires i <= |doc|
  {
    if i == 0 then 0 else Occurrences(doc, i - 1, marker) + (if Strip(doc[i - 1]) == marker then 1 else 0)
  }

  /** Opens and closes alternate: a delimiter is open after `i` lines exactly when an odd
      number of them strip to it, and then it was opened by the last of them. */
  lemma {:induction false} OpenParity(doc: seq<string>, i: nat, marker: string)
    requires i <= |doc|
    ensures marker in OpenAfter(doc, i) <==> marker in BlockKinds && Occurrences(doc, i, marker) % 2 == 1
    ensures marker in OpenAfter(doc, i) ==>
      var o := OpenAfter(doc, i)[marker];
      o < i && Strip(doc[o]) == marker && Occurrences(doc, i, marker) == Occurrences(doc, o + 1, marker)
  {
    if i > 0 {
      OpenParity(doc, i - 1, marker);
      NextOpenSpec(OpenAfter(doc, i - 1), doc[i - 1], i - 1);
      var n := Occurrences(doc, i - 1, marker);
      if Strip(doc[i - 1]) == marker {
        assert Occurrences(doc, i, marker) == n + 1;
        ParityStep(n);
      } else {
        assert Occurrences(doc, i, marker) == n;
      }
    }
  }

  lemma ParityStep(n: nat)
    ensures (n + 1) % 2 == 1 <==> n % 2 == 0
  {
  }

  /** With no line from `start` on stripping to `marker`, the count stops growing. */
  lemma {:induction false} OccurrencesNoneAfter(doc: seq<string>, start: nat, i: nat, marker: string)
    requires start <= i <= |doc| && !TerminatedAfter(doc, start, marker)
    ensures Occurrences(doc, i, marker) == Occurrences(doc, start, marker)
    decreases i
  {
    if i > start {
      OccurrencesNoneAfter(doc, start, i - 1, marker);
      assert Strip(doc[i - 1]) != marker;
    }
  }

  /** Line `k` gets BLOCK001 from a fresh instance. */
  predicate Flagged(doc: seq<string>, k: nat)
    requires k < |doc|
  {
    UnterminatedLine(OpenAfter(doc, k), doc[k], k, doc) != []
  }

  /** A line is flagged exactly when it is the last line stripping to its delimiter and
      that delimiter occurs an odd number of times in the document. */
  lemma FlaggedIffLastOfOdd(doc: seq<string>, k: nat)
    requires k < |doc|
    ensures var m := Strip(doc[k]);
      Flagged(doc, k) <==>
        m in BlockKinds && !TerminatedAfter(doc, k + 1, m) && Occurrences(doc, |doc|, m) % 2 == 1
  {
    var m := Strip(doc[k]);
    FlaggedByParity(doc, k);
    OccurrencesOfLast(doc, k);
    ParityArgument(Flagged(doc, k), m in BlockKinds, m in BlockKinds && Occurrences(doc, k, m) % 2 == 1,
      TerminatedAfter(doc, k + 1, m), Occurrences(doc, k, m), Occurrences(doc, |doc|, m));
  }

  lemma FlaggedByParity(doc: seq<string>, k: nat)
    requires k < |doc|
    ensures var m := Strip(doc[k]);
      Flagged(doc, k) <==>
        m in BlockKinds && !(m in BlockKinds && Occurrences(doc, k, m) % 2 == 1) && !TerminatedAfter(doc, k + 1, m)
  {
    FlaggedUnfold(doc, k);
    OpenParity(doc, k, Strip(doc[k]));
  }

  /** Past the last line stripping to a delimiter, its count is one more than before it. */
  lemma OccurrencesOfLast(doc: seq<string>, k: nat)
    requires k < |doc|
    ensures var m := Strip(doc[k]);
      !TerminatedAfter(doc, k + 1, m) ==> Occurrences(doc, |doc|, m) == Occurrences(doc, k, m) + 1
  {
    var m := Strip(doc[k]);
    assert Occurrences(doc, k + 1, m) == Occurrences(doc, k, m) + 1;
    if !TerminatedAfter(doc, k + 1, m) {
      OccurrencesNoneAfter(doc, k + 1, |doc|, m);
    }
  }

  /** The bookkeeping behind the lemma above, on its own. */
  lemma ParityArgument(flagged: bool, isMarker: bool, open: bool, terminated: bool, before: nat, total: nat)
    requires flagged <==> isMarker && !open && !terminated
    requires open <==> isMarker && before % 2 == 1
    requires !terminated ==> total == before + 1
    ensures flagged <==> isMarker && !terminated && total % 2 == 1
  {
  }

  lemma FlaggedUnfold(doc: seq<string>, k: nat)
    requires k < |doc|
    ensures var m := Strip(doc[k]);
      Flagged(doc, k) <==> m in BlockKinds && m !in OpenAfter(doc, k) && !TerminatedAfter(doc, k + 1, m)
  {
  }

  /** Delimiters are tracked independently: two flagged lines have different delimiters,
      so each delimiter is reported at most once. */
  lemma FlaggedOncePerDelimiter(doc: seq<string>, j: nat, k: nat)
    requires j < k < |doc| && Flagged(doc, j) && Flagged(doc, k)
    ensures Strip(doc[j]) != Strip(doc[k])
  {
    if Strip(doc[j]) == Strip(doc[k]) {
      assert TerminatedAfter(doc, j + 1, Strip(doc[j]));
    }
  }

  /** The findings on the whole document are the errors of the flagged lines, each on its
      own 1-based line. */
  lemma {:induction false} UnterminatedFindingsExact(doc: seq<string>, i: nat)
    requires i <= |doc|
    ensures forall f :: f in UnterminatedBefore(doc, i) <==>
      exists k :: 0 <= k < i && Flagged(doc, k) && f == UnterminatedFinding(Strip(doc[k]), doc[k], k)
  {
    if i > 0 {
      UnterminatedFindingsExact(doc, i - 1);
      var last := UnterminatedLine(OpenAfter(doc, i - 1), doc[i - 1], i - 1, doc);
      assert UnterminatedBefore(doc, i) == UnterminatedBefore(doc, i - 1) + last;
      forall f | f in UnterminatedBefore(doc, i)
        ensures exists k :: 0 <= k < i && Flagged(doc, k) && f == UnterminatedFinding(Strip(doc[k]), doc[k], k)
      {
        if f in last {
          assert Flagged(doc, i - 1);
        }
      }
      forall f, k | 0 <= k < i && Flagged(doc, k) && f == UnterminatedFinding(Strip(doc[k]), doc[k], k)
        ensures f in UnterminatedBefore(doc, i)
      {
        if k == i - 1 {
          assert f in last;
        }
      }
    }
  }

  // ---------------------------------------------------------------------------------
  // BLOCK002: blank lines around blocks
  // ---------------------------------------------------------------------------------

  /** A neighbour that needs a blank line in between: non-blank, and not a heading. */
  predicate NeedsSeparation(neighbour: string) {
    var s := Strip(neighbour);
    s != [] && s[0] != '='
  }

  function PrecededFinding(line: string, lineNumber: nat): Finding {
    Finding("Block should be preceded by a blank line", Warning,
      Position(lineNumber + 1), Some(SpacingRuleId), Some(LineText(line)))
  }

  /** Anchored on the following line itself. */
  function FollowedFinding(next: string, lineNumber: nat): Finding {
    Finding("Block should be followed by a blank line", Warning,
      Position(lineNumber + 2), Some(SpacingRuleId), Some(LineText(next)))
  }

  /** What `check_line` reports for `line` at `lineNumber`: a closing delimiter checks the
      line after it, when there is one; an opening delimiter after the first line checks
      the line before it, which fails as an index error when `lineNumber - 1` is past the
      end of the context. */
  function SpacingLine(open: OpenBlocks, line: string, lineNumber: nat, context: seq<string>): Result<seq<Finding>, CheckError> {
    var marker := Strip(line);
    if marker !in BlockKinds then Ok([])
    else if marker in open then
      Ok(if lineNumber + 1 < |context| && NeedsSeparation(context[lineNumber + 1])
         then [FollowedFinding(context[lineNumber + 1], lineNumber)] else [])
    else if lineNumber == 0 then Ok([])
    else if lineNumber - 1 >= |context| then Err(IndexOutOfRange)
    else Ok(if NeedsSeparation(context[lineNumber - 1]) then [PrecededFinding(line, lineNumber)] else [])
  }

  /** The call fails only for an opening delimiter whose line number is past the end of
      the context; otherwise it reports at most one warning of BLOCK002: on the line after
      a closing delimiter when that line needs separating, on an opening delimiter when
      the line before it does. Missing neighbours and headings exempt the delimiter. */
  lemma SpacingLineSpec(open: OpenBlocks, line: string, lineNumber: nat, context: seq<string>)
    ensures var r := SpacingLine(open, line, lineNumber, context); var m := Strip(line);
      && (r.Err? <==> m in BlockKinds && m !in open && |context| < lineNumber)
      && (r.Ok? ==> |r.value| <= 1 && forall f :: f in r.value ==> f.severity == Warning && f.ruleId == Some(SpacingRuleId))
      && (m in BlockKinds && m in open ==>
            r.Ok? && (r.value != [] <==> lineNumber + 1 < |context| && NeedsSeparation(context[lineNumber + 1]))
            && (r.value != [] ==> r.value == [FollowedFinding(context[lineNumber + 1], lineNumber)]))
      && (m in BlockKinds && m !in open && lineNumber <= |context| ==>
            r.Ok? && (r.value != [] <==> 0 < lineNumber && NeedsSeparation(context[lineNumber - 1]))
            && (r.value != [] ==> r.value == [PrecededFinding(line, lineNumber)]))
      && (r.Ok? && r.value != [] ==>
            r.value[0].position.line == if m in open then lineNumber + 2 else lineNumber + 1)
  {
  }

  class BlockSpacingRule {
    var openBlocks: OpenBlocks

    constructor()
      ensures openBlocks == map[]
    {
      openBlocks := map[];
    }

    /** `check_line`; the open delimiters are left as they were when it fails. */
    method CheckLine(line: string, lineNumber: nat, context: seq<string>) returns (result: Result<seq<Finding>, CheckError>)
      modifies this
      ensures result == SpacingLine(old(openBlocks), line, lineNumber, context)
      ensures openBlocks == if result.Ok? then NextOpen(old(openBlocks), line, lineNumber) else old(openBlocks)
    {
      var findings := [];
      var stripped := Strip(line);
      if stripped in BlockKinds {
        if stripped in openBlocks {
          if lineNumber + 1 < |context| {
            var nextLine := Strip(context[lineNumber + 1]);
            if nextLine != [] && nextLine[0] != '=' {
              findings := findings + [FollowedFinding(context[lineNumber + 1], lineNumber)];
            }
          }
          assert SpacingLine(openBlocks, line, lineNumber, context).value == findings;
          openBlocks := openBlocks - {stripped};
        } else {
          if lineNumber > 0 {
            if lineNumber - 1 >= |context| {
              return Err(IndexOutOfRange);
            }
            var prevLine := Strip(context[lineNumber - 1]);
            if prevLine != [] && prevLine[0] != '=' {
              findings := findings + [PrecededFinding(line, lineNumber)];
            }
          }
          assert SpacingLine(openBlocks, line, lineNumber, context).value == findings;
          openBlocks := openBlocks[stripped := lineNumber];
        }
      }
      result := Ok(findings);
    }
  }

  /** The BLOCK002 findings of a fresh instance on the first `i` lines; every call is
      within the document, so none fails. */
  function SpacingBefore(doc: seq<string>, i: nat): seq<Finding>
    requires i <= |doc|
  {
    if i == 0 then []
    else
      var r := SpacingLine(OpenAfter(doc, i - 1), doc[i - 1], i - 1, doc);
      SpacingBefore(doc, i - 1) + (if r.Ok? then r.value else [])
  }

  function SpacingFindings(doc: seq<string>): seq<Finding> {
    SpacingBefore(doc, |doc|)
  }

  /** A fresh instance handed every line of the document in turn. */
  method CheckSpacing(doc: seq<string>) returns (findings: seq<Finding>)
    ensures findings == SpacingFindings(doc)
  {
    var rule := new BlockSpacingRule();
    findings := [];
    var i := 0;
    while i < |doc|
      invariant i <= |doc|
      invariant rule.openBlocks == OpenAfter(doc, i)
      invariant findings == SpacingBefore(doc, i)
    {
      var result := rule.CheckLine(doc[i], i, doc);
      SpacingLineSpec(OpenAfter(doc, i), doc[i], i, doc);
      findings := findings + result.value;
      i := i + 1;
    }
  }

  /** Over a whole document, the even-numbered occurrences of a delimiter close a block
      and are checked against the line after them, the odd-numbered ones open a block and
      are checked against the line before them. */
  lemma SpacingInDocument(doc: seq<string>, k: nat)
    requires k < |doc| && Strip(doc[k]) in BlockKinds
    ensures var m := Strip(doc[k]);
      var r := SpacingLine(OpenAfter(doc, k), doc[k], k, doc);
      && r.Ok?
      && (Occurrences(doc, k, m) % 2 == 1 ==>
            (r.value != [] <==> k + 1 < |doc| && NeedsSeparation(doc[k + 1])))
      && (Occurrences(doc, k, m) % 2 == 0 ==>
            (r.value != [] <==> 0 < k && NeedsSeparation(doc[k - 1])))
  {
    OpenParity(doc, k, Strip(doc[k]));
  }
}
