/**
 * The linter: the rules it runs, and `lint`, which runs every rule's `check` on the
 * document in registration order, collects the findings and orders them by line.
 */
module Linter {
  import opened Wrappers
  import opened Findings
  import opened Catalog
  import opened Sorting

  type Output = Result<seq<Finding>, CheckError>

  /** What each rule's `check` returns on the document, rule by rule. */
  function Outputs(rules: seq<RuleInstance>, content: string, lines: seq<string>, files: set<string>): (r: seq<Output>)
    ensures |r| == |rules|
    ensures forall i :: 0 <= i < |r| ==> r[i] == Check(rules[i], content, lines, files)
  {
    seq(|rules|, i requires 0 <= i < |rules| => Check(rules[i], content, lines, files))
  }

  /** The findings of the first `n` outputs, in order, or the first error among them: an
      exception ends the run. */
  function CollectedAfter(outputs: seq<Output>, n: nat): Output
    requires n <= |outputs|
  {
    if n == 0 then Ok([])
    else
      match CollectedAfter(outputs, n - 1)
      case Err(e) => Err(e)
      case Ok(fs) =>
        match outputs[n - 1]
        case Err(e) => Err(e)
        case Ok(gs) => Ok(fs + gs)
  }

  /** What `lint` computes before formatting: the collected findings sorted by line. */
  function LintResult(rules: seq<RuleInstance>, content: string, lines: seq<string>, files: set<string>): Output {
    var outputs := Outputs(rules, content, lines, files);
    match CollectedAfter(outputs, |outputs|)
    case Err(e) => Err(e)
    case Ok(fs) => Ok(SortByLine(fs))
  }

  class AsciiDocLinter {
    var rules: seq<RuleInstance>

    /** A new linter runs the heading-incrementation rule of the older revision. */
    constructor()
      ensures rules == [RuleInstance(HeadingIncrementation)]
    {
      rules := [];
      new;
      RegisterRule(RuleInstance(HeadingIncrementation));
    }

    /** `register_rule`: the rule is run after those registered before it. */
    method RegisterRule(rule: RuleInstance)
      modifies this
      ensures rules == old(rules) + [rule]
    {
      rules := rules + [rule];
    }

    /** `lint` up to the sorted findings: `content` is the text, `lines` its lines. */
    method Lint(content: string, lines: seq<string>, files: set<string>) returns (result: Output)
      ensures result == LintResult(rules, content, lines, files)
    {
      ghost var outputs := Outputs(rules, content, lines, files);
      var allFindings: seq<Finding> := [];
      for i := 0 to |rules|
        invariant CollectedAfter(outputs, i) == Ok(allFindings)
      {
        var findings := Check(rules[i], content, lines, files);
        if findings.Err? {
          ErrorPropagates(outputs, i + 1, |outputs|);
          return Err(findings.error);
        }
        allFindings := allFindings + findings.value;
      }
      result := Ok(SortByLine(allFindings));
    }
  }

  /** Once a rule has failed, so has the run. */
  lemma {:induction false} ErrorPropagates(outputs: seq<Output>, n: nat, m: nat)
    requires n <= m <= |outputs|
    requires CollectedAfter(outputs, n).Err?
    ensures CollectedAfter(outputs, m) == CollectedAfter(outputs, n)
    decreases m - n
  {
    if n < m {
      ErrorPropagates(outputs, n, m - 1);
    }
  }

  /** The run succeeds exactly when every rule's `check` does. */
  lemma {:induction false} CollectedOk(outputs: seq<Output>, n: nat)
    requires n <= |outputs|
    ensures CollectedAfter(outputs, n).Ok? <==> forall i :: 0 <= i < n ==> outputs[i].Ok?
  {
    if n > 0 {
      CollectedOk(outputs, n - 1);
    }
  }

  /** A failed run reports the error of the first rule that failed. */
  lemma {:induction false} CollectedError(outputs: seq<Output>, n: nat)
    requires n <= |outputs|
    requires CollectedAfter(outputs, n).Err?
    ensures exists i :: (0 <= i < n && outputs[i] == Err(CollectedAfter(outputs, n).error)
      && forall j :: 0 <= j < i ==> outputs[j].Ok?)
  {
    if n > 0 {
      if CollectedAfter(outputs, n - 1).Err? {
        CollectedError(outputs, n - 1);
      } else {
        CollectedOk(outputs, n - 1);
      }
    }
  }

  /** The findings of the first `n` outputs laid end to end, when every one succeeded. */
  function Concatenated(outputs: seq<Output>, n: nat): seq<Finding>
    requires n <= |outputs|
    requires forall i :: 0 <= i < n ==> outputs[i].Ok?
  {
    if n == 0 then [] else Concatenated(outputs, n - 1) + outputs[n - 1].value
  }

  /** When every rule succeeds, the run collects each rule's findings once, in
      registration order. */
  lemma {:induction false} CollectedConcatenates(outputs: seq<Output>, n: nat)
    requires n <= |outputs|
    requires forall i :: 0 <= i < n ==> outputs[i].Ok?
    ensures CollectedAfter(outputs, n) == Ok(Concatenated(outputs, n))
  {
    if n > 0 {
      CollectedConcatenates(outputs, n - 1);
    }
  }

  /** A successful `lint` returns the collected findings, permuted into line order,
      the findings of each line in the order the rules produced them. */
  lemma LintSpec(rules: seq<RuleInstance>, content: string, lines: seq<string>, files: set<string>, line: int)
    requires forall i :: 0 <= i < |rules| ==> Check(rules[i], content, lines, files).Ok?
    ensures var outputs := Outputs(rules, content, lines, files);
      var collected := Concatenated(outputs, |outputs|);
      && LintResult(rules, content, lines, files).Ok?
      && SortedByLine(LintResult(rules, content, lines, files).value)
      && multiset(LintResult(rules, content, lines, files).value) == multiset(collected)
      && OnLine(LintResult(rules, content, lines, files).value, line) == OnLine(collected, line)
  {
    var outputs := Outputs(rules, content, lines, files);
    var collected := Concatenated(outputs, |outputs|);
    CollectedConcatenates(outputs, |outputs|);
    assert LintResult(rules, content, lines, files).value == SortByLine(collected);
    SortSorted(collected);
    SortPermutes(collected);
    SortStable(collected, line);
  }
}
