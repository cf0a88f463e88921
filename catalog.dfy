/**
 * The rule classes of the linter, by the name Python gives each class, and what the
 * `check` of each does with a document. Rules whose class defines no `check` of its own
 * inherit the base class's, which always fails.
 */
module Catalog {
  import opened Wrappers
  import opened Findings
  import HeadingRules
  import LegacyHeadingRules
  import TableRules
  import ImageRules

  datatype RuleClass =
    | BaseRule
    | HeadingFormat              // rules/heading_rules.py
    | HeadingHierarchy
    | MultipleTopLevelHeadings
    | LegacyHeadingFormat        // heading_rules.py, the older revision
    | HeadingIncrementation
    | LegacyMultipleTopLevelHeadings
    | TableFormat
    | TableStructure
    | TableContent
    | UnterminatedBlock
    | BlockSpacing
    | Whitespace
    | ImageAttributes
  {
    /** The class's `__name__`. The two heading revisions reuse two names. */
    function Name(): string {
      match this
      case BaseRule => "Rule"
      case HeadingFormat => "HeadingFormatRule"
      case HeadingHierarchy => "HeadingHierarchyRule"
      case MultipleTopLevelHeadings => "MultipleTopLevelHeadingsRule"
      case LegacyHeadingFormat => "HeadingFormatRule"
      case HeadingIncrementation => "HeadingIncrementationRule"
      case LegacyMultipleTopLevelHeadings => "MultipleTopLevelHeadingsRule"
      case TableFormat => "TableFormatRule"
      case TableStructure => "TableStructureRule"
      case TableContent => "TableContentRule"
      case UnterminatedBlock => "UnterminatedBlockRule"
      case BlockSpacing => "BlockSpacingRule"
      case Whitespace => "WhitespaceRule"
      case ImageAttributes => "ImageAttributesRule"
    }
  }

  /** A freshly constructed instance of a rule class. */
  datatype RuleInstance = RuleInstance(ruleClass: RuleClass)

  /** The document as the image rule's `check` sees a `str`: one entry per character. */
  function Characters(content: string): (r: seq<string>)
    ensures |r| == |content|
    ensures forall i :: 0 <= i < |r| ==> r[i] == [content[i]]
  {
    seq(|content|, i requires 0 <= i < |content| => [content[i]])
  }

  /** `rule.check(content)` on the text `content`, whose lines are `lines`; `files` are
      the paths that name existing files. */
  function Check(rule: RuleInstance, content: string, lines: seq<string>, files: set<string>): (r: Result<seq<Finding>, CheckError>)
    ensures r.Err? <==> rule.ruleClass in {BaseRule, UnterminatedBlock, BlockSpacing, Whitespace}
    ensures r.Err? ==> r.error == NotImplemented("Rule must implement check method")
  {
    match rule.ruleClass
    case HeadingFormat => Ok(HeadingRules.FormatFindings(lines))
    case HeadingHierarchy => Ok(HeadingRules.HierarchyFindings(lines))
    case MultipleTopLevelHeadings => Ok(HeadingRules.MultipleTopLevelFindings(lines))
    case LegacyHeadingFormat => Ok(LegacyHeadingRules.FormatFindings(lines))
    case HeadingIncrementation => Ok(LegacyHeadingRules.IncrementationFindings(lines))
    case LegacyMultipleTopLevelHeadings => Ok(LegacyHeadingRules.MultipleTopLevelFindings(lines))
    case TableFormat => Ok(TableRules.FormatFindings(lines))
    case TableStructure => Ok(TableRules.StructureFindingsOf(lines))
    case TableContent => Ok(TableRules.ContentFindings(lines))
    case ImageAttributes =>
      var chars := Characters(content);
      Ok(ImageRules.ImageBefore(chars, |chars|, files))
    case _ => BaseCheck(lines)
  }
}
