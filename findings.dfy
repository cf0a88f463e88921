/**
 * The vocabulary every rule emits into: severities, positions, findings, and the
 * base rule whose `check` every concrete rule is expected to override.
 */
module Findings {
  import opened Wrappers

  /** The three severities and the string values they carry. */
  datatype Severity = Error | Warning | Info {
    function Value(): (v: string)
      ensures SeverityOf(v) == Some(this)
    {
      match this
      case Error => "error"
      case Warning => "warning"
      case Info => "info"
    }
  }

  /** Enum lookup by value, `Severity(v)`; `None` where Python raises ValueError. */
  function SeverityOf(v: string): (s: Option<Severity>)
    ensures s.Some? <==> v in {"error", "warning", "info"}
  {
    if v == "error" then Some(Error)
    else if v == "warning" then Some(Warning)
    else if v == "info" then Some(Info)
    else None
  }

  /** A 1-based line and an optional column, which is absent unless given. */
  datatype Position = Position(line: int, column: Option<int> := None)

  /** The payload rules attach: the raw line text, or a `{"line": text}` record. */
  datatype Context = LineText(text: string) | LineRecord(line: string)

  /**
   * One reported violation. `ruleId`, `context` and `file` are absent unless given;
   * equality is field by field, as for the dataclass.
   */
  datatype Finding = Finding(
    message: string,
    severity: Severity,
    position: Position,
    ruleId: Option<string> := None,
    context: Option<Context> := None,
    file: Option<string> := None)
  {
    function Line(): int { position.line }
  }

  /** The errors a check can raise: the base rule's `check`, and a list index past the
      end of the document. */
  datatype CheckError = NotImplemented(message: string) | IndexOutOfRange

  /** The identifier a rule has unless it declares its own. */
  const BaseRuleId: string := "BASE"

  /** `Rule.check` of the base class: it never produces findings, it always fails. */
  function BaseCheck(document: seq<string>): (r: Result<seq<Finding>, CheckError>)
    ensures r == Err(NotImplemented("Rule must implement check method"))
  {
    Err(NotImplemented("Rule must implement check method"))
  }

  /** Constructing with only a line leaves the column absent, and with only the required
      fields leaves rule id, context and file absent. */
  lemma DefaultsAreAbsent(line: int, message: string, severity: Severity)
    ensures Position(line).column == None
    ensures var f := Finding(message, severity, Position(line));
      f.ruleId == None && f.context == None && f.file == None
  {
  }
}
