/**
 * The parser: one header element for every line that starts with `=`.
 */
module Parser {
  import opened Wrappers
  import opened Text

  /** The elements of a parsed document. Only headers are ever produced. */
  datatype Element =
    | Header(lineNumber: nat, content: string, level: nat)
    | CodeBlock(lineNumber: nat, content: string, language: Option<string>)
    | Table(lineNumber: nat, content: string, columns: nat)

  /** The headers of the first `n` lines, numbered from 1. */
  function HeadersAfter(lines: seq<string>, n: nat): seq<Element>
    requires n <= |lines|
  {
    if n == 0 then []
    else
      HeadersAfter(lines, n - 1)
      + (if StartsWith(lines[n - 1], "=") then [Header(n, lines[n - 1], LeadingRun(lines[n - 1], '='))] else [])
  }

  /** `parse`, over the lines of the content. */
  method Parse(lines: seq<string>) returns (elements: seq<Element>)
    ensures elements == HeadersAfter(lines, |lines|)
  {
    elements := [];
    for i := 0 to |lines|
      invariant elements == HeadersAfter(lines, i)
    {
      var line := lines[i];
      if StartsWith(line, "=") {
        var level := |line| - |TrimStart(line, {'='})|;
        LevelIsRun(line);
        elements := elements + [Header(i + 1, line, level)];
      }
    }
  }

  /** `len(line) - len(line.lstrip("="))` counts the leading `=` characters. */
  lemma {:induction false} LevelIsRun(line: string)
    ensures |line| - |TrimStart(line, {'='})| == LeadingRun(line, '=')
  {
    if line != [] && line[0] == '=' {
      LevelIsRun(line[1..]);
    }
  }

  /** Every element is a header of a line that starts with `=`, carrying its 1-based
      number, the line unchanged, and the number of its leading `=`, at least one. */
  lemma {:induction false} HeadersSound(lines: seq<string>, n: nat, e: Element)
    requires n <= |lines|
    requires e in HeadersAfter(lines, n)
    ensures e.Header? && 1 <= e.lineNumber <= n
    ensures e.content == lines[e.lineNumber - 1] && StartsWith(e.content, "=")
    ensures e.level == LeadingRun(e.content, '=') && e.level >= 1
  {
    if n > 0 {
      if e !in HeadersAfter(lines, n - 1) {
        assert e == Header(n, lines[n - 1], LeadingRun(lines[n - 1], '='));
      } else {
        HeadersSound(lines, n - 1, e);
      }
    }
  }

  /** Every line that starts with `=` has its header. */
  lemma {:induction false} HeadersComplete(lines: seq<string>, n: nat, k: nat)
    requires k < n <= |lines|
    requires StartsWith(lines[k], "=")
    ensures Header(k + 1, lines[k], LeadingRun(lines[k], '=')) in HeadersAfter(lines, n)
  {
    if k < n - 1 {
      HeadersComplete(lines, n - 1, k);
    }
  }

  /** The headers come in strictly increasing line order. */
  lemma {:induction false} HeadersIncreasing(lines: seq<string>, n: nat)
    requires n <= |lines|
    ensures forall i, j :: 0 <= i < j < |HeadersAfter(lines, n)| ==>
      HeadersAfter(lines, n)[i].lineNumber < HeadersAfter(lines, n)[j].lineNumber
  {
    if n > 0 {
      HeadersIncreasing(lines, n - 1);
      var hs := HeadersAfter(lines, n - 1);
      forall i | 0 <= i < |hs|
        ensures hs[i].lineNumber < n
      {
        HeadersSound(lines, n - 1, hs[i]);
      }
    }
  }
}
