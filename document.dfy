/**
 * A document as the rules see it: its lines, in order, each known by its 0-based index
 * (the rules report `index + 1`). Splitting the raw text into lines happens before.
 */
module Document {

  /** A line of the document together with its 0-based index. */
  datatype NumberedLine = NumberedLine(number: nat, text: string)

  /** `enumerate(lines)`. */
  function Numbered(doc: seq<string>): (r: seq<NumberedLine>)
    ensures |r| == |doc|
    ensures forall i :: 0 <= i < |r| ==> r[i] == NumberedLine(i, doc[i])
  {
    seq(|doc|, i requires 0 <= i < |doc| => NumberedLine(i, doc[i]))
  }

  /** A numbered line carries its own index and text. */
  lemma NumberedMember(doc: seq<string>, l: NumberedLine)
    requires l in Numbered(doc)
    ensures l.number < |doc| && doc[l.number] == l.text
  {
    var i :| 0 <= i < |doc| && Numbered(doc)[i] == l;
  }

  /** Numbering one more line extends the numbering of the lines before it. */
  lemma NumberedSnoc(doc: seq<string>, i: nat)
    requires i < |doc|
    ensures Numbered(doc[..i + 1]) == Numbered(doc[..i]) + [NumberedLine(i, doc[i])]
  {
  }
}
