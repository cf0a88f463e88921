/**
 * The table rules: the `|===` region scanner shared by all three, the column-alignment
 * and header-separator checks (TABLE001), the column-count and empty-table checks
 * (TABLE002), and the undeclared-list check on cells (TABLE003).
 */
module TableRules {
  import opened Wrappers
  import opened Text
  import opened Seqs
  import opened Findings
  import opened Document

  const FormatRuleId: string := "TABLE001"
  const StructureRuleId: string := "TABLE002"
  const ContentRuleId: string := "TABLE003"
  const TableDelimiter: string := "|==="

  type Table = seq<NumberedLine>

  /** A line that strips to `|===` opens or closes a table. */
  predicate IsDelimiter(line: string) {
    Strip(line) == TableDelimiter
  }

  // ---------------------------------------------------------------------------
  // Segmentation

  /** Lines `s` to `e - 1` of the document, numbered. */
  function Region(doc: seq<string>, s: nat, e: nat): Table
    requires s <= e <= |doc|
    decreases e - s
  {
    if s == e then [] else [NumberedLine(s, doc[s])] + Region(doc, s + 1, e)
  }

  lemma {:induction false} RegionSnoc(doc: seq<string>, s: nat, e: nat)
    requires s <= e < |doc|
    ensures Region(doc, s, e + 1) == Region(doc, s, e) + [NumberedLine(e, doc[e])]
    decreases e - s
  {
    if s < e {
      RegionSnoc(doc, s + 1, e);
    }
  }

  lemma {:induction false} RegionAt(doc: seq<string>, s: nat, e: nat, k: nat)
    requires s <= e <= |doc| && k < e - s
    ensures |Region(doc, s, e)| == e - s && Region(doc, s, e)[k] == NumberedLine(s + k, doc[s + k])
    decreases e - s
  {
    if k > 0 {
      RegionAt(doc, s + 1, e, k - 1);
    } else {
      RegionLength(doc, s, e);
    }
  }

  /** Every entry of a region is the numbered document line it stands for. */
  lemma RegionAll(doc: seq<string>, s: nat, e: nat)
    requires s <= e <= |doc|
    ensures |Region(doc, s, e)| == e - s
    ensures forall k :: 0 <= k < e - s ==> Region(doc, s, e)[k] == NumberedLine(s + k, doc[s + k])
  {
    RegionLength(doc, s, e);
    forall k | 0 <= k < e - s
      ensures Region(doc, s, e)[k] == NumberedLine(s + k, doc[s + k])
    {
      RegionAt(doc, s, e, k);
    }
  }

  lemma {:induction false} RegionLength(doc: seq<string>, s: nat, e: nat)
    requires s <= e <= |doc|
    ensures |Region(doc, s, e)| == e - s
    decreases e - s
  {
    if s < e {
      RegionLength(doc, s + 1, e);
    }
  }

  /**
   * Reference segmentation, read off the document rather than off a scanning state:
   * from line `i` on, outside any table, skip to the next delimiter; a table runs from
   * that delimiter to the next one inclusive, or to the end of the document when no
   * closing delimiter follows.
   */
  function TablesFrom(doc: seq<string>, i: nat): seq<Table>
    requires i <= |doc|
    decreases |doc| - i
  {
    if i == |doc| then []
    else if !IsDelimiter(doc[i]) then TablesFrom(doc, i + 1)
    else TableOpenedAt(doc, i, i + 1)
  }

  /** The tables from line `j` on, given that a table was opened at line `o < j`. */
  function TableOpenedAt(doc: seq<string>, o: nat, j: nat): seq<Table>
    requires o < j <= |doc|
    decreases |doc| - j
  {
    if j == |doc| then [Region(doc, o, j)]
    else if IsDelimiter(doc[j]) then [Region(doc, o, j + 1)] + TablesFrom(doc, j + 1)
    else TableOpenedAt(doc, o, j + 1)
  }

  function Tables(doc: seq<string>): seq<Table> {
    TablesFrom(doc, 0)
  }

  /** `extract_table_lines`: a two-state scan that collects the `|===` regions, keeping an
      unclosed trailing table. */
  method ExtractTableLines(doc: seq<string>) returns (tables: seq<Table>)
    ensures tables == Tables(doc)
  {
    tables := [];
    var current: Table := [];
    var inTable := false;
    ghost var openLine := 0;
    var i := 0;
    while i < |doc|
      invariant i <= |doc|
      invariant !inTable ==> tables + TablesFrom(doc, i) == Tables(doc)
      invariant inTable ==> openLine < i && current == Region(doc, openLine, i)
      invariant inTable ==> tables + TableOpenedAt(doc, openLine, i) == Tables(doc)
    {
      var line := doc[i];
      if Strip(line) == TableDelimiter {
        if inTable {
          RegionSnoc(doc, openLine, i);
          current := current + [NumberedLine(i, line)];
          assert tables + [current] + TablesFrom(doc, i + 1) == Tables(doc);
          tables := tables + [current];
          current := [];
          inTable := false;
        } else {
          inTable := true;
          current := [NumberedLine(i, line)];
          openLine := i;
        }
      } else if inTable {
        RegionSnoc(doc, openLine, i);
        current := current + [NumberedLine(i, line)];
      }
      i := i + 1;
    }
    if inTable && current != [] {
      tables := tables + [current];
    }
  }

  /** The number of delimiter lines among the first `k` lines. */
  function DelimitersBefore(doc: seq<string>, k: nat): nat
    requires k <= |doc|
  {
    if k == 0 then 0 else DelimitersBefore(doc, k - 1) + (if IsDelimiter(doc[k - 1]) then 1 else 0)
  }

  /** Line `k` lies in a table region: an odd number of delimiters precede it (it is
      inside an open table or closes one), or it is a delimiter itself. */
  predicate InRegion(doc: seq<string>, k: nat)
    requires k < |doc|
  {
    DelimitersBefore(doc, k) % 2 == 1 || IsDelimiter(doc[k])
  }

  /** The numbered lines from line `i` on that lie in a table region, in document order. */
  function RegionLinesFrom(doc: seq<string>, i: nat): seq<NumberedLine>
    requires i <= |doc|
    decreases |doc| - i
  {
    if i == |doc| then []
    else (if InRegion(doc, i) then [NumberedLine(i, doc[i])] else []) + RegionLinesFrom(doc, i + 1)
  }

  /** All tables' lines, one table after the other. */
  function Flatten(tables: seq<Table>): seq<NumberedLine> {
    if tables == [] then [] else tables[0] + Flatten(tables[1..])
  }

  lemma {:induction false} FlattenAppend(a: seq<Table>, b: seq<Table>)
    ensures Flatten(a + b) == Flatten(a) + Flatten(b)
  {
    if a != [] {
      assert (a + b)[1..] == a[1..] + b;
      FlattenAppend(a[1..], b);
      calc {
        Flatten(a + b);
        (a + b)[0] + Flatten((a + b)[1..]);
        a[0] + (Flatten(a[1..]) + Flatten(b));
        (a[0] + Flatten(a[1..])) + Flatten(b);
      }
    } else {
      assert a + b == b;
    }
  }

  /** A line in a table region leads the region lines from it on. */
  lemma RegionLinesStep(doc: seq<string>, j: nat)
    requires j < |doc| && InRegion(doc, j)
    ensures RegionLinesFrom(doc, j) == [NumberedLine(j, doc[j])] + RegionLinesFrom(doc, j + 1)
  {
  }

  lemma RegionSingle(doc: seq<string>, j: nat)
    requires j < |doc|
    ensures Region(doc, j, j + 1) == [NumberedLine(j, doc[j])]
  {
  }

  lemma FlattenSingle(t: Table)
    ensures Flatten([t]) == t
  {
    assert [t][1..] == [];
  }

  lemma {:induction false} CoverageFrom(doc: seq<string>, i: nat)
    requires i <= |doc| && DelimitersBefore(doc, i) % 2 == 0
    ensures Flatten(TablesFrom(doc, i)) == RegionLinesFrom(doc, i)
    decreases |doc| - i, 2
  {
    if i < |doc| {
      assert DelimitersBefore(doc, i + 1) == DelimitersBefore(doc, i) + (if IsDelimiter(doc[i]) then 1 else 0);
      if !IsDelimiter(doc[i]) {
        CoverageFrom(doc, i + 1);
        assert !InRegion(doc, i);
        assert RegionLinesFrom(doc, i) == [] + RegionLinesFrom(doc, i + 1);
      } else {
        CoverageOpen(doc, i, i + 1);
        RegionSingle(doc, i);
        RegionLinesStep(doc, i);
        assert TablesFrom(doc, i) == TableOpenedAt(doc, i, i + 1);
      }
    }
  }

  lemma {:induction false} CoverageOpen(doc: seq<string>, o: nat, j: nat)
    requires o < j <= |doc| && DelimitersBefore(doc, j) % 2 == 1
    ensures Flatten(TableOpenedAt(doc, o, j)) == Region(doc, o, j) + RegionLinesFrom(doc, j)
    decreases |doc| - j, 1
  {
    if j == |doc| {
      FlattenSingle(Region(doc, o, j));
      assert RegionLinesFrom(doc, j) == [];
    } else if IsDelimiter(doc[j]) {
      CoverageClose(doc, o, j);
    } else {
      assert DelimitersBefore(doc, j + 1) == DelimitersBefore(doc, j);
      assert InRegion(doc, j);
      CoverageOpen(doc, o, j + 1);
      RegionLinesStep(doc, j);
      RegionSnoc(doc, o, j);
      assert TableOpenedAt(doc, o, j) == TableOpenedAt(doc, o, j + 1);
      SnocRegroup(Region(doc, o, j), NumberedLine(j, doc[j]), RegionLinesFrom(doc, j + 1));
    }
  }

  lemma SnocRegroup(r: seq<NumberedLine>, x: NumberedLine, rest: seq<NumberedLine>)
    ensures (r + [x]) + rest == r + ([x] + rest)
  {
  }

  /** Closing a table ahead of the later tables flattens to its lines and theirs. */
  lemma FlattenClosed(r: Table, x: NumberedLine, rest: seq<Table>, after: seq<NumberedLine>)
    requires Flatten(rest) == after
    ensures Flatten([r + [x]] + rest) == r + ([x] + after)
  {
    FlattenAppend([r + [x]], rest);
    FlattenSingle(r + [x]);
  }

  lemma {:induction false} CoverageClose(doc: seq<string>, o: nat, j: nat)
    requires o < j < |doc| && DelimitersBefore(doc, j) % 2 == 1 && IsDelimiter(doc[j])
    ensures Flatten([Region(doc, o, j + 1)] + TablesFrom(doc, j + 1)) == Region(doc, o, j) + RegionLinesFrom(doc, j)
    decreases |doc| - j, 0
  {
    assert DelimitersBefore(doc, j + 1) == DelimitersBefore(doc, j) + 1;
    assert InRegion(doc, j);
    CoverageFrom(doc, j + 1);
    RegionLinesStep(doc, j);
    RegionSnoc(doc, o, j);
    FlattenClosed(Region(doc, o, j), NumberedLine(j, doc[j]), TablesFrom(doc, j + 1), RegionLinesFrom(doc, j + 1));
  }

  /** The tables hold exactly the lines in table regions, each once, in document order,
      verbatim: no line outside a region is ever captured and none inside is lost. */
  lemma TablesCaptureExactlyRegions(doc: seq<string>)
    ensures Flatten(Tables(doc)) == RegionLinesFrom(doc, 0)
  {
    CoverageFrom(doc, 0);
  }

  /** A table as the scanner cuts it: consecutive document lines, opened by a delimiter,
      with no delimiter strictly inside. */
  predicate WellFormed(doc: seq<string>, t: Table) {
    && t != []
    && t[0].number + |t| <= |doc|
    && t == Region(doc, t[0].number, t[0].number + |t|)
    && IsDelimiter(t[0].text)
    && forall k :: 0 < k < |t| - 1 ==> !IsDelimiter(t[k].text)
  }

  /** A table that ends with its own closing delimiter. */
  predicate Closed(t: Table) {
    |t| >= 2 && IsDelimiter(t[|t| - 1].text)
  }

  /** What holds of every list of tables the scan produces from a line on. */
  predicate Segmented(doc: seq<string>, tables: seq<Table>) {
    && (forall j :: 0 <= j < |tables| ==> WellFormed(doc, tables[j]))
    && (forall j :: 0 <= j < |tables| - 1 ==> Closed(tables[j]))
    && (forall j :: 0 <= j < |tables| && !Closed(tables[j]) ==>
          tables[j][0].number + |tables[j]| == |doc|)
  }

  lemma {:induction false} SegmentedFrom(doc: seq<string>, i: nat)
    requires i <= |doc|
    ensures Segmented(doc, TablesFrom(doc, i))
    ensures forall j :: 0 <= j < |TablesFrom(doc, i)| ==> TablesFrom(doc, i)[j][0].number >= i
    decreases |doc| - i, 1
  {
    if i < |doc| {
      if !IsDelimiter(doc[i]) {
        SegmentedFrom(doc, i + 1);
      } else {
        SegmentedOpen(doc, i, i + 1);
      }
    }
  }

  lemma {:induction false} SegmentedOpen(doc: seq<string>, o: nat, j: nat)
    requires o < j <= |doc| && IsDelimiter(doc[o])
    requires forall k :: o < k < j ==> !IsDelimiter(doc[k])
    ensures var ts := TableOpenedAt(doc, o, j);
      Segmented(doc, ts) && ts != [] && ts[0][0].number == o
      && forall m :: 1 <= m < |ts| ==> ts[m][0].number > j
    decreases |doc| - j, 0
  {
    if j == |doc| {
      RegionWellFormed(doc, o, j);
    } else if IsDelimiter(doc[j]) {
      SegmentedFrom(doc, j + 1);
      RegionWellFormed(doc, o, j + 1);
      var t := Region(doc, o, j + 1);
      SegmentedCons(doc, t, TablesFrom(doc, j + 1));
    } else {
      SegmentedOpen(doc, o, j + 1);
    }
  }

  /** A region opened by a delimiter with no delimiter before its last line is a table. */
  lemma RegionWellFormed(doc: seq<string>, o: nat, e: nat)
    requires o < e <= |doc| && IsDelimiter(doc[o])
    requires forall k :: o < k < e - 1 ==> !IsDelimiter(doc[k])
    ensures WellFormed(doc, Region(doc, o, e))
    ensures Region(doc, o, e)[0].number == o && |Region(doc, o, e)| == e - o
    ensures IsDelimiter(doc[e - 1]) && e - o >= 2 ==> Closed(Region(doc, o, e))
  {
    RegionAll(doc, o, e);
  }

  lemma SegmentedCons(doc: seq<string>, t: Table, rest: seq<Table>)
    requires WellFormed(doc, t) && Closed(t) && Segmented(doc, rest)
    ensures Segmented(doc, [t] + rest)
  {
    var ts := [t] + rest;
    assert forall m :: 1 <= m < |ts| ==> ts[m] == rest[m - 1];
  }

  /** Every table starts with a delimiter line, every table but the last also ends with
      one, only the last may run unclosed to the end of the document, and no delimiter
      appears strictly inside a table. */
  lemma TablesSegmented(doc: seq<string>)
    ensures Segmented(doc, Tables(doc))
  {
    SegmentedFrom(doc, 0);
  }

  /** A numbered line of the document: lines `0 .. |doc| - 1`, verbatim. */
  lemma {:induction false} RegionLinesMember(doc: seq<string>, i: nat, x: NumberedLine)
    requires i <= |doc| && x in RegionLinesFrom(doc, i)
    ensures i <= x.number < |doc| && doc[x.number] == x.text && InRegion(doc, x.number)
    decreases |doc| - i
  {
    if x != NumberedLine(i, doc[i]) || !InRegion(doc, i) {
      RegionLinesMember(doc, i + 1, x);
    }
  }

  lemma {:induction false} FlattenMember(tables: seq<Table>, t: Table, x: NumberedLine)
    requires t in tables && x in t
    ensures x in Flatten(tables)
  {
    if t != tables[0] {
      assert t in tables[1..];
      FlattenMember(tables[1..], t, x);
    }
  }

  /** The finding sits on (the 1-based number of) one of the table's lines. */
  predicate AtTableLine(t: Table, f: Finding) {
    exists k :: 0 <= k < |t| && f.position.line == t[k].number + 1
  }

  /** The finding sits on a document line that lies in a table region. */
  predicate InTableRegion(doc: seq<string>, f: Finding) {
    1 <= f.position.line <= |doc| && InRegion(doc, f.position.line - 1)
  }

  /** Whatever a per-table check reports on the lines of its table, the whole-document
      check reports inside table regions only. */
  lemma FindingsInRegions(doc: seq<string>, check: Table -> seq<Finding>)
    requires forall t: Table, f: Finding :: t in Tables(doc) && f in check(t) ==> AtTableLine(t, f)
    ensures forall f :: f in FlatMap(Tables(doc), check) ==> InTableRegion(doc, f)
  {
    forall f | f in FlatMap(Tables(doc), check)
      ensures InTableRegion(doc, f)
    {
      FlatMapMember(Tables(doc), check, f);
      var t: Table :| t in Tables(doc) && f in check(t);
      var k :| 0 <= k < |t| && f.position.line == t[k].number + 1;
      FlattenMember(Tables(doc), t, t[k]);
      TablesCaptureExactlyRegions(doc);
      RegionLinesMember(doc, 0, t[k]);
    }
  }

  // ---------------------------------------------------------------------------
  // Rows between the markers

  /** `table_lines[1:-1]`: the table without its first and last line. For a table left
      unclosed at the end of the document the last line is an ordinary row, and it is
      dropped all the same. */
  function Inner(t: Table): seq<NumberedLine> {
    if |t| <= 2 then [] else t[1..|t| - 1]
  }

  lemma InnerMember(t: Table, x: NumberedLine)
    requires x in Inner(t)
    ensures exists k :: 1 <= k < |t| - 1 && t[k] == x
  {
    var k :| 0 <= k < |Inner(t)| && Inner(t)[k] == x;
    assert t[k + 1] == x;
  }

  // ---------------------------------------------------------------------------
  // TABLE001: column alignment and header separation

  /** Start offsets of the matches of `\|([^|]*)` in `line`, from offset `i` on. */
  function PipeOffsetsFrom(line: string, i: nat): (r: seq<nat>)
    requires i <= |line|
    ensures |r| <= |line| - i
    decreases |line| - i
  {
    if i == |line| then []
    else if line[i] == '|' then [i] + PipeOffsetsFrom(line, i + 1)
    else PipeOffsetsFrom(line, i + 1)
  }

  /** `r` lists every `|` of `line` at or after offset `i`, in increasing order, and
      nothing else. */
  predicate PipesFrom(line: string, i: nat, r: seq<nat>) {
    && (forall k :: 0 <= k < |r| ==> i <= r[k] < |line| && line[r[k]] == '|')
    && (forall j :: i <= j < |line| && line[j] == '|' ==> j in r)
    && (forall j, k :: 0 <= j < k < |r| ==> r[j] < r[k])
  }

  lemma {:induction false} PipeOffsetsFromSpec(line: string, i: nat)
    requires i <= |line|
    ensures PipesFrom(line, i, PipeOffsetsFrom(line, i))
    decreases |line| - i
  {
    if i < |line| {
      PipeOffsetsFromSpec(line, i + 1);
      var rest := PipeOffsetsFrom(line, i + 1);
      if line[i] == '|' {
        var r := [i] + rest;
        assert PipeOffsetsFrom(line, i) == r;
        forall j, k | 0 <= j < k < |r| ensures r[j] < r[k] {
          assert r[k] == rest[k - 1] && i + 1 <= rest[k - 1];
          if j > 0 {
            assert r[j] == rest[j - 1];
          }
        }
        forall j | i <= j < |line| && line[j] == '|' ensures j in r {
          if j > i {
            assert j in rest;
          }
        }
      }
    }
  }

  /** The offsets at which the cells of a row start (each match of the cell pattern starts
      at a `|` and runs to the next). */
  function PipeOffsets(line: string): seq<nat> {
    PipeOffsetsFrom(line, 0)
  }

  /** The cell offsets of a row are every `|` of it, in increasing order, and nothing else. */
  lemma PipeOffsetsSpec(line: string)
    ensures PipesFrom(line, 0, PipeOffsets(line))
  {
    PipeOffsetsFromSpec(line, 0);
  }

  /** A row the alignment check compares: not blank, and with at least one cell. */
  predicate HasCells(line: string) {
    !IsBlank(line) && PipeOffsets(line) != []
  }

  /**
   * The index of the row the alignment check flags, from row `i` on: `reference` holds
   * the cell offsets of the first row with cells once one has been seen, and the first
   * later row with cells whose offsets differ is flagged; the check stops there.
   */
  function MisalignedFrom(rows: seq<NumberedLine>, i: nat, reference: Option<seq<nat>>): (r: Option<nat>)
    requires i <= |rows|
    ensures r.Some? ==> i <= r.value < |rows|
    decreases |rows| - i
  {
    if i == |rows| then None
    else if !HasCells(rows[i].text) then MisalignedFrom(rows, i + 1, reference)
    else match reference
      case None => MisalignedFrom(rows, i + 1, Some(PipeOffsets(rows[i].text)))
      case Some(offsets) =>
        if PipeOffsets(rows[i].text) != offsets then Some(i)
        else MisalignedFrom(rows, i + 1, reference)
  }

  function AlignmentFinding(row: NumberedLine): Finding {
    Finding("Column alignment is inconsistent with previous rows", Warning,
      Position(row.number + 1), Some(FormatRuleId), Some(LineRecord(row.text)))
  }

  function AlignmentFindings(t: Table): seq<Finding> {
    var rows := Inner(t);
    match MisalignedFrom(rows, 0, None)
    case None => []
    case Some(k) => [AlignmentFinding(rows[k])]
  }

  /** Against a fixed reference, a row is flagged exactly when some row with cells has
      other offsets, and the flagged row is the first such row. */
  lemma {:induction false} MisalignedAgainst(rows: seq<NumberedLine>, i: nat, offsets: seq<nat>)
    requires i <= |rows|
    ensures var r := MisalignedFrom(rows, i, Some(offsets));
      && (r.None? <==>
          forall k :: i <= k < |rows| && HasCells(rows[k].text) ==> PipeOffsets(rows[k].text) == offsets)
      && (r.Some? ==>
          && HasCells(rows[r.value].text) && PipeOffsets(rows[r.value].text) != offsets
          && forall j :: i <= j < r.value && HasCells(rows[j].text) ==> PipeOffsets(rows[j].text) == offsets)
    decreases |rows| - i
  {
    if i < |rows| {
      MisalignedAgainst(rows, i + 1, offsets);
    }
  }

  /** TABLE001 reports no misalignment exactly when all rows with cells start their cells
      at the same offsets. */
  lemma {:induction false} AlignedIff(rows: seq<NumberedLine>, i: nat)
    requires i <= |rows|
    ensures MisalignedFrom(rows, i, None).None? <==>
      forall j, k :: i <= j < |rows| && i <= k < |rows| && HasCells(rows[j].text) && HasCells(rows[k].text)
        ==> PipeOffsets(rows[j].text) == PipeOffsets(rows[k].text)
    decreases |rows| - i
  {
    if i < |rows| {
      if !HasCells(rows[i].text) {
        AlignedIff(rows, i + 1);
      } else {
        MisalignedAgainst(rows, i + 1, PipeOffsets(rows[i].text));
      }
    }
  }

  /** A flagged row is the first row whose offsets differ from those of the first row
      with cells. */
  lemma {:induction false} MisalignedIsFirstMismatch(rows: seq<NumberedLine>, i: nat)
    requires i <= |rows| && MisalignedFrom(rows, i, None).Some?
    ensures var k := MisalignedFrom(rows, i, None).value;
      exists j :: i <= j < k && FirstWithCells(rows, i, j) && FirstMismatchAfter(rows, j, k)
    decreases |rows| - i
  {
    if !HasCells(rows[i].text) {
      MisalignedIsFirstMismatch(rows, i + 1);
      var k := MisalignedFrom(rows, i, None).value;
      var j :| i + 1 <= j < k && FirstWithCells(rows, i + 1, j) && FirstMismatchAfter(rows, j, k);
      assert FirstWithCells(rows, i, j);
    } else {
      MisalignedAgainst(rows, i + 1, PipeOffsets(rows[i].text));
      assert FirstWithCells(rows, i, i);
    }
  }

  /** Row `j` is the first row with cells from row `i` on. */
  predicate FirstWithCells(rows: seq<NumberedLine>, i: nat, j: nat) {
    && i <= j < |rows| && HasCells(rows[j].text)
    && forall l :: i <= l < j ==> !HasCells(rows[l].text)
  }

  /** Row `k` is the first row after `j` with cells at other offsets than row `j`'s. */
  predicate FirstMismatchAfter(rows: seq<NumberedLine>, j: nat, k: nat) {
    && j < k < |rows| && HasCells(rows[k].text)
    && PipeOffsets(rows[k].text) != PipeOffsets(rows[j].text)
    && forall l :: j < l < k && HasCells(rows[l].text) ==> PipeOffsets(rows[l].text) == PipeOffsets(rows[j].text)
  }

  /** `check_column_alignment`: record the cell offsets of each row with cells and stop
      at the first row that disagrees with the first recorded one. */
  method CheckColumnAlignment(t: Table) returns (findings: seq<Finding>)
    ensures findings == AlignmentFindings(t)
    ensures |findings| <= 1
  {
    findings := [];
    var cellPositions: seq<seq<nat>> := [];
    var rows := if |t| <= 2 then [] else t[1..|t| - 1];
    var i := 0;
    while i < |rows|
      invariant i <= |rows|
      invariant MisalignedFrom(rows, 0, None)
        == MisalignedFrom(rows, i, if cellPositions == [] then None else Some(cellPositions[0]))
    {
      var row := rows[i];
      if !IsBlank(row.text) {
        var positions := PipeOffsets(row.text);
        if positions != [] {
          if cellPositions != [] && positions != cellPositions[0] {
            findings := findings + [AlignmentFinding(row)];
            return;
          }
          cellPositions := cellPositions + [positions];
        }
      }
      i := i + 1;
    }
  }

  /** The header row from index `i` on: the first line before the last with a `|`. */
  function HeaderFrom(t: Table, i: nat): (h: Option<nat>)
    requires 1 <= i
    ensures h.Some? ==>
      && i <= h.value < |t| - 1 && '|' in t[h.value].text
      && forall k :: i <= k < h.value ==> '|' !in t[k].text
    ensures h.None? ==> forall k :: i <= k < |t| - 1 ==> '|' !in t[k].text
    decreases |t| - i
  {
    if i >= |t| - 1 then None
    else if '|' in t[i].text then Some(i)
    else HeaderFrom(t, i + 1)
  }

  function HeaderSeparatorFinding(next: NumberedLine): Finding {
    Finding("Header row should be followed by an empty line", Warning,
      Position(next.number + 1), Some(FormatRuleId), Some(LineRecord(next.text)))
  }

  /** The header row is the first line after the opening marker with a `|`; the line after
      it, when it is not the table's last line, must be blank. */
  function HeaderFindings(t: Table): seq<Finding> {
    match HeaderFrom(t, 1)
    case None => []
    case Some(h) =>
      if h + 1 < |t| - 1 && !IsBlank(t[h + 1].text) then [HeaderSeparatorFinding(t[h + 1])] else []
  }

  /** Line `h` is the header row (the first line after the opening marker with a `|`),
      and it is followed by a non-blank line that is not the table's last. */
  predicate HeaderFollowedByText(t: Table, h: nat) {
    && 1 <= h && h + 1 < |t| - 1 && '|' in t[h].text
    && (forall k :: 1 <= k < h ==> '|' !in t[k].text) && !IsBlank(t[h + 1].text)
  }

  /** TABLE001 asks for a blank line after the header row exactly when the header row is
      followed by a non-blank line that is not the table's last, and then says so once,
      on that line. */
  lemma HeaderSeparatorIff(t: Table)
    ensures |HeaderFindings(t)| <= 1
    ensures HeaderFindings(t) != [] <==> exists h: nat :: HeaderFollowedByText(t, h)
    ensures forall f :: f in HeaderFindings(t) ==> exists h :: 1 < h < |t| - 1 && f == HeaderSeparatorFinding(t[h])
  {
    if HeaderFrom(t, 1).Some? {
      var h := HeaderFrom(t, 1).value;
      if h + 1 < |t| - 1 && !IsBlank(t[h + 1].text) {
        assert HeaderFindings(t)[0] == HeaderSeparatorFinding(t[h + 1]);
        assert HeaderFollowedByText(t, h);
      }
    }
    if h': nat :| HeaderFollowedByText(t, h') {
      assert HeaderFrom(t, 1).Some?;
      var h := HeaderFrom(t, 1).value;
      assert !(h < h');
      assert h == h';
    }
  }

  /** `check_header_separator`: find the header row, then look at the line after it. */
  method CheckHeaderSeparator(t: Table) returns (findings: seq<Finding>)
    ensures findings == HeaderFindings(t)
  {
    findings := [];
    var headerLine: Option<nat> := None;
    var i := 1;
    while i < |t| - 1
      invariant 1 <= i
      invariant headerLine.None? ==> HeaderFrom(t, 1) == HeaderFrom(t, i)
      invariant headerLine.Some? ==> HeaderFrom(t, 1) == headerLine
    {
      if '|' in t[i].text {
        headerLine := Some(i);
        break;
      }
      i := i + 1;
    }
    if headerLine.Some? {
      var nextLine := headerLine.value + 1;
      if nextLine < |t| - 1 {
        if !IsBlank(t[nextLine].text) {
          findings := findings + [HeaderSeparatorFinding(t[nextLine])];
        }
      }
    }
  }

  function TableFormatFindings(t: Table): seq<Finding> {
    AlignmentFindings(t) + HeaderFindings(t)
  }

  function FormatFindings(doc: seq<string>): seq<Finding> {
    FlatMap(Tables(doc), TableFormatFindings)
  }

  /** `TableFormatRule.check`: both checks on every table, in document order. */
  method CheckFormat(doc: seq<string>) returns (findings: seq<Finding>)
    ensures findings == FormatFindings(doc)
  {
    var tables := ExtractTableLines(doc);
    findings := [];
    var i := 0;
    while i < |tables|
      invariant i <= |tables|
      invariant findings == FlatMap(tables[..i], TableFormatFindings)
    {
      var alignment := CheckColumnAlignment(tables[i]);
      var separator := CheckHeaderSeparator(tables[i]);
      FlatMapSnoc(tables, i, TableFormatFindings);
      findings := findings + (alignment + separator);
      i := i + 1;
    }
    assert tables[..i] == tables;
  }

  /** TABLE001 findings are warnings of that rule, on lines inside table regions, at most
      two per table. */
  lemma FormatFindingsShape(doc: seq<string>)
    ensures forall f :: f in FormatFindings(doc) ==>
      f.ruleId == Some(FormatRuleId) && f.severity == Warning && InTableRegion(doc, f)
    ensures |FormatFindings(doc)| <= 2 * |Tables(doc)|
  {
    forall t: Table, f: Finding | t in Tables(doc) && f in TableFormatFindings(t)
      ensures AtTableLine(t, f) && f.ruleId == Some(FormatRuleId) && f.severity == Warning
    {
      if f in AlignmentFindings(t) {
        var k := MisalignedFrom(Inner(t), 0, None).value;
        InnerMember(t, Inner(t)[k]);
      } else {
        HeaderSeparatorIff(t);
      }
    }
    FindingsInRegions(doc, TableFormatFindings);
    forall f | f in FormatFindings(doc)
      ensures f.ruleId == Some(FormatRuleId) && f.severity == Warning
    {
      FlatMapMember(Tables(doc), TableFormatFindings, f);
    }
    FlatMapLength(Tables(doc), TableFormatFindings, 2);
  }

  // ---------------------------------------------------------------------------
  // TABLE002: column count and empty tables

  /** `count_columns`: the number of `|` characters in the row, none for a marker line. */
  function CountColumns(line: string): nat {
    if Strip(line) == TableDelimiter then 0 else CountChar(line, '|')
  }

  /** The count is the one the code takes: the pieces of `line.split("|")` after the
      first. */
  lemma CountColumnsIsSplitCount(line: string)
    ensures Strip(line) != TableDelimiter ==> CountColumns(line) == |Split(line, '|')[1..]|
  {
  }

  /** A row that counts as content: not blank, holding a `|`, and not a marker. */
  predicate IsContentRow(line: string) {
    var stripped := Strip(line);
    stripped != [] && '|' in stripped && stripped != TableDelimiter
  }

  /** The column count of a row, as the check computes it (on the stripped row). */
  function Columns(line: string): nat {
    CountColumns(Strip(line))
  }

  /** The column count of a content row is the number of `|` characters in it. */
  lemma ColumnsOfContentRow(line: string)
    requires IsContentRow(line)
    ensures Columns(line) == CountChar(line, '|')
  {
    StripIdempotent(line);
    StripKeepsCount(line, '|');
  }

  function ColumnCountFinding(expected: nat, found: nat, row: NumberedLine): Finding {
    Finding("Inconsistent column count. Expected " + NatToString(expected) + ", found " + NatToString(found),
      Error, Position(row.number + 1), Some(StructureRuleId), Some(LineRecord(row.text)))
  }

  function EmptyTableFinding(opening: NumberedLine): Finding {
    Finding("Empty table", Warning, Position(opening.number + 1), Some(StructureRuleId),
      Some(LineRecord(opening.text)))
  }

  /** The column-count errors from row `i` on; `expected` is the count of the first content
      row once one has been seen. */
  function ColumnErrors(rows: seq<NumberedLine>, i: nat, expected: Option<nat>): seq<Finding>
    requires i <= |rows|
    decreases |rows| - i
  {
    if i == |rows| then []
    else if !IsContentRow(rows[i].text) then ColumnErrors(rows, i + 1, expected)
    else
      var current := Columns(rows[i].text);
      match expected
      case None => ColumnErrors(rows, i + 1, Some(current))
      case Some(c) =>
        (if current != c then [ColumnCountFinding(c, current, rows[i])] else [])
        + ColumnErrors(rows, i + 1, expected)
  }

  predicate HasContent(rows: seq<NumberedLine>) {
    HasContentBefore(rows, |rows|)
  }

  /** One of the first `i` rows is a content row. */
  predicate HasContentBefore(rows: seq<NumberedLine>, i: nat)
    requires i <= |rows|
  {
    exists k :: 0 <= k < i && IsContentRow(rows[k].text)
  }

  /** `check_table_structure` on a table. On an empty table the source would raise
      IndexError at `table_lines[0][0]`; that case never arises, because the tables the
      scanner produces are never empty (`TablesSegmented`), so the `[]` branch only
      makes the function total. */
  function StructureFindings(t: Table): seq<Finding> {
    if t == [] then []
    else
      var rows := Inner(t);
      ColumnErrors(rows, 0, None) + (if HasContent(rows) then [] else [EmptyTableFinding(t[0])])
  }

  /** Row `k`, at or after row `i`, is a content row whose count is not `c`. */
  predicate MismatchAt(rows: seq<NumberedLine>, i: nat, c: nat, k: nat) {
    i <= k < |rows| && IsContentRow(rows[k].text) && Columns(rows[k].text) != c
  }

  /** Against the count of the first content row, every error names a later content row
      with another count ... */
  lemma {:induction false} ColumnErrorsSound(rows: seq<NumberedLine>, i: nat, c: nat, f: Finding)
    requires i <= |rows| && f in ColumnErrors(rows, i, Some(c))
    ensures exists k: nat :: MismatchAt(rows, i, c, k) && f == ColumnCountFinding(c, Columns(rows[k].text), rows[k])
    decreases |rows| - i
  {
    var current := Columns(rows[i].text);
    if IsContentRow(rows[i].text) && current != c && f == ColumnCountFinding(c, current, rows[i]) {
      assert MismatchAt(rows, i, c, i);
    } else {
      ColumnErrorsSound(rows, i + 1, c, f);
      var k: nat :| MismatchAt(rows, i + 1, c, k) && f == ColumnCountFinding(c, Columns(rows[k].text), rows[k]);
      assert MismatchAt(rows, i, c, k);
    }
  }

  /** ... every such row gets its error ... */
  lemma {:induction false} ColumnErrorsComplete(rows: seq<NumberedLine>, i: nat, c: nat, k: nat)
    requires i <= |rows| && MismatchAt(rows, i, c, k)
    ensures ColumnCountFinding(c, Columns(rows[k].text), rows[k]) in ColumnErrors(rows, i, Some(c))
    decreases |rows| - i
  {
    if k > i {
      ColumnErrorsComplete(rows, i + 1, c, k);
    }
  }

  /** ... and there are none exactly when no row disagrees ... */
  lemma {:induction false} ColumnErrorsKind(rows: seq<NumberedLine>, i: nat, c: nat)
    requires i <= |rows|
    ensures ColumnErrors(rows, i, Some(c)) == [] <==> NoMismatch(rows, i, c)
    decreases |rows| - i
  {
    if i < |rows| {
      ColumnErrorsKind(rows, i + 1, c);
      MismatchErrorsStep(rows, i, c);
      NoMismatchStep(rows, i, c);
    }
  }

  /** Row `i` contributes its error, if any, ahead of the later rows' errors. */
  lemma MismatchErrorsStep(rows: seq<NumberedLine>, i: nat, c: nat)
    requires i < |rows|
    ensures ColumnErrors(rows, i, Some(c)) ==
      (if MismatchAt(rows, i, c, i) then [ColumnCountFinding(c, Columns(rows[i].text), rows[i])] else [])
      + ColumnErrors(rows, i + 1, Some(c))
  {
  }

  lemma NoMismatchStep(rows: seq<NumberedLine>, i: nat, c: nat)
    requires i < |rows|
    ensures NoMismatch(rows, i, c) <==> !MismatchAt(rows, i, c, i) && NoMismatch(rows, i + 1, c)
  {
    if !NoMismatch(rows, i, c) {
      var k :| i <= k < |rows| && IsContentRow(rows[k].text) && Columns(rows[k].text) != c;
      if k > i {
        assert !NoMismatch(rows, i + 1, c);
      }
    }
  }

  /** ... and they are errors of this rule. */
  lemma ColumnErrorsAreErrors(rows: seq<NumberedLine>, i: nat, c: nat)
    requires i <= |rows|
    ensures forall f :: f in ColumnErrors(rows, i, Some(c)) ==> f.severity == Error && f.ruleId == Some(StructureRuleId)
  {
    forall f | f in ColumnErrors(rows, i, Some(c))
      ensures f.severity == Error && f.ruleId == Some(StructureRuleId)
    {
      ColumnErrorsSound(rows, i, c, f);
    }
  }

  /** Without content rows there is nothing to compare. */
  lemma {:induction false} NoContentNoErrors(rows: seq<NumberedLine>, i: nat, expected: Option<nat>)
    requires i <= |rows| && forall k :: i <= k < |rows| ==> !IsContentRow(rows[k].text)
    ensures ColumnErrors(rows, i, expected) == []
    decreases |rows| - i
  {
    if i < |rows| {
      NoContentNoErrors(rows, i + 1, expected);
    }
  }

  /** Before the first content row nothing is reported; from it on, the errors are those
      against its count. */
  lemma {:induction false} ColumnErrorsStart(rows: seq<NumberedLine>, i: nat)
    requires i <= |rows| && exists k :: i <= k < |rows| && IsContentRow(rows[k].text)
    ensures var j := FirstContentFrom(rows, i);
      ColumnErrors(rows, i, None) == ColumnErrors(rows, j + 1, Some(Columns(rows[j].text)))
    decreases |rows| - i
  {
    if !IsContentRow(rows[i].text) {
      ColumnErrorsStart(rows, i + 1);
    }
  }

  /** The index of the first content row from row `i` on. */
  function FirstContentFrom(rows: seq<NumberedLine>, i: nat): (j: nat)
    requires i <= |rows| && exists k :: i <= k < |rows| && IsContentRow(rows[k].text)
    ensures i <= j < |rows| && IsContentRow(rows[j].text)
    ensures forall l :: i <= l < j ==> !IsContentRow(rows[l].text)
    decreases |rows| - i
  {
    if IsContentRow(rows[i].text) then i else FirstContentFrom(rows, i + 1)
  }

  /** All content rows have the same number of columns. */
  predicate SameColumns(rows: seq<NumberedLine>) {
    forall j, k :: 0 <= j < |rows| && 0 <= k < |rows| && IsContentRow(rows[j].text) && IsContentRow(rows[k].text)
      ==> Columns(rows[j].text) == Columns(rows[k].text)
  }

  predicate NoErrors(findings: seq<Finding>) {
    forall f :: f in findings ==> f.severity != Error
  }

  /** No content row from row `i` on has a count other than `c`. */
  predicate NoMismatch(rows: seq<NumberedLine>, i: nat, c: nat) {
    forall k :: i <= k < |rows| && IsContentRow(rows[k].text) ==> Columns(rows[k].text) == c
  }

  /** All content rows agree exactly when none after the first disagrees with it. */
  lemma SameColumnsIff(rows: seq<NumberedLine>, j: nat)
    requires j < |rows| && IsContentRow(rows[j].text)
    requires forall l :: 0 <= l < j ==> !IsContentRow(rows[l].text)
    ensures SameColumns(rows) <==> NoMismatch(rows, j + 1, Columns(rows[j].text))
  {
    var c := Columns(rows[j].text);
    if NoMismatch(rows, j + 1, c) {
      forall k | 0 <= k < |rows| && IsContentRow(rows[k].text)
        ensures Columns(rows[k].text) == c
      {
        if k > j {
          assert j + 1 <= k;
        }
      }
    }
  }

  /** With a content row, the findings are the errors against the first one's count. */
  lemma StructureFindingsWithContent(t: Table)
    requires t != [] && HasContent(Inner(t))
    ensures var rows := Inner(t);
      var j := FirstContentFrom(rows, 0);
      StructureFindings(t) == ColumnErrors(rows, j + 1, Some(Columns(rows[j].text)))
  {
    ColumnErrorsStart(Inner(t), 0);
  }

  /** TABLE002 reports no column-count error exactly when all content rows have as many
      columns as one another. */
  lemma ConsistentColumnsIff(t: Table)
    requires t != []
    ensures NoErrors(StructureFindings(t)) <==> SameColumns(Inner(t))
  {
    var rows := Inner(t);
    if HasContent(rows) {
      var j := FirstContentFrom(rows, 0);
      var c := Columns(rows[j].text);
      var errs := ColumnErrors(rows, j + 1, Some(c));
      StructureFindingsWithContent(t);
      assert StructureFindings(t) == errs;
      ColumnErrorsNoErrors(rows, j + 1, c);
      ColumnErrorsKind(rows, j + 1, c);
      SameColumnsIff(rows, j);
      assert NoErrors(errs) <==> NoMismatch(rows, j + 1, c);
    } else {
      NoContentNoErrors(rows, 0, None);
      assert StructureFindings(t) == [EmptyTableFinding(t[0])];
    }
  }

  /** The column-count errors hold an error exactly when there are any. */
  lemma ColumnErrorsNoErrors(rows: seq<NumberedLine>, i: nat, c: nat)
    requires i <= |rows|
    ensures NoErrors(ColumnErrors(rows, i, Some(c))) <==> ColumnErrors(rows, i, Some(c)) == []
  {
    var errs := ColumnErrors(rows, i, Some(c));
    if errs != [] {
      assert errs[0] in errs;
      ColumnErrorsSound(rows, i, c, errs[0]);
    }
  }

  /** A table without content rows gets exactly one finding, the "Empty table" warning on
      its opening line; a table with content rows never gets it. */
  lemma EmptyTableIff(t: Table)
    requires t != []
    ensures !HasContent(Inner(t)) ==> StructureFindings(t) == [EmptyTableFinding(t[0])]
    ensures EmptyTableFinding(t[0]) in StructureFindings(t) <==> !HasContent(Inner(t))
  {
    var rows := Inner(t);
    if HasContent(rows) {
      ColumnErrorsStart(rows, 0);
      var j := FirstContentFrom(rows, 0);
      ColumnErrorsAreErrors(rows, j + 1, Columns(rows[j].text));
    } else {
      NoContentNoErrors(rows, 0, None);
    }
  }

  /** Every TABLE002 finding of a table sits on one of its lines. */
  lemma StructureFindingsAtLines(t: Table)
    ensures forall f :: f in StructureFindings(t) ==> AtTableLine(t, f) && f.ruleId == Some(StructureRuleId)
  {
    if t != [] {
      var rows := Inner(t);
      if HasContent(rows) {
        ContentFindingsAtLines(t);
      } else {
        NoContentNoErrors(rows, 0, None);
        assert AtTableLine(t, EmptyTableFinding(t[0]));
      }
    }
  }

  /** The column errors of a table with content rows name lines of the table. */
  lemma ContentFindingsAtLines(t: Table)
    requires t != [] && HasContent(Inner(t))
    ensures forall f :: f in StructureFindings(t) ==> AtTableLine(t, f) && f.ruleId == Some(StructureRuleId)
  {
    var rows := Inner(t);
    ColumnErrorsStart(rows, 0);
    var j := FirstContentFrom(rows, 0);
    var c := Columns(rows[j].text);
    ColumnErrorsAreErrors(rows, j + 1, c);
    forall f | f in StructureFindings(t)
      ensures AtTableLine(t, f)
    {
      ColumnErrorsSound(rows, j + 1, c, f);
      var k: nat :| MismatchAt(rows, j + 1, c, k) && f == ColumnCountFinding(c, Columns(rows[k].text), rows[k]);
      InnerMember(t, rows[k]);
    }
  }

  /** One step of the scan over the rows. */
  lemma ColumnErrorsStep(rows: seq<NumberedLine>, i: nat, expected: Option<nat>)
    requires i < |rows|
    ensures HasContentBefore(rows, i + 1) <==> HasContentBefore(rows, i) || IsContentRow(rows[i].text)
    ensures !IsContentRow(rows[i].text) ==> ColumnErrors(rows, i, expected) == ColumnErrors(rows, i + 1, expected)
    ensures IsContentRow(rows[i].text) && expected.None? ==>
      ColumnErrors(rows, i, expected) == ColumnErrors(rows, i + 1, Some(Columns(rows[i].text)))
    ensures IsContentRow(rows[i].text) && expected.Some? && Columns(rows[i].text) == expected.value ==>
      ColumnErrors(rows, i, expected) == ColumnErrors(rows, i + 1, expected)
    ensures IsContentRow(rows[i].text) && expected.Some? && Columns(rows[i].text) != expected.value ==>
      ColumnErrors(rows, i, expected)
        == [ColumnCountFinding(expected.value, Columns(rows[i].text), rows[i])] + ColumnErrors(rows, i + 1, expected)
  {
  }

  /** `check_table_structure`: count content rows, take the first one's column count as
      the expected one and flag every later row that differs; flag a table with no
      content row as empty. */
  method CheckTableStructure(t: Table) returns (findings: seq<Finding>)
    requires t != []
    ensures findings == StructureFindings(t)
  {
    findings := [];
    var columnCount: Option<nat> := None;
    var contentLines := 0;
    var rows := Inner(t);
    var i := 0;
    while i < |rows|
      invariant i <= |rows|
      invariant ColumnErrors(rows, 0, None) == findings + ColumnErrors(rows, i, columnCount)
      invariant contentLines > 0 <==> HasContentBefore(rows, i)
      invariant columnCount.None? <==> contentLines == 0
    {
      var line := rows[i].text;
      var stripped := Strip(line);
      ColumnErrorsStep(rows, i, columnCount);
      ghost var countBefore := columnCount;
      if stripped != [] {
        if '|' in stripped && stripped != TableDelimiter {
          contentLines := contentLines + 1;
          var currentColumns := CountColumns(stripped);
          if columnCount.None? {
            columnCount := Some(currentColumns);
          } else if currentColumns != columnCount.value {
            var f := ColumnCountFinding(columnCount.value, currentColumns, rows[i]);
            assert findings + ([f] + ColumnErrors(rows, i + 1, columnCount))
              == (findings + [f]) + ColumnErrors(rows, i + 1, columnCount);
            findings := findings + [f];
          }
        }
      }
      i := i + 1;
    }
    if contentLines == 0 {
      findings := findings + [EmptyTableFinding(t[0])];
    }
  }

  function StructureFindingsOf(doc: seq<string>): seq<Finding> {
    FlatMap(Tables(doc), StructureFindings)
  }

  /** `TableStructureRule.check`: the structure check on every table, in document order. */
  method CheckStructure(doc: seq<string>) returns (findings: seq<Finding>)
    ensures findings == StructureFindingsOf(doc)
  {
    var tables := ExtractTableLines(doc);
    TablesSegmented(doc);
    findings := [];
    var i := 0;
    while i < |tables|
      invariant i <= |tables|
      invariant findings == FlatMap(tables[..i], StructureFindings)
    {
      var more := CheckTableStructure(tables[i]);
      FlatMapSnoc(tables, i, StructureFindings);
      findings := findings + more;
      i := i + 1;
    }
    assert tables[..i] == tables;
  }

  /** TABLE002 findings belong to that rule and sit on lines inside table regions. */
  lemma StructureFindingsInTables(doc: seq<string>)
    ensures forall f :: f in StructureFindingsOf(doc) ==>
      f.ruleId == Some(StructureRuleId) && InTableRegion(doc, f)
  {
    forall t | t in Tables(doc) {
      StructureFindingsAtLines(t);
    }
    FindingsInRegions(doc, StructureFindings);
    forall f | f in StructureFindingsOf(doc)
      ensures f.ruleId == Some(StructureRuleId)
    {
      FlatMapMember(Tables(doc), StructureFindings, f);
    }
  }

  // ---------------------------------------------------------------------------
  // TABLE003: lists in cells

  /** A cell: its style prefix (`""`, `"a"` or `"l"`) and its stripped content. */
  datatype Cell = Cell(prefix: string, content: string)

  /** One piece of a row: stripped, with a leading `a` or `l` taken as the style prefix
      when something follows it. */
  function CellOf(part: string): Cell {
    var p := Strip(part);
    if |p| > 1 && (p[0] == 'a' || p[0] == 'l') then Cell(p[..1], Strip(p[1..])) else Cell("", p)
  }

  /** `extract_cells`: the pieces of the row after the first `|`, none for a marker. */
  function ExtractCells(line: string): (cells: seq<Cell>)
    ensures Strip(line) != TableDelimiter ==> |cells| == CountColumns(line)
    ensures forall k :: 0 <= k < |cells| ==> cells[k].prefix in {"", "a", "l"} && '|' !in cells[k].content
  {
    if Strip(line) == TableDelimiter then []
    else
      var parts := Split(line, '|')[1..];
      seq(|parts|, k requires 0 <= k < |parts| => CellOfPiece(parts[k]))
  }

  /** A marker row has no cells; any other row has one cell per piece after the first
      `|`, and a piece gets a style prefix only when, stripped, it starts with `a` or `l`
      and is longer than that letter; the content is then the rest, stripped, and
      otherwise the whole stripped piece. */
  lemma ExtractCellsSpec(line: string)
    ensures Strip(line) == TableDelimiter ==> ExtractCells(line) == []
    ensures Strip(line) != TableDelimiter ==>
      var parts := Split(line, '|')[1..];
      forall k :: 0 <= k < |parts| ==>
        var p := Strip(parts[k]); var c := ExtractCells(line)[k];
        && (c.prefix != "" <==> |p| > 1 && (p[0] == 'a' || p[0] == 'l'))
        && (c.prefix != "" ==> c.prefix == [p[0]] && c.content == Strip(p[1..]))
        && (c.prefix == "" ==> c.content == p)
  {
    if Strip(line) != TableDelimiter {
      var parts := Split(line, '|')[1..];
      CountColumnsIsSplitCount(line);
      forall k | 0 <= k < |parts|
        ensures var p := Strip(parts[k]); var c := ExtractCells(line)[k];
          && (c.prefix != "" <==> |p| > 1 && (p[0] == 'a' || p[0] == 'l'))
          && (c.prefix != "" ==> c.prefix == [p[0]] && c.content == Strip(p[1..]))
          && (c.prefix == "" ==> c.content == p)
      {
        var p := Strip(parts[k]);
        if |p| > 1 {
          assert p[..1] == [p[0]];
        }
      }
    }
  }

  /** `CellOf` on a piece without `|`, which keeps none. */
  function CellOfPiece(part: string): (c: Cell)
    requires '|' !in part
    ensures c == CellOf(part)
    ensures c.prefix in {"", "a", "l"} && '|' !in c.content
  {
    StripInfix(part);
    var p := Strip(part);
    if |p| > 1 && (p[0] == 'a' || p[0] == 'l') then
      StripInfix(p[1..]);
      assert p[..1] == [p[0]];
      Cell(p[..1], Strip(p[1..]))
    else Cell("", p)
  }

  /** `^\s*[*-]`: after optional whitespace the content starts with `*` or `-`. */
  predicate IsListContent(content: string) {
    var rest := LStrip(content);
    rest != [] && (rest[0] == '*' || rest[0] == '-')
  }

  function ListFinding(lineNumber: nat, context: string): Finding {
    Finding("List in table cell requires 'a|' or 'l|' declaration", Warning,
      Position(lineNumber + 1), Some(ContentRuleId), Some(LineRecord(context)))
  }

  /** `check_cell_content`: a list in a cell needs the `a` or `l` style. */
  function CheckCellContent(prefix: string, content: string, lineNumber: nat, context: string): (r: Option<Finding>)
    ensures r.Some? <==> content != [] && IsListContent(content) && prefix != "a" && prefix != "l"
    ensures r.Some? ==> r.value.position.line == lineNumber + 1 && r.value.severity == Warning
  {
    if content != [] && IsListContent(content) && !(prefix in ["a", "l"]) then
      Some(ListFinding(lineNumber, context))
    else None
  }

  /** A cell holding a list without the `a` or `l` style. */
  predicate UndeclaredList(c: Cell) {
    c.content != [] && IsListContent(c.content) && c.prefix != "a" && c.prefix != "l"
  }

  /** A row the content check skips: blank, or a marker. */
  predicate SkippedRow(line: string) {
    IsBlank(line) || Strip(line) == TableDelimiter
  }

  /** What TABLE003 reports on one row: one warning when some cell holds an undeclared
      list, however many do. */
  function RowListFindings(row: NumberedLine): seq<Finding> {
    if SkippedRow(row.text) then []
    else
      var cells := ExtractCells(row.text);
      if UndeclaredBefore(cells, |cells|) then [ListFinding(row.number, row.text)]
      else []
  }

  /** One of the first `i` cells holds an undeclared list. */
  predicate UndeclaredBefore(cells: seq<Cell>, i: nat)
    requires i <= |cells|
  {
    exists k :: 0 <= k < i && UndeclaredList(cells[k])
  }

  lemma UndeclaredStep(cells: seq<Cell>, i: nat)
    requires i < |cells|
    ensures UndeclaredBefore(cells, i + 1) <==> UndeclaredBefore(cells, i) || UndeclaredList(cells[i])
  {
  }

  /** The per-row part of `TableContentRule.check`: walk the cells, report the first
      undeclared list and no further one. */
  method CheckRowCells(row: NumberedLine) returns (findings: seq<Finding>)
    ensures findings == RowListFindings(row)
  {
    findings := [];
    var line := row.text;
    if IsBlank(line) || Strip(line) == TableDelimiter {
      return;
    }
    var cells := ExtractCells(line);
    var foundList := false;
    var i := 0;
    while i < |cells|
      invariant i <= |cells|
      invariant foundList == UndeclaredBefore(cells, i)
      invariant findings == if foundList then [ListFinding(row.number, line)] else []
    {
      var cell := cells[i];
      UndeclaredStep(cells, i);
      if cell.content != [] && IsListContent(cell.content) {
        if !foundList {
          var finding := CheckCellContent(cell.prefix, cell.content, row.number, line);
          if finding.Some? {
            findings := findings + [finding.value];
            foundList := true;
          }
        }
      }
      i := i + 1;
    }
    assert RowListFindings(row) == if UndeclaredBefore(cells, |cells|) then [ListFinding(row.number, line)] else [];
  }

  function TableListFindings(t: Table): seq<Finding> {
    FlatMap(Inner(t), RowListFindings)
  }

  function ContentFindings(doc: seq<string>): seq<Finding> {
    FlatMap(Tables(doc), TableListFindings)
  }

  /** `TableContentRule.check`: every row between the markers of every table. */
  method CheckContent(doc: seq<string>) returns (findings: seq<Finding>)
    ensures findings == ContentFindings(doc)
  {
    var tables := ExtractTableLines(doc);
    findings := [];
    var i := 0;
    while i < |tables|
      invariant i <= |tables|
      invariant findings == FlatMap(tables[..i], TableListFindings)
    {
      var rows := Inner(tables[i]);
      var tableFindings := [];
      var j := 0;
      while j < |rows|
        invariant j <= |rows|
        invariant tableFindings == FlatMap(rows[..j], RowListFindings)
      {
        var rowFindings := CheckRowCells(rows[j]);
        FlatMapSnoc(rows, j, RowListFindings);
        tableFindings := tableFindings + rowFindings;
        j := j + 1;
      }
      assert rows[..j] == rows;
      FlatMapSnoc(tables, i, TableListFindings);
      findings := findings + tableFindings;
      i := i + 1;
    }
    assert tables[..i] == tables;
  }

  /** TABLE003 reports at most one warning per row, on rows between the markers of a
      table, and a row gets one exactly when one of its cells holds an undeclared list. */
  lemma ContentFindingsShape(doc: seq<string>)
    ensures forall f :: f in ContentFindings(doc) ==>
      f.ruleId == Some(ContentRuleId) && f.severity == Warning && InTableRegion(doc, f)
    ensures forall t :: t in Tables(doc) ==> |TableListFindings(t)| <= |Inner(t)|
  {
    forall t: Table, f: Finding | t in Tables(doc) && f in TableListFindings(t)
      ensures AtTableLine(t, f) && f.ruleId == Some(ContentRuleId) && f.severity == Warning
    {
      FlatMapMember(Inner(t), RowListFindings, f);
      var row :| row in Inner(t) && f in RowListFindings(row);
      InnerMember(t, row);
    }
    FindingsInRegions(doc, TableListFindings);
    forall f | f in ContentFindings(doc)
      ensures f.ruleId == Some(ContentRuleId) && f.severity == Warning
    {
      FlatMapMember(Tables(doc), TableListFindings, f);
    }
    forall t | t in Tables(doc)
      ensures |TableListFindings(t)| <= |Inner(t)|
    {
      FlatMapLength(Inner(t), RowListFindings, 1);
    }
  }

  /** The row holds a cell with an undeclared list (and is not skipped). */
  predicate ReportsList(row: NumberedLine) {
    !SkippedRow(row.text) && UndeclaredBefore(ExtractCells(row.text), |ExtractCells(row.text)|)
  }

  /** TABLE003 reports exactly one warning per row that holds an undeclared list, however
      many such cells the row has: two such rows give two warnings. */
  lemma {:induction false} OneFindingPerListRow(rows: seq<NumberedLine>)
    ensures |FlatMap(rows, RowListFindings)| == |Filter(rows, ReportsList)|
  {
    if rows != [] {
      var init := rows[..|rows| - 1];
      OneFindingPerListRow(init);
    }
  }
}
