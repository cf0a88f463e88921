/**
 * The image rule (IMG001). A line is either a block image (`image::path[attrs]`, after
 * stripping) or holds any number of inline images (`image:path[attrs]`); each image is
 * checked for a file behind its path and for its alt text. The rule keeps the line number
 * and the line text of the call in two instance fields that the per-image checks read.
 *
 * The two regular expressions are replaced by hand-written recognisers with the same
 * matches; whether a path names an existing file is membership in a given set of paths.
 */
module ImageRules {
  import opened Wrappers
  import opened Text
  import opened Findings
  import opened Seqs

  const RuleId: string := "IMG001"

  /** Block images are written `image::`, inline images `image:`. */
  datatype ImageKind = Block | Inline {
    function Name(): string {
      match this
      case Block => "block"
      case Inline => "inline"
    }
  }

  function ImageFinding(message: string, severity: Severity, lineNumber: nat, context: string): Finding {
    Finding(message, severity, Position(lineNumber + 1), Some(RuleId), Some(LineText(context)))
  }

  // ---------------------------------------------------------------------------------
  // The image path
  // ---------------------------------------------------------------------------------

  /** An external URL, which is never looked up as a file. */
  predicate IsUrl(path: string) {
    StartsWith(path, "http://") || StartsWith(path, "https://") || StartsWith(path, "ftp://")
  }

  /** `_check_image_path`: the URL test runs on the path as matched, the file lookup on
      the stripped path. */
  function PathFindings(path: string, lineNumber: nat, context: string, files: set<string>): seq<Finding> {
    if IsUrl(path) then []
    else if Strip(path) !in files then
      [ImageFinding("Image file not found: " + Strip(path), Warning, lineNumber, context)]
    else []
  }

  // ---------------------------------------------------------------------------------
  // The attribute checks
  // ---------------------------------------------------------------------------------

  /** There is no `alt` entry, or it is empty. */
  predicate AltMissing(attributes: map<string, string>) {
    "alt" !in attributes || attributes["alt"] == []
  }

  /** `_check_attributes`. */
  function AttributeFindings(attributes: map<string, string>, kind: ImageKind, path: string,
                             lineNumber: nat, context: string): seq<Finding> {
    (if AltMissing(attributes) then
       [ImageFinding("Missing alt text for " + kind.Name() + " image: " + path, Warning, lineNumber, context)]
     else if |attributes["alt"]| < 5 then
       [ImageFinding("Alt text too short for " + kind.Name() + " image: " + path, Info, lineNumber, context)]
     else [])
    + (if kind == Block && attributes == map[] then
         [ImageFinding("Missing required attributes for block image: " + path, Warning, lineNumber, context)]
       else [])
  }

  // ---------------------------------------------------------------------------------
  // Splitting the attribute text at the commas outside double quotes
  // ---------------------------------------------------------------------------------

  /** The state of the character loop: the finished parts, the part being read, and
      whether an opening double quote is still unmatched. */
  datatype Scan = Scan(parts: seq<string>, current: string, inQuotes: bool)

  function ScanChar(st: Scan, c: char): Scan {
    if c == '"' then Scan(st.parts, st.current + [c], !st.inQuotes)
    else if c == ',' && !st.inQuotes then Scan(st.parts + [Strip(st.current)], [], st.inQuotes)
    else Scan(st.parts, st.current + [c], st.inQuotes)
  }

  /** The loop state after the first `i` characters. */
  function ScanPrefix(s: string, i: nat): Scan
    requires i <= |s|
  {
    if i == 0 then Scan([], [], false) else ScanChar(ScanPrefix(s, i - 1), s[i - 1])
  }

  /** The parts: a last part is kept only when it holds at least one character. */
  function SplitParts(s: string): seq<string> {
    var st := ScanPrefix(s, |s|);
    if st.current != [] then st.parts + [Strip(st.current)] else st.parts
  }

  /** An odd number of double quotes: the text is inside a quoted stretch. */
  predicate Quoted(prefix: string) {
    CountChar(prefix, '"') % 2 == 1
  }

  /** The comma at `k` separates two parts: it is not inside double quotes. */
  predicate IsSeparator(s: string, k: nat)
    requires k < |s|
  {
    s[k] == ',' && !Quoted(s[..k])
  }

  /** The loop's flag is the parity of the double quotes read so far. */
  lemma {:induction false} ScanQuotes(s: string, i: nat)
    requires i <= |s|
    ensures ScanPrefix(s, i).inQuotes == Quoted(s[..i])
  {
    if i > 0 {
      ScanQuotes(s, i - 1);
      assert s[..i] == s[..i - 1] + [s[i - 1]];
      CountCharAppend(s[..i - 1], [s[i - 1]], '"');
      assert CountChar([s[i - 1]], '"') == if s[i - 1] == '"' then 1 else 0;
    }
  }

  /** Before the first separator nothing is split off, and everything read is the
      current part. */
  lemma {:induction false} ScanWithoutSeparator(s: string, i: nat)
    requires i <= |s|
    requires forall k :: 0 <= k < i ==> !IsSeparator(s, k)
    ensures ScanPrefix(s, i).parts == [] && ScanPrefix(s, i).current == s[..i]
  {
    if i > 0 {
      ScanWithoutSeparator(s, i - 1);
      ScanQuotes(s, i - 1);
      assert !IsSeparator(s, i - 1);
      assert s[..i] == s[..i - 1] + [s[i - 1]];
    }
  }

  /** Text in which every comma lies inside double quotes is one part, stripped: a
      `title="a, b"` attribute is not split. */
  lemma SplitWithoutSeparator(s: string)
    requires s != []
    requires forall k :: 0 <= k < |s| ==> !IsSeparator(s, k)
    ensures SplitParts(s) == [Strip(s)]
  {
    ScanWithoutSeparator(s, |s|);
    assert s[..|s|] == s;
  }

  /** Once a separator has been read, the loop goes on over the rest of the text as if it
      started afresh, after the parts already split off. */
  lemma {:induction false} ScanResumes(s: string, a: nat, j: nat, done: seq<string>)
    requires a + j <= |s|
    requires ScanPrefix(s, a) == Scan(done, [], false)
    ensures var t := ScanPrefix(s[a..], j);
      ScanPrefix(s, a + j) == Scan(done + t.parts, t.current, t.inQuotes)
  {
    if j > 0 {
      ScanResumes(s, a, j - 1, done);
      assert s[a..][j - 1] == s[a + j - 1];
      ScanCharAfter(done, ScanPrefix(s[a..], j - 1), s[a + j - 1]);
    }
  }

  /** Reading a character does not look at the parts already split off. */
  lemma ScanCharAfter(done: seq<string>, st: Scan, c: char)
    ensures var r := ScanChar(st, c);
      ScanChar(Scan(done + st.parts, st.current, st.inQuotes), c) == Scan(done + r.parts, r.current, r.inQuotes)
  {
    if c != '"' && c == ',' && !st.inQuotes {
      assert (done + st.parts) + [Strip(st.current)] == done + (st.parts + [Strip(st.current)]);
    }
  }

  /** The text up to the first separator is the first part; the rest is split on its own. */
  lemma SplitAtFirstSeparator(s: string, k: nat)
    requires k < |s| && IsSeparator(s, k)
    requires forall i :: 0 <= i < k ==> !IsSeparator(s, i)
    ensures SplitParts(s) == [Strip(s[..k])] + SplitParts(s[k + 1..])
  {
    ScanWithoutSeparator(s, k);
    ScanQuotes(s, k);
    assert ScanPrefix(s, k + 1) == Scan([Strip(s[..k])], [], false);
    var rest := s[k + 1..];
    ScanResumes(s, k + 1, |rest|, [Strip(s[..k])]);
    var t := ScanPrefix(rest, |rest|);
    assert ScanPrefix(s, |s|) == Scan([Strip(s[..k])] + t.parts, t.current, t.inQuotes);
    if t.current != [] {
      assert SplitParts(rest) == t.parts + [Strip(t.current)];
      assert ([Strip(s[..k])] + t.parts) + [Strip(t.current)] == [Strip(s[..k])] + (t.parts + [Strip(t.current)]);
    } else {
      assert SplitParts(rest) == t.parts;
    }
  }

  // ---------------------------------------------------------------------------------
  // Turning the parts into attributes
  // ---------------------------------------------------------------------------------

  /** The key of a `key=value` part: the text before the first `=`, stripped. */
  function PartKey(p: string): string
    requires '=' in p
  {
    Strip(p[..IndexOf(p, '=')])
  }

  /** The value of a `key=value` part: the text after the first `=`, stripped, then with
      the double quotes around it removed. */
  function PartValue(p: string): string
    requires '=' in p
  {
    StripChars(Strip(p[IndexOf(p, '=') + 1..]), {'"'})
  }

  /** Part `i` assigns `key`: a `key=value` part, or the part at index 0 when it has
      no `=`, which assigns `alt`. */
  predicate SetsKey(part: string, i: nat, key: string) {
    var p := Strip(part);
    if '=' in p then PartKey(p) == key else i == 0 && key == "alt"
  }

  /** The value part `i` assigns. */
  function SetValue(part: string): string {
    var p := Strip(part);
    if '=' in p then PartValue(p) else p
  }

  function ApplyPart(attributes: map<string, string>, part: string, i: nat): map<string, string> {
    var p := Strip(part);
    if '=' in p then attributes[PartKey(p) := PartValue(p)]
    else if i == 0 then attributes["alt" := p]
    else attributes
  }

  /** The attributes after the first `n` parts. */
  function AttrsAfter(parts: seq<string>, n: nat): map<string, string>
    requires n <= |parts|
  {
    if n == 0 then map[] else ApplyPart(AttrsAfter(parts, n - 1), parts[n - 1], n - 1)
  }

  /** `_parse_attributes`: brackets stripped, split at the separators, parts applied in
      order, so that a later assignment to a key overrides an earlier one. */
  function Attributes(attrText: string): map<string, string> {
    var s := StripChars(attrText, {'[', ']'});
    if s == [] then map[]
    else
      var parts := SplitParts(s);
      AttrsAfter(parts, |parts|)
  }

  /** Text made of brackets only, or nothing, gives no attributes. */
  lemma AttributesOfEmpty(attrText: string)
    requires forall i :: 0 <= i < |attrText| ==> attrText[i] in {'[', ']'}
    ensures Attributes(attrText) == map[]
  {
    StripCharsSpec(attrText, {'[', ']'});
  }

  /** The keys present are exactly those some part assigns: a part after the first that
      has no `=` assigns nothing. */
  lemma {:induction false} AttrsKeys(parts: seq<string>, n: nat, key: string)
    requires n <= |parts|
    ensures key in AttrsAfter(parts, n) <==> exists i :: 0 <= i < n && SetsKey(parts[i], i, key)
  {
    if n > 0 {
      AttrsKeys(parts, n - 1, key);
      if SetsKey(parts[n - 1], n - 1, key) {
        assert key in AttrsAfter(parts, n);
      } else {
        assert key in AttrsAfter(parts, n) <==> key in AttrsAfter(parts, n - 1);
      }
    }
  }

  /** A key holds the value of the last part that assigns it. */
  lemma {:induction false} AttrsValue(parts: seq<string>, n: nat, key: string, i: nat)
    requires i < n <= |parts|
    requires SetsKey(parts[i], i, key)
    requires forall j :: i < j < n ==> !SetsKey(parts[j], j, key)
    ensures key in AttrsAfter(parts, n) && AttrsAfter(parts, n)[key] == SetValue(parts[i])
  {
    if i < n - 1 {
      AttrsValue(parts, n - 1, key, i);
      assert !SetsKey(parts[n - 1], n - 1, key);
    }
  }

  // ---------------------------------------------------------------------------------
  // Recognising images in a line
  // ---------------------------------------------------------------------------------

  /** A matched image: where it starts, its path, its bracketed attribute text if any,
      and where the match ends. */
  datatype ImageMatch = ImageMatch(start: nat, path: string, attrs: Option<string>, end: nat)

  /** The attribute text a check parses: an absent group counts as empty. */
  function AttrText(m: ImageMatch): string {
    match m.attrs
    case Some(a) => a
    case None => []
  }

  /** The end of the longest run of characters other than `stop` that starts at `i`:
      with `[` the path group `[^\[]+`, with a line feed how far `.` reaches. */
  function RunEnd(s: string, i: nat, stop: char): (j: nat)
    requires i <= |s|
    ensures i <= j <= |s|
    ensures forall k :: i <= k < j ==> s[k] != stop
    ensures j < |s| ==> s[j] == stop
    decreases |s| - i
  {
    if i < |s| && s[i] != stop then RunEnd(s, i + 1, stop) else i
  }

  /** The last `]` in `s[lo..hi]`: where a greedy `(.*)\]` stops. */
  function LastClose(s: string, lo: nat, hi: nat): (r: Option<nat>)
    requires lo <= hi <= |s|
    ensures r.Some? ==> lo <= r.value < hi && s[r.value] == ']' && forall k :: r.value < k < hi ==> s[k] != ']'
    ensures r.None? ==> forall k :: lo <= k < hi ==> s[k] != ']'
    decreases hi - lo
  {
    if lo == hi then None
    else if s[hi - 1] == ']' then Some(hi - 1)
    else LastClose(s, lo, hi - 1)
  }

  /** The first `]` in `s[lo..hi]`: where a lazy `(.*?)\]` stops. */
  function FirstClose(s: string, lo: nat, hi: nat): (r: Option<nat>)
    requires lo <= hi <= |s|
    ensures r.Some? ==> lo <= r.value < hi && s[r.value] == ']' && forall k :: lo <= k < r.value ==> s[k] != ']'
    ensures r.None? ==> forall k :: lo <= k < hi ==> s[k] != ']'
    decreases hi - lo
  {
    if lo == hi then None
    else if s[lo] == ']' then Some(lo)
    else FirstClose(s, lo + 1, hi)
  }

  /** The image that starts at `start` with its path at `p`: the path runs up to the first
      `[`, and the optional bracket group closes at `close`, a `]` before the next line
      feed, or is absent. */
  function MatchWith(s: string, start: nat, p: nat, close: Option<nat>): (m: ImageMatch)
    requires start < p <= |s|
    requires close.Some? ==> RunEnd(s, p, '[') < close.value < |s|
    ensures start < m.end <= |s|
  {
    var q := RunEnd(s, p, '[');
    match close
    case Some(j) => ImageMatch(start, s[p..q], Some(s[q + 1..j]), j + 1)
    case None => ImageMatch(start, s[p..q], None, q)
  }

  /** `re.match(r"image::([^[]+)(?:\[(.*)\])?", s)`: the path is at least one character
      and the greedy group takes the text up to the last `]` before a line feed. */
  function BlockMatch(s: string): Option<ImageMatch> {
    if !StartsWith(s, "image::") || RunEnd(s, 7, '[') == 7 then None
    else
      var q := RunEnd(s, 7, '[');
      Some(MatchWith(s, 0, 7, if q < |s| then LastClose(s, q + 1, RunEnd(s, q + 1, '\n')) else None))
  }

  /** The block form matches exactly a line that starts with `image::` and a character
      other than `[`; the path is the run up to the first `[`, and the bracket group, when
      present, follows it directly, ends with `]` and spans no line feed. */
  lemma BlockMatchSpec(s: string)
    ensures BlockMatch(s).Some? <==> StartsWith(s, "image::") && 7 < |s| && s[7] != '['
    ensures BlockMatch(s).Some? ==> var m := BlockMatch(s).value; var q := 7 + |m.path|;
      && m.start == 0 && m.path != [] && q <= |s| && m.path == s[7..q]
      && (forall k :: 0 <= k < |m.path| ==> m.path[k] != '[')
      && (q < |s| ==> s[q] == '[')
      && (m.attrs.Some? ==>
            q < |s| && m.end == q + |m.attrs.value| + 2 && m.end <= |s| && s[m.end - 1] == ']'
            && m.attrs.value == s[q + 1..m.end - 1] && '\n' !in m.attrs.value)
      && (m.attrs.None? ==> m.end == q)
  {
    if BlockMatch(s).Some? {
      var q := RunEnd(s, 7, '[');
      var m := BlockMatch(s).value;
      assert m.path == s[7..q];
      if m.attrs.Some? {
        var j := LastClose(s, q + 1, RunEnd(s, q + 1, '\n')).value;
        assert m.attrs.value == s[q + 1..j];
        forall k | 0 <= k < |m.attrs.value|
          ensures m.attrs.value[k] != '\n'
        {
          assert m.attrs.value[k] == s[q + 1 + k];
        }
      }
    }
  }

  /** The bracket group is greedy: it closes at the last `]` before the next line feed,
      and it is absent only when no `]` follows the `[` on that line. */
  lemma BlockMatchGreedy(s: string)
    requires BlockMatch(s).Some?
    ensures var m := BlockMatch(s).value; var q := 7 + |m.path|;
      && q <= |s|
      && (m.attrs.Some? ==>
            && q < |s| && m.end <= RunEnd(s, q + 1, '\n')
            && forall k :: m.end <= k < RunEnd(s, q + 1, '\n') ==> s[k] != ']')
      && (m.attrs.None? ==> q == |s| || forall k :: q + 1 <= k < RunEnd(s, q + 1, '\n') ==> s[k] != ']')
  {
    var q := RunEnd(s, 7, '[');
    var m := BlockMatch(s).value;
    assert |m.path| == q - 7;
  }

  /** An inline image can start at `k`: `image:` followed by a character other than `[`. */
  predicate InlineStartsAt(s: string, k: nat) {
    k + 6 < |s| && s[k..k + 6] == "image:" && s[k + 6] != '['
  }

  /** The inline match at `k`: the lazy group takes the text up to the first `]`. */
  function InlineAt(s: string, k: nat): (m: ImageMatch)
    requires InlineStartsAt(s, k)
    ensures m.start == k < m.end <= |s|
  {
    var q := RunEnd(s, k + 6, '[');
    MatchWith(s, k, k + 6, if q < |s| then FirstClose(s, q + 1, RunEnd(s, q + 1, '\n')) else None)
  }

  /** An inline match has a path of at least one character and no `[`, running up to
      the first `[` or to the end of the text. Its lazy bracket group is taken whenever
      a `]` follows that `[` on the same line, and stops at the first such `]`: its
      text holds none. */
  lemma InlineAtSpec(s: string, k: nat)
    requires InlineStartsAt(s, k)
    ensures var m := InlineAt(s, k); var q := k + 6 + |m.path|;
      && m.path != [] && q <= |s| && m.path == s[k + 6..q]
      && (forall i :: 0 <= i < |m.path| ==> m.path[i] != '[')
      && (m.attrs.Some? ==>
            q < |s| && s[q] == '[' && m.end == q + |m.attrs.value| + 2 && m.end <= |s|
            && s[m.end - 1] == ']' && m.attrs.value == s[q + 1..m.end - 1]
            && ']' !in m.attrs.value && '\n' !in m.attrs.value)
      && (m.attrs.None? ==> m.end == q)
    ensures var m := InlineAt(s, k); var q := k + 6 + |m.path|;
      && (q < |s| ==> s[q] == '[')
      && (q == |s| ==> m.attrs.None?)
    ensures var m := InlineAt(s, k); var q := k + 6 + |m.path|;
      q < |s| ==> var e := RunEnd(s, q + 1, '\n');
        && (m.attrs.None? ==> forall i :: q + 1 <= i < e ==> s[i] != ']')
        && (m.attrs.Some? ==> m.end <= e)
  {
    var q := RunEnd(s, k + 6, '[');
    var m := InlineAt(s, k);
    assert |m.path| == q - k - 6;
    assert m.path == s[k + 6..q];
    if m.attrs.Some? {
      var j := FirstClose(s, q + 1, RunEnd(s, q + 1, '\n')).value;
      assert m.attrs.value == s[q + 1..j];
      forall i | 0 <= i < |m.attrs.value|
        ensures m.attrs.value[i] != ']' && m.attrs.value[i] != '\n'
      {
        assert m.attrs.value[i] == s[q + 1 + i];
      }
    }
  }

  /** `re.finditer(r"image:([^[]+)(?:\[(.*?)\])?", s)` from `pos`: the next match starts
      at the first place one can, and the search resumes where it ends. */
  function InlineScan(s: string, pos: nat): seq<ImageMatch>
    decreases |s| - pos
  {
    if pos + 6 >= |s| then []
    else if InlineStartsAt(s, pos) then [InlineAt(s, pos)] + InlineScan(s, InlineAt(s, pos).end)
    else InlineScan(s, pos + 1)
  }

  /** The scan finds the first possible start, and resumes after the match there. */
  lemma {:induction false} InlineScanFirst(s: string, pos: nat, k: nat)
    requires pos <= k && InlineStartsAt(s, k)
    requires forall j :: pos <= j < k ==> !InlineStartsAt(s, j)
    ensures InlineScan(s, pos) == [InlineAt(s, k)] + InlineScan(s, InlineAt(s, k).end)
    decreases k - pos
  {
    if pos < k {
      assert !InlineStartsAt(s, pos);
      InlineScanFirst(s, pos + 1, k);
    }
  }

  /** With no possible start left, the scan finds nothing. */
  lemma {:induction false} InlineScanNone(s: string, pos: nat)
    requires forall j :: pos <= j < |s| ==> !InlineStartsAt(s, j)
    ensures InlineScan(s, pos) == []
    decreases |s| - pos
  {
    if pos + 6 < |s| {
      assert !InlineStartsAt(s, pos);
      InlineScanNone(s, pos + 1);
    }
  }

  /** Every match the scan returns starts with `image:`, lies after `pos`, and is the
      match at its start. */
  lemma {:induction false} InlineScanSound(s: string, pos: nat, m: ImageMatch)
    requires m in InlineScan(s, pos)
    ensures pos <= m.start && InlineStartsAt(s, m.start) && m == InlineAt(s, m.start)
    decreases |s| - pos
  {
    if pos + 6 < |s| && InlineStartsAt(s, pos) {
      var first := InlineAt(s, pos);
      if m != first {
        assert m in InlineScan(s, first.end);
        InlineScanSound(s, first.end, m);
      }
    } else if pos + 6 < |s| {
      assert InlineScan(s, pos) == InlineScan(s, pos + 1);
      InlineScanSound(s, pos + 1, m);
    }
  }

  /** The matches do not overlap: each ends before the next starts. */
  lemma {:induction false} InlineScanDisjoint(s: string, pos: nat, i: nat)
    requires i + 1 < |InlineScan(s, pos)|
    ensures InlineScan(s, pos)[i].end <= InlineScan(s, pos)[i + 1].start
    decreases |s| - pos
  {
    if pos + 6 < |s| && InlineStartsAt(s, pos) {
      var first := InlineAt(s, pos);
      var rest := InlineScan(s, first.end);
      assert InlineScan(s, pos) == [first] + rest;
      if i > 0 {
        InlineScanDisjoint(s, first.end, i - 1);
      } else {
        InlineScanSound(s, first.end, rest[0]);
      }
    } else if pos + 6 < |s| {
      assert InlineScan(s, pos) == InlineScan(s, pos + 1);
      InlineScanDisjoint(s, pos + 1, i);
    }
  }

  // ---------------------------------------------------------------------------------
  // One line
  // ---------------------------------------------------------------------------------

  /** The checks of one matched image: the path, then the attributes. */
  function MatchFindings(m: ImageMatch, kind: ImageKind, lineNumber: nat, context: string, files: set<string>): seq<Finding> {
    PathFindings(m.path, lineNumber, context, files)
      + AttributeFindings(Attributes(AttrText(m)), kind, m.path, lineNumber, context)
  }

  /** The findings of a sequence of inline images, one after the other. */
  function InlineFindings(ms: seq<ImageMatch>, lineNumber: nat, context: string, files: set<string>): seq<Finding> {
    FlatMap(ms, m => MatchFindings(m, Inline, lineNumber, context, files))
  }

  lemma InlineFindingsSnoc(ms: seq<ImageMatch>, i: nat, lineNumber: nat, context: string, files: set<string>)
    requires i < |ms|
    ensures InlineFindings(ms[..i + 1], lineNumber, context, files) ==
      InlineFindings(ms[..i], lineNumber, context, files) + MatchFindings(ms[i], Inline, lineNumber, context, files)
  {
    FlatMapSnoc(ms, i, m => MatchFindings(m, Inline, lineNumber, context, files));
  }

  /** `check_line`: a block image on the stripped line, or else every inline image on
      the line as it is, each checked on its own. */
  function ImageLine(line: string, lineNumber: nat, files: set<string>): seq<Finding> {
    match BlockMatch(Strip(line))
    case Some(m) => MatchFindings(m, Block, lineNumber, line, files)
    case None => InlineFindings(InlineScan(line, 0), lineNumber, line, files)
  }

  /** The findings of a fresh instance on the first `i` lines of a document. */
  function ImageBefore(doc: seq<string>, i: nat, files: set<string>): seq<Finding>
    requires i <= |doc|
  {
    if i == 0 then [] else ImageBefore(doc, i - 1, files) + ImageLine(doc[i - 1], i - 1, files)
  }

  class ImageAttributesRule {
    var currentLine: nat
    var currentContext: string

    constructor()
      ensures currentLine == 0 && currentContext == []
    {
      currentLine := 0;
      currentContext := [];
    }

    /** `check`: every line in turn, numbered from 0. */
    method Check(document: seq<string>, files: set<string>) returns (findings: seq<Finding>)
      modifies this
      ensures findings == ImageBefore(document, |document|, files)
      ensures document != [] ==>
        currentLine == |document| - 1 && currentContext == document[|document| - 1]
      ensures document == [] ==>
        currentLine == old(currentLine) && currentContext == old(currentContext)
    {
      findings := [];
      for i := 0 to |document|
        invariant findings == ImageBefore(document, i, files)
        invariant i > 0 ==> currentLine == i - 1 && currentContext == document[i - 1]
        invariant i == 0 ==> currentLine == old(currentLine) && currentContext == old(currentContext)
      {
        var lineFindings := CheckLine(document[i], i, files);
        findings := findings + lineFindings;
      }
    }

    /** `check_line`: the call records the line number and text first, then checks. */
    method CheckLine(line: string, lineNumber: nat, files: set<string>) returns (findings: seq<Finding>)
      modifies this
      ensures currentLine == lineNumber && currentContext == line
      ensures findings == ImageLine(line, lineNumber, files)
    {
      currentLine := lineNumber;
      currentContext := line;
      var block := BlockMatch(Strip(line));
      if block.Some? {
        findings := CheckImage(block.value, Block, files);
      } else {
        findings := CheckInline(InlineScan(line, 0), files);
      }
    }

    /** The inline images of a line, each checked on its own, in the order found. */
    method CheckInline(matches: seq<ImageMatch>, files: set<string>) returns (findings: seq<Finding>)
      ensures findings == InlineFindings(matches, currentLine, currentContext, files)
    {
      findings := [];
      for i := 0 to |matches|
        invariant findings == InlineFindings(matches[..i], currentLine, currentContext, files)
      {
        var imageFindings := CheckImage(matches[i], Inline, files);
        InlineFindingsSnoc(matches, i, currentLine, currentContext, files);
        findings := findings + imageFindings;
      }
      assert matches[..|matches|] == matches;
    }

    /** The two checks of one matched image, as `check_line` runs them. */
    method CheckImage(m: ImageMatch, kind: ImageKind, files: set<string>) returns (findings: seq<Finding>)
      ensures findings == MatchFindings(m, kind, currentLine, currentContext, files)
    {
      var attributes := ParseAttributes(AttrText(m));
      var pathFindings := CheckImagePath(m.path, files);
      var attributeFindings := CheckAttributes(attributes, kind, m.path);
      findings := pathFindings + attributeFindings;
    }

    /** `_check_image_path`. */
    method CheckImagePath(path: string, files: set<string>) returns (findings: seq<Finding>)
      ensures findings == PathFindings(path, currentLine, currentContext, files)
    {
      if IsUrl(path) {
        return [];
      }
      var stripped := Strip(path);
      findings := [];
      if stripped !in files {
        findings := [ImageFinding("Image file not found: " + stripped, Warning, currentLine, currentContext)];
      }
    }

    /** `_check_attributes`. */
    method CheckAttributes(attributes: map<string, string>, kind: ImageKind, path: string) returns (findings: seq<Finding>)
      ensures findings == AttributeFindings(attributes, kind, path, currentLine, currentContext)
    {
      findings := [];
      if "alt" !in attributes || attributes["alt"] == [] {
        findings := [ImageFinding("Missing alt text for " + kind.Name() + " image: " + path, Warning, currentLine, currentContext)];
      } else if |attributes["alt"]| < 5 {
        findings := [ImageFinding("Alt text too short for " + kind.Name() + " image: " + path, Info, currentLine, currentContext)];
      }
      if kind == Block && attributes == map[] {
        findings := findings + [ImageFinding("Missing required attributes for block image: " + path, Warning, currentLine, currentContext)];
      }
    }

    /** `_parse_attributes`: a character loop that toggles the quote flag and cuts a part
        at each comma outside quotes, then a loop that applies the parts in order. */
    method ParseAttributes(attrText: string) returns (attributes: map<string, string>)
      ensures attributes == Attributes(attrText)
    {
      attributes := map[];
      var s := StripChars(attrText, {'[', ']'});
      if s == [] {
        return;
      }
      var parts: seq<string> := [];
      var current: string := [];
      var inQuotes := false;
      for i := 0 to |s|
        invariant Scan(parts, current, inQuotes) == ScanPrefix(s, i)
      {
        var c := s[i];
        if c == '"' {
          inQuotes := !inQuotes;
          current := current + [c];
        } else if c == ',' && !inQuotes {
          parts := parts + [Strip(current)];
          current := [];
        } else {
          current := current + [c];
        }
      }
      if current != [] {
        parts := parts + [Strip(current)];
      }
      assert parts == SplitParts(s);
      for i := 0 to |parts|
        invariant attributes == AttrsAfter(parts, i)
      {
        var part := Strip(parts[i]);
        if '=' in part {
          var k := IndexOf(part, '=');
          var key := part[..k];
          var value := StripChars(Strip(part[k + 1..]), {'"'});
          attributes := attributes[Strip(key) := value];
        } else if i == 0 {
          attributes := attributes["alt" := part];
        }
      }
    }
  }

  // ---------------------------------------------------------------------------------
  // What the checks report
  // ---------------------------------------------------------------------------------

  /** A URL is never looked up; any other path gives one warning exactly when the
      stripped path is not an existing file. */
  lemma PathFindingsSpec(path: string, lineNumber: nat, context: string, files: set<string>)
    ensures var r := PathFindings(path, lineNumber, context, files);
      && (IsUrl(path) ==> r == [])
      && (!IsUrl(path) ==> (r != [] <==> Strip(path) !in files))
      && |r| <= 1
      && forall f :: f in r ==> f.severity == Warning && f.position.line == lineNumber + 1 && f.ruleId == Some(RuleId)
  {
  }

  /** Missing or empty alt text gives one warning; otherwise alt text under five
      characters gives one info finding instead; a block image without any attribute
      gets a further warning. */
  lemma AttributeFindingsSpec(attributes: map<string, string>, kind: ImageKind, path: string, lineNumber: nat, context: string)
    ensures var r := AttributeFindings(attributes, kind, path, lineNumber, context);
      && |r| == (if AltMissing(attributes) || |attributes["alt"]| < 5 then 1 else 0)
                + (if kind == Block && attributes == map[] then 1 else 0)
      && (r != [] && r[0].severity == Info <==> !AltMissing(attributes) && |attributes["alt"]| < 5)
      && (AltMissing(attributes) ==> r[0].severity == Warning)
      && (forall f :: f in r ==> f.position.line == lineNumber + 1 && f.ruleId == Some(RuleId))
      && (kind == Block && attributes == map[] ==> |r| == 2 && r[0].severity == Warning && r[1].severity == Warning)
  {
  }

  /** A line holding a block image is not searched for inline images. */
  lemma BlockExcludesInline(line: string, lineNumber: nat, files: set<string>)
    requires BlockMatch(Strip(line)).Some?
    ensures ImageLine(line, lineNumber, files) ==
      MatchFindings(BlockMatch(Strip(line)).value, Block, lineNumber, line, files)
  {
  }

  /** Otherwise every finding comes from one inline image, and every inline image
      contributes all its findings. */
  lemma InlineIndependent(line: string, lineNumber: nat, files: set<string>, f: Finding)
    requires BlockMatch(Strip(line)).None?
    ensures f in ImageLine(line, lineNumber, files) <==>
      exists m :: m in InlineScan(line, 0) && f in MatchFindings(m, Inline, lineNumber, line, files)
  {
    var ms := InlineScan(line, 0);
    var g := m => MatchFindings(m, Inline, lineNumber, line, files);
    assert ImageLine(line, lineNumber, files) == FlatMap(ms, g);
    if f in FlatMap(ms, g) {
      FlatMapMember(ms, g, f);
    }
    if m :| m in ms && f in g(m) {
      var j :| 0 <= j < |ms| && ms[j] == m;
      FlatMapHas(ms, g, j, f);
    }
  }

  /** A block image with a missing file and no attributes, such as `image::test.png[]`
      for an absent `test.png`, gets three warnings: the file, the alt text and the
      missing attributes. */
  lemma BareBlockImage(line: string, lineNumber: nat, files: set<string>)
    requires BlockMatch(Strip(line)).Some?
    requires var m := BlockMatch(Strip(line)).value;
      && !IsUrl(m.path) && Strip(m.path) !in files
      && forall i :: 0 <= i < |AttrText(m)| ==> AttrText(m)[i] in {'[', ']'}
    ensures |ImageLine(line, lineNumber, files)| == 3
    ensures forall f :: f in ImageLine(line, lineNumber, files) ==> f.severity == Warning
  {
    var m := BlockMatch(Strip(line)).value;
    AttributesOfEmpty(AttrText(m));
    AttributeFindingsSpec(map[], Block, m.path, lineNumber, line);
  }
}
