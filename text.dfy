/**
 * The handful of Python `str` operations the rules rely on, stated over `seq<char>`:
 * `strip`/`lstrip`/`rstrip` with no argument, `startswith`, `in`, `split(sep)`,
 * counting a leading run of one character, and decimal rendering of a number.
 */
module Text {

  /** Python's `str.isspace()` for one character: the set `strip()`, `split()` and the
      regular-expression class `\s` all use on `str` values. */
  const SpaceChars: set<char> := {'\U{9}', '\U{a}', '\U{b}', '\U{c}', '\U{d}', '\U{1c}', '\U{1d}', '\U{1e}', '\U{1f}', '\U{20}', '\U{85}', '\U{a0}', '\U{1680}', '\U{2000}', '\U{2001}', '\U{2002}', '\U{2003}', '\U{2004}', '\U{2005}', '\U{2006}', '\U{2007}', '\U{2008}', '\U{2009}', '\U{200a}', '\U{2028}', '\U{2029}', '\U{202f}', '\U{205f}', '\U{3000}'}

  predicate IsSpace(c: char) {
    c in SpaceChars
  }

  /** `str.islower()` on a single character, restricted to ASCII letters. */
  predicate IsLower(c: char) {
    'a' <= c <= 'z'
  }

  /** `s.lstrip()`: the longest suffix of `s` that does not start with whitespace. */
  function LStrip(s: string): string {
    if s != [] && IsSpace(s[0]) then LStrip(s[1..]) else s
  }

  lemma {:induction false} LStripSpec(s: string)
    ensures var r := LStrip(s);
      && |r| <= |s| && r == s[|s| - |r|..]
      && (forall i :: 0 <= i < |s| - |r| ==> IsSpace(s[i]))
      && (r != [] ==> !IsSpace(r[0]))
  {
    if s != [] && IsSpace(s[0]) {
      LStripSpec(s[1..]);
    }
  }

  /** `s.rstrip()`: the longest prefix of `s` that does not end with whitespace. */
  function RStrip(s: string): string {
    if s != [] && IsSpace(s[|s| - 1]) then RStrip(s[..|s| - 1]) else s
  }

  lemma {:induction false} RStripSpec(s: string)
    ensures var r := RStrip(s);
      && |r| <= |s| && r == s[..|r|]
      && (forall i :: |r| <= i < |s| ==> IsSpace(s[i]))
      && (r != [] ==> !IsSpace(r[|r| - 1]))
  {
    if s != [] && IsSpace(s[|s| - 1]) {
      RStripSpec(s[..|s| - 1]);
    }
  }

  /** `s.strip()`. */
  function Strip(s: string): string {
    RStrip(LStrip(s))
  }

  /** `s.strip(chars)`: `s` with every leading and trailing character of `cs` removed. */
  function StripChars(s: string, cs: set<char>): string {
    TrimEnd(TrimStart(s, cs), cs)
  }

  function TrimStart(s: string, cs: set<char>): string {
    if s != [] && s[0] in cs then TrimStart(s[1..], cs) else s
  }

  function TrimEnd(s: string, cs: set<char>): string {
    if s != [] && s[|s| - 1] in cs then TrimEnd(s[..|s| - 1], cs) else s
  }

  /** What `strip(chars)` leaves is empty exactly when every character is one of `cs`;
      otherwise it neither starts nor ends with one of them. */
  lemma {:induction false} StripCharsSpec(s: string, cs: set<char>)
    ensures var r := StripChars(s, cs);
      && (r == [] <==> forall i :: 0 <= i < |s| ==> s[i] in cs)
      && (r != [] ==> r[0] !in cs && r[|r| - 1] !in cs)
  {
    TrimStartSpec(s, cs);
    TrimEndSpec(TrimStart(s, cs), cs);
  }

  lemma {:induction false} TrimStartSpec(s: string, cs: set<char>)
    ensures var r := TrimStart(s, cs);
      && |r| <= |s| && r == s[|s| - |r|..]
      && (forall i :: 0 <= i < |s| - |r| ==> s[i] in cs)
      && (r != [] ==> r[0] !in cs)
  {
    if s != [] && s[0] in cs {
      var t := s[1..];
      TrimStartSpec(t, cs);
      var r := TrimStart(t, cs);
      assert TrimStart(s, cs) == r;
      assert s[|s| - |r|..] == t[|t| - |r|..];
      forall i | 0 <= i < |s| - |r|
        ensures s[i] in cs
      {
        if i > 0 {
          assert s[i] == t[i - 1];
        }
      }
    }
  }

  lemma {:induction false} TrimEndSpec(s: string, cs: set<char>)
    ensures var r := TrimEnd(s, cs);
      && |r| <= |s| && r == s[..|r|]
      && (forall i :: |r| <= i < |s| ==> s[i] in cs)
      && (r != [] ==> r[|r| - 1] !in cs)
  {
    if s != [] && s[|s| - 1] in cs {
      TrimEndSpec(s[..|s| - 1], cs);
    }
  }

  /** `not s.strip()`: the line holds whitespace only. */
  predicate IsBlank(s: string) {
    Strip(s) == []
  }

  lemma BlankIffAllSpace(s: string)
    ensures IsBlank(s) <==> forall i :: 0 <= i < |s| ==> IsSpace(s[i])
  {
    var l := LStrip(s);
    LStripSpec(s);
    RStripSpec(l);
    if l != [] {
      assert !IsSpace(l[0]);
      assert |RStrip(l)| > 0;
    }
  }

  /** A string with a non-space first character is not blank. */
  lemma NotBlankWhenFirstNonSpace(s: string)
    requires s != [] && !IsSpace(s[0])
    ensures !IsBlank(s)
  {
    BlankIffAllSpace(s);
  }

  /** Stripping keeps the first non-space character in front. */
  lemma StripKeepsFirst(s: string)
    requires s != [] && !IsSpace(s[0])
    ensures Strip(s) != [] && Strip(s)[0] == s[0]
  {
    NotBlankWhenFirstNonSpace(s);
    RStripSpec(s);
  }

  /** Stripping introduces no character. */
  lemma StripInfix(s: string)
    ensures forall c :: c in Strip(s) ==> c in s
  {
    var l := LStrip(s);
    LStripSpec(s);
    RStripSpec(l);
  }

  /** Stripping removes whitespace only: every other character keeps its count. */
  lemma StripKeepsCount(s: string, c: char)
    requires !IsSpace(c)
    ensures CountChar(Strip(s), c) == CountChar(s, c)
  {
    LStripKeepsCount(s, c);
    RStripKeepsCount(LStrip(s), c);
  }

  lemma {:induction false} LStripKeepsCount(s: string, c: char)
    requires !IsSpace(c)
    ensures CountChar(LStrip(s), c) == CountChar(s, c)
  {
    if s != [] && IsSpace(s[0]) {
      LStripKeepsCount(s[1..], c);
    }
  }

  lemma {:induction false} RStripKeepsCount(s: string, c: char)
    requires !IsSpace(c)
    ensures CountChar(RStrip(s), c) == CountChar(s, c)
  {
    if s != [] && IsSpace(s[|s| - 1]) {
      var init := s[..|s| - 1];
      RStripKeepsCount(init, c);
      assert s == init + [s[|s| - 1]];
      CountCharAppend(init, [s[|s| - 1]], c);
    }
  }

  /** Stripping a stripped string changes nothing. */
  lemma StripIdempotent(s: string)
    ensures Strip(Strip(s)) == Strip(s)
  {
    var l := LStrip(s);
    LStripSpec(s);
    RStripSpec(l);
    var r := RStrip(l);
    if r != [] {
      assert r[0] == l[0];
      assert LStrip(r) == r;
    }
  }

  /** `words = s.split()` is non-empty and `words[0][0]` is lowercase: the first word
      starts where the stripped string starts. */
  predicate FirstWordStartsLower(s: string) {
    var stripped := Strip(s);
    stripped != [] && IsLower(stripped[0])
  }

  predicate StartsWith(s: string, prefix: string) {
    |prefix| <= |s| && s[..|prefix|] == prefix
  }

  /** The number of occurrences of `c` in `s`. */
  function CountChar(s: string, c: char): nat {
    if s == [] then 0 else (if s[0] == c then 1 else 0) + CountChar(s[1..], c)
  }

  lemma {:induction false} CountCharAppend(a: string, b: string, c: char)
    ensures CountChar(a + b, c) == CountChar(a, c) + CountChar(b, c)
  {
    if a != [] {
      assert (a + b)[1..] == a[1..] + b;
      CountCharAppend(a[1..], b, c);
    } else {
      assert a + b == b;
    }
  }

  lemma {:induction false} CountCharAbsent(s: string, c: char)
    requires c !in s
    ensures CountChar(s, c) == 0
  {
    if s != [] {
      CountCharAbsent(s[1..], c);
    }
  }

  /** The length of the run of `c` characters that starts `s`. */
  function LeadingRun(s: string, c: char): (n: nat)
    ensures n <= |s|
    ensures forall i :: 0 <= i < n ==> s[i] == c
    ensures n < |s| ==> s[n] != c
  {
    if s != [] && s[0] == c then 1 + LeadingRun(s[1..], c) else 0
  }

  /** The run of `c` that starts `s` ends where the first other character is. */
  lemma {:induction false} LeadingRunIs(s: string, c: char, n: nat)
    requires n <= |s|
    requires forall i :: 0 <= i < n ==> s[i] == c
    requires n == |s| || s[n] != c
    ensures LeadingRun(s, c) == n
  {
    if n > 0 {
      LeadingRunIs(s[1..], c, n - 1);
    }
  }

  /** Every character of `s` is `c` (`s == c * len(s)`). */
  predicate AllChar(s: string, c: char) {
    forall i :: 0 <= i < |s| ==> s[i] == c
  }

  /** `c * n`. */
  function Repeat(c: char, n: nat): (r: string)
    ensures |r| == n && AllChar(r, c)
  {
    if n == 0 then [] else Repeat(c, n - 1) + [c]
  }

  /** `s == c * len(s)` says that every character of `s` is `c`. */
  lemma AllCharIsRepeat(s: string, c: char)
    ensures AllChar(s, c) <==> s == Repeat(c, |s|)
  {
    if !AllChar(s, c) {
      var i :| 0 <= i < |s| && s[i] != c;
      assert Repeat(c, |s|)[i] == c;
    }
  }

  /** The index of the first `c` in `s`, which contains one. */
  function IndexOf(s: string, c: char): (i: nat)
    requires c in s
    ensures i < |s| && s[i] == c && c !in s[..i]
  {
    if s[0] == c then 0 else 1 + IndexOf(s[1..], c)
  }

  /** `s.split(c)` for a one-character separator. */
  function Split(s: string, c: char): (parts: seq<string>)
    ensures |parts| == CountChar(s, c) + 1
    ensures forall k :: 0 <= k < |parts| ==> c !in parts[k]
    decreases |s|
  {
    if c !in s then CountCharAbsent(s, c); [s]
    else
      var i := IndexOf(s, c);
      assert s == s[..i] + [s[i]] + s[i + 1..];
      assert CountChar(s, c) == CountChar(s[i + 1..], c) + 1 by {
        CountCharAppend(s[..i] + [s[i]], s[i + 1..], c);
        CountCharAppend(s[..i], [s[i]], c);
        CountCharAbsent(s[..i], c);
      }
      [s[..i]] + Split(s[i + 1..], c)
  }

  /** `c.join(parts)`. */
  function Join(parts: seq<string>, c: char): string {
    if parts == [] then []
    else if |parts| == 1 then parts[0]
    else parts[0] + [c] + Join(parts[1..], c)
  }

  /** Splitting and re-joining on the same separator gives back the string. */
  lemma {:induction false} JoinSplit(s: string, c: char)
    ensures Join(Split(s, c), c) == s
    decreases |s|
  {
    if c in s {
      var i := IndexOf(s, c);
      JoinSplit(s[i + 1..], c);
      assert s == s[..i] + [c] + s[i + 1..];
    }
  }

  /** Decimal rendering of a natural number, as `str(n)` and f-strings print it. */
  function NatToString(n: nat): (r: string)
    ensures r != []
    ensures forall i :: 0 <= i < |r| ==> '0' <= r[i] <= '9'
  {
    if n < 10 then [Digit(n)] else NatToString(n / 10) + [Digit(n % 10)]
  }

  function Digit(d: nat): (c: char)
    requires d < 10
    ensures '0' <= c <= '9'
  {
    "0123456789"[d]
  }

  /** The value a string of decimal digits denotes. */
  function DigitsValue(s: string): nat
    requires forall i :: 0 <= i < |s| ==> '0' <= s[i] <= '9'
  {
    if s == [] then 0 else 10 * DigitsValue(s[..|s| - 1]) + (s[|s| - 1] - '0') as nat
  }

  /** `NatToString` loses nothing: reading the digits back gives the number. */
  lemma {:induction false} NatToStringValue(n: nat)
    ensures DigitsValue(NatToString(n)) == n
  {
    if n >= 10 {
      NatToStringValue(n / 10);
      var r := NatToString(n);
      assert r[..|r| - 1] == NatToString(n / 10);
    }
  }
}
