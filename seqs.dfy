/**
 * List comprehensions the rules are built from: keeping the elements that satisfy a
 * test (`[x for x in s if p(x)]`) and concatenating per-element results (a loop of
 * `findings.extend(f(x))`). Both are defined from the end of the list, so that a loop
 * that has handled a prefix `s[..i]` can state what it has built so far.
 */
module Seqs {

  function Filter<T>(s: seq<T>, p: T -> bool): (r: seq<T>)
    ensures |r| <= |s|
    ensures forall x :: x in r ==> x in s && p(x)
    ensures forall x :: x in s && p(x) ==> x in r
  {
    if s == [] then [] else Filter(s[..|s| - 1], p) + (if p(s[|s| - 1]) then [s[|s| - 1]] else [])
  }

  lemma FilterSnoc<T>(s: seq<T>, i: nat, p: T -> bool)
    requires i < |s|
    ensures Filter(s[..i + 1], p) == Filter(s[..i], p) + (if p(s[i]) then [s[i]] else [])
  {
    assert s[..i + 1][..i] == s[..i];
  }

  function FlatMap<T, U>(s: seq<T>, f: T -> seq<U>): seq<U> {
    if s == [] then [] else FlatMap(s[..|s| - 1], f) + f(s[|s| - 1])
  }

  lemma FlatMapSnoc<T, U>(s: seq<T>, i: nat, f: T -> seq<U>)
    requires i < |s|
    ensures FlatMap(s[..i + 1], f) == FlatMap(s[..i], f) + f(s[i])
  {
    assert s[..i + 1][..i] == s[..i];
  }

  /** A two-element sequence maps to the concatenation of the two images. */
  lemma FlatMapPair<T, U>(x: T, y: T, f: T -> seq<U>)
    ensures FlatMap([x, y], f) == f(x) + f(y)
  {
    assert [x][..0] == [];
    assert FlatMap([x], f) == f(x);
    assert [x, y][..1] == [x];
  }

  /** Every element of a concatenation comes from the result for some element. */
  lemma {:induction false} FlatMapMember<T, U>(s: seq<T>, f: T -> seq<U>, y: U)
    requires y in FlatMap(s, f)
    ensures exists x :: x in s && y in f(x)
  {
    if s != [] {
      var s' := s[..|s| - 1];
      if y in FlatMap(s', f) {
        FlatMapMember(s', f, y);
        var x :| x in s' && y in f(x);
        assert x in s;
      } else {
        assert s[|s| - 1] in s;
      }
    }
  }

  /** The element at position `k` of a concatenation comes from the result for some
      position `j` of the list. */
  lemma {:induction false} FlatMapFrom<T, U>(s: seq<T>, f: T -> seq<U>, k: nat)
    requires k < |FlatMap(s, f)|
    ensures exists j :: 0 <= j < |s| && FlatMap(s, f)[k] in f(s[j])
  {
    var n := |s| - 1;
    var s' := s[..n];
    if k < |FlatMap(s', f)| {
      FlatMapFrom(s', f, k);
      var j :| 0 <= j < |s'| && FlatMap(s', f)[k] in f(s'[j]);
      assert s'[j] == s[j];
    } else {
      assert FlatMap(s, f)[k] == f(s[n])[k - |FlatMap(s', f)|];
    }
  }

  /** Whatever the element at position `j` yields is in the concatenation. */
  lemma {:induction false} FlatMapHas<T, U>(s: seq<T>, f: T -> seq<U>, j: nat, y: U)
    requires j < |s| && y in f(s[j])
    ensures y in FlatMap(s, f)
  {
    var n := |s| - 1;
    if j < n {
      assert s[..n][j] == s[j];
      FlatMapHas(s[..n], f, j, y);
    }
  }

  /** When every position yields at most one result, and that result carries the
      position as its key, the keys of the concatenation strictly increase. */
  lemma {:induction false} FlatMapOrdered<T, U>(s: seq<T>, f: T -> seq<U>, key: U -> int)
    requires forall j :: 0 <= j < |s| ==> |f(s[j])| <= 1
    requires forall j, y :: 0 <= j < |s| && y in f(s[j]) ==> key(y) == j
    ensures forall k, k' :: 0 <= k < k' < |FlatMap(s, f)| ==>
      key(FlatMap(s, f)[k]) < key(FlatMap(s, f)[k'])
  {
    if s != [] {
      var n := |s| - 1;
      var s' := s[..n];
      assert forall j :: 0 <= j < |s'| ==> s'[j] == s[j];
      FlatMapOrdered(s', f, key);
      var r, r' := FlatMap(s, f), FlatMap(s', f);
      assert r == r' + f(s[n]);
      forall k, k' | 0 <= k < k' < |r|
        ensures key(r[k]) < key(r[k'])
      {
        if k' >= |r'| {
          assert r[k'] in f(s[n]);
          assert k < |r'|;
          FlatMapFrom(s', f, k);
          var j :| 0 <= j < |s'| && r'[k] in f(s'[j]);
        }
      }
    }
  }

  /** The length of a concatenation is bounded by the bound on each part. */
  lemma {:induction false} FlatMapLength<T, U>(s: seq<T>, f: T -> seq<U>, k: nat)
    requires forall x :: x in s ==> |f(x)| <= k
    ensures |FlatMap(s, f)| <= k * |s|
  {
    if s != [] {
      var s' := s[..|s| - 1];
      assert forall x :: x in s' ==> x in s;
      FlatMapLength(s', f, k);
      assert s[|s| - 1] in s;
      assert k * |s| == k * |s'| + k;
    }
  }

  /** Nothing is kept when no element passes the test. */
  lemma {:induction false} FilterNone<T>(s: seq<T>, p: T -> bool)
    requires forall x :: x in s ==> !p(x)
    ensures Filter(s, p) == []
  {
    if s != [] {
      var s' := s[..|s| - 1];
      assert forall x :: x in s' ==> x in s;
      FilterNone(s', p);
      assert s[|s| - 1] in s;
    }
  }

  /** The concatenation is empty when every element contributes nothing. */
  lemma {:induction false} FlatMapNone<T, U>(s: seq<T>, f: T -> seq<U>)
    requires forall x :: x in s ==> f(x) == []
    ensures FlatMap(s, f) == []
  {
    if s != [] {
      var s' := s[..|s| - 1];
      assert forall x :: x in s' ==> x in s;
      FlatMapNone(s', f);
      assert s[|s| - 1] in s;
    }
  }
}
