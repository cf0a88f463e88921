/**
 * "Remember the first element that passes a test, and report every later one against
 * it": the loop shape of both revisions of MultipleTopLevelHeadingsRule. Both are
 * defined from the end of the list, so that a loop that has handled `s[..i]` can say
 * what it has remembered and reported so far.
 */
module FirstOccurrence {
  import opened Wrappers
  import opened Seqs

  /** The first element of `s` that satisfies `p`. */
  function First<T>(s: seq<T>, p: T -> bool): (r: Option<T>)
    ensures r.Some? ==> r.value in s && p(r.value)
  {
    if s == [] then None
    else
      var found := First(s[..|s| - 1], p);
      if found.Some? then found
      else if p(s[|s| - 1]) then Some(s[|s| - 1])
      else None
  }

  /** There is no first element exactly when no element passes; otherwise it is one of
      the elements, it passes, and no element before it does. */
  lemma {:induction false} FirstSpec<T>(s: seq<T>, p: T -> bool)
    ensures First(s, p).None? <==> forall k :: 0 <= k < |s| ==> !p(s[k])
    ensures First(s, p).Some? ==> exists j :: (0 <= j < |s| && First(s, p).value == s[j]
      && p(s[j]) && forall k :: 0 <= k < j ==> !p(s[k]))
  {
    if s != [] {
      var init := s[..|s| - 1];
      FirstSpec(init, p);
      assert forall k :: 0 <= k < |init| ==> init[k] == s[k];
      if First(init, p).None? && p(s[|s| - 1]) {
        assert First(s, p).value == s[|s| - 1];
      }
    }
  }

  /** What the loop reports after `s`: `cite(first, x)` for each passing `x` that comes
      after the first passing element. */
  function Later<T, U>(s: seq<T>, p: T -> bool, cite: (T, T) -> U): seq<U> {
    if s == [] then []
    else
      var init := s[..|s| - 1];
      var x := s[|s| - 1];
      Later(init, p, cite) + (if p(x) && First(init, p).Some? then [cite(First(init, p).value, x)] else [])
  }

  /** One more element: it is reported when it passes and a first one came before; it
      becomes the first when it passes and none came before. */
  lemma LaterStep<T, U>(s: seq<T>, i: nat, p: T -> bool, cite: (T, T) -> U)
    requires i < |s|
    ensures var x, first := s[i], First(s[..i], p);
      && Later(s[..i + 1], p, cite) == Later(s[..i], p, cite)
           + (if p(x) && first.Some? then [cite(first.value, x)] else [])
      && First(s[..i + 1], p) == (if first.Some? then first else if p(x) then Some(x) else None)
  {
    assert s[..i + 1][..i] == s[..i];
  }

  /** Once a first element has been seen, later elements do not change it. */
  lemma {:induction false} FirstStable<T>(s: seq<T>, i: nat, p: T -> bool)
    requires i <= |s| && First(s[..i], p).Some?
    ensures First(s, p) == First(s[..i], p)
    decreases |s| - i
  {
    if i == |s| {
      assert s[..i] == s;
    } else {
      assert s[..i + 1][..i] == s[..i];
      FirstStable(s, i + 1, p);
    }
  }

  /** A first element exists exactly when some element passes. */
  lemma FirstFound<T>(s: seq<T>, p: T -> bool)
    ensures First(s, p).Some? <==> Filter(s, p) != []
  {
    var kept := Filter(s, p);
    if kept != [] {
      assert kept[0] in kept;
      FirstSpec(s, p);
    }
  }

  /** With `t` passing elements there are `t - 1` reports, and none when `t` is 0. */
  lemma {:induction false} LaterCount<T, U>(s: seq<T>, p: T -> bool, cite: (T, T) -> U)
    ensures var t := |Filter(s, p)|;
      |Later(s, p, cite)| == if t == 0 then 0 else t - 1
  {
    if s != [] {
      var init := s[..|s| - 1];
      var x := s[|s| - 1];
      LaterCount(init, p, cite);
      FirstFound(init, p);
      assert Filter(s, p) == Filter(init, p) + (if p(x) then [x] else []);
    }
  }

  /** Every report is about a passing element after the first one, and cites the first. */
  lemma {:induction false} LaterCiteFirst<T, U>(s: seq<T>, p: T -> bool, cite: (T, T) -> U)
    ensures forall u :: u in Later(s, p, cite) ==>
      exists j, k :: (0 <= j < k < |s| && First(s, p) == Some(s[j]) && p(s[k]) && u == cite(s[j], s[k]))
  {
    if s != [] {
      var n := |s| - 1;
      var init := s[..n];
      LaterCiteFirst(init, p, cite);
      forall u | u in Later(s, p, cite)
        ensures exists j, k :: (0 <= j < k < |s| && First(s, p) == Some(s[j]) && p(s[k]) && u == cite(s[j], s[k]))
      {
        assert s[..n] == init;
        if u in Later(init, p, cite) {
          var j, k :| 0 <= j < k < |init| && First(init, p) == Some(init[j]) && p(init[k])
            && u == cite(init[j], init[k]);
          FirstStable(s, n, p);
          assert s[j] == init[j] && s[k] == init[k];
        } else {
          FirstStable(s, n, p);
          FirstSpec(init, p);
          var j :| 0 <= j < |init| && First(init, p).value == init[j];
          assert s[j] == init[j];
        }
      }
    }
  }

  /** Every passing element after the first passing one is reported, citing the first. */
  lemma {:induction false} LaterComplete<T, U>(s: seq<T>, p: T -> bool, cite: (T, T) -> U, j: nat, k: nat)
    requires j < k < |s| && p(s[j]) && p(s[k])
    requires forall i :: 0 <= i < j ==> !p(s[i])
    ensures cite(s[j], s[k]) in Later(s, p, cite)
  {
    var n := |s| - 1;
    var init := s[..n];
    assert forall i :: 0 <= i < n ==> init[i] == s[i];
    if k < n {
      LaterComplete(init, p, cite, j, k);
    } else {
      FirstSpec(init, p);
      var j' :| 0 <= j' < |init| && First(init, p).value == init[j'] && p(init[j'])
        && forall i :: 0 <= i < j' ==> !p(init[i]);
      assert j' == j;
    }
  }
}
