/**
 * Ordering findings by line. Python's `list.sort` with a key is stable: findings on the
 * same line keep the order they had. The model sorts by insertion from the end of the
 * list, each finding placed after every finding whose line is not greater.
 */
module Sorting {
  import opened Findings

  predicate SortedByLine(fs: seq<Finding>) {
    forall i, j :: 0 <= i < j < |fs| ==> fs[i].Line() <= fs[j].Line()
  }

  /** The findings on line `line`, in their order in `fs`. */
  function OnLine(fs: seq<Finding>, line: int): seq<Finding> {
    if fs == [] then []
    else OnLine(fs[..|fs| - 1], line) + (if fs[|fs| - 1].Line() == line then [fs[|fs| - 1]] else [])
  }

  /** `x` placed after the last finding of `t` whose line is not greater than its own. */
  function Insert(x: Finding, t: seq<Finding>): (r: seq<Finding>)
    ensures |r| == |t| + 1
  {
    if t == [] || t[|t| - 1].Line() <= x.Line() then t + [x]
    else Insert(x, t[..|t| - 1]) + [t[|t| - 1]]
  }

  /** `sorted(fs, key=lambda f: f.position.line)`. */
  function SortByLine(fs: seq<Finding>): (r: seq<Finding>)
    ensures |r| == |fs|
  {
    if fs == [] then [] else Insert(fs[|fs| - 1], SortByLine(fs[..|fs| - 1]))
  }

  lemma {:induction false} InsertMultiset(x: Finding, t: seq<Finding>)
    ensures multiset(Insert(x, t)) == multiset(t) + multiset{x}
  {
    if !(t == [] || t[|t| - 1].Line() <= x.Line()) {
      var front := t[..|t| - 1];
      InsertMultiset(x, front);
      assert t == front + [t[|t| - 1]];
    }
  }

  /** The last element of an insertion is `x` or the last element of `t`. */
  lemma {:induction false} InsertSorted(x: Finding, t: seq<Finding>)
    requires SortedByLine(t)
    ensures SortedByLine(Insert(x, t))
    ensures Insert(x, t)[|t|].Line() == if t == [] || t[|t| - 1].Line() <= x.Line() then x.Line() else t[|t| - 1].Line()
  {
    if !(t == [] || t[|t| - 1].Line() <= x.Line()) {
      var front := t[..|t| - 1];
      var last := t[|t| - 1];
      InsertSorted(x, front);
      InsertMultiset(x, front);
      var r := Insert(x, front);
      forall i | 0 <= i < |r|
        ensures r[i].Line() <= last.Line()
      {
        assert r[i] in multiset(front) + multiset{x};
        if r[i] in multiset(front) {
          var k :| 0 <= k < |front| && front[k] == r[i];
          assert t[k] == front[k];
        }
      }
    }
  }

  /** Stability, one insertion at a time: among the findings of any one line, `x` goes
      after those already in `t`, whose order is kept. */
  lemma {:induction false} InsertOnLine(x: Finding, t: seq<Finding>, line: int)
    requires SortedByLine(t)
    ensures OnLine(Insert(x, t), line) == OnLine(t, line) + (if x.Line() == line then [x] else [])
  {
    if t == [] || t[|t| - 1].Line() <= x.Line() {
      assert (t + [x])[..|t|] == t;
    } else {
      var front := t[..|t| - 1];
      var last := t[|t| - 1];
      assert SortedByLine(front);
      InsertOnLine(x, front, line);
      var r := Insert(x, front);
      assert (r + [last])[..|r|] == r;
      assert OnLine(r + [last], line) == OnLine(r, line) + (if last.Line() == line then [last] else []);
    }
  }

  /** The sorted list is in line order. */
  lemma {:induction false} SortSorted(fs: seq<Finding>)
    ensures SortedByLine(SortByLine(fs))
  {
    if fs != [] {
      SortSorted(fs[..|fs| - 1]);
      InsertSorted(fs[|fs| - 1], SortByLine(fs[..|fs| - 1]));
    }
  }

  /** The sorted list holds the same findings, as many times each. */
  lemma {:induction false} SortPermutes(fs: seq<Finding>)
    ensures multiset(SortByLine(fs)) == multiset(fs)
  {
    if fs != [] {
      var front := fs[..|fs| - 1];
      SortPermutes(front);
      InsertMultiset(fs[|fs| - 1], SortByLine(front));
      assert fs == front + [fs[|fs| - 1]];
    }
  }

  /** The sort is stable: the findings of any one line come out in their original
      order. */
  lemma {:induction false} SortStable(fs: seq<Finding>, line: int)
    ensures OnLine(SortByLine(fs), line) == OnLine(fs, line)
  {
    if fs != [] {
      var front := fs[..|fs| - 1];
      SortStable(front, line);
      SortSorted(front);
      InsertOnLine(fs[|fs| - 1], SortByLine(front), line);
    }
  }
}
