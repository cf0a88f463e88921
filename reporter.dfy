/**
 * The lint report: the findings of a run, its exit code, its truth value and length,
 * and the findings grouped by the file they belong to.
 */
module Reporter {
  import opened Wrappers
  import opened Findings
  import opened Seqs

  datatype LintReport = LintReport(findings: seq<Finding>) {
    /** `exit_code`: 1 when there is a finding, 0 otherwise. */
    function ExitCode(): (code: int)
      ensures code == 1 <==> findings != []
      ensures code == 0 <==> findings == []
    {
      if findings != [] then 1 else 0
    }

    /** `bool(report)`. */
    predicate NonEmpty()
    {
      findings != []
    }

    /** `len(report)`. */
    function Length(): (n: nat)
      ensures n == 0 <==> !NonEmpty()
      ensures n == |findings|
    {
      |findings|
    }
  }

  /** The findings that belong to `file`. */
  function InFile(file: Option<string>): Finding -> bool {
    (f: Finding) => f.file == file
  }

  /** The groups after the first `n` findings: each finding appended to the list of its
      file, a list started for a file not seen before. */
  function GroupsAfter(fs: seq<Finding>, n: nat): map<Option<string>, seq<Finding>>
    requires n <= |fs|
  {
    if n == 0 then map[]
    else
      var g := GroupsAfter(fs, n - 1);
      var f := fs[n - 1];
      g[f.file := (if f.file in g then g[f.file] else []) + [f]]
  }

  /** The keys of the groups in the order the dictionary holds them: by first
      appearance. */
  function KeysAfter(fs: seq<Finding>, n: nat): seq<Option<string>>
    requires n <= |fs|
  {
    if n == 0 then []
    else
      var ks := KeysAfter(fs, n - 1);
      if fs[n - 1].file in ks then ks else ks + [fs[n - 1].file]
  }

  /** `grouped_findings`: the groups and the order of their keys. */
  method GroupedFindings(report: LintReport) returns (keys: seq<Option<string>>, groups: map<Option<string>, seq<Finding>>)
    ensures keys == KeysAfter(report.findings, |report.findings|)
    ensures groups == GroupsAfter(report.findings, |report.findings|)
  {
    var fs := report.findings;
    keys := [];
    groups := map[];
    for i := 0 to |fs|
      invariant keys == KeysAfter(fs, i)
      invariant groups == GroupsAfter(fs, i)
    {
      var f := fs[i];
      if f.file !in keys {
        keys := keys + [f.file];
      }
      var group := if f.file in groups then groups[f.file] else [];
      groups := groups[f.file := group + [f]];
    }
  }

  /** Each group holds exactly the findings of its file, in their order in the report;
      a file has a group exactly when some finding belongs to it. */
  lemma {:induction false} GroupsAreFilters(fs: seq<Finding>, n: nat, file: Option<string>)
    requires n <= |fs|
    ensures file in GroupsAfter(fs, n) <==> exists i :: 0 <= i < n && fs[i].file == file
    ensures file in GroupsAfter(fs, n) ==> GroupsAfter(fs, n)[file] == Filter(fs[..n], InFile(file))
    ensures file !in GroupsAfter(fs, n) ==> Filter(fs[..n], InFile(file)) == []
  {
    if n > 0 {
      GroupsAreFilters(fs, n - 1, file);
      FilterSnoc(fs, n - 1, InFile(file));
      if fs[n - 1].file != file && file !in GroupsAfter(fs, n - 1) {
        assert file !in GroupsAfter(fs, n);
      }
    }
  }

  /** Every finding lands in the group of its own file and in no other group. */
  lemma OneGroupPerFinding(fs: seq<Finding>, f: Finding)
    requires f in fs
    ensures var groups := GroupsAfter(fs, |fs|);
      && f.file in groups && f in groups[f.file]
      && forall file :: file in groups && f in groups[file] ==> file == f.file
  {
    var groups := GroupsAfter(fs, |fs|);
    assert fs[..|fs|] == fs;
    GroupsAreFilters(fs, |fs|, f.file);
    forall file | file in groups && f in groups[file]
      ensures file == f.file
    {
      GroupsAreFilters(fs, |fs|, file);
    }
  }

  /** The keys are the files of the groups, each once. */
  lemma {:induction false} KeysAreGroups(fs: seq<Finding>, n: nat)
    requires n <= |fs|
    ensures forall k :: k in KeysAfter(fs, n) <==> k in GroupsAfter(fs, n)
    ensures forall i, j :: 0 <= i < j < |KeysAfter(fs, n)| ==> KeysAfter(fs, n)[i] != KeysAfter(fs, n)[j]
  {
    if n > 0 {
      KeysAreGroups(fs, n - 1);
    }
  }

  /** The index of the first finding of `file`. */
  function FirstOf(fs: seq<Finding>, file: Option<string>): (i: nat)
    requires exists k :: 0 <= k < |fs| && fs[k].file == file
    ensures i < |fs| && fs[i].file == file
    ensures forall k :: 0 <= k < i ==> fs[k].file != file
  {
    if fs[0].file == file then 0
    else
      assert exists k :: 0 <= k < |fs[1..]| && fs[1..][k].file == file by {
        var k :| 0 <= k < |fs| && fs[k].file == file;
        assert fs[1..][k - 1] == fs[k];
      }
      1 + FirstOf(fs[1..], file)
  }

  /** The keys come in the order of the first finding of each file. */
  lemma {:induction false} KeysByFirstAppearance(fs: seq<Finding>, n: nat, i: nat, j: nat)
    requires n <= |fs|
    requires i < j < |KeysAfter(fs, n)|
    ensures (exists k :: 0 <= k < |fs| && fs[k].file == KeysAfter(fs, n)[i])
    ensures (exists k :: 0 <= k < |fs| && fs[k].file == KeysAfter(fs, n)[j])
    ensures FirstOf(fs, KeysAfter(fs, n)[i]) < FirstOf(fs, KeysAfter(fs, n)[j])
  {
    var ks := KeysAfter(fs, n);
    KeyFirstSeen(fs, n, i);
    KeyFirstSeen(fs, n, j);
  }

  /** Key `i` first appears in the findings at an index before `n`, and strictly after
      the first appearance of every earlier key. */
  lemma {:induction false} KeyFirstSeen(fs: seq<Finding>, n: nat, i: nat)
    requires n <= |fs|
    requires i < |KeysAfter(fs, n)|
    ensures exists k :: 0 <= k < |fs| && fs[k].file == KeysAfter(fs, n)[i]
    ensures FirstOf(fs, KeysAfter(fs, n)[i]) < n
    ensures forall i' :: 0 <= i' < i ==>
      (exists k :: 0 <= k < |fs| && fs[k].file == KeysAfter(fs, n)[i']) &&
      FirstOf(fs, KeysAfter(fs, n)[i']) < FirstOf(fs, KeysAfter(fs, n)[i])
  {
    if n == 0 {
      return;
    }
    var ks := KeysAfter(fs, n - 1);
    if i < |ks| {
      KeyFirstSeen(fs, n - 1, i);
    } else {
      // key i is the file of finding n - 1, seen for the first time
      var file := fs[n - 1].file;
      assert KeysAfter(fs, n)[i] == file;
      KeysAreGroups(fs, n - 1);
      GroupsAreFilters(fs, n - 1, file);
      assert forall k :: 0 <= k < n - 1 ==> fs[k].file != file;
      assert FirstOf(fs, file) == n - 1;
      forall i' | 0 <= i' < i
        ensures (exists k :: 0 <= k < |fs| && fs[k].file == KeysAfter(fs, n)[i']) &&
          FirstOf(fs, KeysAfter(fs, n)[i']) < FirstOf(fs, KeysAfter(fs, n)[i])
      {
        KeyFirstSeen(fs, n - 1, i');
      }
    }
  }

  /** The total size of the groups named in `keys`. */
  function SizeOf(keys: seq<Option<string>>, groups: map<Option<string>, seq<Finding>>): nat {
    if keys == [] then 0
    else
      var last := keys[|keys| - 1];
      SizeOf(keys[..|keys| - 1], groups) + (if last in groups then |groups[last]| else 0)
  }

  /** Adding one finding to the group of a key listed once grows the total by one. */
  lemma {:induction false} SizeOfGrow(keys: seq<Option<string>>, groups: map<Option<string>, seq<Finding>>,
                                      key: Option<string>, g: seq<Finding>)
    requires forall i, j :: 0 <= i < j < |keys| ==> keys[i] != keys[j]
    requires key in keys && key in groups && |g| == |groups[key]| + 1
    ensures SizeOf(keys, groups[key := g]) == SizeOf(keys, groups) + 1
  {
    var last := keys[|keys| - 1];
    var front := keys[..|keys| - 1];
    if last == key {
      assert key !in front;
      SizeOfSame(front, groups, key, g);
    } else {
      assert key in front;
      SizeOfGrow(front, groups, key, g);
    }
  }

  /** Changing the group of a key that is not listed leaves the total unchanged. */
  lemma {:induction false} SizeOfSame(keys: seq<Option<string>>, groups: map<Option<string>, seq<Finding>>,
                                      key: Option<string>, g: seq<Finding>)
    requires key !in keys
    ensures SizeOf(keys, groups[key := g]) == SizeOf(keys, groups)
  {
    if keys != [] {
      SizeOfSame(keys[..|keys| - 1], groups, key, g);
    }
  }

  /** The group sizes add up to the number of findings: every finding is in exactly one
      group. */
  lemma {:induction false} GroupSizesSum(fs: seq<Finding>, n: nat)
    requires n <= |fs|
    ensures SizeOf(KeysAfter(fs, n), GroupsAfter(fs, n)) == n
  {
    if n > 0 {
      GroupSizesSum(fs, n - 1);
      KeysAreGroups(fs, n - 1);
      var ks := KeysAfter(fs, n - 1);
      var g := GroupsAfter(fs, n - 1);
      var file := fs[n - 1].file;
      if file in ks {
        assert GroupsAfter(fs, n) == g[file := g[file] + [fs[n - 1]]];
        assert KeysAfter(fs, n) == ks;
        SizeOfGrow(ks, g, file, g[file] + [fs[n - 1]]);
      } else {
        assert file !in g;
        var empty: seq<Finding> := [];
        assert empty + [fs[n - 1]] == [fs[n - 1]];
        assert GroupsAfter(fs, n) == g[file := [fs[n - 1]]];
        assert KeysAfter(fs, n) == ks + [file];
        SizeOfSame(ks, g, file, [fs[n - 1]]);
        assert (ks + [file])[..|ks|] == ks;
        assert SizeOf(ks + [file], g[file := [fs[n - 1]]]) == SizeOf(ks, g[file := [fs[n - 1]]]) + 1;
      }
    }
  }
}
