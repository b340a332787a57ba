/**
 * The metrics collector's configuration file, seen as a sequence of lines,
 * and the three line-level edits the deployment tool applies to it through
 * remote shell commands: `echo '…' >>` appends a job stanza, `grep -Fq` tests
 * whether a node name occurs on some line, and `sed -i "/node/,+2d"` deletes
 * every line naming the node together with the two lines after it.
 */
module Prometheus {
  import opened Outcomes
  import opened PyText

  /** One scrape job: its name, an optional metrics path and its `host:port` target. */
  datatype Job = Job(name: string, metricsPath: Option<string>, target: string)

  /** The first line of every stanza; the node name is found on it. */
  function JobNameLine(name: string): string { "  - job_name: \"" + name + "\"" }

  const StaticConfigsLine := "    static_configs:"

  function TargetsLine(target: string): string { "    - targets: [\"" + target + "\"]" }

  /** The lines one stanza adds to the file, with the indentation the file expects. */
  function JobLines(j: Job): (lines: seq<string>)
    ensures |lines| == if j.metricsPath.Some? then 4 else 3
    ensures lines[0] == JobNameLine(j.name)
    ensures lines[|lines| - 2] == StaticConfigsLine && lines[|lines| - 1] == TargetsLine(j.target)
  {
    [JobNameLine(j.name)]
    + (if j.metricsPath.Some? then ["    metrics_path: " + j.metricsPath.value] else [])
    + [StaticConfigsLine, TargetsLine(j.target)]
  }

  /** A node exporter job of a scaled worker: three lines, port 9100. */
  function NodeExporterJob(node: string, host: string): (j: Job)
    ensures j.name == node && j.metricsPath == None && j.target == host + ":9100"
    ensures |JobLines(j)| == 3
  {
    Job(node, None, host + ":9100")
  }

  /** The prometheus node name of a scaled worker, `slave{n}-node`. */
  function NodeName(worker: string): string { "slave" + worker + "-node" }

  lemma NodeNameOnJobLine(name: string)
    ensures Contains(JobNameLine(name), name)
  {
    assert OccursAt(JobNameLine(name), name, 15);
  }

  /** `grep -Fq node file`: some line contains the node name. */
  predicate Present(file: seq<string>, node: string) {
    exists i :: 0 <= i < |file| && Contains(file[i], node)
  }

  /** What `grep -Fq "{node}" file; echo $?` prints. */
  function GrepStatus(file: seq<string>, node: string): string {
    if Present(file, node) then "0\n" else "1\n"
  }

  /**
   * `sed -i "/node/,+2d" file`: a line naming the node opens a range that
   * ends two lines later; every line of a range is deleted, and lines inside
   * a range are not tested again.
   */
  function SedDelete(file: seq<string>, node: string): (r: seq<string>)
    ensures !Present(r, node)
    ensures forall i :: 0 <= i < |r| ==> r[i] in file
    decreases |file|
  {
    if file == [] then []
    else if Contains(file[0], node) then SedDelete(file[if |file| < 3 then |file| else 3..], node)
    else [file[0]] + SedDelete(file[1..], node)
  }

  /** Appending stanzas keeps what was there. */
  function AppendJobs(file: seq<string>, jobs: seq<Job>): (r: seq<string>)
    ensures |r| >= |file| && r[..|file|] == file
    decreases |jobs|
  {
    if jobs == [] then file else AppendJobs(file, jobs[..|jobs| - 1]) + JobLines(jobs[|jobs| - 1])
  }

  /** The `sed` deletions for `nodes`, applied one after the other. */
  function SedDeleteAll(file: seq<string>, nodes: seq<string>): (r: seq<string>)
    ensures forall i :: 0 <= i < |r| ==> r[i] in file
    decreases |nodes|
  {
    if nodes == [] then file else SedDelete(SedDeleteAll(file, nodes[..|nodes| - 1]), nodes[|nodes| - 1])
  }

  /** The keys of a Python dict built from `names`: first occurrences, in order. */
  function Dedup(names: seq<string>): (r: seq<string>)
    ensures forall x :: x in r <==> x in names
    ensures forall i, j :: 0 <= i < j < |r| ==> r[i] != r[j]
    decreases |names|
  {
    if names == [] then []
    else
      var d := Dedup(names[..|names| - 1]);
      if names[|names| - 1] in d then d else d + [names[|names| - 1]]
  }

  /** The index of the first occurrence of `x` in `names`. */
  function FirstIndex(names: seq<string>, x: string): (i: nat)
    requires x in names
    ensures i < |names| && names[i] == x && x !in names[..i]
    decreases |names|
  {
    if names[0] == x then 0
    else
      var k := FirstIndex(names[1..], x);
      assert names[..k + 1] == [names[0]] + names[1..][..k];
      1 + k
  }

  /** The first occurrence is the only index holding `x` with no `x` before it. */
  lemma FirstIndexUnique(names: seq<string>, x: string, i: nat)
    requires i < |names| && names[i] == x && x !in names[..i]
    ensures FirstIndex(names, x) == i
  {
  }

  /** The keys of the dict come in the order of the names' first occurrences. */
  lemma {:induction false} DedupFirstOccurrenceOrder(names: seq<string>)
    ensures forall i, j :: 0 <= i < j < |Dedup(names)| ==>
      FirstIndex(names, Dedup(names)[i]) < FirstIndex(names, Dedup(names)[j])
    decreases |names|
  {
    if names != [] {
      var n := |names|;
      var p := names[..n - 1];
      var d := Dedup(p);
      var r := Dedup(names);
      DedupFirstOccurrenceOrder(p);
      forall y | y in d
        ensures FirstIndex(names, y) == FirstIndex(p, y) < n - 1
      {
        var i := FirstIndex(p, y);
        assert names[..i] == p[..i];
        FirstIndexUnique(names, y, i);
      }
      if names[n - 1] !in d {
        assert names[..n - 1] == p;
        FirstIndexUnique(names, names[n - 1], n - 1);
      }
      forall i, j | 0 <= i < j < |r|
        ensures FirstIndex(names, r[i]) < FirstIndex(names, r[j])
      {
        assert r[i] == d[i] && d[i] in d;
        if j < |d| {
          assert r[j] == d[j] && d[j] in d;
          assert FirstIndex(p, d[i]) < FirstIndex(p, d[j]);
        } else {
          assert r[j] == names[n - 1];
        }
      }
    }
  }

  /**
   * The scale-up check: for each node name the grep reports absent, the digit
   * runs of that name (`re.findall(r'\d+', node)`), in order.
   */
  function MissingWorkers(file: seq<string>, nodes: seq<string>): seq<string>
    decreases |nodes|
  {
    if nodes == [] then []
    else
      MissingWorkers(file, nodes[..|nodes| - 1])
      + (if Present(file, nodes[|nodes| - 1]) then [] else DigitRuns(nodes[|nodes| - 1]))
  }

  /** The scale-down check: the node names the grep reports present, in order. */
  function PresentNodes(file: seq<string>, nodes: seq<string>): (r: seq<string>)
    ensures forall x :: x in r <==> x in nodes && Present(file, x)
    decreases |nodes|
  {
    if nodes == [] then []
    else
      PresentNodes(file, nodes[..|nodes| - 1])
      + (if Present(file, nodes[|nodes| - 1]) then [nodes[|nodes| - 1]] else [])
  }

  lemma PresentInPrefix(file: seq<string>, more: seq<string>, node: string)
    requires Present(file, node)
    ensures Present(file + more, node)
  {
    var i :| 0 <= i < |file| && Contains(file[i], node);
    assert (file + more)[i] == file[i];
  }

  /** A `sed` deletion never brings back a name that was absent. */
  lemma AbsentStaysAbsent(file: seq<string>, r: seq<string>, q: string)
    requires forall i :: 0 <= i < |r| ==> r[i] in file
    requires !Present(file, q)
    ensures !Present(r, q)
  {
    forall i | 0 <= i < |r|
      ensures !Contains(r[i], q)
    {
      var j :| 0 <= j < |file| && file[j] == r[i];
    }
  }

  /** `sed` leaves a file that does not name the node untouched. */
  lemma {:induction false} SedDeleteNoMatch(file: seq<string>, node: string)
    requires !Present(file, node)
    ensures SedDelete(file, node) == file
    decreases |file|
  {
    if file != [] {
      assert !Contains(file[0], node);
      assert !Present(file[1..], node) by {
        forall i | 0 <= i < |file[1..]|
          ensures !Contains(file[1..][i], node)
        {
          assert file[1..][i] == file[i + 1];
        }
      }
      SedDeleteNoMatch(file[1..], node);
      assert [file[0]] + file[1..] == file;
    }
  }

  /**
   * Scale-up followed by scale-down of one worker restores the file: the
   * appended stanza is three lines and the deletion removes the line naming
   * the node plus the two after it, provided the node named no line before.
   */
  lemma {:induction false} UpThenDownRestores(file: seq<string>, node: string, host: string)
    requires !Present(file, node)
    ensures SedDelete(file + JobLines(NodeExporterJob(node, host)), node) == file
    decreases |file|
  {
    var stanza := JobLines(NodeExporterJob(node, host));
    if file == [] {
      NodeNameOnJobLine(node);
      assert [] + stanza == stanza;
      assert stanza[3..] == [];
    } else {
      assert !Contains(file[0], node);
      assert (file + stanza)[0] == file[0];
      assert (file + stanza)[1..] == file[1..] + stanza;
      assert !Present(file[1..], node) by {
        forall i | 0 <= i < |file[1..]|
          ensures !Contains(file[1..][i], node)
        {
          assert file[1..][i] == file[i + 1];
        }
      }
      UpThenDownRestores(file[1..], node, host);
      assert [file[0]] + file[1..] == file;
    }
  }

  /** After the stanzas are appended, every job's name occurs in the file. */
  lemma {:induction false} AppendedJobsPresent(file: seq<string>, jobs: seq<Job>, k: nat)
    requires k < |jobs|
    ensures Present(AppendJobs(file, jobs), jobs[k].name)
    decreases |jobs|
  {
    var last := jobs[|jobs| - 1];
    var before := AppendJobs(file, jobs[..|jobs| - 1]);
    if k == |jobs| - 1 {
      NodeNameOnJobLine(last.name);
      assert (before + JobLines(last))[|before|] == JobNameLine(last.name);
    } else {
      AppendedJobsPresent(file, jobs[..|jobs| - 1], k);
      PresentInPrefix(before, JobLines(last), jobs[k].name);
    }
  }

  /** Once every node is present, the scale-up check finds nothing missing. */
  lemma {:induction false} NothingMissing(file: seq<string>, nodes: seq<string>)
    requires forall n | n in nodes :: Present(file, n)
    ensures MissingWorkers(file, nodes) == []
    decreases |nodes|
  {
    if nodes != [] {
      assert nodes[|nodes| - 1] in nodes;
      NothingMissing(file, nodes[..|nodes| - 1]);
    }
  }

  /** After the deletions, none of the deleted names occurs in the file. */
  lemma {:induction false} SedDeleteAllClears(file: seq<string>, nodes: seq<string>)
    ensures forall n | n in nodes :: !Present(SedDeleteAll(file, nodes), n)
    decreases |nodes|
  {
    if nodes != [] {
      var init := nodes[..|nodes| - 1];
      var mid := SedDeleteAll(file, init);
      SedDeleteAllClears(file, init);
      forall n | n in nodes
        ensures !Present(SedDeleteAll(file, nodes), n)
      {
        if n != nodes[|nodes| - 1] {
          assert n in init;
          AbsentStaysAbsent(mid, SedDelete(mid, nodes[|nodes| - 1]), n);
        }
      }
    }
  }

  /** Once no node is present, the scale-down check finds nothing to delete. */
  lemma NothingPresent(file: seq<string>, nodes: seq<string>)
    requires forall n | n in nodes :: !Present(file, n)
    ensures PresentNodes(file, nodes) == []
  {
    var r := PresentNodes(file, nodes);
    assert forall x :: x !in r;
  }
}
