/**
 * The deployment tool's AWS layer. `AwsInstance` holds the configuration
 * (whose parameter sections the merge fills in place) and, as abstract state,
 * what the provider holds: the stacks, the metrics collector's configuration
 * file on the distribution node, and the calls made so far. The provider's
 * answers come from oracles fixed at construction.
 */
module Aws {
  import opened Outcomes
  import opened PyText
  import opened Prometheus
  import opened RemoteCommand
  import opened Stacks
  import Tables

  const DistributionParams := "EC2_DISTRIBUTION_PARAMS"
  const MasterParams := "EC2_MASTER_PARAMS"
  const SlaveParams := "EC2_SLAVE_PARAMS"
  const ScaleSlaveParams := "EC2_SCALE_SLAVE_PARAMS"
  const NamedIam := "CAPABILITY_NAMED_IAM"
  const DistributionInstanceKey := "Ec2InstanceIdOfDistributionNode"
  const ScaleInstanceKey := "SlaveEc2InstanceId"
  const ScalePrivateIpKey := "SlaveEc2InstancePrivateIp"

  /** The stack of a scaled worker, `ec2-slave-{n}` with `n` as Python formats it. */
  function ScaleStackName(worker: string): string { "ec2-slave-" + worker }

  /** Raises unless the scaled worker's stack name is a key of the stack table. */
  function ValidateStack(stackMap: map<string, map<string, string>>, worker: int): (r: Outcome)
    ensures r.Pass? <==> ScaleStackName(IntToDecimal(worker)) in stackMap
  {
    var name := ScaleStackName(IntToDecimal(worker));
    if name in stackMap then Pass else Raise(name + " not in scaled list, please check.")
  }

  /**
   * The default table lists its scale slots zero-padded (`ec2-slave-04`), but
   * the name checked is formatted without padding (`ec2-slave-4`): against
   * that table, no index at all passes validation.
   */
  lemma DefaultTableRejectsEveryIndex(worker: int)
    ensures ValidateStack(Tables.StackToMap, worker).Raise?
  {
    var d := IntToDecimal(worker);
    Tables.StackToMapKeys();
    BaseNamesAreNotScaleNames(d);
    UnpaddedIsNotPadded(d);
  }

  lemma BaseNamesAreNotScaleNames(d: string)
    ensures ScaleStackName(d) !in {Tables.VpcStackName, Tables.DistributionStackName, Tables.MasterStackName}
  {
    var name := ScaleStackName(d);
    assert name[4] == 's';
    assert Tables.VpcStackName[4] == 'o';
    assert Tables.DistributionStackName[4] == 'd';
    assert Tables.MasterStackName[4] == 'm';
  }

  /** A decimal without a leading zero never names a zero-padded slot. */
  lemma UnpaddedIsNotPadded(d: string)
    requires |d| > 0 && (d[0] == '0' ==> d == "0")
    ensures ScaleStackName(d) !in {"ec2-slave-04", "ec2-slave-05", "ec2-slave-06"}
  {
    UnpaddedIsNotSlot(d, "ec2-slave-04");
    UnpaddedIsNotSlot(d, "ec2-slave-05");
    UnpaddedIsNotSlot(d, "ec2-slave-06");
  }

  lemma UnpaddedIsNotSlot(d: string, slot: string)
    requires |d| > 0 && (d[0] == '0' ==> d == "0")
    requires |slot| == 12 && slot[10] == '0'
    ensures ScaleStackName(d) != slot
  {
    assert ScaleStackName(d)[10..] == d;
    assert slot[10..] != d;
  }

  /** The node names of the scaled workers, in order. */
  function NodeNames(workers: seq<string>): (r: seq<string>)
    ensures |r| == |workers|
    ensures forall i :: 0 <= i < |workers| ==> r[i] == NodeName(workers[i])
  {
    seq(|workers|, i requires 0 <= i < |workers| => NodeName(workers[i]))
  }

  /** The private IP of a scaled worker, read from its stack's outputs. */
  function ScaleNodeIp(stacks: StackStates, worker: string): Result<string> {
    Resource(stacks, ScaleStackName(worker), ScalePrivateIpKey)
  }

  /** Every worker's stack reports its private IP (otherwise the lookup raises). */
  predicate ScaleIpsKnown(stacks: StackStates, workers: seq<string>) {
    forall w | w in workers :: ScaleNodeIp(stacks, w).Ok?
  }

  /**
   * The keys of the node-name → IP dict built for the scaled workers:
   * the node name of each distinct worker, in first-occurrence order.
   */
  function ScaleNodeKeys(workers: seq<string>): seq<string> {
    NodeNames(Dedup(workers))
  }

  /** One 3-line node-exporter job per key of that dict, with the worker's IP. */
  function ScaleJobs(stacks: StackStates, workers: seq<string>): (jobs: seq<Job>)
    requires ScaleIpsKnown(stacks, workers)
    ensures |jobs| == |ScaleNodeKeys(workers)|
    ensures forall i :: 0 <= i < |jobs| ==> jobs[i].name == ScaleNodeKeys(workers)[i]
    ensures forall i :: 0 <= i < |jobs| ==> |JobLines(jobs[i])| == 3
  {
    var ws := Dedup(workers);
    seq(|ws|, i requires 0 <= i < |ws| =>
      assert ws[i] in workers;
      NodeExporterJob(NodeName(ws[i]), ScaleNodeIp(stacks, ws[i]).value))
  }

  /** `after_scale_prometheus_params_map`: raises when some worker's IP cannot be read. */
  function AfterScaleJobs(stacks: StackStates, workers: seq<string>): (r: Result<seq<Job>>)
    ensures r.Ok? <==> ScaleIpsKnown(stacks, workers)
    ensures r.Ok? ==> r.value == ScaleJobs(stacks, workers)
  {
    if ScaleIpsKnown(stacks, workers) then Ok(ScaleJobs(stacks, workers))
    else Err("scaled node IP is not available")
  }

  /** `slave{n}-node` names one worker only, so deduplicating names or workers agrees. */
  lemma NodeNameInjective(a: string, b: string)
    ensures NodeName(a) == NodeName(b) ==> a == b
  {
    if NodeName(a) == NodeName(b) {
      assert |a| == |b|;
      assert a == NodeName(a)[5..5 + |a|];
    }
  }

  lemma {:induction false} ScaleNodeKeysAreDictKeys(workers: seq<string>)
    ensures ScaleNodeKeys(workers) == Dedup(NodeNames(workers))
    decreases |workers|
  {
    if workers != [] {
      var init := workers[..|workers| - 1];
      var w := workers[|workers| - 1];
      ScaleNodeKeysAreDictKeys(init);
      assert NodeNames(workers)[..|workers| - 1] == NodeNames(init);
      var d := Dedup(init);
      forall x | x in d
        ensures NodeName(x) == NodeName(w) <==> x == w
      {
        NodeNameInjective(x, w);
      }
      assert w in d <==> NodeName(w) in NodeNames(d);
      if w !in d {
        assert NodeNames(d + [w]) == NodeNames(d) + [NodeName(w)];
      }
    }
  }

  /** The metrics jobs of the base cluster and of Spark, in the order their commands run. */
  function MonitoringJobs(names: StackNames, stacks: StackStates): (r: Result<seq<Job>>)
    ensures r.Ok? <==>
      && Resource(stacks, names.distribution, "DistributionNodePrivateIp").Ok?
      && Resource(stacks, names.master, "MasterEc2InstancePrivateIp").Ok?
      && Resource(stacks, names.slave, "Slave01Ec2InstancePrivateIp").Ok?
      && Resource(stacks, names.slave, "Slave02Ec2InstancePrivateIp").Ok?
      && Resource(stacks, names.slave, "Slave03Ec2InstancePrivateIp").Ok?
    ensures r.Ok? ==> |r.value| == 10
    ensures r.Ok? ==> forall i :: 0 <= i < 5 ==> |JobLines(r.value[i])| == 3
    ensures r.Ok? ==> forall i :: 5 <= i < 10 ==> |JobLines(r.value[i])| == 4
  {
    var d := Resource(stacks, names.distribution, "DistributionNodePrivateIp");
    var m := Resource(stacks, names.master, "MasterEc2InstancePrivateIp");
    var s1 := Resource(stacks, names.slave, "Slave01Ec2InstancePrivateIp");
    var s2 := Resource(stacks, names.slave, "Slave02Ec2InstancePrivateIp");
    var s3 := Resource(stacks, names.slave, "Slave03Ec2InstancePrivateIp");
    if d.Err? then Err(d.msg)
    else if m.Err? then Err(m.msg)
    else if s1.Err? then Err(s1.msg)
    else if s2.Err? then Err(s2.msg)
    else if s3.Err? then Err(s3.msg)
    else
      Ok([NodeExporterJob("distribution_node", d.value), NodeExporterJob("master_node", m.value),
          NodeExporterJob("slave01_node", s1.value), NodeExporterJob("slave02_node", s2.value),
          NodeExporterJob("slave03_node", s3.value)]
         + SparkJobs(m.value))
  }

  function SparkJobs(master: string): (jobs: seq<Job>)
    ensures |jobs| == 5 && forall i :: 0 <= i < 5 ==> jobs[i].metricsPath.Some?
  {
    [Job("spark_driver", Some("/metrics/prometheus"), master + ":4040"),
     Job("spark_worker", Some("/metrics/prometheus"), master + ":4041"),
     Job("spark_applications", Some("/metrics/applications/prometheus"), master + ":8080"),
     Job("spark_master", Some("/metrics/master/prometheus"), master + ":8080"),
     Job("spark_executors", Some("/metrics/executors/prometheus"), master + ":4040")]
  }

  function AppendCommands(jobs: seq<Job>): (cs: seq<Command>)
    ensures |cs| == |jobs| && forall i :: 0 <= i < |jobs| ==> cs[i] == AppendJob(jobs[i])
  {
    seq(|jobs|, i requires 0 <= i < |jobs| => AppendJob(jobs[i]))
  }

  function SedCommands(nodes: seq<string>): (cs: seq<Command>)
    ensures |cs| == |nodes| && forall i :: 0 <= i < |nodes| ==> cs[i] == SedDeleteJob(nodes[i])
  {
    seq(|nodes|, i requires 0 <= i < |nodes| => SedDeleteJob(nodes[i]))
  }

  function GrepCommands(nodes: seq<string>): (cs: seq<Command>)
    ensures |cs| == |nodes| && forall i :: 0 <= i < |nodes| ==> cs[i] == GrepJob(nodes[i])
  {
    seq(|nodes|, i requires 0 <= i < |nodes| => GrepJob(nodes[i]))
  }

  /** The calls that send `commands` to `instance`, in order. */
  function Sent(instance: string, commands: seq<Command>): (calls: seq<Call>)
    ensures |calls| == |commands| && OnlyCommands(calls)
    ensures forall i :: 0 <= i < |commands| ==> calls[i] == CommandSent(instance, commands[i])
  {
    seq(|commands|, i requires 0 <= i < |commands| => CommandSent(instance, commands[i]))
  }

  /** The file after each of `commands` has taken effect, in order. */
  function ApplyAll(file: seq<string>, commands: seq<Command>): seq<string>
    decreases |commands|
  {
    if commands == [] then file
    else CommandEffect(ApplyAll(file, commands[..|commands| - 1]), commands[|commands| - 1])
  }

  /** Running the echo commands of `jobs` appends their stanzas. */
  lemma {:induction false} ApplyAppends(file: seq<string>, jobs: seq<Job>)
    ensures ApplyAll(file, AppendCommands(jobs)) == AppendJobs(file, jobs)
    decreases |jobs|
  {
    if jobs != [] {
      var init := jobs[..|jobs| - 1];
      ApplyAppends(file, init);
      assert AppendCommands(jobs)[..|jobs| - 1] == AppendCommands(init);
    }
  }

  /** Running the sed commands of `nodes` is the deletions for `nodes`, in order. */
  lemma {:induction false} ApplySedDeletes(file: seq<string>, nodes: seq<string>)
    ensures ApplyAll(file, SedCommands(nodes)) == SedDeleteAll(file, nodes)
    decreases |nodes|
  {
    if nodes != [] {
      var init := nodes[..|nodes| - 1];
      ApplySedDeletes(file, init);
      assert SedCommands(nodes)[..|nodes| - 1] == SedCommands(init);
    }
  }

  /** `calls` extends `before` with commands only. */
  predicate CommandsAppended(before: seq<Call>, calls: seq<Call>) {
    |before| <= |calls| && calls[..|before|] == before && OnlyCommands(calls[|before|..])
  }

  lemma CommandsAppendedTrans(a: seq<Call>, b: seq<Call>, c: seq<Call>)
    requires CommandsAppended(a, b) && CommandsAppended(b, c)
    ensures CommandsAppended(a, c)
  {
    assert c[..|a|] == c[..|b|][..|a|];
    forall i | 0 <= i < |c| - |a|
      ensures c[|a|..][i].CommandSent?
    {
      if |a| + i < |b| {
        assert c[|a|..][i] == b[|a|..][i];
      } else {
        assert c[|a|..][i] == c[|b|..][|a| + i - |b|];
      }
    }
  }

  /** One more grep extends the scale-up check's result by that node's digits when it is absent. */
  lemma MissingStep(file: seq<string>, nodes: seq<string>, i: nat, out: string)
    requires i < |nodes| && (out == "1\n" <==> !Present(file, nodes[i]))
    ensures MissingWorkers(file, nodes[..i + 1]) ==
      MissingWorkers(file, nodes[..i]) + (if out == "1\n" then DigitRuns(nodes[i]) else [])
  {
    assert nodes[..i + 1][..i] == nodes[..i];
  }

  /** One more grep extends the scale-down check's result by that node when it is present. */
  lemma PresentStep(file: seq<string>, nodes: seq<string>, i: nat, out: string)
    requires i < |nodes| && (out == "0\n" <==> Present(file, nodes[i]))
    ensures PresentNodes(file, nodes[..i + 1]) ==
      PresentNodes(file, nodes[..i]) + (if out == "0\n" then [nodes[i]] else [])
  {
    assert nodes[..i + 1][..i] == nodes[..i];
  }

  lemma ApplySnoc(file: seq<string>, commands: seq<Command>, c: Command)
    ensures ApplyAll(file, commands + [c]) == CommandEffect(ApplyAll(file, commands), c)
  {
    assert (commands + [c])[..|commands|] == commands;
  }

  /** The digits of `slave{n}-node` are `n` when `n` is a decimal. */
  lemma NodeNameDigits(w: string)
    requires |w| > 0 && AllDigits(w)
    ensures DigitRuns(NodeName(w)) == [w]
  {
    assert NoDigits("slave") && NoDigits("-node");
    DigitRunsIsolate("slave", w, "-node");
  }

  /**
   * A negative worker index loses its sign: the digits of `slave-{n}-node`
   * are those of `n`'s magnitude, so the worker is reported under another number.
   */
  lemma NegativeNodeNameDigits(n: int)
    requires n < 0
    ensures DigitRuns(NodeName(IntToDecimal(n))) == [NatToDecimal(-n)]
    ensures DigitRuns(NodeName(IntToDecimal(n))) != [IntToDecimal(n)]
  {
    assert NoDigits("slave-") && NoDigits("-node");
    assert NodeName(IntToDecimal(n)) == "slave-" + NatToDecimal(-n) + "-node";
    DigitRunsIsolate("slave-", NatToDecimal(-n), "-node");
  }

  lemma {:induction false} MissingIncludes(file: seq<string>, nodes: seq<string>, k: nat)
    requires k < |nodes| && !Present(file, nodes[k])
    ensures forall x | x in DigitRuns(nodes[k]) :: x in MissingWorkers(file, nodes)
    decreases |nodes|
  {
    if k < |nodes| - 1 {
      MissingIncludes(file, nodes[..|nodes| - 1], k);
    }
  }

  /** The configuration file once the scale-up reconciliation has appended the jobs of the missing workers. */
  function ScaleUpFile(stacks: StackStates, file: seq<string>, workers: seq<string>): seq<string>
    requires ScaleIpsKnown(stacks, MissingWorkers(file, ScaleNodeKeys(workers)))
  {
    AppendJobs(file, ScaleJobs(stacks, MissingWorkers(file, ScaleNodeKeys(workers))))
  }

  /** A worker whose node name was absent is among the missing ones, so its job is appended. */
  lemma MissingWorkerAppended(stacks: StackStates, file: seq<string>, workers: seq<string>, w: string)
    requires w in workers && |w| > 0 && AllDigits(w) && !Present(file, NodeName(w))
    requires ScaleIpsKnown(stacks, MissingWorkers(file, ScaleNodeKeys(workers)))
    ensures Present(ScaleUpFile(stacks, file, workers), NodeName(w))
  {
    var keys := ScaleNodeKeys(workers);
    var missing := MissingWorkers(file, keys);
    var k :| 0 <= k < |Dedup(workers)| && Dedup(workers)[k] == w;
    assert keys[k] == NodeName(w);
    NodeNameDigits(w);
    MissingIncludes(file, keys, k);
    assert w in Dedup(missing);
    var j :| 0 <= j < |Dedup(missing)| && Dedup(missing)[j] == w;
    var jobs := ScaleJobs(stacks, missing);
    assert jobs[j].name == NodeName(w);
    AppendedJobsPresent(file, jobs, j);
  }

  /** Appending keeps every job that was present. */
  lemma PresentAfterAppend(file: seq<string>, jobs: seq<Job>, n: string)
    requires Present(file, n)
    ensures Present(AppendJobs(file, jobs), n)
  {
    var after := AppendJobs(file, jobs);
    assert after == file + after[|file|..];
    PresentInPrefix(file, after[|file|..], n);
  }

  /** After the scale-up reconciliation every scaled worker (a decimal index) has a job in the file. */
  lemma ScaleUpCovers(stacks: StackStates, file: seq<string>, workers: seq<string>)
    requires forall w | w in workers :: |w| > 0 && AllDigits(w)
    requires ScaleIpsKnown(stacks, MissingWorkers(file, ScaleNodeKeys(workers)))
    ensures forall w | w in workers :: Present(ScaleUpFile(stacks, file, workers), NodeName(w))
  {
    forall w | w in workers
      ensures Present(ScaleUpFile(stacks, file, workers), NodeName(w))
    {
      if Present(file, NodeName(w)) {
        PresentAfterAppend(file, ScaleJobs(stacks, MissingWorkers(file, ScaleNodeKeys(workers))), NodeName(w));
      } else {
        MissingWorkerAppended(stacks, file, workers, w);
      }
    }
  }

  /** A second scale-up reconciliation finds nothing missing. */
  lemma ScaleUpIdempotent(stacks: StackStates, file: seq<string>, workers: seq<string>)
    requires forall w | w in workers :: |w| > 0 && AllDigits(w)
    requires ScaleIpsKnown(stacks, MissingWorkers(file, ScaleNodeKeys(workers)))
    ensures MissingWorkers(ScaleUpFile(stacks, file, workers), ScaleNodeKeys(workers)) == []
  {
    var keys := ScaleNodeKeys(workers);
    var after := ScaleUpFile(stacks, file, workers);
    ScaleUpCovers(stacks, file, workers);
    forall n | n in keys
      ensures Present(after, n)
    {
      var k :| 0 <= k < |keys| && keys[k] == n;
      assert Dedup(workers)[k] in workers;
    }
    NothingMissing(after, keys);
  }

  /** The configuration file once the scale-down reconciliation has deleted the stanzas of the present workers. */
  function ScaleDownFile(file: seq<string>, workers: seq<string>): seq<string> {
    SedDeleteAll(file, PresentNodes(file, ScaleNodeKeys(workers)))
  }

  /**
   * After the scale-down reconciliation no scaled worker's node name is left
   * in the file, so a second reconciliation deletes nothing.
   */
  lemma ScaleDownClears(file: seq<string>, workers: seq<string>)
    ensures forall n | n in ScaleNodeKeys(workers) :: !Present(ScaleDownFile(file, workers), n)
    ensures PresentNodes(ScaleDownFile(file, workers), ScaleNodeKeys(workers)) == []
  {
    var keys := ScaleNodeKeys(workers);
    var after := ScaleDownFile(file, workers);
    SedDeleteAllClears(file, PresentNodes(file, keys));
    forall n | n in keys
      ensures !Present(after, n)
    {
      if !Present(file, n) {
        AbsentStaysAbsent(file, after, n);
      }
    }
    NothingPresent(after, keys);
  }

  /** `validate_scale`: only the two directions are accepted. */
  function ValidateScale(scaleType: string): (r: Outcome)
    ensures r.Pass? <==> scaleType == "up" || scaleType == "down"
  {
    if scaleType == "up" || scaleType == "down" then Pass
    else Raise("Not supported scale type: " + scaleType)
  }

  /** `str(n)` of each index, as the scale methods format them. */
  function Formatted(workers: seq<int>): (ws: seq<string>)
    ensures |ws| == |workers| && forall i :: 0 <= i < |workers| ==> ws[i] == IntToDecimal(workers[i])
  {
    seq(|workers|, i requires 0 <= i < |workers| => IntToDecimal(workers[i]))
  }

  /** The stacks a scale operation may touch: those of the indices that pass validation. */
  function ScaleNames(stackMap: map<string, map<string, string>>, workers: seq<int>): set<string> {
    set w | w in workers && ValidateStack(stackMap, w).Pass? :: ScaleStackName(IntToDecimal(w))
  }

  /** Against the default table no index validates, so no scale operation touches any stack. */
  lemma DefaultTableScalesNothing(workers: seq<int>)
    ensures ScaleNames(Tables.StackToMap, workers) == {}
  {
    forall w | w in workers
      ensures ValidateStack(Tables.StackToMap, w).Raise?
    {
      DefaultTableRejectsEveryIndex(w);
    }
  }

  /** Outside `touched`, every stack is as it was. */
  ghost predicate SameOutside(before: StackStates, after: StackStates, touched: set<string>) {
    forall n | n !in touched :: (n in before <==> n in after) && (n in before ==> before[n] == after[n])
  }

  /**
   * Creating `next` leaves every other stack alone: what was complete stays
   * complete, and `next` was pending exactly when it was pending at the start.
   */
  lemma ChainStep(s0: StackStates, before: StackStates, after: StackStates, done: string, next: string)
    requires done != next
    requires SameOutside(before, after, {next})
    ensures IsComplete(before, done) ==> IsComplete(after, done)
  {
    assert done !in {next};
  }

  lemma SameOutsideTrans(a: StackStates, b: StackStates, c: StackStates, x: set<string>, y: set<string>)
    requires SameOutside(a, b, x) && SameOutside(b, c, y)
    ensures SameOutside(a, c, x + y)
  {
  }

  lemma SameOutsideWiden(a: StackStates, b: StackStates, x: set<string>, y: set<string>)
    requires SameOutside(a, b, x) && x <= y
    ensures SameOutside(a, b, y)
  {
  }

  /** One more index adds its stack to the touched ones exactly when it validates. */
  lemma ScaleNamesSnoc(stackMap: map<string, map<string, string>>, workers: seq<int>, w: int)
    ensures ScaleNames(stackMap, workers + [w]) == ScaleNames(stackMap, workers) + ScaleNames(stackMap, [w])
  {
    var all := ScaleNames(stackMap, workers + [w]);
    forall n | n in all
      ensures n in ScaleNames(stackMap, workers) + ScaleNames(stackMap, [w])
    {
      var v :| v in workers + [w] && ValidateStack(stackMap, v).Pass? && n == ScaleStackName(IntToDecimal(v));
      if v == w {
        assert v in [w];
      } else {
        assert v in workers;
      }
    }
    forall n | n in ScaleNames(stackMap, workers) + ScaleNames(stackMap, [w])
      ensures n in all
    {
      if n in ScaleNames(stackMap, workers) {
        var v :| v in workers && ValidateStack(stackMap, v).Pass? && n == ScaleStackName(IntToDecimal(v));
        assert v in workers + [w];
      } else {
        var v :| v in [w] && ValidateStack(stackMap, v).Pass? && n == ScaleStackName(IntToDecimal(v));
        assert v in workers + [w];
      }
    }
  }

  /** `[name]` unless that stack is already complete. */
  function NotComplete(stacks: StackStates, name: string): seq<string> {
    if IsComplete(stacks, name) then [] else [name]
  }

  /** The stacks of the chain that are not complete yet, in creation order. */
  function Uncreated(names: StackNames, stacks: StackStates): (r: seq<string>)
    ensures r == [] <==> Ready(names, stacks)
  {
    NotComplete(stacks, names.vpc) + NotComplete(stacks, names.distribution)
    + NotComplete(stacks, names.master) + NotComplete(stacks, names.slave)
  }

  /**
   * Four creations in chain order, each touching only its own stack and
   * each leaving it complete, make the whole chain ready, and the stacks they
   * submit are exactly those that were not complete at the start.
   */
  lemma CreationChain(names: StackNames, s0: StackStates, s1: StackStates, s2: StackStates, s3: StackStates,
                      s4: StackStates, c0: seq<string>, c1: seq<string>, c2: seq<string>, c3: seq<string>, c4: seq<string>)
    requires names.Distinct()
    requires SameOutside(s0, s1, {names.vpc}) && SameOutside(s1, s2, {names.distribution})
    requires SameOutside(s2, s3, {names.master}) && SameOutside(s3, s4, {names.slave})
    requires IsComplete(s1, names.vpc) && IsComplete(s2, names.distribution)
    requires IsComplete(s3, names.master) && IsComplete(s4, names.slave)
    requires c1 == c0 + NotComplete(s0, names.vpc) && c2 == c1 + NotComplete(s1, names.distribution)
    requires c3 == c2 + NotComplete(s2, names.master) && c4 == c3 + NotComplete(s3, names.slave)
    ensures Ready(names, s4)
    ensures c4 == c0 + Uncreated(names, s0)
  {
    assert names.distribution !in {names.vpc};
    assert names.master !in {names.vpc} && names.master !in {names.distribution};
    assert names.slave !in {names.vpc} && names.slave !in {names.distribution} && names.slave !in {names.master};
    assert names.vpc !in {names.distribution} && names.vpc !in {names.master} && names.vpc !in {names.slave};
    assert names.distribution !in {names.master} && names.distribution !in {names.slave};
    assert names.master !in {names.slave};
    assert c4 == c0 + (NotComplete(s0, names.vpc) + NotComplete(s0, names.distribution)
      + NotComplete(s0, names.master) + NotComplete(s0, names.slave));
  }

  /**
   * The configuration once `own` exists: when `own` had to be created, the
   * merge of its parameter section with `pred`'s outputs is written back.
   */
  function WrittenBack(created: bool, stacks: StackStates, stackMap: map<string, map<string, string>>,
                       config: map<string, map<string, string>>, pred: string, paramName: string)
    : map<string, map<string, string>>
  {
    if !created then config
    else match MergeResult(stacks, stackMap, config, pred, paramName)
      case Ok(m) => config[paramName := m]
      case Err(_) => config
  }

  /** The configuration after the creation chain has taken the stacks from `s0` to `s`. */
  function CreationConfig(names: StackNames, stackMap: map<string, map<string, string>>,
                          s0: StackStates, s: StackStates, config: map<string, map<string, string>>)
    : map<string, map<string, string>>
  {
    var c1 := WrittenBack(!IsComplete(s0, names.distribution), s, stackMap, config, names.vpc, DistributionParams);
    var c2 := WrittenBack(!IsComplete(s0, names.master), s, stackMap, c1, names.distribution, MasterParams);
    WrittenBack(!IsComplete(s0, names.slave), s, stackMap, c2, names.master, SlaveParams)
  }

  /** The merge reads the stacks only through the predecessor. */
  lemma MergeSamePred(a: StackStates, b: StackStates, stackMap: map<string, map<string, string>>,
                      config: map<string, map<string, string>>, pred: string, paramName: string, touched: set<string>)
    requires SameOutside(a, b, touched) && pred !in touched
    ensures MergeResult(a, stackMap, config, pred, paramName) == MergeResult(b, stackMap, config, pred, paramName)
  {
    assert StackOutput(a, pred) == StackOutput(b, pred);
  }

  /** The merge of one section reads no other section. */
  lemma MergeOwnSection(stacks: StackStates, stackMap: map<string, map<string, string>>,
                        a: map<string, map<string, string>>, b: map<string, map<string, string>>,
                        pred: string, paramName: string)
    requires paramName in a <==> paramName in b
    requires paramName in a ==> a[paramName] == b[paramName]
    ensures MergeResult(stacks, stackMap, a, pred, paramName) == MergeResult(stacks, stackMap, b, pred, paramName)
  {
  }

  /** A write-back changes at most its own section, and never the set of sections. */
  lemma WrittenBackFrame(created: bool, stacks: StackStates, stackMap: map<string, map<string, string>>,
                         config: map<string, map<string, string>>, pred: string, paramName: string)
    ensures var c := WrittenBack(created, stacks, stackMap, config, pred, paramName);
      && c.Keys == config.Keys
      && (forall p | p in config && p != paramName :: c[p] == config[p])
      && (var m := MergeResult(stacks, stackMap, config, pred, paramName);
          created && m.Ok? ==> c[paramName] == m.value)
  {
  }

  /**
   * What the creation chain writes into the configuration: every section but
   * the three parameter sections is kept, no section is added or dropped, and
   * the section of each stack that had to be created holds the merge of the
   * configured section with its predecessor's outputs.
   */
  lemma CreationConfigSections(names: StackNames, stackMap: map<string, map<string, string>>,
                               s0: StackStates, s: StackStates, config: map<string, map<string, string>>)
    ensures var c := CreationConfig(names, stackMap, s0, s, config);
      && c.Keys == config.Keys
      && (forall p | p in config && p != DistributionParams && p != MasterParams && p != SlaveParams :: c[p] == config[p])
      && (var m := MergeResult(s, stackMap, config, names.vpc, DistributionParams);
          !IsComplete(s0, names.distribution) && m.Ok? ==> c[DistributionParams] == m.value)
      && (var m := MergeResult(s, stackMap, config, names.distribution, MasterParams);
          !IsComplete(s0, names.master) && m.Ok? ==> c[MasterParams] == m.value)
      && (var m := MergeResult(s, stackMap, config, names.master, SlaveParams);
          !IsComplete(s0, names.slave) && m.Ok? ==> c[SlaveParams] == m.value)
  {
    var c1 := WrittenBack(!IsComplete(s0, names.distribution), s, stackMap, config, names.vpc, DistributionParams);
    var c2 := WrittenBack(!IsComplete(s0, names.master), s, stackMap, c1, names.distribution, MasterParams);
    var c3 := WrittenBack(!IsComplete(s0, names.slave), s, stackMap, c2, names.master, SlaveParams);
    WrittenBackFrame(!IsComplete(s0, names.distribution), s, stackMap, config, names.vpc, DistributionParams);
    WrittenBackFrame(!IsComplete(s0, names.master), s, stackMap, c1, names.distribution, MasterParams);
    WrittenBackFrame(!IsComplete(s0, names.slave), s, stackMap, c2, names.master, SlaveParams);
    MergeOwnSection(s, stackMap, c1, config, names.distribution, MasterParams);
    MergeOwnSection(s, stackMap, c2, config, names.master, SlaveParams);
  }

  /** The three creations in turn write back what `CreationConfig` describes. */
  lemma CreationConfigChain(names: StackNames, stackMap: map<string, map<string, string>>,
                            s0: StackStates, s1: StackStates, s2: StackStates, s3: StackStates, s4: StackStates,
                            c0: map<string, map<string, string>>, c2: map<string, map<string, string>>,
                            c3: map<string, map<string, string>>, c4: map<string, map<string, string>>)
    requires names.Distinct()
    requires SameOutside(s0, s1, {names.vpc}) && SameOutside(s1, s2, {names.distribution})
    requires SameOutside(s2, s3, {names.master}) && SameOutside(s3, s4, {names.slave})
    requires c2 == WrittenBack(!IsComplete(s1, names.distribution), s2, stackMap, c0, names.vpc, DistributionParams)
    requires c3 == WrittenBack(!IsComplete(s2, names.master), s3, stackMap, c2, names.distribution, MasterParams)
    requires c4 == WrittenBack(!IsComplete(s3, names.slave), s4, stackMap, c3, names.master, SlaveParams)
    ensures c4 == CreationConfig(names, stackMap, s0, s4, c0)
  {
    UntouchedStack(s0, s1, {names.vpc}, names.distribution);
    SameOutsideTrans(s0, s1, s2, {names.vpc}, {names.distribution});
    UntouchedStack(s0, s2, {names.vpc, names.distribution}, names.master);
    SameOutsideTrans(s0, s2, s3, {names.vpc, names.distribution}, {names.master});
    UntouchedStack(s0, s3, {names.vpc, names.distribution, names.master}, names.slave);
    SameOutsideTrans(s2, s3, s4, {names.master}, {names.slave});
    MergeSamePred(s2, s4, stackMap, c0, names.vpc, DistributionParams, {names.master, names.slave});
    MergeSamePred(s3, s4, stackMap, c2, names.distribution, MasterParams, {names.slave});
  }

  function DeleteUnlessDeleted(stacks: StackStates, name: string): seq<Call> {
    if IsDeleted(stacks, name) then [] else [DeleteRequest(name)]
  }

  /**
   * The calls of a teardown that runs to the end: slave, master, then the
   * distribution stack with its metadata backup on `backupId` immediately
   * before its deletion, then the VPC stack only when everything is to be
   * destroyed. Stacks already deleted are skipped.
   */
  function TeardownCalls(names: StackNames, destroyAll: bool, stacks: StackStates, backupId: string): seq<Call> {
    DeleteUnlessDeleted(stacks, names.slave)
    + DeleteUnlessDeleted(stacks, names.master)
    + BackupThenDelete(stacks, names.distribution, backupId)
    + (if destroyAll then DeleteUnlessDeleted(stacks, names.vpc) else [])
  }

  /** A stack outside the touched ones is seen the same way before and after. */
  lemma UntouchedStack(a: StackStates, b: StackStates, touched: set<string>, name: string)
    requires SameOutside(a, b, touched) && name !in touched
    ensures IsDeleted(a, name) == IsDeleted(b, name) && IsComplete(a, name) == IsComplete(b, name)
    ensures BackupInstance(a, name) == BackupInstance(b, name)
  {
  }

  /** The four teardown steps, one after the other, issue the calls of `TeardownCalls`. */
  lemma TeardownChain(names: StackNames, destroyAll: bool, s0: StackStates, backupId: string,
                      t0: seq<Call>, t1: seq<Call>, t2: seq<Call>, t3: seq<Call>, t4: seq<Call>)
    requires t1 == t0 + DeleteUnlessDeleted(s0, names.slave)
    requires t2 == t1 + DeleteUnlessDeleted(s0, names.master)
    requires t3 == t2 + BackupThenDelete(s0, names.distribution, backupId)
    requires t4 == t3 + (if destroyAll then DeleteUnlessDeleted(s0, names.vpc) else [])
    ensures t4 == t0 + TeardownCalls(names, destroyAll, s0, backupId)
  {
  }

  /** A deletion that is skipped when the stack is already deleted. */
  function DeleteStep(stacks: StackStates, name: string, afterDelete: string -> Stack): StackStates {
    if IsDeleted(stacks, name) then stacks else stacks[name := afterDelete(name)]
  }

  /** The stacks once a teardown has run to the end. */
  function TeardownStacks(names: StackNames, destroyAll: bool, s0: StackStates, afterDelete: string -> Stack): StackStates {
    var s1 := DeleteStep(s0, names.slave, afterDelete);
    var s2 := DeleteStep(s1, names.master, afterDelete);
    var s3 := DeleteStep(s2, names.distribution, afterDelete);
    if destroyAll then DeleteStep(s3, names.vpc, afterDelete) else s3
  }

  /**
   * A teardown touches only the cluster's stacks (the VPC stack only when
   * everything is to be destroyed), and when every delete waiter reports the
   * stack gone, the cluster is terminated.
   */
  lemma TeardownTerminates(names: StackNames, destroyAll: bool, s0: StackStates, afterDelete: string -> Stack)
    requires names.Distinct()
    ensures SameOutside(s0, TeardownStacks(names, destroyAll, s0, afterDelete),
                        {names.slave, names.master, names.distribution} + (if destroyAll then {names.vpc} else {}))
    ensures (forall n | n in {names.slave, names.master, names.distribution, names.vpc} ::
               afterDelete(n).status in {Absent, DeleteComplete})
            ==> Terminated(names, destroyAll, TeardownStacks(names, destroyAll, s0, afterDelete))
  {
    var s := TeardownStacks(names, destroyAll, s0, afterDelete);
    if forall n | n in {names.slave, names.master, names.distribution, names.vpc} ::
         afterDelete(n).status in {Absent, DeleteComplete} {
      assert names.slave in {names.slave, names.master, names.distribution, names.vpc};
      assert names.master in {names.slave, names.master, names.distribution, names.vpc};
      assert names.distribution in {names.slave, names.master, names.distribution, names.vpc};
      assert names.vpc in {names.slave, names.master, names.distribution, names.vpc};
    }
  }

  /** The instance the metadata backup runs on: the distribution node named in the stack's outputs. */
  function BackupInstance(stacks: StackStates, name: string): string {
    var id := Resource(stacks, name, DistributionInstanceKey);
    if id.Ok? then id.value else ""
  }

  function BackupThenDelete(stacks: StackStates, name: string, backupId: string): seq<Call> {
    if IsDeleted(stacks, name) then []
    else [CommandSent(backupId, Mysqldump), CommandSent(backupId, CopyBackupToS3), DeleteRequest(name)]
  }

  /** `[name]` unless that stack is already deleted. */
  function Undeleted(stacks: StackStates, name: string): seq<string> {
    if IsDeleted(stacks, name) then [] else [name]
  }

  lemma DeleteUnlessDeletedNames(stacks: StackStates, name: string)
    ensures CreatedNames(DeleteUnlessDeleted(stacks, name)) == []
    ensures DeletedNames(DeleteUnlessDeleted(stacks, name)) == Undeleted(stacks, name)
  {
    SnocNames([], DeleteRequest(name));
    assert [DeleteRequest(name)] == [] + [DeleteRequest(name)];
  }

  lemma BackupThenDeleteNames(stacks: StackStates, name: string, backupId: string)
    ensures CreatedNames(BackupThenDelete(stacks, name, backupId)) == []
    ensures DeletedNames(BackupThenDelete(stacks, name, backupId)) == Undeleted(stacks, name)
  {
    var c0, c1, c2 := CommandSent(backupId, Mysqldump), CommandSent(backupId, CopyBackupToS3), DeleteRequest(name);
    SnocNames([], c0);
    SnocNames([c0], c1);
    SnocNames([c0, c1], c2);
    assert [c0] == [] + [c0] && [c0, c1] == [c0] + [c1] && [c0, c1, c2] == [c0, c1] + [c2];
  }

  /** Teardown deletes in reverse creation order, skipping deleted stacks, and never creates. */
  lemma TeardownOrder(names: StackNames, destroyAll: bool, stacks: StackStates, backupId: string)
    ensures CreatedNames(TeardownCalls(names, destroyAll, stacks, backupId)) == []
    ensures DeletedNames(TeardownCalls(names, destroyAll, stacks, backupId)) ==
      Undeleted(stacks, names.slave) + Undeleted(stacks, names.master) + Undeleted(stacks, names.distribution)
      + (if destroyAll then Undeleted(stacks, names.vpc) else [])
  {
    var a := DeleteUnlessDeleted(stacks, names.slave);
    var b := DeleteUnlessDeleted(stacks, names.master);
    var c := BackupThenDelete(stacks, names.distribution, backupId);
    var d: seq<Call> := if destroyAll then DeleteUnlessDeleted(stacks, names.vpc) else [];
    DeleteUnlessDeletedNames(stacks, names.slave);
    DeleteUnlessDeletedNames(stacks, names.master);
    BackupThenDeleteNames(stacks, names.distribution, backupId);
    DeleteUnlessDeletedNames(stacks, names.vpc);
    NamesOfConcat(a, b);
    NamesOfConcat(a + b, c);
    NamesOfConcat(a + b + c, d);
  }

  /** The VPC stack is deleted only when everything is to be destroyed. */
  lemma TeardownKeepsVpc(names: StackNames, stacks: StackStates, backupId: string)
    requires names.Distinct()
    ensures names.vpc !in DeletedNames(TeardownCalls(names, false, stacks, backupId))
  {
    TeardownOrder(names, false, stacks, backupId);
  }

  /** The backup runs on `backupId` immediately before the distribution stack's delete request. */
  lemma BackupPrecedesDistributionDelete(names: StackNames, destroyAll: bool, stacks: StackStates, backupId: string, k: nat)
    requires names.Distinct()
    requires k < |TeardownCalls(names, destroyAll, stacks, backupId)|
    requires TeardownCalls(names, destroyAll, stacks, backupId)[k] == DeleteRequest(names.distribution)
    ensures k >= 2
    ensures var calls := TeardownCalls(names, destroyAll, stacks, backupId);
      calls[k - 2] == CommandSent(backupId, Mysqldump) && calls[k - 1] == CommandSent(backupId, CopyBackupToS3)
  {
    var ab := DeleteUnlessDeleted(stacks, names.slave) + DeleteUnlessDeleted(stacks, names.master);
    var c := BackupThenDelete(stacks, names.distribution, backupId);
    var d: seq<Call> := if destroyAll then DeleteUnlessDeleted(stacks, names.vpc) else [];
    var calls := TeardownCalls(names, destroyAll, stacks, backupId);
    assert calls == ab + c + d;
    forall i | 0 <= i < |ab|
      ensures ab[i] != DeleteRequest(names.distribution)
    {
    }
    forall i | 0 <= i < |d|
      ensures d[i] != DeleteRequest(names.distribution)
    {
    }
    if k < |ab| {
      assert false;
    }
    if k >= |ab| + |c| {
      assert false;
    }
    assert |c| == 3 && k == |ab| + 2;
  }

  /** Calls that are only commands create and delete nothing. */
  lemma {:induction false} CommandsNameNothing(calls: seq<Call>)
    requires OnlyCommands(calls)
    ensures CreatedNames(calls) == [] && DeletedNames(calls) == []
    decreases |calls|
  {
    if calls != [] {
      CommandsNameNothing(calls[..|calls| - 1]);
    }
  }

  lemma CommandsKeepNames(before: seq<Call>, after: seq<Call>)
    requires CommandsAppended(before, after)
    ensures CreatedNames(after) == CreatedNames(before) && DeletedNames(after) == DeletedNames(before)
  {
    assert after == before + after[|before|..];
    CommandsNameNothing(after[|before|..]);
    NamesOfConcat(before, after[|before|..]);
  }

  lemma SnocNames(calls: seq<Call>, c: Call)
    ensures CreatedNames(calls + [c]) == CreatedNames(calls) + (if c.CreateRequest? then [c.name] else [])
    ensures DeletedNames(calls + [c]) == DeletedNames(calls) + (if c.DeleteRequest? then [c.name] else [])
  {
    assert (calls + [c])[..|calls|] == calls;
  }

  lemma SentSnoc(instance: string, commands: seq<Command>, c: Command)
    ensures Sent(instance, commands + [c]) == Sent(instance, commands) + [CommandSent(instance, c)]
  {
  }

  /** Running one more command extends both the calls sent and the edits applied by that command. */
  lemma PrefixStep(instance: string, file: seq<string>, commands: seq<Command>, i: nat)
    requires i < |commands|
    ensures Sent(instance, commands[..i + 1]) == Sent(instance, commands[..i]) + [CommandSent(instance, commands[i])]
    ensures ApplyAll(file, commands[..i + 1]) == CommandEffect(ApplyAll(file, commands[..i]), commands[i])
  {
    assert commands[..i + 1] == commands[..i] + [commands[i]];
    SentSnoc(instance, commands[..i], commands[i]);
    ApplySnoc(file, commands[..i], commands[i]);
  }

  lemma CommandsAppendedBy(before: seq<Call>, extra: seq<Call>)
    requires OnlyCommands(extra)
    ensures CommandsAppended(before, before + extra)
  {
    assert (before + extra)[|before|..] == extra;
  }

  class AwsInstance {
    const names: StackNames
    const alwaysDestroyAll: bool
    /** The predecessor-output tables, one per predecessor stack name. */
    const stackMap: map<string, map<string, string>>
    /** The state a stack is in once the create waiter returns after a create request. */
    const afterCreate: string -> Stack
    /** The state a stack is in once the delete waiter returns after a delete request. */
    const afterDelete: string -> Stack
    /** The statuses the polls of one command observe within its time budget. */
    const ssm: (string, Command) -> seq<InvocationStatus>
    /** Whether an instance is reported stopped. */
    const instanceStopped: string -> bool

    /** The parameter sections of the configuration, by section name. */
    var config: map<string, map<string, string>>
    var stacks: StackStates
    /** The lines of prometheus.yml on the distribution node. */
    var prometheusYml: seq<string>
    var trace: seq<Call>

    constructor (names: StackNames, alwaysDestroyAll: bool, stackMap: map<string, map<string, string>>,
                 afterCreate: string -> Stack, afterDelete: string -> Stack,
                 ssm: (string, Command) -> seq<InvocationStatus>, instanceStopped: string -> bool,
                 config: map<string, map<string, string>>, stacks: StackStates, prometheusYml: seq<string>)
      ensures this.names == names && this.alwaysDestroyAll == alwaysDestroyAll && this.stackMap == stackMap
      ensures this.afterCreate == afterCreate && this.afterDelete == afterDelete
      ensures this.ssm == ssm && this.instanceStopped == instanceStopped
      ensures this.config == config && this.stacks == stacks && this.prometheusYml == prometheusYml
      ensures trace == []
    {
      this.names, this.alwaysDestroyAll, this.stackMap := names, alwaysDestroyAll, stackMap;
      this.afterCreate, this.afterDelete := afterCreate, afterDelete;
      this.ssm, this.instanceStopped := ssm, instanceStopped;
      this.config, this.stacks, this.prometheusYml := config, stacks, prometheusYml;
      trace := [];
    }

    predicate IsEc2StackReady()
      reads this
    {
      Ready(names, stacks)
    }

    predicate IsEc2StackTerminated()
      reads this
    {
      Terminated(names, alwaysDestroyAll, stacks)
    }

    /** Submits the create request; raises unless the stack is complete once the waiter returns. */
    method CreateStack(name: string, params: map<string, string>, capability: Option<string>) returns (r: Outcome)
      modifies this
      ensures trace == old(trace) + [CreateRequest(name, params, capability)]
      ensures stacks == old(stacks)[name := afterCreate(name)]
      ensures config == old(config) && prometheusYml == old(prometheusYml)
      ensures r.Pass? <==> IsComplete(stacks, name)
    {
      trace := trace + [CreateRequest(name, params, capability)];
      stacks := stacks[name := afterCreate(name)];
      if IsComplete(stacks, name) {
        r := Pass;
      } else {
        r := Raise("Stack " + name + " not create complete, pls check.");
      }
    }

    /** Submits the delete request. */
    method DeleteStack(name: string)
      modifies this
      ensures trace == old(trace) + [DeleteRequest(name)]
      ensures stacks == old(stacks)[name := afterDelete(name)]
      ensures config == old(config) && prometheusYml == old(prometheusYml)
    {
      trace := trace + [DeleteRequest(name)];
      stacks := stacks[name := afterDelete(name)];
    }

    /**
     * Sends one command to one instance and polls its invocation; returns its
     * standard output when the invocation succeeds and raises otherwise.
     */
    method ExecScript(instance: string, command: Command) returns (r: Result<string>)
      modifies this
      ensures trace == old(trace) + [CommandSent(instance, command)]
      ensures r.Ok? <==> Succeeds(ssm(instance, command))
      ensures r.Ok? ==> r.value == CommandStdout(old(prometheusYml), command)
      ensures prometheusYml == if r.Ok? then CommandEffect(old(prometheusYml), command) else old(prometheusYml)
      ensures stacks == old(stacks) && config == old(config)
    {
      trace := trace + [CommandSent(instance, command)];
      var polled, ok := AwaitInvocation(ssm(instance, command));
      if ok {
        r := Ok(CommandStdout(prometheusYml, command));
        prometheusYml := CommandEffect(prometheusYml, command);
      } else {
        r := Err("execute script failed");
      }
    }

    /**
     * Fills, in place, every empty parameter of the configuration section
     * `paramName` from the outputs of the predecessor stack `pred`.
     */
    method MergeParams(pred: string, paramName: string) returns (r: Result<map<string, string>>)
      modifies this
      ensures r.Ok? <==> MergeResult(old(stacks), stackMap, old(config), pred, paramName).Ok?
      ensures r.Ok? ==> r == MergeResult(old(stacks), stackMap, old(config), pred, paramName)
      ensures r.Ok? ==> config == old(config)[paramName := r.value]
      ensures config.Keys == old(config).Keys
      ensures forall p | p in config && p != paramName :: config[p] == old(config)[p]
      ensures paramName in config ==> config[paramName].Keys == old(config)[paramName].Keys
      ensures stacks == old(stacks) && trace == old(trace) && prometheusYml == old(prometheusYml)
    {
      var out := StackOutput(stacks, pred);
      if out.Err? {
        return Err(out.msg);
      }
      if paramName !in config {
        return Err("KeyError: " + paramName);
      }
      if pred !in stackMap {
        return Err("KeyError: " + pred);
      }
      var relate := stackMap[pred];
      var declared := config[paramName];
      // `section` is the parameter dict itself: each fill is visible in `config` at once
      var section := declared;
      var todo := declared.Keys;
      while todo != {}
        invariant todo <= declared.Keys
        invariant section.Keys == declared.Keys
        invariant config == old(config)
        invariant forall k | k in todo :: section[k] == declared[k]
        invariant forall k | k in declared && k !in todo && !KeepsDeclared(k, declared[k]) ::
          k in relate && relate[k] in out.value && section[k] == out.value[relate[k]]
        invariant forall k | k in declared && k !in todo && KeepsDeclared(k, declared[k]) ::
          section[k] == declared[k]
        decreases todo
      {
        var k :| k in todo;
        var v := section[k];
        if !KeepsDeclared(k, v) {
          if k !in relate || relate[k] !in out.value {
            assert !CanFill(declared, out.value, relate);
            config := config[paramName := section];
            return Err("KeyError: " + k);
          }
          section := section[k := out.value[relate[k]]];
        }
        todo := todo - {k};
      }
      assert CanFill(declared, out.value, relate);
      assert section == Filled(declared, out.value, relate);
      config := config[paramName := section];
      r := Ok(section);
    }

    /**
     * The guard shared by the creation of the distribution, master and slave
     * stacks: nothing happens when the stack is already complete; the call
     * raises when the predecessor is not complete; otherwise the parameters
     * are merged from the predecessor's outputs and the stack is created.
     */
    twostate predicate CreatedAfter(own: string, pred: string, paramName: string, capability: Option<string>, r: Outcome)
      reads this
    {
      if old(IsComplete(stacks, own)) then
        r == Pass && config == old(config) && stacks == old(stacks)
        && trace == old(trace) && prometheusYml == old(prometheusYml)
      else if !old(IsComplete(stacks, pred)) then
        r.Raise? && config == old(config) && stacks == old(stacks)
        && trace == old(trace) && prometheusYml == old(prometheusYml)
      else
        var m := MergeResult(old(stacks), stackMap, old(config), pred, paramName);
        if m.Err? then
          r.Raise? && config.Keys == old(config).Keys && stacks == old(stacks)
          && trace == old(trace) && prometheusYml == old(prometheusYml)
        else
          config == old(config)[paramName := m.value]
          && trace == old(trace) + [CreateRequest(own, m.value, capability)]
          && stacks == old(stacks)[own := afterCreate(own)]
          && prometheusYml == old(prometheusYml)
          && (r.Pass? <==> IsComplete(stacks, own))
    }

    method CreateAfter(own: string, pred: string, paramName: string, capability: Option<string>) returns (r: Outcome)
      modifies this
      ensures CreatedAfter(own, pred, paramName, capability, r)
      ensures r.Pass? ==> IsComplete(stacks, own)
      ensures r.Pass? ==> config == WrittenBack(!old(IsComplete(stacks, own)), stacks, stackMap, old(config), pred, paramName)
      ensures prometheusYml == old(prometheusYml)
      ensures r.Pass? ==> CreatedNames(trace) == CreatedNames(old(trace)) + NotComplete(old(stacks), own)
      ensures SameOutside(old(stacks), stacks, {own})
    {
      if IsComplete(stacks, own) {
        return Pass;
      }
      if !IsComplete(stacks, pred) {
        return Raise(pred + " Must be created complete before create " + own + ".");
      }
      var params := MergeParams(pred, paramName);
      if params.Err? {
        return Raise(params.msg);
      }
      SnocNames(trace, CreateRequest(own, params.value, capability));
      r := CreateStack(own, params.value, capability);
    }

    /** The VPC stack has no predecessor and no parameters. */
    method CreateVpcStack() returns (r: Outcome)
      modifies this
      ensures old(IsComplete(stacks, names.vpc)) ==>
        r == Pass && stacks == old(stacks) && trace == old(trace)
      ensures !old(IsComplete(stacks, names.vpc)) ==>
        trace == old(trace) + [CreateRequest(names.vpc, map[], None)]
        && stacks == old(stacks)[names.vpc := afterCreate(names.vpc)]
        && (r.Pass? <==> IsComplete(stacks, names.vpc))
      ensures r.Pass? ==> IsComplete(stacks, names.vpc)
      ensures CreatedNames(trace) == CreatedNames(old(trace)) + NotComplete(old(stacks), names.vpc)
      ensures SameOutside(old(stacks), stacks, {names.vpc})
      ensures config == old(config) && prometheusYml == old(prometheusYml)
    {
      if IsComplete(stacks, names.vpc) {
        return Pass;
      }
      SnocNames(trace, CreateRequest(names.vpc, map[], None));
      r := CreateStack(names.vpc, map[], None);
    }

    method CreateDistributionStack() returns (r: Outcome)
      modifies this
      ensures CreatedAfter(names.distribution, names.vpc, DistributionParams, Some(NamedIam), r)
      ensures r.Pass? ==> IsComplete(stacks, names.distribution)
      ensures r.Pass? ==> config == WrittenBack(!old(IsComplete(stacks, names.distribution)), stacks, stackMap, old(config), names.vpc, DistributionParams)
      ensures prometheusYml == old(prometheusYml)
      ensures r.Pass? ==> CreatedNames(trace) == CreatedNames(old(trace)) + NotComplete(old(stacks), names.distribution)
      ensures SameOutside(old(stacks), stacks, {names.distribution})
    {
      r := CreateAfter(names.distribution, names.vpc, DistributionParams, Some(NamedIam));
    }

    method CreateMasterStack() returns (r: Outcome)
      modifies this
      ensures CreatedAfter(names.master, names.distribution, MasterParams, None, r)
      ensures r.Pass? ==> IsComplete(stacks, names.master)
      ensures r.Pass? ==> config == WrittenBack(!old(IsComplete(stacks, names.master)), stacks, stackMap, old(config), names.distribution, MasterParams)
      ensures prometheusYml == old(prometheusYml)
      ensures r.Pass? ==> CreatedNames(trace) == CreatedNames(old(trace)) + NotComplete(old(stacks), names.master)
      ensures SameOutside(old(stacks), stacks, {names.master})
    {
      r := CreateAfter(names.master, names.distribution, MasterParams, None);
    }

    method CreateSlaveStack() returns (r: Outcome)
      modifies this
      ensures CreatedAfter(names.slave, names.master, SlaveParams, None, r)
      ensures r.Pass? ==> IsComplete(stacks, names.slave)
      ensures r.Pass? ==> config == WrittenBack(!old(IsComplete(stacks, names.slave)), stacks, stackMap, old(config), names.master, SlaveParams)
      ensures prometheusYml == old(prometheusYml)
      ensures r.Pass? ==> CreatedNames(trace) == CreatedNames(old(trace)) + NotComplete(old(stacks), names.slave)
      ensures SameOutside(old(stacks), stacks, {names.slave})
    {
      r := CreateAfter(names.slave, names.master, SlaveParams, None);
    }

    /** Deletion of a stack that needs no backup: nothing happens when it is already deleted. */
    method TerminatePlain(name: string)
      modifies this
      ensures stacks == if old(IsDeleted(stacks, name)) then old(stacks) else old(stacks)[name := afterDelete(name)]
      ensures trace == old(trace) + DeleteUnlessDeleted(old(stacks), name)
      ensures SameOutside(old(stacks), stacks, {name})
      ensures config == old(config) && prometheusYml == old(prometheusYml)
    {
      if IsDeleted(stacks, name) {
        return;
      }
      DeleteStack(name);
    }

    method TerminateVpcStack()
      modifies this
      ensures stacks == if old(IsDeleted(stacks, names.vpc)) then old(stacks) else old(stacks)[names.vpc := afterDelete(names.vpc)]
      ensures trace == old(trace) + DeleteUnlessDeleted(old(stacks), names.vpc)
      ensures SameOutside(old(stacks), stacks, {names.vpc})
      ensures config == old(config) && prometheusYml == old(prometheusYml)
    {
      TerminatePlain(names.vpc);
    }

    method TerminateMasterStack()
      modifies this
      ensures stacks == if old(IsDeleted(stacks, names.master)) then old(stacks) else old(stacks)[names.master := afterDelete(names.master)]
      ensures trace == old(trace) + DeleteUnlessDeleted(old(stacks), names.master)
      ensures SameOutside(old(stacks), stacks, {names.master})
      ensures config == old(config) && prometheusYml == old(prometheusYml)
    {
      TerminatePlain(names.master);
    }

    method TerminateSlaveStack()
      modifies this
      ensures stacks == if old(IsDeleted(stacks, names.slave)) then old(stacks) else old(stacks)[names.slave := afterDelete(names.slave)]
      ensures trace == old(trace) + DeleteUnlessDeleted(old(stacks), names.slave)
      ensures SameOutside(old(stacks), stacks, {names.slave})
      ensures config == old(config) && prometheusYml == old(prometheusYml)
    {
      TerminatePlain(names.slave);
    }

    /**
     * Backs up the metadata databases to the bucket, and only for the
     * distribution stack: a dump on its instance, then a copy of the dump.
     * Raises when the instance cannot be read from the outputs, is stopped,
     * or either command fails.
     */
    method BackupMetadataBeforeTerminate(stackName: string) returns (r: Outcome)
      modifies this
      ensures stackName != names.distribution ==> r == Pass && trace == old(trace)
      ensures stackName == names.distribution && r.Pass? ==>
        var id := Resource(old(stacks), stackName, DistributionInstanceKey);
        id.Ok? && !instanceStopped(id.value)
        && trace == old(trace) + [CommandSent(id.value, Mysqldump), CommandSent(id.value, CopyBackupToS3)]
      ensures Resource(old(stacks), stackName, DistributionInstanceKey).Err? && stackName == names.distribution ==> r.Raise?
      ensures CommandsAppended(old(trace), trace)
      ensures stacks == old(stacks) && config == old(config) && prometheusYml == old(prometheusYml)
    {
      if stackName != names.distribution {
        return Pass;
      }
      var id := Resource(stacks, stackName, DistributionInstanceKey);
      if id.Err? {
        return Raise(id.msg);
      }
      if instanceStopped(id.value) {
        return Raise("Current instance " + id.value + " of " + stackName + " is not running.");
      }
      var dump := ExecScript(id.value, Mysqldump);
      if dump.Err? {
        return Raise(dump.msg);
      }
      var copy := ExecScript(id.value, CopyBackupToS3);
      if copy.Err? {
        return Raise(copy.msg);
      }
      r := Pass;
    }

    /** The distribution stack is backed up immediately before it is deleted. */
    method TerminateDistributionStack() returns (r: Outcome)
      modifies this
      ensures old(IsDeleted(stacks, names.distribution)) ==> r == Pass && stacks == old(stacks) && trace == old(trace)
      ensures !old(IsDeleted(stacks, names.distribution)) && r.Pass? ==>
        var id := Resource(old(stacks), names.distribution, DistributionInstanceKey);
        id.Ok?
        && trace == old(trace) + [CommandSent(id.value, Mysqldump), CommandSent(id.value, CopyBackupToS3),
                                  DeleteRequest(names.distribution)]
        && stacks == old(stacks)[names.distribution := afterDelete(names.distribution)]
      ensures !old(IsDeleted(stacks, names.distribution)) && !old(IsComplete(stacks, names.distribution)) ==>
        r.Raise?
      ensures r.Raise? ==> stacks == old(stacks) && CommandsAppended(old(trace), trace)
      ensures r.Pass? ==> (trace == old(trace)
        + BackupThenDelete(old(stacks), names.distribution, BackupInstance(old(stacks), names.distribution)))
      ensures SameOutside(old(stacks), stacks, {names.distribution})
      ensures config == old(config) && prometheusYml == old(prometheusYml)
    {
      if IsDeleted(stacks, names.distribution) {
        return Pass;
      }
      r := BackupMetadataBeforeTerminate(names.distribution);
      if r.Raise? {
        return;
      }
      DeleteStack(names.distribution);
    }

    /**
     * The four deletions of a teardown in reverse creation order, the VPC
     * stack only when everything is to be destroyed; a failed backup stops
     * the sequence.
     */
    method TerminateInOrder() returns (r: Outcome)
      requires names.Distinct()
      modifies this
      ensures r.Pass? ==> (trace == old(trace)
        + TeardownCalls(names, alwaysDestroyAll, old(stacks), BackupInstance(old(stacks), names.distribution)))
      ensures r.Pass? ==> stacks == TeardownStacks(names, alwaysDestroyAll, old(stacks), afterDelete)
      ensures r.Raise? ==>
        stacks == DeleteStep(DeleteStep(old(stacks), names.slave, afterDelete), names.master, afterDelete)
      ensures config == old(config) && prometheusYml == old(prometheusYml)
    {
      ghost var s0, t0 := stacks, trace;
      ghost var id := BackupInstance(s0, names.distribution);
      TerminateSlaveStack();
      ghost var s1, t1 := stacks, trace;
      UntouchedStack(s0, s1, {names.slave}, names.master);
      TerminateMasterStack();
      ghost var s2, t2 := stacks, trace;
      SameOutsideTrans(s0, s1, s2, {names.slave}, {names.master});
      UntouchedStack(s0, s2, {names.slave, names.master}, names.distribution);
      r := TerminateDistributionStack();
      if r.Raise? {
        return;
      }
      ghost var s3, t3 := stacks, trace;
      SameOutsideTrans(s0, s2, s3, {names.slave, names.master}, {names.distribution});
      UntouchedStack(s0, s3, {names.slave, names.master, names.distribution}, names.vpc);
      if alwaysDestroyAll {
        TerminateVpcStack();
      }
      TeardownChain(names, alwaysDestroyAll, s0, id, t0, t1, t2, t3, trace);
    }
    /** One iteration of the command loops: the `i`-th command after the first `i`. */
    method ExecNext(instance: string, commands: seq<Command>, i: nat, ghost t0: seq<Call>, ghost y0: seq<string>)
      returns (ok: bool)
      requires i < |commands|
      requires trace == t0 + Sent(instance, commands[..i]) && prometheusYml == ApplyAll(y0, commands[..i])
      modifies this
      ensures ok <==> Succeeds(ssm(instance, commands[i]))
      ensures trace == t0 + Sent(instance, commands[..i + 1])
      ensures ok ==> prometheusYml == ApplyAll(y0, commands[..i + 1])
      ensures stacks == old(stacks) && config == old(config)
    {
      PrefixStep(instance, y0, commands, i);
      var out := ExecScript(instance, commands[i]);
      ok := out.Ok?;
    }

    /** The `for command in commands` loops: stops at, and raises on, the first failing command. */
    method ExecAll(instance: string, commands: seq<Command>) returns (r: Outcome)
      modifies this
      ensures r.Pass? <==> forall i :: 0 <= i < |commands| ==> Succeeds(ssm(instance, commands[i]))
      ensures r.Pass? ==> trace == old(trace) + Sent(instance, commands)
      ensures r.Pass? ==> prometheusYml == ApplyAll(old(prometheusYml), commands)
      ensures CommandsAppended(old(trace), trace)
      ensures stacks == old(stacks) && config == old(config)
    {
      var i := 0;
      while i < |commands|
        invariant 0 <= i <= |commands|
        invariant forall j :: 0 <= j < i ==> Succeeds(ssm(instance, commands[j]))
        invariant trace == old(trace) + Sent(instance, commands[..i])
        invariant prometheusYml == ApplyAll(old(prometheusYml), commands[..i])
        invariant stacks == old(stacks) && config == old(config)
      {
        var ok := ExecNext(instance, commands, i, old(trace), old(prometheusYml));
        if !ok {
          CommandsAppendedBy(old(trace), Sent(instance, commands[..i + 1]));
          return Raise("execute script failed");
        }
        i := i + 1;
      }
      assert commands[..i] == commands;
      CommandsAppendedBy(old(trace), Sent(instance, commands));
      r := Pass;
    }

    /** Runs one command on the distribution node of `stackName`; raises when its instance is unknown. */
    method ExecOnDistributionNode(stackName: string, command: Command) returns (r: Outcome)
      requires !command.AppendJob? && !command.SedDeleteJob?
      modifies this
      ensures r.Pass? ==> var id := Resource(old(stacks), stackName, DistributionInstanceKey);
        id.Ok? && Succeeds(ssm(id.value, command)) && trace == old(trace) + [CommandSent(id.value, command)]
      ensures Resource(old(stacks), stackName, DistributionInstanceKey).Err? ==> r.Raise?
      ensures CommandsAppended(old(trace), trace)
      ensures prometheusYml == old(prometheusYml) && stacks == old(stacks) && config == old(config)
    {
      var id := Resource(stacks, stackName, DistributionInstanceKey);
      if id.Err? {
        CommandsAppendedBy(trace, []);
        return Raise(id.msg);
      }
      var out := ExecScript(id.value, command);
      CommandsAppendedBy(old(trace), [CommandSent(id.value, command)]);
      r := if out.Ok? then Pass else Raise(out.msg);
    }

    method StartPrometheusServer(stackName: string) returns (r: Outcome)
      modifies this
      ensures r.Pass? ==> var id := Resource(old(stacks), stackName, DistributionInstanceKey);
        id.Ok? && trace == old(trace) + [CommandSent(id.value, StartMetricsServer)]
      ensures CommandsAppended(old(trace), trace)
      ensures prometheusYml == old(prometheusYml) && stacks == old(stacks) && config == old(config)
    {
      r := ExecOnDistributionNode(stackName, StartMetricsServer);
    }

    method StopPrometheusServer(stackName: string) returns (r: Outcome)
      modifies this
      ensures r.Pass? ==> var id := Resource(old(stacks), stackName, DistributionInstanceKey);
        id.Ok? && trace == old(trace) + [CommandSent(id.value, StopMetricsServer)]
      ensures CommandsAppended(old(trace), trace)
      ensures prometheusYml == old(prometheusYml) && stacks == old(stacks) && config == old(config)
    {
      r := ExecOnDistributionNode(stackName, StopMetricsServer);
    }

    /** A restart is a stop followed by a start; the configuration file is left as it is. */
    method RestartPrometheusServer(stackName: string) returns (r: Outcome)
      modifies this
      ensures r.Pass? ==> var id := Resource(old(stacks), stackName, DistributionInstanceKey);
        id.Ok? && trace == old(trace) + [CommandSent(id.value, StopMetricsServer), CommandSent(id.value, StartMetricsServer)]
      ensures CommandsAppended(old(trace), trace)
      ensures prometheusYml == old(prometheusYml) && stacks == old(stacks) && config == old(config)
    {
      r := StopPrometheusServer(stackName);
      if r.Raise? {
        return;
      }
      ghost var mid := trace;
      r := StartPrometheusServer(stackName);
      CommandsAppendedTrans(old(trace), mid, trace);
    }

    /**
     * Appends the node-exporter jobs of the five base nodes and the five
     * Spark jobs to the file on the distribution node.
     */
    method RefreshPrometheusParamMap(stackName: string) returns (r: Outcome)
      modifies this
      ensures r.Pass? ==>
        && MonitoringJobs(names, old(stacks)).Ok?
        && Resource(old(stacks), stackName, DistributionInstanceKey).Ok?
        && prometheusYml == AppendJobs(old(prometheusYml), MonitoringJobs(names, old(stacks)).value)
      ensures MonitoringJobs(names, old(stacks)).Err? ==> r.Raise?
      ensures CommandsAppended(old(trace), trace)
      ensures stacks == old(stacks) && config == old(config)
    {
      var jobs := MonitoringJobs(names, stacks);
      if jobs.Err? {
        CommandsAppendedBy(trace, []);
        return Raise(jobs.msg);
      }
      var id := Resource(stacks, stackName, DistributionInstanceKey);
      if id.Err? {
        CommandsAppendedBy(trace, []);
        return Raise(id.msg);
      }
      r := ExecAll(id.value, AppendCommands(jobs.value));
      ApplyAppends(old(prometheusYml), jobs.value);
    }

    /** Only the distribution stack runs the metrics server: configure it, then start it. */
    method StartPrometheus(stackName: string) returns (r: Outcome)
      modifies this
      ensures stackName != names.distribution ==> r == Pass && trace == old(trace) && prometheusYml == old(prometheusYml)
      ensures stackName == names.distribution && r.Pass? ==>
        && MonitoringJobs(names, old(stacks)).Ok?
        && prometheusYml == AppendJobs(old(prometheusYml), MonitoringJobs(names, old(stacks)).value)
        && var id := Resource(old(stacks), stackName, DistributionInstanceKey);
           id.Ok? && |trace| > 0 && trace[|trace| - 1] == CommandSent(id.value, StartMetricsServer)
      ensures CommandsAppended(old(trace), trace)
      ensures stacks == old(stacks) && config == old(config)
    {
      if stackName != names.distribution {
        CommandsAppendedBy(trace, []);
        return Pass;
      }
      r := RefreshPrometheusParamMap(stackName);
      if r.Raise? {
        return;
      }
      ghost var mid := trace;
      r := StartPrometheusServer(stackName);
      CommandsAppendedTrans(old(trace), mid, trace);
    }

    /**
     * Greps the file for the node name of each distinct worker and collects
     * the digit runs of the names it reports absent.
     */
    method CheckPrometheusConfigAfterScaleUp(stackName: string, workers: seq<string>) returns (r: Result<seq<string>>)
      modifies this
      ensures r.Ok? ==> ScaleIpsKnown(old(stacks), workers)
      ensures r.Ok? ==> var id := Resource(old(stacks), stackName, DistributionInstanceKey);
        && id.Ok?
        && r.value == MissingWorkers(old(prometheusYml), ScaleNodeKeys(workers))
        && trace == old(trace) + Sent(id.value, GrepCommands(ScaleNodeKeys(workers)))
      ensures !ScaleIpsKnown(old(stacks), workers) ==> r.Err?
      ensures CommandsAppended(old(trace), trace)
      ensures prometheusYml == old(prometheusYml) && stacks == old(stacks) && config == old(config)
    {
      var jobs := AfterScaleJobs(stacks, workers);
      if jobs.Err? {
        CommandsAppendedBy(trace, []);
        return Err(jobs.msg);
      }
      var id := Resource(stacks, stackName, DistributionInstanceKey);
      if id.Err? {
        CommandsAppendedBy(trace, []);
        return Err(id.msg);
      }
      r := GrepMissing(id.value, ScaleNodeKeys(workers));
    }

    /** Greps the file for the node name of each distinct worker and collects the names it reports present. */
    method CheckPrometheusConfigAfterScaleDown(stackName: string, workers: seq<string>) returns (r: Result<seq<string>>)
      modifies this
      ensures r.Ok? ==> ScaleIpsKnown(old(stacks), workers)
      ensures r.Ok? ==> var id := Resource(old(stacks), stackName, DistributionInstanceKey);
        && id.Ok?
        && r.value == PresentNodes(old(prometheusYml), ScaleNodeKeys(workers))
        && trace == old(trace) + Sent(id.value, GrepCommands(ScaleNodeKeys(workers)))
      ensures !ScaleIpsKnown(old(stacks), workers) ==> r.Err?
      ensures CommandsAppended(old(trace), trace)
      ensures prometheusYml == old(prometheusYml) && stacks == old(stacks) && config == old(config)
    {
      var jobs := AfterScaleJobs(stacks, workers);
      if jobs.Err? {
        CommandsAppendedBy(trace, []);
        return Err(jobs.msg);
      }
      var id := Resource(stacks, stackName, DistributionInstanceKey);
      if id.Err? {
        CommandsAppendedBy(trace, []);
        return Err(id.msg);
      }
      r := GrepPresent(id.value, ScaleNodeKeys(workers));
    }

    /** `grep -Fq "{node}" prometheus.yml; echo $?` on the distribution node. */
    method GrepNode(instance: string, node: string) returns (r: Result<string>)
      modifies this
      ensures trace == old(trace) + [CommandSent(instance, GrepJob(node))]
      ensures r.Ok? ==> (r.value == "0\n" <==> Present(old(prometheusYml), node))
      ensures r.Ok? ==> (r.value == "1\n" <==> !Present(old(prometheusYml), node))
      ensures prometheusYml == old(prometheusYml) && stacks == old(stacks) && config == old(config)
    {
      r := ExecScript(instance, GrepJob(node));
    }

    /** The loop of the scale-up check: one grep per node, extending the result on `1`. */
    method GrepMissing(instance: string, nodes: seq<string>) returns (r: Result<seq<string>>)
      modifies this
      ensures r.Ok? ==> r.value == MissingWorkers(old(prometheusYml), nodes)
      ensures r.Ok? ==> trace == old(trace) + Sent(instance, GrepCommands(nodes))
      ensures CommandsAppended(old(trace), trace)
      ensures prometheusYml == old(prometheusYml) && stacks == old(stacks) && config == old(config)
    {
      var greps := GrepCommands(nodes);
      var missing := [];
      var i := 0;
      while i < |nodes|
        invariant 0 <= i <= |nodes|
        invariant missing == MissingWorkers(old(prometheusYml), nodes[..i])
        invariant trace == old(trace) + Sent(instance, greps[..i])
        invariant prometheusYml == old(prometheusYml) && stacks == old(stacks) && config == old(config)
      {
        var out := GrepNode(instance, nodes[i]);
        assert greps[..i + 1] == greps[..i] + [greps[i]];
        SentSnoc(instance, greps[..i], greps[i]);
        if out.Err? {
          CommandsAppendedBy(old(trace), Sent(instance, greps[..i + 1]));
          return Err(out.msg);
        }
        MissingStep(old(prometheusYml), nodes, i, out.value);
        if out.value == "1\n" {
          missing := missing + DigitRuns(nodes[i]);
        }
        i := i + 1;
      }
      assert nodes[..i] == nodes && greps[..i] == greps;
      CommandsAppendedBy(old(trace), Sent(instance, greps));
      r := Ok(missing);
    }

    /** The loop of the scale-down check: one grep per node, keeping the node on `0`. */
    method GrepPresent(instance: string, nodes: seq<string>) returns (r: Result<seq<string>>)
      modifies this
      ensures r.Ok? ==> r.value == PresentNodes(old(prometheusYml), nodes)
      ensures r.Ok? ==> trace == old(trace) + Sent(instance, GrepCommands(nodes))
      ensures CommandsAppended(old(trace), trace)
      ensures prometheusYml == old(prometheusYml) && stacks == old(stacks) && config == old(config)
    {
      var greps := GrepCommands(nodes);
      var existing := [];
      var i := 0;
      while i < |nodes|
        invariant 0 <= i <= |nodes|
        invariant existing == PresentNodes(old(prometheusYml), nodes[..i])
        invariant trace == old(trace) + Sent(instance, greps[..i])
        invariant prometheusYml == old(prometheusYml) && stacks == old(stacks) && config == old(config)
      {
        var out := GrepNode(instance, nodes[i]);
        assert greps[..i + 1] == greps[..i] + [greps[i]];
        SentSnoc(instance, greps[..i], greps[i]);
        if out.Err? {
          CommandsAppendedBy(old(trace), Sent(instance, greps[..i + 1]));
          return Err(out.msg);
        }
        PresentStep(old(prometheusYml), nodes, i, out.value);
        if out.value == "0\n" {
          existing := existing + [nodes[i]];
        }
        i := i + 1;
      }
      assert nodes[..i] == nodes && greps[..i] == greps;
      CommandsAppendedBy(old(trace), Sent(instance, greps));
      r := Ok(existing);
    }

    /** Appends a job for each of `workers` (the digits the scale-up check reported missing). */
    method RefreshPrometheusConfigAfterScaleUp(stackName: string, workers: seq<string>) returns (r: Outcome)
      modifies this
      ensures r.Pass? ==> ScaleIpsKnown(old(stacks), workers)
      ensures r.Pass? ==> (ScaleIpsKnown(old(stacks), workers) &&
        prometheusYml == AppendJobs(old(prometheusYml), ScaleJobs(old(stacks), workers)))
      ensures !ScaleIpsKnown(old(stacks), workers) ==> r.Raise?
      ensures CommandsAppended(old(trace), trace)
      ensures stacks == old(stacks) && config == old(config)
    {
      var jobs := AfterScaleJobs(stacks, workers);
      if jobs.Err? {
        CommandsAppendedBy(trace, []);
        return Raise(jobs.msg);
      }
      var id := Resource(stacks, stackName, DistributionInstanceKey);
      if id.Err? {
        CommandsAppendedBy(trace, []);
        return Raise(id.msg);
      }
      r := ExecAll(id.value, AppendCommands(jobs.value));
      ApplyAppends(old(prometheusYml), jobs.value);
    }

    /** Deletes the stanza of each node name in `existing`, one `sed` after another. */
    method RefreshPrometheusConfigAfterScaleDown(stackName: string, existing: seq<string>) returns (r: Outcome)
      modifies this
      ensures r.Pass? ==> prometheusYml == SedDeleteAll(old(prometheusYml), existing)
      ensures Resource(old(stacks), stackName, DistributionInstanceKey).Err? ==> r.Raise?
      ensures CommandsAppended(old(trace), trace)
      ensures stacks == old(stacks) && config == old(config)
    {
      var id := Resource(stacks, stackName, DistributionInstanceKey);
      if id.Err? {
        CommandsAppendedBy(trace, []);
        return Raise(id.msg);
      }
      r := ExecAll(id.value, SedCommands(existing));
      ApplySedDeletes(old(prometheusYml), existing);
    }

    /**
     * Creates the stack of one scaled worker after the master stack, with the
     * worker's index written into `WorkerNum` of the (merged, shared) scale
     * parameters.
     */
    method ScaleUpWorker(worker: int) returns (r: Outcome)
      modifies this
      ensures ValidateStack(stackMap, worker).Raise? ==>
        r.Raise? && trace == old(trace) && stacks == old(stacks) && config == old(config)
      ensures var name := ScaleStackName(IntToDecimal(worker));
        ValidateStack(stackMap, worker).Pass? && old(IsComplete(stacks, name)) ==>
        r == Pass && trace == old(trace) && stacks == old(stacks) && config == old(config)
      ensures var name := ScaleStackName(IntToDecimal(worker));
        var m := MergeResult(old(stacks), stackMap, old(config), names.master, ScaleSlaveParams);
        ValidateStack(stackMap, worker).Pass? && !old(IsComplete(stacks, name)) && m.Ok? ==>
        var params := m.value[WorkerNumKey := IntToDecimal(worker)];
        && config == old(config)[ScaleSlaveParams := params]
        && trace == old(trace) + [CreateRequest(name, params, None)]
        && stacks == old(stacks)[name := afterCreate(name)]
        && (r.Pass? <==> IsComplete(stacks, name))
      ensures var name := ScaleStackName(IntToDecimal(worker));
        ValidateStack(stackMap, worker).Pass? && !old(IsComplete(stacks, name))
        && MergeResult(old(stacks), stackMap, old(config), names.master, ScaleSlaveParams).Err? ==>
        r.Raise? && trace == old(trace) && stacks == old(stacks)
      ensures SameOutside(old(stacks), stacks, ScaleNames(stackMap, [worker]))
      ensures DeletedNames(trace) == DeletedNames(old(trace))
      ensures prometheusYml == old(prometheusYml)
    {
      r := ValidateStack(stackMap, worker);
      if r.Raise? {
        return;
      }
      var name := ScaleStackName(IntToDecimal(worker));
      if IsComplete(stacks, name) {
        return Pass;
      }
      var merged := MergeParams(names.master, ScaleSlaveParams);
      if merged.Err? {
        return Raise(merged.msg);
      }
      var params := merged.value[WorkerNumKey := IntToDecimal(worker)];
      config := config[ScaleSlaveParams := params];
      assert name in ScaleNames(stackMap, [worker]);
      SnocNames(trace, CreateRequest(name, params, None));
      r := CreateStack(name, params, None);
    }

    /**
     * Decommissions the Spark worker on a scaled node, then deletes its stack.
     */
    method ScaleDownWorker(worker: int) returns (r: Outcome)
      modifies this
      ensures ValidateStack(stackMap, worker).Raise? ==> r.Raise? && trace == old(trace) && stacks == old(stacks)
      ensures var name := ScaleStackName(IntToDecimal(worker));
        ValidateStack(stackMap, worker).Pass? && old(IsDeleted(stacks, name)) ==>
        r == Pass && trace == old(trace) && stacks == old(stacks)
      ensures var name := ScaleStackName(IntToDecimal(worker));
        ValidateStack(stackMap, worker).Pass? && !old(IsDeleted(stacks, name)) && r.Pass? ==>
        var id := Resource(old(stacks), name, ScaleInstanceKey);
        && id.Ok?
        && trace == old(trace) + [CommandSent(id.value, DecommissionWorker), DeleteRequest(name)]
        && stacks == old(stacks)[name := afterDelete(name)]
      ensures var name := ScaleStackName(IntToDecimal(worker));
        ValidateStack(stackMap, worker).Pass? && !old(IsDeleted(stacks, name)) && r.Raise? ==>
        stacks == old(stacks) && CommandsAppended(old(trace), trace)
      ensures SameOutside(old(stacks), stacks, ScaleNames(stackMap, [worker]))
      ensures CreatedNames(trace) == CreatedNames(old(trace))
      ensures config == old(config) && prometheusYml == old(prometheusYml)
    {
      r := ValidateStack(stackMap, worker);
      if r.Raise? {
        return;
      }
      var name := ScaleStackName(IntToDecimal(worker));
      if IsDeleted(stacks, name) {
        return Pass;
      }
      var id := Resource(stacks, name, ScaleInstanceKey);
      if id.Err? {
        CommandsAppendedBy(trace, []);
        return Raise(id.msg);
      }
      var out := ExecScript(id.value, DecommissionWorker);
      if out.Err? {
        CommandsAppendedBy(old(trace), [CommandSent(id.value, DecommissionWorker)]);
        CommandsKeepNames(old(trace), trace);
        return Raise(out.msg);
      }
      assert name in ScaleNames(stackMap, [worker]);
      SnocNames(old(trace), CommandSent(id.value, DecommissionWorker));
      SnocNames(trace, DeleteRequest(name));
      DeleteStack(name);
    }
  }

  /** The facade over one `AwsInstance`: cluster creation, teardown and scaling. */
  class AwsCloud {
    const cloudInstance: AwsInstance

    constructor (cloudInstance: AwsInstance)
      ensures this.cloudInstance == cloudInstance
    {
      this.cloudInstance := cloudInstance;
    }

    predicate IsClusterReady()
      reads this, cloudInstance
    {
      cloudInstance.IsEc2StackReady()
    }

    /**
     * Creates whatever of the chain is not complete, in order, starts the
     * metrics server and returns the master stack's outputs.
     */
    method AwsEc2Cluster() returns (r: Result<map<string, string>>)
      requires cloudInstance.names.Distinct()
      modifies cloudInstance
      ensures r.Ok? ==> Ready(cloudInstance.names, cloudInstance.stacks)
      ensures r.Ok? ==> r.value == cloudInstance.stacks[cloudInstance.names.master].outputs
      ensures r.Ok? ==> (CreatedNames(cloudInstance.trace) ==
        CreatedNames(old(cloudInstance.trace)) + Uncreated(cloudInstance.names, old(cloudInstance.stacks)))
      ensures r.Ok? ==> (cloudInstance.config ==
        CreationConfig(cloudInstance.names, cloudInstance.stackMap, old(cloudInstance.stacks), cloudInstance.stacks,
                       old(cloudInstance.config)))
      ensures r.Ok? ==>
        && MonitoringJobs(cloudInstance.names, cloudInstance.stacks).Ok?
        && cloudInstance.prometheusYml ==
           AppendJobs(old(cloudInstance.prometheusYml), MonitoringJobs(cloudInstance.names, cloudInstance.stacks).value)
    {
      var ci := cloudInstance;
      var names := ci.names;
      ghost var s0, t0, k0 := ci.stacks, ci.trace, ci.config;
      if !ci.IsEc2StackReady() {
        var step := ci.CreateVpcStack();
        if step.Raise? {
          return Err(step.msg);
        }
        ghost var s1, c1 := ci.stacks, CreatedNames(ci.trace);
        step := ci.CreateDistributionStack();
        if step.Raise? {
          return Err(step.msg);
        }
        ghost var s2, c2, k2 := ci.stacks, CreatedNames(ci.trace), ci.config;
        step := ci.CreateMasterStack();
        if step.Raise? {
          return Err(step.msg);
        }
        ghost var s3, c3, k3 := ci.stacks, CreatedNames(ci.trace), ci.config;
        step := ci.CreateSlaveStack();
        if step.Raise? {
          return Err(step.msg);
        }
        CreationChain(names, s0, s1, s2, s3, ci.stacks, CreatedNames(t0), c1, c2, c3, CreatedNames(ci.trace));
        CreationConfigChain(names, ci.stackMap, s0, s1, s2, s3, ci.stacks, k0, k2, k3, ci.config);
      } else {
        assert Uncreated(names, s0) == [];
      }
      ghost var t := ci.trace;
      var started := ci.StartPrometheus(names.distribution);
      if started.Raise? {
        return Err(started.msg);
      }
      CommandsKeepNames(t, ci.trace);
      r := StackOutput(ci.stacks, names.master);
      if r.Err? {
        return;
      }
    }

    /**
     * Deletes slave, master and distribution stacks (the last after its
     * metadata backup), the VPC stack only when everything is to be
     * destroyed, and then insists the cluster is terminated.
     */
    method TerminateEc2Cluster() returns (r: Outcome)
      requires cloudInstance.names.Distinct()
      modifies cloudInstance
      ensures old(cloudInstance.IsEc2StackTerminated()) ==> r == Pass && cloudInstance.trace == old(cloudInstance.trace)
      ensures r.Pass? ==> cloudInstance.IsEc2StackTerminated()
      ensures r.Pass? ==> (cloudInstance.stacks ==
        TeardownStacks(cloudInstance.names, cloudInstance.alwaysDestroyAll, old(cloudInstance.stacks), cloudInstance.afterDelete))
      ensures r.Pass? ==> (cloudInstance.trace == old(cloudInstance.trace)
        + TeardownCalls(cloudInstance.names, cloudInstance.alwaysDestroyAll, old(cloudInstance.stacks),
                        BackupInstance(old(cloudInstance.stacks), cloudInstance.names.distribution)))
      ensures cloudInstance.config == old(cloudInstance.config)
      ensures cloudInstance.prometheusYml == old(cloudInstance.prometheusYml)
    {
      var ci := cloudInstance;
      if ci.IsEc2StackTerminated() {
        assert TeardownCalls(ci.names, ci.alwaysDestroyAll, ci.stacks, BackupInstance(ci.stacks, ci.names.distribution)) == [];
        return Pass;
      }
      r := ci.TerminateInOrder();
      if r.Raise? {
        return;
      }
      if !ci.IsEc2StackTerminated() {
        return Raise("AssertionError: the cluster is not terminated");
      }
    }

    /**
     * Scales each index in turn in the given direction once the direction is
     * known; the outcome of each index is not inspected. Only the stacks of
     * indices that validate are touched, scale-up never deletes and
     * scale-down never creates.
     */
    method ScaleUpDown(workers: seq<int>, scaleType: string) returns (r: Outcome)
      modifies cloudInstance
      ensures r.Pass? <==> ValidateScale(scaleType).Pass?
      ensures r.Raise? ==> cloudInstance.stacks == old(cloudInstance.stacks) && cloudInstance.trace == old(cloudInstance.trace)
      ensures SameOutside(old(cloudInstance.stacks), cloudInstance.stacks, ScaleNames(cloudInstance.stackMap, workers))
      ensures DeletedNames(cloudInstance.trace) == DeletedNames(old(cloudInstance.trace)) || scaleType != "up"
      ensures CreatedNames(cloudInstance.trace) == CreatedNames(old(cloudInstance.trace)) || scaleType != "down"
      ensures scaleType == "down" ==> cloudInstance.config == old(cloudInstance.config)
      ensures cloudInstance.prometheusYml == old(cloudInstance.prometheusYml)
    {
      var ci := cloudInstance;
      r := ValidateScale(scaleType);
      if r.Raise? {
        return;
      }
      ghost var s0 := ci.stacks;
      for i := 0 to |workers|
        invariant SameOutside(s0, ci.stacks, ScaleNames(ci.stackMap, workers[..i]))
        invariant scaleType == "up" ==> DeletedNames(ci.trace) == DeletedNames(old(ci.trace))
        invariant scaleType == "down" ==> CreatedNames(ci.trace) == CreatedNames(old(ci.trace))
        invariant scaleType == "down" ==> ci.config == old(ci.config)
        invariant ci.prometheusYml == old(ci.prometheusYml)
      {
        ghost var before := ci.stacks;
        ScaleOne(workers[i], scaleType == "up");
        SameOutsideTrans(s0, before, ci.stacks, ScaleNames(ci.stackMap, workers[..i]), ScaleNames(ci.stackMap, [workers[i]]));
        assert workers[..i + 1] == workers[..i] + [workers[i]];
        ScaleNamesSnoc(ci.stackMap, workers[..i], workers[i]);
      }
      assert workers[..|workers|] == workers;
    }

    /** One index of the scale fan-out; its outcome is dropped, as the pool's results are never read. */
    method ScaleOne(worker: int, up: bool)
      modifies cloudInstance
      ensures SameOutside(old(cloudInstance.stacks), cloudInstance.stacks, ScaleNames(cloudInstance.stackMap, [worker]))
      ensures up ==> DeletedNames(cloudInstance.trace) == DeletedNames(old(cloudInstance.trace))
      ensures !up ==> CreatedNames(cloudInstance.trace) == CreatedNames(old(cloudInstance.trace))
      ensures !up ==> cloudInstance.config == old(cloudInstance.config)
      ensures cloudInstance.prometheusYml == old(cloudInstance.prometheusYml)
    {
      var outcome;
      if up {
        outcome := cloudInstance.ScaleUpWorker(worker);
      } else {
        outcome := cloudInstance.ScaleDownWorker(worker);
      }
    }

    /**
     * Reconciles the metrics configuration with the scaled workers and
     * restarts the server: after a scale-up the jobs of the workers whose
     * node name is absent are appended, after a scale-down the stanzas of
     * those whose node name is present are deleted.
     */
    method AfterScale(workers: seq<int>, scaleType: string) returns (r: Outcome)
      modifies cloudInstance
      ensures r.Pass? ==> ScaleIpsKnown(old(cloudInstance.stacks), Formatted(workers))
      ensures r.Pass? && scaleType == "up" ==>
        var missing := MissingWorkers(old(cloudInstance.prometheusYml), ScaleNodeKeys(Formatted(workers)));
        && ScaleIpsKnown(old(cloudInstance.stacks), missing)
        && cloudInstance.prometheusYml ==
          ScaleUpFile(old(cloudInstance.stacks), old(cloudInstance.prometheusYml), Formatted(workers))
      ensures r.Pass? && scaleType != "up" ==>
        cloudInstance.prometheusYml == ScaleDownFile(old(cloudInstance.prometheusYml), Formatted(workers))
      ensures r.Pass? ==>
        var id := Resource(old(cloudInstance.stacks), cloudInstance.names.distribution, DistributionInstanceKey);
        && id.Ok? && |cloudInstance.trace| >= 2
        && cloudInstance.trace[|cloudInstance.trace| - 2..] ==
          [CommandSent(id.value, StopMetricsServer), CommandSent(id.value, StartMetricsServer)]
      ensures !ScaleIpsKnown(old(cloudInstance.stacks), Formatted(workers)) ==> r.Raise?
      ensures CommandsAppended(old(cloudInstance.trace), cloudInstance.trace)
      ensures cloudInstance.stacks == old(cloudInstance.stacks) && cloudInstance.config == old(cloudInstance.config)
    {
      var ci := cloudInstance;
      var dist := ci.names.distribution;
      var ws := Formatted(workers);
      if scaleType == "up" {
        var expected := ci.CheckPrometheusConfigAfterScaleUp(dist, ws);
        if expected.Err? {
          return Raise(expected.msg);
        }
        if |expected.value| > 0 {
          ghost var mid := ci.trace;
          r := ci.RefreshPrometheusConfigAfterScaleUp(dist, expected.value);
          CommandsAppendedTrans(old(ci.trace), mid, ci.trace);
          if r.Raise? {
            return;
          }
        }
      } else {
        var existing := ci.CheckPrometheusConfigAfterScaleDown(dist, ws);
        if existing.Err? {
          return Raise(existing.msg);
        }
        if |existing.value| > 0 {
          ghost var mid := ci.trace;
          r := ci.RefreshPrometheusConfigAfterScaleDown(dist, existing.value);
          CommandsAppendedTrans(old(ci.trace), mid, ci.trace);
          if r.Raise? {
            return;
          }
        }
      }
      ghost var before := ci.trace;
      r := ci.RestartPrometheusServer(dist);
      CommandsAppendedTrans(old(ci.trace), before, ci.trace);
    }
  }
}
