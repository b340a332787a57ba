# kylin-tpch deployment orchestrator: a Dafny model of its core

The deployment tool puts a Kylin 4 cluster on AWS and later removes it. A
cluster is a chain of four CloudFormation stacks: VPC → distribution →
master → slave. Each stack's empty input parameters are filled from its
predecessor's outputs, using static output→input tables. Teardown runs in
reverse order and backs up the metadata databases just before the
distribution stack is deleted. The VPC stack is deleted only when
`ALWAYS_DESTROY_ALL` is set. Spark workers scale up and down one stack per
index (`ec2-slave-{n}`). Each scale is followed by a reconciliation of the
Prometheus configuration on the distribution node, done with remote
`grep`/`echo`/`sed` commands, and then a restart of the server. The engine
turns the `SCALE_NODES` setting into an inclusive list of worker indices.
Its helpers list the packages, jars and scripts to upload and fix the order
of the facade calls for each scale direction.

The model treats the provider as abstract state plus oracles:

- The stacks are a map from stack name to status and outputs.
- The Prometheus configuration file is a sequence of lines.
- The calls made to the provider are recorded in order.
- Fixed functions supply the stack state after each create or delete waiter,
  the status stream that each remote command's polls would observe within
  its time budget, and whether an instance is stopped.

Files:

| File | Contents |
|---|---|
| `outcomes.dfy` | Option, Result, and the Pass/Raise outcome. |
| `pytext.dfy` | `str(int)`, substring containment, `re.findall(r'\d+', …)`. |
| `tables.dfy` | The `utils.py` tables and their relations. |
| `prometheus.dfy` | Job stanzas and the `grep -Fq`, `echo >>` and `sed "/n/,+2d"` edits. |
| `remote_command.dfy` | The polling loop of a remote command, and what each command prints and changes. |
| `stacks.dfy` | Stack states, the readiness and termination predicates, the parameter merge, and the call record. |
| `aws.dfy` | `AWSInstance` and the `AWS` facade as classes over that state. |
| `engine.dfy` | Scale-range validation and generation. |
| `engine_utils.dfy` | Manifests, the readiness check, scale call ordering, and the Kylin address. |

## Model

| member | source | states |
|---|---|---|
| Tables.StackToMapKeys | utils.py:79-87 | The stack table has exactly six keys: the VPC, distribution and master stack names and the zero-padded slots `ec2-slave-04`..`06`. |
| Tables.ScaleSlotsShareTable | utils.py:62-86 | All three scale slots map to the scale table, and that table equals `slave_from_master`, the master stack's entry. |
| Tables.MasterSlaveTablesInverse | utils.py:29-41 | `master_to_slave` and `slave_from_master` are mutual inverses. |
| Tables.DistributionMasterTables | utils.py:14-27 | `master_from_ec2_distribution` inverts `ec2_distribution_to_master` and adds `Ec2DbHost`. That key reads the same output as `Ec2ZookeeperkHost`, so the table is not injective. |
| Tables.VpcTablesDisagree | utils.py:5-12 | The VPC tables are not inverses: the distribution stack reads `SecurityGroupId`, while the output-first table names `SecurityGroupID`. |
| PyText.NatToDecimal | aws.py:595 | `str(n)` of a natural number: non-empty decimal digits, with a leading zero only for 0. Its value is given by PyText.DecimalRoundTrip. |
| PyText.IntToDecimal | aws.py:595 | `str(n)` of any integer: a leading zero only for `"0"`, digits only for `n >= 0`, and a sign for negative `n`. Its value is given by PyText.IntRoundTrip. |
| PyText.DecimalRoundTrip | aws.py:595 | Reading the digits of `str(n)` back as a decimal number gives `n`. |
| PyText.NatToDecimalInjective | aws.py:595 | Distinct indices give distinct strings, so distinct workers give distinct stack names. |
| PyText.IntRoundTrip | aws.py:595 | `str(n)` of any integer denotes `n`: its digits for `n >= 0`, and `-` followed by the digits of `-n` otherwise. |
| PyText.DigitRuns | aws.py:297 | `re.findall(r'\d+', s)`: every run it returns is a non-empty string of digits. Which runs are returned is fixed by the three lemmas below. |
| PyText.DigitRunsIsolate | aws.py:297 | A single digit run between two digit-free pieces is found whole and alone. |
| PyText.DigitRunsWhole | aws.py:297 | A string made only of digits is a single run. |
| PyText.DigitRunsNone | aws.py:297 | A string without digits has no run. |
| PyText.DigitRunsSplit | aws.py:297 | With a non-digit between two pieces, the runs are those of the first piece followed by those of the second. With the two lemmas above this fixes the runs of every string: the maximal ones, all of them, left to right. |
| Prometheus.JobLines | aws.py:23-29 | A job stanza is 3 lines, or 4 with a metrics path. It opens with the `job_name` line and ends with `static_configs` and the targets line. |
| Prometheus.NodeExporterJob | aws.py:23 | A scaled worker's node-exporter job is named after the node, has no metrics path, targets `host:9100`, and is a 3-line stanza. |
| Prometheus.SedDelete | aws.py:324 | After `sed -i "/node/,+2d"` no line names the node, and every remaining line comes from the original file. |
| Prometheus.AppendJobs | aws.py:23 | Appending stanzas keeps the original file as a prefix. |
| Prometheus.SedDeleteAll | aws.py:323-330 | The deletions applied in turn only keep lines of the original file. |
| Prometheus.Dedup | aws.py:279-283 | The keys of a dict built with `zip`: the same elements, each once. |
| Prometheus.DedupFirstOccurrenceOrder | aws.py:279-283 | The dict's keys come in the order of each name's first occurrence, which is the order of the greps and of the appended stanzas. |
| Prometheus.PresentNodes | aws.py:300-313 | The scale-down check keeps exactly the listed nodes whose grep reports them present. |
| Prometheus.SedDeleteNoMatch | aws.py:323-330 | A `sed` deletion of a node that no line names leaves the file unchanged. |
| Prometheus.UpThenDownRestores | aws.py:315-330 | Appending a worker's 3-line stanza and then deleting its node with `sed` restores the file exactly, provided the node was absent. |
| Prometheus.AppendedJobsPresent | aws.py:315-321 | After the stanzas are appended, every appended job's name is found by grep. |
| Prometheus.NothingMissing | aws.py:285-298 | When every node is present, the scale-up check reports nothing missing. |
| Prometheus.SedDeleteAllClears | aws.py:323-330 | After the deletions, none of the deleted node names occurs in the file. |
| Prometheus.NothingPresent | aws.py:300-313 | When no node is present, the scale-down check reports nothing. |
| RemoteCommand.FirstTerminal | aws.py:480-486 | The first poll whose status is one of Delayed, Success, Cancelled, TimedOut or Failed; no earlier poll is terminal. |
| RemoteCommand.AwaitInvocation | aws.py:471-490 | The polling loop stops at the first terminal status or when the budget runs out. It succeeds exactly when the last status seen is Success, that is, when the first terminal status is Success. |
| RemoteCommand.NoTerminalBefore | aws.py:480-486 | With no terminal status before poll `k`, the loop cannot stop before `k`. |
| RemoteCommand.EchoThenSedRestores | aws.py:315-330 | Running the echo command of a worker's stanza for a node the file does not name, then the sed command for that node, gives back the file. |
| RemoteCommand.GrepSeesEdits | aws.py:285-330 | After the echo command of a stanza, the grep of its job name prints `0\n`. After the sed command of a node, the grep of that node prints `1\n`. |
| Stacks.CompleteIsNotDeleted | aws.py:614-653 | No stack satisfies both the create-complete waiter and the delete-complete waiter. |
| Stacks.StackOutput | aws.py:364-387 | Outputs are returned exactly when the stack is complete, and they are that stack's `OutputKey`→`OutputValue` map; otherwise the call raises. |
| Stacks.Resource | aws.py:360-362 | One output succeeds exactly when the stack is complete and has that key, and the value is the output. |
| Stacks.ReadyVersusTerminated | aws.py:433-453 | A ready cluster is never terminated. When the VPC stack is kept, its state does not affect termination. |
| Stacks.MergeFillsOnlyEmpty | aws.py:655-668 | A successful merge keeps the key set. It leaves truthy values and `WorkerNum` unchanged and sets every other key to the predecessor's output named by the table. |
| Stacks.MergeRaisesOnMissingKey | aws.py:655-668 | The merge raises exactly when a key to be filled has no table entry, or its table entry names no output. |
| Stacks.MergeIdempotent | aws.py:655-668 | Merging the written-back section again returns the same section. |
| Aws.ValidateStack | aws.py:594-599 | Passes exactly when `ec2-slave-{n}` is a key of the stack table. |
| Aws.DefaultTableRejectsEveryIndex | aws.py:594-599 | Against the default table, which has zero-padded slots, no index validates. |
| Aws.DefaultTableScalesNothing | aws.py:594-599 | Against the default table, no scale operation can touch any stack. |
| Aws.NodeNames | aws.py:281 | Each worker `n` gets the node name `slave{n}-node`, in order. |
| Aws.ScaleJobs | aws.py:279-283 | One 3-line job per distinct worker's node name, in first-occurrence order. |
| Aws.AfterScaleJobs | aws.py:279-283 | The map of node names to IPs is built exactly when every worker's stack reports its private IP; otherwise the lookup raises. |
| Aws.NodeNameInjective | aws.py:281 | Distinct workers get distinct node names. |
| Aws.ScaleNodeKeysAreDictKeys | aws.py:279-283 | The dict's keys are the deduplicated node names, which are the node names of the deduplicated workers. |
| Aws.MonitoringJobs | aws.py:236-277 | The base jobs exist exactly when all five base IPs can be read. They are five 3-line node-exporter jobs followed by five 4-line Spark jobs. |
| Aws.SparkJobs | aws.py:256-265 | Five Spark metric jobs, each with a metrics path. |
| Aws.ApplyAppends | aws.py:315-321 | Running the echo commands of the jobs appends their stanzas. |
| Aws.ApplySedDeletes | aws.py:323-330 | Running the sed commands of the nodes performs the deletions in order. |
| Aws.NodeNameDigits | aws.py:281-297 | For a non-negative index, the digits extracted from `slave{n}-node` are exactly `[n]`. |
| Aws.MissingWorkerAppended | aws.py:285-321 | For a non-negative index, a worker whose node name was absent is reported missing, so its job is appended. |
| Aws.ScaleUpCovers | aws.py:737-747 | After the scale-up reconciliation, every scaled worker with a non-negative index has a job in the file. |
| Aws.ScaleUpIdempotent | aws.py:737-747 | For non-negative indices, a second scale-up reconciliation finds nothing missing. |
| Aws.NegativeNodeNameDigits | aws.py:281-297 | For a negative index `n`, the digits extracted from `slave{n}-node` are those of `-n`, not `n`: the sign is dropped. |
| Aws.ScaleDownClears | aws.py:748-757 | After the scale-down reconciliation, no scaled worker's node name is left, so a second one deletes nothing. |
| Aws.ValidateScale | aws.py:760-765 | Passes exactly for `up` and `down`. |
| Aws.Formatted | aws.py:281 | Each index is formatted as `str(n)`, in order. |
| Aws.Uncreated | aws.py:433-441 | The stacks of the chain that are not complete. The list is empty exactly when the cluster is ready. |
| Aws.CreationChain | aws.py:680-685 | Four creations in chain order, each touching only its own stack and leaving it complete, make the cluster ready. They submit exactly the stacks that were not complete, in order. |
| Aws.CreationConfigSections | aws.py:655-668 | What creation writes back into the configuration. No section is added or dropped, and every section other than the three parameter sections is kept. Each stack that had to be created has its section replaced by the merge of the configured section with its predecessor's outputs. |
| Aws.CreationConfigChain | aws.py:70-154 | The three creations, one after the other, leave the configuration described by CreationConfigSections. |
| Aws.TeardownChain | aws.py:696-700 | The four teardown steps in turn issue exactly the teardown calls. |
| Aws.TeardownTerminates | aws.py:692-703 | A teardown run to the end changes only the slave, master and distribution stacks, and the VPC stack only when everything is to be destroyed. When every delete waiter reports its stack gone, the cluster is terminated. |
| Aws.TeardownOrder | aws.py:692-701 | Teardown never creates. It deletes slave, master, distribution, then the VPC stack only when everything is to be destroyed, skipping stacks already deleted. |
| Aws.TeardownKeepsVpc | aws.py:699-701 | Unless everything is to be destroyed, the VPC stack is not deleted. |
| Aws.BackupPrecedesDistributionDelete | aws.py:93-101 | The distribution stack's delete request comes right after the dump and the copy to S3, both on its instance. |
| Aws.CommandsKeepNames | aws.py:471-490 | Remote commands neither create nor delete stacks. |
| Aws.AwsInstance.constructor | aws.py:33-40 | The configuration, the stack table and the provider start as given, with no calls made. |
| Aws.AwsInstance.CreateStack | aws.py:188-205 | Records the create request and moves the stack to its post-waiter state. Passes exactly when the stack is then complete. |
| Aws.AwsInstance.DeleteStack | aws.py:207-209 | Records the delete request and moves the stack to its post-waiter state. |
| Aws.AwsInstance.ExecScript | aws.py:471-490 | Records the command. Succeeds exactly when its polls succeed, and then returns the command's output and applies its edit; otherwise the file is untouched. |
| Aws.AwsInstance.MergeParams | aws.py:655-668 | Succeeds exactly when the pure merge does, with the same section, which is written back into the configuration. Other sections and every section's keys are kept. |
| Aws.AwsInstance.CreateAfter | aws.py:70-91 | Shared create guard. If the stack is already complete: nothing happens. If the predecessor is not complete: raises with nothing changed. If the merge fails: raises with no request. Otherwise: writes the merged section back and creates the stack with it. |
| Aws.AwsInstance.CreateVpcStack | aws.py:51-60 | Does nothing when the VPC stack is complete; otherwise submits it with no parameters and passes exactly when it is then complete. |
| Aws.AwsInstance.CreateDistributionStack | aws.py:70-91 | The create guard after the VPC stack, with the distribution parameters and the named-IAM capability. |
| Aws.AwsInstance.CreateMasterStack | aws.py:104-124 | The create guard after the distribution stack, with the master parameters. |
| Aws.AwsInstance.CreateSlaveStack | aws.py:134-154 | The create guard after the master stack, with the slave parameters. |
| Aws.AwsInstance.TerminatePlain | aws.py:62-68 | Does nothing when the stack is deleted; otherwise issues one delete request and touches no other stack. |
| Aws.AwsInstance.TerminateVpcStack | aws.py:62-68 | As TerminatePlain, for the VPC stack. |
| Aws.AwsInstance.TerminateMasterStack | aws.py:126-132 | As TerminatePlain, for the master stack. |
| Aws.AwsInstance.TerminateSlaveStack | aws.py:156-162 | As TerminatePlain, for the slave stack. |
| Aws.AwsInstance.BackupMetadataBeforeTerminate | aws.py:164-186 | Backs up only the distribution stack: a dump and then a copy on its running instance. Raises when the instance cannot be read or a command fails. |
| Aws.AwsInstance.TerminateDistributionStack | aws.py:93-101 | Does nothing when the stack is deleted. Otherwise the backup precedes the delete request; a failed backup raises with the stacks unchanged. |
| Aws.AwsInstance.TerminateInOrder | aws.py:696-700 | When it completes, the calls are exactly the teardown calls on the initial state, with the backup on the distribution instance. The stacks are then each deleted stack's post-waiter state (`TeardownStacks`). When the backup raises, only slave and master have been deleted. |
| Aws.AwsInstance.ExecAll | aws.py:241-247 | Passes exactly when every command succeeds; then all were sent in order and all edits applied. It stops at the first failure and only ever sends commands. |
| Aws.AwsInstance.ExecOnDistributionNode | aws.py:218-223 | Runs one command on the distribution instance; raises when that instance cannot be read. |
| Aws.AwsInstance.StartPrometheusServer | aws.py:218-223 | On success, exactly one start command was sent to the distribution instance. |
| Aws.AwsInstance.StopPrometheusServer | aws.py:225-230 | On success, exactly one stop command was sent to the distribution instance. |
| Aws.AwsInstance.RestartPrometheusServer | aws.py:232-234 | On success, stop then start, and the configuration file is left as it was. |
| Aws.AwsInstance.RefreshPrometheusParamMap | aws.py:236-247 | On success, the ten base and Spark stanzas are appended to the file; raises when a base IP is unknown. |
| Aws.AwsInstance.StartPrometheus | aws.py:211-216 | Nothing happens for any stack but the distribution stack. For that stack it configures the jobs and then starts the server last. |
| Aws.AwsInstance.CheckPrometheusConfigAfterScaleUp | aws.py:285-298 | On success, returns the digits of the distinct node names that are absent, after one grep per name; raises when a worker's IP is unknown. |
| Aws.AwsInstance.CheckPrometheusConfigAfterScaleDown | aws.py:300-313 | On success, returns the distinct node names that are present, after one grep per name; raises when a worker's IP is unknown. |
| Aws.AwsInstance.GrepNode | aws.py:287-291 | The grep's output is `0\n` exactly when the node is present and `1\n` exactly when it is absent; the file is unchanged. |
| Aws.AwsInstance.GrepMissing | aws.py:292-298 | The loop's result is the digits of the absent names, in order, with one grep sent per name. |
| Aws.AwsInstance.GrepPresent | aws.py:307-313 | The loop's result is the present names, in order, with one grep sent per name. |
| Aws.AwsInstance.RefreshPrometheusConfigAfterScaleUp | aws.py:315-321 | On success, one job per worker is appended; raises when a worker's IP is unknown. |
| Aws.AwsInstance.RefreshPrometheusConfigAfterScaleDown | aws.py:323-330 | On success, each listed node's stanza is deleted in turn. |
| Aws.AwsInstance.ScaleUpWorker | aws.py:543-568 | Validation comes first. The call does nothing when the stack is complete. Otherwise it merges the scale parameters, sets `WorkerNum` to `str(n)`, and creates only that worker's stack. It never deletes. |
| Aws.AwsInstance.ScaleDownWorker | aws.py:570-592 | Validation comes first. The call does nothing when the stack is deleted. Otherwise the worker is decommissioned before its delete request, and only that stack changes. It never creates. |
| Aws.AwsCloud.constructor | aws.py:673-675 | The facade wraps the given instance. |
| Aws.AwsCloud.AwsEc2Cluster | aws.py:680-690 | On success the cluster is ready, and exactly the stacks that were not complete were submitted, in chain order. The parameter sections of the stacks it created hold their merges (`CreationConfig`). The ten monitoring stanzas are appended to the file even when the cluster was already ready, so each redeploy adds them again. The result is the master stack's outputs. |
| Aws.AwsCloud.TerminateEc2Cluster | aws.py:692-703 | Does nothing on a terminated cluster. On success the cluster is terminated, the calls are exactly the ordered teardown, and each stack not yet deleted is in its post-delete state (`TeardownStacks`), with the VPC stack only when everything is to be destroyed. |
| Aws.AwsCloud.ScaleUpDown | aws.py:726-735 | Passes exactly for a known direction; an unknown one changes nothing. Only validated workers' stacks change; scale-up never deletes and scale-down never creates. |
| Aws.AwsCloud.ScaleOne | aws.py:733-735 | One index in one direction touches only that index's stack, and only in that direction. |
| Aws.AwsCloud.AfterScale | aws.py:737-758 | Scale-up appends the missing workers' jobs; scale-down deletes the present ones' stanzas. Unknown IPs raise. On success the last two calls are stop then start. |
| Engine.ValidateScale | engine.py:43-57 | Passes exactly for a 2-tuple with `lo <= hi`. The empty, not-a-tuple and invalid cases each raise with their own message. |
| Engine.Range | engine.py:62 | `range(lo, hi)` has `hi - lo` elements (none when `hi <= lo`), and element `i` is `lo + i`. |
| Engine.EqualBoundsIsRange | engine.py:59-62 | The `lo == hi` special case equals the general range. |
| Engine.GenerateNodesInclusive | engine.py:59-62 | For `lo <= hi` the nodes are `lo..hi` inclusive: `hi - lo + 1` of them, strictly increasing, within bounds, and all indices between the bounds are present. |
| Engine.ScaleWorkers | engine.py:37-41 | Produces a worker list exactly when validation passes. The list is the inclusive range, handed on with the direction. |
| EngineUtils.NeededTars | engine_utils.py:24-38 | Eight packages in the fixed order jdk, kylin, hive, hadoop, node_exporter, prometheus, spark, zookeeper. |
| EngineUtils.KylinPackageFollowsFlag | engine_utils.py:26-28 | The soft-affinity Kylin build is chosen exactly when the flag is `'true'`; the other seven packages do not depend on it. |
| EngineUtils.NeededJars | engine_utils.py:40-52 | Four jars when soft affinity is `'true'` and two otherwise, which is the count checked after download (engine_utils.py:155-160). The first two are always commons-configuration and then mysql-connector. |
| EngineUtils.NeededScripts | engine_utils.py:54-61 | Five distinct preparation scripts, all with the `prepare-ec2-env-for-` prefix. |
| EngineUtils.ReadyCheckIgnoresCluster | engine_utils.py:122-125 | As written, the ready check fails without a configured address even when the cluster is ready. |
| EngineUtils.ReadyCheckCorrected | engine_utils.py:122-125 | The intended check agrees with the written one when an address is configured, and otherwise follows the facade's answer. |
| EngineUtils.ScalePlan | engine_utils.py:79-87 | Scale-up is scale then reconcile; scale-down is reconcile then remove; the restart comes last. |
| EngineUtils.KylinPreparation | engine_utils.py:95-98 | Properties are initialised and uploaded only for the Kylin node type. |
| EngineUtils.EngineHelpers.constructor | engine_utils.py:16-18 | The helpers start over the given settings and facade, with no calls made. |
| EngineUtils.EngineHelpers.InvokeAll | engine_utils.py:79-87 | Passes exactly when no call raises, and then makes all calls in order. Otherwise it stops right after the first call that raises. |
| EngineUtils.EngineHelpers.ScaleNodes | engine_utils.py:74-87 | No facade call unless the cluster is ready and the direction is known; then the direction's plan runs, with the restart last. Readiness is the called check `IsClusterReady` (see Findings), not the as-written `ReadyCheckAsWritten`. |
| EngineUtils.EngineHelpers.ScaleNodesInCluster | engine_utils.py:89-107 | No facade call unless the target cluster is ready and the direction is known; then the Kylin preparation (Kylin only) runs, followed by the direction's plan. |
| EngineUtils.EngineHelpers.KylinAddress | engine_utils.py:133-138 | Returns the configured address when set, and the facade is then not asked. Otherwise it asks the facade, which may raise. An empty result raises. |

## Left out

- CloudFormation, SSM and EC2 calls (boto3) are not modelled as services. Fixed functions stand in for them: the stack state after a create or delete waiter, the statuses the polls of a command observe, and whether an instance is stopped.
- `time.sleep`, wall-clock timeouts, and waiter delays and attempt counts are not modelled. A command's time budget is the length of its status stream. The three-minute wait after a decommission has no counterpart.
- The `ThreadPoolExecutor` in `scale_up_down` is modelled as a sequential loop, one index after the other, whose per-index results are dropped, as the pool's are. Interleavings are not modelled.
- Aws.AwsCloud.ScaleUpDown: states only which stacks may change, which kind of request each direction may issue, and that the file is untouched. It says nothing of each index's outcome, which the source never reads.
- Aws.AwsCloud.ScaleOne: the same weaker contract as ScaleUpDown, for one index.
- Aws.AwsInstance.TerminateInOrder: says nothing about the calls when the distribution backup raises part-way.
- EngineUtils.EngineHelpers.ScaleNodes: gates on the corrected readiness check, so with no configured address and a ready cluster it goes on to the plan. Under the reading in "## Findings" the source raises on that input instead.
- Aws.AwsCloud.AwsEc2Cluster: on success, states the stack state, the stack names submitted, the configuration, the file and the result, but not the full call sequence. On failure it states nothing.
- Aws.AwsInstance.MergeParams: on a missing table entry or output, states only that the key sets and the other sections are kept. The partly filled section is not described.
- Aws.AwsInstance.RefreshPrometheusParamMap, Aws.AwsInstance.RefreshPrometheusConfigAfterScaleUp, Aws.AwsInstance.RefreshPrometheusConfigAfterScaleDown: state the file after success and that only commands were sent, but not the exact commands.
- Shell semantics beyond line edits are not modelled. The dump, the copy to S3, `lsof`/`kill` and `nohup` are modelled only as recorded commands that succeed or fail. `grep -F` is a substring test per line. `sed "/n/,+2d"` deletes the matching line and the two after it, and lines inside a range are not tested again.
- The text of the dump command (its timestamp and credentials) and of the stop/start commands is not modelled.
- `expand_stack` and `scaled_stacks` are not part of this model, so the stack table is a parameter of `AwsInstance`. The default `stack_to_map` is studied on its own in `Tables`.
- The `Tar` package templates are not part of this model; they are parameters (`TarTemplates`).
- The `clouds.aws` facade used by engine_utils.py is not part of this model. Its `scale_up`, `after_scale_up`, `after_scale_down`, `scale_down`, `restart_prometheus_server`, `init_kylin_properties`, `upload_kylin_properties` and `get_kylin_address` are recorded calls whose failure is a parameter. Its readiness answers are parameters. `validate_scale_type` is taken to be `validate_scale` of aws.py.
- `ALWAYS_DESTROY_ALL` is modelled as a boolean. The `is True` test in teardown and the truthiness test in `is_ec2_stack_terminated` agree only on booleans.
- Configuration keys are assumed to exist where the source indexes them directly. These are the stack names, the version keys and `ENABLE_SOFT_AFFINITY`. The parameter sections and stack-table entries that the merge reads are modelled with their `KeyError`.
- The four stack names are assumed distinct. Teardown and creation require it, because CloudFormation names identify the stacks.
- Parameter values are strings, and the empty string is the only falsy one. The source's `if v or k == 'WorkerNum'` (aws.py:663) also fills keys whose YAML value is `None`, `0` or `False`; `KeepsDeclared` and `CanFill` do not model those values.
- `Engine.Literal` allows only integer tuple items. A tuple of floats such as `(4.0, 6.0)` passes `_validate_scale` and then raises `TypeError` in `range` (engine.py:62); that path is not modelled.
- The `ssm` oracle of `AwsInstance` is keyed only by instance and command, so a repeated identical command sees the same status stream each time.
- The `afterCreate` oracle ignores the submitted parameters: the state after the create waiter depends only on the stack name.
- Aws.NodeNameDigits, Aws.MissingWorkerAppended, Aws.ScaleUpCovers, Aws.ScaleUpIdempotent: hold for non-negative indices only. `_validate_scale` (engine.py:54) accepts negative bounds such as `(-3, -2)`. The node name `slave-3-node` (aws.py:281) then yields the digits `3` at aws.py:297, so worker -3 is reconciled under worker number 3 (`Aws.NegativeNodeNameDigits`). The model follows the source there and states no reconciliation property for negative indices.
- `re.findall(r'\d+', …)` is modelled with ASCII digits only. Python's `\d` on `str` also matches other Unicode decimal digits, which node names built from `str(int)` never contain.
- Error messages are kept only where they tell the cases apart (engine.py). Elsewhere a raise is only a raise.
- `read_template`, the YAML loading, `alive_workers`, `scale_cluster`, the launch and destroy wrappers, downloads and uploads, `aws_cloud`, `is_aws_cloud_ready` and `destroy_aws_cloud` are not modelled. They are I/O, logging or one-line delegations.
- The hand-off from `scale_workers` to `scale_aws_worker` is modelled as the `ScaleRequest` value it passes on; aws_utils.py is not part of this model.

## Findings

| source | as written | input that shows it | evidently intended | confidence | as-written member | corrected member |
|---|---|---|---|---|---|---|
| engine_utils.py:122-125 | Without `CLOUD_ADDR`, `is_cluster_ready` returns the facade's `is_cluster_ready` method without calling it. The `is True` check in `scale_nodes` (engine_utils.py:76) then fails, so scaling is refused whenever no address is configured. | `CLOUD_ADDR` empty and all four stacks complete: the check fails. | Call the method, so the result is the facade's readiness answer. | low, not executed: the facade in `clouds.aws` (engine_utils.py:4) is not part of this model, and is not the `AWS` class of aws.py. The finding holds only if its `is_cluster_ready` is a plain method, as the one at aws.py:677-678 is. Against it: the same file reads `self.aws.is_prepared_for_scale_cluster` uncalled at engine_utils.py:131, and declares its own `cloud_address` as a property (engine_utils.py:20-22). Both suggest the facade exposes these checks as properties, in which case line 125 is correct. | EngineUtils.ReadyCheckIgnoresCluster | EngineUtils.ReadyCheckCorrected |
