/**
 * Remote command execution: a shell script is sent to one instance and the
 * invocation's status is polled until it reaches a terminal status or the
 * time budget runs out. The provider is an oracle: the statuses that the polls
 * within the budget would observe, in order.
 */
module RemoteCommand {
  import opened Outcomes
  import opened Prometheus
  import opened PyText

  datatype InvocationStatus =
    | Pending | InProgress | Delayed | Success | Cancelled | TimedOut | Failed | Cancelling

  /** The statuses that end the polling loop. */
  predicate Terminal(s: InvocationStatus) {
    s in {Delayed, Success, Cancelled, TimedOut, Failed}
  }

  /** Index of the first terminal status, or `|polls|` when there is none. */
  function FirstTerminal(polls: seq<InvocationStatus>): (k: nat)
    ensures k <= |polls|
    ensures forall j :: 0 <= j < k ==> !Terminal(polls[j])
    ensures k < |polls| ==> Terminal(polls[k])
    decreases |polls|
  {
    if polls == [] then 0 else if Terminal(polls[0]) then 0 else 1 + FirstTerminal(polls[1..])
  }

  /** The invocation succeeds: the first terminal status is reached within the budget and is Success. */
  predicate Succeeds(polls: seq<InvocationStatus>) {
    FirstTerminal(polls) < |polls| && polls[FirstTerminal(polls)] == Success
  }

  /**
   * The polling loop: poll, stop at the first terminal status, otherwise poll
   * again while the budget lasts. `polled` is the number of polls issued; the
   * call succeeds only when the last status seen is Success.
   */
  method AwaitInvocation(polls: seq<InvocationStatus>) returns (polled: nat, ok: bool)
    ensures polled <= |polls|
    ensures forall j :: 0 <= j < polled - 1 ==> !Terminal(polls[j])
    ensures polled < |polls| ==> polled > 0 && Terminal(polls[polled - 1])
    ensures ok <==> polled > 0 && polls[polled - 1] == Success
    ensures ok <==> Succeeds(polls)
  {
    var output: Option<InvocationStatus> := None;
    polled := 0;
    while polled < |polls|
      invariant polled <= |polls|
      invariant forall j :: 0 <= j < polled ==> !Terminal(polls[j])
      invariant output == if polled == 0 then None else Some(polls[polled - 1])
    {
      output := Some(polls[polled]);
      polled := polled + 1;
      if Terminal(polls[polled - 1]) {
        break;
      }
    }
    ok := output.Some? && output.value == Success;
    NoTerminalBefore(polls, polled - 1);
  }

  /** With no terminal status before `k`, the first terminal one is at `k` or later. */
  lemma NoTerminalBefore(polls: seq<InvocationStatus>, k: int)
    requires k <= |polls|
    requires forall j :: 0 <= j < k ==> !Terminal(polls[j])
    ensures k <= FirstTerminal(polls)
  {
  }

  /** The effect of the commands the tool sends, as far as the model follows them. */
  datatype Command =
    | Mysqldump                     // dump the metadata databases on the distribution node
    | CopyBackupToS3                // copy that dump to the backup bucket
    | DecommissionWorker            // decommission the Spark worker before its stack is deleted
    | StopMetricsServer             // kill the process listening on port 9090
    | StartMetricsServer            // launch prometheus detached against its config file
    | GrepJob(node: string)         // grep -Fq "{node}" prometheus.yml; echo $?
    | AppendJob(job: Job)           // echo '<stanza>' >> prometheus.yml
    | SedDeleteJob(node: string)    // sed -i "/{node}/,+2d" prometheus.yml

  /** What a successful command prints on standard output. */
  function CommandStdout(file: seq<string>, c: Command): string {
    if c.GrepJob? then GrepStatus(file, c.node) else ""
  }

  /** The configuration file after a successful command. */
  function CommandEffect(file: seq<string>, c: Command): seq<string> {
    match c
    case AppendJob(job) => file + JobLines(job)
    case SedDeleteJob(node) => SedDelete(file, node)
    case _ => file
  }

  /**
   * Echoing a worker's node-exporter stanza for a node the file does not name,
   * and then sed-deleting that node, gives back the file.
   */
  lemma EchoThenSedRestores(file: seq<string>, node: string, host: string)
    requires !Present(file, node)
    ensures CommandEffect(CommandEffect(file, AppendJob(NodeExporterJob(node, host))), SedDeleteJob(node)) == file
  {
    UpThenDownRestores(file, node, host);
  }

  /**
   * The grep sees the other two edits: after an echo of a stanza it reports
   * the stanza's job name present, after a sed deletion it reports the node absent.
   */
  lemma GrepSeesEdits(file: seq<string>, job: Job, node: string)
    ensures CommandStdout(CommandEffect(file, AppendJob(job)), GrepJob(job.name)) == "0\n"
    ensures CommandStdout(CommandEffect(file, SedDeleteJob(node)), GrepJob(node)) == "1\n"
  {
    NodeNameOnJobLine(job.name);
    assert (file + JobLines(job))[|file|] == JobNameLine(job.name);
  }
}
