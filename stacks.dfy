/**
 * The provider's stacks as abstract state, the predicates the tool derives
 * from it, the parameter merge that threads a predecessor's outputs into the
 * next stack's inputs, and the record of the calls made to the provider.
 */
module Stacks {
  import opened Outcomes
  import opened RemoteCommand

  datatype Status =
    | Absent | CreateInProgress | CreateComplete | CreateFailed | RollbackComplete
    | DeleteInProgress | DeleteComplete | DeleteFailed

  /** A stack's state as the provider reports it once the waiter returns, and its outputs. */
  datatype Stack = Stack(status: Status, outputs: map<string, string>)

  type StackStates = map<string, Stack>

  function StatusOf(stacks: StackStates, name: string): Status {
    if name in stacks then stacks[name].status else Absent
  }

  /** The create-complete waiter succeeds. */
  predicate IsComplete(stacks: StackStates, name: string) {
    StatusOf(stacks, name) == CreateComplete
  }

  /** The delete-complete waiter succeeds; it also does so for a stack that does not exist. */
  predicate IsDeleted(stacks: StackStates, name: string) {
    StatusOf(stacks, name) in {Absent, DeleteComplete}
  }

  lemma CompleteIsNotDeleted(stacks: StackStates, name: string)
    ensures !(IsComplete(stacks, name) && IsDeleted(stacks, name))
  {
  }

  /** A stack's outputs as an `OutputKey` → `OutputValue` map; raises unless the stack is complete. */
  function StackOutput(stacks: StackStates, name: string): (r: Result<map<string, string>>)
    ensures r.Ok? <==> IsComplete(stacks, name)
    ensures r.Ok? ==> r.value == stacks[name].outputs
  {
    if IsComplete(stacks, name) then Ok(stacks[name].outputs)
    else Err(name + " is not complete, please check.")
  }

  /** One output of a complete stack; raises when the stack is not complete or lacks the key. */
  function Resource(stacks: StackStates, name: string, key: string): (r: Result<string>)
    ensures r.Ok? <==> IsComplete(stacks, name) && key in stacks[name].outputs
    ensures r.Ok? ==> r.value == stacks[name].outputs[key]
  {
    var out := StackOutput(stacks, name);
    if out.Err? then Err(out.msg)
    else if key !in out.value then Err("KeyError: " + key)
    else Ok(out.value[key])
  }

  /** The configured names of the four stacks of the cluster, in creation order. */
  datatype StackNames = StackNames(vpc: string, distribution: string, master: string, slave: string) {
    predicate Distinct() {
      vpc != distribution && vpc != master && vpc != slave
      && distribution != master && distribution != slave && master != slave
    }
  }

  /** All four stacks are complete. */
  predicate Ready(names: StackNames, stacks: StackStates) {
    IsComplete(stacks, names.vpc) && IsComplete(stacks, names.distribution)
    && IsComplete(stacks, names.master) && IsComplete(stacks, names.slave)
  }

  /**
   * The cost-bearing stacks are deleted, and so is the VPC stack when the
   * configuration asks for everything to be destroyed.
   */
  predicate Terminated(names: StackNames, destroyAll: bool, stacks: StackStates) {
    IsDeleted(stacks, names.distribution) && IsDeleted(stacks, names.master)
    && IsDeleted(stacks, names.slave)
    && (!destroyAll || IsDeleted(stacks, names.vpc))
  }

  /** A ready cluster is not terminated, and with the VPC kept the VPC's state is irrelevant to teardown. */
  lemma ReadyVersusTerminated(names: StackNames, destroyAll: bool, stacks: StackStates, vpcState: Stack)
    requires names.Distinct()
    ensures Ready(names, stacks) ==> !Terminated(names, destroyAll, stacks)
    ensures !destroyAll ==>
      (Terminated(names, destroyAll, stacks) <==> Terminated(names, destroyAll, stacks[names.vpc := vpcState]))
  {
    if Ready(names, stacks) {
      CompleteIsNotDeleted(stacks, names.distribution);
    }
    var s' := stacks[names.vpc := vpcState];
    assert StatusOf(s', names.distribution) == StatusOf(stacks, names.distribution);
    assert StatusOf(s', names.master) == StatusOf(stacks, names.master);
    assert StatusOf(s', names.slave) == StatusOf(stacks, names.slave);
  }

  /** The one declared parameter the merge never fills: the index of a scaled worker. */
  const WorkerNumKey := "WorkerNum"

  /** A declared value is kept when it is truthy (non-empty) or belongs to `WorkerNum`. */
  predicate KeepsDeclared(key: string, value: string) {
    value != "" || key == WorkerNumKey
  }

  /** Every parameter to be filled has a table entry, and the predecessor has that output. */
  predicate CanFill(declared: map<string, string>, outputs: map<string, string>, relate: map<string, string>) {
    forall k | k in declared && !KeepsDeclared(k, declared[k]) :: k in relate && relate[k] in outputs
  }

  function Filled(declared: map<string, string>, outputs: map<string, string>, relate: map<string, string>): map<string, string>
    requires CanFill(declared, outputs, relate)
  {
    map k | k in declared :: if KeepsDeclared(k, declared[k]) then declared[k] else outputs[relate[k]]
  }

  /**
   * The merge of the parameter section `paramName` of `config` with the
   * outputs of the predecessor stack `pred`, through the table `stackMap[pred]`.
   */
  function MergeResult(stacks: StackStates, stackMap: map<string, map<string, string>>,
                       config: map<string, map<string, string>>, pred: string, paramName: string): Result<map<string, string>>
  {
    var out := StackOutput(stacks, pred);
    if out.Err? then Err(out.msg)
    else if paramName !in config then Err("KeyError: " + paramName)
    else if pred !in stackMap then Err("KeyError: " + pred)
    else if !CanFill(config[paramName], out.value, stackMap[pred]) then Err("KeyError")
    else Ok(Filled(config[paramName], out.value, stackMap[pred]))
  }

  /**
   * What a successful merge promises: the same keys; every truthy declared
   * value and `WorkerNum` unchanged; every other key set to the predecessor's
   * output that the table names for it.
   */
  lemma MergeFillsOnlyEmpty(stacks: StackStates, stackMap: map<string, map<string, string>>,
                            config: map<string, map<string, string>>, pred: string, paramName: string)
    requires MergeResult(stacks, stackMap, config, pred, paramName).Ok?
    ensures var m := MergeResult(stacks, stackMap, config, pred, paramName).value;
      && paramName in config && pred in stackMap && IsComplete(stacks, pred)
      && m.Keys == config[paramName].Keys
      && (forall k | k in m && KeepsDeclared(k, config[paramName][k]) :: m[k] == config[paramName][k])
      && (forall k | k in m && !KeepsDeclared(k, config[paramName][k]) ::
            k in stackMap[pred] && m[k] == stacks[pred].outputs[stackMap[pred][k]])
  {
  }

  /** The merge raises exactly when a parameter to be filled has no table entry or no matching output. */
  lemma MergeRaisesOnMissingKey(stacks: StackStates, stackMap: map<string, map<string, string>>,
                                config: map<string, map<string, string>>, pred: string, paramName: string)
    requires IsComplete(stacks, pred) && paramName in config && pred in stackMap
    ensures MergeResult(stacks, stackMap, config, pred, paramName).Err? <==>
      exists k | k in config[paramName] ::
        !KeepsDeclared(k, config[paramName][k])
        && (k !in stackMap[pred] || stackMap[pred][k] !in stacks[pred].outputs)
  {
  }

  /**
   * The merge writes its result back into the configuration; merging the
   * written-back section again changes nothing.
   */
  lemma MergeIdempotent(stacks: StackStates, stackMap: map<string, map<string, string>>,
                        config: map<string, map<string, string>>, pred: string, paramName: string)
    requires MergeResult(stacks, stackMap, config, pred, paramName).Ok?
    ensures var m := MergeResult(stacks, stackMap, config, pred, paramName).value;
      MergeResult(stacks, stackMap, config[paramName := m], pred, paramName) == Ok(m)
  {
    var m := MergeResult(stacks, stackMap, config, pred, paramName).value;
    var out := stacks[pred].outputs;
    var relate := stackMap[pred];
    var decl := config[paramName];
    assert CanFill(m, out, relate) by {
      forall k | k in m && !KeepsDeclared(k, m[k])
        ensures k in relate && relate[k] in out
      {
        assert !KeepsDeclared(k, decl[k]);
      }
    }
    assert Filled(m, out, relate) == m;
  }

  /** A call the tool makes to the provider, in the order it makes them. */
  datatype Call =
    | CreateRequest(name: string, params: map<string, string>, capability: Option<string>)
    | DeleteRequest(name: string)
    | CommandSent(instance: string, command: Command)

  /** The names of the stacks whose creation was requested, in order. */
  function CreatedNames(calls: seq<Call>): (r: seq<string>)
    ensures |r| <= |calls|
  {
    if calls == [] then []
    else
      var last := calls[|calls| - 1];
      CreatedNames(calls[..|calls| - 1]) + (if last.CreateRequest? then [last.name] else [])
  }

  /** The names of the stacks whose deletion was requested, in order. */
  function DeletedNames(calls: seq<Call>): (r: seq<string>)
    ensures |r| <= |calls|
  {
    if calls == [] then []
    else
      var last := calls[|calls| - 1];
      DeletedNames(calls[..|calls| - 1]) + (if last.DeleteRequest? then [last.name] else [])
  }

  lemma {:induction false} NamesOfConcat(a: seq<Call>, b: seq<Call>)
    ensures CreatedNames(a + b) == CreatedNames(a) + CreatedNames(b)
    ensures DeletedNames(a + b) == DeletedNames(a) + DeletedNames(b)
    decreases |b|
  {
    if b == [] {
      assert a + b == a;
    } else {
      assert (a + b)[..|a + b| - 1] == a + b[..|b| - 1];
      NamesOfConcat(a, b[..|b| - 1]);
    }
  }

  /** Only commands were sent: no stack was created or deleted. */
  predicate OnlyCommands(calls: seq<Call>) {
    forall i :: 0 <= i < |calls| ==> calls[i].CommandSent?
  }
}
