/**
 * The static tables that tell which output of a predecessor stack fills each
 * empty input parameter of the next stack. Each table maps an input parameter
 * name of the stack being created to an output key of its predecessor.
 */
module Tables {

  /** The VPC stack's outputs as the distribution stack's inputs, written output-first. */
  const VpcToEc2Distribution: map<string, string> := map[
    "Subnet02ID" := "PublicSubnetID",
    "SecurityGroupID" := "SecurityGroupID"
  ]

  const Ec2DistributionFromVpc: map<string, string> := map[
    "PublicSubnetID" := "Subnet02ID",
    "SecurityGroupID" := "SecurityGroupId"
  ]

  const Ec2DistributionToMaster: map<string, string> := map[
    "DistributionNodePrivateIp" := "Ec2ZookeeperkHost",
    "InstanceProfileId" := "Ec2InstanceProfile",
    "PublicSubnetIDDependsOnDNode" := "PublicSubnetID",
    "SecurityGroupIDDependsOnDNode" := "SecurityGroupID"
  ]

  const MasterFromEc2Distribution: map<string, string> := map[
    "Ec2ZookeeperkHost" := "DistributionNodePrivateIp",
    "Ec2InstanceProfile" := "InstanceProfileId",
    "PublicSubnetID" := "PublicSubnetIDDependsOnDNode",
    "SecurityGroupID" := "SecurityGroupIDDependsOnDNode",
    "Ec2DbHost" := "DistributionNodePrivateIp"
  ]

  const MasterToSlave: map<string, string> := map[
    "MasterEc2InstancePrivateIp" := "MasterNodeHost",
    "MasterSubnetIdDependsOnDNode" := "PublicSubnetID",
    "MasterSecurityGroupIdDependsOnDNode" := "SecurityGroupID",
    "MasterEc2InstanceProfileId" := "Ec2InstanceProfile"
  ]

  const SlaveFromMaster: map<string, string> := map[
    "MasterNodeHost" := "MasterEc2InstancePrivateIp",
    "PublicSubnetID" := "MasterSubnetIdDependsOnDNode",
    "SecurityGroupID" := "MasterSecurityGroupIdDependsOnDNode",
    "Ec2InstanceProfile" := "MasterEc2InstanceProfileId"
  ]

  const StepForEc2ToScale: map<string, string> := map[
    "MasterNodeHost" := "MasterEc2InstancePrivateIp",
    "PublicSubnetID" := "MasterSubnetIdDependsOnDNode",
    "SecurityGroupID" := "MasterSecurityGroupIdDependsOnDNode",
    "Ec2InstanceProfile" := "MasterEc2InstanceProfileId"
  ]

  const VpcStackName := "ec2-or-emr-vpc-stack"
  const DistributionStackName := "ec2-distribution-stack"
  const MasterStackName := "ec2-master-stack"

  /**
   * For each predecessor stack (by its default name), the table used to fill
   * the inputs of the stack that follows it.
   */
  const StackToMap: map<string, map<string, string>> := map[
    VpcStackName := Ec2DistributionFromVpc,
    DistributionStackName := MasterFromEc2Distribution,
    MasterStackName := SlaveFromMaster,
    "ec2-slave-04" := StepForEc2ToScale,
    "ec2-slave-05" := StepForEc2ToScale,
    "ec2-slave-06" := StepForEc2ToScale
  ]

  /** `back` undoes `forth` and `forth` undoes `back`. */
  predicate MutualInverses(forth: map<string, string>, back: map<string, string>) {
    && (forall k | k in forth :: forth[k] in back && back[forth[k]] == k)
    && (forall k | k in back :: back[k] in forth && forth[back[k]] == k)
  }

  /** No two keys of `m` read the same value. */
  predicate Injective(m: map<string, string>) {
    forall a, b | a in m && b in m && a != b :: m[a] != m[b]
  }

  /** The table has six entries: the three predecessor stacks and the three zero-padded scale slots. */
  lemma StackToMapKeys()
    ensures StackToMap.Keys == {VpcStackName, DistributionStackName, MasterStackName,
                                "ec2-slave-04", "ec2-slave-05", "ec2-slave-06"}
    ensures |StackToMap| == 6
  {
    var keys := {VpcStackName, DistributionStackName, MasterStackName,
                 "ec2-slave-04", "ec2-slave-05", "ec2-slave-06"};
    assert StackToMap.Keys == keys;
    assert |keys| == 6;
  }

  /** Every scale slot reads the master stack's outputs exactly as the base slave stack does. */
  lemma ScaleSlotsShareTable()
    ensures forall s | s in {"ec2-slave-04", "ec2-slave-05", "ec2-slave-06"} ::
      s in StackToMap && StackToMap[s] == StepForEc2ToScale
    ensures StepForEc2ToScale == SlaveFromMaster == StackToMap[MasterStackName]
  {
  }

  /** The master→slave tables are each other's inverses. */
  lemma MasterSlaveTablesInverse()
    ensures MutualInverses(MasterToSlave, SlaveFromMaster)
  {
    assert MasterToSlave.Keys == {"MasterEc2InstancePrivateIp", "MasterSubnetIdDependsOnDNode",
                                  "MasterSecurityGroupIdDependsOnDNode", "MasterEc2InstanceProfileId"};
    assert SlaveFromMaster.Keys == {"MasterNodeHost", "PublicSubnetID", "SecurityGroupID", "Ec2InstanceProfile"};
  }

  /**
   * The distribution→master table read in the other direction is its
   * output-first companion plus `Ec2DbHost`, which reads the same output as
   * `Ec2ZookeeperkHost`; hence it is not injective.
   */
  lemma DistributionMasterTables()
    ensures forall k | k in Ec2DistributionToMaster ::
      Ec2DistributionToMaster[k] in MasterFromEc2Distribution
      && MasterFromEc2Distribution[Ec2DistributionToMaster[k]] == k
    ensures MasterFromEc2Distribution.Keys == Ec2DistributionToMaster.Values + {"Ec2DbHost"}
    ensures MasterFromEc2Distribution["Ec2DbHost"] == MasterFromEc2Distribution["Ec2ZookeeperkHost"]
    ensures !Injective(MasterFromEc2Distribution)
  {
    assert Ec2DistributionToMaster.Values ==
      {"Ec2ZookeeperkHost", "Ec2InstanceProfile", "PublicSubnetID", "SecurityGroupID"} by {
      assert Ec2DistributionToMaster["DistributionNodePrivateIp"] == "Ec2ZookeeperkHost";
      assert Ec2DistributionToMaster["InstanceProfileId"] == "Ec2InstanceProfile";
      assert Ec2DistributionToMaster["PublicSubnetIDDependsOnDNode"] == "PublicSubnetID";
      assert Ec2DistributionToMaster["SecurityGroupIDDependsOnDNode"] == "SecurityGroupID";
    }
  }

  /**
   * The VPC tables are not inverses: the distribution stack reads the VPC output
   * `SecurityGroupId`, while the output-first table names it `SecurityGroupID`.
   */
  lemma VpcTablesDisagree()
    ensures Ec2DistributionFromVpc["SecurityGroupID"] == "SecurityGroupId"
    ensures "SecurityGroupId" !in VpcToEc2Distribution
    ensures !MutualInverses(VpcToEc2Distribution, Ec2DistributionFromVpc)
  {
  }
}
