/**
 * The engine's helpers over the cloud facade: the package, jar and script
 * manifests the deployment uploads, the order in which a node scale calls
 * into the facade, and where the Kylin address comes from.
 */
module EngineUtils {
  import opened Outcomes
  import Aws

  /** The deployment settings these helpers read. */
  datatype Settings = Settings(
    cloudAddr: string,
    enableSoftAffinity: string,
    kylinVersion: string,
    hiveVersion: string,
    hadoopVersion: string,
    nodeExporterVersion: string,
    prometheusVersion: string,
    sparkVersion: string,
    zookeeperVersion: string)

  /**
   * The package file-name templates, each filled with the versions it names
   * (the Spark one with the Spark and the Hadoop version).
   */
  datatype TarTemplates = TarTemplates(
    jdk: string,
    kylin: string -> string,
    kylinWithSoft: string -> string,
    hive: string -> string,
    hadoop: string -> string,
    nodeExporter: string -> string,
    prometheus: string -> string,
    spark: (string, string) -> string,
    zookeeper: string -> string)

  /** Soft affinity is on only for the exact string `'true'`. */
  predicate SoftAffinity(s: Settings) {
    s.enableSoftAffinity == "true"
  }

  /** The Kylin package: the soft-affinity build when that is enabled. */
  function KylinPackage(t: TarTemplates, s: Settings): string {
    if SoftAffinity(s) then t.kylinWithSoft(s.kylinVersion) else t.kylin(s.kylinVersion)
  }

  /** `needed_tars`: eight packages in a fixed order, only the Kylin one depending on the flag. */
  function NeededTars(t: TarTemplates, s: Settings): (r: seq<string>)
    ensures |r| == ExpectedTars
    ensures r[0] == t.jdk && r[1] == KylinPackage(t, s) && r[2] == t.hive(s.hiveVersion)
    ensures r[3] == t.hadoop(s.hadoopVersion) && r[4] == t.nodeExporter(s.nodeExporterVersion)
    ensures r[5] == t.prometheus(s.prometheusVersion) && r[6] == t.spark(s.sparkVersion, s.hadoopVersion)
    ensures r[7] == t.zookeeper(s.zookeeperVersion)
  {
    [t.jdk, KylinPackage(t, s), t.hive(s.hiveVersion), t.hadoop(s.hadoopVersion),
     t.nodeExporter(s.nodeExporterVersion), t.prometheus(s.prometheusVersion),
     t.spark(s.sparkVersion, s.hadoopVersion), t.zookeeper(s.zookeeperVersion)]
  }

  /** The number of packages the download step insists on. */
  const ExpectedTars := 8

  /**
   * Where the two Kylin builds differ, the manifest holds the soft-affinity
   * build exactly when the flag is the string `'true'`; the other seven
   * entries do not depend on the flag.
   */
  lemma KylinPackageFollowsFlag(t: TarTemplates, s: Settings)
    requires t.kylin(s.kylinVersion) != t.kylinWithSoft(s.kylinVersion)
    ensures NeededTars(t, s)[1] == t.kylinWithSoft(s.kylinVersion) <==> SoftAffinity(s)
    ensures NeededTars(t, s)[1] == t.kylin(s.kylinVersion) <==> !SoftAffinity(s)
    ensures forall i :: 0 <= i < 8 && i != 1 ==>
      NeededTars(t, s)[i] == NeededTars(t, s.(enableSoftAffinity := ""))[i]
  {
  }

  const CommonsConfigurationJar := "commons-configuration-1.3.jar"
  const MysqlConnectorJar := "mysql-connector-java-5.1.40.jar"
  const SoftAffinityCacheJar := "kylin-soft-affinity-cache-4.0.0-SNAPSHOT.jar"
  const AlluxioClientJar := "alluxio-2.6.1-client.jar"

  /** The number of jars the download step insists on. */
  function ExpectedJars(s: Settings): nat {
    if SoftAffinity(s) then 4 else 2
  }

  /**
   * `needed_jars`: the two fixed jars, then the two soft-affinity jars when
   * that is enabled; always as many as the download step checks for.
   */
  method NeededJars(s: Settings) returns (jars: seq<string>)
    ensures |jars| == ExpectedJars(s)
    ensures jars[..2] == [CommonsConfigurationJar, MysqlConnectorJar]
    ensures SoftAffinity(s) ==> jars[2..] == [SoftAffinityCacheJar, AlluxioClientJar]
  {
    jars := [];
    jars := jars + [CommonsConfigurationJar];
    jars := jars + [MysqlConnectorJar];
    if SoftAffinity(s) {
      jars := jars + [SoftAffinityCacheJar];
      jars := jars + [AlluxioClientJar];
    }
  }

  const ScriptPrefix := "prepare-ec2-env-for-"

  /** `needed_scripts`: the five node preparation scripts, in a fixed order. */
  function NeededScripts(): (r: seq<string>)
    ensures |r| == 5
    ensures forall i :: 0 <= i < |r| ==> |r[i]| > |ScriptPrefix| && r[i][..|ScriptPrefix|] == ScriptPrefix
    ensures forall i, j :: 0 <= i < j < |r| ==> r[i] != r[j]
  {
    var r := [ScriptPrefix + "kylin4.sh", ScriptPrefix + "spark-master.sh", ScriptPrefix + "spark-slave.sh",
              ScriptPrefix + "static-services.sh", ScriptPrefix + "zk.sh"];
    assert r[0][|ScriptPrefix|] == 'k' && r[1][|ScriptPrefix| + 6] == 'm' && r[2][|ScriptPrefix| + 6] == 's';
    assert r[3][|ScriptPrefix|] == 's' && r[4][|ScriptPrefix|] == 'z' && r[1][|ScriptPrefix|] == 's';
    assert r[3][|ScriptPrefix| + 1] == 't' && r[1][|ScriptPrefix| + 1] == 'p';
    r
  }

  /**
   * `is_cluster_ready` as written: with a configured address it is `True`;
   * otherwise it hands back the facade's readiness method without calling
   * it, and a bound method is never the object `True`, so the check the
   * scale operation makes holds only with a configured address.
   */
  predicate ReadyCheckAsWritten(cloudAddr: string, awsReady: bool) {
    cloudAddr != ""
  }

  /** Without a configured address the check fails even on a ready cluster. */
  lemma ReadyCheckIgnoresCluster()
    ensures !ReadyCheckAsWritten("", true)
  {
  }

  /** The intended readiness: a configured address, or a cluster the facade reports ready. */
  predicate IsClusterReady(cloudAddr: string, awsReady: bool) {
    cloudAddr != "" || awsReady
  }

  /** The intended check agrees with the written one where an address is configured and trusts the facade otherwise. */
  lemma ReadyCheckCorrected(cloudAddr: string, awsReady: bool)
    ensures IsClusterReady(cloudAddr, awsReady) <==> ReadyCheckAsWritten(cloudAddr, awsReady) || awsReady
    ensures cloudAddr == "" ==> (IsClusterReady(cloudAddr, awsReady) <==> awsReady)
    ensures ReadyCheckAsWritten(cloudAddr, awsReady) ==> IsClusterReady(cloudAddr, awsReady)
  {
  }

  /** The facade calls a node scale makes, in the facade's own terms. */
  datatype AwsCall =
    | ScaleUp(nodeType: string, cluster: Option<int>)
    | AfterScaleUp(nodeType: string, cluster: Option<int>)
    | AfterScaleDown(nodeType: string, cluster: Option<int>)
    | ScaleDown(nodeType: string, cluster: Option<int>)
    | RestartPrometheusServer
    | InitKylinProperties(clusterNum: int)
    | UploadKylinProperties(clusterNum: int)
    | GetKylinAddress

  const KylinNodeType := "kylin"

  /**
   * The facade calls of a scale in one direction: scale-up adds the nodes
   * before reconciling, scale-down reconciles before removing them, and the
   * metrics server is restarted last.
   */
  function ScalePlan(scaleType: string, nodeType: string, cluster: Option<int>): (plan: seq<AwsCall>)
    requires scaleType == "up" || scaleType == "down"
    ensures |plan| == 3 && plan[2] == RestartPrometheusServer
    ensures scaleType == "up" ==> plan[0] == ScaleUp(nodeType, cluster) && plan[1] == AfterScaleUp(nodeType, cluster)
    ensures scaleType == "down" ==> plan[0] == AfterScaleDown(nodeType, cluster) && plan[1] == ScaleDown(nodeType, cluster)
  {
    if scaleType == "up" then [ScaleUp(nodeType, cluster), AfterScaleUp(nodeType, cluster), RestartPrometheusServer]
    else [AfterScaleDown(nodeType, cluster), ScaleDown(nodeType, cluster), RestartPrometheusServer]
  }

  /** The Kylin properties of the target cluster are prepared first, and only for Kylin nodes. */
  function KylinPreparation(nodeType: string, clusterNum: int): (calls: seq<AwsCall>)
    ensures nodeType == KylinNodeType ==> calls == [InitKylinProperties(clusterNum), UploadKylinProperties(clusterNum)]
    ensures nodeType != KylinNodeType ==> calls == []
  {
    if nodeType == KylinNodeType then [InitKylinProperties(clusterNum), UploadKylinProperties(clusterNum)] else []
  }

  /** Whether `prefix` is an initial part of `calls`. */
  predicate IsPrefix(prefix: seq<AwsCall>, calls: seq<AwsCall>) {
    |prefix| <= |calls| && calls[..|prefix|] == prefix
  }

  /** The engine helpers over one cloud facade, whose calls are recorded in order. */
  class EngineHelpers {
    const settings: Settings
    /** The facade's answer to whether the default cluster is ready. */
    const awsReady: bool
    /** The facade's answer to whether the instances of a numbered cluster are ready. */
    const targetReady: int -> bool
    /** The address the facade reports for Kylin. */
    const awsKylinAddress: string
    /** Which facade calls raise. */
    const raises: AwsCall -> bool
    /** The facade calls made so far. */
    var calls: seq<AwsCall>

    constructor (settings: Settings, awsReady: bool, targetReady: int -> bool, awsKylinAddress: string,
                 raises: AwsCall -> bool)
      ensures this.settings == settings && this.awsReady == awsReady && this.targetReady == targetReady
      ensures this.awsKylinAddress == awsKylinAddress && this.raises == raises && calls == []
    {
      this.settings := settings;
      this.awsReady := awsReady;
      this.targetReady := targetReady;
      this.awsKylinAddress := awsKylinAddress;
      this.raises := raises;
      calls := [];
    }

    /** One facade call; it is recorded whether or not it raises. */
    method Invoke(c: AwsCall) returns (r: Outcome)
      modifies this
      ensures calls == old(calls) + [c]
      ensures r.Pass? <==> !raises(c)
    {
      calls := calls + [c];
      r := if raises(c) then Raise("facade call failed") else Pass;
    }

    /** The calls in order, stopping at the first that raises. */
    method InvokeAll(plan: seq<AwsCall>) returns (r: Outcome)
      modifies this
      ensures r.Pass? <==> forall i :: 0 <= i < |plan| ==> !raises(plan[i])
      ensures r.Pass? ==> calls == old(calls) + plan
      ensures r.Raise? ==> exists k :: 0 <= k < |plan| && raises(plan[k]) && calls == old(calls) + plan[..k + 1]
      ensures IsPrefix(old(calls), calls) && IsPrefix(calls[|old(calls)|..], plan)
    {
      var i := 0;
      while i < |plan|
        invariant 0 <= i <= |plan|
        invariant forall j :: 0 <= j < i ==> !raises(plan[j])
        invariant calls == old(calls) + plan[..i]
      {
        r := Invoke(plan[i]);
        assert plan[..i + 1] == plan[..i] + [plan[i]];
        if r.Raise? {
          return;
        }
        i := i + 1;
      }
      assert plan[..i] == plan;
      r := Pass;
    }

    /**
     * `scale_nodes`: the cluster must be ready and the direction known
     * before any facade call; then the calls of the direction's plan, the
     * restart last.
     */
    method ScaleNodes(scaleType: string, nodeType: string) returns (r: Outcome)
      modifies this
      ensures !IsClusterReady(settings.cloudAddr, awsReady) ==> r.Raise? && calls == old(calls)
      ensures Aws.ValidateScale(scaleType).Raise? ==> r.Raise? && calls == old(calls)
      ensures r.Pass? ==> IsClusterReady(settings.cloudAddr, awsReady) && Aws.ValidateScale(scaleType).Pass?
      ensures r.Pass? ==> calls == old(calls) + ScalePlan(scaleType, nodeType, None)
      ensures IsPrefix(old(calls), calls)
      ensures r.Raise? && Aws.ValidateScale(scaleType).Pass? ==>
        IsPrefix(calls[|old(calls)|..], ScalePlan(scaleType, nodeType, None))
    {
      if !IsClusterReady(settings.cloudAddr, awsReady) {
        return Raise("Cluster nodes must be ready.");
      }
      r := Aws.ValidateScale(scaleType);
      if r.Raise? {
        return;
      }
      r := InvokeAll(ScalePlan(scaleType, nodeType, None));
    }

    /**
     * `scale_nodes_in_cluster`: the target cluster must be ready and the
     * direction known; Kylin nodes get their properties prepared first, then
     * the direction's plan runs, the restart last.
     */
    method ScaleNodesInCluster(scaleType: string, nodeType: string, clusterNum: int) returns (r: Outcome)
      modifies this
      ensures !targetReady(clusterNum) ==> r.Raise? && calls == old(calls)
      ensures Aws.ValidateScale(scaleType).Raise? ==> r.Raise? && calls == old(calls)
      ensures r.Pass? ==> targetReady(clusterNum) && Aws.ValidateScale(scaleType).Pass?
      ensures r.Pass? ==>
        calls == old(calls) + KylinPreparation(nodeType, clusterNum) + ScalePlan(scaleType, nodeType, Some(clusterNum))
      ensures IsPrefix(old(calls), calls)
      ensures r.Raise? && Aws.ValidateScale(scaleType).Pass? ==>
        IsPrefix(calls[|old(calls)|..], KylinPreparation(nodeType, clusterNum) + ScalePlan(scaleType, nodeType, Some(clusterNum)))
    {
      if !targetReady(clusterNum) {
        return Raise("Cluster nodes must be ready.");
      }
      r := Aws.ValidateScale(scaleType);
      if r.Raise? {
        return;
      }
      r := InvokeAll(KylinPreparation(nodeType, clusterNum) + ScalePlan(scaleType, nodeType, Some(clusterNum)));
      assert old(calls) + (KylinPreparation(nodeType, clusterNum) + ScalePlan(scaleType, nodeType, Some(clusterNum)))
        == old(calls) + KylinPreparation(nodeType, clusterNum) + ScalePlan(scaleType, nodeType, Some(clusterNum));
    }

    /**
     * `get_kylin_address`: the configured address when there is one, the
     * facade's otherwise (and only then is the facade asked, which may
     * raise); an empty result raises.
     */
    method KylinAddress() returns (r: Result<string>)
      modifies this
      ensures r.Ok? ==> r.value != ""
      ensures settings.cloudAddr != "" ==> r == Ok(settings.cloudAddr) && calls == old(calls)
      ensures settings.cloudAddr == "" ==> calls == old(calls) + [GetKylinAddress]
      ensures settings.cloudAddr == "" ==> (r.Ok? <==> !raises(GetKylinAddress) && awsKylinAddress != "")
      ensures settings.cloudAddr == "" && r.Ok? ==> r.value == awsKylinAddress
    {
      var address := settings.cloudAddr;
      if address == "" {
        var asked := Invoke(GetKylinAddress);
        if asked.Raise? {
          return Err(asked.msg);
        }
        address := awsKylinAddress;
      }
      if address == "" {
        return Err("kylin address is None, please check.");
      }
      r := Ok(address);
    }
  }
}
