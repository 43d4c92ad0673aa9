/** The RDS view models (moto/rds/viewmodels.py): wrappers around backend
    objects that answer an attribute from their own properties first and
    from the wrapped object otherwise, and derive the nested structures the
    serializer expects. The wrapped objects are given by the attributes
    the properties read. */
module RdsViewModels {
  import opened Wrappers
  import opened Values

  // ---------------------------------------------------------- attribute lookup

  /** The first of `layers` that holds `name` answers; when none does,
      `AttributeError`. */
  function Chain<V>(layers: seq<map<string, V>>, name: string): (r: Result<V, string>)
    ensures r.Failure? ==> r.error == "AttributeError"
    decreases |layers|
  {
    if layers == [] then Failure("AttributeError")
    else if name in layers[0] then Success(layers[0][name])
    else Chain(layers[1..], name)
  }

  /** The lookup fails exactly when no layer holds the name, and it
      answers from the first layer that does. */
  lemma {:induction false} ChainFirst<V>(layers: seq<map<string, V>>, name: string)
    ensures Chain(layers, name).Failure? <==> forall i :: 0 <= i < |layers| ==> name !in layers[i]
    ensures forall i :: 0 <= i < |layers| && name in layers[i] && (forall j :: 0 <= j < i ==> name !in layers[j])
              ==> Chain(layers, name) == Success(layers[i][name])
    decreases |layers|
  {
    if layers != [] {
      ChainFirst(layers[1..], name);
      forall i | 0 <= i < |layers| && name in layers[i] && (forall j :: 0 <= j < i ==> name !in layers[j])
        ensures Chain(layers, name) == Success(layers[i][name])
      {
        if i > 0 {
          assert layers[1..][i - 1] == layers[i];
          forall j | 0 <= j < i - 1 ensures name !in layers[1..][j] {
            assert layers[1..][j] == layers[j + 1];
          }
        }
      }
      if name !in layers[0] && Chain(layers, name).Failure? {
        forall i | 0 <= i < |layers| ensures name !in layers[i] {
          if i > 0 {
            assert layers[1..][i - 1] == layers[i];
          }
        }
      }
    }
  }

  /** Looking through two stacks of layers is looking through the first,
      then through the second once the first has no answer. */
  lemma {:induction false} ChainAppend<V>(a: seq<map<string, V>>, b: seq<map<string, V>>, name: string)
    ensures Chain(a + b, name) == if Chain(a, name).Success? then Chain(a, name) else Chain(b, name)
    decreases |a|
  {
    if a == [] {
      assert a + b == b;
    } else {
      assert (a + b)[0] == a[0] && (a + b)[1..] == a[1..] + b;
      ChainAppend(a[1..], b, name);
    }
  }

  /** `__getattribute__` of a view of one object: its own attribute, or
      the wrapped object's. */
  function ViewLookup<V>(own: map<string, V>, wrapped: map<string, V>, name: string): Result<V, string>
  {
    Chain([own, wrapped], name)
  }

  /** A view answers from its own attributes first, then from the wrapped
      object, and raises `AttributeError` when neither has the name. */
  lemma ViewLookupOrder<V>(own: map<string, V>, wrapped: map<string, V>, name: string)
    ensures ViewLookup(own, wrapped, name)
            == if name in own then Success(own[name])
               else if name in wrapped then Success(wrapped[name])
               else Failure("AttributeError")
  {
    ChainFirst([own, wrapped], name);
  }

  /** `__getattribute__` of the snapshot views: own attribute, then the
      snapshot's, then whatever the inner view (of the instance or of the
      cluster) answers, including its `AttributeError`. */
  function SnapshotViewLookup<V>(own: map<string, V>, snapshot: map<string, V>, innerOwn: map<string, V>, inner: map<string, V>, name: string): Result<V, string>
  {
    if name in own then Success(own[name])
    else if name in snapshot then Success(snapshot[name])
    else ViewLookup(innerOwn, inner, name)
  }

  /** The snapshot views look through four layers in order: the view, the
      snapshot, the inner view and the object it wraps. */
  lemma SnapshotViewChain<V>(own: map<string, V>, snapshot: map<string, V>, innerOwn: map<string, V>, inner: map<string, V>, name: string)
    ensures SnapshotViewLookup(own, snapshot, innerOwn, inner, name) == Chain([own, snapshot, innerOwn, inner], name)
  {
    ChainAppend([own, snapshot], [innerOwn, inner], name);
    assert [own, snapshot] + [innerOwn, inner] == [own, snapshot, innerOwn, inner];
    ChainFirst([own, snapshot], name);
  }

  // -------------------------------------------------------------- proxies

  /** The fields of a proxy target group that its view reads. */
  datatype ProxyTargetGroup = ProxyTargetGroup(maxConnections: Value, maxIdleConnections: Value, borrowTimeout: Value, sessionPinningFilters: seq<string>)

  datatype ConnectionPoolConfig = ConnectionPoolConfig(maxConnectionsPercent: Value, maxIdleConnectionsPercent: Value, connectionBorrowTimeout: Value, sessionPinningFilters: seq<string>)

  /** `DBProxyTargetGroupDTO`: always the default group, always available. */
  datatype ProxyTargetGroupView = ProxyTargetGroupView(group: ProxyTargetGroup)
  {
    predicate IsDefault()
    {
      true
    }

    function Status(): string
    {
      "available"
    }

    /** `connection_pool_config`: the percentages, the timeout and a copy of
        the session pinning filters, under their response names. */
    function ConnectionPool(): (c: ConnectionPoolConfig)
      ensures c.maxConnectionsPercent == group.maxConnections && c.maxIdleConnectionsPercent == group.maxIdleConnections
      ensures c.connectionBorrowTimeout == group.borrowTimeout && c.sessionPinningFilters == group.sessionPinningFilters
    {
      ConnectionPoolConfig(group.maxConnections, group.maxIdleConnections, group.borrowTimeout,
        seq(|group.sessionPinningFilters|, i requires 0 <= i < |group.sessionPinningFilters| => group.sessionPinningFilters[i]))
    }
  }

  const Registering := "REGISTERING"
  const Available := "AVAILABLE"

  /** `DBProxyTargetDTO`: a target that is being registered or not. */
  datatype ProxyTargetView = ProxyTargetView(registering: bool)
  {
    /** `role`: always `None`, whatever the target holds. */
    function Role(): Option<string>
    {
      None
    }

    /** `port`: always the PostgreSQL port. */
    function Port(): int
    {
      5432
    }

    /** `target_health["State"]` */
    function HealthState(): string
    {
      if registering then Registering else Available
    }
  }

  /** The target's health is `REGISTERING` exactly for a registering
      target, `AVAILABLE` otherwise; port and role do not depend on the
      target. */
  lemma ProxyTargetHealth(t: ProxyTargetView)
    ensures t.HealthState() == Registering <==> t.registering
    ensures t.HealthState() == Available <==> !t.registering
    ensures t.Port() == 5432 && t.Role() == None
  {
    assert Registering[0] != Available[0];
  }

  // --------------------------------------------------------- option groups

  datatype OptionSetting = OptionSetting(name: Value, value: Value)

  datatype OptionView = OptionView(optionName: string, optionSettings: seq<OptionSetting>)

  /** `setting.get(key)` */
  function Get(setting: map<string, Value>, key: string): Value
  {
    if key in setting then setting[key] else VNone
  }

  /** `OptionGroupDTO.options`: one entry per option, in the dict's order,
      each setting reduced to its `Name` and `Value` (`None` when absent). */
  function Options(options: seq<(string, seq<map<string, Value>>)>): (r: seq<OptionView>)
    ensures |r| == |options|
    ensures forall i :: 0 <= i < |options| ==> r[i].optionName == options[i].0 && |r[i].optionSettings| == |options[i].1|
    ensures forall i, j :: 0 <= i < |options| && 0 <= j < |options[i].1| ==>
              r[i].optionSettings[j] == OptionSetting(Get(options[i].1[j], "Name"), Get(options[i].1[j], "Value"))
  {
    seq(|options|, i requires 0 <= i < |options| =>
      OptionView(options[i].0, seq(|options[i].1|, j requires 0 <= j < |options[i].1| =>
        OptionSetting(Get(options[i].1[j], "Name"), Get(options[i].1[j], "Value")))))
  }

  // --------------------------------------------------- subnets and groups

  datatype Subnet = Subnet(id: string, availabilityZone: string)

  datatype SubnetView = SubnetView(subnetStatus: string, subnetIdentifier: string, zoneName: string, provisionedIopsCapable: bool)

  /** `DBSubnetGroupDTO.subnets`: every subnet, active, with its zone, and
      never capable of provisioned IOPS. */
  function Subnets(subnets: seq<Subnet>): (r: seq<SubnetView>)
    ensures |r| == |subnets|
    ensures forall i :: 0 <= i < |subnets| ==>
              r[i] == SubnetView("Active", subnets[i].id, subnets[i].availabilityZone, false)
  {
    seq(|subnets|, i requires 0 <= i < |subnets| => SubnetView("Active", subnets[i].id, subnets[i].availabilityZone, false))
  }

  /** The key that names the identifier of a status entry. */
  datatype EntryKey = CidrIp | VpcSecurityGroupId | DBSecurityGroupName

  /** A `{<key>: id, "Status": status}` entry of a derived list. */
  datatype StatusEntry = StatusEntry(key: EntryKey, id: string, status: string)

  /** One entry per identifier, in order, all with the same status. */
  function Entries(key: EntryKey, ids: seq<string>, status: string): (r: seq<StatusEntry>)
  {
    seq(|ids|, i requires 0 <= i < |ids| => StatusEntry(key, ids[i], status))
  }

  /** A list of entries names each identifier once per occurrence, in the
      input order, and gives each the status. */
  lemma EntriesOrder(key: EntryKey, ids: seq<string>, status: string)
    ensures |Entries(key, ids, status)| == |ids|
    ensures forall i :: 0 <= i < |ids| ==> Entries(key, ids, status)[i].id == ids[i]
    ensures forall e :: e in Entries(key, ids, status) ==> e.key == key && e.status == status && e.id in ids
    ensures forall id :: id in ids ==> StatusEntry(key, id, status) in Entries(key, ids, status)
  {
    var r := Entries(key, ids, status);
    forall id | id in ids ensures StatusEntry(key, id, status) in r {
      var i :| 0 <= i < |ids| && ids[i] == id;
      assert r[i] == StatusEntry(key, id, status);
    }
  }

  /** `DBSecurityGroupDTO.ip_ranges`: every range authorized. */
  function IpRanges(ranges: seq<string>): seq<StatusEntry>
  {
    Entries(CidrIp, ranges, "authorized")
  }

  // --------------------------------------------------------- instances

  /** The fields of a DB instance that its view reads. */
  datatype DBInstance = DBInstance(
    vpcSecurityGroupIds: seq<string>,
    securityGroups: seq<string>,
    address: Value,
    port: Value,
    optionGroupName: Value,
    replicas: seq<string>)

  datatype Endpoint = Endpoint(address: Value, port: Value)

  datatype OptionGroupMembership = OptionGroupMembership(optionGroupName: Value, status: string)

  /** `DBInstanceDTO` */
  datatype InstanceView = InstanceView(instance: DBInstance)
  {
    /** `vpc_security_groups`: every VPC group of the instance, active. */
    function VpcSecurityGroups(): seq<StatusEntry>
    {
      Entries(VpcSecurityGroupId, instance.vpcSecurityGroupIds, "active")
    }

    /** `db_security_groups`: every DB security group, active. */
    function DBSecurityGroups(): seq<StatusEntry>
    {
      Entries(DBSecurityGroupName, instance.securityGroups, "active")
    }

    function EndpointOf(): (e: Endpoint)
      ensures e.address == instance.address && e.port == instance.port
    {
      Endpoint(instance.address, instance.port)
    }

    /** `option_group_memberships`: the one option group, in sync. */
    function OptionGroupMemberships(): (r: seq<OptionGroupMembership>)
      ensures |r| == 1 && r[0].optionGroupName == instance.optionGroupName
    {
      [OptionGroupMembership(instance.optionGroupName, "in-sync")]
    }

    /** `read_replica_db_instance_identifiers`: a copy of the replicas. */
    function ReadReplicaIdentifiers(): (r: seq<string>)
      ensures r == instance.replicas
    {
      seq(|instance.replicas|, i requires 0 <= i < |instance.replicas| => instance.replicas[i])
    }
  }

  /** A DB parameter group object; `db_parameter_groups` sets an apply
      status on it. */
  class DBParameterGroup {
    var name: string
    var parameterApplyStatus: Option<string>

    constructor (name: string)
      ensures this.name == name && parameterApplyStatus == None
    {
      this.name := name;
      parameterApplyStatus := None;
    }
  }

  /** `DBInstanceDTO.db_parameter_groups`: the instance's groups, each
      marked in sync in place; the same objects are returned. */
  method MarkParameterGroups(groups: seq<DBParameterGroup>) returns (r: seq<DBParameterGroup>)
    modifies set g | g in groups
    ensures r == groups
    ensures forall g :: g in groups ==> g.parameterApplyStatus == Some("in-sync") && g.name == old(g.name)
  {
    var i := 0;
    while i < |groups|
      invariant 0 <= i <= |groups|
      invariant forall j :: 0 <= j < i ==> groups[j].parameterApplyStatus == Some("in-sync")
      invariant forall g :: g in groups ==> g.name == old(g.name)
    {
      groups[i].parameterApplyStatus := Some("in-sync");
      i := i + 1;
    }
    r := groups;
  }

  // ------------------------------------------------------- global clusters

  /** A member cluster of a global cluster. */
  datatype MemberCluster = MemberCluster(dbClusterArn: string, isWriter: bool)

  /** A member entry; `writeForwarding` is the optional
      `GlobalWriteForwardingStatus`. */
  datatype GlobalMember = GlobalMember(
    dbClusterArn: string,
    isWriter: bool,
    parameterGroupStatus: string,
    promotionTier: int,
    readers: seq<string>,
    writeForwarding: Option<string>)

  /** The ARNs of the members that are not the writer, in member order. */
  function ReaderArns(members: seq<MemberCluster>): (r: seq<string>)
    ensures |r| <= |members|
    decreases |members|
  {
    if members == [] then []
    else ReaderArns(members[..|members| - 1]) + if members[|members| - 1].isWriter then [] else [members[|members| - 1].dbClusterArn]
  }

  /** An ARN is among the readers exactly when a non-writer member has it. */
  lemma {:induction false} ReaderArnsMembers(members: seq<MemberCluster>)
    ensures forall a :: a in ReaderArns(members) <==> exists j :: 0 <= j < |members| && !members[j].isWriter && members[j].dbClusterArn == a
    decreases |members|
  {
    if members != [] {
      var init := members[..|members| - 1];
      ReaderArnsMembers(init);
      forall a ensures a in ReaderArns(members) <==> exists j :: 0 <= j < |members| && !members[j].isWriter && members[j].dbClusterArn == a {
        if a in ReaderArns(init) {
          var j :| 0 <= j < |init| && !init[j].isWriter && init[j].dbClusterArn == a;
          assert members[j] == init[j];
        }
        if exists j :: 0 <= j < |members| && !members[j].isWriter && members[j].dbClusterArn == a {
          var j :| 0 <= j < |members| && !members[j].isWriter && members[j].dbClusterArn == a;
          if j < |init| {
            assert init[j] == members[j];
          }
        }
      }
    }
  }

  /** The entry a member starts with. */
  function BaseMember(m: MemberCluster): GlobalMember
  {
    GlobalMember(m.dbClusterArn, m.isWriter, "in-sync", 1, [], None)
  }

  /** What a member ends with: the writer lists the readers, every other
      member keeps no readers and has write forwarding disabled. */
  function FinalMember(m: MemberCluster, readers: seq<string>): GlobalMember
  {
    if m.isWriter then BaseMember(m).(readers := readers)
    else BaseMember(m).(writeForwarding := Some("disabled"))
  }

  /** `GlobalClusterDTO.global_cluster_members`: the entries are built,
      then each is completed in place according to whether it is the
      writer. */
  method GlobalClusterMembers(members: seq<MemberCluster>) returns (r: seq<GlobalMember>)
    ensures |r| == |members|
    ensures forall i :: 0 <= i < |members| ==> r[i] == FinalMember(members[i], ReaderArns(members))
  {
    var readers := ReaderArns(members);
    r := seq(|members|, i requires 0 <= i < |members| => BaseMember(members[i]));
    var i := 0;
    while i < |r|
      invariant 0 <= i <= |r| && |r| == |members|
      invariant forall j :: 0 <= j < i ==> r[j] == FinalMember(members[j], readers)
      invariant forall j :: i <= j < |r| ==> r[j] == BaseMember(members[j])
    {
      if r[i].isWriter {
        r := r[i := r[i].(readers := readers)];
      } else {
        r := r[i := r[i].(writeForwarding := Some("disabled"))];
      }
      i := i + 1;
    }
  }

  /** Every member keeps its ARN, writer flag, in-sync status and tier 1;
      a writer's readers are exactly the non-writers' ARNs; a non-writer
      has no readers and write forwarding disabled. */
  lemma GlobalMembersShape(members: seq<MemberCluster>, i: int)
    requires 0 <= i < |members|
    ensures var m := FinalMember(members[i], ReaderArns(members));
            m.dbClusterArn == members[i].dbClusterArn && m.isWriter == members[i].isWriter
            && m.parameterGroupStatus == "in-sync" && m.promotionTier == 1
            && (m.isWriter ==> m.writeForwarding == None)
            && (m.isWriter ==> forall a :: a in m.readers <==> exists j :: 0 <= j < |members| && !members[j].isWriter && members[j].dbClusterArn == a)
            && (!m.isWriter ==> m.readers == [] && m.writeForwarding == Some("disabled"))
  {
    ReaderArnsMembers(members);
  }

  // ------------------------------------------------------------- clusters

  /** The fields of a DB cluster that its view reads. */
  datatype DBCluster = DBCluster(
    status: string,
    scalingConfiguration: Option<map<string, Value>>,
    vpcSecurityGroupIds: seq<string>,
    globalWriteForwardingRequested: Value,
    clusterMembers: seq<string>)

  datatype ScalingInfo = ScalingInfo(
    minCapacity: Value, maxCapacity: Value, autoPause: Value,
    secondsUntilAutoPause: Value, timeoutAction: Value, secondsBeforeTimeout: Value)

  datatype ClusterMember = ClusterMember(dbInstanceIdentifier: string, isClusterWriter: bool, parameterGroupStatus: string, promotionTier: int)

  /** `DBClusterDTO`; `creating` is the flag the view was built with. */
  datatype ClusterView = ClusterView(cluster: DBCluster, creating: bool)
  {
    /** `status`: `creating` while the view says so, the cluster's own
        status otherwise. */
    function Status(): string
    {
      if creating then "creating" else cluster.status
    }

    /** `scaling_configuration_info`: the configuration's entries under
        their response names; a missing or empty configuration gives
        `None` everywhere. */
    function ScalingConfigurationInfo(): ScalingInfo
    {
      var c := if cluster.scalingConfiguration.Some? then cluster.scalingConfiguration.value else map[];
      ScalingInfo(Get(c, "min_capacity"), Get(c, "max_capacity"), Get(c, "auto_pause"),
        Get(c, "seconds_until_auto_pause"), Get(c, "timeout_action"), Get(c, "seconds_before_timeout"))
    }

    /** `vpc_security_groups`: every VPC group of the cluster, active. */
    function VpcSecurityGroups(): seq<StatusEntry>
    {
      Entries(VpcSecurityGroupId, cluster.vpcSecurityGroupIds, "active")
    }

    /** `global_write_forwarding_requested`: the truth of the cluster's
        setting. */
    predicate GlobalWriteForwardingRequested()
    {
      Truthy(cluster.globalWriteForwardingRequested)
    }

    /** `db_cluster_members`: every member instance, each reported as a
        writer, in sync, tier 1. */
    function DBClusterMembers(): (r: seq<ClusterMember>)
      ensures |r| == |cluster.clusterMembers|
      ensures forall i :: 0 <= i < |r| ==> r[i].dbInstanceIdentifier == cluster.clusterMembers[i] && r[i].isClusterWriter
    {
      seq(|cluster.clusterMembers|, i requires 0 <= i < |cluster.clusterMembers| =>
        ClusterMember(cluster.clusterMembers[i], true, "in-sync", 1))
    }
  }

  /** The status is `creating` exactly when the view was built creating or
      the cluster itself is creating; otherwise it is the cluster's. */
  lemma ClusterStatus(v: ClusterView)
    ensures v.Status() == "creating" <==> v.creating || v.cluster.status == "creating"
    ensures !v.creating ==> v.Status() == v.cluster.status
  {
  }

  /** An empty configuration reads like a missing one. */
  lemma ScalingEmpty(c: DBCluster)
    requires c.scalingConfiguration == Some(map[])
    ensures ClusterView(c, false).ScalingConfigurationInfo() == ClusterView(c.(scalingConfiguration := None), false).ScalingConfigurationInfo()
    ensures ClusterView(c, false).ScalingConfigurationInfo().minCapacity == VNone
  {
  }
}
