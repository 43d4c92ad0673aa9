/** DB cluster snapshots of the RDS backend
    (moto/rds3/models/db_cluster_snapshot.py): the same insertion-ordered
    store and share-attribute algebra as DB snapshots, without identifier
    validation or a snapshot quota. */
module RdsClusterSnapshot {
  import opened Wrappers
  import opened RdsSnapshot
  import opened OrderedDicts

  /** The parts of a DB cluster a cluster snapshot copies. */
  datatype DBCluster = DBCluster(
    resourceId: string, allocatedStorage: int, created: string, storageEncrypted: bool,
    engine: string, engineVersion: string, masterUsername: string, port: int)

  /** A cluster snapshot; `cluster` is its private copy of the cluster, and
      the fields the source copies from it are read off that copy. */
  datatype DBClusterSnapshot = DBClusterSnapshot(
    identifier: string, snapshotType: string, percentProgress: int, status: string,
    tags: seq<Tag>, cluster: DBCluster, attributes: AttributeResult)
  {
    function ClusterIdentifier(): string { cluster.resourceId }
    function ResourceId(): string { identifier }
  }

  /** `DBClusterSnapshot.__init__`: complete and available at once, tagged
      only with the tags given, sharing nothing. */
  function NewClusterSnapshot(id: string, cluster: DBCluster, snapshotType: string, tags: seq<Tag>): (r: DBClusterSnapshot)
    ensures r.identifier == id && r.snapshotType == snapshotType && r.tags == tags
    ensures r.status == "available" && r.percentProgress == 100
    ensures r.ClusterIdentifier() == cluster.resourceId
    ensures r.attributes.identifier == id && r.attributes.attributes == [Attribute("restore", [])]
    ensures ClusterSnapshotOk(r, id)
  {
    DBClusterSnapshot(id, snapshotType, 100, "available", tags, cluster, InitialAttributes(id))
  }

  /** What the store keeps true of each cluster snapshot under key `id`. */
  predicate ClusterSnapshotOk(s: DBClusterSnapshot, id: string)
  {
    s.identifier == id && |s.attributes.attributes| >= 1
  }

  /** The snapshots of cluster `cl` whose type is one of `types`, in order. */
  function OfCluster(snaps: seq<DBClusterSnapshot>, cl: string, types: seq<string>): (r: seq<DBClusterSnapshot>)
    ensures forall s :: s in r <==> s in snaps && s.ClusterIdentifier() == cl && s.snapshotType in types
    ensures |r| <= |snaps|
  {
    if |snaps| == 0 then []
    else
      var last := snaps[|snaps| - 1];
      OfCluster(snaps[..|snaps| - 1], cl, types) +
        (if last.ClusterIdentifier() == cl && last.snapshotType in types then [last] else [])
  }

  /** The share sequence of the cluster tests, first step: granting two
      accounts. */
  lemma ClusterShareGrant()
    ensures BuildFromValues("restore", [], ["123", "456"], []) == Success(Attribute("restore", ["123", "456"]))
  {
    assert !Overlap(["123", "456"], []);
    assert ["123", "456"] == [] + ["123", "456"];
    WithoutNothing(["123", "456"], []);
  }

  /** Second step: swapping the two accounts for a third. */
  lemma ClusterShareSwap()
    ensures BuildFromValues("restore", ["123", "456"], ["789"], ["123", "456"]) == Success(Attribute("restore", ["789"]))
  {
    assert !Overlap(["789"], ["123", "456"]);
    assert ["123", "456"] + ["789"] == ["123", "456", "789"];
    assert Without(["123", "456", "789"], ["123", "456"]) == ["789"];
  }

  /** Last step: revoking the third account. */
  lemma ClusterShareRevoke()
    ensures BuildFromValues("restore", ["789"], [], ["789"]) == Success(Attribute("restore", []))
  {
    assert !Overlap([], ["789"]);
    assert ["789"] + [] == ["789"];
    WithoutAll(["789"], ["789"]);
  }

  /** Sharing beyond the account quota fails, whatever was shared before. */
  lemma ClusterShareQuota(values: seq<string>, add: seq<string>)
    requires |values + add| > MaxSharedAccounts
    ensures BuildFromValues("restore", values, add, []) == Failure("SharedSnapshotQuotaExceeded")
  {
    WithoutNothing(values + add, []);
    assert !Overlap(add, []);
  }

  /** `DBClusterSnapshotBackend`: `db_cluster_snapshots` is an
      insertion-ordered dict, modelled as its key order beside the map. */
  class DBClusterSnapshotBackend {
    var ids: seq<string>
    var snapshots: map<string, DBClusterSnapshot>

    ghost predicate Valid()
      reads this
    {
      Distinct(ids) &&
      (forall k :: k in snapshots <==> k in ids) &&
      (forall k :: k in snapshots ==> ClusterSnapshotOk(snapshots[k], k))
    }

    constructor()
      ensures Valid() && ids == [] && snapshots == map[]
    {
      ids := [];
      snapshots := map[];
    }

    /** `db_cluster_snapshots.values()` */
    function Values(): (r: seq<DBClusterSnapshot>)
      reads this
      requires Valid()
      ensures |r| == |ids| && forall i :: 0 <= i < |ids| ==> r[i] == snapshots[ids[i]]
    {
      ValuesOf(ids, snapshots)
    }

    /** `get_db_cluster_snapshot` */
    function GetDbClusterSnapshot(id: string): (r: Result<DBClusterSnapshot, string>)
      reads this
      ensures r.Success? <==> id in snapshots
      ensures r.Success? ==> r.value == snapshots[id]
      ensures r.Failure? ==> r.error == "DBClusterSnapshotNotFound"
    {
      if id in snapshots then Success(snapshots[id]) else Failure("DBClusterSnapshotNotFound")
    }

    /** `describe_db_cluster_snapshot_attributes` */
    function DescribeDbClusterSnapshotAttributes(id: string): (r: Result<AttributeResult, string>)
      reads this
      ensures r.Success? <==> id in snapshots
      ensures r.Success? ==> r.value == snapshots[id].attributes
      ensures r.Failure? ==> r.error == "DBClusterSnapshotNotFound"
    {
      match GetDbClusterSnapshot(id)
      case Failure(e) => Failure(e)
      case Success(s) => Success(s.attributes)
    }

    /** `create_db_cluster_snapshot`. `clusters` stands for the cluster store,
        whose lookup fails with `DBClusterNotFoundFault`. There is no quota. */
    method CreateDbClusterSnapshot(clusterId: string, id: string, tags: seq<Tag>, snapshotType: string,
                                   clusters: map<string, DBCluster>) returns (r: Result<DBClusterSnapshot, string>)
      requires Valid()
      modifies this
      ensures Valid()
      ensures id in old(snapshots) ==> r == Failure("DBClusterSnapshotAlreadyExists")
      ensures id !in old(snapshots) && clusterId !in clusters ==> r == Failure("DBClusterNotFoundFault")
      ensures id !in old(snapshots) && clusterId in clusters ==>
        r == Success(NewClusterSnapshot(id, clusters[clusterId], snapshotType, tags))
      ensures r.Success? ==> ids == old(ids) + [id] && snapshots == old(snapshots)[id := r.value]
      ensures r.Failure? ==> ids == old(ids) && snapshots == old(snapshots)
    {
      if id in snapshots {
        return Failure("DBClusterSnapshotAlreadyExists");
      }
      if clusterId !in clusters {
        return Failure("DBClusterNotFoundFault");
      }
      var s := NewClusterSnapshot(id, clusters[clusterId], snapshotType, tags);
      ids := ids + [id];
      snapshots := snapshots[id := s];
      r := Success(s);
    }

    /** `delete_db_cluster_snapshot`: pops exactly that key. */
    method DeleteDbClusterSnapshot(id: string) returns (r: Result<DBClusterSnapshot, string>)
      requires Valid()
      modifies this
      ensures Valid()
      ensures id !in old(snapshots) ==> r == Failure("DBClusterSnapshotNotFound") && ids == old(ids) && snapshots == old(snapshots)
      ensures id in old(snapshots) ==> (r == Success(old(snapshots)[id]) &&
        ids == RemoveKey(old(ids), id) && snapshots == old(snapshots) - {id})
    {
      if id !in snapshots {
        return Failure("DBClusterSnapshotNotFound");
      }
      var s := snapshots[id];
      r := Success(s);
      RemoveKeyDistinct(ids, s.ResourceId());
      ids := RemoveKey(ids, s.ResourceId());
      snapshots := snapshots - {s.ResourceId()};
    }

    /** `describe_db_cluster_snapshots`: one snapshot by id; else a cluster's
        snapshots of the requested types; else every snapshot, whatever the
        type. */
    method DescribeDbClusterSnapshots(clusterId: Option<string>, id: Option<string>, snapshotType: Option<string>)
      returns (r: Result<seq<DBClusterSnapshot>, string>)
      requires Valid()
      ensures Given(id) ==> (id.value in snapshots ==> r == Success([snapshots[id.value]])) &&
                            (id.value !in snapshots ==> r == Failure("DBClusterSnapshotNotFound"))
      ensures !Given(id) && Given(clusterId) ==> r == Success(OfCluster(Values(), clusterId.value, TypeFilter(snapshotType)))
      ensures !Given(id) && !Given(clusterId) ==> r == Success(Values())
    {
      if Given(id) {
        var found := GetDbClusterSnapshot(id.value);
        match found
        case Failure(e) => return Failure(e);
        case Success(s) => return Success([s]);
      }
      var types := TypeFilter(snapshotType);
      if Given(clusterId) {
        var all := Values();
        var acc: seq<DBClusterSnapshot> := [];
        for i := 0 to |all|
          invariant acc == OfCluster(all[..i], clusterId.value, types)
        {
          var s := all[i];
          assert all[..i + 1][..i] == all[..i];
          if s.ClusterIdentifier() == clusterId.value && s.snapshotType in types {
            acc := acc + [s];
          }
        }
        assert all[..|all|] == all;
        return Success(acc);
      }
      return Success(Values());
    }

    /** `modify_db_cluster_snapshot_attribute`: only a manual snapshot may be
        shared, and only its first attribute is replaced. */
    method ModifyDbClusterSnapshotAttribute(id: string, name: string, add: seq<string>, remove: seq<string>)
      returns (r: Result<AttributeResult, string>)
      requires Valid()
      modifies this
      ensures Valid()
      ensures id !in old(snapshots) ==> r == Failure("DBClusterSnapshotNotFound")
      ensures id in old(snapshots) && old(snapshots)[id].snapshotType != "manual" ==> r == Failure("InvalidDBClusterSnapshotStateFault")
      ensures id in old(snapshots) && old(snapshots)[id].snapshotType == "manual" ==>
        var s := old(snapshots)[id];
        var built := BuildFromValues(name, s.attributes.attributes[0].values, add, remove);
        (built.Failure? ==> r == Failure(built.error)) &&
        (built.Success? ==> r == Success(s.attributes.(attributes := s.attributes.attributes[0 := built.value])))
      ensures r.Success? ==> ids == old(ids) && snapshots == old(snapshots)[id := old(snapshots)[id].(attributes := r.value)]
      ensures r.Failure? ==> ids == old(ids) && snapshots == old(snapshots)
    {
      if id !in snapshots {
        return Failure("DBClusterSnapshotNotFound");
      }
      var s := snapshots[id];
      if s.snapshotType != "manual" {
        return Failure("InvalidDBClusterSnapshotStateFault");
      }
      var built := BuildFromValues(name, s.attributes.attributes[0].values, add, remove);
      if built.Failure? {
        return Failure(built.error);
      }
      var updated := s.attributes.(attributes := s.attributes.attributes[0 := built.value]);
      snapshots := snapshots[id := s.(attributes := updated)];
      r := Success(updated);
    }
  }
}
