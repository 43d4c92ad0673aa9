/** The Route 53 response layer (moto/route53/responses.py): the request
    checks it makes before calling the backend and the result dictionaries
    it builds. The backend (`Route53Backend`) is not part of this model: what
    it returns arrives as a parameter. */
module Route53Responses {
  import opened Wrappers
  import opened Values
  import opened OrderedDicts

  /** A Route 53 client error: its code and message. */
  datatype Error = Error(code: string, message: string)

  // ---------------------------------------------------------------- quota

  /** The most resource records one change batch may hold. */
  const MaxResourceRecords := 1000

  /** One entry of `ChangeBatch.Changes`: its `Action` and the
      `ResourceRecords` of its `ResourceRecordSet` (`None` when a key is
      missing). */
  datatype RecordSet = RecordSet(resourceRecords: Option<seq<Value>>)
  datatype Change = Change(action: Option<string>, recordSet: Option<RecordSet>)

  /** What one change adds to the effective count: nothing when it has no
      records, each record once, twice under `UPSERT`. A change without a
      record set raises `KeyError`, and so does one with records but no
      action. */
  function ChangeWeight(c: Change): (r: Result<nat, string>)
    ensures (c.recordSet.Some? && c.recordSet.value.resourceRecords.Some? && c.recordSet.value.resourceRecords.value != []
             && c.action.Some?) ==>
      r == Success(if c.action.value == "UPSERT" then 2 * |c.recordSet.value.resourceRecords.value|
                   else |c.recordSet.value.resourceRecords.value|)
    ensures c.recordSet.Some? && (c.recordSet.value.resourceRecords.None? || c.recordSet.value.resourceRecords.value == []) ==>
      r == Success(0)
    ensures r.Failure? <==> (c.recordSet.None? || (c.recordSet.value.resourceRecords.Some? &&
      c.recordSet.value.resourceRecords.value != [] && c.action.None?))
    ensures r.Failure? ==> r.error == "KeyError"
  {
    match c.recordSet
    case None => Failure("KeyError")
    case Some(rs) =>
      if rs.resourceRecords.None? || rs.resourceRecords.value == [] then Success(0)
      else if c.action.None? then Failure("KeyError")
      else
        var n := |rs.resourceRecords.value|;
        Success(if c.action.value == "UPSERT" then n + n else n)
  }

  /** The effective record count of a list of changes: the weights summed,
      or the first `KeyError`. */
  function EffectiveCount(cs: seq<Change>): Result<nat, string>
  {
    if cs == [] then Success(0)
    else match EffectiveCount(cs[..|cs| - 1])
      case Failure(e) => Failure(e)
      case Success(n) =>
        match ChangeWeight(cs[|cs| - 1])
        case Failure(e) => Failure(e)
        case Success(w) => Success(n + w)
  }

  /** Counting a batch in two parts adds the parts' counts. */
  lemma {:induction false} EffectiveCountAppend(a: seq<Change>, b: seq<Change>)
    requires EffectiveCount(a).Success? && EffectiveCount(b).Success?
    ensures EffectiveCount(a + b) == Success(EffectiveCount(a).value + EffectiveCount(b).value)
  {
    if b != [] {
      var front := b[..|b| - 1];
      assert (a + b)[..|a + b| - 1] == a + front;
      assert (a + b)[|a + b| - 1] == b[|b| - 1];
      EffectiveCountAppend(a, front);
    } else {
      assert a + b == a;
    }
  }

  /** Once a prefix of the batch fails, the whole batch fails the same way. */
  lemma {:induction false} EffectiveCountFails(cs: seq<Change>, i: nat)
    requires i <= |cs| && EffectiveCount(cs[..i]).Failure?
    ensures EffectiveCount(cs) == EffectiveCount(cs[..i])
    decreases |cs| - i
  {
    if i < |cs| {
      assert cs[..i + 1][..i] == cs[..i];
      EffectiveCountFails(cs, i + 1);
    } else {
      assert cs[..i] == cs;
    }
  }

  /** An `UPSERT` counts its records twice; any other action once. */
  lemma UpsertCountsTwice(records: seq<Value>)
    requires records != []
    ensures EffectiveCount([Change(Some("UPSERT"), Some(RecordSet(Some(records))))]) == Success(2 * |records|)
    ensures EffectiveCount([Change(Some("CREATE"), Some(RecordSet(Some(records))))]) == Success(|records|)
  {
    var up := [Change(Some("UPSERT"), Some(RecordSet(Some(records))))];
    var cr := [Change(Some("CREATE"), Some(RecordSet(Some(records))))];
    assert up[..0] == [] && cr[..0] == [];
  }

  /** `change_resource_record_sets` up to the backend call: the loop
      accumulating `effective_rr_count`, then the quota. A missing change
      list cannot be iterated (`TypeError`). */
  method CheckChangeBatch(changes: Option<seq<Change>>) returns (r: Result<nat, string>)
    ensures changes.None? ==> r == Failure("TypeError")
    ensures changes.Some? && EffectiveCount(changes.value).Failure? ==> r == Failure(EffectiveCount(changes.value).error)
    ensures changes.Some? && EffectiveCount(changes.value).Success? ==>
      r == (if EffectiveCount(changes.value).value > MaxResourceRecords then Failure("InvalidChangeBatch")
            else Success(EffectiveCount(changes.value).value))
  {
    if changes.None? {
      return Failure("TypeError");
    }
    var cs := changes.value;
    var count: nat := 0;
    for i := 0 to |cs|
      invariant EffectiveCount(cs[..i]) == Success(count)
    {
      assert cs[..i + 1][..i] == cs[..i];
      var c := cs[i];
      if c.recordSet.None? {
        EffectiveCountFails(cs, i + 1);
        return Failure("KeyError");
      }
      var recordSet := c.recordSet.value;
      if recordSet.resourceRecords.None? || recordSet.resourceRecords.value == [] {
        continue;
      }
      var records := recordSet.resourceRecords.value;
      count := count + |records|;
      if c.action.None? {
        EffectiveCountFails(cs, i + 1);
        return Failure("KeyError");
      }
      if c.action.value == "UPSERT" {
        count := count + |records|;
      }
    }
    assert cs[..|cs|] == cs;
    if count > MaxResourceRecords {
      return Failure("InvalidChangeBatch");
    }
    return Success(count);
  }

  /** The quota's edge: 1000 records created count exactly the limit, which
      passes; 501 records upserted count 1002, which is refused. */
  lemma QuotaEdge(records: seq<Value>)
    ensures |records| == 1000 ==>
      EffectiveCount([Change(Some("CREATE"), Some(RecordSet(Some(records))))]) == Success(MaxResourceRecords)
    ensures |records| == 501 ==>
      EffectiveCount([Change(Some("UPSERT"), Some(RecordSet(Some(records))))]) == Success(1002)
  {
    if |records| == 1000 || |records| == 501 {
      UpsertCountsTwice(records);
    }
  }

  // ---------------------------------------------------------- resource ids

  /** `_validate_resource_id`: only a `hostedzone` id longer than 32
      characters is refused. */
  function ValidateResourceId(resourceId: string, resourceType: string): (r: Option<Error>)
    ensures r.Some? <==> resourceType == "hostedzone" && |resourceId| > 32
    ensures r.Some? ==> r.value.code == "InvalidInput"
  {
    if resourceType == "hostedzone" && |resourceId| > 32 then
      Some(Error("InvalidInput", "1 validation error detected: Value '" + resourceId +
        "' at 'resourceId' failed to satisfy constraint: Member must have length less than or equal to 32"))
    else None
  }

  /** The full `/hostedzone/<id>` form of a 21-character zone id is 33
      characters long, so it is refused. */
  lemma FullZonePathRefused(id: string)
    requires |id| == 21
    ensures ValidateResourceId("/hostedzone/" + id, "hostedzone").Some?
    ensures ValidateResourceId(id, "hostedzone").None?
  {
  }

  /** A `{"Key": k, "Value": v}` entry. */
  datatype Tag = Tag(key: string, value: string)

  /** The tag dictionary as the Key/Value list, in the dictionary's order. */
  function TagList(tags: ODict<string>): (r: seq<Tag>)
    requires tags.Valid()
    ensures |r| == |tags.keys|
    ensures forall i :: 0 <= i < |r| ==> r[i] == Tag(tags.keys[i], tags.m[tags.keys[i]])
  {
    TagListOfEntries(tags.keys, tags.m);
    TagListOf(tags.keys, tags.m)
  }

  function TagListOf(keys: seq<string>, m: map<string, string>): seq<Tag>
    requires forall k :: k in keys ==> k in m
  {
    if keys == [] then [] else [Tag(keys[0], m[keys[0]])] + TagListOf(keys[1..], m)
  }

  /** One entry per key, in the keys' order. */
  lemma {:induction false} TagListOfEntries(keys: seq<string>, m: map<string, string>)
    requires forall k :: k in keys ==> k in m
    ensures |TagListOf(keys, m)| == |keys|
    ensures forall i :: 0 <= i < |keys| ==> TagListOf(keys, m)[i] == Tag(keys[i], m[keys[i]])
  {
    if keys != [] {
      TagListOfEntries(keys[1..], m);
    }
  }

  /** Reading the Key/Value list back as a dictionary; a later entry wins. */
  function TagDict(ts: seq<Tag>): map<string, string>
  {
    if ts == [] then map[] else map[ts[0].key := ts[0].value] + TagDict(ts[1..])
  }

  /** The Key/Value list loses nothing: read back, it is the tag
      dictionary. */
  lemma TagListRoundTrip(tags: ODict<string>)
    requires tags.Valid()
    ensures TagDict(TagList(tags)) == tags.m
  {
    TagDictOf(tags.keys, tags.m);
  }

  /** Reading back the list of some keys gives exactly those keys, each
      with its value in the dictionary. */
  lemma {:induction false} TagDictOf(keys: seq<string>, m: map<string, string>)
    requires forall k :: k in keys ==> k in m
    ensures forall k :: k in TagDict(TagListOf(keys, m)) <==> k in keys
    ensures forall k :: k in TagDict(TagListOf(keys, m)) ==> TagDict(TagListOf(keys, m))[k] == m[k]
  {
    if keys != [] {
      TagDictOf(keys[1..], m);
      assert TagListOf(keys, m)[1..] == TagListOf(keys[1..], m);
      assert TagDict(TagListOf(keys, m)) == map[keys[0] := m[keys[0]]] + TagDict(TagListOf(keys[1..], m));
      assert forall k :: k in keys <==> k == keys[0] || k in keys[1..];
    }
  }

  /** `list_tags_for_resource`: the id check, then the tags as a Key/Value
      list under the type and id asked for. */
  datatype TagSet = TagSet(resourceType: string, resourceId: string, tags: seq<Tag>)

  function ListTagsForResource(resourceType: string, resourceId: string, tags: ODict<string>): (r: Result<TagSet, Error>)
    requires tags.Valid()
    ensures r.Failure? <==> ValidateResourceId(resourceId, resourceType).Some?
    ensures r.Failure? ==> r.error == ValidateResourceId(resourceId, resourceType).value
    ensures r.Success? ==> (r.value.resourceType == resourceType && r.value.resourceId == resourceId &&
      TagDict(r.value.tags) == tags.m && |r.value.tags| == |tags.keys|)
    ensures r.Success? ==> forall i :: 0 <= i < |r.value.tags| ==>
      r.value.tags[i] == Tag(tags.keys[i], tags.m[tags.keys[i]])
  {
    match ValidateResourceId(resourceId, resourceType)
    case Some(e) => Failure(e)
    case None =>
      TagListRoundTrip(tags);
      Success(TagSet(resourceType, resourceId, TagList(tags)))
  }

  // ---------------------------------------------------------- hosted zones

  /** The parameters of `create_hosted_zone`, as `_get_param` gives them. */
  datatype ZoneRequest = ZoneRequest(
    name: Option<string>, comment: Option<string>, privateZone: Option<bool>,
    vpcId: Option<string>, vpcRegion: Option<string>, callerReference: Option<string>,
    delegationSetId: Option<string>)

  /** The arguments passed on to the backend's `create_hosted_zone`. */
  datatype ZoneArgs = ZoneArgs(
    name: string, comment: Option<string>, privateZone: bool,
    vpcId: Option<string>, vpcRegion: Option<string>, callerReference: Option<string>,
    delegationSetId: Option<string>)

  /** `create_hosted_zone` up to the backend call. The VPC is read only for a
      private zone; the name gets a trailing `.` unless it has one. An empty
      name cannot be indexed (`IndexError`) and a missing one not at all
      (`TypeError`). */
  method HostedZoneArgs(req: ZoneRequest) returns (r: Result<ZoneArgs, string>)
    ensures req.name.None? ==> r == Failure("TypeError")
    ensures req.name == Some("") ==> r == Failure("IndexError")
    ensures r.Success? <==> req.name.Some? && req.name.value != ""
    ensures r.Success? ==> (
      var given := req.name.value;
      var a := r.value;
      a.name == WithTrailingDot(given) &&
      a.privateZone == req.privateZone.GetOr(false) &&
      (a.privateZone ==> a.vpcId == req.vpcId && a.vpcRegion == req.vpcRegion) &&
      (!a.privateZone ==> a.vpcId.None? && a.vpcRegion.None?) &&
      a.comment == req.comment && a.callerReference == req.callerReference &&
      a.delegationSetId == req.delegationSetId)
    ensures r.Success? ==> |r.value.name| > 0 && r.value.name[|r.value.name| - 1] == '.'
  {
    var vpcId: Option<string> := None;
    var vpcRegion: Option<string> := None;
    var privateZone := req.privateZone.GetOr(false);
    if privateZone {
      vpcId := req.vpcId;
      vpcRegion := req.vpcRegion;
    }
    if req.name.None? {
      return Failure("TypeError");
    }
    var name := req.name.value;
    if name == "" {
      return Failure("IndexError");
    }
    if name[|name| - 1] != '.' {
      name := name + ".";
    }
    return Success(ZoneArgs(name, req.comment, privateZone, vpcId, vpcRegion, req.callerReference, req.delegationSetId));
  }

  /** The trailing-dot rule of `create_hosted_zone` on a non-empty name. */
  function WithTrailingDot(name: string): (r: string)
    requires name != ""
    ensures r != "" && r[|r| - 1] == '.'
    ensures |name| <= |r| <= |name| + 1 && r[..|name|] == name
    ensures r == name <==> name[|name| - 1] == '.'
  {
    if name[|name| - 1] == '.' then name else name + "."
  }

  /** The trailing-dot rule is idempotent: a name it produced is kept. */
  lemma HostedZoneNameStable(name: string)
    requires name != ""
    ensures WithTrailingDot(WithTrailingDot(name)) == WithTrailingDot(name)
  {
  }

  /** A VPC of a hosted zone, as the backend stores it (`vpc_id`,
      `vpc_region`). */
  type VpcEntry = map<string, string>

  /** What the response reads off a hosted zone the backend returns. */
  datatype Zone = Zone(resourceId: string, privateZone: bool, vpcs: seq<VpcEntry>, delegationSet: Value)

  /** `{"VPCRegion": ..., "VPCId": ...}` with `.get` semantics. */
  datatype VpcView = VpcView(region: Option<string>, id: Option<string>)

  function VpcOf(v: VpcEntry): (r: VpcView)
    ensures r.region.Some? <==> "vpc_region" in v
    ensures r.id.Some? <==> "vpc_id" in v
    ensures r.region.Some? ==> r.region.value == v["vpc_region"]
    ensures r.id.Some? ==> r.id.value == v["vpc_id"]
  {
    VpcView(if "vpc_region" in v then Some(v["vpc_region"]) else None,
            if "vpc_id" in v then Some(v["vpc_id"]) else None)
  }

  /** `ChangeInfo`: a fixed id, always `INSYNC`; `now` stands for `utcnow()`. */
  datatype ChangeInfo = ChangeInfo(id: string, status: string, submittedAt: string)

  datatype CreatedZone = CreatedZone(zone: Zone, changeInfo: ChangeInfo, delegationSet: Option<Value>,
                                     vpc: Option<VpcView>, location: string)

  const HostedZoneBase := "https://route53.amazonaws.com/2013-04-01/hostedzone/"

  /** The result of `create_hosted_zone`: no delegation set for a private
      zone (as requested), the zone's first VPC when it is private and has
      one, and the zone's location. */
  function CreatedZoneResult(zone: Zone, privateZone: bool, now: string): (r: CreatedZone)
    ensures r.zone == zone
    ensures r.changeInfo.status == "INSYNC"
    ensures r.delegationSet.Some? <==> !privateZone
    ensures r.delegationSet.Some? ==> r.delegationSet.value == zone.delegationSet
    ensures r.vpc.Some? <==> zone.privateZone && zone.vpcs != []
    ensures r.vpc.Some? ==> r.vpc.value == VpcOf(zone.vpcs[0])
    ensures r.location == HostedZoneBase + zone.resourceId
  {
    CreatedZone(zone, ChangeInfo("/change/C1PA6795UKMFR9", "INSYNC", now),
      if !privateZone then Some(zone.delegationSet) else None,
      if zone.privateZone && zone.vpcs != [] then Some(VpcOf(zone.vpcs[0])) else None,
      HostedZoneBase + zone.resourceId)
  }

  datatype ZoneView = ZoneView(zone: Zone, delegationSet: Option<Value>, vpcs: Option<seq<VpcEntry>>)

  /** The result of `get_hosted_zone`: a public zone shows its delegation
      set, a private zone its VPCs, never both. */
  function GetHostedZoneResult(zone: Zone): (r: ZoneView)
    ensures r.zone == zone
    ensures r.delegationSet.Some? <==> !zone.privateZone
    ensures r.vpcs.Some? <==> zone.privateZone
    ensures r.delegationSet.None? || r.vpcs.None?
    ensures r.delegationSet.Some? ==> r.delegationSet.value == zone.delegationSet
    ensures r.vpcs.Some? ==> r.vpcs.value == zone.vpcs
  {
    ZoneView(zone, if !zone.privateZone then Some(zone.delegationSet) else None,
             if zone.privateZone then Some(zone.vpcs) else None)
  }

  /** A page of a listing: its items, the marker asked for, whether more
      follow, the next marker and the page size. */
  datatype Page<T> = Page(items: seq<T>, marker: Option<string>, isTruncated: bool,
                          nextMarker: Option<string>, maxItems: int)

  /** The result of `list_hosted_zones`: `MaxItems` defaults to 100, and the
      page is truncated exactly when the backend gave a next marker. */
  function ListHostedZonesResult(zones: seq<Zone>, marker: Option<string>, maxItems: Option<int>,
                                 nextMarker: Option<string>): (r: Page<Zone>)
    ensures r.isTruncated <==> Given(nextMarker)
    ensures r.items == zones && r.marker == marker && r.nextMarker == nextMarker
    ensures r.maxItems == maxItems.GetOr(100)
  {
    Page(zones, marker, Given(nextMarker), nextMarker, maxItems.GetOr(100))
  }

  /** The result of `list_reusable_delegation_sets`: a single page of at
      most 100, never truncated. */
  function ListDelegationSetsResult(sets: seq<Value>, marker: Option<string>): (r: Page<Value>)
    ensures r.items == sets && r.marker == marker
    ensures !r.isTruncated && r.nextMarker.None? && r.maxItems == 100
  {
    Page(sets, marker, false, None, 100)
  }

  /** What the backend's `list_resource_record_sets` returns. */
  datatype RecordPage = RecordPage(recordSets: seq<Value>, nextName: Option<string>, nextType: Option<string>,
                                   isTruncated: bool)

  datatype RecordSetsResult = RecordSetsResult(recordSets: seq<Value>, isTruncated: bool,
                                               nextRecordName: Option<string>, nextRecordType: Option<string>,
                                               maxItems: int)

  /** `list_resource_record_sets`'s own check: a start type needs a start
      name. */
  function CheckRecordStart(startType: Option<string>, startName: Option<string>): (r: Option<Error>)
    ensures r.Some? <==> Given(startType) && !Given(startName)
    ensures r.Some? ==> r.value == Error("InvalidInput", "The input is not valid")
  {
    if Given(startType) && !Given(startName) then Some(Error("InvalidInput", "The input is not valid")) else None
  }

  /** The result of `list_resource_record_sets` once the backend has
      answered with `page`: `MaxItems` defaults to 300, and the next name and
      type are shown only for a truncated page. */
  function ListRecordSets(startType: Option<string>, startName: Option<string>, maxItems: Option<int>,
                          page: RecordPage): (r: Result<RecordSetsResult, Error>)
    ensures r.Failure? <==> CheckRecordStart(startType, startName).Some?
    ensures r.Failure? ==> r.error.code == "InvalidInput"
    ensures r.Success? ==> (
      r.value.recordSets == page.recordSets && r.value.isTruncated == page.isTruncated &&
      r.value.maxItems == maxItems.GetOr(300) &&
      r.value.nextRecordName == (if page.isTruncated then page.nextName else None) &&
      r.value.nextRecordType == (if page.isTruncated then page.nextType else None))
    ensures r.Success? && !page.isTruncated ==> r.value.nextRecordName.None? && r.value.nextRecordType.None?
  {
    match CheckRecordStart(startType, startName)
    case Some(e) => Failure(e)
    case None =>
      Success(RecordSetsResult(page.recordSets, page.isTruncated,
        if page.isTruncated then page.nextName else None,
        if page.isTruncated then page.nextType else None,
        maxItems.GetOr(300)))
  }
}
