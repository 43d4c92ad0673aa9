/** The common base of the RDS resources (moto/rds3/models/base.py): every
    resource knows the backend that owns it, and its ARN is formed from the
    backend's region and account, the class's resource type and the
    resource's own identifier. */
module RdsBase {
  import opened Wrappers
  import opened Strs

  /** The parts of a backend a resource reads: its region and account. */
  datatype Backend = Backend(regionName: string, accountId: string)

  /** A resource as the base class sees it. `resourceType` is the class
      attribute (`None` on the base class itself); `resourceId` is `None` for
      a class that does not override the `resource_id` property. */
  datatype RdsModel = RdsModel(backend: Backend, resourceType: Option<string>, resourceId: Option<string>)

  /** The `resource_id` property: the base class raises. */
  function ResourceId(m: RdsModel): (r: Result<string, string>)
    ensures r.Failure? <==> m.resourceId.None?
    ensures r.Failure? ==> r.error == "NotImplementedError"
    ensures r.Success? ==> r.value == m.resourceId.value
  {
    match m.resourceId
    case None => Failure("NotImplementedError")
    case Some(id) => Success(id)
  }

  /** The `region` and `account_id` properties come from the owning backend. */
  function Region(m: RdsModel): string { m.backend.regionName }
  function AccountId(m: RdsModel): string { m.backend.accountId }

  /** `str.format` of an absent class attribute. */
  function FormatOption(o: Option<string>): string
  {
    match o
    case None => "None"
    case Some(s) => s
  }

  /** The colon-separated fields of an ARN; the partition is always `aws`
      and the service always `rds`. */
  function ArnFieldList(region: string, account: string, resourceType: string, resourceId: string): seq<string>
  {
    ["arn", "aws", "rds", region, account, resourceType, resourceId]
  }

  /** `"arn:aws:rds:{region}:{account_id}:{resource_type}:{resource_id}"` */
  function Arn(region: string, account: string, resourceType: string, resourceId: string): string
  {
    Join(ArnFieldList(region, account, resourceType, resourceId), ":")
  }

  /** The `arn` property: it fails exactly when the resource id does. */
  function ModelArn(m: RdsModel): (r: Result<string, string>)
    ensures r.Failure? <==> m.resourceId.None?
    ensures r.Success? ==> r.value == Arn(Region(m), AccountId(m), FormatOption(m.resourceType), m.resourceId.value)
  {
    match ResourceId(m)
    case Failure(e) => Failure(e)
    case Success(id) => Success(Arn(Region(m), AccountId(m), FormatOption(m.resourceType), id))
  }

  /** When no field holds a colon, the ARN splits back into its seven
      colon-separated fields, so the four variable ones can be read back. */
  lemma ArnFields(region: string, account: string, resourceType: string, resourceId: string)
    requires ':' !in region && ':' !in account && ':' !in resourceType && ':' !in resourceId
    ensures Split(Arn(region, account, resourceType, resourceId), ':') ==
      ["arn", "aws", "rds", region, account, resourceType, resourceId]
  {
    var fields := ArnFieldList(region, account, resourceType, resourceId);
    assert forall i :: 0 <= i < |fields| ==> ':' !in fields[i];
    SplitJoin(fields, ':');
  }

  /** Every ARN starts with the `aws` partition and the `rds` service. */
  lemma ArnPrefix(region: string, account: string, resourceType: string, resourceId: string)
    ensures StartsWith(Arn(region, account, resourceType, resourceId), "arn:aws:rds:")
  {
    var fields := ArnFieldList(region, account, resourceType, resourceId);
    var rest := Join(fields[3..], ":");
    assert fields[1..][1..] == fields[2..] && fields[2..][1..] == fields[3..];
    assert Join(fields[2..], ":") == "rds" + ":" + rest;
    assert Join(fields[1..], ":") == "aws" + ":" + ("rds" + ":" + rest);
    assert Join(fields, ":") == "arn" + ":" + ("aws" + ":" + ("rds" + ":" + rest));
    assert "arn" + ":" + ("aws" + ":" + ("rds" + ":" + rest)) == "arn:aws:rds:" + rest;
  }

  /** Distinct resources (colon-free fields) never share an ARN. */
  lemma ArnInjective(region: string, account: string, rt1: string, id1: string, rt2: string, id2: string)
    requires ':' !in region && ':' !in account
    requires ':' !in rt1 && ':' !in id1 && ':' !in rt2 && ':' !in id2
    requires Arn(region, account, rt1, id1) == Arn(region, account, rt2, id2)
    ensures rt1 == rt2 && id1 == id2
  {
    ArnFields(region, account, rt1, id1);
    ArnFields(region, account, rt2, id2);
  }
}
