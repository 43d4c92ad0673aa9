/** The CloudFront response layer (moto/cloudfront/responses.py): the action
    name correction and the shapes of the list results. Request parameters
    arrive already parsed (`_get_param` is not part of this model). */
module CloudFrontResponses {
  import opened Wrappers
  import opened CloudFrontModels

  /** The query string: each key with its values, as `parse_qs` gives them. */
  type QueryString = map<string, seq<string>>

  /** `Operation` values and the actions they stand for. */
  function OperationAction(op: string): Option<string>
  {
    if op == "Tag" then Some("TagResource")
    else if op == "Untag" then Some("UntagResource")
    else None
  }

  /** `_get_action`: the URI matcher ignores the query string, so a
      `WithTags` key turns `CreateDistribution` into
      `CreateDistributionWithTags`, and an unmatched request with an
      `Operation` key is a tag or untag request. An `Operation` key without a
      value raises `IndexError`. */
  function GetAction(action: Option<string>, qs: QueryString): (r: Result<Option<string>, string>)
    ensures action == Some("CreateDistribution") && "WithTags" in qs ==> r == Success(Some("CreateDistributionWithTags"))
    ensures action.None? && "Operation" in qs && |qs["Operation"]| > 0 ==> r == Success(OperationAction(qs["Operation"][0]))
    ensures r.Failure? <==> action.None? && "Operation" in qs && |qs["Operation"]| == 0
    ensures r.Failure? ==> r.error == "IndexError"
    ensures action.Some? && !(action.value == "CreateDistribution" && "WithTags" in qs) ==> r == Success(action)
    ensures action.None? && "Operation" !in qs ==> r == Success(None)
  {
    if action == Some("CreateDistribution") && "WithTags" in qs then Success(Some("CreateDistributionWithTags"))
    else if action.None? && "Operation" in qs then
      if |qs["Operation"]| == 0 then Failure("IndexError")
      else Success(OperationAction(qs["Operation"][0]))
    else Success(action)
  }

  /** The correction only ever produces one of the three actions the URI
      matcher cannot tell apart, and leaves every matched action other than
      `CreateDistribution` alone. */
  lemma GetActionChanges(action: Option<string>, qs: QueryString)
    requires GetAction(action, qs).Success? && GetAction(action, qs).value != action
    ensures GetAction(action, qs).value in {Some("CreateDistributionWithTags"), Some("TagResource"), Some("UntagResource"), None}
    ensures action == Some("CreateDistribution") || action.None?
  {
  }

  /** An unknown `Operation` value leaves the action unmatched. */
  lemma OtherOperationUnmatched(op: string, qs: QueryString)
    requires "Operation" in qs && |qs["Operation"]| > 0 && qs["Operation"][0] == op
    requires op != "Tag" && op != "Untag"
    ensures GetAction(None, qs) == Success(None)
  {
  }

  /** `items if items else None` */
  function ItemsOrNone<T>(items: seq<T>): (r: Option<seq<T>>)
    ensures r.None? <==> items == []
    ensures r.Some? ==> r.value == items
  {
    if items == [] then None else Some(items)
  }

  /** A list result: `MaxItems` and `IsTruncated` when the response has
      them, the count, and the items. */
  datatype ListResult<T> = ListResult(marker: Option<string>, maxItems: Option<int>, isTruncated: Option<bool>,
                                      quantity: nat, items: Option<seq<T>>)

  /** `list_distributions`: one page holding everything, never truncated,
      with no items at all when there are none. */
  function DistributionList(ds: seq<Distribution>): (r: ListResult<Distribution>)
    ensures r.marker == Some("") && r.maxItems == Some(100) && r.isTruncated == Some(false)
    ensures r.quantity == |ds|
    ensures r.items.None? <==> r.quantity == 0
    ensures r.items.Some? ==> r.items.value == ds
  {
    ListResult(Some(""), Some(100), Some(false), |ds|, ItemsOrNone(ds))
  }

  /** `list_invalidations`: the same page shape without a marker. */
  function InvalidationList(invs: seq<Invalidation>): (r: ListResult<Invalidation>)
    ensures r.marker.None? && r.maxItems == Some(100) && r.isTruncated == Some(false)
    ensures r.quantity == |invs|
    ensures r.items.None? <==> r.quantity == 0
    ensures r.items.Some? ==> r.items.value == invs
  {
    ListResult(None, Some(100), Some(false), |invs|, ItemsOrNone(invs))
  }

  /** `list_origin_access_controls`: the items are always present, even
      when empty. */
  function OriginAccessControlList(cs: seq<OriginAccessControl>): (r: ListResult<OriginAccessControl>)
    ensures r.marker.None? && r.maxItems == Some(100) && r.isTruncated == Some(false)
    ensures r.quantity == |cs| && r.items == Some(cs)
  {
    ListResult(None, Some(100), Some(false), |cs|, Some(cs))
  }

  /** `list_public_keys`: no truncation flag; no items when there are none. */
  function PublicKeyList(ks: seq<PublicKey>): (r: ListResult<PublicKey>)
    ensures r.marker.None? && r.maxItems == Some(100) && r.isTruncated.None?
    ensures r.quantity == |ks|
    ensures r.items.None? <==> r.quantity == 0
    ensures r.items.Some? ==> r.items.value == ks
  {
    ListResult(None, Some(100), None, |ks|, ItemsOrNone(ks))
  }

  /** `{"KeyGroup": g}` */
  function WrapKeyGroup(g: KeyGroup): (r: map<string, KeyGroup>)
    ensures r.Keys == {"KeyGroup"} && r["KeyGroup"] == g
  {
    map["KeyGroup" := g]
  }

  /** `[{"KeyGroup": g} for g in groups]`: one wrapper per group, in order. */
  function WrapKeyGroups(gs: seq<KeyGroup>): (r: seq<map<string, KeyGroup>>)
    ensures |r| == |gs|
    ensures forall i :: 0 <= i < |gs| ==> r[i] == map["KeyGroup" := gs[i]]
  {
    if |gs| == 0 then [] else [WrapKeyGroup(gs[0])] + WrapKeyGroups(gs[1..])
  }

  /** `list_key_groups`: a count and every group wrapped, never `None`. */
  function KeyGroupList(gs: seq<KeyGroup>): (r: ListResult<map<string, KeyGroup>>)
    ensures r.marker.None? && r.maxItems.None? && r.isTruncated.None?
    ensures r.quantity == |gs| && r.items.Some?
    ensures |r.items.value| == |gs|
    ensures forall i :: 0 <= i < |gs| ==> r.items.value[i] == map["KeyGroup" := gs[i]]
  {
    ListResult(None, None, None, |gs|, Some(WrapKeyGroups(gs)))
  }

  /** What a client reads back from the wrapped list: each entry's `KeyGroup`. */
  function UnwrapKeyGroups(ws: seq<map<string, KeyGroup>>): (r: seq<KeyGroup>)
    requires forall i :: 0 <= i < |ws| ==> "KeyGroup" in ws[i]
    ensures |r| == |ws|
  {
    if |ws| == 0 then [] else [ws[0]["KeyGroup"]] + UnwrapKeyGroups(ws[1..])
  }

  /** Unwrapping the listed entries gives back exactly the groups, in order. */
  lemma {:induction false} KeyGroupListUnwraps(gs: seq<KeyGroup>)
    ensures forall i :: 0 <= i < |gs| ==> "KeyGroup" in KeyGroupList(gs).items.value[i]
    ensures UnwrapKeyGroups(KeyGroupList(gs).items.value) == gs
  {
    WrapUnwrap(gs);
  }

  lemma {:induction false} WrapUnwrap(gs: seq<KeyGroup>)
    ensures forall i :: 0 <= i < |gs| ==> "KeyGroup" in WrapKeyGroups(gs)[i]
    ensures UnwrapKeyGroups(WrapKeyGroups(gs)) == gs
  {
    if |gs| > 0 {
      WrapUnwrap(gs[1..]);
      assert WrapKeyGroups(gs)[1..] == WrapKeyGroups(gs[1..]);
    }
  }

  /** The `Distribution`, `ETag` and `Location` of a create or update. */
  datatype DistributionResult = DistributionResult(distribution: Distribution, etag: string, location: string)

  /** `create_distribution`: the config alone, with no tags. */
  method CreateDistribution(backend: CloudFrontBackend, config: ConfigInput, id: string, domainId: string, etag: string)
    returns (r: Result<DistributionResult, string>)
    requires backend.Valid()
    modifies backend`distributions, backend`tagCalls
    ensures backend.Valid()
    ensures r.Success? ==> backend.tagCalls == old(backend.tagCalls) + [TagWith(r.value.distribution.arn, [])]
    ensures r.Success? ==> backend.distributions == old(backend.distributions).Put(id, r.value.distribution)
    ensures r.Failure? ==> backend.distributions == old(backend.distributions) && backend.tagCalls == old(backend.tagCalls)
  {
    var made := backend.CreateDistributionWithTags(config, [], id, domainId, etag);
    match made
    case Failure(e) => return Failure(e);
    case Success((d, location, tag)) => return Success(DistributionResult(d, tag, location));
  }

  /** `create_distribution_with_tags`: the config and the tags of
      `DistributionConfigWithTags`; missing tags are an empty list. */
  method CreateDistributionWithTags(backend: CloudFrontBackend, config: ConfigInput, tags: Option<seq<(string, string)>>,
                                    id: string, domainId: string, etag: string)
    returns (r: Result<DistributionResult, string>)
    requires backend.Valid()
    modifies backend`distributions, backend`tagCalls
    ensures backend.Valid()
    ensures r.Success? ==> backend.tagCalls == old(backend.tagCalls) + [TagWith(r.value.distribution.arn, tags.GetOr([]))]
    ensures r.Success? ==> backend.distributions == old(backend.distributions).Put(id, r.value.distribution)
    ensures r.Failure? ==> backend.distributions == old(backend.distributions) && backend.tagCalls == old(backend.tagCalls)
  {
    var made := backend.CreateDistributionWithTags(config, tags.GetOr([]), id, domainId, etag);
    match made
    case Failure(e) => return Failure(e);
    case Success((d, location, tag)) => return Success(DistributionResult(d, tag, location));
  }
}
