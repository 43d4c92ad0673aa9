/** The CloudFront backend (moto/cloudfront/models.py): the configuration
    value classes with their defaults, and the backend's stores of
    distributions, invalidations, origin access controls, public keys and
    key groups.

    A request dictionary becomes a typed input record whose fields are
    `Option`s: `None` stands for a key missing from the dict. Dicts that the
    source passes through untouched stay `Values.Value`. Exceptions are named
    by their class. Random ids and etags are parameters. */
module CloudFrontModels {
  import opened Wrappers
  import opened Strs
  import opened Values
  import opened OrderedDicts

  // ---------------------------------------------------------------------
  // Python's `config.get(key) or default`

  /** A string option, or `d` when it is missing or empty. */
  function OrStr(o: Option<string>, d: string): (r: string)
    ensures o.Some? && o.value != "" ==> r == o.value
    ensures (o.None? || o.value == "") ==> r == d
  {
    if o.Some? && o.value != "" then o.value else d
  }

  /** An int option, or `d` when it is missing or zero. */
  function OrInt(o: Option<int>, d: int): (r: int)
    ensures o.Some? && o.value != 0 ==> r == o.value
    ensures (o.None? || o.value == 0) ==> r == d
  {
    if o.Some? && o.value != 0 then o.value else d
  }

  /** A bool option, or `False` when it is missing or false. */
  function OrFalse(o: Option<bool>): (r: bool)
    ensures r <==> o == Some(true)
  {
    o.Some? && o.value
  }

  // ---------------------------------------------------------------------
  // Counted lists

  /** A list with its count, as CloudFront's `{"Quantity": n, "Items": [...]}`. */
  datatype Listing = Listing(items: seq<string>, quantity: nat)
  {
    predicate Counted() { quantity == |items| }
  }

  /** A listing of `items`, or of `default` when the key is missing. */
  function ListingOf(items: Option<seq<string>>, default: seq<string>): (r: Listing)
    ensures r.Counted()
    ensures items.Some? ==> r.items == items.value
    ensures items.None? ==> r.items == default
  {
    var xs := items.GetOr(default);
    Listing(xs, |xs|)
  }

  /** `TrustedSigners` and `TrustedKeyGroups`: the same three fields. */
  datatype TrustedList = TrustedList(items: seq<string>, quantity: nat, enabled: bool)

  /** `TrustedSigners(config)` / `TrustedKeyGroups(config)`: the items given
      (none by default), their count, and enabled exactly when there is one. */
  function NewTrustedList(items: Option<seq<string>>): (r: TrustedList)
    ensures r.items == items.GetOr([])
    ensures r.quantity == |r.items|
    ensures r.enabled <==> r.quantity > 0
  {
    var xs := items.GetOr([]);
    TrustedList(xs, |xs|, |xs| != 0)
  }

  /** The input of `AllowedMethods`: `Items` and `CachedMethods.Items`. */
  datatype AllowedMethodsInput = AllowedMethodsInput(items: Option<seq<string>>, cachedItems: Option<seq<string>>)

  datatype AllowedMethods = AllowedMethods(methods: Listing, cachedMethods: Listing)

  /** `AllowedMethods(config)`: HEAD and GET by default, and the cached
      subset GET and HEAD by default, each counted. */
  function NewAllowedMethods(c: AllowedMethodsInput): (r: AllowedMethods)
    ensures r.methods.Counted() && r.cachedMethods.Counted()
    ensures r.methods.items == (if c.items.Some? then c.items.value else ["HEAD", "GET"])
    ensures r.cachedMethods.items == (if c.cachedItems.Some? then c.cachedItems.value else ["GET", "HEAD"])
  {
    AllowedMethods(ListingOf(c.items, ["HEAD", "GET"]), ListingOf(c.cachedItems, ["GET", "HEAD"]))
  }

  // ---------------------------------------------------------------------
  // Cache behaviours

  /** `ForwardedValues`: only the two defaulted keys are modelled. */
  datatype ForwardedValuesInput = ForwardedValuesInput(queryString: Option<bool>, cookiesForward: Option<string>)
  datatype ForwardedValues = ForwardedValues(queryString: bool, cookiesForward: string)

  function NewForwardedValues(c: ForwardedValuesInput): (r: ForwardedValues)
    ensures r.queryString == c.queryString.GetOr(false)
    ensures r.cookiesForward == c.cookiesForward.GetOr("none")
  {
    ForwardedValues(c.queryString.GetOr(false), c.cookiesForward.GetOr("none"))
  }

  /** The keys of a `DefaultCacheBehavior` or `CacheBehaviors.Items` entry. */
  datatype BehaviourInput = BehaviourInput(
    targetOriginId: Option<string>,
    viewerProtocolPolicy: Option<string>,
    trustedSigners: Option<seq<string>>,
    trustedKeyGroups: Option<seq<string>>,
    allowedMethods: AllowedMethodsInput,
    smoothStreaming: Option<bool>,
    compress: Option<bool>,
    fieldLevelEncryptionId: Option<string>,
    forwardedValues: ForwardedValuesInput,
    minTtl: Option<int>,
    defaultTtl: Option<int>,
    maxTtl: Option<int>,
    realtimeLogConfigArn: Option<string>,
    cachePolicyId: Option<string>,
    originRequestPolicyId: Option<string>,
    responseHeadersPolicyId: Option<string>,
    pathPattern: Option<string>)

  /** The behaviour dict `{}`. */
  const NoBehaviour := BehaviourInput(None, None, None, None, AllowedMethodsInput(None, None), None, None, None,
                                      ForwardedValuesInput(None, None), None, None, None, None, None, None, None, None)

  /** A `DefaultCacheBehaviour` or, with a path pattern, a `CacheBehaviour`. */
  datatype CacheBehaviour = CacheBehaviour(
    targetOriginId: string,
    viewerProtocolPolicy: string,
    trustedSignersEnabled: bool,
    trustedSigners: TrustedList,
    trustedKeyGroups: TrustedList,
    allowedMethods: AllowedMethods,
    smoothStreaming: bool,
    compress: bool,
    lambdaFunctionAssociations: nat,
    functionAssociations: nat,
    fieldLevelEncryptionId: string,
    forwardedValues: ForwardedValues,
    minTtl: int,
    defaultTtl: int,
    maxTtl: int,
    realtimeLogConfigArn: string,
    cachePolicyId: string,
    originRequestPolicyId: Option<string>,
    responseHeadersPolicyId: Option<string>,
    pathPattern: Option<string>)

  /** `TargetOriginId` and `ViewerProtocolPolicy` are read with `config[...]`. */
  predicate BehaviourOk(c: BehaviourInput)
  {
    c.targetOriginId.Some? && c.viewerProtocolPolicy.Some?
  }

  /** `DefaultCacheBehaviour(config)`: a `KeyError` without a target origin
      or a viewer protocol policy; otherwise the defaults of the source. */
  function NewDefaultCacheBehaviour(c: BehaviourInput): (r: Result<CacheBehaviour, string>)
    ensures r.Success? <==> BehaviourOk(c)
    ensures r.Failure? ==> r.error == "KeyError"
    ensures r.Success? ==> r.value.targetOriginId == c.targetOriginId.value
  {
    if c.targetOriginId.None? || c.viewerProtocolPolicy.None? then Failure("KeyError")
    else Success(CacheBehaviour(
      c.targetOriginId.value, c.viewerProtocolPolicy.value, false,
      NewTrustedList(c.trustedSigners), NewTrustedList(c.trustedKeyGroups),
      NewAllowedMethods(c.allowedMethods),
      c.smoothStreaming.GetOr(false), c.compress.GetOr(true), 0, 0,
      OrStr(c.fieldLevelEncryptionId, ""), NewForwardedValues(c.forwardedValues),
      OrInt(c.minTtl, 0), OrInt(c.defaultTtl, 0), OrInt(c.maxTtl, 0),
      OrStr(c.realtimeLogConfigArn, ""), c.cachePolicyId.GetOr(""),
      c.originRequestPolicyId, c.responseHeadersPolicyId, None))
  }

  /** The defaults a built behaviour takes for each missing key. */
  lemma BehaviourDefaults(c: BehaviourInput)
    requires NewDefaultCacheBehaviour(c).Success?
    ensures
      var b := NewDefaultCacheBehaviour(c).value;
      b.targetOriginId == c.targetOriginId.value && b.viewerProtocolPolicy == c.viewerProtocolPolicy.value &&
      !b.trustedSignersEnabled && b.trustedSigners == NewTrustedList(c.trustedSigners) &&
      b.trustedKeyGroups == NewTrustedList(c.trustedKeyGroups) &&
      b.allowedMethods == NewAllowedMethods(c.allowedMethods) &&
      b.smoothStreaming == c.smoothStreaming.GetOr(false) && b.compress == c.compress.GetOr(true) &&
      b.lambdaFunctionAssociations == 0 && b.functionAssociations == 0 &&
      b.fieldLevelEncryptionId == OrStr(c.fieldLevelEncryptionId, "") &&
      b.minTtl == OrInt(c.minTtl, 0) && b.defaultTtl == OrInt(c.defaultTtl, 0) && b.maxTtl == OrInt(c.maxTtl, 0) &&
      b.realtimeLogConfigArn == OrStr(c.realtimeLogConfigArn, "") &&
      b.cachePolicyId == c.cachePolicyId.GetOr("") &&
      b.originRequestPolicyId == c.originRequestPolicyId &&
      b.responseHeadersPolicyId == c.responseHeadersPolicyId && b.pathPattern.None?
  {
  }

  /** `CacheBehaviour(config)`: the default behaviour with a path pattern, and
      with the two policy ids defaulting to `""` instead of `None`. */
  function NewCacheBehaviour(c: BehaviourInput): (r: Result<CacheBehaviour, string>)
    ensures r.Success? <==> BehaviourOk(c)
    ensures r.Failure? ==> r.error == "KeyError"
    ensures r.Success? ==>
      r.value == NewDefaultCacheBehaviour(c).value.(pathPattern := Some(c.pathPattern.GetOr("")),
                                                    originRequestPolicyId := Some(c.originRequestPolicyId.GetOr("")))
  {
    match NewDefaultCacheBehaviour(c)
    case Failure(e) => Failure(e)
    case Success(b) =>
      Success(b.(pathPattern := Some(c.pathPattern.GetOr("")),
                 cachePolicyId := c.cachePolicyId.GetOr(""),
                 originRequestPolicyId := Some(c.originRequestPolicyId.GetOr(""))))
  }

  /** Every behaviour of a `CacheBehaviors.Items` list, in order. */
  function NewCacheBehaviours(cs: seq<BehaviourInput>): (r: Result<seq<CacheBehaviour>, string>)
    ensures r.Success? <==> forall i :: 0 <= i < |cs| ==> BehaviourOk(cs[i])
    ensures r.Failure? ==> r.error == "KeyError"
    ensures r.Success? ==> (|r.value| == |cs| &&
      forall i :: 0 <= i < |cs| ==> r.value[i] == NewCacheBehaviour(cs[i]).value)
  {
    if |cs| == 0 then Success([])
    else
      match NewCacheBehaviour(cs[0])
      case Failure(e) => Failure(e)
      case Success(b) =>
        match NewCacheBehaviours(cs[1..])
        case Failure(e) => Failure(e)
        case Success(bs) => Success([b] + bs)
  }

  // ---------------------------------------------------------------------
  // Logging, viewer certificate, origins, geo restriction

  datatype LoggingInput = LoggingInput(enabled: Option<bool>, includeCookies: Option<bool>,
                                       bucket: Option<string>, prefix: Option<string>)
  datatype Logging = Logging(enabled: bool, includeCookies: bool, bucket: string, prefix: string)

  function NewLogging(c: LoggingInput): (r: Logging)
    ensures r.enabled == OrFalse(c.enabled) && r.includeCookies == OrFalse(c.includeCookies)
    ensures r.bucket == OrStr(c.bucket, "") && r.prefix == OrStr(c.prefix, "")
  {
    Logging(OrFalse(c.enabled), OrFalse(c.includeCookies), OrStr(c.bucket, ""), OrStr(c.prefix, ""))
  }

  datatype ViewerCertificateInput = ViewerCertificateInput(
    cloudFrontDefaultCertificate: Option<bool>, iamCertificateId: Option<string>, acmCertificateArn: Option<string>,
    sslSupportMethod: Option<string>, minimumProtocolVersion: Option<string>, certificate: Option<string>)

  datatype ViewerCertificate = ViewerCertificate(
    cloudFrontDefaultCertificate: bool, iamCertificateId: string, acmCertificateArn: string,
    sslSupportMethod: string, minimumProtocolVersion: string, certificateSource: string, certificate: string)

  /** `ViewerCertificate(config)`: the CloudFront default certificate, SNI
      and TLSv1 unless given; the source is always `cloudfront`. */
  function NewViewerCertificate(c: ViewerCertificateInput): (r: ViewerCertificate)
    ensures r.cloudFrontDefaultCertificate == c.cloudFrontDefaultCertificate.GetOr(true)
    ensures r.iamCertificateId == OrStr(c.iamCertificateId, "") && r.acmCertificateArn == OrStr(c.acmCertificateArn, "")
    ensures r.sslSupportMethod == OrStr(c.sslSupportMethod, "sni-only")
    ensures r.minimumProtocolVersion == OrStr(c.minimumProtocolVersion, "TLSv1")
    ensures r.certificateSource == "cloudfront" && r.certificate == c.certificate.GetOr("")
  {
    ViewerCertificate(c.cloudFrontDefaultCertificate.GetOr(true), OrStr(c.iamCertificateId, ""),
                      OrStr(c.acmCertificateArn, ""), OrStr(c.sslSupportMethod, "sni-only"),
                      OrStr(c.minimumProtocolVersion, "TLSv1"), "cloudfront", c.certificate.GetOr(""))
  }

  /** The viewer certificate dict `{}`. */
  const NoViewerCertificate := ViewerCertificateInput(None, None, None, None, None, None)

  datatype CustomOriginInput = CustomOriginInput(
    httpPort: Option<int>, httpsPort: Option<int>, keepaliveTimeout: Option<int>,
    protocolPolicy: Option<string>, readTimeout: Option<int>, sslProtocols: Option<seq<string>>)

  datatype CustomOriginConfig = CustomOriginConfig(
    httpPort: Option<int>, httpsPort: Option<int>, keepaliveTimeout: int,
    protocolPolicy: Option<string>, readTimeout: int, sslProtocols: Listing)

  /** `CustomOriginConfig(config)`: keep-alive 5 and read timeout 30 unless
      given, the SSL protocols counted. */
  function NewCustomOriginConfig(c: CustomOriginInput): (r: CustomOriginConfig)
    ensures r.httpPort == c.httpPort && r.httpsPort == c.httpsPort && r.protocolPolicy == c.protocolPolicy
    ensures r.keepaliveTimeout == OrInt(c.keepaliveTimeout, 5) && r.readTimeout == OrInt(c.readTimeout, 30)
    ensures r.sslProtocols.Counted() && r.sslProtocols.items == c.sslProtocols.GetOr([])
  {
    CustomOriginConfig(c.httpPort, c.httpsPort, OrInt(c.keepaliveTimeout, 5), c.protocolPolicy,
                       OrInt(c.readTimeout, 30), ListingOf(c.sslProtocols, []))
  }

  /** An `Origins.Items` entry; every key may be missing. `s3OriginConfig`
      is `None` without `S3OriginConfig`, `Some(None)` for an
      `S3OriginConfig` without `OriginAccessIdentity`, and `Some(Some(id))`
      otherwise. */
  datatype OriginInput = OriginInput(
    id: Option<string>, domainName: Option<string>, originPath: Option<string>, originShield: Option<Value>,
    connectionAttempts: Option<int>, connectionTimeout: Option<int>, s3OriginConfig: Option<Option<string>>,
    customOriginConfig: Option<CustomOriginInput>, customHeaders: Option<Value>)

  datatype Origin = Origin(
    id: string, domainName: string, originPath: string, s3AccessIdentity: string, originShield: Value,
    connectionAttempts: int, connectionTimeout: int, customOriginConfig: Option<CustomOriginConfig>,
    customHeaders: Value)

  /** An origin builds: it has `Id` and `DomainName`, and an S3 origin
      passes the "very rough" check (its domain ends with `amazonaws.com`)
      and names its access identity. */
  predicate OriginOk(o: OriginInput)
  {
    o.id.Some? && o.domainName.Some? &&
    (o.s3OriginConfig.Some? ==> EndsWith(o.domainName.value, "amazonaws.com") && o.s3OriginConfig.value.Some?)
  }

  /** `Origin(origin)`, with its checks in the source's order: `KeyError`
      without `Id` or `DomainName`, `DomainNameNotAnS3Bucket` for an S3
      origin outside `amazonaws.com`, then `KeyError` for an S3 origin
      without access identity; otherwise the origin with its defaults. */
  function NewOrigin(o: OriginInput): (r: Result<Origin, string>)
    ensures r.Success? <==> OriginOk(o)
    ensures o.id.None? || o.domainName.None? ==> r == Failure("KeyError")
    ensures o.id.Some? && o.domainName.Some? && o.s3OriginConfig.Some? && !EndsWith(o.domainName.value, "amazonaws.com") ==>
      r == Failure("DomainNameNotAnS3Bucket")
    ensures o.id.Some? && o.domainName.Some? && o.s3OriginConfig == Some(None) ==>
      r == Failure(if EndsWith(o.domainName.value, "amazonaws.com") then "KeyError" else "DomainNameNotAnS3Bucket")
    ensures r.Failure? ==> r.error in {"KeyError", "DomainNameNotAnS3Bucket"}
    ensures r.Success? ==> r.value.id == o.id.value && r.value.domainName == o.domainName.value
  {
    if o.id.None? || o.domainName.None? then Failure("KeyError")
    else if o.s3OriginConfig.Some? && !EndsWith(o.domainName.value, "amazonaws.com") then Failure("DomainNameNotAnS3Bucket")
    else if o.s3OriginConfig == Some(None) then Failure("KeyError")
    else Success(Origin(
      o.id.value, o.domainName.value, OrStr(o.originPath, ""), S3AccessIdentity(o),
      o.originShield.GetOr(VDict(map["Enabled" := VBool(false)])),
      OrInt(o.connectionAttempts, 3), OrInt(o.connectionTimeout, 10),
      if o.customOriginConfig.Some? then Some(NewCustomOriginConfig(o.customOriginConfig.value)) else None,
      o.customHeaders.GetOr(VDict(map["Quantity" := VInt(0), "Items" := VList([])]))))
  }

  /** The access identity an origin keeps: empty unless it is an S3 origin. */
  function S3AccessIdentity(o: OriginInput): string
  {
    if o.s3OriginConfig.Some? && o.s3OriginConfig.value.Some? then o.s3OriginConfig.value.value else ""
  }

  /** The defaults a built origin takes for each missing key. */
  lemma OriginDefaults(o: OriginInput)
    requires NewOrigin(o).Success?
    ensures
      var g := NewOrigin(o).value;
      g.id == o.id.value && g.domainName == o.domainName.value && g.originPath == OrStr(o.originPath, "") &&
      (o.s3OriginConfig.Some? ==> g.s3AccessIdentity == o.s3OriginConfig.value.value) &&
      (o.s3OriginConfig.None? ==> g.s3AccessIdentity == "") &&
      g.originShield == o.originShield.GetOr(VDict(map["Enabled" := VBool(false)])) &&
      g.connectionAttempts == OrInt(o.connectionAttempts, 3) && g.connectionTimeout == OrInt(o.connectionTimeout, 10) &&
      (g.customOriginConfig.Some? <==> o.customOriginConfig.Some?) &&
      (o.customOriginConfig.Some? ==> g.customOriginConfig.value == NewCustomOriginConfig(o.customOriginConfig.value)) &&
      g.customHeaders == o.customHeaders.GetOr(VDict(map["Quantity" := VInt(0), "Items" := VList([])]))
  {
  }

  /** `os[i]` is the first origin of `os` that does not build. */
  predicate FirstBadOrigin(os: seq<OriginInput>, i: nat)
    requires i < |os|
  {
    !OriginOk(os[i]) && forall j :: 0 <= j < i ==> OriginOk(os[j])
  }

  /** `[Origin(o) for o in items]`: the first origin that does not build raises. */
  function NewOrigins(os: seq<OriginInput>): (r: Result<seq<Origin>, string>)
    ensures r.Success? <==> forall i :: 0 <= i < |os| ==> OriginOk(os[i])
    ensures forall i :: 0 <= i < |os| && FirstBadOrigin(os, i) ==> r == Failure(NewOrigin(os[i]).error)
    ensures r.Failure? ==> r.error in {"KeyError", "DomainNameNotAnS3Bucket"}
    ensures r.Success? ==> (|r.value| == |os| &&
      forall i :: 0 <= i < |os| ==> r.value[i] == NewOrigin(os[i]).value)
  {
    if |os| == 0 then Success([])
    else
      match NewOrigin(os[0])
      case Failure(e) => Failure(e)
      case Success(g) =>
        match NewOrigins(os[1..])
        case Failure(e) => Failure(e)
        case Success(gs) => Success([g] + gs)
  }

  /** The ids of the origins, in order. */
  function OriginIds(os: seq<Origin>): (r: seq<string>)
    ensures |r| == |os| && forall i :: 0 <= i < |os| ==> r[i] == os[i].id
  {
    if |os| == 0 then [] else [os[0].id] + OriginIds(os[1..])
  }

  /** The `GeoRestriction` dict: `RestrictionType`, `Items`, and every other
      key it holds. */
  datatype GeoInput = GeoInput(restrictionType: Option<string>, items: Option<seq<string>>, others: map<string, Value>)

  /** The empty dict `{}` given for a geo restriction. */
  const NoGeo := GeoInput(None, None, map[])

  /** `GeoRestriction`: `items` is `None` when there are none. */
  datatype GeoRestriction = GeoRestriction(restrictionType: string, items: Option<seq<string>>, quantity: nat)

  /** `GeoRestriction(config)`: type `none` by default; the items counted,
      and replaced by `None` when there are none. */
  function NewGeoRestriction(c: GeoInput): (r: GeoRestriction)
    ensures r.restrictionType == c.restrictionType.GetOr("none")
    ensures r.quantity == |c.items.GetOr([])|
    ensures r.items.None? <==> r.quantity == 0
    ensures r.items.Some? ==> r.items.value == c.items.value
  {
    var xs := c.items.GetOr([]);
    GeoRestriction(c.restrictionType.GetOr("none"), if |xs| == 0 then None else Some(xs), |xs|)
  }

  // ---------------------------------------------------------------------
  // Distribution configuration

  /** `Aliases`; its `Items` may be missing. */
  datatype AliasesInput = AliasesInput(items: Option<seq<string>>)
  datatype Aliases = Aliases(quantity: nat, items: Option<seq<string>>)

  /** `CacheBehaviors`: its `Quantity` and `Items`, either of which may be missing. */
  datatype CacheBehaviorsInput = CacheBehaviorsInput(quantity: Option<int>, items: Option<seq<BehaviourInput>>)

  /** The `CacheBehaviors.Items` the config ends with: converted only when
      the quantity is non-zero, otherwise left as given. */
  datatype CacheItems = NoItems | RawItems(raw: seq<BehaviourInput>) | Built(behaviours: seq<CacheBehaviour>)
  datatype CacheBehaviors = CacheBehaviors(quantity: Option<int>, items: CacheItems)

  /** `Restrictions.GeoRestriction`: converted when present and non-empty,
      otherwise left as given (`None` when the key is missing). */
  datatype Restrictions = Geo(geo: GeoRestriction) | RawGeo(raw: Option<GeoInput>)

  /** The dict given to `DistributionConfig`; every key may be missing.
      `origins` is `None` without `Origins` and `Some(None)` for an
      `Origins` without `Items`.
      `others` holds the keys the source does not convert, such as
      `Comment` and `Enabled`, which `__dict__.update` stores as given. */
  datatype ConfigInput = ConfigInput(
    callerReference: Option<string>,
    aliases: Option<AliasesInput>,
    originGroups: Option<Value>,
    customErrorResponses: Option<Value>,
    viewerCertificate: Option<ViewerCertificateInput>,
    origins: Option<Option<seq<OriginInput>>>,
    cacheBehaviors: Option<CacheBehaviorsInput>,
    restrictions: Option<Option<GeoInput>>,
    logging: Option<LoggingInput>,
    defaultCacheBehavior: Option<BehaviourInput>,
    priceClass: Option<string>,
    httpVersion: Option<string>,
    isIpv6Enabled: Option<bool>,
    defaultRootObject: Option<string>,
    webAclId: Option<string>,
    others: map<string, Value>)

  /** The empty dict `{}` (falsy in `if not dist_config`). */
  const EmptyConfig := ConfigInput(None, None, None, None, None, None, None, None, None, None, None, None, None, None, None, map[])

  datatype DistributionConfig = DistributionConfig(
    callerReference: string,
    aliases: Aliases,
    originGroups: Value,
    customErrorResponses: Value,
    viewerCertificate: ViewerCertificate,
    origins: seq<Origin>,
    cacheBehaviors: CacheBehaviors,
    restrictions: Restrictions,
    logging: Logging,
    defaultCacheBehavior: CacheBehaviour,
    priceClass: string,
    httpVersion: string,
    isIpv6Enabled: bool,
    defaultRootObject: string,
    webAclId: string,
    others: map<string, Value>)
  {
    /** What every built configuration keeps: the aliases are counted and
        the default behaviour targets one of the origins. */
    predicate Consistent()
    {
      (aliases.items.Some? ==> aliases.quantity == |aliases.items.value|) &&
      (aliases.items.None? ==> aliases.quantity == 0) &&
      defaultCacheBehavior.targetOriginId in OriginIds(origins)
    }
  }

  /** `Aliases`: a missing key gives `{"Quantity": 0}`; otherwise the quantity
      is recounted from the items. */
  function NewAliases(a: Option<AliasesInput>): (r: Aliases)
    ensures a.None? ==> r == Aliases(0, None)
    ensures a.Some? ==> r.items == a.value.items && r.quantity == |a.value.items.GetOr([])|
  {
    match a
    case None => Aliases(0, None)
    case Some(x) => Aliases(|x.items.GetOr([])|, x.items)
  }

  /** Whether the cache behaviours are converted: `CacheBehaviors.Quantity` is truthy. */
  predicate ConvertsBehaviours(c: Option<CacheBehaviorsInput>)
  {
    c.Some? && c.value.quantity.Some? && c.value.quantity.value != 0
  }

  /** The cache behaviours convert: they are not converted, or their items
      are present and each has the keys read with `[...]`. */
  predicate BehavioursOk(c: Option<CacheBehaviorsInput>)
  {
    ConvertsBehaviours(c) ==>
      c.value.items.Some? && forall i :: 0 <= i < |c.value.items.value| ==> BehaviourOk(c.value.items.value[i])
  }

  function NewCacheBehaviors(c: Option<CacheBehaviorsInput>): (r: Result<CacheBehaviors, string>)
    ensures r.Success? <==> BehavioursOk(c)
    ensures r.Failure? ==> r.error == "KeyError"
    ensures c.None? ==> r == Success(CacheBehaviors(Some(0), NoItems))
    ensures r.Success? && ConvertsBehaviours(c) ==>
      r.value.quantity == c.value.quantity && r.value.items == Built(NewCacheBehaviours(c.value.items.value).value)
    ensures c.Some? && !ConvertsBehaviours(c) ==>
      r == Success(CacheBehaviors(c.value.quantity, if c.value.items.Some? then RawItems(c.value.items.value) else NoItems))
  {
    match c
    case None => Success(CacheBehaviors(Some(0), NoItems))
    case Some(cb) =>
      if cb.quantity.Some? && cb.quantity.value != 0 then
        if cb.items.None? then Failure("KeyError")
        else
          match NewCacheBehaviours(cb.items.value)
          case Failure(e) => Failure(e)
          case Success(bs) => Success(CacheBehaviors(cb.quantity, Built(bs)))
      else Success(CacheBehaviors(cb.quantity, if cb.items.Some? then RawItems(cb.items.value) else NoItems))
  }

  function NewRestrictions(r0: Option<Option<GeoInput>>): (r: Restrictions)
    ensures r0.None? ==> r == Geo(NewGeoRestriction(NoGeo))
    ensures r0.Some? && r0.value.Some? && r0.value.value != NoGeo ==> r == Geo(NewGeoRestriction(r0.value.value))
    ensures r0.Some? && (r0.value.None? || r0.value.value == NoGeo) ==> r == RawGeo(r0.value)
  {
    match r0
    case None => Geo(NewGeoRestriction(NoGeo))
    case Some(g) =>
      if g.Some? && g.value != NoGeo then Geo(NewGeoRestriction(g.value)) else RawGeo(g)
  }

  /** The config has `Origins` and the origins have `Items`. */
  predicate HasOriginItems(c: ConfigInput)
  {
    c.origins.Some? && c.origins.value.Some?
  }

  /** `config["Origins"]["Items"]` */
  function OriginItems(c: ConfigInput): seq<OriginInput>
    requires HasOriginItems(c)
  {
    c.origins.value.value
  }

  /** The config's keys read with `config[...]` are present. */
  predicate KeysPresent(c: ConfigInput)
  {
    HasOriginItems(c) && c.defaultCacheBehavior.Some? && c.callerReference.Some?
  }

  /** `DistributionConfig(config)`, with its checks in the source's order:
      the origins (missing `Origins` or `Items` is a `KeyError`, the first
      origin that does not build raises its error), the cache behaviours, the default
      behaviour, `OriginDoesNotExist` when the default behaviour's target is
      not among the origin ids, and finally the caller reference. */
  function NewDistributionConfig(c: ConfigInput): (r: Result<DistributionConfig, string>)
    ensures !HasOriginItems(c) ==> r == Failure("KeyError")
    ensures HasOriginItems(c) && NewOrigins(OriginItems(c)).Failure? ==> r == Failure(NewOrigins(OriginItems(c)).error)
    ensures r.Failure? ==> r.error in {"KeyError", "DomainNameNotAnS3Bucket", "OriginDoesNotExist"}
    ensures r.Failure? && r.error == "OriginDoesNotExist" ==>
      c.defaultCacheBehavior.Some? && c.defaultCacheBehavior.value.targetOriginId.Some? &&
      HasOriginItems(c) && c.defaultCacheBehavior.value.targetOriginId.value !in OriginIds(NewOrigins(OriginItems(c)).value)
    ensures r.Success? <==>
      KeysPresent(c) && (forall i :: 0 <= i < |OriginItems(c)| ==> OriginOk(OriginItems(c)[i])) &&
      BehavioursOk(c.cacheBehaviors) && BehaviourOk(c.defaultCacheBehavior.value) &&
      c.defaultCacheBehavior.value.targetOriginId.value in OriginIds(NewOrigins(OriginItems(c)).value)
    ensures r.Success? ==> r.value.Consistent()
  {
    if !HasOriginItems(c) then Failure("KeyError")
    else
      match NewOrigins(OriginItems(c))
      case Failure(e) => Failure(e)
      case Success(origins) =>
        match NewCacheBehaviors(c.cacheBehaviors)
        case Failure(e) => Failure(e)
        case Success(behaviours) =>
          match NewDefaultCacheBehaviour(c.defaultCacheBehavior.GetOr(NoBehaviour))
          case Failure(e) => Failure(e)
          case Success(default) =>
            if default.targetOriginId !in OriginIds(origins) then Failure("OriginDoesNotExist")
            else if c.callerReference.None? then Failure("KeyError")
            else Success(DistributionConfig(
              c.callerReference.value, NewAliases(c.aliases),
              c.originGroups.GetOr(VDict(map["Quantity" := VInt(0)])),
              c.customErrorResponses.GetOr(VDict(map["Quantity" := VInt(0)])),
              NewViewerCertificate(c.viewerCertificate.GetOr(NoViewerCertificate)),
              origins, behaviours, NewRestrictions(c.restrictions),
              NewLogging(c.logging.GetOr(LoggingInput(None, None, None, None))),
              default,
              c.priceClass.GetOr("PriceClass_All"), c.httpVersion.GetOr("http2"),
              c.isIpv6Enabled.GetOr(true), c.defaultRootObject.GetOr(""), c.webAclId.GetOr(""), c.others))
  }

  /** The defaults a built configuration takes for each missing key. */
  lemma ConfigDefaults(c: ConfigInput)
    requires NewDistributionConfig(c).Success?
    ensures
      var d := NewDistributionConfig(c).value;
      d.callerReference == c.callerReference.value && d.aliases == NewAliases(c.aliases) &&
      d.originGroups == c.originGroups.GetOr(VDict(map["Quantity" := VInt(0)])) &&
      d.customErrorResponses == c.customErrorResponses.GetOr(VDict(map["Quantity" := VInt(0)])) &&
      d.viewerCertificate == NewViewerCertificate(c.viewerCertificate.GetOr(NoViewerCertificate)) &&
      d.origins == NewOrigins(OriginItems(c)).value &&
      d.cacheBehaviors == NewCacheBehaviors(c.cacheBehaviors).value &&
      d.restrictions == NewRestrictions(c.restrictions) &&
      d.logging == NewLogging(c.logging.GetOr(LoggingInput(None, None, None, None))) &&
      d.defaultCacheBehavior == NewDefaultCacheBehaviour(c.defaultCacheBehavior.value).value &&
      d.priceClass == c.priceClass.GetOr("PriceClass_All") && d.httpVersion == c.httpVersion.GetOr("http2") &&
      d.isIpv6Enabled == c.isIpv6Enabled.GetOr(true) && d.defaultRootObject == c.defaultRootObject.GetOr("") &&
      d.webAclId == c.webAclId.GetOr("") && d.others == c.others
  {
  }

  /** The empty config is refused: it has no origins. So is a config that
      holds only keys the source does not convert, such as `Comment`, and
      one whose `Origins` has no `Items`; neither is empty. */
  lemma EmptyConfigRefused(others: map<string, Value>)
    ensures NewDistributionConfig(EmptyConfig) == Failure("KeyError")
    ensures others != map[] ==> EmptyConfig.(others := others) != EmptyConfig
    ensures NewDistributionConfig(EmptyConfig.(others := others)) == Failure("KeyError")
    ensures EmptyConfig.(origins := Some(None)) != EmptyConfig
    ensures NewDistributionConfig(EmptyConfig.(origins := Some(None))) == Failure("KeyError")
  {
  }

  /** A default behaviour aimed at an origin absent from the list is refused
      with `OriginDoesNotExist`, whatever else the config says. */
  lemma {:induction false} UnknownTargetRefused(c: ConfigInput)
    requires KeysPresent(c) && BehavioursOk(c.cacheBehaviors) && BehaviourOk(c.defaultCacheBehavior.value)
    requires forall i :: 0 <= i < |OriginItems(c)| ==>
      OriginOk(OriginItems(c)[i]) && OriginItems(c)[i].id != c.defaultCacheBehavior.value.targetOriginId
    ensures NewDistributionConfig(c) == Failure("OriginDoesNotExist")
  {
    var os := NewOrigins(OriginItems(c)).value;
    var ids := OriginIds(os);
    var t := c.defaultCacheBehavior.value.targetOriginId.value;
    assert t !in ids by {
      forall i | 0 <= i < |ids| ensures ids[i] != t {
        assert ids[i] == os[i].id == NewOrigin(OriginItems(c)[i]).value.id == OriginItems(c)[i].id.value;
      }
    }
  }

  // ---------------------------------------------------------------------
  // Distributions, invalidations, keys

  /** A `Distribution`; its ids and etag are drawn at random by the source
      and are given here. The managed `InProgress`/`Deployed` status is not
      modelled. */
  datatype Distribution = Distribution(id: string, arn: string, config: DistributionConfig, domainName: string, etag: string)

  /** Where the distribution is published. */
  function DistributionLocation(id: string): string
  {
    "https://cloudfront.amazonaws.com/2020-05-31/distribution/" + id
  }

  /** `Distribution(account_id, region_name, config)`; `partition` is what
      `get_partition(region_name)` returns. */
  function NewDistribution(accountId: string, partition: string, c: ConfigInput,
                           id: string, domainId: string, etag: string): (r: Result<Distribution, string>)
    ensures r.Success? <==> NewDistributionConfig(c).Success?
    ensures r.Failure? ==> r.error == NewDistributionConfig(c).error
    ensures r.Success? ==> r.value.id == id && r.value.etag == etag && r.value.config == NewDistributionConfig(c).value
    ensures r.Success? ==> r.value.arn == "arn:" + partition + ":cloudfront:" + accountId + ":distribution/" + id
    ensures r.Success? ==> r.value.domainName == domainId + ".cloudfront.net"
  {
    match NewDistributionConfig(c)
    case Failure(e) => Failure(e)
    case Success(cfg) =>
      Success(Distribution(id, "arn:" + partition + ":cloudfront:" + accountId + ":distribution/" + id,
                           cfg, domainId + ".cloudfront.net", etag))
  }

  /** An `Invalidation`, always `COMPLETED`. */
  datatype Invalidation = Invalidation(id: string, distributionId: string, status: string, paths: seq<string>, callerRef: string)
  {
    function Location(): string { DistributionLocation(distributionId) + "/invalidation/" + id }

    /** `invalidation_batch`: the paths counted, and the caller reference. */
    function Batch(): (r: (Listing, string))
      ensures r.0.Counted() && r.0.items == paths && r.1 == callerRef
    {
      (Listing(paths, |paths|), callerRef)
    }
  }

  /** A `PublicKey`; its comment is always empty. */
  datatype PublicKey = PublicKey(id: string, callerRef: string, name: string, encodedKey: string, comment: string, etag: string)

  /** The encoded key with its final newline: the XML transformation drops it. */
  function WithFinalNewline(key: string): (r: string)
    ensures EndsWith(r, "\n")
    ensures EndsWith(key, "\n") ==> r == key
    ensures !EndsWith(key, "\n") ==> r == key + "\n"
  {
    if EndsWith(key, "\n") then key else key + "\n"
  }

  /** Adding the final newline twice is adding it once. */
  lemma NewlineIdempotent(key: string)
    ensures WithFinalNewline(WithFinalNewline(key)) == WithFinalNewline(key)
  {
  }

  /** A `KeyGroup`: a name and the public key ids. */
  datatype KeyGroup = KeyGroup(id: string, name: string, items: seq<string>, etag: string)

  // ---------------------------------------------------------------------
  // Origin access controls

  /** The five configurable fields of an origin access control. */
  datatype OacFields = OacFields(name: Option<string>, description: Option<string>, signingProtocol: Option<string>,
                                 signingBehavior: Option<string>, originType: Option<string>)

  /** The config keys an origin access control reads. */
  const OacKeys: seq<string> := ["Name", "Description", "SigningProtocol", "SigningBehavior", "OriginAccessControlOriginType"]

  /** The field a config key sets. */
  function OacField(f: OacFields, key: string): Option<string>
  {
    if key == "Name" then f.name
    else if key == "Description" then f.description
    else if key == "SigningProtocol" then f.signingProtocol
    else if key == "SigningBehavior" then f.signingBehavior
    else if key == "OriginAccessControlOriginType" then f.originType
    else None
  }

  /** `config.get(key)` */
  function Get(config: map<string, string>, key: string): (r: Option<string>)
    ensures r.Some? <==> key in config
    ensures r.Some? ==> r.value == config[key]
  {
    if key in config then Some(config[key]) else None
  }

  /** The fields after `update(config)`: each field whose key is present
      takes the config's value; the others keep theirs. */
  function Updated(f: OacFields, config: map<string, string>): (r: OacFields)
    ensures forall k :: k in OacKeys ==> OacField(r, k) == if k in config then Some(config[k]) else OacField(f, k)
  {
    OacFields(
      if "Name" in config then Some(config["Name"]) else f.name,
      if "Description" in config then Some(config["Description"]) else f.description,
      if "SigningProtocol" in config then Some(config["SigningProtocol"]) else f.signingProtocol,
      if "SigningBehavior" in config then Some(config["SigningBehavior"]) else f.signingBehavior,
      if "OriginAccessControlOriginType" in config then Some(config["OriginAccessControlOriginType"]) else f.originType)
  }

  /** The fields a new control reads from its config. */
  function InitialFields(config: map<string, string>): (r: OacFields)
    ensures forall k :: k in OacKeys ==> OacField(r, k) == Get(config, k)
  {
    OacFields(Get(config, "Name"), Get(config, "Description"), Get(config, "SigningProtocol"),
              Get(config, "SigningBehavior"), Get(config, "OriginAccessControlOriginType"))
  }

  /** Updating with an empty config changes nothing. */
  lemma UpdateEmpty(f: OacFields)
    ensures Updated(f, map[]) == f
  {
  }

  /** Updating twice with the same config is updating once. */
  lemma UpdateIdempotent(f: OacFields, config: map<string, string>)
    ensures Updated(Updated(f, config), config) == Updated(f, config)
  {
  }

  /** A new control holds what updating a blank control with its config gives. */
  lemma CreateIsUpdateOfBlank(config: map<string, string>)
    ensures InitialFields(config) == Updated(OacFields(None, None, None, None, None), config)
  {
  }

  /** An `OriginAccessControl`, whose fields `update` assigns in place. */
  class OriginAccessControl {
    const id: string
    const etag: string
    var name: Option<string>
    var description: Option<string>
    var signingProtocol: Option<string>
    var signingBehavior: Option<string>
    var originType: Option<string>

    function Fields(): OacFields
      reads this
    {
      OacFields(name, description, signingProtocol, signingBehavior, originType)
    }

    constructor(config: map<string, string>, id: string, etag: string)
      ensures this.id == id && this.etag == etag
      ensures Fields() == InitialFields(config)
    {
      this.id := id;
      this.etag := etag;
      name := Get(config, "Name");
      description := Get(config, "Description");
      signingProtocol := Get(config, "SigningProtocol");
      signingBehavior := Get(config, "SigningBehavior");
      originType := Get(config, "OriginAccessControlOriginType");
    }

    /** `update(config)` */
    method Update(config: map<string, string>)
      modifies this
      ensures Fields() == Updated(old(Fields()), config)
    {
      if "Name" in config { name := Some(config["Name"]); }
      if "Description" in config { description := Some(config["Description"]); }
      if "SigningProtocol" in config { signingProtocol := Some(config["SigningProtocol"]); }
      if "SigningBehavior" in config { signingBehavior := Some(config["SigningBehavior"]); }
      if "OriginAccessControlOriginType" in config { originType := Some(config["OriginAccessControlOriginType"]); }
    }
  }

  // ---------------------------------------------------------------------
  // Lookups the backend performs

  /** The first distribution, in store order, with caller reference `ref`. */
  function FirstWithCallerReference(ds: seq<Distribution>, ref: string): (r: Option<Distribution>)
    ensures r.None? <==> forall i :: 0 <= i < |ds| ==> ds[i].config.callerReference != ref
  {
    if |ds| == 0 then None
    else if ds[0].config.callerReference == ref then Some(ds[0])
    else FirstWithCallerReference(ds[1..], ref)
  }

  /** What the first match is: a stored distribution with that caller
      reference, preceded by none. */
  lemma {:induction false} FirstWithCallerReferenceIsFirst(ds: seq<Distribution>, ref: string)
    requires FirstWithCallerReference(ds, ref).Some?
    ensures exists i :: (0 <= i < |ds| && ds[i] == FirstWithCallerReference(ds, ref).value &&
      ds[i].config.callerReference == ref && forall j :: 0 <= j < i ==> ds[j].config.callerReference != ref)
  {
    if ds[0].config.callerReference != ref {
      FirstWithCallerReferenceIsFirst(ds[1..], ref);
      var i :| 0 <= i < |ds[1..]| && ds[1..][i] == FirstWithCallerReference(ds[1..], ref).value &&
        ds[1..][i].config.callerReference == ref && forall j :: 0 <= j < i ==> ds[1..][j].config.callerReference != ref;
      assert ds[i + 1] == ds[1..][i];
      assert forall j :: 0 <= j < i + 1 ==> ds[j].config.callerReference != ref by {
        forall j | 0 <= j < i + 1 ensures ds[j].config.callerReference != ref {
          if j > 0 { assert ds[j] == ds[1..][j - 1]; }
        }
      }
    } else {
      assert ds[0] == FirstWithCallerReference(ds, ref).value;
    }
  }

  /** The first invalidation of a list with id `id`. */
  function FindInvalidation(invs: seq<Invalidation>, id: string): (r: Option<Invalidation>)
    ensures r.None? <==> forall i :: 0 <= i < |invs| ==> invs[i].id != id
    ensures r.Some? ==> r.value in invs && r.value.id == id
  {
    if |invs| == 0 then None
    else if invs[0].id == id then Some(invs[0])
    else FindInvalidation(invs[1..], id)
  }

  /** Python's `if not if_match`: a missing or empty value. */
  predicate IfMatchMissing(ifMatch: Option<string>)
  {
    ifMatch.None? || ifMatch.value == ""
  }

  // ---------------------------------------------------------------------
  // The backend

  /** A call the backend makes to its tagging service: tag a resource with
      key/value pairs, or untag it by key names. */
  datatype TagCall = TagWith(resource: string, tags: seq<(string, string)>) | UntagBy(resource: string, keys: seq<string>)

  /** `CloudFrontBackend`. `invalidations` is a plain dict keyed by
      distribution id (its order is never observed); the other stores are
      insertion-ordered. The tagging service itself is not part of this
      model: `tagCalls` records, in order, what the backend asks of it. */
  class CloudFrontBackend {
    const accountId: string
    const partition: string
    var distributions: ODict<Distribution>
    var invalidations: map<string, seq<Invalidation>>
    var originAccessControls: ODict<OriginAccessControl>
    var publicKeys: ODict<PublicKey>
    var keyGroups: ODict<KeyGroup>
    var tagCalls: seq<TagCall>

    ghost predicate Valid()
      reads this
    {
      distributions.Valid() && originAccessControls.Valid() && publicKeys.Valid() && keyGroups.Valid() &&
      (forall k :: k in distributions.m ==> distributions.m[k].id == k && distributions.m[k].config.Consistent()) &&
      (forall k :: k in publicKeys.m ==> EndsWith(publicKeys.m[k].encodedKey, "\n"))
    }

    constructor(accountId: string, partition: string)
      ensures Valid() && this.accountId == accountId && this.partition == partition
      ensures distributions == EmptyDict() && invalidations == map[]
      ensures originAccessControls == EmptyDict() && publicKeys == EmptyDict() && keyGroups == EmptyDict()
      ensures tagCalls == []
    {
      this.accountId := accountId;
      this.partition := partition;
      distributions := EmptyDict();
      invalidations := map[];
      originAccessControls := EmptyDict();
      publicKeys := EmptyDict();
      keyGroups := EmptyDict();
      tagCalls := [];
    }

    /** `_distribution_with_caller_reference`: a scan in store order. */
    method DistributionWithCallerReference(ref: string) returns (r: Option<Distribution>)
      requires Valid()
      ensures r == FirstWithCallerReference(distributions.Values(), ref)
    {
      var ds := distributions.Values();
      var i := 0;
      while i < |ds|
        invariant 0 <= i <= |ds|
        invariant FirstWithCallerReference(ds[i..], ref) == FirstWithCallerReference(ds, ref)
      {
        if ds[i].config.callerReference == ref {
          return Some(ds[i]);
        }
        assert ds[i..][1..] == ds[i + 1..];
        i := i + 1;
      }
      return None;
    }

    /** `self.distributions[d.id] = d`: the only way the store grows or a
        stored distribution changes. */
    method Store(d: Distribution)
      requires Valid() && d.config.Consistent()
      modifies this`distributions
      ensures Valid()
      ensures distributions == old(distributions).Put(d.id, d)
    {
      distributions := distributions.Put(d.id, d);
    }

    /** `create_distribution_with_tags` (and `create_distribution`, which
        calls it): the config is built first, and a caller reference that
        is already in use gives `DistributionAlreadyExists` with the store
        unchanged. The tags go to the tagging service. */
    method CreateDistributionWithTags(c: ConfigInput, tags: seq<(string, string)>, id: string, domainId: string, etag: string)
      returns (r: Result<(Distribution, string, string), string>)
      requires Valid()
      modifies this`distributions, this`tagCalls
      ensures Valid()
      ensures var made := NewDistribution(accountId, partition, c, id, domainId, etag);
        (made.Failure? ==> r == Failure(made.error)) &&
        (made.Success? && FirstWithCallerReference(old(distributions.Values()), made.value.config.callerReference).Some? ==>
           r == Failure("DistributionAlreadyExists")) &&
        (made.Success? && FirstWithCallerReference(old(distributions.Values()), made.value.config.callerReference).None? ==>
           r == Success((made.value, DistributionLocation(id), etag)))
      ensures r.Success? ==> distributions == old(distributions).Put(id, r.value.0)
      ensures r.Success? ==> tagCalls == old(tagCalls) + [TagWith(r.value.0.arn, tags)]
      ensures r.Failure? ==> distributions == old(distributions) && tagCalls == old(tagCalls)
    {
      var made := NewDistribution(accountId, partition, c, id, domainId, etag);
      if made.Failure? {
        return Failure(made.error);
      }
      var dist := made.value;
      var existing := DistributionWithCallerReference(dist.config.callerReference);
      if existing.Some? {
        return Failure("DistributionAlreadyExists");
      }
      StoreTagged(dist, tags);
      r := Success((dist, DistributionLocation(dist.id), dist.etag));
    }

    /** Storing a new distribution and asking for its tags. */
    method StoreTagged(d: Distribution, tags: seq<(string, string)>)
      requires Valid() && d.config.Consistent()
      modifies this`distributions, this`tagCalls
      ensures Valid()
      ensures distributions == old(distributions).Put(d.id, d)
      ensures tagCalls == old(tagCalls) + [TagWith(d.arn, tags)]
    {
      Store(d);
      tagCalls := tagCalls + [TagWith(d.arn, tags)];
    }

    /** `get_distribution` */
    function GetDistribution(id: string): (r: Result<(Distribution, string), string>)
      reads this
      ensures r.Success? <==> id in distributions.m
      ensures r.Success? ==> r.value == (distributions.m[id], distributions.m[id].etag)
      ensures r.Failure? ==> r.error == "NoSuchDistribution"
    {
      if id !in distributions.m then Failure("NoSuchDistribution")
      else Success((distributions.m[id], distributions.m[id].etag))
    }

    /** `get_distribution_config` */
    function GetDistributionConfig(id: string): (r: Result<(DistributionConfig, string), string>)
      reads this
      ensures r.Success? <==> id in distributions.m
      ensures r.Success? ==> r.value == (distributions.m[id].config, distributions.m[id].etag)
      ensures r.Failure? ==> r.error == "NoSuchDistribution"
    {
      match GetDistribution(id)
      case Failure(e) => Failure(e)
      case Success((d, etag)) => Success((d.config, etag))
    }

    /** `delete_distribution`: a missing IfMatch is refused before the id is
        looked up; only that distribution goes, its invalidations stay. */
    method DeleteDistribution(id: string, ifMatch: Option<string>) returns (r: Result<(), string>)
      requires Valid()
      modifies this`distributions
      ensures Valid()
      ensures IfMatchMissing(ifMatch) ==> r == Failure("InvalidIfMatchVersion")
      ensures !IfMatchMissing(ifMatch) && id !in old(distributions.m) ==> r == Failure("NoSuchDistribution")
      ensures r.Success? <==> !IfMatchMissing(ifMatch) && id in old(distributions.m)
      ensures r.Success? ==> distributions == old(distributions).Del(id)
      ensures r.Failure? ==> distributions == old(distributions)
    {
      if IfMatchMissing(ifMatch) {
        return Failure("InvalidIfMatchVersion");
      }
      if id !in distributions.m {
        return Failure("NoSuchDistribution");
      }
      distributions := distributions.Del(id);
      r := Success(());
    }

    /** `list_distributions`: every distribution, in store order. */
    function ListDistributions(): (r: seq<Distribution>)
      reads this
      requires Valid()
      ensures |r| == |distributions.keys|
      ensures forall i :: 0 <= i < |r| ==> r[i] == distributions.m[distributions.keys[i]]
      ensures forall d :: d in r <==> d in distributions.m.Values
    {
      ValuesAreEntries(distributions);
      distributions.Values()
    }

    /** `update_distribution`: checks the id, then IfMatch, then that the
        config is not empty, then builds the new config; only the config of
        that distribution changes, and it keeps its place in the store. */
    method UpdateDistribution(c: ConfigInput, id: string, ifMatch: Option<string>)
      returns (r: Result<(Distribution, string, string), string>)
      requires Valid()
      modifies this`distributions
      ensures Valid()
      ensures id !in old(distributions.m) ==> r == Failure("NoSuchDistribution")
      ensures id in old(distributions.m) && IfMatchMissing(ifMatch) ==> r == Failure("InvalidIfMatchVersion")
      ensures id in old(distributions.m) && !IfMatchMissing(ifMatch) && c == EmptyConfig ==> r == Failure("NoSuchDistribution")
      ensures id in old(distributions.m) && !IfMatchMissing(ifMatch) && c != EmptyConfig ==>
        var built := NewDistributionConfig(c);
        (built.Failure? ==> r == Failure(built.error)) &&
        (built.Success? ==> (
          var d := old(distributions.m)[id].(config := built.value);
          r == Success((d, DistributionLocation(id), d.etag)) && distributions == old(distributions).Put(id, d)))
      ensures r.Success? ==> distributions.keys == old(distributions.keys)
      ensures r.Failure? ==> distributions == old(distributions)
    {
      if id !in distributions.m {
        return Failure("NoSuchDistribution");
      }
      if IfMatchMissing(ifMatch) {
        return Failure("InvalidIfMatchVersion");
      }
      if c == EmptyConfig {
        return Failure("NoSuchDistribution");
      }
      var built := NewDistributionConfig(c);
      if built.Failure? {
        return Failure(built.error);
      }
      var d := distributions.m[id].(config := built.value);
      Store(d);
      r := Success((d, DistributionLocation(id), d.etag));
    }

    /** `create_invalidation`: the distribution must exist; the new
        invalidation goes at the end of its list, which starts empty. */
    method CreateInvalidation(distId: string, paths: seq<string>, callerRef: string, id: string)
      returns (r: Result<Invalidation, string>)
      requires Valid()
      modifies this`invalidations
      ensures Valid()
      ensures distId !in distributions.m ==> r == Failure("NoSuchDistribution") && invalidations == old(invalidations)
      ensures distId in distributions.m ==>
        r == Success(Invalidation(id, distId, "COMPLETED", paths, callerRef)) &&
        invalidations == old(invalidations)[distId := old(ListInvalidations(distId)) + [r.value]]
    {
      if distId !in distributions.m {
        return Failure("NoSuchDistribution");
      }
      var inv := Invalidation(id, distId, "COMPLETED", paths, callerRef);
      // appending to the existing list, or starting one on a KeyError
      var prior := ListInvalidations(distId);
      invalidations := invalidations[distId := prior + [inv]];
      r := Success(inv);
    }

    /** `list_invalidations`: the distribution's invalidations, `[]` when
        there are none (whether or not the distribution exists). */
    function ListInvalidations(distId: string): (r: seq<Invalidation>)
      reads this
      ensures distId in invalidations ==> r == invalidations[distId]
      ensures distId !in invalidations ==> r == []
    {
      if distId in invalidations then invalidations[distId] else []
    }

    /** `get_invalidation`: `NoSuchDistribution` for an unknown
        distribution, then a scan of its invalidations in order. */
    method GetInvalidation(distId: string, id: string) returns (r: Result<Invalidation, string>)
      ensures distId !in distributions.m ==> r == Failure("NoSuchDistribution")
      ensures distId in distributions.m ==>
        var found := FindInvalidation(ListInvalidations(distId), id);
        (found.Some? ==> r == Success(found.value)) && (found.None? ==> r == Failure("NoSuchInvalidation"))
    {
      if distId !in distributions.m {
        return Failure("NoSuchDistribution");
      }
      var invs := ListInvalidations(distId);
      var i := 0;
      while i < |invs|
        invariant 0 <= i <= |invs|
        invariant FindInvalidation(invs[i..], id) == FindInvalidation(invs, id)
      {
        if invs[i].id == id {
          return Success(invs[i]);
        }
        assert invs[i..][1..] == invs[i + 1..];
        i := i + 1;
      }
      return Failure("NoSuchInvalidation");
    }

    /** `tag_resource`: handed to the tagging service. */
    method TagResource(resource: string, tags: seq<(string, string)>)
      modifies this`tagCalls
      ensures tagCalls == old(tagCalls) + [TagWith(resource, tags)]
    {
      tagCalls := tagCalls + [TagWith(resource, tags)];
    }

    /** `untag_resource`: handed to the tagging service. */
    method UntagResource(resource: string, keys: seq<string>)
      modifies this`tagCalls
      ensures tagCalls == old(tagCalls) + [UntagBy(resource, keys)]
    {
      tagCalls := tagCalls + [UntagBy(resource, keys)];
    }

    /** `create_origin_access_control` */
    method CreateOriginAccessControl(config: map<string, string>, id: string, etag: string)
      returns (r: OriginAccessControl)
      requires Valid()
      modifies this`originAccessControls
      ensures Valid() && fresh(r)
      ensures r.id == id && r.etag == etag && r.Fields() == InitialFields(config)
      ensures originAccessControls == old(originAccessControls).Put(id, r)
    {
      r := new OriginAccessControl(config, id, etag);
      originAccessControls := originAccessControls.Put(id, r);
    }

    /** `get_origin_access_control` */
    function GetOriginAccessControl(id: string): (r: Result<OriginAccessControl, string>)
      reads this
      ensures r.Success? <==> id in originAccessControls.m
      ensures r.Success? ==> r.value == originAccessControls.m[id]
      ensures r.Failure? ==> r.error == "NoSuchOriginAccessControl"
    {
      if id !in originAccessControls.m then Failure("NoSuchOriginAccessControl")
      else Success(originAccessControls.m[id])
    }

    /** `update_origin_access_control`: only that control's fields change,
        and only those whose keys the config holds. */
    method UpdateOriginAccessControl(id: string, config: map<string, string>)
      returns (r: Result<OriginAccessControl, string>)
      modifies if id in originAccessControls.m then {originAccessControls.m[id]} else {}
      ensures id !in originAccessControls.m ==> r == Failure("NoSuchOriginAccessControl")
      ensures id in originAccessControls.m ==>
        r == Success(originAccessControls.m[id]) && r.value.Fields() == Updated(old(r.value.Fields()), config)
    {
      var found := GetOriginAccessControl(id);
      if found.Failure? {
        return Failure(found.error);
      }
      var control := found.value;
      control.Update(config);
      r := Success(control);
    }

    /** `list_origin_access_controls` */
    function ListOriginAccessControls(): (r: seq<OriginAccessControl>)
      reads this
      requires Valid()
      ensures |r| == |originAccessControls.keys|
      ensures forall i :: 0 <= i < |r| ==> r[i] == originAccessControls.m[originAccessControls.keys[i]]
    {
      originAccessControls.Values()
    }

    /** `delete_origin_access_control`: `dict.pop` without a default, so an
        unknown id raises `KeyError`. */
    method DeleteOriginAccessControl(id: string) returns (r: Result<(), string>)
      requires Valid()
      modifies this`originAccessControls
      ensures Valid()
      ensures r.Success? <==> id in old(originAccessControls.m)
      ensures r.Failure? ==> r.error == "KeyError" && originAccessControls == old(originAccessControls)
      ensures r.Success? ==> originAccessControls == old(originAccessControls).Del(id)
    {
      if id !in originAccessControls.m {
        return Failure("KeyError");
      }
      originAccessControls := originAccessControls.Del(id);
      r := Success(());
    }

    /** `create_public_key`: the stored key ends with a newline. */
    method CreatePublicKey(callerRef: string, name: string, encodedKey: string, id: string, etag: string)
      returns (r: PublicKey)
      requires Valid()
      modifies this`publicKeys
      ensures Valid()
      ensures r == PublicKey(id, callerRef, name, WithFinalNewline(encodedKey), "", etag)
      ensures EndsWith(r.encodedKey, "\n")
      ensures publicKeys == old(publicKeys).Put(id, r)
    {
      r := PublicKey(id, callerRef, name, WithFinalNewline(encodedKey), "", etag);
      publicKeys := publicKeys.Put(id, r);
    }

    /** `get_public_key`: a plain dict lookup, `KeyError` when missing. */
    function GetPublicKey(id: string): (r: Result<PublicKey, string>)
      reads this
      ensures r.Success? <==> id in publicKeys.m
      ensures r.Success? ==> r.value == publicKeys.m[id]
      ensures r.Failure? ==> r.error == "KeyError"
    {
      if id in publicKeys.m then Success(publicKeys.m[id]) else Failure("KeyError")
    }

    /** `delete_public_key`: `pop(key_id, None)`, so it always succeeds. */
    method DeletePublicKey(id: string)
      requires Valid()
      modifies this`publicKeys
      ensures Valid()
      ensures id in old(publicKeys.m) ==> publicKeys == old(publicKeys).Del(id)
      ensures id !in old(publicKeys.m) ==> publicKeys == old(publicKeys)
      ensures id !in publicKeys.m
    {
      if id in publicKeys.m {
        publicKeys := publicKeys.Del(id);
      }
    }

    /** `list_public_keys` */
    function ListPublicKeys(): (r: seq<PublicKey>)
      reads this
      requires Valid()
      ensures |r| == |publicKeys.keys|
      ensures forall i :: 0 <= i < |r| ==> r[i] == publicKeys.m[publicKeys.keys[i]] && EndsWith(r[i].encodedKey, "\n")
    {
      publicKeys.Values()
    }

    /** `create_key_group` */
    method CreateKeyGroup(name: string, items: seq<string>, id: string, etag: string) returns (r: KeyGroup)
      requires Valid()
      modifies this`keyGroups
      ensures Valid()
      ensures r == KeyGroup(id, name, items, etag)
      ensures keyGroups == old(keyGroups).Put(id, r)
    {
      r := KeyGroup(id, name, items, etag);
      keyGroups := keyGroups.Put(id, r);
    }

    /** `get_key_group`: a plain dict lookup, `KeyError` when missing. */
    function GetKeyGroup(id: string): (r: Result<KeyGroup, string>)
      reads this
      ensures r.Success? <==> id in keyGroups.m
      ensures r.Success? ==> r.value == keyGroups.m[id]
      ensures r.Failure? ==> r.error == "KeyError"
    {
      if id in keyGroups.m then Success(keyGroups.m[id]) else Failure("KeyError")
    }

    /** `list_key_groups` */
    function ListKeyGroups(): (r: seq<KeyGroup>)
      reads this
      requires Valid()
      ensures |r| == |keyGroups.keys|
      ensures forall i :: 0 <= i < |r| ==> r[i] == keyGroups.m[keyGroups.keys[i]]
    {
      keyGroups.Values()
    }
  }
}
