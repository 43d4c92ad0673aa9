/** Shapes and service/operation models, and the trait predicates moto adds
    on top of the botocore model (moto/core/model.py). A shape's
    `serialization` and `metadata` dictionaries become records whose
    absent keys are `None`. */
module Shapes {
  import opened Wrappers
  import opened Values

  datatype ScalarType = SString | SBoolean | SInteger | SLong | SFloat | SDouble | SBlob | STimestamp

  datatype XmlNamespace = XmlNamespace(uri: string, prefix: Option<string>)

  /** The serialization traits of a shape or member. `name` is the
      `locationName`. */
  datatype Serialization = Serialization(
    name: Option<string>,
    queryName: Option<string>,
    location: Option<string>,
    flattened: Option<bool>,
    xmlAttribute: Option<bool>,
    xmlNamespace: Option<XmlNamespace>,
    payload: Option<string>,
    jsonvalue: Option<bool>,
    eventheader: Option<bool>,
    resultWrapper: Option<string>,
    timestampFormat: Option<string>,
    hostLabel: Option<bool>)

  /** The `error` trait of an exception shape. */
  datatype ErrorTrait = ErrorTrait(
    code: Option<string>,
    httpStatusCode: Option<int>,
    senderFault: Option<bool>,
    codeAliases: Option<seq<string>>)

  datatype Metadata = Metadata(
    default: Option<Value>,
    required: seq<string>,
    exception: Option<bool>,
    error: Option<ErrorTrait>,
    max: Option<int>,
    enum: seq<string>,
    document: bool)

  const NoTraits := Serialization(None, None, None, None, None, None, None, None, None, None, None, None)
  const NoMetadata := Metadata(None, [], None, None, None, [], false)

  datatype Member = Member(name: string, shape: Shape)

  /** A shape: a structure with ordered members, a list, a map, or a scalar. */
  datatype Shape =
    | Structure(ser: Serialization, meta: Metadata, members: seq<Member>)
    | ListOf(ser: Serialization, meta: Metadata, member: Shape)
    | MapOf(ser: Serialization, meta: Metadata, key: Shape, value: Shape)
    | Scalar(ser: Serialization, meta: Metadata, scalar: ScalarType)

  /** `shape.serialization.get("name", default_name)` */
  function SerializedName(s: Shape, default: string): string
  {
    s.ser.name.GetOr(default)
  }

  /** `shape.members[name]`: the member of that name, the first of it;
      `None` where Python raises `KeyError`. */
  function MemberNamed(ms: seq<Member>, name: string): (r: Option<Shape>)
    ensures r.None? <==> forall i :: 0 <= i < |ms| ==> ms[i].name != name
    ensures r.Some? ==> exists i :: 0 <= i < |ms| && ms[i].name == name && ms[i].shape == r.value
  {
    if |ms| == 0 then None
    else if ms[0].name == name then Some(ms[0].shape)
    else MemberNamed(ms[1..], name)
  }

  /** A streaming payload: a string or blob shape. */
  predicate IsStream(s: Shape)
  {
    s.Scalar? && (s.scalar == SString || s.scalar == SBlob)
  }

  /** `is_flattened`: the `flattened` trait, `False` when absent. */
  function IsFlattened(s: Shape): (r: bool)
    ensures s.ser.flattened.None? ==> !r
    ensures r <==> s.ser.flattened == Some(true)
  {
    s.ser.flattened.GetOr(false)
  }

  /** `is_http_header_trait`: the member is bound to one header or to a header prefix. */
  predicate IsHttpHeaderTrait(s: Shape)
  {
    s.ser.location == Some("header") || s.ser.location == Some("headers")
  }

  /** `is_json_value_header`: a string shape bound to a header and marked `jsonvalue`. */
  predicate IsJsonValueHeader(s: Shape)
  {
    s.Scalar? && s.scalar == SString && s.ser.jsonvalue == Some(true) && s.ser.location == Some("header")
  }

  /** `is_not_bound_to_body`: any `location` trait takes the member out of the body. */
  predicate IsNotBoundToBody(s: Shape)
  {
    s.ser.location.Some?
  }

  /** Every header-bound member is also out of the body, and a member with no
      location is neither. */
  lemma HeaderTraitNotInBody(s: Shape)
    ensures IsHttpHeaderTrait(s) ==> IsNotBoundToBody(s)
    ensures s.ser.location.None? ==> !IsHttpHeaderTrait(s) && !IsNotBoundToBody(s)
  {
  }

  /** `StructureShape.error_code_aliases` */
  function ErrorCodeAliases(s: Shape): (aliases: seq<string>)
    ensures s.meta.exception != Some(true) ==> aliases == []
    ensures s.meta.exception == Some(true) && s.meta.error.Some? && s.meta.error.value.codeAliases.Some?
      ==> aliases == s.meta.error.value.codeAliases.value
    ensures (s.meta.error.None? || s.meta.error.value.codeAliases.None?) ==> aliases == []
  {
    if !s.meta.exception.GetOr(false) then []
    else match s.meta.error
      case None => []
      case Some(e) => e.codeAliases.GetOr([])
  }

  /** `ServiceModel.is_query_compatible` over the service metadata dictionary. */
  predicate IsQueryCompatible(serviceMetadata: map<string, Value>)
  {
    "awsQueryCompatible" in serviceMetadata
  }

  /** The class a resolved shape is instantiated with. */
  datatype ShapeClass = BotocoreShape | MotoShape | MotoStructureShape | MotoListShape | MotoMapShape | MotoStringShape

  predicate IsMotoClass(c: ShapeClass) { c != BotocoreShape }

  datatype ResolvedShape = ResolvedShape(cls: ShapeClass, name: string, model: map<string, Value>)

  datatype ResolveError = NoShapeFound(shapeName: string) | InvalidShape(shapeName: string)

  /** moto's `SHAPE_CLASSES` table, looked up by the base resolver with the
      base botocore `Shape` as its fallback. */
  function ClassForType(typeName: Value): ShapeClass
  {
    if typeName == VStr("structure") then MotoStructureShape
    else if typeName == VStr("list") then MotoListShape
    else if typeName == VStr("map") then MotoMapShape
    else if typeName == VStr("string") then MotoStringShape
    else BotocoreShape
  }

  /** `ShapeResolver.get_shape_by_name`: the base lookup (missing shape,
      missing `type`, member traits laid over the shape's own model), then
      wrapping of a result that is not a moto `Shape`. */
  function GetShapeByName(shapeMap: map<string, map<string, Value>>, shapeName: string, memberTraits: map<string, Value>)
    : (r: Result<ResolvedShape, ResolveError>)
    ensures shapeName !in shapeMap ==> r == Failure(NoShapeFound(shapeName))
    ensures shapeName in shapeMap && "type" !in shapeMap[shapeName] ==> r == Failure(InvalidShape(shapeName))
    ensures r.Success? <==> shapeName in shapeMap && "type" in shapeMap[shapeName]
    ensures r.Success? ==> IsMotoClass(r.value.cls) && r.value.name == shapeName
    ensures r.Success? ==> r.value.model.Keys == shapeMap[shapeName].Keys + memberTraits.Keys
    ensures r.Success? ==> forall k :: k in memberTraits ==> r.value.model[k] == memberTraits[k]
    ensures r.Success? ==> forall k :: k in shapeMap[shapeName] && k !in memberTraits ==> r.value.model[k] == shapeMap[shapeName][k]
    ensures r.Success? ==> var t := shapeMap[shapeName]["type"];
      (t == VStr("structure") ==> r.value.cls == MotoStructureShape) &&
      (t == VStr("list") ==> r.value.cls == MotoListShape) &&
      (t == VStr("map") ==> r.value.cls == MotoMapShape) &&
      (t == VStr("string") ==> r.value.cls == MotoStringShape) &&
      (t !in {VStr("structure"), VStr("list"), VStr("map"), VStr("string")} ==> r.value.cls == MotoShape)
  {
    if shapeName !in shapeMap then Failure(NoShapeFound(shapeName))
    else
      var model := shapeMap[shapeName];
      if "type" !in model then Failure(InvalidShape(shapeName))
      else
        var cls := ClassForType(model["type"]);
        var merged := model + memberTraits;
        Success(ResolvedShape(if IsMotoClass(cls) then cls else MotoShape, shapeName, merged))
  }

  /** An operation's HTTP binding. */
  datatype Http = Http(verb: Option<string>, requestUri: Option<string>, authPath: Option<string>)

  /** An operation: its HTTP binding, input and output shapes, whether it
      is deprecated, and its `endpoint` trait: `None` when the operation has
      none, `Some(None)` for one without a `hostPrefix`. */
  datatype OperationModel = OperationModel(
    name: string,
    http: Http,
    input: Option<Shape>,
    output: Option<Shape>,
    deprecated: bool,
    endpoint: Option<Option<string>>)

  /** The service metadata the engine reads. */
  datatype ServiceMetadata = ServiceMetadata(
    protocol: string,
    targetPrefix: Option<string>,
    xmlNamespace: Option<string>,
    endpointPrefix: string)
}
