/** The helpers of `BaseRestSerializer` in moto/motocore/serialize.py:
    parameters are split by their member's `location` into URI, query
    string, header and body parts, the request URI template is rendered
    with percent-encoded values, and the body payload is chosen. */
module RestSerialize {
  import opened Wrappers
  import opened Values
  import opened Strs
  import opened Shapes
  import S = Serialize

  /** One user parameter; a Python dict of them keeps its order, so the
      parameters are a sequence (with distinct names in practice). */
  datatype Param = Param(name: string, value: Value)

  /** `QUERY_STRING_TIMESTAMP_FORMAT` and `HEADER_TIMESTAMP_FORMAT`. */
  const QueryStringTimestampFormat := "iso8601"
  const HeaderTimestampFormat := "rfc822"

  /** The characters `percent_encode` leaves alone by default, and the
      ones a greedy label keeps. */
  const DefaultSafe := "-._~"
  const GreedySafe := "/~"

  /** The `partitioned` dict of `serialize_to_request`. */
  datatype Partitioned = Partitioned(
    uri: map<string, Value>,
    qs: map<string, Value>,
    body: map<string, Value>,
    headers: map<string, Value>)

  const NoParts := Partitioned(map[], map[], map[], map[])

  /** `_convert_header_value`: timestamps in the member's format (RFC 822
      by default), JSON-value headers as base64 of their compact JSON text. */
  function HeaderValue(c: Codecs, f: S.Formats, s: Shape, v: Value): (r: Value)
    ensures (s.Scalar? && s.scalar == STimestamp) || IsJsonValueHeader(s) ==> r.VStr?
    ensures s.Scalar? && s.scalar == STimestamp && s.ser.timestampFormat.None? ==>
      r == VStr(f.timestampText(v, HeaderTimestampFormat))
    ensures !(s.Scalar? && s.scalar == STimestamp) && IsJsonValueHeader(s) ==>
      r == VStr(c.b64encode(f.utf8(f.compactDumps(v))))
    ensures !(s.Scalar? && s.scalar == STimestamp) && !IsJsonValueHeader(s) ==> r == v
  {
    if s.Scalar? && s.scalar == STimestamp then VStr(f.timestampText(v, s.ser.timestampFormat.GetOr(HeaderTimestampFormat)))
    else if IsJsonValueHeader(s) then VStr(c.b64encode(f.utf8(f.compactDumps(v))))
    else v
  }

  /** `_do_serialize_header_map`: each key of the dict under the prefix. */
  function PrefixKeys(prefix: string, d: map<string, Value>): (r: map<string, Value>)
    ensures forall k :: k in d ==> prefix + k in r && r[prefix + k] == d[k]
    ensures forall k :: k in r ==> StartsWith(k, prefix) && k[|prefix|..] in d
  {
    assert forall a: string, b: string :: prefix + a == prefix + b ==> a == b by {
      forall a: string, b: string | prefix + a == prefix + b
        ensures a == b
      {
        assert a == (prefix + a)[|prefix|..];
        assert b == (prefix + b)[|prefix|..];
      }
    }
    map k | k in d :: prefix + k := d[k]
  }

  /** `_partition_parameters` for one parameter. */
  function Place(c: Codecs, f: S.Formats, ms: seq<Member>, part: Partitioned, p: Param): Result<Partitioned, string>
  {
    match MemberNamed(ms, p.name)
    case None => Failure("KeyError")
    case Some(m) =>
      var key := SerializedName(m, p.name);
      var v := p.value;
      match m.ser.location
      case Some("uri") => Success(part.(uri := part.uri[key := v]))
      case Some("querystring") =>
        if v.VDict? then Success(part.(qs := part.qs + v.fields))
        else if v.VBool? then Success(part.(qs := part.qs[key := VStr(if v.b then "true" else "false")]))
        else if m.Scalar? && m.scalar == STimestamp then
          Success(part.(qs := part.qs[key := VStr(f.timestampText(v, m.ser.timestampFormat.GetOr(QueryStringTimestampFormat)))]))
        else Success(part.(qs := part.qs[key := v]))
      case Some("header") => Success(part.(headers := part.headers[key := VStr(S.Str(f, HeaderValue(c, f, m, v)))]))
      case Some("headers") =>
        if v.VDict? then Success(part.(headers := part.headers + PrefixKeys(key, v.fields)))
        else Failure("AttributeError")
      case _ => Success(part.(body := part.body[p.name := v]))
  }

  /** The partition loop of `serialize_to_request` from parameter `i` on;
      parameters whose value is `None` are skipped. */
  function Partition(c: Codecs, f: S.Formats, ms: seq<Member>, ps: seq<Param>, i: nat, part: Partitioned)
    : Result<Partitioned, string>
    requires i <= |ps|
    decreases |ps| - i
  {
    if i == |ps| then Success(part)
    else if ps[i].value == VNone then Partition(c, f, ms, ps, i + 1, part)
    else
      var next :- Place(c, f, ms, part, ps[i]);
      Partition(c, f, ms, ps, i + 1, next)
  }

  /** The loop that fills `partitioned`. */
  method PartitionParameters(c: Codecs, f: S.Formats, ms: seq<Member>, ps: seq<Param>)
    returns (r: Result<Partitioned, string>)
    ensures r == Partition(c, f, ms, ps, 0, NoParts)
  {
    var partitioned := NoParts;
    var i := 0;
    while i < |ps|
      invariant 0 <= i <= |ps|
      invariant Partition(c, f, ms, ps, 0, NoParts) == Partition(c, f, ms, ps, i, partitioned)
      decreases |ps| - i
    {
      if ps[i].value != VNone {
        var next := Place(c, f, ms, partitioned, ps[i]);
        if next.Failure? {
          return Failure(next.error);
        }
        partitioned := next.value;
      }
      i := i + 1;
    }
    return Success(partitioned);
  }

  /** The body holds exactly the parameters that are not `None` and whose
      member has no known location, under their own names; the URI part
      holds the `uri` members under their wire names. */
  predicate ToBody(ms: seq<Member>, p: Param)
  {
    p.value != VNone && MemberNamed(ms, p.name).Some? &&
    MemberNamed(ms, p.name).value.ser.location !in {Some("uri"), Some("querystring"), Some("header"), Some("headers")}
  }

  /** The wire name a `uri` parameter is filed under, if it is one. */
  function UriKeys(ms: seq<Member>, p: Param): set<string>
  {
    if p.value != VNone && MemberNamed(ms, p.name).Some? && MemberNamed(ms, p.name).value.ser.location == Some("uri")
    then {SerializedName(MemberNamed(ms, p.name).value, p.name)}
    else {}
  }

  /** The body names contributed by parameters `i` onwards. */
  function BodyNames(ms: seq<Member>, ps: seq<Param>, i: nat): set<string>
    requires i <= |ps|
    decreases |ps| - i
  {
    if i == |ps| then {} else (if ToBody(ms, ps[i]) then {ps[i].name} else {}) + BodyNames(ms, ps, i + 1)
  }

  /** The URI names contributed by parameters `i` onwards. */
  function UriNames(ms: seq<Member>, ps: seq<Param>, i: nat): set<string>
    requires i <= |ps|
    decreases |ps| - i
  {
    if i == |ps| then {} else UriKeys(ms, ps[i]) + UriNames(ms, ps, i + 1)
  }

  /** What one placed parameter does to the body and the URI parts. */
  lemma PlaceEffect(c: Codecs, f: S.Formats, ms: seq<Member>, part: Partitioned, p: Param)
    requires p.value != VNone && Place(c, f, ms, part, p).Success?
    ensures var next := Place(c, f, ms, part, p).value;
      next.body == (if ToBody(ms, p) then part.body[p.name := p.value] else part.body) &&
      next.uri.Keys == part.uri.Keys + UriKeys(ms, p)
  {
    var m := MemberNamed(ms, p.name).value;
    var next := Place(c, f, ms, part, p).value;
    var loc := m.ser.location;
    if loc == Some("uri") {
      assert next == part.(uri := part.uri[SerializedName(m, p.name) := p.value]);
      assert !ToBody(ms, p);
    } else if loc == Some("querystring") || loc == Some("header") || loc == Some("headers") {
      PlaceElsewhere(c, f, ms, part, p);
      assert !ToBody(ms, p) && UriKeys(ms, p) == {};
    } else {
      assert next == part.(body := part.body[p.name := p.value]);
      assert ToBody(ms, p) && UriKeys(ms, p) == {};
    }
  }

  /** A querystring or header parameter leaves the body and the URI
      parts alone. */
  lemma PlaceElsewhere(c: Codecs, f: S.Formats, ms: seq<Member>, part: Partitioned, p: Param)
    requires MemberNamed(ms, p.name).Some? && Place(c, f, ms, part, p).Success?
    requires var loc := MemberNamed(ms, p.name).value.ser.location;
             loc == Some("querystring") || loc == Some("header") || loc == Some("headers")
    ensures Place(c, f, ms, part, p).value.body == part.body && Place(c, f, ms, part, p).value.uri == part.uri
  {
    var loc := MemberNamed(ms, p.name).value.ser.location;
    if loc == Some("querystring") {
      PlaceQuery(c, f, ms, part, p);
    } else if loc == Some("header") {
      assert Place(c, f, ms, part, p).value.body == part.body;
    } else {
      assert Place(c, f, ms, part, p).value.body == part.body;
    }
  }

  lemma PlaceQuery(c: Codecs, f: S.Formats, ms: seq<Member>, part: Partitioned, p: Param)
    requires MemberNamed(ms, p.name).Some? && MemberNamed(ms, p.name).value.ser.location == Some("querystring")
    ensures Place(c, f, ms, part, p).Success?
    ensures Place(c, f, ms, part, p).value.body == part.body && Place(c, f, ms, part, p).value.uri == part.uri
  {
  }

  /** One step of a successful partition: the parameter is placed and the
      rest partitioned into what that gives. */
  lemma PartitionStep(c: Codecs, f: S.Formats, ms: seq<Member>, ps: seq<Param>, i: nat, part: Partitioned)
    requires i < |ps| && ps[i].value != VNone
    requires Partition(c, f, ms, ps, i, part).Success?
    ensures Place(c, f, ms, part, ps[i]).Success?
    ensures Partition(c, f, ms, ps, i + 1, Place(c, f, ms, part, ps[i]).value) == Partition(c, f, ms, ps, i, part)
    ensures Place(c, f, ms, part, ps[i]).value.body.Keys == part.body.Keys + (if ToBody(ms, ps[i]) then {ps[i].name} else {})
    ensures Place(c, f, ms, part, ps[i]).value.uri.Keys == part.uri.Keys + UriKeys(ms, ps[i])
  {
    PlaceEffect(c, f, ms, part, ps[i]);
  }

  /** A successful partition puts into the body exactly the names of the
      parameters with no known location. */
  lemma {:induction false} PartitionBody(c: Codecs, f: S.Formats, ms: seq<Member>, ps: seq<Param>, i: nat, part: Partitioned)
    requires i <= |ps|
    requires Partition(c, f, ms, ps, i, part).Success?
    ensures Partition(c, f, ms, ps, i, part).value.body.Keys == part.body.Keys + BodyNames(ms, ps, i)
    decreases |ps| - i
  {
    if i < |ps| {
      if ps[i].value == VNone {
        assert !ToBody(ms, ps[i]);
        PartitionBody(c, f, ms, ps, i + 1, part);
      } else {
        PartitionStep(c, f, ms, ps, i, part);
        PartitionBody(c, f, ms, ps, i + 1, Place(c, f, ms, part, ps[i]).value);
      }
    }
  }

  /** A successful partition puts into the URI part exactly the wire names
      of the `uri` parameters. */
  lemma {:induction false} PartitionUri(c: Codecs, f: S.Formats, ms: seq<Member>, ps: seq<Param>, i: nat, part: Partitioned)
    requires i <= |ps|
    requires Partition(c, f, ms, ps, i, part).Success?
    ensures Partition(c, f, ms, ps, i, part).value.uri.Keys == part.uri.Keys + UriNames(ms, ps, i)
    decreases |ps| - i
  {
    if i < |ps| {
      if ps[i].value == VNone {
        assert UriKeys(ms, ps[i]) == {};
        PartitionUri(c, f, ms, ps, i + 1, part);
      } else {
        PartitionStep(c, f, ms, ps, i, part);
        PartitionUri(c, f, ms, ps, i + 1, Place(c, f, ms, part, ps[i]).value);
      }
    }
  }

  /** A querystring boolean becomes the text `"true"` or `"false"`, and a
      dict is merged into the query string. */
  lemma QueryStringValues(c: Codecs, f: S.Formats, ms: seq<Member>, part: Partitioned, p: Param)
    requires MemberNamed(ms, p.name).Some? && MemberNamed(ms, p.name).value.ser.location == Some("querystring")
    ensures var key := SerializedName(MemberNamed(ms, p.name).value, p.name);
      (p.value.VBool? ==> (Place(c, f, ms, part, p) ==
        Success(part.(qs := part.qs[key := VStr(if p.value.b then "true" else "false")])))) &&
      (p.value.VDict? ==> Place(c, f, ms, part, p) == Success(part.(qs := part.qs + p.value.fields)))
  {
  }

  /** Each `headers` key lands under the member's prefix. */
  lemma HeaderMapPrefixed(c: Codecs, f: S.Formats, ms: seq<Member>, part: Partitioned, p: Param, k: string)
    requires MemberNamed(ms, p.name).Some? && MemberNamed(ms, p.name).value.ser.location == Some("headers")
    requires p.value.VDict? && k in p.value.fields
    ensures var prefix := SerializedName(MemberNamed(ms, p.name).value, p.name);
      Place(c, f, ms, part, p).Success? &&
      prefix + k in Place(c, f, ms, part, p).value.headers &&
      Place(c, f, ms, part, p).value.headers[prefix + k] == p.value.fields[k]
  {
  }

  // ---------------------------------------------------------------------
  // `str.format` with named fields, and the URI template.

  /** The names between braces, left to right: `re.findall(r"{(.*?)}", t)`. */
  function Placeholders(t: string): (r: seq<string>)
    ensures forall i :: 0 <= i < |r| ==> '}' !in r[i]
    decreases |t|
  {
    match IndexOf(t, '{')
    case None => []
    case Some(i) =>
      match IndexOf(t[i + 1..], '}')
      case None => []
      case Some(j) => [t[i + 1..i + 1 + j]] + Placeholders(t[i + 2 + j..])
  }

  /** `t.format(**values)` with named fields: each `{name}` is replaced by
      its value; an unknown name raises `KeyError`, a lone brace `ValueError`. */
  function Format(t: string, values: map<string, string>): (r: Result<string, string>)
    decreases |t|
  {
    if |t| == 0 then Success("")
    else if t[0] == '}' then Failure("ValueError")
    else if t[0] != '{' then
      var rest :- Format(t[1..], values);
      Success([t[0]] + rest)
    else
      match IndexOf(t[1..], '}')
      case None => Failure("ValueError")
      case Some(j) =>
        var name := t[1..1 + j];
        if name !in values then Failure("KeyError")
        else
          var rest :- Format(t[2 + j..], values);
          Success(values[name] + rest)
  }

  /** The encoded value of every placeholder: a greedy `{Name+}` keeps `/`
      and `~`, any other is percent-encoded with the default safe set; a
      parameter missing from `params` raises `KeyError`. */
  function EncodedParams(c: Codecs, f: S.Formats, names: seq<string>, params: map<string, Value>)
    : (r: Result<map<string, string>, string>)
    ensures r.Success? ==> forall i :: 0 <= i < |names| ==> names[i] in r.value
    ensures r.Success? ==> forall i :: 0 <= i < |names| && !EndsWith(names[i], "+") ==>
      names[i] in params && r.value[names[i]] == c.percentEncode(S.Str(f, params[names[i]]), DefaultSafe)
    ensures r.Failure? ==> r.error == "KeyError"
  {
    if |names| == 0 then Success(map[])
    else
      var rest :- EncodedParams(c, f, names[1..], params);
      var n := names[0];
      if EndsWith(n, "+") then
        var base := n[..|n| - 1];
        if base !in params then Failure("KeyError")
        else
          var rest' := rest[n := c.percentEncode(S.Str(f, params[base]), GreedySafe)];
          assert forall i :: 1 <= i < |names| && !EndsWith(names[i], "+") ==> names[i] != n;
          Success(rest')
      else if n !in params then Failure("KeyError")
      else
        var rest' := rest[n := c.percentEncode(S.Str(f, params[n]), DefaultSafe)];
        Success(rest')
  }

  /** `_render_uri_template` */
  function RenderUriTemplate(c: Codecs, f: S.Formats, template: string, params: map<string, Value>)
    : Result<string, string>
  {
    var encoded :- EncodedParams(c, f, Placeholders(template), params);
    Format(template, encoded)
  }

  /** A brace-free text formats to itself, in front of whatever follows. */
  lemma {:induction false} FormatLiteral(lit: string, rest: string, values: map<string, string>)
    requires '{' !in lit && '}' !in lit
    ensures Format(lit + rest, values) ==
      (match Format(rest, values)
       case Success(x) => Success(lit + x)
       case Failure(e) => Failure(e))
    decreases |lit|
  {
    if |lit| > 0 {
      var t := lit + rest;
      assert t[0] == lit[0] && t[1..] == lit[1..] + rest;
      FormatLiteral(lit[1..], rest, values);
      if Format(rest, values).Success? {
        var x := Format(rest, values).value;
        assert [lit[0]] + (lit[1..] + x) == lit + x;
      }
    } else {
      assert lit + rest == rest;
      if Format(rest, values).Success? {
        assert lit + Format(rest, values).value == Format(rest, values).value;
      }
    }
  }

  /** A label formats to its value, in front of whatever follows. */
  lemma FormatLabel(name: string, rest: string, values: map<string, string>)
    requires '}' !in name && name in values
    ensures Format("{" + name + "}" + rest, values) ==
      (match Format(rest, values)
       case Success(x) => Success(values[name] + x)
       case Failure(e) => Failure(e))
  {
    var t := "{" + name + "}" + rest;
    assert t[1..] == name + "}" + rest;
    IndexOfAfter(name, rest);
    assert t[1..1 + |name|] == name;
    assert t[2 + |name|..] == rest;
  }

  /** A template without braces renders to itself. */
  lemma RenderPlain(c: Codecs, f: S.Formats, template: string, params: map<string, Value>)
    requires '{' !in template && '}' !in template
    ensures RenderUriTemplate(c, f, template, params) == Success(template)
  {
    assert IndexOf(template, '{').None?;
    assert Placeholders(template) == [];
    assert template + "" == template;
    FormatLiteral(template, "", map[]);
  }

  /** The first `}` after a brace-free name is the one that closes it. */
  lemma IndexOfAfter(name: string, rest: string)
    requires '}' !in name
    ensures IndexOf(name + "}" + rest, '}') == Some(|name|)
  {
    var t := name + "}" + rest;
    assert t[|name|] == '}';
    assert t[..|name|] == name;
  }

  // ---------------------------------------------------------------------
  // The host prefix.

  /** `_expand_host_prefix`: no `endpoint` trait gives `None`; an endpoint
      without a `hostPrefix` raises `KeyError`; otherwise the `hostPrefix`
      is formatted with the `hostLabel` members' parameters. */
  function ExpandHostPrefix(f: S.Formats, ps: seq<Param>, op: OperationModel): (r: Result<Option<string>, string>)
    ensures op.endpoint.None? ==> r == Success(None)
    ensures op.endpoint == Some(None) ==> r == Failure("KeyError")
    ensures op.endpoint.Some? && r.Success? ==> r.value.Some?
    ensures op.endpoint.Some? && op.endpoint.value.Some? && !(op.input.Some? && op.input.value.Structure?) ==>
      r == Failure("AttributeError")
    ensures op.endpoint.Some? && op.input.Some? && op.input.value.Structure? && HasUnboundLabel(op.input.value, ps) ==>
      r == Failure("KeyError")
  {
    match op.endpoint
    case None => Success(None)
    case Some(None) => Failure("KeyError")
    case Some(Some(expr)) =>
      match op.input
      case None => Failure("AttributeError")
      case Some(input) =>
        if !input.Structure? then Failure("AttributeError")
        else
          var labels :- HostLabels(f, input.members, ps);
          var text :- Format(expr, labels);
          Success(Some(text))
  }

  /** The first parameter of the given name. */
  function ParamGet(ps: seq<Param>, name: string): (r: Option<Value>)
    ensures r.None? <==> forall i :: 0 <= i < |ps| ==> ps[i].name != name
  {
    if |ps| == 0 then None
    else if ps[0].name == name then Some(ps[0].value)
    else ParamGet(ps[1..], name)
  }

  /** A host-label member for which no parameter is given. */
  predicate IsUnboundLabel(m: Member, ps: seq<Param>)
  {
    m.shape.ser.hostLabel == Some(true) && ParamGet(ps, m.name).None?
  }

  /** Some host-label member of the structure has no parameter. */
  predicate HasUnboundLabel(input: Shape, ps: seq<Param>)
    requires input.Structure?
  {
    exists i :: 0 <= i < |input.members| && IsUnboundLabel(input.members[i], ps)
  }

  predicate IsLabelNamed(m: Member, name: string)
  {
    m.name == name && m.shape.ser.hostLabel == Some(true)
  }

  /** `dict((name, parameters[name]) for name in host_labels)`, as text:
      a host-label member without a parameter raises `KeyError`. */
  function HostLabels(f: S.Formats, ms: seq<Member>, ps: seq<Param>): (r: Result<map<string, string>, string>)
    ensures r.Failure? <==> exists i :: 0 <= i < |ms| && IsUnboundLabel(ms[i], ps)
    ensures r.Failure? ==> r.error == "KeyError"
    ensures r.Success? ==> forall name :: name in r.value <==>
      exists i :: 0 <= i < |ms| && ms[i].name == name && ms[i].shape.ser.hostLabel == Some(true)
    ensures r.Success? ==> forall i :: 0 <= i < |ms| && ms[i].shape.ser.hostLabel == Some(true) ==>
      ParamGet(ps, ms[i].name).Some? && r.value[ms[i].name] == S.Str(f, ParamGet(ps, ms[i].name).value)
  {
    if |ms| == 0 then Success(map[])
    else
      var rest :- HostLabels(f, ms[1..], ps);
      if ms[0].shape.ser.hostLabel == Some(true) then
        match ParamGet(ps, ms[0].name)
        case None => Failure("KeyError")
        case Some(v) => Success(rest[ms[0].name := S.Str(f, v)])
      else Success(rest)
  }

  /** A host prefix `{Label}suffix` with a brace-free suffix expands to the
      label's parameter, as text, followed by the suffix. */
  lemma LabelHostPrefix(f: S.Formats, ps: seq<Param>, op: OperationModel, name: string, suffix: string)
    requires op.endpoint == Some(Some("{" + name + "}" + suffix))
    requires '}' !in name && '{' !in suffix && '}' !in suffix
    requires op.input.Some? && op.input.value.Structure?
    requires exists i :: 0 <= i < |op.input.value.members| && IsLabelNamed(op.input.value.members[i], name)
    requires !HasUnboundLabel(op.input.value, ps)
    ensures ParamGet(ps, name).Some?
    ensures ExpandHostPrefix(f, ps, op) == Success(Some(S.Str(f, ParamGet(ps, name).value) + suffix))
  {
    var ms := op.input.value.members;
    var labels := HostLabels(f, ms, ps).value;
    var i :| 0 <= i < |ms| && IsLabelNamed(ms[i], name);
    assert labels[name] == S.Str(f, ParamGet(ps, name).value);
    FormatLiteral(suffix, "", labels);
    assert suffix + "" == suffix;
    FormatLabel(name, suffix, labels);
  }

  // ---------------------------------------------------------------------
  // The payload.

  /** What `_serialize_payload` writes as the body: the payload value
      itself for a stream, or what the protocol's body serializer makes. */
  datatype PayloadBody<B> = Stream(v: Value) | Encoded(b: B)

  /** `_encode_payload`: text becomes UTF-8 bytes, anything else is kept. */
  function EncodePayload(f: S.Formats, v: Value): (r: Value)
    ensures !r.VStr?
    ensures !v.VStr? ==> r == v
    ensures v.VStr? ==> r == VBytes(f.utf8(v.s))
  {
    if v.VStr? then VBytes(f.utf8(v.s)) else v
  }

  /** `_serialize_payload`: `None` when the body is not written. A stream
      payload is the parameter itself (`b""` when absent); a structure
      payload is serialized only when its parameter is present and not
      `None`; without a payload trait the body parameters are serialized
      only when there are some. */
  function Payload<B>(f: S.Formats, encodeBody: (Value, Shape) -> Result<B, string>, s: Shape, ps: seq<Param>,
                      part: Partitioned): (r: Result<Option<PayloadBody<B>>, string>)
    requires s.Structure?
    ensures s.ser.payload.Some? && MemberNamed(s.members, s.ser.payload.value).None? ==> r == Failure("KeyError")
    ensures (s.ser.payload.Some? && MemberNamed(s.members, s.ser.payload.value).Some? &&
      IsStream(MemberNamed(s.members, s.ser.payload.value).value)) ==>
      r == Success(Some(Stream(EncodePayload(f, ParamGet(ps, s.ser.payload.value).GetOr(VBytes([]))))))
    ensures (s.ser.payload.Some? && MemberNamed(s.members, s.ser.payload.value).Some? &&
      !IsStream(MemberNamed(s.members, s.ser.payload.value).value) &&
      ParamGet(ps, s.ser.payload.value).GetOr(VNone) == VNone) ==> r == Success(None)
    ensures s.ser.payload.None? && part.body == map[] ==> r == Success(None)
    ensures s.ser.payload.None? && part.body != map[] ==> r.Success? ==> r.value.Some? && r.value.value.Encoded?
  {
    match s.ser.payload
    case Some(pn) =>
      (match MemberNamed(s.members, pn)
       case None => Failure("KeyError")
       case Some(m) =>
         if IsStream(m) then Success(Some(Stream(EncodePayload(f, ParamGet(ps, pn).GetOr(VBytes([]))))))
         else
           var v := ParamGet(ps, pn).GetOr(VNone);
           if v == VNone then Success(None)
           else
             var b :- encodeBody(v, m);
             Success(Some(Encoded(b))))
    case None =>
      if part.body == map[] then Success(None)
      else
        var b :- encodeBody(VDict(part.body), s);
        Success(Some(Encoded(b)))
  }
}
