/** The form-encoded request decoders of moto/core/parse.py: `QueryParser`
    and its `EC2QueryParser` variant. A request's `values` is a flat map
    from dotted keys (`Filter.1.Name`) to values; decoding walks the input
    shape, probing keys built from the shape's wire names. */
module QueryDecode {
  import opened Wrappers
  import opened Values
  import opened Strs
  import opened Shapes

  datatype Dialect = Query | EC2

  type Params = map<string, Value>

  /** Structure members are a dictionary, so their names are distinct. */
  predicate DistinctMembers(s: Shape)
    requires s.Structure?
  {
    forall i, j :: 0 <= i < j < |s.members| ==> s.members[i].name != s.members[j].name
  }

  /** `_get_serialized_name`. Query uses the `locationName` or the default;
      EC2 prefers `queryName`, then the `locationName` with its first
      character upper-cased (an empty one raises `IndexError`), then the default. */
  function WireName(d: Dialect, s: Shape, default: string): (r: Result<string, string>)
    ensures d == Query ==> r == Success(s.ser.name.GetOr(default))
    ensures d == EC2 && s.ser.queryName.Some? ==> r == Success(s.ser.queryName.value)
    ensures d == EC2 && s.ser.queryName.None? && s.ser.name.None? ==> r == Success(default)
    ensures d == EC2 && s.ser.queryName.None? && s.ser.name.Some? ==>
      var n := s.ser.name.value;
      (n == "" <==> r.Failure?) &&
      (r.Success? ==> |r.value| == |n| && r.value[1..] == n[1..] && r.value[0] == UpperChar(n[0]) && !IsAsciiLower(r.value[0]))
  {
    match d
    case Query => Success(s.ser.name.GetOr(default))
    case EC2 =>
      if s.ser.queryName.Some? then Success(s.ser.queryName.value)
      else if s.ser.name.Some? then
        var n := s.ser.name.value;
        if |n| == 0 then Failure("IndexError") else Success([UpperChar(n[0])] + n[1..])
      else Success(default)
  }

  /** `_gonna_recurse`, negated: some key starts with the prefix. */
  predicate AnyKeyStartsWith(node: Params, prefix: string)
  {
    exists k :: k in node && StartsWith(k, prefix)
  }

  /** The largest index a list or map probe tries: one per key of the request. */
  function ProbeLimit(node: Params): nat
  {
    |node.Keys|
  }

  /** `"{prefix}.{i}"` */
  function ElementName(prefix: string, i: nat): string
  {
    prefix + "." + NatToString(i)
  }

  /** `_default_handle`: the value under the key, else the shape's metadata
      default, else `VUndefined`. */
  function DefaultHandle(s: Shape, node: Params, prefix: string): (r: Value)
  {
    if prefix in node then node[prefix] else s.meta.default.GetOr(VUndefined)
  }

  /** The kind of value each scalar handler yields when the parameter is
      present; a string shape keeps whatever the parameter holds. */
  predicate OfScalarType(t: ScalarType, v: Value)
  {
    match t
    case SBoolean => v.VBool?
    case SInteger => v.VInt?
    case SLong => v.VInt?
    case SFloat => v.VFloat?
    case SDouble => v.VFloat?
    case SBlob => v.VBytes?
    case STimestamp => v.VTimestamp?
    case SString => true
  }

  /** `_handle_boolean`: never raises; a value that is neither a boolean
      nor a string has no `lower` and is left undefined. */
  function HandleBoolean(s: Shape, node: Params, prefix: string): (r: Decoded)
    ensures r.Ok? && (r.v == VUndefined || r.v.VBool?)
    ensures r.v == VUndefined <==> !(DefaultHandle(s, node, prefix).VBool? || DefaultHandle(s, node, prefix).VStr?)
  {
    match DefaultHandle(s, node, prefix)
    case VBool(b) => Ok(VBool(b))
    case VStr(t) => Ok(VBool(Lower(t) == "true"))
    case _ => Ok(VUndefined)
  }

  /** `_handle_integer`: `int(value)`, undefined only when the parameter is. */
  function HandleInteger(s: Shape, node: Params, prefix: string): (r: Decoded)
    ensures r == Ok(VUndefined) <==> DefaultHandle(s, node, prefix) == VUndefined
    ensures r.Ok? ==> r.v == VUndefined || r.v.VInt?
    ensures r.Raised? ==> r.err == "ValueError" || r.err == "TypeError"
  {
    match DefaultHandle(s, node, prefix)
    case VUndefined => Ok(VUndefined)
    case VInt(i) => Ok(VInt(i))
    case VBool(b) => Ok(VInt(if b then 1 else 0))
    case VStr(t) => (match ParseInt(t) case Some(i) => Ok(VInt(i)) case None => Raised("ValueError"))
    case _ => Raised("TypeError")
  }

  /** `_handle_float`: `float(value)`, undefined only when the parameter is;
      an integer or a boolean becomes the float of the same value. */
  function HandleFloat(s: Shape, node: Params, prefix: string): (r: Decoded)
    ensures r == Ok(VUndefined) <==> DefaultHandle(s, node, prefix) == VUndefined
    ensures r.Ok? ==> r.v == VUndefined || r.v.VFloat?
    ensures r.Raised? ==> r.err == "TypeError"
  {
    match DefaultHandle(s, node, prefix)
    case VUndefined => Ok(VUndefined)
    case VFloat(t) => Ok(VFloat(t))
    case VInt(i) => Ok(VFloat(IntToString(i) + ".0"))
    case VBool(b) => Ok(VFloat(if b then "1.0" else "0.0"))
    case VStr(t) => Ok(VFloat(t))
    case _ => Raised("TypeError")
  }

  /** `_handle_blob`: the blob parser on the parameter's text. */
  function HandleBlob(c: Codecs, s: Shape, node: Params, prefix: string): (r: Decoded)
    ensures r == Ok(VUndefined) <==> DefaultHandle(s, node, prefix) == VUndefined
    ensures r.Ok? ==> r.v == VUndefined || r.v.VBytes?
    ensures r.Raised? ==> r.err == "TypeError"
  {
    match DefaultHandle(s, node, prefix)
    case VUndefined => Ok(VUndefined)
    case VStr(t) => Ok(VBytes(c.b64decode(t)))
    case _ => Raised("TypeError")
  }

  /** `_handle_timestamp`: the timestamp parser on the parameter's text. */
  function HandleTimestamp(c: Codecs, s: Shape, node: Params, prefix: string): (r: Decoded)
    ensures r == Ok(VUndefined) <==> DefaultHandle(s, node, prefix) == VUndefined
    ensures r.Ok? ==> r.v == VUndefined || r.v.VTimestamp?
    ensures r.Raised? ==> r.err == "TypeError"
  {
    match DefaultHandle(s, node, prefix)
    case VUndefined => Ok(VUndefined)
    case VStr(t) => Ok(VTimestamp(c.parseTimestamp(t)))
    case _ => Raised("TypeError")
  }

  /** The scalar handlers of `_parse_shape`, by type name: a defined result
      has the kind of the shape's type, and only a boolean shape can turn a
      present parameter into an undefined one. */
  function HandleScalar(c: Codecs, s: Shape, node: Params, prefix: string): (r: Decoded)
    requires s.Scalar?
    ensures r.Ok? && r.v != VUndefined ==> OfScalarType(s.scalar, r.v)
    ensures r.Raised? ==> r.err == "ValueError" || r.err == "TypeError"
    ensures s.scalar != SBoolean ==> (r == Ok(VUndefined) <==> DefaultHandle(s, node, prefix) == VUndefined)
  {
    match s.scalar
    case SBoolean => HandleBoolean(s, node, prefix)
    case SInteger => HandleInteger(s, node, prefix)
    case SLong => HandleInteger(s, node, prefix)
    case SFloat => HandleFloat(s, node, prefix)
    case SDouble => HandleFloat(s, node, prefix)
    case SBlob => HandleBlob(c, s, node, prefix)
    case STimestamp => HandleTimestamp(c, s, node, prefix)
    case SString => Ok(DefaultHandle(s, node, prefix))
  }

  /** `_parse_shape`: dispatch on the shape's type. */
  function ParseShape(d: Dialect, c: Codecs, s: Shape, node: Params, prefix: string): Decoded
    decreases s, 2
  {
    match s
    case Structure(_, _, _) => HandleStructure(d, c, s, node, prefix)
    case ListOf(_, _, _) => HandleList(d, c, s, node, prefix)
    case MapOf(_, _, _, _) => HandleMap(d, c, s, node, prefix)
    case Scalar(_, _, _) => HandleScalar(c, s, node, prefix)
  }

  /** The key prefix of a structure member. */
  function MemberPrefix(d: Dialect, m: Member, prefix: string): Result<string, string>
  {
    match WireName(d, m.shape, m.name)
    case Failure(e) => Failure(e)
    case Success(n) => Success(if prefix != "" then prefix + "." + n else n)
  }

  /** The decoding of member `i` of a structure on its own. */
  function MemberValue(d: Dialect, c: Codecs, s: Shape, node: Params, prefix: string, i: nat): Decoded
    requires s.Structure? && i < |s.members|
    decreases s, 0, 0
  {
    match MemberPrefix(d, s.members[i], prefix)
    case Failure(e) => Raised(e)
    case Success(mp) => ParseShape(d, c, s.members[i].shape, node, mp)
  }

  /** The member loop of `_handle_structure`: members in order, those decoding
      to `VUndefined` left out. */
  function DecodeMembers(d: Dialect, c: Codecs, s: Shape, node: Params, prefix: string, i: nat, acc: map<string, Value>)
    : Result<map<string, Value>, string>
    requires s.Structure? && i <= |s.members|
    decreases s, 1, |s.members| - i
  {
    if i == |s.members| then Success(acc)
    else
      match MemberValue(d, c, s, node, prefix, i)
      case Raised(e) => Failure(e)
      case Ok(v) =>
        DecodeMembers(d, c, s, node, prefix, i + 1, if v == VUndefined then acc else acc[s.members[i].name := v])
  }

  /** `_handle_structure` */
  function HandleStructure(d: Dialect, c: Codecs, s: Shape, node: Params, prefix: string): Decoded
    requires s.Structure?
    decreases s, 1, |s.members| + 1
  {
    if prefix != "" && !AnyKeyStartsWith(node, prefix) then Ok(VUndefined)
    else
      match DecodeMembers(d, c, s, node, prefix, 0, map[])
      case Failure(e) => Raised(e)
      case Success(fields) => if fields == map[] then Ok(VUndefined) else Ok(VDict(fields))
  }

  /** The key prefix under which a Query list's elements are numbered: a
      flattened list whose member has a `locationName` swaps the last dotted
      segment of the prefix for that name. */
  function QueryListPrefix(s: Shape, prefix: string): string
    requires s.ListOf?
  {
    if IsFlattened(s) then
      if s.member.ser.name.Some? && s.member.ser.name.value != "" then
        var parts := Split(prefix, '.');
        Join(parts[..|parts| - 1] + [s.member.ser.name.value], ".")
      else prefix
    else prefix + "." + s.member.ser.name.GetOr("member")
  }

  /** The element prefix for either dialect: EC2 numbers elements directly under the prefix. */
  function ListPrefix(d: Dialect, s: Shape, prefix: string): string
    requires s.ListOf?
  {
    if d == EC2 then prefix else QueryListPrefix(s, prefix)
  }

  /** The decoding of a list's elements: element `j` is the member shape
      read from the key `"{p}.{j}"`. */
  function Elements(d: Dialect, c: Codecs, s: Shape, node: Params, p: string): nat -> Decoded
    requires s.ListOf?
    decreases s, 0
  {
    (j: nat) => ParseShape(d, c, s.member, node, ElementName(p, j))
  }

  /** The probing loop of `_handle_list` over the element decoding `e`:
      element `i`, `i + 1`, ... until the first `VUndefined`, at most `fuel`
      of them. */
  function ProbeList(e: nat -> Decoded, i: nat, fuel: nat): Result<seq<Value>, string>
    decreases fuel
  {
    if fuel == 0 then Success([])
    else
      match e(i)
      case Raised(err) => Failure(err)
      case Ok(v) =>
        if v == VUndefined then Success([])
        else
          match ProbeList(e, i + 1, fuel - 1)
          case Failure(err) => Failure(err)
          case Success(rest) => Success([v] + rest)
  }

  /** The Query dialect reads an empty string at the list's own key as the
      empty list. */
  predicate EmptyListSentinel(d: Dialect, node: Params, prefix: string)
  {
    d == Query && prefix in node && node[prefix] == VStr("")
  }

  /** `_handle_list` (Query: an empty-string value at the prefix is the empty
      list; EC2: no such sentinel). An empty probe gives `VUndefined`. */
  function HandleList(d: Dialect, c: Codecs, s: Shape, node: Params, prefix: string): Decoded
    requires s.ListOf?
    decreases s, 1
  {
    if EmptyListSentinel(d, node, prefix) then Ok(VList([]))
    else
      match ProbeList(Elements(d, c, s, node, ListPrefix(d, s, prefix)), 1, ProbeLimit(node))
      case Failure(e) => Raised(e)
      case Success(items) => if items == [] then Ok(VUndefined) else Ok(VList(items))
  }

  /** The entry prefix of the map at `prefix`. */
  function EntryPrefix(s: Shape, prefix: string): string
    requires s.MapOf?
  {
    if IsFlattened(s) then prefix else prefix + ".entry"
  }

  /** `"{full_prefix}.{i}.{suffix}"` */
  function EntryName(full: string, i: nat, suffix: string): string
  {
    full + "." + NatToString(i) + "." + suffix
  }

  /** The decoding of a map's keys: the key of entry `j` is the key shape
      read from `"{full}.{j}.{ks}"`. */
  function MapKeys(d: Dialect, c: Codecs, s: Shape, node: Params, full: string, ks: string): nat -> Decoded
    requires s.MapOf?
    decreases s, 0
  {
    (j: nat) => ParseShape(d, c, s.key, node, EntryName(full, j, ks))
  }

  /** The decoding of a map's values: the value of entry `j` is the value
      shape read from `"{full}.{j}.{vs}"`. */
  function MapValues(d: Dialect, c: Codecs, s: Shape, node: Params, full: string, vs: string): nat -> Decoded
    requires s.MapOf?
    decreases s, 0
  {
    (j: nat) => ParseShape(d, c, s.value, node, EntryName(full, j, vs))
  }

  /** The probing loop of `_handle_map` over the key and value decodings:
      the key and the value of entry `i` are both decoded; a `VUndefined`
      key ends the loop. A key that is not a string is refused
      (`TypeError`). */
  function ProbeMap(keys: nat -> Decoded, vals: nat -> Decoded, i: nat, fuel: nat, acc: map<string, Value>)
    : Result<map<string, Value>, string>
    decreases fuel
  {
    if fuel == 0 then Success(acc)
    else
      var k := keys(i);
      var v := vals(i);
      if k.Raised? then Failure(k.err)
      else if v.Raised? then Failure(v.err)
      else if k.v == VUndefined then Success(acc)
      else if !k.v.VStr? then Failure("TypeError")
      else ProbeMap(keys, vals, i + 1, fuel - 1, acc[k.v.s := v.v])
  }

  /** `_handle_map` */
  function HandleMap(d: Dialect, c: Codecs, s: Shape, node: Params, prefix: string): Decoded
    requires s.MapOf?
    decreases s, 1
  {
    var full := EntryPrefix(s, prefix);
    match (WireName(d, s.key, "key"), WireName(d, s.value, "value"))
    case (Failure(e), _) => Raised(e)
    case (_, Failure(e)) => Raised(e)
    case (Success(ks), Success(vs)) =>
      match ProbeMap(MapKeys(d, c, s, node, full, ks), MapValues(d, c, s, node, full, vs), 1, ProbeLimit(node), map[])
      case Failure(e) => Raised(e)
      case Success(m) => if m == map[] then Ok(VUndefined) else Ok(VDict(m))
  }

  /** `_do_parse`: the input shape decoded from the top (empty prefix), with a
      top-level `VUndefined` turned into `{}`. */
  function DoParse(d: Dialect, c: Codecs, input: Shape, values: Params): (r: Decoded)
    ensures r.Ok? ==> r.v != VUndefined
    ensures ParseShape(d, c, input, values, "") == Ok(VUndefined) ==> r == Ok(VDict(map[]))
    ensures ParseShape(d, c, input, values, "") != Ok(VUndefined) ==> r == ParseShape(d, c, input, values, "")
  {
    match ParseShape(d, c, input, values, "")
    case Raised(e) => Raised(e)
    case Ok(v) => if v == VUndefined then Ok(VDict(map[])) else Ok(v)
  }

  /** `_parse_params`: no input shape gives `{}`. */
  function ParseParams(d: Dialect, c: Codecs, op: OperationModel, values: Params): (r: Decoded)
    ensures op.input.None? ==> r == Ok(VDict(map[]))
    ensures r.Ok? ==> r.v != VUndefined
  {
    match op.input
    case None => Ok(VDict(map[]))
    case Some(input) => DoParse(d, c, input, values)
  }

  /** `_parse_action`: the `Action` value, `"UnknownAction"` when absent. */
  function ParseAction(values: Params): (r: Value)
    ensures "Action" in values ==> r == values["Action"]
    ensures "Action" !in values ==> r == VStr("UnknownAction")
  {
    if "Action" in values then values["Action"] else VStr("UnknownAction")
  }

  datatype ParsedRequest = ParsedRequest(action: string, params: Value)

  /** `parse`: the action names the operation (an unknown one raises), whose
      input shape is then decoded. */
  function Parse(d: Dialect, c: Codecs, operations: map<string, OperationModel>, values: Params): (r: Result<ParsedRequest, string>)
    ensures r.Success? ==> ParseAction(values) == VStr(r.value.action) && r.value.action in operations
    ensures r.Success? ==> Ok(r.value.params) == ParseParams(d, c, operations[r.value.action], values)
  {
    match ParseAction(values)
    case VStr(action) =>
      if action !in operations then Failure("OperationNotFoundError")
      else
        (match ParseParams(d, c, operations[action], values)
         case Raised(e) => Failure(e)
         case Ok(p) => Success(ParsedRequest(action, p)))
    case _ => Failure("OperationNotFoundError")
  }

  // ---------------------------------------------------------------------
  // The loops of `_handle_list` and `_handle_map`, as the source writes them.

  /** `_handle_list`: the sentinel check, then the probing loop. */
  method DecodeList(d: Dialect, c: Codecs, s: Shape, node: Params, prefix: string) returns (r: Decoded)
    requires s.ListOf?
    ensures r == HandleList(d, c, s, node, prefix)
  {
    if d == Query && prefix in node && node[prefix] == VStr("") {
      return Ok(VList([]));
    }
    var parsed := ProbeElements(d, c, s, node, ListPrefix(d, s, prefix), ProbeLimit(node));
    match parsed
    case Failure(err) =>
      return Raised(err);
    case Success(items) =>
      if items == [] {
        return Ok(VUndefined);
      }
      return Ok(VList(items));
  }

  /** The `while` loop of `_handle_list`: element keys `1` to `limit` are
      decoded in turn until one is `VUndefined`; a raised error ends it. */
  method ProbeElements(d: Dialect, c: Codecs, s: Shape, node: Params, p: string, limit: nat)
    returns (r: Result<seq<Value>, string>)
    requires s.ListOf?
    ensures r == ProbeList(Elements(d, c, s, node, p), 1, limit)
  {
    ghost var e := Elements(d, c, s, node, p);
    var parsed: seq<Value> := [];
    var i := 1;
    PrependNothing(ProbeList(e, 1, limit));
    while i <= limit
      invariant 1 <= i <= limit + 1
      invariant ProbeList(e, 1, limit) == Prepend(parsed, ProbeList(e, i, limit + 1 - i))
      decreases limit + 1 - i
    {
      var value := ParseShape(d, c, s.member, node, ElementName(p, i));
      assert value == e(i);
      ProbeListUnfold(e, i, limit + 1 - i);
      if value.Raised? {
        return Failure(value.err);
      }
      if value.v == VUndefined {
        assert parsed + [] == parsed;
        return Success(parsed);
      }
      PrependStep(parsed, value.v, ProbeList(e, i + 1, limit - i));
      parsed := parsed + [value.v];
      i := i + 1;
    }
    assert ProbeList(e, i, limit + 1 - i) == Success([]);
    assert parsed + [] == parsed;
    return Success(parsed);
  }

  /** One unfolding of the probe, as a prefix of what follows. */
  lemma ProbeListUnfold(e: nat -> Decoded, i: nat, fuel: nat)
    requires fuel > 0
    ensures e(i).Raised? ==> ProbeList(e, i, fuel) == Failure(e(i).err)
    ensures e(i) == Ok(VUndefined) ==> ProbeList(e, i, fuel) == Success([])
    ensures e(i).Ok? && e(i).v != VUndefined ==> ProbeList(e, i, fuel) == Prepend([e(i).v], ProbeList(e, i + 1, fuel - 1))
  {
  }

  function Prepend(front: seq<Value>, r: Result<seq<Value>, string>): Result<seq<Value>, string>
  {
    match r
    case Failure(e) => Failure(e)
    case Success(rest) => Success(front + rest)
  }

  lemma PrependNothing(r: Result<seq<Value>, string>)
    ensures Prepend([], r) == r
  {
    if r.Success? {
      assert [] + r.value == r.value;
    }
  }

  lemma PrependStep(front: seq<Value>, v: Value, r: Result<seq<Value>, string>)
    ensures Prepend(front, Prepend([v], r)) == Prepend(front + [v], r)
  {
    if r.Success? {
      assert front + ([v] + r.value) == (front + [v]) + r.value;
    }
  }

  /** `_handle_map`: the entry prefix and the key and value names, then the
      probing loop. */
  method DecodeMap(d: Dialect, c: Codecs, s: Shape, node: Params, prefix: string) returns (r: Decoded)
    requires s.MapOf?
    ensures r == HandleMap(d, c, s, node, prefix)
  {
    var full := EntryPrefix(s, prefix);
    var kn := WireName(d, s.key, "key");
    if kn.Failure? {
      return Raised(kn.error);
    }
    var vn := WireName(d, s.value, "value");
    if vn.Failure? {
      return Raised(vn.error);
    }
    var parsed := ProbeEntries(d, c, s, node, full, kn.value, vn.value, ProbeLimit(node));
    match parsed
    case Failure(err) =>
      return Raised(err);
    case Success(m) =>
      if m == map[] {
        return Ok(VUndefined);
      }
      return Ok(VDict(m));
  }

  /** The `while` loop of `_handle_map`: entries `1` to `limit` are decoded
      in turn until a key is `VUndefined`; a raised error or a key that is
      not a string ends it. */
  method ProbeEntries(d: Dialect, c: Codecs, s: Shape, node: Params, full: string, ks: string, vs: string, limit: nat)
    returns (r: Result<map<string, Value>, string>)
    requires s.MapOf?
    ensures r == ProbeMap(MapKeys(d, c, s, node, full, ks), MapValues(d, c, s, node, full, vs), 1, limit, map[])
  {
    ghost var keys := MapKeys(d, c, s, node, full, ks);
    ghost var vals := MapValues(d, c, s, node, full, vs);
    var parsed: map<string, Value> := map[];
    var i := 1;
    while i <= limit
      invariant 1 <= i <= limit + 1
      invariant ProbeMap(keys, vals, 1, limit, map[]) == ProbeMap(keys, vals, i, limit + 1 - i, parsed)
      decreases limit + 1 - i
    {
      var key := ParseShape(d, c, s.key, node, EntryName(full, i, ks));
      var value := ParseShape(d, c, s.value, node, EntryName(full, i, vs));
      assert key == keys(i) && value == vals(i);
      if key.Raised? {
        return Failure(key.err);
      }
      if value.Raised? {
        return Failure(value.err);
      }
      if key.v == VUndefined {
        return Success(parsed);
      }
      if !key.v.VStr? {
        return Failure("TypeError");
      }
      parsed := parsed[key.v.s := value.v];
      i := i + 1;
    }
    return Success(parsed);
  }

  // ---------------------------------------------------------------------
  // Properties of the decoders.

  /** One step of the list probe: the element at `i` decodes without raising;
      an undefined one ends the run, a defined one heads it. */
  lemma ProbeListStep(e: nat -> Decoded, i: nat, fuel: nat, items: seq<Value>)
    requires fuel > 0
    requires ProbeList(e, i, fuel) == Success(items)
    ensures e(i).Ok?
    ensures e(i).v == VUndefined ==> items == []
    ensures e(i).v != VUndefined ==> |items| > 0 && items[0] == e(i).v && ProbeList(e, i + 1, fuel - 1) == Success(items[1..])
  {
  }

  /** Element `k` of a list probe from index `i` is what `e` gives at
      `i + k`, and it is defined. */
  lemma {:induction false} ProbeListElement(e: nat -> Decoded, i: nat, fuel: nat, items: seq<Value>, k: nat)
    requires ProbeList(e, i, fuel) == Success(items)
    requires k < |items|
    ensures e(i + k) == Ok(items[k])
    ensures items[k] != VUndefined
    decreases k
  {
    assert fuel > 0;
    ProbeListStep(e, i, fuel, items);
    if k > 0 {
      ProbeListElement(e, i + 1, fuel - 1, items[1..], k - 1);
      assert i + k == (i + 1) + (k - 1);
    }
  }

  /** A list probe stops within its budget, and one that stops early stops
      at an element that is `VUndefined`. */
  lemma {:induction false} ProbeListEnd(e: nat -> Decoded, i: nat, fuel: nat, items: seq<Value>)
    requires ProbeList(e, i, fuel) == Success(items)
    ensures |items| <= fuel
    ensures |items| < fuel ==> e(i + |items|) == Ok(VUndefined)
    decreases fuel
  {
    if fuel > 0 {
      ProbeListStep(e, i, fuel, items);
      if |items| > 0 {
        ProbeListEnd(e, i + 1, fuel - 1, items[1..]);
        assert i + |items| == (i + 1) + |items[1..]|;
      } else {
        assert i + |items| == i;
      }
    }
  }

  /** A list probe yields exactly the contiguous run of defined elements from
      index `i`, and the run ends at the first `VUndefined` (or when the probe
      budget is spent). */
  lemma ProbeListContiguous(e: nat -> Decoded, i: nat, fuel: nat, items: seq<Value>)
    requires ProbeList(e, i, fuel) == Success(items)
    ensures |items| <= fuel
    ensures forall k :: 0 <= k < |items| ==> e(i + k) == Ok(items[k]) && items[k] != VUndefined
    ensures |items| < fuel ==> e(i + |items|) == Ok(VUndefined)
  {
    ProbeListEnd(e, i, fuel, items);
    forall k | 0 <= k < |items|
      ensures e(i + k) == Ok(items[k]) && items[k] != VUndefined
    {
      ProbeListElement(e, i, fuel, items, k);
    }
  }

  /** Conversely, a contiguous run of defined elements closed by a `VUndefined`
      is what the probe yields. */
  lemma {:induction false} ProbeListOfRun(e: nat -> Decoded, i: nat, fuel: nat, items: seq<Value>)
    requires |items| < fuel
    requires forall k :: 0 <= k < |items| ==> e(i + k) == Ok(items[k]) && items[k] != VUndefined
    requires e(i + |items|) == Ok(VUndefined)
    ensures ProbeList(e, i, fuel) == Success(items)
    decreases fuel
  {
    if |items| > 0 {
      assert e(i + 0) == Ok(items[0]);
      forall k | 0 <= k < |items[1..]|
        ensures e((i + 1) + k) == Ok(items[1..][k]) && items[1..][k] != VUndefined
      {
        assert (i + 1) + k == i + (k + 1);
      }
      assert i + |items| == (i + 1) + |items[1..]|;
      ProbeListOfRun(e, i + 1, fuel - 1, items[1..]);
      assert [items[0]] + items[1..] == items;
    } else {
      assert i + 0 == i;
    }
  }

  /** The list rule of both dialects: the Query empty-string sentinel gives
      `[]`; otherwise the result is the run of elements numbered from 1 under
      the list prefix, and an empty run is `VUndefined`. EC2 has no sentinel
      and numbers elements directly under the prefix. */
  lemma ListDecoding(d: Dialect, c: Codecs, s: Shape, node: Params, prefix: string)
    requires s.ListOf?
    ensures EmptyListSentinel(d, node, prefix) ==> HandleList(d, c, s, node, prefix) == Ok(VList([]))
    ensures d == EC2 ==> ListPrefix(d, s, prefix) == prefix && !EmptyListSentinel(d, node, prefix)
    ensures HandleList(d, c, s, node, prefix).Ok? ==>
      HandleList(d, c, s, node, prefix).v.VList? || HandleList(d, c, s, node, prefix).v == VUndefined
  {
  }

  /** Element `k` of a decoded list is what the member shape decodes to under
      the element key `k + 1`, and it is defined. */
  lemma ListElement(d: Dialect, c: Codecs, s: Shape, node: Params, prefix: string, items: seq<Value>, k: nat)
    requires s.ListOf? && !EmptyListSentinel(d, node, prefix)
    requires HandleList(d, c, s, node, prefix) == Ok(VList(items))
    requires k < |items|
    ensures ParseShape(d, c, s.member, node, ElementName(ListPrefix(d, s, prefix), k + 1)) == Ok(items[k])
    ensures items[k] != VUndefined
  {
    var e := Elements(d, c, s, node, ListPrefix(d, s, prefix));
    ProbeListElement(e, 1, ProbeLimit(node), items, k);
    assert 1 + k == k + 1;
  }

  /** A decoded list holds at least one and at most `ProbeLimit` elements;
      when it holds fewer, the element key after the last one decodes to
      `VUndefined`. */
  lemma ListEnd(d: Dialect, c: Codecs, s: Shape, node: Params, prefix: string, items: seq<Value>)
    requires s.ListOf? && !EmptyListSentinel(d, node, prefix)
    requires HandleList(d, c, s, node, prefix) == Ok(VList(items))
    ensures 1 <= |items| <= ProbeLimit(node)
    ensures |items| < ProbeLimit(node) ==>
      ParseShape(d, c, s.member, node, ElementName(ListPrefix(d, s, prefix), |items| + 1)) == Ok(VUndefined)
  {
    var e := Elements(d, c, s, node, ListPrefix(d, s, prefix));
    ProbeListEnd(e, 1, ProbeLimit(node), items);
    assert 1 + |items| == |items| + 1;
  }

  /** Without the sentinel, a list whose first element key decodes to
      `VUndefined` is itself `VUndefined`. */
  lemma ListUndefined(d: Dialect, c: Codecs, s: Shape, node: Params, prefix: string)
    requires s.ListOf? && !EmptyListSentinel(d, node, prefix)
    requires ProbeLimit(node) > 0
    requires ParseShape(d, c, s.member, node, ElementName(ListPrefix(d, s, prefix), 1)) == Ok(VUndefined)
    ensures HandleList(d, c, s, node, prefix) == Ok(VUndefined)
  {
    var e := Elements(d, c, s, node, ListPrefix(d, s, prefix));
    assert e(1) == Ok(VUndefined);
  }

  /** The names of a structure's members, in order. */
  function MemberNames(ms: seq<Member>): (r: seq<string>)
    ensures |r| == |ms| && forall j :: 0 <= j < |ms| ==> r[j] == ms[j].name
  {
    if ms == [] then [] else [ms[0].name] + MemberNames(ms[1..])
  }

  /** The member loop over already-decoded values: defined values are kept
      under their names. */
  function Gather(names: seq<string>, vals: seq<Value>, i: nat, acc: map<string, Value>): map<string, Value>
    requires |names| == |vals| && i <= |vals|
    decreases |vals| - i
  {
    if i == |vals| then acc
    else Gather(names, vals, i + 1, if vals[i] == VUndefined then acc else acc[names[i] := vals[i]])
  }

  /** `acc` holds every defined value before index `i`, under its name. */
  predicate CollectedAll(names: seq<string>, vals: seq<Value>, i: nat, acc: map<string, Value>)
    requires |names| == |vals| && i <= |vals|
  {
    forall j :: 0 <= j < i && vals[j] != VUndefined ==> names[j] in acc && acc[names[j]] == vals[j]
  }

  /** `acc` holds nothing but defined values before index `i`. */
  predicate CollectedOnly(names: seq<string>, vals: seq<Value>, i: nat, acc: map<string, Value>)
    requires |names| == |vals| && i <= |vals|
  {
    forall k :: k in acc ==> exists j :: 0 <= j < i && names[j] == k && vals[j] != VUndefined
  }

  /** With distinct names, the member loop keeps every defined value. */
  lemma {:induction false} GatherCollectsAll(names: seq<string>, vals: seq<Value>, i: nat, acc: map<string, Value>)
    requires |names| == |vals| && i <= |vals|
    requires forall j, j' :: 0 <= j < j' < |names| ==> names[j] != names[j']
    requires CollectedAll(names, vals, i, acc)
    ensures CollectedAll(names, vals, |vals|, Gather(names, vals, i, acc))
    decreases |vals| - i
  {
    if i < |vals| {
      var acc' := if vals[i] == VUndefined then acc else acc[names[i] := vals[i]];
      forall j | 0 <= j < i + 1 && vals[j] != VUndefined
        ensures names[j] in acc' && acc'[names[j]] == vals[j]
      {
        if j < i {
          assert names[j] != names[i];
        }
      }
      GatherCollectsAll(names, vals, i + 1, acc');
    }
  }

  /** The member loop keeps nothing but defined values. */
  lemma {:induction false} GatherCollectsOnly(names: seq<string>, vals: seq<Value>, i: nat, acc: map<string, Value>)
    requires |names| == |vals| && i <= |vals|
    requires CollectedOnly(names, vals, i, acc)
    ensures CollectedOnly(names, vals, |vals|, Gather(names, vals, i, acc))
    decreases |vals| - i
  {
    if i < |vals| {
      var acc' := if vals[i] == VUndefined then acc else acc[names[i] := vals[i]];
      forall k | k in acc'
        ensures exists j :: 0 <= j < i + 1 && names[j] == k && vals[j] != VUndefined
      {
        if k != names[i] || vals[i] == VUndefined {
          var j :| 0 <= j < i && names[j] == k && vals[j] != VUndefined;
          assert 0 <= j < i + 1;
        } else {
          assert names[i] == k;
        }
      }
      GatherCollectsOnly(names, vals, i + 1, acc');
    }
  }

  /** When every member decodes without raising, the member loop is `Gather`. */
  lemma {:induction false} DecodeMembersGathers(d: Dialect, c: Codecs, s: Shape, node: Params, prefix: string,
                                                vals: seq<Value>, i: nat, acc: map<string, Value>)
    requires s.Structure? && |vals| == |s.members| && i <= |vals|
    requires forall j :: 0 <= j < |vals| ==> MemberValue(d, c, s, node, prefix, j) == Ok(vals[j])
    ensures DecodeMembers(d, c, s, node, prefix, i, acc) == Success(Gather(MemberNames(s.members), vals, i, acc))
    decreases |vals| - i
  {
    if i < |vals| {
      var acc' := if vals[i] == VUndefined then acc else acc[s.members[i].name := vals[i]];
      assert MemberValue(d, c, s, node, prefix, i) == Ok(vals[i]);
      assert DecodeMembers(d, c, s, node, prefix, i, acc) == DecodeMembers(d, c, s, node, prefix, i + 1, acc');
      DecodeMembersGathers(d, c, s, node, prefix, vals, i + 1, acc');
      assert MemberNames(s.members)[i] == s.members[i].name;
    }
  }

  /** What the member loop keeps, over already-decoded values with distinct names. */
  lemma GatherFields(names: seq<string>, vals: seq<Value>)
    requires |names| == |vals|
    requires forall j, j' :: 0 <= j < j' < |names| ==> names[j] != names[j']
    ensures var fields := Gather(names, vals, 0, map[]);
      (fields == map[] <==> forall j :: 0 <= j < |vals| ==> vals[j] == VUndefined) &&
      (forall j :: 0 <= j < |vals| ==> (names[j] in fields <==> vals[j] != VUndefined)) &&
      (forall j :: 0 <= j < |vals| && names[j] in fields ==> fields[names[j]] == vals[j]) &&
      (forall k :: k in fields ==> exists j :: 0 <= j < |vals| && names[j] == k)
  {
    GatherCollectsAll(names, vals, 0, map[]);
    GatherCollectsOnly(names, vals, 0, map[]);
    var fields := Gather(names, vals, 0, map[]);
    forall j | 0 <= j < |vals| && names[j] in fields
      ensures vals[j] != VUndefined
    {
      var j' :| 0 <= j' < |vals| && names[j'] == names[j] && vals[j'] != VUndefined;
      assert j' == j;
    }
    if exists j :: 0 <= j < |vals| && vals[j] != VUndefined {
      var j :| 0 <= j < |vals| && vals[j] != VUndefined;
      assert names[j] in fields;
    }
  }

  /** The structure rule: with a non-empty prefix that no key starts with the
      result is `VUndefined`. Otherwise, when member `j` decodes to `vals[j]`,
      the result holds exactly the members whose value is not `VUndefined`,
      under their member names, and an all-absent structure is `VUndefined`. */
  lemma StructureDecoding(d: Dialect, c: Codecs, s: Shape, node: Params, prefix: string, vals: seq<Value>)
    requires s.Structure? && DistinctMembers(s) && |vals| == |s.members|
    requires forall j :: 0 <= j < |vals| ==> MemberValue(d, c, s, node, prefix, j) == Ok(vals[j])
    ensures prefix != "" && !AnyKeyStartsWith(node, prefix) ==> HandleStructure(d, c, s, node, prefix) == Ok(VUndefined)
    ensures prefix == "" || AnyKeyStartsWith(node, prefix) ==>
      var names := MemberNames(s.members);
      HandleStructure(d, c, s, node, prefix) ==
        if forall j :: 0 <= j < |vals| ==> vals[j] == VUndefined then Ok(VUndefined)
        else Ok(VDict(Gather(names, vals, 0, map[])))
  {
    if prefix == "" || AnyKeyStartsWith(node, prefix) {
      var names := MemberNames(s.members);
      DecodeMembersGathers(d, c, s, node, prefix, vals, 0, map[]);
      GatherFields(names, vals);
    }
  }

  /** The boolean rule: a native boolean passes through, text decodes as
      `value.lower() == "true"`, anything else is `VUndefined`; a missing key
      falls back to the metadata default. */
  lemma BooleanDecoding(d: Dialect, c: Codecs, s: Shape, node: Params, prefix: string)
    requires s.Scalar? && s.scalar == SBoolean
    ensures var r := ParseShape(d, c, s, node, prefix);
      r.Ok? && (r.v.VBool? || r.v == VUndefined) &&
      (prefix in node && node[prefix].VBool? ==> r == Ok(node[prefix])) &&
      (prefix in node && node[prefix].VStr? ==> r == Ok(VBool(Lower(node[prefix].s) == "true"))) &&
      (prefix !in node && s.meta.default.None? ==> r == Ok(VUndefined))
  {
  }

  /** The integer rule: text that is not a decimal integer raises `ValueError`. */
  lemma IntegerDecoding(d: Dialect, c: Codecs, s: Shape, node: Params, prefix: string)
    requires s.Scalar? && (s.scalar == SInteger || s.scalar == SLong)
    requires prefix in node && node[prefix].VStr?
    ensures var n := ParseInt(node[prefix].s);
      ParseShape(d, c, s, node, prefix) == if n.Some? then Ok(VInt(n.value)) else Raised("ValueError")
  {
    ScalarDispatch(d, c, s, node, prefix);
    IntegerHandle(s, node, prefix);
  }

  /** A scalar shape is decoded by its scalar handler. */
  lemma ScalarDispatch(d: Dialect, c: Codecs, s: Shape, node: Params, prefix: string)
    requires s.Scalar?
    ensures ParseShape(d, c, s, node, prefix) == HandleScalar(c, s, node, prefix)
  {
  }

  /** `_handle_integer` on a present string. */
  lemma IntegerHandle(s: Shape, node: Params, prefix: string)
    requires prefix in node && node[prefix].VStr?
    ensures var n := ParseInt(node[prefix].s);
      HandleInteger(s, node, prefix) == if n.Some? then Ok(VInt(n.value)) else Raised("ValueError")
  {
  }

  /** A flattened Query list whose member names its elements is numbered
      under the prefix with its last dotted segment replaced by that name. */
  lemma FlattenedListPrefix(s: Shape, prefix: string)
    requires s.ListOf? && IsFlattened(s)
    requires s.member.ser.name.Some? && s.member.ser.name.value != ""
    requires '.' !in s.member.ser.name.value
    ensures var parts := Split(prefix, '.');
      Split(QueryListPrefix(s, prefix), '.') == parts[..|parts| - 1] + [s.member.ser.name.value]
  {
    var parts := Split(prefix, '.');
    var np := parts[..|parts| - 1] + [s.member.ser.name.value];
    forall i | 0 <= i < |np| ensures '.' !in np[i] {
      if i < |parts| - 1 { assert np[i] == parts[i]; }
    }
    SplitJoin(np, '.');
  }

  /** The key of entry `j` decodes to a string. */
  predicate StringKeyAt(keys: nat -> Decoded, j: nat)
  {
    keys(j).Ok? && keys(j).v.VStr?
  }

  /** One step of a successful map probe: entry `i` decoded, and either its
      key is undefined and the probe stops, or its key is a string and the
      probe goes on from `i + 1` with the entry added. */
  lemma ProbeMapStep(keys: nat -> Decoded, vals: nat -> Decoded, i: nat, fuel: nat,
                     acc: map<string, Value>, m: map<string, Value>)
    requires fuel > 0
    requires ProbeMap(keys, vals, i, fuel, acc) == Success(m)
    ensures keys(i).Ok? && vals(i).Ok?
    ensures keys(i).v == VUndefined ==> m == acc
    ensures keys(i).v != VUndefined ==>
      StringKeyAt(keys, i) && ProbeMap(keys, vals, i + 1, fuel - 1, acc[keys(i).v.s := vals(i).v]) == Success(m)
  {
  }

  /** Map entries come only from the contiguous run of defined keys: every key
      added by the probe from index `i` was decoded at some index in the run,
      and every index up to it had a string key. */
  lemma {:induction false} ProbeMapRun(keys: nat -> Decoded, vals: nat -> Decoded, i: nat, fuel: nat,
                                       acc: map<string, Value>, m: map<string, Value>)
    requires ProbeMap(keys, vals, i, fuel, acc) == Success(m)
    ensures acc.Keys <= m.Keys
    ensures forall k :: k in m && k !in acc ==> exists j :: (i <= j < i + fuel && keys(j) == Ok(VStr(k)) &&
      forall j' :: i <= j' <= j ==> StringKeyAt(keys, j'))
    decreases fuel
  {
    if fuel > 0 {
      ProbeMapStep(keys, vals, i, fuel, acc, m);
      var key := keys(i);
      if key.v != VUndefined {
        var acc' := acc[key.v.s := vals(i).v];
        ProbeMapRun(keys, vals, i + 1, fuel - 1, acc', m);
        forall k | k in m && k !in acc
          ensures exists j :: (i <= j < i + fuel && keys(j) == Ok(VStr(k)) &&
            forall j' :: i <= j' <= j ==> StringKeyAt(keys, j'))
        {
          if k == key.v.s {
            assert key == Ok(VStr(k));
            assert forall j' :: i <= j' <= i ==> StringKeyAt(keys, j');
          } else {
            var j :| i + 1 <= j < i + 1 + (fuel - 1) && keys(j) == Ok(VStr(k)) &&
              forall j' :: i + 1 <= j' <= j ==> StringKeyAt(keys, j');
            assert i <= j < i + fuel;
          }
        }
      }
    }
  }

  /** The key of entry `j` of the map at `prefix` decodes to the string `k`. */
  predicate MapKeyAt(d: Dialect, c: Codecs, s: Shape, node: Params, prefix: string, j: nat, k: string)
    requires s.MapOf? && WireName(d, s.key, "key").Success?
  {
    ParseShape(d, c, s.key, node, EntryName(EntryPrefix(s, prefix), j, WireName(d, s.key, "key").value)) == Ok(VStr(k))
  }

  /** Every key of a decoded map is the string that the key of some entry
      from 1 to `ProbeLimit` decodes to. */
  lemma MapKeyOrigin(d: Dialect, c: Codecs, s: Shape, node: Params, prefix: string, m: map<string, Value>, k: string)
    requires s.MapOf?
    requires HandleMap(d, c, s, node, prefix) == Ok(VDict(m))
    requires k in m
    ensures WireName(d, s.key, "key").Success?
    ensures exists j :: 1 <= j <= ProbeLimit(node) && MapKeyAt(d, c, s, node, prefix, j, k)
  {
    var full := EntryPrefix(s, prefix);
    var keys := MapKeys(d, c, s, node, full, WireName(d, s.key, "key").value);
    var vals := MapValues(d, c, s, node, full, WireName(d, s.value, "value").value);
    ProbeMapRun(keys, vals, 1, ProbeLimit(node), map[], m);
    var j :| 1 <= j < 1 + ProbeLimit(node) && keys(j) == Ok(VStr(k)) &&
      forall j' :: 1 <= j' <= j ==> StringKeyAt(keys, j');
    assert MapKeyAt(d, c, s, node, prefix, j, k);
  }
}
