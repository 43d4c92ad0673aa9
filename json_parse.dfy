/** The JSON request decoders of moto/core/parse.py: `BaseJSONParser`,
    `JSONParser`, and the scalar and list handlers `RestJSONParser` and
    `BaseRestParser` put on top. The body is a JSON document as `json.loads`
    returns it; object members are kept in document order. */
module JsonDecode {
  import opened Wrappers
  import opened Values
  import opened Strs
  import opened Shapes

  datatype JMember = JMember(key: string, value: Json)

  /** A JSON document. A header or querystring value handed to the REST
      decoders is a `JStr` (or a `JArray` of them). */
  datatype Json =
    | JNull
    | JBool(b: bool)
    | JInt(i: int)
    | JNum(repr: string)
    | JStr(s: string)
    | JArray(items: seq<Json>)
    | JObject(members: seq<JMember>)

  /** `obj.get(key)` on the dict `json.loads` builds: the last member with
      that key wins. */
  function ObjectGet(ms: seq<JMember>, key: string): (r: Option<Json>)
    ensures r.None? <==> forall i :: 0 <= i < |ms| ==> ms[i].key != key
    ensures r.Some? ==> exists i :: (0 <= i < |ms| && ms[i].key == key && ms[i].value == r.value &&
      forall j :: i < j < |ms| ==> ms[j].key != key)
  {
    if ms == [] then None
    else if ms[|ms| - 1].key == key then Some(ms[|ms| - 1].value)
    else ObjectGet(ms[..|ms| - 1], key)
  }

  /** Member `i` is the one `json.loads` keeps for its key: none later has the same key. */
  predicate LastOfKey(ms: seq<JMember>, i: nat)
    requires i < |ms|
  {
    forall j :: i < j < |ms| ==> ms[j].key != ms[i].key
  }

  /** The Python value `json.loads` produces. */
  function ToValue(j: Json): Value
    decreases j, 1
  {
    match j
    case JNull => VNone
    case JBool(b) => VBool(b)
    case JInt(i) => VInt(i)
    case JNum(r) => VFloat(r)
    case JStr(s) => VStr(s)
    case JArray(_) => VList(ArrayValues(j, 0))
    case JObject(_) => VDict(ObjectValues(j, |j.members|))
  }

  function ArrayValues(j: Json, i: nat): (r: seq<Value>)
    requires j.JArray? && i <= |j.items|
    ensures |r| == |j.items| - i
    decreases j, 0, |j.items| - i
  {
    if i == |j.items| then [] else [ToValue(j.items[i])] + ArrayValues(j, i + 1)
  }

  /** The dict of the first `n` members, later keys overriding earlier ones. */
  function ObjectValues(j: Json, n: nat): (r: map<string, Value>)
    requires j.JObject? && n <= |j.members|
    ensures forall k :: k in r <==> exists i :: 0 <= i < n && j.members[i].key == k
    decreases j, 0, n
  {
    if n == 0 then map[]
    else ObjectValues(j, n - 1)[j.members[n - 1].key := ToValue(j.members[n - 1].value)]
  }

  /** The JSON decoders differ only in their boolean and list handling. */
  datatype Flavor = PlainJson | RestJson

  /** `_parse_shape` */
  function ParseShape(f: Flavor, c: Codecs, s: Shape, j: Json): Decoded
    decreases s, 3
  {
    match s
    case Structure(_, _, _) => HandleStructure(f, c, s, j)
    case ListOf(_, _, _) => HandleList(f, c, s, j)
    case MapOf(_, _, _, _) => HandleMap(f, c, s, j)
    case Scalar(_, _, _) => HandleScalar(f, c, s, j)
  }

  /** The scalar handlers. Only blobs, timestamps and floats are converted
      by the JSON decoder; RestJSON adds its own boolean handler and decodes
      a JSON-value header. Every other scalar is the JSON value as it stands. */
  function HandleScalar(f: Flavor, c: Codecs, s: Shape, j: Json): (r: Decoded)
    requires s.Scalar?
    ensures f == RestJson && IsJsonValueHeader(s) ==>
      r == (if j.JStr? then c.jsonValueHeader(j.s) else Raised("TypeError"))
    ensures s.scalar == SString && !(f == RestJson && IsJsonValueHeader(s)) ==> r == Ok(ToValue(j))
  {
    match s.scalar
    case SBlob => (match j case JStr(t) => Ok(VBytes(c.b64decode(t))) case _ => Raised("TypeError"))
    case STimestamp =>
      (match j
       case JStr(t) => Ok(VTimestamp(c.parseTimestamp(t)))
       case JInt(n) => Ok(VTimestamp(n))
       case _ => Raised("TypeError"))
    case SFloat => HandleFloat(j)
    case SDouble => HandleFloat(j)
    case SBoolean =>
      if f == RestJson then
        (match j
         case JBool(b) => Ok(VBool(b))
         case JStr(t) => Ok(VBool(Lower(t) == "true"))
         case _ => Ok(VUndefined))
      else Ok(ToValue(j))
    case SString =>
      if f == RestJson && IsJsonValueHeader(s) then
        (match j case JStr(t) => c.jsonValueHeader(t) case _ => Raised("TypeError"))
      else Ok(ToValue(j))
    case _ => Ok(ToValue(j))
  }

  /** `float(value)`, with the decimal text kept as it is: a number, a
      boolean or a string gives a float; `null`, an array or an object
      raises `TypeError`. */
  function HandleFloat(j: Json): (r: Decoded)
    ensures r.Ok? <==> (j.JNum? || j.JInt? || j.JBool? || j.JStr?)
    ensures r.Ok? ==> r.v.VFloat?
    ensures r.Raised? ==> r.err == "TypeError"
    ensures j.JNum? ==> r == Ok(VFloat(j.repr))
  {
    match j
    case JNum(r) => Ok(VFloat(r))
    case JInt(n) => Ok(VFloat(IntToString(n) + ".0"))
    case JBool(b) => Ok(VFloat(if b then "1.0" else "0.0"))
    case JStr(t) => Ok(VFloat(t))
    case _ => Raised("TypeError")
  }

  /** The member of a structure's JSON object that feeds member `i`: the one
      under its serialized name, `None` when absent or `null`. */
  function MemberInput(s: Shape, ms: seq<JMember>, i: nat): (r: Option<Json>)
    requires s.Structure? && i < |s.members|
    ensures r.Some? ==> r.value != JNull
  {
    match ObjectGet(ms, SerializedName(s.members[i].shape, s.members[i].name))
    case None => None
    case Some(raw) => if raw == JNull then None else Some(raw)
  }

  /** The member loop of `_handle_structure`. */
  function DecodeMembers(f: Flavor, c: Codecs, s: Shape, ms: seq<JMember>, i: nat, acc: map<string, Value>)
    : Result<map<string, Value>, string>
    requires s.Structure? && i <= |s.members|
    decreases s, 1, |s.members| - i
  {
    if i == |s.members| then Success(acc)
    else
      match MemberInput(s, ms, i)
      case None => DecodeMembers(f, c, s, ms, i + 1, acc)
      case Some(raw) =>
        match ParseShape(f, c, s.members[i].shape, raw)
        case Raised(e) => Failure(e)
        case Ok(v) => DecodeMembers(f, c, s, ms, i + 1, acc[s.members[i].name := v])
  }

  /** `_handle_structure`: a document shape is the JSON value itself, `null`
      stays `None`, anything but an object has no `.get` (`AttributeError`). */
  function HandleStructure(f: Flavor, c: Codecs, s: Shape, j: Json): Decoded
    requires s.Structure?
    decreases s, 2
  {
    if s.meta.document then Ok(ToValue(j))
    else
      match j
      case JNull => Ok(VNone)
      case JObject(ms) =>
        (match DecodeMembers(f, c, s, ms, 0, map[])
         case Failure(e) => Raised(e)
         case Success(fields) => Ok(VDict(fields)))
      case _ => Raised("AttributeError")
  }

  /** What `for item in node` walks: an array's elements, an object's keys, a
      string's characters. RestJSON first splits a header-bound list on
      commas and strips each part. */
  function ListInput(f: Flavor, s: Shape, j: Json): (r: Result<seq<Json>, string>)
    requires s.ListOf?
    ensures f == RestJson && s.ser.location == Some("header") && j.JStr? ==>
      r.Success? && |r.value| == |Split(j.s, ',')| &&
      forall k :: 0 <= k < |r.value| ==> r.value[k] == JStr(Strip(Split(j.s, ',')[k]))
  {
    if f == RestJson && s.ser.location == Some("header") && !j.JArray? then
      match j
      case JStr(t) => Success(StrippedParts(Split(t, ',')))
      case _ => Failure("AttributeError")
    else
      match j
      case JArray(items) => Success(items)
      case JStr(t) => Success(Chars(t))
      case JObject(ms) => Success(Keys(ms))
      case _ => Failure("TypeError")
  }

  function StrippedParts(parts: seq<string>): (r: seq<Json>)
    ensures |r| == |parts| && forall k :: 0 <= k < |parts| ==> r[k] == JStr(Strip(parts[k]))
  {
    if parts == [] then [] else [JStr(Strip(parts[0]))] + StrippedParts(parts[1..])
  }

  function Chars(t: string): (r: seq<Json>)
    ensures |r| == |t| && forall k :: 0 <= k < |t| ==> r[k] == JStr([t[k]])
  {
    if t == [] then [] else [JStr([t[0]])] + Chars(t[1..])
  }

  /** The keys of an object, as iteration over the dict yields them: each
      key once, where it first occurs. */
  function Keys(ms: seq<JMember>): (r: seq<Json>)
    ensures forall i :: 0 <= i < |r| ==> r[i].JStr? && exists n :: 0 <= n < |ms| && ms[n].key == r[i].s
    ensures forall n :: 0 <= n < |ms| ==> JStr(ms[n].key) in r
    ensures forall i, k :: 0 <= i < k < |r| ==> r[i] != r[k]
  {
    if ms == [] then []
    else
      var init := ms[..|ms| - 1];
      var last := ms[|ms| - 1];
      var before := Keys(init);
      assert forall n :: 0 <= n < |init| ==> ms[n] == init[n];
      if JStr(last.key) in before then before else before + [JStr(last.key)]
  }

  function DecodeItems(f: Flavor, c: Codecs, s: Shape, items: seq<Json>, i: nat): Result<seq<Value>, string>
    requires s.ListOf? && i <= |items|
    decreases s, 1, |items| - i
  {
    if i == |items| then Success([])
    else
      match ParseShape(f, c, s.member, items[i])
      case Raised(e) => Failure(e)
      case Ok(v) =>
        match DecodeItems(f, c, s, items, i + 1)
        case Failure(e) => Failure(e)
        case Success(rest) => Success([v] + rest)
  }

  /** `_handle_list`: each item decoded with the member shape, in order. */
  function HandleList(f: Flavor, c: Codecs, s: Shape, j: Json): Decoded
    requires s.ListOf?
    decreases s, 2
  {
    match ListInput(f, s, j)
    case Failure(e) => Raised(e)
    case Success(items) =>
      match DecodeItems(f, c, s, items, 0)
      case Failure(e) => Raised(e)
      case Success(vs) => Ok(VList(vs))
  }

  /** The loop of `_handle_map` over the dict's items: each key and value
      decoded with the key and value shapes. A key must decode to a string. */
  function DecodeEntries(f: Flavor, c: Codecs, s: Shape, ms: seq<JMember>, i: nat, acc: map<string, Value>)
    : Result<map<string, Value>, string>
    requires s.MapOf? && i <= |ms|
    decreases s, 1, |ms| - i
  {
    if i == |ms| then Success(acc)
    else if !LastOfKey(ms, i) then DecodeEntries(f, c, s, ms, i + 1, acc)
    else
      match (ParseShape(f, c, s.key, JStr(ms[i].key)), ParseShape(f, c, s.value, ms[i].value))
      case (Raised(e), _) => Failure(e)
      case (_, Raised(e)) => Failure(e)
      case (Ok(k), Ok(v)) =>
        if k.VStr? then DecodeEntries(f, c, s, ms, i + 1, acc[k.s := v]) else Failure("TypeError")
  }

  /** `_handle_map` */
  function HandleMap(f: Flavor, c: Codecs, s: Shape, j: Json): Decoded
    requires s.MapOf?
    decreases s, 2
  {
    match j
    case JObject(ms) =>
      (match DecodeEntries(f, c, s, ms, 0, map[])
       case Failure(e) => Raised(e)
       case Success(m) => Ok(VDict(m)))
    case _ => Raised("AttributeError")
  }

  /** `_parse_body_as_json`: an empty body is `{}`; a body that is not JSON is
      `{"message": body}`. `loads` is `json.loads`, `None` where it raises. */
  function ParseBodyAsJson(loads: string -> Option<Json>, body: string): (r: Json)
    ensures body == "" ==> r == JObject([])
    ensures body != "" && loads(body).None? ==> r == JObject([JMember("message", JStr(body))])
    ensures body != "" && loads(body).Some? ==> r == loads(body).value
  {
    if body == "" then JObject([])
    else
      match loads(body)
      case Some(j) => j
      case None => JObject([JMember("message", JStr(body))])
  }

  /** `JSONParser._parse_action`: the `X-Amz-Target` header (default
      `"UnknownOperation"`) with every `"{targetPrefix}."` removed. */
  function ParseAction(headers: map<string, string>, targetPrefix: Option<string>): string
  {
    var target := if "X-Amz-Target" in headers then headers["X-Amz-Target"] else "UnknownOperation";
    if targetPrefix.Some? && targetPrefix.value != "" then ReplaceAll(target, targetPrefix.value + ".", "")
    else target
  }

  /** `JSONParser._do_parse` under `_parse_params`: no input shape gives `{}`;
      otherwise the body read as JSON is decoded with the input shape. */
  function DoParse(c: Codecs, loads: string -> Option<Json>, input: Option<Shape>, body: string): (r: Decoded)
    ensures input.None? ==> r == Ok(VDict(map[]))
  {
    match input
    case None => Ok(VDict(map[]))
    case Some(shape) => ParseShape(PlainJson, c, shape, ParseBodyAsJson(loads, body))
  }

  datatype ParsedRequest = ParsedRequest(action: string, params: Value)

  /** `parse`: the action names the operation (an unknown one raises), whose
      input shape is then decoded. */
  function Parse(c: Codecs, loads: string -> Option<Json>, targetPrefix: Option<string>,
                 operations: map<string, OperationModel>, headers: map<string, string>, body: string)
    : (r: Result<ParsedRequest, string>)
    ensures r.Success? ==> r.value.action == ParseAction(headers, targetPrefix) && r.value.action in operations
    ensures ParseAction(headers, targetPrefix) !in operations ==> r == Failure("OperationNotFoundError")
  {
    var action := ParseAction(headers, targetPrefix);
    if action !in operations then Failure("OperationNotFoundError")
    else
      match DoParse(c, loads, operations[action].input, body)
      case Raised(e) => Failure(e)
      case Ok(p) => Success(ParsedRequest(action, p))
  }

  // ---------------------------------------------------------------------
  // Properties.

  /** The action rule: a target of the form `"{targetPrefix}.{op}"` yields
      `op` (when `op` does not itself repeat the prefix); without the header
      the action is `"UnknownOperation"`. */
  lemma ActionOfTarget(headers: map<string, string>, prefix: string, op: string)
    requires prefix != ""
    ensures ("X-Amz-Target" in headers && headers["X-Amz-Target"] == prefix + "." + op &&
             !Contains(op, prefix + ".")) ==> ParseAction(headers, Some(prefix)) == op
    ensures "X-Amz-Target" !in headers ==> ParseAction(headers, Some(prefix)) == "UnknownOperation"
    ensures "X-Amz-Target" in headers ==> ParseAction(headers, None) == headers["X-Amz-Target"]
  {
    var pat := prefix + ".";
    if "X-Amz-Target" in headers && headers["X-Amz-Target"] == pat + op && !Contains(op, pat) {
      assert prefix + "." + op == pat + op;
      ReplaceAllLeading(pat, op);
    }
    if "X-Amz-Target" !in headers {
      NoDotNoOccurrence("UnknownOperation", pat);
      ReplaceAllAbsent("UnknownOperation", pat, "");
    }
  }

  /** A pattern holding a `.` occurs in no text without one. */
  lemma NoDotNoOccurrence(t: string, pat: string)
    requires '.' in pat && '.' !in t
    ensures !Contains(t, pat)
  {
  }

  /** The member values of a structure: `None` for an absent member, the
      decoded value otherwise. */
  function GatherPresent(names: seq<string>, vals: seq<Option<Value>>, i: nat, acc: map<string, Value>): map<string, Value>
    requires |names| == |vals| && i <= |vals|
    decreases |vals| - i
  {
    if i == |vals| then acc
    else GatherPresent(names, vals, i + 1, if vals[i].None? then acc else acc[names[i] := vals[i].value])
  }

  predicate CollectedPresent(names: seq<string>, vals: seq<Option<Value>>, i: nat, acc: map<string, Value>)
    requires |names| == |vals| && i <= |vals|
  {
    (forall j :: 0 <= j < i && vals[j].Some? ==> names[j] in acc && acc[names[j]] == vals[j].value) &&
    (forall k :: k in acc ==> exists j :: 0 <= j < i && names[j] == k && vals[j].Some?)
  }

  lemma {:induction false} GatherPresentCollects(names: seq<string>, vals: seq<Option<Value>>, i: nat, acc: map<string, Value>)
    requires |names| == |vals| && i <= |vals|
    requires forall j, j' :: 0 <= j < j' < |names| ==> names[j] != names[j']
    requires CollectedPresent(names, vals, i, acc)
    ensures CollectedPresent(names, vals, |vals|, GatherPresent(names, vals, i, acc))
    decreases |vals| - i
  {
    if i < |vals| {
      var acc' := if vals[i].None? then acc else acc[names[i] := vals[i].value];
      forall j | 0 <= j < i + 1 && vals[j].Some?
        ensures names[j] in acc' && acc'[names[j]] == vals[j].value
      {
        if j < i {
          assert names[j] != names[i];
        }
      }
      forall k | k in acc'
        ensures exists j :: 0 <= j < i + 1 && names[j] == k && vals[j].Some?
      {
        if k != names[i] || vals[i].None? {
          assert k in acc;
        } else {
          assert names[i] == k;
        }
      }
      GatherPresentCollects(names, vals, i + 1, acc');
    }
  }

  lemma {:induction false} DecodeMembersGathers(f: Flavor, c: Codecs, s: Shape, ms: seq<JMember>,
                                                vals: seq<Option<Value>>, i: nat, acc: map<string, Value>)
    requires s.Structure? && |vals| == |s.members| && i <= |vals|
    requires forall j :: 0 <= j < |vals| ==> (MemberInput(s, ms, j).None? <==> vals[j].None?)
    requires forall j :: 0 <= j < |vals| && vals[j].Some? ==>
      ParseShape(f, c, s.members[j].shape, MemberInput(s, ms, j).value) == Ok(vals[j].value)
    ensures DecodeMembers(f, c, s, ms, i, acc) == Success(GatherPresent(MemberNames(s.members), vals, i, acc))
    decreases |vals| - i
  {
    if i < |vals| {
      var acc' := if vals[i].None? then acc else acc[s.members[i].name := vals[i].value];
      assert DecodeMembers(f, c, s, ms, i, acc) == DecodeMembers(f, c, s, ms, i + 1, acc');
      DecodeMembersGathers(f, c, s, ms, vals, i + 1, acc');
      assert MemberNames(s.members)[i] == s.members[i].name;
    }
  }

  /** The names of a structure's members, in order. */
  function MemberNames(ms: seq<Member>): (r: seq<string>)
    ensures |r| == |ms| && forall j :: 0 <= j < |ms| ==> r[j] == ms[j].name
  {
    if ms == [] then [] else [ms[0].name] + MemberNames(ms[1..])
  }

  lemma GatherPresentFields(names: seq<string>, vals: seq<Option<Value>>)
    requires |names| == |vals|
    requires forall j, j' :: 0 <= j < j' < |names| ==> names[j] != names[j']
    ensures var fields := GatherPresent(names, vals, 0, map[]);
      (forall j :: 0 <= j < |vals| ==> (names[j] in fields <==> vals[j].Some?)) &&
      (forall j :: 0 <= j < |vals| && vals[j].Some? ==> fields[names[j]] == vals[j].value) &&
      (forall k :: k in fields ==> exists j :: 0 <= j < |vals| && names[j] == k)
  {
    GatherPresentCollects(names, vals, 0, map[]);
    var fields := GatherPresent(names, vals, 0, map[]);
    forall j | 0 <= j < |vals| && names[j] in fields
      ensures vals[j].Some?
    {
      var j' :| 0 <= j' < |vals| && names[j'] == names[j] && vals[j'].Some?;
      assert j' == j;
    }
  }

  /** The structure rule: `null` stays `None`; for an object whose members
      decode without raising, the result holds exactly the members present
      and not `null` under their serialized names, keyed by member name. */
  lemma StructureDecoding(f: Flavor, c: Codecs, s: Shape, ms: seq<JMember>, vals: seq<Option<Value>>)
    requires s.Structure? && !s.meta.document && |vals| == |s.members|
    requires forall j :: 0 <= j < |vals| ==> (MemberInput(s, ms, j).None? <==> vals[j].None?)
    requires forall j :: 0 <= j < |vals| && vals[j].Some? ==>
      ParseShape(f, c, s.members[j].shape, MemberInput(s, ms, j).value) == Ok(vals[j].value)
    ensures HandleStructure(f, c, s, JNull) == Ok(VNone)
    ensures HandleStructure(f, c, s, JObject(ms)) == Ok(VDict(GatherPresent(MemberNames(s.members), vals, 0, map[])))
  {
    DecodeMembersGathers(f, c, s, ms, vals, 0, map[]);
  }

  /** With every member absent the member loop adds nothing. */
  lemma {:induction false} DecodeMembersAbsent(f: Flavor, c: Codecs, s: Shape, ms: seq<JMember>, i: nat, acc: map<string, Value>)
    requires s.Structure? && i <= |s.members|
    requires forall j :: i <= j < |s.members| ==> MemberInput(s, ms, j).None?
    ensures DecodeMembers(f, c, s, ms, i, acc) == Success(acc)
    decreases |s.members| - i
  {
    if i < |s.members| {
      DecodeMembersAbsent(f, c, s, ms, i + 1, acc);
    }
  }

  /** An empty body decodes to `{}` for an input structure. */
  lemma EmptyBodyDecoding(c: Codecs, loads: string -> Option<Json>, input: Shape)
    requires input.Structure? && !input.meta.document
    ensures DoParse(c, loads, Some(input), "") == Ok(VDict(map[]))
  {
    forall j | 0 <= j < |input.members|
      ensures MemberInput(input, [], j).None?
    {
    }
    DecodeMembersAbsent(PlainJson, c, input, [], 0, map[]);
    assert ParseBodyAsJson(loads, "") == JObject([]);
    assert HandleStructure(PlainJson, c, input, JObject([])) == Ok(VDict(map[]));
  }

  /** A list decodes element by element, keeping length and order. */
  lemma {:induction false} DecodeItemsElementwise(f: Flavor, c: Codecs, s: Shape, items: seq<Json>, i: nat)
    requires s.ListOf? && i <= |items|
    requires forall k :: i <= k < |items| ==> ParseShape(f, c, s.member, items[k]).Ok?
    ensures var r := DecodeItems(f, c, s, items, i);
      r.Success? && |r.value| == |items| - i &&
      forall k :: 0 <= k < |r.value| ==> Ok(r.value[k]) == ParseShape(f, c, s.member, items[i + k])
    decreases |items| - i
  {
    if i < |items| {
      DecodeItemsElementwise(f, c, s, items, i + 1);
      var rest := DecodeItems(f, c, s, items, i + 1).value;
      var v := ParseShape(f, c, s.member, items[i]).v;
      assert DecodeItems(f, c, s, items, i) == Success([v] + rest);
      forall k | 0 <= k < |rest| + 1
        ensures Ok(([v] + rest)[k]) == ParseShape(f, c, s.member, items[i + k])
      {
        if k > 0 {
          assert ([v] + rest)[k] == rest[k - 1];
          assert i + k == (i + 1) + (k - 1);
        }
      }
    }
  }

  /** The map rule: with a string key shape and values that decode without
      raising, the result has exactly the object's keys, each with the
      decoding of the value `json.loads` keeps for it. */
  lemma {:induction false} DecodeEntriesKeys(f: Flavor, c: Codecs, s: Shape, ms: seq<JMember>, i: nat, acc: map<string, Value>)
    requires s.MapOf? && s.key.Scalar? && s.key.scalar == SString && !IsJsonValueHeader(s.key) && i <= |ms|
    requires forall k :: 0 <= k < |ms| ==> ParseShape(f, c, s.value, ms[k].value).Ok?
    ensures var r := DecodeEntries(f, c, s, ms, i, acc);
      r.Success? &&
      (forall k :: k in r.value <==> k in acc || exists n :: i <= n < |ms| && ms[n].key == k) &&
      (forall n :: i <= n < |ms| && LastOfKey(ms, n) ==> r.value[ms[n].key] == ParseShape(f, c, s.value, ms[n].value).v) &&
      (forall k :: k in acc && (forall n :: i <= n < |ms| ==> ms[n].key != k) ==> r.value[k] == acc[k])
    decreases |ms| - i
  {
    if i < |ms| {
      var acc' := if LastOfKey(ms, i) then acc[ms[i].key := ParseShape(f, c, s.value, ms[i].value).v] else acc;
      assert ParseShape(f, c, s.key, JStr(ms[i].key)) == Ok(VStr(ms[i].key));
      assert DecodeEntries(f, c, s, ms, i, acc) == DecodeEntries(f, c, s, ms, i + 1, acc');
      DecodeEntriesKeys(f, c, s, ms, i + 1, acc');
      var r := DecodeEntries(f, c, s, ms, i, acc).value;
      if !LastOfKey(ms, i) {
        var n :| i < n < |ms| && ms[n].key == ms[i].key;
      }
      forall n | i <= n < |ms| && LastOfKey(ms, n)
        ensures r[ms[n].key] == ParseShape(f, c, s.value, ms[n].value).v
      {
        if n == i {
          assert forall m :: i + 1 <= m < |ms| ==> ms[m].key != ms[i].key;
        }
      }
    }
  }

  /** A map decodes to the dict of its object's entries. */
  lemma MapDecoding(f: Flavor, c: Codecs, s: Shape, ms: seq<JMember>)
    requires s.MapOf? && s.key.Scalar? && s.key.scalar == SString && !IsJsonValueHeader(s.key)
    requires forall k :: 0 <= k < |ms| ==> ParseShape(f, c, s.value, ms[k].value).Ok?
    ensures var r := HandleMap(f, c, s, JObject(ms));
      r.Ok? && r.v.VDict? &&
      (forall k :: k in r.v.fields <==> ObjectGet(ms, k).Some?) &&
      (forall k :: k in r.v.fields ==> Ok(r.v.fields[k]) == ParseShape(f, c, s.value, ObjectGet(ms, k).value))
  {
    DecodeEntriesKeys(f, c, s, ms, 0, map[]);
    var m := DecodeEntries(f, c, s, ms, 0, map[]).value;
    forall k | k in m
      ensures Ok(m[k]) == ParseShape(f, c, s.value, ObjectGet(ms, k).value)
    {
      var n :| 0 <= n < |ms| && ms[n].key == k && ms[n].value == ObjectGet(ms, k).value &&
        forall j :: n < j < |ms| ==> ms[j].key != k;
      assert LastOfKey(ms, n);
    }
  }

  /** The RestJSON boolean rule: native booleans pass through, text is
      compared case-insensitively with `"true"`, anything else is `VUndefined`. */
  lemma RestBooleanDecoding(c: Codecs, s: Shape, j: Json)
    requires s.Scalar? && s.scalar == SBoolean
    ensures var r := ParseShape(RestJson, c, s, j);
      r.Ok? && (r.v.VBool? || r.v == VUndefined) &&
      (j.JBool? ==> r.v == VBool(j.b)) &&
      (j.JStr? ==> r.v == VBool(Lower(j.s) == "true")) &&
      (!j.JBool? && !j.JStr? ==> r.v == VUndefined)
    ensures ParseShape(PlainJson, c, s, j) == Ok(ToValue(j))
  {
  }
}
