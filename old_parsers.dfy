/** The older request decoders of moto/motocore/parsers.py.
    `QueryParser` and `QueryStringParametersParser` walk a shape against a
    flat dictionary of dotted keys, testing membership by plain prefix
    (`startswith`); `JSONParser` walks a decoded JSON value; `RestJSONParser`
    finds the operation by comparing path segments and merges the URI, the
    query string and the body into one dictionary. Member names are passed
    through botocore's `xform_name`, which stays abstract. */
module OldParsers {
  import opened Wrappers
  import opened Values
  import opened Strs
  import opened Shapes

  /** `botocore.xform_name` (CamelCase to snake_case), not defined here. */
  type Xform = string -> string

  /** `QueryParser` reads a request body, or query string, of plain values;
      `QueryStringParametersParser` reads `parse_qs` output, whose values are
      lists, and converts member names only when asked to. */
  datatype FormDialect = FormBody | QueryLists(snakeCase: bool)

  type Params = map<string, Value>

  /** `_has_member`: some key starts with the prefix (an empty key is falsy
      and never counts). */
  predicate HasMember(node: Params, p: string)
  {
    exists k :: k in node && k != "" && StartsWith(k, p)
  }

  /** `_default_handle`. The body decoder falls back to the shape's metadata
      default and then `None`; the query-string decoder takes element 0 of
      the value, so a missing key raises `TypeError` and an empty list
      `IndexError`. */
  function DefaultHandle(d: FormDialect, s: Shape, node: Params, prefix: string): (r: Result<Value, string>)
    ensures d == FormBody && prefix in node ==> r == Success(node[prefix])
    ensures d == FormBody && prefix !in node ==> r == Success(s.meta.default.GetOr(VNone))
    ensures d.QueryLists? && prefix !in node ==> r == Failure("TypeError")
    ensures d.QueryLists? && prefix in node && node[prefix].VList? ==>
      (r.Success? <==> node[prefix].items != []) &&
      (r.Success? ==> r.value == node[prefix].items[0]) && (r.Failure? ==> r.error == "IndexError")
    ensures d.QueryLists? && prefix in node && node[prefix].VStr? ==>
      (r.Success? <==> node[prefix].s != "") && (r.Success? ==> r.value == VStr([node[prefix].s[0]]))
  {
    match d
    case FormBody => Success(if prefix in node then node[prefix] else s.meta.default.GetOr(VNone))
    case QueryLists(_) =>
      if prefix !in node then Failure("TypeError")
      else
        match node[prefix]
        case VList(xs) => if |xs| == 0 then Failure("IndexError") else Success(xs[0])
        case VStr(t) => if |t| == 0 then Failure("IndexError") else Success(VStr([t[0]]))
        case VBytes(bs) => if |bs| == 0 then Failure("IndexError") else Success(VInt(bs[0] as int))
        case VDict(_) => Failure("KeyError")
        case _ => Failure("TypeError")
  }

  /** `int(value)`: integers pass, booleans count 0 or 1, strings are parsed
      (`ValueError` when they are not an integer), a float is truncated
      toward zero, and anything else raises `TypeError`. */
  function ToInt(v: Value): (r: Result<int, string>)
    ensures v.VInt? ==> r == Success(v.i)
    ensures v.VStr? ==> (r.Success? <==> ParseInt(v.s).Some?)
    ensures (v.VNone? || v.VList? || v.VDict?) ==> r == Failure("TypeError")
  {
    match v
    case VInt(i) => Success(i)
    case VBool(b) => Success(if b then 1 else 0)
    case VStr(t) =>
      (match ParseInt(t)
       case Some(i) => Success(i)
       case None => Failure("ValueError"))
    case VFloat(repr) =>
      var whole := match IndexOf(repr, '.') case Some(j) => repr[..j] case None => repr;
      (match ParseInt(whole)
       case Some(i) => Success(i)
       case None => Failure("ValueError"))
    case _ => Failure("TypeError")
  }

  /** `_handle_boolean`. The body decoder passes native booleans through,
      reads a string as `value.lower() == "true"` and anything else as
      `False`; the query-string decoder calls `lower()` on whatever it got. */
  function HandleBoolean(d: FormDialect, s: Shape, node: Params, prefix: string): (r: Result<Value, string>)
    ensures r.Success? ==> r.value.VBool?
    ensures d == FormBody ==> (r.Success? <==> DefaultHandle(d, s, node, prefix).Success?)
  {
    match DefaultHandle(d, s, node, prefix)
    case Failure(e) => Failure(e)
    case Success(v) =>
      match d
      case FormBody =>
        (match v
         case VBool(b) => Success(VBool(b))
         case VStr(t) => Success(VBool(Lower(t) == "true"))
         case _ => Success(VBool(false)))
      case QueryLists(_) =>
        (match v
         case VStr(t) => Success(VBool(Lower(t) == "true"))
         case _ => Failure("AttributeError"))
  }

  /** `_handle_integer`: `int()` of the value read. */
  function HandleInteger(d: FormDialect, s: Shape, node: Params, prefix: string): (r: Result<Value, string>)
    ensures r.Success? ==> r.value.VInt?
    ensures r.Success? <==> DefaultHandle(d, s, node, prefix).Success? && ToInt(DefaultHandle(d, s, node, prefix).value).Success?
  {
    match DefaultHandle(d, s, node, prefix)
    case Failure(e) => Failure(e)
    case Success(v) =>
      match ToInt(v)
      case Failure(e) => Failure(e)
      case Success(i) => Success(VInt(i))
  }

  /** `_parse_shape`: only structures, lists, booleans and integers have a
      handler; every other shape, maps included, is read by `_default_handle`. */
  function ParseShape(d: FormDialect, x: Xform, s: Shape, node: Params, prefix: string): Result<Value, string>
    decreases s, 3
  {
    match s
    case Structure(_, _, _) => HandleStructure(d, x, s, node, prefix)
    case ListOf(_, _, _) => HandleList(d, x, s, node, prefix)
    case MapOf(_, _, _, _) => DefaultHandle(d, s, node, prefix)
    case Scalar(_, _, t) =>
      if t == SBoolean then HandleBoolean(d, s, node, prefix)
      else if t == SInteger then HandleInteger(d, s, node, prefix)
      else DefaultHandle(d, s, node, prefix)
  }

  // ---------------------------------------------------------------------
  // Structures

  /** The key prefix of a member: its `locationName` or name, under the parent prefix. */
  function MemberPrefix(m: Member, prefix: string): string
  {
    var n := SerializedName(m.shape, m.name);
    if prefix != "" then prefix + "." + n else n
  }

  /** A member is decoded when some key starts with its prefix or, in the
      body decoder, when its shape has a metadata default. */
  predicate Included(d: FormDialect, m: Member, node: Params, prefix: string)
  {
    HasMember(node, MemberPrefix(m, prefix)) || (d == FormBody && m.shape.meta.default.Some?)
  }

  /** `_parsed_key_name` */
  function KeyName(d: FormDialect, x: Xform, name: string): string
  {
    match d
    case FormBody => x(name)
    case QueryLists(snake) => if snake then x(name) else name
  }

  function MemberValue(d: FormDialect, x: Xform, s: Shape, node: Params, prefix: string, i: nat): Result<Value, string>
    requires s.Structure? && i < |s.members|
    decreases s, 0, 0
  {
    ParseShape(d, x, s.members[i].shape, node, MemberPrefix(s.members[i], prefix))
  }

  /** The member loop of `_handle_structure`, from member `i` on. */
  function DecodeMembers(d: FormDialect, x: Xform, s: Shape, node: Params, prefix: string, i: nat, acc: map<string, Value>)
    : Result<map<string, Value>, string>
    requires s.Structure? && i <= |s.members|
    decreases s, 1, |s.members| - i
  {
    if i == |s.members| then Success(acc)
    else if !Included(d, s.members[i], node, prefix) then DecodeMembers(d, x, s, node, prefix, i + 1, acc)
    else
      match MemberValue(d, x, s, node, prefix, i)
      case Failure(e) => Failure(e)
      case Success(v) => DecodeMembers(d, x, s, node, prefix, i + 1, acc[KeyName(d, x, s.members[i].name) := v])
  }

  /** `_handle_structure`: always a dictionary, possibly empty. */
  function HandleStructure(d: FormDialect, x: Xform, s: Shape, node: Params, prefix: string): (r: Result<Value, string>)
    requires s.Structure?
    ensures r.Success? ==> r.value.VDict?
    decreases s, 2
  {
    match DecodeMembers(d, x, s, node, prefix, 0, map[])
    case Failure(e) => Failure(e)
    case Success(fields) => Success(VDict(fields))
  }

  /** The converted names of the members decoded from member `i` on. */
  function IncludedKeys(d: FormDialect, x: Xform, ms: seq<Member>, node: Params, prefix: string, i: nat): set<string>
    requires i <= |ms|
    decreases |ms| - i
  {
    if i == |ms| then {}
    else (if Included(d, ms[i], node, prefix) then {KeyName(d, x, ms[i].name)} else {}) + IncludedKeys(d, x, ms, node, prefix, i + 1)
  }

  /** A decoded structure holds exactly the converted names of the members
      that some key starts with (or that have a default, in the body decoder). */
  lemma {:induction false} StructureKeys(d: FormDialect, x: Xform, s: Shape, node: Params, prefix: string, i: nat, acc: map<string, Value>)
    requires s.Structure? && i <= |s.members|
    requires DecodeMembers(d, x, s, node, prefix, i, acc).Success?
    ensures DecodeMembers(d, x, s, node, prefix, i, acc).value.Keys == acc.Keys + IncludedKeys(d, x, s.members, node, prefix, i)
    decreases |s.members| - i
  {
    if i < |s.members| {
      if Included(d, s.members[i], node, prefix) {
        var v := MemberValue(d, x, s, node, prefix, i).value;
        StructureKeys(d, x, s, node, prefix, i + 1, acc[KeyName(d, x, s.members[i].name) := v]);
      } else {
        StructureKeys(d, x, s, node, prefix, i + 1, acc);
      }
    }
  }

  /** `_handle_structure` with its loop over the members. */
  method DecodeStructure(d: FormDialect, x: Xform, s: Shape, node: Params, prefix: string) returns (r: Result<Value, string>)
    requires s.Structure?
    ensures r == HandleStructure(d, x, s, node, prefix)
  {
    var parsed: map<string, Value> := map[];
    var i := 0;
    while i < |s.members|
      invariant 0 <= i <= |s.members|
      invariant DecodeMembers(d, x, s, node, prefix, i, parsed) == DecodeMembers(d, x, s, node, prefix, 0, map[])
      decreases |s.members| - i
    {
      var m := s.members[i];
      if Included(d, m, node, prefix) {
        var v := MemberValue(d, x, s, node, prefix, i);
        if v.Failure? {
          return Failure(v.error);
        }
        parsed := parsed[KeyName(d, x, m.name) := v.value];
      }
      i := i + 1;
    }
    return Success(VDict(parsed));
  }

  // ---------------------------------------------------------------------
  // Lists

  /** `10^n` */
  function Pow10(n: nat): (r: nat)
    ensures r >= 1
  {
    if n == 0 then 1 else 10 * Pow10(n - 1)
  }

  /** A bound on the length of every key. */
  ghost function MaxLen(keys: set<string>): (n: nat)
    ensures forall k :: k in keys ==> |k| <= n
    decreases keys
  {
    if keys == {} then 0
    else
      var k :| k in keys;
      var rest := MaxLen(keys - {k});
      if |k| > rest then |k| else rest
  }

  /** No index whose decimal form is longer than every key can be probed. */
  ghost function ProbeBound(node: Params): nat
  {
    Pow10(MaxLen(node.Keys))
  }

  lemma {:induction false} ShortNumber(i: nat, n: nat)
    requires |NatToString(i)| <= n
    ensures i < Pow10(n)
    decreases i
  {
    if i >= 10 {
      ShortNumber(i / 10, n - 1);
    }
  }

  /** `"{prefix}.{i}"` */
  function ElementName(prefix: string, i: nat): string
  {
    prefix + "." + NatToString(i)
  }

  /** A probe that finds a key has an index below the bound: the loops end. */
  lemma ProbeBounded(node: Params, lp: string, i: nat)
    requires HasMember(node, ElementName(lp, i))
    ensures i < ProbeBound(node)
  {
    var k :| k in node && k != "" && StartsWith(k, ElementName(lp, i));
    assert |NatToString(i)| <= |k| <= MaxLen(node.Keys);
    ShortNumber(i, MaxLen(node.Keys));
  }

  /** The element prefixes of a list: the bare prefix (body decoder only),
      then the member's `locationName` (default `member`) and `member`,
      without repeats. */
  function ListPrefixes(d: FormDialect, s: Shape, prefix: string): (r: seq<string>)
    requires s.ListOf?
  {
    var n := s.member.ser.name.GetOr("member");
    var named := if n == "member" then [prefix + ".member"] else [prefix + "." + n, prefix + ".member"];
    if d == FormBody then [prefix] + named else named
  }

  /** The `while` loop of `_handle_list` on one element prefix: indices
      `i`, `i + 1`, ... as long as some key starts with `"{lp}.{i}"`. */
  function Probe(d: FormDialect, x: Xform, s: Shape, node: Params, lp: string, i: nat): Result<seq<Value>, string>
    requires s.ListOf?
    decreases s, 0, ProbeBound(node) - i
  {
    if !HasMember(node, ElementName(lp, i)) then Success([])
    else
      ProbeBounded(node, lp, i);
      match Element(d, x, s, node, lp, i)
      case Failure(e) => Failure(e)
      case Success(v) =>
        match Probe(d, x, s, node, lp, i + 1)
        case Failure(e) => Failure(e)
        case Success(rest) => Success([v] + rest)
  }

  /** The element at index `i` of an element prefix. */
  function Element(d: FormDialect, x: Xform, s: Shape, node: Params, lp: string, i: nat): Result<Value, string>
    requires s.ListOf?
    decreases s, 0, 0
  {
    ParseShape(d, x, s.member, node, ElementName(lp, i))
  }

  /** The probes of the element prefixes from `j` on, concatenated in order. */
  function ProbeAll(d: FormDialect, x: Xform, s: Shape, node: Params, lps: seq<string>, j: nat): Result<seq<Value>, string>
    requires s.ListOf? && j <= |lps|
    decreases s, 1, |lps| - j
  {
    if j == |lps| then Success([])
    else
      match Probe(d, x, s, node, lps[j], 1)
      case Failure(e) => Failure(e)
      case Success(vs) =>
        match ProbeAll(d, x, s, node, lps, j + 1)
        case Failure(e) => Failure(e)
        case Success(rest) => Success(vs + rest)
  }

  /** `_handle_list`: always a list, possibly empty. */
  function HandleList(d: FormDialect, x: Xform, s: Shape, node: Params, prefix: string): (r: Result<Value, string>)
    requires s.ListOf?
    ensures r.Success? ==> r.value.VList?
    decreases s, 2
  {
    match ProbeAll(d, x, s, node, ListPrefixes(d, s, prefix), 0)
    case Failure(e) => Failure(e)
    case Success(items) => Success(VList(items))
  }

  /** Each element prefix yields exactly the contiguous run of indices from
      1 that some key starts with, each decoded at its own index. */
  lemma ProbeContiguous(d: FormDialect, x: Xform, s: Shape, node: Params, lp: string, i: nat)
    requires s.ListOf? && Probe(d, x, s, node, lp, i).Success?
    ensures var vs := Probe(d, x, s, node, lp, i).value;
      (forall k :: i <= k < i + |vs| ==> HasMember(node, ElementName(lp, k))) &&
      (forall k :: i <= k < i + |vs| ==> Element(d, x, s, node, lp, k) == Success(vs[k - i])) &&
      !HasMember(node, ElementName(lp, i + |vs|))
  {
    ProbeKeys(d, x, s, node, lp, i);
    var vs := Probe(d, x, s, node, lp, i).value;
    forall k | i <= k < i + |vs|
      ensures Element(d, x, s, node, lp, k) == Success(vs[k - i])
    {
      ProbeElement(d, x, s, node, lp, i, k);
    }
  }

  /** A probe runs over exactly the indices from `i` that some key starts
      with, stopping at the first index none does. */
  lemma {:induction false} ProbeKeys(d: FormDialect, x: Xform, s: Shape, node: Params, lp: string, i: nat)
    requires s.ListOf? && Probe(d, x, s, node, lp, i).Success?
    ensures var vs := Probe(d, x, s, node, lp, i).value;
      (forall k :: i <= k < i + |vs| ==> HasMember(node, ElementName(lp, k))) &&
      !HasMember(node, ElementName(lp, i + |vs|))
    decreases ProbeBound(node) - i
  {
    if HasMember(node, ElementName(lp, i)) {
      ProbeStep(d, x, s, node, lp, i);
      ProbeKeys(d, x, s, node, lp, i + 1);
      var vs := Probe(d, x, s, node, lp, i).value;
      var pr := Probe(d, x, s, node, lp, i + 1).value;
      assert |vs| == 1 + |pr|;
      forall k | i <= k < i + |vs|
        ensures HasMember(node, ElementName(lp, k))
      {
        if k > i {
          assert i + 1 <= k < i + 1 + |pr|;
        }
      }
    } else {
      assert Probe(d, x, s, node, lp, i) == Success([]);
    }
  }

  /** Each value a probe yields is the element decoded at its own index. */
  lemma {:induction false} ProbeElement(d: FormDialect, x: Xform, s: Shape, node: Params, lp: string, i: nat, k: nat)
    requires s.ListOf? && Probe(d, x, s, node, lp, i).Success?
    requires i <= k < i + |Probe(d, x, s, node, lp, i).value|
    ensures Element(d, x, s, node, lp, k) == Success(Probe(d, x, s, node, lp, i).value[k - i])
    decreases ProbeBound(node) - i
  {
    var vs := Probe(d, x, s, node, lp, i).value;
    assert HasMember(node, ElementName(lp, i));
    ProbeStep(d, x, s, node, lp, i);
    if k > i {
      var rest := Probe(d, x, s, node, lp, i + 1).value;
      assert vs[k - i] == rest[k - (i + 1)];
      ProbeElement(d, x, s, node, lp, i + 1, k);
    }
  }

  /** A successful probe that finds index `i` is that element followed by
      the probe from `i + 1`. */
  lemma ProbeStep(d: FormDialect, x: Xform, s: Shape, node: Params, lp: string, i: nat)
    requires s.ListOf? && Probe(d, x, s, node, lp, i).Success? && HasMember(node, ElementName(lp, i))
    ensures i < ProbeBound(node)
    ensures Element(d, x, s, node, lp, i).Success? && Probe(d, x, s, node, lp, i + 1).Success?
    ensures Probe(d, x, s, node, lp, i).value == [Element(d, x, s, node, lp, i).value] + Probe(d, x, s, node, lp, i + 1).value
  {
    ProbeBounded(node, lp, i);
  }

  /** The element prefixes: the body decoder starts with the bare prefix,
      the query-string decoder never tries it, and `member` is always last. */
  lemma ListPrefixesLayout(d: FormDialect, s: Shape, prefix: string)
    requires s.ListOf?
    ensures var lps := ListPrefixes(d, s, prefix);
      var n := s.member.ser.name.GetOr("member");
      lps[|lps| - 1] == prefix + ".member" &&
      (d == FormBody ==> lps[0] == prefix) &&
      (d.QueryLists? ==> prefix !in lps) &&
      (n != "member" ==> lps[|lps| - 2] == prefix + "." + n) &&
      |lps| == (if d == FormBody then 1 else 0) + (if n == "member" then 1 else 2)
  {
    var lps := ListPrefixes(d, s, prefix);
    var n := s.member.ser.name.GetOr("member");
    assert |prefix + ".member"| > |prefix| && |prefix + "." + n| > |prefix|;
    if n == "member" {
      assert lps == (if d == FormBody then [prefix] else []) + [prefix + ".member"];
    } else {
      assert lps == (if d == FormBody then [prefix] else []) + [prefix + "." + n, prefix + ".member"];
    }
  }

  /** A list decodes to the element runs of its prefixes, in prefix order. */
  lemma {:induction false} ProbeAllConcat(d: FormDialect, x: Xform, s: Shape, node: Params, lps: seq<string>, j: nat)
    requires s.ListOf? && j <= |lps|
    requires forall k :: j <= k < |lps| ==> Probe(d, x, s, node, lps[k], 1).Success?
    ensures ProbeAll(d, x, s, node, lps, j).Success?
    ensures |lps| > j ==> (ProbeAll(d, x, s, node, lps, j).value ==
      Probe(d, x, s, node, lps[j], 1).value + ProbeAll(d, x, s, node, lps, j + 1).value)
    decreases |lps| - j
  {
    if j < |lps| {
      ProbeAllConcat(d, x, s, node, lps, j + 1);
    }
  }

  /** The `while` loop of `_handle_list` on one element prefix: the
      element at index 1, 2, ... is appended while some key starts with it. */
  method ProbeRun(d: FormDialect, x: Xform, s: Shape, node: Params, lp: string) returns (r: Result<seq<Value>, string>)
    requires s.ListOf?
    ensures r == Probe(d, x, s, node, lp, 1)
  {
    var run: seq<Value> := [];
    PrependNil(Probe(d, x, s, node, lp, 1));
    var i := 1;
    while HasMember(node, ElementName(lp, i))
      invariant i >= 1
      invariant Prepend(run, Probe(d, x, s, node, lp, i)) == Probe(d, x, s, node, lp, 1)
      decreases ProbeBound(node) - i
    {
      ProbeBounded(node, lp, i);
      var v := Element(d, x, s, node, lp, i);
      if v.Failure? {
        assert Probe(d, x, s, node, lp, i) == Failure(v.error);
        return Failure(v.error);
      }
      PrependStep(run, v.value, Probe(d, x, s, node, lp, i + 1));
      run := run + [v.value];
      i := i + 1;
    }
    assert Probe(d, x, s, node, lp, i) == Success([]);
    assert run + [] == run;
    return Success(run);
  }

  /** `_handle_list` with its loop over the element prefixes. */
  method DecodeList(d: FormDialect, x: Xform, s: Shape, node: Params, prefix: string) returns (r: Result<Value, string>)
    requires s.ListOf?
    ensures r == HandleList(d, x, s, node, prefix)
  {
    var lps := ListPrefixes(d, s, prefix);
    var parsed: seq<Value> := [];
    PrependNil(ProbeAll(d, x, s, node, lps, 0));
    var j := 0;
    while j < |lps|
      invariant 0 <= j <= |lps|
      invariant Prepend(parsed, ProbeAll(d, x, s, node, lps, j)) == ProbeAll(d, x, s, node, lps, 0)
      decreases |lps| - j
    {
      var run := ProbeRun(d, x, s, node, lps[j]);
      if run.Failure? {
        assert ProbeAll(d, x, s, node, lps, j) == Failure(run.error);
        return Failure(run.error);
      }
      PrependAppend(parsed, run.value, ProbeAll(d, x, s, node, lps, j + 1));
      parsed := parsed + run.value;
      j := j + 1;
    }
    assert parsed + [] == parsed;
    return Success(VList(parsed));
  }

  /** A decoded prefix put in front of what the rest of a loop decodes. */
  function Prepend(xs: seq<Value>, r: Result<seq<Value>, string>): Result<seq<Value>, string>
  {
    match r
    case Success(ys) => Success(xs + ys)
    case Failure(e) => Failure(e)
  }

  lemma PrependNil(r: Result<seq<Value>, string>)
    ensures Prepend([], r) == r
  {
    if r.Success? {
      assert [] + r.value == r.value;
    }
  }

  lemma PrependStep(xs: seq<Value>, v: Value, r: Result<seq<Value>, string>)
    ensures Prepend(xs + [v], r) == Prepend(xs, match r case Success(ys) => Success([v] + ys) case Failure(e) => Failure(e))
  {
    if r.Success? {
      assert xs + [v] + r.value == xs + ([v] + r.value);
    }
  }

  lemma PrependAppend(xs: seq<Value>, run: seq<Value>, r: Result<seq<Value>, string>)
    ensures Prepend(xs + run, r) == Prepend(xs, match r case Success(ys) => Success(run + ys) case Failure(e) => Failure(e))
  {
    if r.Success? {
      assert xs + run + r.value == xs + (run + r.value);
    }
  }

  // ---------------------------------------------------------------------
  // Scalars

  /** The body decoder's booleans: a native boolean passes, a string is
      true exactly when it lower-cases to `"true"`, anything else is false;
      a missing key reads the metadata default. */
  lemma FormBooleanDecoding(s: Shape, node: Params, prefix: string)
    ensures var v := if prefix in node then node[prefix] else s.meta.default.GetOr(VNone);
      HandleBoolean(FormBody, s, node, prefix) ==
        Success(VBool(if v.VBool? then v.b else v.VStr? && Lower(v.s) == "true"))
  {
  }

  /** The query-string decoder reads element 0 of a key's list of values,
      and a boolean from its lower-cased text. */
  lemma QueryListsFirstElement(snake: bool, s: Shape, node: Params, prefix: string)
    requires prefix in node && node[prefix].VList? && |node[prefix].items| > 0
    ensures DefaultHandle(QueryLists(snake), s, node, prefix) == Success(node[prefix].items[0])
    ensures node[prefix].items[0].VStr? ==>
      HandleBoolean(QueryLists(snake), s, node, prefix) == Success(VBool(Lower(node[prefix].items[0].s) == "true"))
  {
  }

  // ---------------------------------------------------------------------
  // `QueryParser.parse` and `QueryStringParametersParser.parse`

  /** The outcome of `parse`: the converted action name and the arguments. */
  datatype ParsedRequest = ParsedRequest(action: string, kwargs: Value)

  /** `QueryParser._parse_action`: the body's `Action` when the body is not
      empty, else the query string's; `VNone` when neither has one. */
  function QueryAction(body: Params, qs: Params): (r: Value)
    ensures body != map[] && "Action" in body && body["Action"] != VNone ==> r == body["Action"]
    ensures (body == map[] || "Action" !in body || body["Action"] == VNone) ==>
      r == (if qs != map[] && "Action" in qs then qs["Action"] else VNone)
  {
    var fromBody := if body != map[] && "Action" in body then body["Action"] else VNone;
    if fromBody != VNone then fromBody
    else if qs != map[] && "Action" in qs then qs["Action"]
    else VNone
  }

  /** `QueryParser._do_parse`: the body when it is not empty, else the query string. */
  function QueryDoParse(x: Xform, body: Params, qs: Params, input: Shape): (r: Result<Value, string>)
    ensures body != map[] ==> r == ParseShape(FormBody, x, input, body, "")
    ensures body == map[] ==> r == ParseShape(FormBody, x, input, qs, "")
  {
    ParseShape(FormBody, x, input, if body != map[] then body else qs, "")
  }

  /** `QueryParser.parse`: the action names the operation (an unknown one is
      `OperationNotFoundError`); the arguments are `{}` without an input shape. */
  function QueryParse(x: Xform, operations: map<string, OperationModel>, body: Params, qs: Params): (r: Result<ParsedRequest, string>)
    ensures r.Success? ==> exists a :: QueryAction(body, qs) == VStr(a) && a in operations && r.value.action == x(a)
    ensures (forall a :: QueryAction(body, qs) == VStr(a) ==> a !in operations) ==> r == Failure("OperationNotFoundError")
    ensures QueryAction(body, qs).VStr? && QueryAction(body, qs).s in operations ==> (
      var a := QueryAction(body, qs).s;
      var op := operations[a];
      (op.input.None? ==> r == Success(ParsedRequest(x(a), VDict(map[])))) &&
      (op.input.Some? ==>
        var decoded := ParseShape(FormBody, x, op.input.value, if body != map[] then body else qs, "");
        (decoded.Success? ==> r == Success(ParsedRequest(x(a), decoded.value))) &&
        (decoded.Failure? ==> r == Failure(decoded.error))))
  {
    match QueryAction(body, qs)
    case VStr(a) =>
      if a !in operations then Failure("OperationNotFoundError")
      else
        (match operations[a].input
         case None => Success(ParsedRequest(x(a), VDict(map[])))
         case Some(input) =>
           (match QueryDoParse(x, body, qs, input)
            case Failure(e) => Failure(e)
            case Success(v) => Success(ParsedRequest(x(a), v))))
    case _ => Failure("OperationNotFoundError")
  }

  /** `QueryStringParametersParser.parse`: `{}` without a shape. */
  function QueryStringParse(snake: bool, x: Xform, qs: Params, input: Option<Shape>): (r: Result<Value, string>)
    ensures input.None? ==> r == Success(VDict(map[]))
    ensures input.Some? ==> r == ParseShape(QueryLists(snake), x, input.value, qs, "")
  {
    match input
    case None => Success(VDict(map[]))
    case Some(s) => ParseShape(QueryLists(snake), x, s, qs, "")
  }

  // ---------------------------------------------------------------------
  // `JSONParser`

  /** `value[key]` */
  function Index(v: Value, key: string): (r: Result<Value, string>)
    ensures r.Success? <==> v.VDict? && key in v.fields
  {
    match v
    case VDict(f) => if key in f then Success(f[key]) else Failure("KeyError")
    case _ => Failure("TypeError")
  }

  /** `value.get(key)`: `None` for a missing key; only dictionaries have it. */
  function Get(v: Value, key: string): (r: Result<Value, string>)
  {
    match v
    case VDict(f) => Success(if key in f then f[key] else VNone)
    case _ => Failure("AttributeError")
  }

  /** An item `any` counts: a non-empty (truthy) string with the prefix. */
  predicate ItemStartsWith(v: Value, p: string)
  {
    v.VStr? && v.s != "" && StartsWith(v.s, p)
  }

  /** `any(i for i in items if i.startswith(p))` over a list: each item is
      checked in order until one counts. The first item that is not a string
      raises: `TypeError` for bytes, whose `startswith` refuses a string
      prefix, and `AttributeError` for anything else. */
  function AnyItemStartsWith(items: seq<Value>, p: string): (r: Result<bool, string>)
    ensures r == Success(true) <==>
      exists j :: 0 <= j < |items| && ItemStartsWith(items[j], p) && forall k :: 0 <= k < j ==> items[k].VStr?
    ensures r == Success(false) <==> forall j :: 0 <= j < |items| ==> items[j].VStr? && !ItemStartsWith(items[j], p)
    ensures r.Failure? ==> r.error == "AttributeError" || r.error == "TypeError"
  {
    if |items| == 0 then Success(false)
    else
      match items[0]
      case VStr(t) =>
        if t != "" && StartsWith(t, p) then
          assert ItemStartsWith(items[0], p);
          Success(true)
        else
          var r := AnyItemStartsWith(items[1..], p);
          assert forall j :: 1 <= j < |items| ==> items[j] == items[1..][j - 1];
          assert r == Success(true) ==>
            exists j :: 1 <= j < |items| && ItemStartsWith(items[j], p) && forall k :: 0 <= k < j ==> items[k].VStr? by {
            if r == Success(true) {
              var j :| 0 <= j < |items[1..]| && ItemStartsWith(items[1..][j], p) && forall k :: 0 <= k < j ==> items[1..][k].VStr?;
              assert ItemStartsWith(items[j + 1], p) && forall k :: 0 <= k < j + 1 ==> items[k].VStr?;
            }
          }
          assert (exists j :: 0 <= j < |items| && ItemStartsWith(items[j], p) && forall k :: 0 <= k < j ==> items[k].VStr?) ==>
            r == Success(true) by {
            if j :| 0 <= j < |items| && ItemStartsWith(items[j], p) && forall k :: 0 <= k < j ==> items[k].VStr? {
              assert j > 0;
              assert ItemStartsWith(items[1..][j - 1], p) && forall k :: 0 <= k < j - 1 ==> items[1..][k].VStr?;
            }
          }
          r
      case VBytes(_) => Failure("TypeError")
      case _ => Failure("AttributeError")
  }

  /** `_has_member` on a decoded JSON value: the keys of a dictionary, the
      items of a list, the characters of a string; other values are not
      iterable. */
  function HasMemberJson(v: Value, p: string): (r: Result<bool, string>)
    ensures v.VDict? ==> r == Success(exists k :: k in v.fields && k != "" && StartsWith(k, p))
  {
    match v
    case VDict(f) => Success(exists k :: k in f && k != "" && StartsWith(k, p))
    case VList(items) => AnyItemStartsWith(items, p)
    case VStr(t) => Success((t != "" && p == "") || (|p| == 1 && p[0] in t))
    case VBytes(bs) => if |bs| == 0 then Success(false) else Failure("AttributeError")
    case _ => Failure("TypeError")
  }

  /** The values a `for` loop visits: list items and string characters. */
  function Iterate(v: Value): (r: Result<seq<Value>, string>)
    ensures v.VList? ==> r == Success(v.items)
  {
    match v
    case VList(items) => Success(items)
    case VStr(t) => Success(seq(|t|, j requires 0 <= j < |t| => VStr([t[j]])))
    case VBytes(bs) => Success(seq(|bs|, j requires 0 <= j < |bs| => VInt(bs[j] as int)))
    case _ => Failure("TypeError")
  }

  /** `JSONParser._default_handle`: a non-empty key is looked up with `get`,
      otherwise the value itself is the scalar. */
  function JsonDefaultHandle(v: Value, key: Option<string>): Result<Value, string>
  {
    if key.Some? && key.value != "" then Get(v, key.value) else Success(v)
  }

  /** `JSONParser._parse_shape`: a structure or list reached through a key
      first indexes it (`query_params[key]`); list items are decoded on their
      own, without a key; booleans use truthiness. */
  function JsonParseShape(x: Xform, s: Shape, v: Value, key: Option<string>): Result<Value, string>
    decreases s, 2
  {
    match s
    case Structure(_, _, _) =>
      (match (if key.Some? then Index(v, key.value) else Success(v))
       case Failure(e) => Failure(e)
       case Success(target) =>
         (match JsonMembers(x, s, target, 0, map[])
          case Failure(e) => Failure(e)
          case Success(fields) => Success(VDict(fields))))
    case ListOf(_, _, _) =>
      (match (if key.Some? then Index(v, key.value) else Success(v))
       case Failure(e) => Failure(e)
       case Success(target) =>
         (match Iterate(target)
          case Failure(e) => Failure(e)
          case Success(items) =>
            (match JsonItems(x, s, items, 0)
             case Failure(e) => Failure(e)
             case Success(vs) => Success(VList(vs)))))
    case MapOf(_, _, _, _) => JsonDefaultHandle(v, key)
    case Scalar(_, _, t) =>
      (match JsonDefaultHandle(v, key)
       case Failure(e) => Failure(e)
       case Success(u) =>
         if t == SBoolean then Success(VBool(Truthy(u)))
         else if t == SInteger then
           (match ToInt(u)
            case Failure(e) => Failure(e)
            case Success(i) => Success(VInt(i)))
         else Success(u))
  }

  /** The member loop of `JSONParser._handle_structure`. */
  function JsonMembers(x: Xform, s: Shape, v: Value, i: nat, acc: map<string, Value>): Result<map<string, Value>, string>
    requires s.Structure? && i <= |s.members|
    decreases s, 1, |s.members| - i
  {
    if i == |s.members| then Success(acc)
    else
      var m := s.members[i];
      var loc := SerializedName(m.shape, m.name);
      match HasMemberJson(v, loc)
      case Failure(e) => Failure(e)
      case Success(false) => JsonMembers(x, s, v, i + 1, acc)
      case Success(true) =>
        match JsonParseShape(x, m.shape, v, Some(loc))
        case Failure(e) => Failure(e)
        case Success(u) => JsonMembers(x, s, v, i + 1, acc[x(m.name) := u])
  }

  /** The item loop of `JSONParser._handle_list`. */
  function JsonItems(x: Xform, s: Shape, items: seq<Value>, i: nat): (r: Result<seq<Value>, string>)
    requires s.ListOf? && i <= |items|
    ensures r.Success? ==> |r.value| == |items| - i
    decreases s, 0, |items| - i
  {
    if i == |items| then Success([])
    else
      match JsonParseShape(x, s.member, items[i], None)
      case Failure(e) => Failure(e)
      case Success(u) =>
        match JsonItems(x, s, items, i + 1)
        case Failure(e) => Failure(e)
        case Success(rest) => Success([u] + rest)
  }

  /** JSON list items are decoded one by one, in order. */
  lemma {:induction false} JsonItemsElementwise(x: Xform, s: Shape, items: seq<Value>, i: nat)
    requires s.ListOf? && i <= |items| && JsonItems(x, s, items, i).Success?
    ensures forall j :: i <= j < |items| ==> JsonParseShape(x, s.member, items[j], None) == Success(JsonItems(x, s, items, i).value[j - i])
    decreases |items| - i
  {
    if i < |items| {
      JsonItemsElementwise(x, s, items, i + 1);
    }
  }

  /** JSON booleans are the truthiness of the value under the key. */
  lemma JsonBooleanTruthiness(x: Xform, ser: Serialization, meta: Metadata, f: map<string, Value>, key: string)
    requires key != ""
    ensures JsonParseShape(x, Scalar(ser, meta, SBoolean), VDict(f), Some(key)) ==
      Success(VBool(key in f && Truthy(f[key])))
  {
  }

  /** The last `.`-separated field of a string is what follows its last `.`. */
  lemma {:induction false} SplitLast(s: string, c: char)
    ensures var parts := Split(s, c);
      var p := parts[|parts| - 1];
      EndsWith(s, p) && (|p| < |s| ==> s[|s| - |p| - 1] == c)
  {
    var parts := Split(s, c);
    JoinSplit(s, c);
    JoinLast(parts, c);
  }

  lemma {:induction false} JoinLast(parts: seq<string>, c: char)
    requires |parts| >= 1
    ensures var s := Join(parts, [c]);
      var p := parts[|parts| - 1];
      EndsWith(s, p) && (|parts| > 1 ==> |p| < |s| && s[|s| - |p| - 1] == c)
    decreases |parts|
  {
    if |parts| > 1 {
      JoinLast(parts[1..], c);
      var rest := Join(parts[1..], [c]);
      var s := Join(parts, [c]);
      assert s == parts[0] + [c] + rest;
      var p := parts[|parts| - 1];
      assert p == parts[1..][|parts[1..]| - 1];
      assert s[|s| - |p|..] == rest[|rest| - |p|..];
      if |parts[1..]| > 1 {
        assert s[|s| - |p| - 1] == rest[|rest| - |p| - 1];
      } else {
        assert rest == p;
        assert s[|s| - |p| - 1] == c;
      }
    }
  }

  lemma SplitWhole(s: string, c: char)
    ensures c !in s ==> Split(s, c) == [s]
  {
    if c !in s {
      SplitAbsent(s, c);
    }
  }

  /** `JSONParser._parse_action`: the last `.`-separated field of
      `X-Amz-Target`, of `"."` (so `""`) when the header is absent. */
  function JsonAction(headers: map<string, string>): (r: string)
    ensures '.' !in r
    ensures "X-Amz-Target" !in headers ==> r == ""
    ensures var t := if "X-Amz-Target" in headers then headers["X-Amz-Target"] else ".";
      EndsWith(t, r) && (|r| < |t| ==> t[|t| - |r| - 1] == '.')
    ensures "X-Amz-Target" in headers && '.' !in headers["X-Amz-Target"] ==> r == headers["X-Amz-Target"]
  {
    var t := if "X-Amz-Target" in headers then headers["X-Amz-Target"] else ".";
    var parts := Split(t, '.');
    SplitLast(t, '.');
    SplitWhole(t, '.');
    parts[|parts| - 1]
  }

  /** `JSONParser.parse`: the body is decoded with `json.loads` (a failure
      raises) and walked from the top without a key. */
  function JsonParse(x: Xform, loads: string -> Option<Value>, operations: map<string, OperationModel>,
                     headers: map<string, string>, body: string): (r: Result<ParsedRequest, string>)
    ensures r.Success? ==> JsonAction(headers) in operations && r.value.action == x(JsonAction(headers))
    ensures JsonAction(headers) in operations && operations[JsonAction(headers)].input.None? ==>
      r == Success(ParsedRequest(x(JsonAction(headers)), VDict(map[])))
    ensures JsonAction(headers) !in operations ==> r == Failure("OperationNotFoundError")
    ensures JsonAction(headers) in operations && operations[JsonAction(headers)].input.Some? ==> (
      var a := JsonAction(headers);
      (loads(body).None? ==> r == Failure("JSONDecodeError")) &&
      (loads(body).Some? ==>
        var decoded := JsonParseShape(x, operations[a].input.value, loads(body).value, None);
        (decoded.Success? ==> r == Success(ParsedRequest(x(a), decoded.value))) &&
        (decoded.Failure? ==> r == Failure(decoded.error))))
  {
    var action := JsonAction(headers);
    if action !in operations then Failure("OperationNotFoundError")
    else
      match operations[action].input
      case None => Success(ParsedRequest(x(action), VDict(map[])))
      case Some(input) =>
        match loads(body)
        case None => Failure("JSONDecodeError")
        case Some(data) =>
          match JsonParseShape(x, input, data, None)
          case Failure(e) => Failure(e)
          case Success(v) => Success(ParsedRequest(x(action), v))
  }

  // ---------------------------------------------------------------------
  // `RestJSONParser`

  /** A `{...}` segment of a request URI. */
  predicate IsLabel(part: string)
  {
    StartsWith(part, "{") && EndsWith(part, "}")
  }

  /** `part[1:-1]` of a label. */
  function LabelName(part: string): (r: string)
    requires IsLabel(part)
    ensures |r| == |part| - 2
  {
    assert part[0] == '{' && part[|part| - 1] == '}';
    part[1..|part| - 1]
  }

  /** Segment-wise agreement: as many segments, and labels match anything. */
  predicate SegmentsMatch(pathParts: seq<string>, uriParts: seq<string>)
  {
    |pathParts| == |uriParts| &&
    forall i :: 0 <= i < |pathParts| ==> IsLabel(uriParts[i]) || pathParts[i] == uriParts[i]
  }

  predicate OperationMatches(op: OperationModel, verb: string, path: string)
  {
    op.http.verb == Some(verb) && op.http.requestUri.Some? &&
    SegmentsMatch(Split(path, '/'), Split(op.http.requestUri.value, '/'))
  }

  /** `_parse_rest_action`: the first operation, in model order, with the
      request's method, as many path segments, and equal segments wherever
      its URI has no label; `None` when there is none. A binding without
      `method`, or a same-method binding without `requestUri`, raises `KeyError`. */
  function RestAction(ops: seq<OperationModel>, verb: string, path: string): (r: Result<Option<OperationModel>, string>)
    ensures r == Success(None) ==> forall i :: 0 <= i < |ops| ==> !OperationMatches(ops[i], verb, path)
    ensures r.Success? && r.value.Some? ==> exists i :: (0 <= i < |ops| && ops[i] == r.value.value &&
      OperationMatches(ops[i], verb, path) && forall j :: 0 <= j < i ==> !OperationMatches(ops[j], verb, path))
    ensures r.Success? && r.value.Some? ==> OperationMatches(r.value.value, verb, path)
    ensures (forall i :: 0 <= i < |ops| ==> ops[i].http.verb.Some? && ops[i].http.requestUri.Some?) ==> r.Success?
    decreases |ops|, 1
  {
    if |ops| == 0 then Success(None)
    else
      var op := ops[0];
      if op.http.verb.None? then Failure("KeyError")
      else if op.http.verb.value != verb then RestActionRest(ops, verb, path)
      else if op.http.requestUri.None? then Failure("KeyError")
      else if SegmentsMatch(Split(path, '/'), Split(op.http.requestUri.value, '/')) then Success(Some(op))
      else RestActionRest(ops, verb, path)
  }

  function RestActionRest(ops: seq<OperationModel>, verb: string, path: string): (r: Result<Option<OperationModel>, string>)
    requires |ops| > 0 && !OperationMatches(ops[0], verb, path)
    ensures r == Success(None) ==> forall i :: 0 <= i < |ops| ==> !OperationMatches(ops[i], verb, path)
    ensures r.Success? && r.value.Some? ==> exists i :: (0 <= i < |ops| && ops[i] == r.value.value &&
      OperationMatches(ops[i], verb, path) && forall j :: 0 <= j < i ==> !OperationMatches(ops[j], verb, path))
    ensures (forall i :: 1 <= i < |ops| ==> ops[i].http.verb.Some? && ops[i].http.requestUri.Some?) ==> r.Success?
    decreases |ops|, 0
  {
    var r := RestAction(ops[1..], verb, path);
    assert forall i :: 1 <= i < |ops| ==> ops[i] == ops[1..][i - 1];
    if r.Success? && r.value.Some? then
      var i :| 0 <= i < |ops[1..]| && ops[1..][i] == r.value.value && OperationMatches(ops[1..][i], verb, path) &&
        forall j :: 0 <= j < i ==> !OperationMatches(ops[1..][j], verb, path);
      assert ops[i + 1] == r.value.value && OperationMatches(ops[i + 1], verb, path);
      assert forall j :: 0 <= j < i + 1 ==> !OperationMatches(ops[j], verb, path);
      r
    else r
  }

  /** `_parse_uri_params` as a value: `{}` when the segment counts differ,
      otherwise each label's name (braces removed) bound to the request's
      segment at that position, a later label of the same name winning. */
  function UriParams(pathParts: seq<string>, uriParts: seq<string>, i: nat): (m: map<string, string>)
    requires |pathParts| == |uriParts| && i <= |uriParts|
  {
    if i == 0 then map[]
    else
      var m := UriParams(pathParts, uriParts, i - 1);
      if IsLabel(uriParts[i - 1]) then m[LabelName(uriParts[i - 1]) := pathParts[i - 1]] else m
  }

  function ParseUriParamsSpec(path: string, uriTemplate: string): map<string, string>
  {
    var pp := Split(path, '/');
    var up := Split(uriTemplate, '/');
    if |pp| != |up| then map[] else UriParams(pp, up, |up|)
  }

  /** `_parse_uri_params` with its loop over the segments. */
  method ParseUriParams(path: string, uriTemplate: string) returns (params: map<string, string>)
    ensures params == ParseUriParamsSpec(path, uriTemplate)
  {
    var pp := Split(path, '/');
    var up := Split(uriTemplate, '/');
    if |pp| != |up| {
      return map[];
    }
    params := map[];
    var i := 0;
    while i < |pp|
      invariant 0 <= i <= |pp|
      invariant params == UriParams(pp, up, i)
      decreases |pp| - i
    {
      if StartsWith(up[i], "{") && EndsWith(up[i], "}") {
        params := params[LabelName(up[i]) := pp[i]];
      }
      i := i + 1;
    }
  }

  /** The URI parameters are exactly the label names. */
  lemma {:induction false} UriParamsKeys(pathParts: seq<string>, uriParts: seq<string>, i: nat)
    requires |pathParts| == |uriParts| && i <= |uriParts|
    ensures UriParams(pathParts, uriParts, i).Keys == set j | 0 <= j < i && IsLabel(uriParts[j]) :: LabelName(uriParts[j])
    decreases i
  {
    if i > 0 {
      UriParamsKeys(pathParts, uriParts, i - 1);
      var prev := set j | 0 <= j < i - 1 && IsLabel(uriParts[j]) :: LabelName(uriParts[j]);
      var now := set j | 0 <= j < i && IsLabel(uriParts[j]) :: LabelName(uriParts[j]);
      if IsLabel(uriParts[i - 1]) {
        assert now == prev + {LabelName(uriParts[i - 1])};
      } else {
        assert now == prev;
      }
    }
  }

  /** Each URI parameter holds the request segment under its last label. */
  lemma {:induction false} UriParamsBinding(pathParts: seq<string>, uriParts: seq<string>, i: nat, j: nat)
    requires |pathParts| == |uriParts| && j < i <= |uriParts| && IsLabel(uriParts[j])
    requires forall k :: j < k < i && IsLabel(uriParts[k]) ==> LabelName(uriParts[k]) != LabelName(uriParts[j])
    ensures LabelName(uriParts[j]) in UriParams(pathParts, uriParts, i)
    ensures UriParams(pathParts, uriParts, i)[LabelName(uriParts[j])] == pathParts[j]
    decreases i
  {
    if j < i - 1 {
      UriParamsBinding(pathParts, uriParts, i - 1, j);
    }
  }

  /** `RestJSONParser.parse` merges the URI parameters, then the query
      string, then the body's members; a later source overrides an earlier one. */
  function MergeRestData(uri: map<string, string>, qs: Params, body: Params): (data: Params)
    ensures data.Keys == uri.Keys + qs.Keys + body.Keys
    ensures forall k :: k in body ==> data[k] == body[k]
    ensures forall k :: k in qs && k !in body ==> data[k] == qs[k]
    ensures forall k :: k in uri && k !in qs && k !in body ==> data[k] == VStr(uri[k])
  {
    (map k | k in uri :: VStr(uri[k])) + qs + body
  }

  /** The body's dictionary: none for an empty body, else `json.loads`,
      which must give a dictionary for `data.update(**...)`. */
  function RestBody(loads: string -> Option<Value>, body: string): (r: Result<Params, string>)
    ensures body == "" ==> r == Success(map[])
    ensures body != "" && loads(body).None? ==> r == Failure("JSONDecodeError")
    ensures body != "" && loads(body).Some? && loads(body).value.VDict? ==> r == Success(loads(body).value.fields)
    ensures body != "" && loads(body).Some? && !loads(body).value.VDict? ==> r == Failure("TypeError")
  {
    if body == "" then Success(map[])
    else match loads(body)
      case None => Failure("JSONDecodeError")
      case Some(VDict(f)) => Success(f)
      case Some(_) => Failure("TypeError")
  }

  /** `RestJSONParser.parse`: the operation found by `_parse_rest_action`
      (none raises `OperationNotFoundError`), the merged data (a body that
      does not decode to a dictionary raises) walked from the top. */
  function RestJsonParse(x: Xform, loads: string -> Option<Value>, ops: seq<OperationModel>,
                         verb: string, path: string, qs: Params, body: string): (r: Result<ParsedRequest, string>)
    ensures r.Success? ==> exists i :: 0 <= i < |ops| && OperationMatches(ops[i], verb, path) && r.value.action == x(ops[i].name)
    ensures RestAction(ops, verb, path).Failure? ==> r == Failure(RestAction(ops, verb, path).error)
    ensures RestAction(ops, verb, path) == Success(None) ==> r == Failure("OperationNotFoundError")
    ensures RestAction(ops, verb, path).Success? && RestAction(ops, verb, path).value.Some? ==> (
      var op := RestAction(ops, verb, path).value.value;
      var b := RestBody(loads, body);
      (b.Failure? ==> r == Failure(b.error)) &&
      (b.Success? && op.input.None? ==> r == Success(ParsedRequest(x(op.name), VDict(map[])))) &&
      (b.Success? && op.input.Some? ==>
        var data := MergeRestData(ParseUriParamsSpec(path, op.http.requestUri.value), qs, b.value);
        var decoded := JsonParseShape(x, op.input.value, VDict(data), None);
        (decoded.Success? ==> r == Success(ParsedRequest(x(op.name), decoded.value))) &&
        (decoded.Failure? ==> r == Failure(decoded.error))))
  {
    match RestAction(ops, verb, path)
    case Failure(e) => Failure(e)
    case Success(None) => Failure("OperationNotFoundError")
    case Success(Some(op)) =>
      var uri := ParseUriParamsSpec(path, op.http.requestUri.value);
      match RestBody(loads, body)
      case Failure(e) => Failure(e)
      case Success(b) =>
        var data := MergeRestData(uri, qs, b);
        match op.input
        case None => Success(ParsedRequest(x(op.name), VDict(map[])))
        case Some(input) =>
          match JsonParseShape(x, input, VDict(data), None)
          case Failure(e) => Failure(e)
          case Success(v) => Success(ParsedRequest(x(op.name), v))
  }
}
