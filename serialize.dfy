/** The dictionary response serializers of moto/motocore/serialize.py:
    `Serializer`, `DictSerializer` and its `QuerySerializer`,
    `QueryJSONSerializer` and `JSONSerializer` variants. A result value is
    walked along the output shape; an exception takes the error envelope. */
module Serialize {
  import opened Wrappers
  import opened Values
  import opened Strs
  import opened Shapes

  /** The serializer classes that differ in how they write values. */
  datatype Flavor = DictF | QueryF | QueryJsonF | JsonF

  /** The text conversions the serializers call but do not define:
      `xform_name`, `str` of values without a simple text form, the
      timestamp conversion for a format name, UTF-8 encoding,
      `xmltodict.unparse`, `json.dumps` with its default separators and
      with the compact `separators=(",", ":")`, and the order in which a
      `for` loop visits a dict's keys (its insertion order, which a `VDict`
      does not keep). */
  datatype Formats = Formats(
    xform: string -> string,
    repr: Value -> string,
    timestampText: (Value, string) -> string,
    utf8: string -> seq<bv8>,
    unparse: Value -> string,
    dumps: Value -> string,
    compactDumps: Value -> string,
    keyOrder: map<string, Value> -> seq<string>)

  /** `Serializer.DEFAULT_RESPONSE_CODE` and `DEFAULT_ERROR_RESPONSE_CODE`. */
  const DefaultResponseCode := 200
  const DefaultErrorResponseCode := 400

  /** An encoded body: the dict itself (`DictSerializer`), the XML text
      (`QuerySerializer`) or the JSON bytes (`QueryJSONSerializer`). */
  datatype Body = BodyDict(d: map<string, Value>) | BodyText(t: string) | BodyBytes(bs: seq<bv8>)

  /** `len(body)`: for a dict, its number of keys. */
  function BodyLength(b: Body): nat
  {
    match b
    case BodyDict(d) => |d|
    case BodyText(t) => |t|
    case BodyBytes(bs) => |bs|
  }

  datatype Response = Response(status: int, headers: map<string, Value>, body: Body)

  /** `_create_default_response` */
  function DefaultResponse(): (r: Response)
    ensures r.status == 200 && r.headers == map[] && r.body == BodyBytes([])
  {
    Response(DefaultResponseCode, map[], BodyBytes([]))
  }

  /** `str(value)` */
  function Str(f: Formats, v: Value): string
  {
    match v
    case VStr(s) => s
    case VBool(b) => if b then "True" else "False"
    case VInt(i) => IntToString(i)
    case VNone => "None"
    case _ => f.repr(v)
  }

  /** `_get_base64`: text is UTF-8 encoded first; other values raise. */
  function Base64(c: Codecs, f: Formats, v: Value): (r: Result<string, string>)
    ensures v.VBytes? ==> r == Success(c.b64encode(v.bytes))
    ensures !v.VBytes? && !v.VStr? ==> r == Failure("TypeError")
  {
    match v
    case VBytes(bs) => Success(c.b64encode(bs))
    case VStr(s) => Success(c.b64encode(f.utf8(s)))
    case _ => Failure("TypeError")
  }

  /** The keys `_get_possible_keys` tries for `key` on a dict value: the
      name as `xform_name` gives it, the name itself, and the same two with
      the class name `dict` cut out when it occurs in the name. */
  function PossibleKeys(f: Formats, key: string): (r: seq<string>)
    ensures |r| >= 2 && r[0] == f.xform(key) && r[1] == key
  {
    var base := [f.xform(key), key];
    if Contains(key, "dict") then
      var short := ReplaceAll(key, "dict", "");
      base + [f.xform(short), short]
    else base
  }

  /** The first key of `keys` whose value in `fields` is present and not `None`. */
  function FirstPresent(fields: map<string, Value>, keys: seq<string>): (r: Value)
    ensures r == VNone <==> forall i :: 0 <= i < |keys| ==> keys[i] !in fields || fields[keys[i]] == VNone
    ensures r != VNone ==> exists i :: 0 <= i < |keys| && keys[i] in fields && fields[keys[i]] == r
  {
    if |keys| == 0 then VNone
    else if keys[0] in fields && fields[keys[0]] != VNone then fields[keys[0]]
    else FirstPresent(fields, keys[1..])
  }

  /** `_get_value`: on a dict, the first possible key with a value that is
      not `None`; on any other value, `getattr` finds nothing. */
  function GetValue(f: Formats, v: Value, key: string): Value
  {
    if v.VDict? then FirstPresent(v.fields, PossibleKeys(f, key)) else VNone
  }

  /** The elements a `for` loop over a list value visits: a list's items,
      a string's characters, a dict's keys; anything else is not iterable. */
  function Iterated(f: Formats, v: Value): (r: Option<seq<Value>>)
    ensures r.Some? <==> v.VList? || v.VStr? || v.VDict?
    ensures v.VList? ==> r == Some(v.items)
    ensures v.VStr? ==> |r.value| == |v.s| && forall i :: 0 <= i < |v.s| ==> r.value[i] == VStr([v.s[i]])
    ensures v.VDict? ==> |r.value| == |f.keyOrder(v.fields)|
    ensures v.VDict? ==> forall i :: 0 <= i < |r.value| ==> r.value[i] == VStr(f.keyOrder(v.fields)[i])
  {
    match v
    case VList(items) => Some(items)
    case VStr(s) => Some(seq(|s|, i requires 0 <= i < |s| => VStr([s[i]])))
    case VDict(m) => var ks := f.keyOrder(m); Some(seq(|ks|, i requires 0 <= i < |ks| => VStr(ks[i])))
    case _ => None
  }

  function KeyError(): string { "KeyError" }

  /** `_serialize`: what is written under the key for `value`, or nothing
      (a `None` structure writes no key). */
  function Ser(fl: Flavor, c: Codecs, f: Formats, s: Shape, v: Value): (r: Result<Option<Value>, string>)
    ensures r.Success? && r.value.None? ==> s.Structure? && v == VNone
    decreases s, 1
  {
    match s
    case Structure(_, _, _) =>
      if v == VNone then Success(None)
      else
        var m :- Members(fl, c, f, s, v, 0, map[]);
        Success(Some(VDict(m)))
    case MapOf(_, _, _, _) =>
      if !v.VDict? then Failure("AttributeError")
      else
        var m :- MapEntries(fl, c, f, s, v.fields);
        Success(Some(VDict(m)))
    case ListOf(_, _, _) =>
      (match Iterated(f, v)
       case None => Failure("TypeError")
       case Some(items) =>
         var xs :- ListItems(fl, c, f, s, items, 0);
         if fl == DictF || fl == QueryF then Success(Some(VDict(map[SerializedName(s.member, "member") := VList(xs)])))
         else Success(Some(VList(xs))))
    case Scalar(_, _, t) =>
      match t
      case SBoolean =>
        if fl == QueryJsonF then Success(Some(VBool(Truthy(v))))
        else Success(Some(VStr(Lower(Str(f, v)))))
      case STimestamp => Success(Some(VStr(f.timestampText(v, "iso8601"))))
      case SBlob =>
        var t :- Base64(c, f, v);
        Success(Some(VStr(t)))
      case _ => Success(Some(v))
  }

  /** `_serialize_type_structure` from member `i` on: members whose
      looked-up value is `None` are skipped; the others are written under
      their `locationName`, else their own name. */
  function Members(fl: Flavor, c: Codecs, f: Formats, s: Shape, v: Value, i: nat, acc: map<string, Value>)
    : (r: Result<map<string, Value>, string>)
    requires s.Structure? && i <= |s.members|
    decreases s, 0, |s.members| - i
  {
    if i == |s.members| then Success(acc)
    else
      var m := s.members[i];
      var mv := GetValue(f, v, m.name);
      if mv == VNone then Members(fl, c, f, s, v, i + 1, acc)
      else
        var x :- Ser(fl, c, f, m.shape, mv);
        var key := SerializedName(m.shape, m.name);
        Members(fl, c, f, s, v, i + 1, if x.Some? then acc[key := x.value] else acc)
  }

  /** The list loop: each item goes through a wrapper dict under
      `__current__`; an item that writes nothing makes the read of
      `wrapper["__current__"]` raise `KeyError`. */
  function ListItems(fl: Flavor, c: Codecs, f: Formats, s: Shape, items: seq<Value>, i: nat)
    : (r: Result<seq<Value>, string>)
    requires s.ListOf? && i <= |items|
    ensures r.Success? ==> |r.value| == |items| - i
    decreases s, 0, |items| - i
  {
    if i == |items| then Success([])
    else
      var x :- Ser(fl, c, f, s.member, items[i]);
      if x.None? then Failure(KeyError())
      else
        var rest :- ListItems(fl, c, f, s, items, i + 1);
        Success([x.value] + rest)
  }

  /** `_serialize_type_map`: every entry serialized with the value shape. An
      entry that writes nothing is absent. When entries raise, the first
      failing one in the dict's key order decides the exception; a key order
      that lists no failing key falls back to `KeyError`, then `TypeError`,
      then `AttributeError`, whichever occurs. */
  function MapEntries(fl: Flavor, c: Codecs, f: Formats, s: Shape, fields: map<string, Value>)
    : (r: Result<map<string, Value>, string>)
    requires s.MapOf?
    ensures r.Success? <==> forall k :: k in fields ==> Ser(fl, c, f, s.value, fields[k]).Success?
    ensures r.Success? ==> r.value.Keys <= fields.Keys
    ensures r.Success? ==> forall k :: k in fields ==>
      (k in r.value <==> Ser(fl, c, f, s.value, fields[k]).value.Some?) &&
      (k in r.value ==> r.value[k] == Ser(fl, c, f, s.value, fields[k]).value.value)
    ensures var ks := f.keyOrder(fields);
      forall i :: (0 <= i < |ks| && ks[i] in fields && Ser(fl, c, f, s.value, fields[ks[i]]).Failure? &&
                   forall j :: 0 <= j < i && ks[j] in fields ==> Ser(fl, c, f, s.value, fields[ks[j]]).Success?) ==>
        r == Failure(Ser(fl, c, f, s.value, fields[ks[i]]).error)
    decreases s, 0, 0
  {
    var results := map k | k in fields :: Ser(fl, c, f, s.value, fields[k]);
    assert forall k :: k in fields ==> k in results && results[k] == Ser(fl, c, f, s.value, fields[k]);
    if exists k :: k in results && results[k].Failure? then
      match FirstFailing(f.keyOrder(fields), results, 0)
      case Some(e) => Failure(e)
      case None =>
        if exists k :: k in results && results[k] == Failure(KeyError()) then Failure(KeyError())
        else if exists k :: k in results && results[k] == Failure("TypeError") then Failure("TypeError")
        else Failure("AttributeError")
    else
      Success(map k | k in results && results[k].value.Some? :: results[k].value.value)
  }

  /** `ks[j]` is the first key from `i` on whose result failed. */
  predicate FirstFailedFrom(ks: seq<string>, results: map<string, Result<Option<Value>, string>>, i: nat, j: nat)
    requires i <= j < |ks|
  {
    ks[j] in results && results[ks[j]].Failure? &&
    forall l :: i <= l < j ==> !(ks[l] in results && results[ks[l]].Failure?)
  }

  /** The error of the first key from `i` on whose result failed. */
  function FirstFailing(ks: seq<string>, results: map<string, Result<Option<Value>, string>>, i: nat): (r: Option<string>)
    requires i <= |ks|
    ensures r.None? ==> forall j :: i <= j < |ks| ==> !(ks[j] in results && results[ks[j]].Failure?)
    ensures forall j :: i <= j < |ks| && FirstFailedFrom(ks, results, i, j) ==> r == Some(results[ks[j]].error)
    decreases |ks| - i
  {
    if i == |ks| then None
    else if ks[i] in results && results[ks[i]].Failure? then Some(results[ks[i]].error)
    else FirstFailing(ks, results, i + 1)
  }

  /** The items already appended, in front of what the rest of the loop gives. */
  function AfterItems(xs: seq<Value>, r: Result<seq<Value>, string>): Result<seq<Value>, string>
  {
    match r
    case Success(rest) => Success(xs + rest)
    case Failure(e) => Failure(e)
  }

  /** One step of the list loop, in terms of `ListItems`. */
  lemma ListItemsStep(fl: Flavor, c: Codecs, f: Formats, s: Shape, items: seq<Value>, i: nat, xs: seq<Value>)
    requires s.ListOf? && i < |items|
    ensures var x := Ser(fl, c, f, s.member, items[i]);
      (x.Failure? ==> AfterItems(xs, ListItems(fl, c, f, s, items, i)) == Failure(x.error)) &&
      (x.Success? && x.value.None? ==> AfterItems(xs, ListItems(fl, c, f, s, items, i)) == Failure(KeyError())) &&
      (x.Success? && x.value.Some? ==> (AfterItems(xs, ListItems(fl, c, f, s, items, i)) ==
        AfterItems(xs + [x.value.value], ListItems(fl, c, f, s, items, i + 1))))
  {
    var x := Ser(fl, c, f, s.member, items[i]);
    var rest := ListItems(fl, c, f, s, items, i + 1);
    if x.Success? && x.value.Some? && rest.Success? {
      assert xs + ([x.value.value] + rest.value) == (xs + [x.value.value]) + rest.value;
    }
  }

  /** `_serialize_type_list` as the loop that appends each item. */
  method SerializeList(fl: Flavor, c: Codecs, f: Formats, s: Shape, items: seq<Value>)
    returns (r: Result<seq<Value>, string>)
    requires s.ListOf?
    ensures r == ListItems(fl, c, f, s, items, 0)
  {
    var listObj: seq<Value> := [];
    var i := 0;
    assert AfterItems([], ListItems(fl, c, f, s, items, 0)) == ListItems(fl, c, f, s, items, 0) by {
      if ListItems(fl, c, f, s, items, 0).Success? {
        assert [] + ListItems(fl, c, f, s, items, 0).value == ListItems(fl, c, f, s, items, 0).value;
      }
    }
    while i < |items|
      invariant 0 <= i <= |items|
      invariant ListItems(fl, c, f, s, items, 0) == AfterItems(listObj, ListItems(fl, c, f, s, items, i))
      decreases |items| - i
    {
      var x := Ser(fl, c, f, s.member, items[i]);
      ListItemsStep(fl, c, f, s, items, i, listObj);
      if x.Failure? {
        return Failure(x.error);
      }
      if x.value.None? {
        return Failure(KeyError());
      }
      listObj := listObj + [x.value.value];
      i := i + 1;
    }
    assert listObj + [] == listObj;
    return Success(listObj);
  }

  // ---------------------------------------------------------------------
  // Properties of the value walk.

  /** A member is written exactly when its looked-up value is not `None`,
      and then under its wire name; keys written before stay unless a
      later member shares the wire name. */
  lemma MembersKeysWritten(fl: Flavor, c: Codecs, f: Formats, s: Shape, v: Value, i: nat, acc: map<string, Value>)
    requires s.Structure? && i <= |s.members|
    requires Members(fl, c, f, s, v, i, acc).Success?
    ensures forall k :: k in Members(fl, c, f, s, v, i, acc).value ==>
      (k in acc || exists j :: (i <= j < |s.members| && GetValue(f, v, s.members[j].name) != VNone &&
        SerializedName(s.members[j].shape, s.members[j].name) == k))
  {
    forall k | k in Members(fl, c, f, s, v, i, acc).value
      ensures k in acc || exists j :: (i <= j < |s.members| && GetValue(f, v, s.members[j].name) != VNone &&
        SerializedName(s.members[j].shape, s.members[j].name) == k)
    {
      MemberKeyOrigin(fl, c, f, s, v, i, acc, k);
    }
  }

  /** Keys written before the loop stay, and every member whose value is
      not `None` is written. */
  lemma MembersKeysKept(fl: Flavor, c: Codecs, f: Formats, s: Shape, v: Value, i: nat, acc: map<string, Value>)
    requires s.Structure? && i <= |s.members|
    requires Members(fl, c, f, s, v, i, acc).Success?
    ensures forall k :: k in acc ==> k in Members(fl, c, f, s, v, i, acc).value
    ensures forall j :: i <= j < |s.members| && GetValue(f, v, s.members[j].name) != VNone ==>
      SerializedName(s.members[j].shape, s.members[j].name) in Members(fl, c, f, s, v, i, acc).value
  {
    forall k | k in acc
      ensures k in Members(fl, c, f, s, v, i, acc).value
    {
      MemberKeyKept(fl, c, f, s, v, i, acc, k);
    }
    forall j | i <= j < |s.members| && GetValue(f, v, s.members[j].name) != VNone
      ensures SerializedName(s.members[j].shape, s.members[j].name) in Members(fl, c, f, s, v, i, acc).value
    {
      MemberKeyWritten(fl, c, f, s, v, i, acc, j);
    }
  }

  /** A written key was there before or is the wire name of a member from
      `i` on whose value is not `None`. */
  lemma {:induction false} MemberKeyOrigin(fl: Flavor, c: Codecs, f: Formats, s: Shape, v: Value, i: nat,
                                           acc: map<string, Value>, k: string)
    requires s.Structure? && i <= |s.members|
    requires Members(fl, c, f, s, v, i, acc).Success?
    requires k in Members(fl, c, f, s, v, i, acc).value
    ensures k in acc || exists j :: (i <= j < |s.members| && GetValue(f, v, s.members[j].name) != VNone &&
      SerializedName(s.members[j].shape, s.members[j].name) == k)
    decreases |s.members| - i
  {
    if i < |s.members| {
      MembersStep(fl, c, f, s, v, i, acc);
      var m := s.members[i];
      var mv := GetValue(f, v, m.name);
      if mv == VNone {
        MemberKeyOrigin(fl, c, f, s, v, i + 1, acc, k);
      } else {
        var key := SerializedName(m.shape, m.name);
        MemberKeyOrigin(fl, c, f, s, v, i + 1, acc[key := Ser(fl, c, f, m.shape, mv).value.value], k);
        if k == key && k !in acc {
          assert i <= i < |s.members| && GetValue(f, v, s.members[i].name) != VNone &&
            SerializedName(s.members[i].shape, s.members[i].name) == k;
        }
      }
    }
  }

  /** A key written before the loop is still there after it. */
  lemma {:induction false} MemberKeyKept(fl: Flavor, c: Codecs, f: Formats, s: Shape, v: Value, i: nat,
                                         acc: map<string, Value>, k: string)
    requires s.Structure? && i <= |s.members|
    requires Members(fl, c, f, s, v, i, acc).Success?
    requires k in acc
    ensures k in Members(fl, c, f, s, v, i, acc).value
    decreases |s.members| - i
  {
    if i < |s.members| {
      MembersStep(fl, c, f, s, v, i, acc);
      var m := s.members[i];
      var mv := GetValue(f, v, m.name);
      if mv == VNone {
        MemberKeyKept(fl, c, f, s, v, i + 1, acc, k);
      } else {
        MemberKeyKept(fl, c, f, s, v, i + 1, acc[SerializedName(m.shape, m.name) := Ser(fl, c, f, m.shape, mv).value.value], k);
      }
    }
  }

  /** Member `j` is written under its wire name when its value is not `None`. */
  lemma MemberKeyWritten(fl: Flavor, c: Codecs, f: Formats, s: Shape, v: Value, i: nat,
                         acc: map<string, Value>, j: nat)
    requires s.Structure? && i <= j < |s.members|
    requires Members(fl, c, f, s, v, i, acc).Success?
    requires GetValue(f, v, s.members[j].name) != VNone
    ensures SerializedName(s.members[j].shape, s.members[j].name) in Members(fl, c, f, s, v, i, acc).value
  {
    var accj := MembersReach(fl, c, f, s, v, i, acc, j);
    MemberKeyWrittenHere(fl, c, f, s, v, j, accj);
  }

  /** The loop from member `i` finishes as it does from member `j` with the
      keys written in between. */
  lemma {:induction false} MembersReach(fl: Flavor, c: Codecs, f: Formats, s: Shape, v: Value, i: nat,
                                        acc: map<string, Value>, j: nat) returns (accj: map<string, Value>)
    requires s.Structure? && i <= j <= |s.members|
    requires Members(fl, c, f, s, v, i, acc).Success?
    ensures Members(fl, c, f, s, v, i, acc) == Members(fl, c, f, s, v, j, accj)
    decreases j - i
  {
    if i == j {
      return acc;
    }
    var next := MembersNext(fl, c, f, s, v, i, acc);
    accj := MembersReach(fl, c, f, s, v, i + 1, next, j);
  }

  /** The keys written after one more member of a successful loop. */
  lemma MembersNext(fl: Flavor, c: Codecs, f: Formats, s: Shape, v: Value, i: nat, acc: map<string, Value>)
    returns (next: map<string, Value>)
    requires s.Structure? && i < |s.members|
    requires Members(fl, c, f, s, v, i, acc).Success?
    ensures Members(fl, c, f, s, v, i, acc) == Members(fl, c, f, s, v, i + 1, next)
  {
    MembersStep(fl, c, f, s, v, i, acc);
    var m := s.members[i];
    var mv := GetValue(f, v, m.name);
    next := if mv == VNone then acc else acc[SerializedName(m.shape, m.name) := Ser(fl, c, f, m.shape, mv).value.value];
  }

  /** The member at `i` is written under its wire name when its value is not
      `None`. */
  lemma MemberKeyWrittenHere(fl: Flavor, c: Codecs, f: Formats, s: Shape, v: Value, i: nat, acc: map<string, Value>)
    requires s.Structure? && i < |s.members|
    requires Members(fl, c, f, s, v, i, acc).Success?
    requires GetValue(f, v, s.members[i].name) != VNone
    ensures SerializedName(s.members[i].shape, s.members[i].name) in Members(fl, c, f, s, v, i, acc).value
  {
    MembersStep(fl, c, f, s, v, i, acc);
    var m := s.members[i];
    var key := SerializedName(m.shape, m.name);
    MemberKeyKept(fl, c, f, s, v, i + 1, acc[key := Ser(fl, c, f, m.shape, GetValue(f, v, m.name)).value.value], key);
  }

  /** One member of the loop: a `None` value is skipped, any other is
      serialized to something and stored under its wire name. */
  lemma MembersStep(fl: Flavor, c: Codecs, f: Formats, s: Shape, v: Value, i: nat, acc: map<string, Value>)
    requires s.Structure? && i < |s.members|
    requires Members(fl, c, f, s, v, i, acc).Success?
    ensures GetValue(f, v, s.members[i].name) == VNone ==>
      Members(fl, c, f, s, v, i, acc) == Members(fl, c, f, s, v, i + 1, acc)
    ensures GetValue(f, v, s.members[i].name) != VNone ==>
      Ser(fl, c, f, s.members[i].shape, GetValue(f, v, s.members[i].name)).Success? &&
      Ser(fl, c, f, s.members[i].shape, GetValue(f, v, s.members[i].name)).value.Some?
    ensures GetValue(f, v, s.members[i].name) != VNone ==>
      Members(fl, c, f, s, v, i, acc) ==
        Members(fl, c, f, s, v, i + 1, acc[SerializedName(s.members[i].shape, s.members[i].name) :=
          Ser(fl, c, f, s.members[i].shape, GetValue(f, v, s.members[i].name)).value.value])
  {
  }

  /** Booleans are the texts `"true"`/`"false"`, except in QueryJSON where
      they stay native booleans. */
  lemma BooleanSerialization(fl: Flavor, c: Codecs, f: Formats, s: Shape, b: bool)
    requires s.Scalar? && s.scalar == SBoolean
    ensures fl == QueryJsonF ==> Ser(fl, c, f, s, VBool(b)) == Success(Some(VBool(b)))
    ensures fl != QueryJsonF ==> Ser(fl, c, f, s, VBool(b)) == Success(Some(VStr(if b then "true" else "false")))
  {
    if fl != QueryJsonF {
      BoolText(f, b);
    }
  }

  /** Python's `str` of a boolean, lower-cased. */
  lemma BoolText(f: Formats, b: bool)
    ensures Lower(Str(f, VBool(b))) == if b then "true" else "false"
  {
    if b {
      assert Lower("True") == "true";
    } else {
      assert Lower("False") == "false";
    }
  }

  /** Dict and Query lists nest under the member's `locationName`
      (default `member`); QueryJSON and JSON lists are plain. */
  lemma ListNesting(fl: Flavor, c: Codecs, f: Formats, s: Shape, items: seq<Value>)
    requires s.ListOf?
    requires ListItems(fl, c, f, s, items, 0).Success?
    ensures var xs := ListItems(fl, c, f, s, items, 0).value;
      Ser(fl, c, f, s, VList(items)) ==
      if fl == DictF || fl == QueryF then Success(Some(VDict(map[SerializedName(s.member, "member") := VList(xs)])))
      else Success(Some(VList(xs)))
  {
  }

  /** A list item that writes nothing (a `None` structure) raises `KeyError`. */
  lemma NoneStructureItem(fl: Flavor, c: Codecs, f: Formats, s: Shape, items: seq<Value>, i: nat)
    requires s.ListOf? && s.member.Structure? && i < |items| && items[i] == VNone
    requires forall j :: 0 <= j < i ==> (Ser(fl, c, f, s.member, items[j]).Success? &&
      Ser(fl, c, f, s.member, items[j]).value.Some?)
    ensures ListItems(fl, c, f, s, items, 0) == Failure(KeyError())
  {
    NoneItemFrom(fl, c, f, s, items, 0, i);
  }

  lemma {:induction false} NoneItemFrom(fl: Flavor, c: Codecs, f: Formats, s: Shape, items: seq<Value>, k: nat, i: nat)
    requires s.ListOf? && s.member.Structure? && k <= i < |items| && items[i] == VNone
    requires forall j :: k <= j < i ==> (Ser(fl, c, f, s.member, items[j]).Success? &&
      Ser(fl, c, f, s.member, items[j]).value.Some?)
    ensures ListItems(fl, c, f, s, items, k) == Failure(KeyError())
    decreases i - k
  {
    if k < i {
      NoneItemFrom(fl, c, f, s, items, k + 1, i);
    }
  }

  // ---------------------------------------------------------------------
  // Dicts iterate over their keys.

  /** `ks` is an iteration order of `m`: as many entries as `m` has keys,
      and exactly the keys of `m` among them, as a Python dict has. */
  ghost predicate KeyOrderOf(ks: seq<string>, m: map<string, Value>)
  {
    |ks| == |m| && forall k :: k in m <==> k in ks
  }

  /** A sequence that holds every element of a set is at least as long. */
  lemma {:induction false} KeysAtMost(ks: seq<string>, keys: set<string>)
    requires forall k :: k in keys ==> k in ks
    ensures |keys| <= |ks|
  {
    if ks == [] {
      assert keys == {};
    } else {
      var rest := keys - {ks[0]};
      forall k | k in rest
        ensures k in ks[1..]
      {
        var i :| 0 <= i < |ks| && ks[i] == k;
        assert ks[1..][i - 1] == k;
      }
      KeysAtMost(ks[1..], rest);
    }
  }

  /** An iteration order lists no key twice. */
  lemma {:induction false} KeyOrderDistinct(ks: seq<string>, keys: set<string>)
    requires |ks| == |keys| && forall k :: k in keys <==> k in ks
    ensures forall i, j :: 0 <= i < j < |ks| ==> ks[i] != ks[j]
  {
    if ks != [] {
      var rest := keys - {ks[0]};
      assert ks[0] !in ks[1..] by {
        if ks[0] in ks[1..] {
          forall k | k in keys
            ensures k in ks[1..]
          {
            var i :| 0 <= i < |ks| && ks[i] == k;
            if i > 0 {
              assert ks[1..][i - 1] == k;
            }
          }
          KeysAtMost(ks[1..], keys);
        }
      }
      forall k
        ensures k in rest <==> k in ks[1..]
      {
        if k in ks && k != ks[0] {
          var i :| 0 <= i < |ks| && ks[i] == k;
          assert ks[1..][i - 1] == k;
        }
      }
      KeyOrderDistinct(ks[1..], rest);
      forall i, j | 0 <= i < j < |ks|
        ensures ks[i] != ks[j]
      {
        assert ks[j] == ks[1..][j - 1];
        if i > 0 {
          assert ks[i] == ks[1..][i - 1];
        }
      }
    }
  }

  /** Under an iteration order of its keys, a `for` loop over a dict visits
      each of its keys exactly once. */
  lemma DictIterated(f: Formats, m: map<string, Value>)
    requires KeyOrderOf(f.keyOrder(m), m)
    ensures var xs := Iterated(f, VDict(m)).value;
      |xs| == |m| &&
      (forall k :: k in m <==> VStr(k) in xs) &&
      (forall i, j :: 0 <= i < j < |xs| ==> xs[i] != xs[j])
  {
    var ks := f.keyOrder(m);
    var xs := Iterated(f, VDict(m)).value;
    KeyOrderDistinct(ks, m.Keys);
    forall k
      ensures k in m <==> VStr(k) in xs
    {
      if k in ks {
        var i :| 0 <= i < |ks| && ks[i] == k;
        assert xs[i] == VStr(k);
      }
      if VStr(k) in xs {
        var i :| 0 <= i < |xs| && xs[i] == VStr(k);
        assert ks[i] == k;
      }
    }
  }

  /** Text items of a list of strings are written as they are. */
  lemma {:induction false} StringItems(fl: Flavor, c: Codecs, f: Formats, s: Shape, items: seq<Value>, i: nat)
    requires s.ListOf? && s.member.Scalar? && s.member.scalar == SString && i <= |items|
    requires forall j :: 0 <= j < |items| ==> items[j].VStr?
    ensures ListItems(fl, c, f, s, items, i) == Success(items[i..])
    decreases |items| - i
  {
    if i < |items| {
      assert Ser(fl, c, f, s.member, items[i]) == Success(Some(items[i]));
      StringItems(fl, c, f, s, items, i + 1);
      assert ListItems(fl, c, f, s, items, i) == Success([items[i]] + items[i + 1..]);
      assert items[i..] == [items[i]] + items[i + 1..];
    } else {
      assert ListItems(fl, c, f, s, items, i) == Success([]);
      assert items[i..] == [];
    }
  }

  /** A dict given for a list of strings serialises as the list of its
      keys, one item per key in the dict's iteration order, nested under
      the member's name for the dict and Query serializers. */
  lemma DictAsList(fl: Flavor, c: Codecs, f: Formats, s: Shape, m: map<string, Value>)
    requires s.ListOf? && s.member.Scalar? && s.member.scalar == SString
    requires KeyOrderOf(f.keyOrder(m), m)
    ensures var xs := Iterated(f, VDict(m)).value;
      |xs| == |m| &&
      (forall i :: 0 <= i < |xs| ==> xs[i] == VStr(f.keyOrder(m)[i])) &&
      (forall k :: k in m <==> VStr(k) in xs) &&
      (forall i, j :: 0 <= i < j < |xs| ==> xs[i] != xs[j]) &&
      Ser(fl, c, f, s, VDict(m)) ==
        if fl == DictF || fl == QueryF then Success(Some(VDict(map[SerializedName(s.member, "member") := VList(xs)])))
        else Success(Some(VList(xs)))
  {
    var xs := Iterated(f, VDict(m)).value;
    DictIterated(f, m);
    StringItems(fl, c, f, s, xs, 0);
    assert xs[0..] == xs;
  }

  /** `ks[i]` is the first key, in the order `ks`, whose entry fails. */
  ghost predicate FirstFailingEntry(fl: Flavor, c: Codecs, f: Formats, vs: Shape, fields: map<string, Value>,
                                    ks: seq<string>, i: nat)
    requires i < |ks|
  {
    ks[i] in fields && Ser(fl, c, f, vs, fields[ks[i]]).Failure? &&
    forall j :: 0 <= j < i ==> ks[j] in fields && Ser(fl, c, f, vs, fields[ks[j]]).Success?
  }

  lemma {:induction false} FirstFailingFrom(fl: Flavor, c: Codecs, f: Formats, vs: Shape, fields: map<string, Value>,
                                            ks: seq<string>, i: nat, j0: nat)
    requires i <= j0 < |ks| && forall j :: 0 <= j < |ks| ==> ks[j] in fields
    requires Ser(fl, c, f, vs, fields[ks[j0]]).Failure?
    requires forall j :: 0 <= j < i ==> Ser(fl, c, f, vs, fields[ks[j]]).Success?
    ensures exists n :: i <= n <= j0 && FirstFailingEntry(fl, c, f, vs, fields, ks, n)
    decreases j0 - i
  {
    if Ser(fl, c, f, vs, fields[ks[i]]).Failure? {
      assert FirstFailingEntry(fl, c, f, vs, fields, ks, i);
    } else {
      FirstFailingFrom(fl, c, f, vs, fields, ks, i + 1, j0);
    }
  }

  /** When some entry of `fields` fails, an order holding every key has a
      first failing entry. */
  lemma FirstFailingEntryExists(fl: Flavor, c: Codecs, f: Formats, vs: Shape, fields: map<string, Value>,
                                ks: seq<string>, k: string)
    requires KeyOrderOf(ks, fields)
    requires k in fields && Ser(fl, c, f, vs, fields[k]).Failure?
    ensures exists i :: 0 <= i < |ks| && FirstFailingEntry(fl, c, f, vs, fields, ks, i)
  {
    var j0 :| 0 <= j0 < |ks| && ks[j0] == k;
    FirstFailingFrom(fl, c, f, vs, fields, ks, 0, j0);
  }

  /** Under an iteration order of its keys, a map that fails raises the
      error of its first failing entry in that order: the fallback for an
      order that lists no failing key is never taken. */
  lemma MapEntriesFirstFailure(fl: Flavor, c: Codecs, f: Formats, s: Shape, fields: map<string, Value>)
    requires s.MapOf? && KeyOrderOf(f.keyOrder(fields), fields)
    ensures var ks := f.keyOrder(fields);
      MapEntries(fl, c, f, s, fields).Failure? ==>
        exists i :: 0 <= i < |ks| && FirstFailingEntry(fl, c, f, s.value, fields, ks, i) &&
          MapEntries(fl, c, f, s, fields) == Failure(Ser(fl, c, f, s.value, fields[ks[i]]).error)
  {
    if MapEntries(fl, c, f, s, fields).Failure? {
      var k :| k in fields && Ser(fl, c, f, s.value, fields[k]).Failure?;
      FirstFailingEntryExists(fl, c, f, s.value, fields, f.keyOrder(fields), k);
    }
  }

  // ---------------------------------------------------------------------
  // The response.

  /** What the backend handed over: a result value, or an exception with
      its class name, its optional `code` attribute and its text. */
  datatype Outcome = Result(value: Value) | Raised(className: string, code: Option<string>, message: string)

  /** The request-scoped inputs the serializer reads from outside: the
      random request id, the formatted date, the service's XML namespace,
      and `service_model.shape_for` (`None` for `NoShapeFoundError`). */
  datatype Env = Env(requestId: string, date: string, xmlNamespace: string, shapeFor: string -> Option<Shape>)

  function ContentType(fl: Flavor): string
  {
    match fl
    case QueryF => "text/xml"
    case QueryJsonF => "application/json"
    case _ => "text"
  }

  /** `_encode_body` */
  function EncodeBody(fl: Flavor, f: Formats, body: map<string, Value>): Body
  {
    match fl
    case QueryF => BodyText(f.unparse(VDict(body)))
    case QueryJsonF => BodyBytes(f.utf8(f.dumps(VDict(body))))
    case _ => BodyDict(body)
  }

  /** botocore's `error_code` of the shape named `name`: `None` unless the
      shape is an exception; otherwise its non-empty `error.code`, else the
      shape's name. */
  function ErrorCode(s: Shape, name: string): (r: Value)
    ensures s.meta.exception != Some(true) ==> r == VNone
    ensures s.meta.exception == Some(true) ==> r.VStr?
    ensures r.VStr? && r.s != name ==> s.meta.error.Some? && s.meta.error.value.code == Some(r.s) && r.s != ""
    ensures (s.meta.exception == Some(true) && s.meta.error.Some? && s.meta.error.value.code.Some? &&
             s.meta.error.value.code.value != "") ==> r == VStr(s.meta.error.value.code.value)
  {
    if s.meta.exception != Some(true) then VNone
    else if s.meta.error.Some? && s.meta.error.value.code.Some? && s.meta.error.value.code.value != "" then
      VStr(s.meta.error.value.code.value)
    else VStr(name)
  }

  function ErrorStatus(s: Shape): int
  {
    if s.meta.error.Some? then s.meta.error.value.httpStatusCode.GetOr(DefaultErrorResponseCode)
    else DefaultErrorResponseCode
  }

  function SenderFault(s: Shape): bool
  {
    s.meta.error.Some? && s.meta.error.value.senderFault == Some(true)
  }

  /** `_serialize_error` (with `QuerySerializer`'s `ErrorResponse` wrapper):
      the status and the code from the error shape named by the
      exception's `code` (else its class name); an unknown shape gives the
      class name, 400 and a sender fault. Returns the status and the body. */
  function ErrorEnvelope(fl: Flavor, env: Env, className: string, code: Option<string>, message: string)
    : (r: (int, map<string, Value>))
    ensures var shapeName := code.GetOr(className);
      env.shapeFor(shapeName).None? ==> r.0 == 400
    ensures fl == QueryF ==> r.1.Keys == {"ErrorResponse"}
    ensures fl != QueryF ==> r.1.Keys == {"Error", "RequestId"} && r.1["RequestId"] == VStr(env.requestId)
  {
    var shapeName := code.GetOr(className);
    var (errorCode, status, sender) :=
      match env.shapeFor(shapeName)
      case Some(s) => (ErrorCode(s, shapeName), ErrorStatus(s), SenderFault(s))
      case None => (VStr(className), DefaultErrorResponseCode, true);
    var err := map["Code" := errorCode, "Message" := VStr(message)];
    var err' := if sender then err["Type" := VStr("Sender")] else err;
    var body := map["Error" := VDict(err'), "RequestId" := VStr(env.requestId)];
    if fl == QueryF then (status, map["ErrorResponse" := VDict(body["@xmlns" := VStr(env.xmlNamespace)])])
    else (status, body)
  }

  /** The success body: `{"<Op>Response": {"RequestId": ..., ...}}`, the
      output structure's members written into it or into its
      `resultWrapper` dict. */
  function SuccessBody(fl: Flavor, c: Codecs, f: Formats, env: Env, op: OperationModel, value: Value)
    : Result<map<string, Value>, string>
    requires op.output.None? || op.output.value.Structure?
  {
    var root := map["RequestId" := VStr(env.requestId)];
    var root := if fl == QueryF then root["@xmlns" := VStr(env.xmlNamespace)] else root;
    var rootKey := op.name + "Response";
    match op.output
    case None => Success(map[rootKey := VDict(root)])
    case Some(s) =>
      var written :- if value == VNone then Success(map[]) else Members(fl, c, f, s, value, 0, map[]);
      match s.ser.resultWrapper
      case Some(w) => Success(map[rootKey := VDict(root[w := VDict(written)])])
      case None => Success(map[rootKey := VDict(root + written)])
  }

  /** `DictSerializer.serialize_to_response` for the dict, Query and
      QueryJSON serializers. */
  function SerializeToResponse(fl: Flavor, c: Codecs, f: Formats, env: Env, op: OperationModel, result: Outcome)
    : (r: Result<Response, string>)
    requires fl != JsonF
    requires op.output.None? || op.output.value.Structure?
    ensures r.Success? ==> "Content-Length" in r.value.headers && r.value.headers["Content-Length"] == VInt(BodyLength(r.value.body))
    ensures r.Success? ==> "x-amzn-RequestId" in r.value.headers && r.value.headers["x-amzn-RequestId"] == VStr(env.requestId)
    ensures result.Raised? ==> (r.Success? && r.value.status ==
      ErrorEnvelope(fl, env, result.className, result.code, result.message).0)
    ensures result.Result? ==> r.Success? ==> r.value.status == 200 && "vary" in r.value.headers && r.value.headers["vary"] == VStr("accept-encoding")
  {
    var headers := map["x-amzn-RequestId" := VStr(env.requestId), "Content-Type" := VStr(ContentType(fl)),
                         "Date" := VStr(env.date)];
    match result
    case Raised(cls, code, msg) =>
      var (status, body) := ErrorEnvelope(fl, env, cls, code, msg);
      var encoded := EncodeBody(fl, f, body);
      Success(Response(status, headers["Content-Length" := VInt(BodyLength(encoded))], encoded))
    case Result(v) =>
      var body :- SuccessBody(fl, c, f, env, op, v);
      var encoded := EncodeBody(fl, f, body);
      var headers := headers["vary" := VStr("accept-encoding")];
      Success(Response(DefaultResponseCode, headers["Content-Length" := VInt(BodyLength(encoded))], encoded))
  }

  /** The error status is the error shape's `httpStatusCode`, 400 when it
      has none, and the envelope is marked `Sender` on a sender fault. */
  lemma ErrorStatusDefault(fl: Flavor, env: Env, className: string, code: Option<string>, message: string, s: Shape)
    requires fl != QueryF
    requires env.shapeFor(code.GetOr(className)) == Some(s)
    ensures var r := ErrorEnvelope(fl, env, className, code, message);
      r.0 == (if s.meta.error.Some? && s.meta.error.value.httpStatusCode.Some? then s.meta.error.value.httpStatusCode.value else 400) &&
      r.1["Error"].VDict? &&
      ("Type" in r.1["Error"].fields <==> SenderFault(s)) &&
      r.1["Error"].fields["Code"] == ErrorCode(s, code.GetOr(className))
  {
  }

  /** The success envelope holds the request id under `<Op>Response`, and
      the output members under its `resultWrapper` when there is one. */
  lemma SuccessEnvelope(fl: Flavor, c: Codecs, f: Formats, env: Env, op: OperationModel, value: Value)
    requires op.output.None? || op.output.value.Structure?
    requires SuccessBody(fl, c, f, env, op, value).Success?
    ensures var b := SuccessBody(fl, c, f, env, op, value).value;
      var rootKey := op.name + "Response";
      b.Keys == {rootKey} && b[rootKey].VDict? &&
      (op.output.Some? && op.output.value.ser.resultWrapper.Some? ==>
        op.output.value.ser.resultWrapper.value in b[rootKey].fields &&
        (op.output.value.ser.resultWrapper.value != "RequestId" ==>
          b[rootKey].fields["RequestId"] == VStr(env.requestId)))
  {
  }

  // ---------------------------------------------------------------------
  // JSON lists.

  /** `JSONSerializer._serialize_type_list`: a plain list of the items. */
  lemma JsonListPlain(c: Codecs, f: Formats, s: Shape, items: seq<Value>)
    requires s.ListOf?
    requires ListItems(JsonF, c, f, s, items, 0).Success?
    ensures Ser(JsonF, c, f, s, VList(items)) == Success(Some(VList(ListItems(JsonF, c, f, s, items, 0).value)))
  {
  }
}
