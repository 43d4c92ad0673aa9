/** `RestXMLSerializer` of moto/motocore/serialize.py: the body parameters
    are written as an XML element tree along the input shape. Python dicts
    keep their insertion order, so the parameters are an ordered tree of
    their own (`Arg`) rather than a `Values.Value`. */
module XmlSerialize {
  import opened Wrappers
  import opened Values
  import opened Shapes
  import S = Serialize

  /** A parameter value as the serializer walks it: a plain value, a list,
      or a dict whose entries keep their insertion order. */
  datatype Arg = Leaf(v: Value) | Items(xs: seq<Arg>) | Fields(kvs: seq<Field>)
  datatype Field = Field(key: string, val: Arg)

  /** An element built with `SubElement`: its tag, its attributes, its text
      and its children in document order. */
  datatype Node = Node(tag: string, attrs: map<string, Arg>, text: Option<string>, children: seq<Node>)

  /** `RestXMLSerializer.TIMESTAMP_FORMAT` */
  const TimestampFormat := "iso8601"

  /** Python truthiness of a parameter. */
  predicate ArgTruthy(a: Arg)
  {
    match a
    case Leaf(v) => Truthy(v)
    case Items(xs) => xs != []
    case Fields(kvs) => kvs != []
  }

  /** The plain value of a parameter; a later duplicate key wins. */
  function ToValue(a: Arg): Value
    decreases a
  {
    match a
    case Leaf(v) => v
    case Items(xs) => VList(seq(|xs|, i requires 0 <= i < |xs| => ToValue(xs[i])))
    case Fields(kvs) => VDict(FieldsMap(kvs))
  }

  function FieldsMap(kvs: seq<Field>): (m: map<string, Value>)
    ensures m.Keys == set i | 0 <= i < |kvs| :: kvs[i].key
    decreases kvs
  {
    if |kvs| == 0 then map[]
    else
      var rest := FieldsMap(kvs[1..]);
      assert forall i :: 1 <= i < |kvs| ==> kvs[i] == kvs[1..][i - 1];
      if kvs[0].key in rest then rest else rest[kvs[0].key := ToValue(kvs[0].val)]
  }

  /** The elements `for item in params` visits: a list's items, a string's
      characters, a dict's keys; anything else raises `TypeError`. */
  function ArgItems(f: S.Formats, a: Arg): (r: Result<seq<Arg>, string>)
    ensures a.Items? ==> r == Success(a.xs)
    ensures a.Fields? ==> r.Success? && |r.value| == |a.kvs|
    ensures r.Failure? ==> r.error == "TypeError"
  {
    match a
    case Items(xs) => Success(xs)
    case Fields(kvs) => Success(seq(|kvs|, i requires 0 <= i < |kvs| => Leaf(VStr(kvs[i].key))))
    case Leaf(v) =>
      match S.Iterated(f, v)
      case Some(vs) => Success(seq(|vs|, i requires 0 <= i < |vs| => Leaf(vs[i])))
      case None => Failure("TypeError")
  }

  /** The `xmlns` attribute of a structure with an `xmlNamespace` trait:
      `xmlns:prefix` when the trait has a non-empty prefix. */
  function NamespaceAttrs(s: Shape): (r: map<string, Arg>)
    ensures s.ser.xmlNamespace.None? ==> r == map[]
    ensures s.ser.xmlNamespace.Some? ==> (
      var ns := s.ser.xmlNamespace.value;
      var attr := if ns.prefix.Some? && ns.prefix.value != "" then "xmlns:" + ns.prefix.value else "xmlns";
      |r| == 1 && attr in r && r[attr] == Leaf(VStr(ns.uri)))
  {
    match s.ser.xmlNamespace
    case None => map[]
    case Some(ns) =>
      var attr := if ns.prefix.Some? && ns.prefix.value != "" then "xmlns:" + ns.prefix.value else "xmlns";
      map[attr := Leaf(VStr(ns.uri))]
  }

  /** A scalar element: a boolean is `true` or `false` by truthiness, a blob
      its base64 text, a timestamp the text in the member's format (ISO 8601
      by default), anything else `str(value)`. */
  function ScalarNode(c: Codecs, f: S.Formats, s: Shape, a: Arg, name: string): (r: Result<Node, string>)
    requires s.Scalar?
    ensures r.Success? ==> r.value.tag == name && r.value.children == [] && r.value.attrs == map[] && r.value.text.Some?
    ensures s.scalar == SBoolean ==> r == Success(Node(name, map[], Some(if ArgTruthy(a) then "true" else "false"), []))
    ensures r.Failure? ==> s.scalar == SBlob
  {
    match s.scalar
    case SBoolean => Success(Node(name, map[], Some(if ArgTruthy(a) then "true" else "false"), []))
    case SBlob =>
      var text :- S.Base64(c, f, ToValue(a));
      Success(Node(name, map[], Some(text), []))
    case STimestamp => Success(Node(name, map[], Some(f.timestampText(ToValue(a), s.ser.timestampFormat.GetOr(TimestampFormat))), []))
    case _ => Success(Node(name, map[], Some(S.Str(f, ToValue(a))), []))
  }

  /** A shape that writes exactly one element where it is serialized. */
  predicate SingleElement(s: Shape)
  {
    !(s.ListOf? && IsFlattened(s))
  }

  /** `_serialize`: the elements appended to the parent for `a` under
      `name`. Every shape but a flattened list appends one element of
      that name. */
  function Build(c: Codecs, f: S.Formats, s: Shape, a: Arg, name: string): (r: Result<seq<Node>, string>)
    ensures r.Success? && SingleElement(s) ==> |r.value| == 1 && r.value[0].tag == name
    decreases s, 2
  {
    match s
    case Structure(_, _, _) =>
      if !a.Fields? then Failure("AttributeError")
      else
        var node :- StructFields(c, f, s, a.kvs, 0, Node(name, NamespaceAttrs(s), None, []));
        Success([node])
    case ListOf(_, _, _) =>
      var items :- ArgItems(f, a);
      if IsFlattened(s) then ListNodes(c, f, s, items, name)
      else
        var kids :- ListNodes(c, f, s, items, SerializedName(s.member, "member"));
        Success([Node(name, map[], None, kids)])
    case MapOf(_, _, _, _) =>
      if !a.Fields? then Failure("AttributeError")
      else
        var entries :- Entries(c, f, s, a.kvs);
        Success([Node(name, map[], None, entries)])
    case Scalar(_, _, _) =>
      var node :- ScalarNode(c, f, s, a, name);
      Success([node])
  }

  /** `_serialize_type_structure` from entry `i` on: each entry names a
      member (else `KeyError`); a `None` value ends the loop; an
      `xmlAttribute` member sets an attribute under its location name;
      any other member appends its elements. */
  function StructFields(c: Codecs, f: S.Formats, s: Shape, kvs: seq<Field>, i: nat, node: Node)
    : (r: Result<Node, string>)
    requires s.Structure? && i <= |kvs|
    ensures r.Success? ==> r.value.tag == node.tag && r.value.text == node.text
    ensures r.Success? ==> node.attrs.Keys <= r.value.attrs.Keys
    ensures r.Success? ==> |node.children| <= |r.value.children| && r.value.children[..|node.children|] == node.children
    decreases s, 1, |kvs| - i
  {
    if i == |kvs| then Success(node)
    else
      match MemberNamed(s.members, kvs[i].key)
      case None => Failure("KeyError")
      case Some(m) =>
        if kvs[i].val == Leaf(VNone) then Success(node)
        else if m.ser.xmlAttribute == Some(true) then
          match m.ser.name
          case None => Failure("KeyError")
          case Some(attr) => StructFields(c, f, s, kvs, i + 1, node.(attrs := node.attrs[attr := kvs[i].val]))
        else
          assert exists j :: 0 <= j < |s.members| && s.members[j].shape == m;
          var kids :- Build(c, f, m, kvs[i].val, SerializedName(m, kvs[i].key));
          StructFields(c, f, s, kvs, i + 1, node.(children := node.children + kids))
  }

  /** `_serialize_type_list`'s loop: each item under `name`, in order. */
  function ListNodes(c: Codecs, f: S.Formats, s: Shape, items: seq<Arg>, name: string): (r: Result<seq<Node>, string>)
    requires s.ListOf?
    ensures r.Success? && SingleElement(s.member) ==>
      |r.value| == |items| && forall k :: 0 <= k < |r.value| ==> r.value[k].tag == name
    decreases s, 1, |items|
  {
    if |items| == 0 then Success([])
    else
      var first :- Build(c, f, s.member, items[0], name);
      var rest :- ListNodes(c, f, s, items[1..], name);
      Success(first + rest)
  }

  /** `_serialize_type_map`'s loop: one `entry` per dict entry, holding the
      key's elements and then the value's, named by the key and value
      shapes (`key` and `value` by default). */
  function Entries(c: Codecs, f: S.Formats, s: Shape, kvs: seq<Field>): (r: Result<seq<Node>, string>)
    requires s.MapOf?
    ensures r.Success? ==> |r.value| == |kvs| && forall k :: 0 <= k < |kvs| ==> r.value[k].tag == "entry"
    ensures r.Success? && SingleElement(s.key) && SingleElement(s.value) ==>
      forall k :: 0 <= k < |kvs| ==>
        |r.value[k].children| == 2 &&
        r.value[k].children[0].tag == SerializedName(s.key, "key") &&
        r.value[k].children[1].tag == SerializedName(s.value, "value")
    decreases s, 1, |kvs|
  {
    if |kvs| == 0 then Success([])
    else
      var keyNodes :- Build(c, f, s.key, Leaf(VStr(kvs[0].key)), SerializedName(s.key, "key"));
      var valueNodes :- Build(c, f, s.value, kvs[0].val, SerializedName(s.value, "value"));
      var rest :- Entries(c, f, s, kvs[1..]);
      Success([Node("entry", map[], None, keyNodes + valueNodes)] + rest)
  }

  /** `_serialize_body_params`: the root element, named by the shape's
      location name (`KeyError` without one); the tree's text encoding is
      not modelled. */
  function BodyParams(c: Codecs, f: S.Formats, s: Shape, a: Arg): (r: Result<Node, string>)
    ensures s.ser.name.None? ==> r == Failure("KeyError")
    ensures r.Success? && SingleElement(s) ==> r.value.tag == s.ser.name.value
  {
    match s.ser.name
    case None => Failure("KeyError")
    case Some(root) =>
      var nodes :- Build(c, f, s, a, root);
      if |nodes| == 0 then Failure("IndexError") else Success(nodes[0])
  }

  /** The member loop of `_serialize_type_structure`, which fills the
      structure element in place. */
  method SerializeStructure(c: Codecs, f: S.Formats, s: Shape, kvs: seq<Field>, name: string)
    returns (r: Result<Node, string>)
    requires s.Structure?
    ensures r == StructFields(c, f, s, kvs, 0, Node(name, NamespaceAttrs(s), None, []))
  {
    var node := Node(name, NamespaceAttrs(s), None, []);
    var i := 0;
    while i < |kvs|
      invariant 0 <= i <= |kvs|
      invariant StructFields(c, f, s, kvs, 0, Node(name, NamespaceAttrs(s), None, [])) == StructFields(c, f, s, kvs, i, node)
      decreases |kvs| - i
    {
      var m := MemberNamed(s.members, kvs[i].key);
      if m.None? {
        return Failure("KeyError");
      }
      var member := m.value;
      if kvs[i].val == Leaf(VNone) {
        return Success(node);
      }
      if member.ser.xmlAttribute == Some(true) {
        if member.ser.name.None? {
          return Failure("KeyError");
        }
        node := node.(attrs := node.attrs[member.ser.name.value := kvs[i].val]);
      } else {
        var kids := Build(c, f, member, kvs[i].val, SerializedName(member, kvs[i].key));
        if kids.Failure? {
          return Failure(kids.error);
        }
        node := node.(children := node.children + kids.value);
      }
      i := i + 1;
    }
    return Success(node);
  }

  // ---------------------------------------------------------------------
  // Properties.

  /** A `None` member value ends the structure: whatever entries follow it
      change nothing. */
  lemma {:induction false} NoneStopsMembers(c: Codecs, f: S.Formats, s: Shape, kvs: seq<Field>, rest: seq<Field>, i: nat, node: Node)
    requires s.Structure? && i < |kvs|
    requires kvs[|kvs| - 1].val == Leaf(VNone) && MemberNamed(s.members, kvs[|kvs| - 1].key).Some?
    ensures StructFields(c, f, s, kvs + rest, i, node) == StructFields(c, f, s, kvs, i, node)
    decreases |kvs| - i
  {
    var all := kvs + rest;
    assert all[i] == kvs[i];
    if i < |kvs| - 1 {
      match MemberNamed(s.members, kvs[i].key)
      case None =>
      case Some(m) =>
        if kvs[i].val == Leaf(VNone) {
        } else if m.ser.xmlAttribute == Some(true) {
          if m.ser.name.Some? {
            var next := node.(attrs := node.attrs[m.ser.name.value := kvs[i].val]);
            assert StructFields(c, f, s, all, i, node) == StructFields(c, f, s, all, i + 1, next);
            assert StructFields(c, f, s, kvs, i, node) == StructFields(c, f, s, kvs, i + 1, next);
            NoneStopsMembers(c, f, s, kvs, rest, i + 1, next);
          }
        } else {
          assert exists j :: 0 <= j < |s.members| && s.members[j].shape == m;
          var kids := Build(c, f, m, kvs[i].val, SerializedName(m, kvs[i].key));
          if kids.Success? {
            var next := node.(children := node.children + kids.value);
            assert StructFields(c, f, s, all, i, node) == StructFields(c, f, s, all, i + 1, next);
            assert StructFields(c, f, s, kvs, i, node) == StructFields(c, f, s, kvs, i + 1, next);
            NoneStopsMembers(c, f, s, kvs, rest, i + 1, next);
          }
        }
    }
  }

  /** The members from `i` on that are all marked `xmlAttribute`. */
  predicate AllAttributes(s: Shape, kvs: seq<Field>, i: nat)
    requires s.Structure?
  {
    forall k :: i <= k < |kvs| ==>
      MemberNamed(s.members, kvs[k].key).Some? && MemberNamed(s.members, kvs[k].key).value.ser.xmlAttribute == Some(true)
  }

  /** One step over an `xmlAttribute` member: its value is set under its
      location name and the loop goes on. */
  lemma AttributeStep(c: Codecs, f: S.Formats, s: Shape, kvs: seq<Field>, i: nat, node: Node)
    requires s.Structure? && i < |kvs| && AllAttributes(s, kvs, i) && kvs[i].val != Leaf(VNone)
    requires StructFields(c, f, s, kvs, i, node).Success?
    ensures MemberNamed(s.members, kvs[i].key).value.ser.name.Some?
    ensures AllAttributes(s, kvs, i + 1)
    ensures StructFields(c, f, s, kvs, i, node) ==
      StructFields(c, f, s, kvs, i + 1, node.(attrs := node.attrs[MemberNamed(s.members, kvs[i].key).value.ser.name.value := kvs[i].val]))
  {
  }

  /** Members marked `xmlAttribute` add no children to the structure
      element. */
  lemma {:induction false} AttributesAddNoChildren(c: Codecs, f: S.Formats, s: Shape, kvs: seq<Field>, i: nat, node: Node)
    requires s.Structure? && i <= |kvs| && AllAttributes(s, kvs, i)
    requires StructFields(c, f, s, kvs, i, node).Success?
    ensures StructFields(c, f, s, kvs, i, node).value.children == node.children
    decreases |kvs| - i
  {
    if i < |kvs| && kvs[i].val != Leaf(VNone) {
      AttributeStep(c, f, s, kvs, i, node);
      var m := MemberNamed(s.members, kvs[i].key).value;
      AttributesAddNoChildren(c, f, s, kvs, i + 1, node.(attrs := node.attrs[m.ser.name.value := kvs[i].val]));
    }
  }

  /** Each `xmlAttribute` member before the first `None` value becomes an
      attribute of the structure element, under its location name. */
  lemma {:induction false} AttributeAdded(c: Codecs, f: S.Formats, s: Shape, kvs: seq<Field>, i: nat, node: Node, k: nat)
    requires s.Structure? && i <= k < |kvs| && AllAttributes(s, kvs, i)
    requires StructFields(c, f, s, kvs, i, node).Success?
    requires forall j :: i <= j <= k ==> kvs[j].val != Leaf(VNone)
    ensures MemberNamed(s.members, kvs[k].key).value.ser.name.Some?
    ensures MemberNamed(s.members, kvs[k].key).value.ser.name.value in StructFields(c, f, s, kvs, i, node).value.attrs
    decreases |kvs| - i
  {
    AttributeStep(c, f, s, kvs, i, node);
    var m := MemberNamed(s.members, kvs[i].key).value;
    var next := node.(attrs := node.attrs[m.ser.name.value := kvs[i].val]);
    if k > i {
      AttributeAdded(c, f, s, kvs, i + 1, next, k);
    }
  }

  /** A non-flattened list wraps its items under the member's location name
      (`member` by default); a flattened one repeats the element name at
      the parent. */
  lemma ListLayout(c: Codecs, f: S.Formats, s: Shape, xs: seq<Arg>, name: string)
    requires s.ListOf? && SingleElement(s.member)
    requires Build(c, f, s, Items(xs), name).Success?
    ensures var r := Build(c, f, s, Items(xs), name).value;
      if IsFlattened(s) then
        |r| == |xs| && forall k :: 0 <= k < |r| ==> r[k].tag == name
      else
        |r| == 1 && r[0].tag == name && |r[0].children| == |xs| &&
        forall k :: 0 <= k < |xs| ==> r[0].children[k].tag == SerializedName(s.member, "member")
  {
    var items := ArgItems(f, Items(xs)).value;
    assert items == xs;
    if IsFlattened(s) {
      assert Build(c, f, s, Items(xs), name) == ListNodes(c, f, s, xs, name);
    } else {
      var kids := ListNodes(c, f, s, xs, SerializedName(s.member, "member"));
      assert kids.Success?;
      assert Build(c, f, s, Items(xs), name) == Success([Node(name, map[], None, kids.value)]);
    }
  }

  /** A map is one element holding one `entry` per dict entry, each with
      its key element and its value element. */
  lemma MapLayout(c: Codecs, f: S.Formats, s: Shape, kvs: seq<Field>, name: string)
    requires s.MapOf? && SingleElement(s.key) && SingleElement(s.value)
    requires Build(c, f, s, Fields(kvs), name).Success?
    ensures var r := Build(c, f, s, Fields(kvs), name).value;
      |r| == 1 && r[0].tag == name && |r[0].children| == |kvs| &&
      forall k :: 0 <= k < |kvs| ==>
        r[0].children[k].tag == "entry" &&
        |r[0].children[k].children| == 2 &&
        r[0].children[k].children[0].tag == SerializedName(s.key, "key") &&
        r[0].children[k].children[1].tag == SerializedName(s.value, "value")
  {
    var entries := Entries(c, f, s, kvs);
    assert entries.Success?;
    assert Build(c, f, s, Fields(kvs), name) == Success([Node(name, map[], None, entries.value)]);
  }
}
