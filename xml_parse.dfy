/** The XML request decoder of moto/core/parse.py: `BaseXMLParser` with the
    `RestXMLParser` body rules. The body is an element tree as ElementTree
    builds it; a tag may carry a `{namespace}` part. */
module XmlDecode {
  import opened Wrappers
  import opened Values
  import opened Strs
  import opened Shapes

  datatype XAttr = XAttr(key: string, value: string)

  /** An element: its tag, attributes in document order, text (`None` for
      `<foo></foo>`) and child elements. */
  datatype XNode = XNode(tag: string, attrib: seq<XAttr>, text: Option<string>, children: seq<XNode>)

  /** What a handler is given: one element, the list `_build_name_to_xml_node`
      makes of repeated elements, plain text (a header or querystring value)
      or a list of texts (a repeated querystring key). */
  datatype XIn = XElem(node: XNode) | XElems(nodes: seq<XNode>) | XText(t: string) | XTexts(ts: seq<string>)

  /** `_namespace_re.sub(rep, s)` for the pattern `{.*}`: the span from the
      first `{` to the last `}` after it is replaced by `rep`. */
  function SubNamespace(s: string, rep: string): (r: string)
    ensures '{' !in s || '}' !in s ==> r == s
  {
    match (IndexOf(s, '{'), LastIndexOf(s, '}'))
    case (Some(i), Some(j)) => if i < j then s[..i] + rep + s[j + 1..] else s
    case _ => s
  }

  /** `_node_tag`: the tag without its namespace. */
  function NodeTag(n: XNode): string
  {
    SubNamespace(n.tag, "")
  }

  /** `_text_content`: an element's text, `""` for an empty element; plain
      text as it stands. */
  function TextContent(x: XIn): (r: Option<string>)
    ensures x.XElem? && x.node.text.None? ==> r == Some("")
    ensures x.XElem? && x.node.text.Some? ==> r == x.node.text
    ensures x.XText? ==> r == Some(x.t)
    ensures x.XElems? || x.XTexts? ==> r.None?
  {
    match x
    case XElem(n) => Some(n.text.GetOr(""))
    case XText(t) => Some(t)
    case _ => None
  }

  // ---------------------------------------------------------------------
  // `_build_name_to_xml_node`: child elements grouped by tag.

  /** Adding child `item`: a first occurrence is stored as the element, a
      second turns it into a list, later ones are appended. */
  function AddChild(d: map<string, XIn>, item: XNode): map<string, XIn>
  {
    var key := NodeTag(item);
    if key in d then
      match d[key]
      case XElems(ns) => d[key := XElems(ns + [item])]
      case XElem(n) => d[key := XElems([n, item])]
      case _ => d[key := XElems([item])]
    else d[key := XElem(item)]
  }

  /** The name-to-node dictionary of the first `|cs|` children. */
  function Aggregate(cs: seq<XNode>): map<string, XIn>
  {
    if cs == [] then map[] else AddChild(Aggregate(cs[..|cs| - 1]), cs[|cs| - 1])
  }

  /** One more child is added to the dictionary of those before it. */
  lemma AggregateSnoc(cs: seq<XNode>, i: nat)
    requires i < |cs|
    ensures Aggregate(cs[..i + 1]) == AddChild(Aggregate(cs[..i]), cs[i])
  {
    assert cs[..i + 1][..i] == cs[..i];
  }

  /** The children with a given tag, in document order. */
  function WithTag(cs: seq<XNode>, key: string): (r: seq<XNode>)
    ensures forall n :: n in r ==> n in cs && NodeTag(n) == key
  {
    if cs == [] then []
    else if NodeTag(cs[|cs| - 1]) == key then WithTag(cs[..|cs| - 1], key) + [cs[|cs| - 1]]
    else WithTag(cs[..|cs| - 1], key)
  }

  /** One element stands alone; two or more are a list. */
  function Grouped(ns: seq<XNode>): XIn
    requires |ns| > 0
  {
    if |ns| == 1 then XElem(ns[0]) else XElems(ns)
  }

  /** The aggregation rule for one tag: it is a key iff some child has it,
      and its entry is that child alone or all the children with the tag,
      in document order. */
  lemma {:induction false} AggregateGroup(cs: seq<XNode>, key: string)
    ensures key in Aggregate(cs) <==> |WithTag(cs, key)| > 0
    ensures key in Aggregate(cs) ==> Aggregate(cs)[key] == Grouped(WithTag(cs, key))
    decreases |cs|
  {
    if cs != [] {
      var front := cs[..|cs| - 1];
      var last := cs[|cs| - 1];
      AggregateGroup(front, key);
      assert Aggregate(cs) == AddChild(Aggregate(front), last);
      if key == NodeTag(last) {
        assert WithTag(cs, key) == WithTag(front, key) + [last];
      } else {
        assert WithTag(cs, key) == WithTag(front, key);
      }
    }
  }

  /** The aggregation rule for every tag at once. */
  lemma AggregateGroups(cs: seq<XNode>)
    ensures forall key :: key in Aggregate(cs) <==> |WithTag(cs, key)| > 0
    ensures forall key :: key in Aggregate(cs) ==> Aggregate(cs)[key] == Grouped(WithTag(cs, key))
  {
    forall key
      ensures key in Aggregate(cs) <==> |WithTag(cs, key)| > 0
      ensures key in Aggregate(cs) ==> Aggregate(cs)[key] == Grouped(WithTag(cs, key))
    {
      AggregateGroup(cs, key);
    }
  }

  /** `_build_name_to_xml_node` with its loop; a list stands for its first
      element (an empty one raises `IndexError`), text has no children. */
  method BuildNameToXmlNode(parent: XIn) returns (r: Result<map<string, XIn>, string>)
    ensures r == NameToXmlNode(parent)
  {
    var node: XNode;
    match parent {
      case XElems(ns) =>
        if |ns| == 0 {
          return Failure("IndexError");
        }
        node := ns[0];
      case XElem(n) =>
        node := n;
      case XText(t) =>
        if t == "" {
          return Success(map[]);
        }
        return Failure("AttributeError");
      case XTexts(ts) =>
        if |ts| == 0 {
          return Failure("IndexError");
        }
        if ts[0] == "" {
          return Success(map[]);
        }
        return Failure("AttributeError");
    }
    var xmlDict: map<string, XIn> := map[];
    var i := 0;
    while i < |node.children|
      invariant 0 <= i <= |node.children|
      invariant xmlDict == Aggregate(node.children[..i])
    {
      xmlDict := AddItem(xmlDict, node.children[i]);
      AggregateSnoc(node.children, i);
      i := i + 1;
    }
    assert node.children[..i] == node.children;
    return Success(xmlDict);
  }

  /** The loop body of `_build_name_to_xml_node`: a first child with a
      tag is stored alone, a second turns the entry into a list, later
      ones are appended. */
  method AddItem(xmlDict: map<string, XIn>, item: XNode) returns (d: map<string, XIn>)
    ensures d == AddChild(xmlDict, item)
  {
    var key := NodeTag(item);
    d := xmlDict;
    if key in d {
      if d[key].XElems? {
        d := d[key := XElems(d[key].nodes + [item])];
      } else if d[key].XElem? {
        d := d[key := XElems([d[key].node, item])];
      } else {
        d := d[key := XElems([item])];
      }
    } else {
      d := d[key := XElem(item)];
    }
  }

  /** The dictionary `_build_name_to_xml_node` returns. */
  function NameToXmlNode(parent: XIn): Result<map<string, XIn>, string>
  {
    match parent
    case XElems(ns) => if |ns| == 0 then Failure("IndexError") else Success(Aggregate(ns[0].children))
    case XElem(n) => Success(Aggregate(n.children))
    case XText(t) => if t == "" then Success(map[]) else Failure("AttributeError")
    case XTexts(ts) => if |ts| == 0 then Failure("IndexError") else if ts[0] == "" then Success(map[]) else Failure("AttributeError")
  }

  // ---------------------------------------------------------------------
  // Shapes.

  /** `_member_key_name`: a flattened list whose member has a `locationName`
      is keyed by that name; otherwise the member's own `locationName`, else
      its name. */
  function MemberKeyName(s: Shape, memberName: string): (r: string)
    ensures s.ListOf? && IsFlattened(s) && s.member.ser.name.Some? ==> r == s.member.ser.name.value
    ensures !(s.ListOf? && IsFlattened(s) && s.member.ser.name.Some?) ==> r == s.ser.name.GetOr(memberName)
  {
    if s.ListOf? && IsFlattened(s) && s.member.ser.name.Some? then s.member.ser.name.value
    else s.ser.name.GetOr(memberName)
  }

  /** `_parse_shape` */
  function ParseShape(c: Codecs, s: Shape, x: XIn): Decoded
    decreases s, 3
  {
    match s
    case Structure(_, _, _) => HandleStructure(c, s, x)
    case ListOf(_, _, _) => HandleList(c, s, x)
    case MapOf(_, _, _, _) => HandleMap(c, s, x)
    case Scalar(_, _, _) => HandleScalar(c, s, x)
  }

  /** The scalar handlers, all reading the text content; a JSON-value
      header's text is decoded. Given several values instead of one, the
      string handler returns them as they are, the boolean handler compares
      them with `"true"`, and the others raise. */
  function HandleScalar(c: Codecs, s: Shape, x: XIn): (r: Decoded)
    requires s.Scalar?
    ensures IsJsonValueHeader(s) && TextContent(x).Some? ==> r == c.jsonValueHeader(TextContent(x).value)
    ensures s.scalar == SString && !IsJsonValueHeader(s) && TextContent(x).Some? ==> r == Ok(VStr(TextContent(x).value))
    ensures s.scalar == SString && !IsJsonValueHeader(s) && x.XTexts? ==>
      r.Ok? && r.v.VList? && |r.v.items| == |x.ts| && forall i :: 0 <= i < |x.ts| ==> r.v.items[i] == VStr(x.ts[i])
    ensures TextContent(x).None? && s.scalar == SBoolean ==> r == Ok(VBool(false))
    ensures TextContent(x).None? && s.scalar != SBoolean && !(s.scalar == SString && !IsJsonValueHeader(s) && x.XTexts?) ==>
      r == Raised("TypeError")
  {
    match TextContent(x)
    case None =>
      if s.scalar == SBoolean then Ok(VBool(false))
      else if s.scalar == SString && !IsJsonValueHeader(s) && x.XTexts? then
        Ok(VList(seq(|x.ts|, i requires 0 <= i < |x.ts| => VStr(x.ts[i]))))
      else Raised("TypeError")
    case Some(text) =>
      match s.scalar
      case SBoolean => Ok(VBool(text == "true"))
      case SInteger => HandleInteger(text)
      case SLong => HandleInteger(text)
      case SFloat => Ok(VFloat(text))
      case SDouble => Ok(VFloat(text))
      case STimestamp => Ok(VTimestamp(c.parseTimestamp(text)))
      case SBlob => Ok(VBytes(c.b64decode(text)))
      case SString => if IsJsonValueHeader(s) then c.jsonValueHeader(text) else Ok(VStr(text))
  }

  /** `int(text)`: `ValueError` exactly when the text is not an integer. */
  function HandleInteger(text: string): (r: Decoded)
    ensures r.Ok? <==> ParseInt(text).Some?
    ensures r.Ok? ==> r.v == VInt(ParseInt(text).value)
    ensures r.Raised? ==> r.err == "ValueError"
  {
    match ParseInt(text)
    case Some(i) => Ok(VInt(i))
    case None => Raised("ValueError")
  }

  /** The text of an integer decodes back to that integer. */
  lemma IntegerTextRoundTrip(i: int)
    ensures HandleInteger(IntToString(i)) == Ok(VInt(i))
  {
    ParseIntOfString(i);
  }

  /** Members read from the body: those without a `location` and not event headers. */
  predicate InBody(m: Member)
  {
    m.shape.ser.location.None? && m.shape.ser.eventheader != Some(true)
  }

  /** An element's attributes, keyed with the namespace part replaced by
      the prefix of the member's `locationName`; a later duplicate wins. */
  function Attribs(attrs: seq<XAttr>, prefix: string): map<string, string>
  {
    if attrs == [] then map[]
    else Attribs(attrs[..|attrs| - 1], prefix)[SubNamespace(attrs[|attrs| - 1].key, prefix + ":") := attrs[|attrs| - 1].value]
  }

  /** The attribute value an `xmlAttribute` member reads, if any. */
  function AttributeMember(m: Member, x: XIn): Result<Option<string>, string>
  {
    match m.shape.ser.name
    case None => Failure("KeyError")
    case Some(locationName) =>
      match x
      case XElem(n) =>
        var attribs := Attribs(n.attrib, Split(locationName, ':')[0]);
        Success(if locationName in attribs then Some(attribs[locationName]) else None)
      case _ => Failure("AttributeError")
  }

  /** The member loop of `_handle_structure`. */
  function DecodeMembers(c: Codecs, s: Shape, x: XIn, xmlDict: map<string, XIn>, i: nat, acc: map<string, Value>)
    : Result<map<string, Value>, string>
    requires s.Structure? && i <= |s.members|
    decreases s, 1, |s.members| - i
  {
    if i == |s.members| then Success(acc)
    else
      var m := s.members[i];
      if !InBody(m) then DecodeMembers(c, s, x, xmlDict, i + 1, acc)
      else
        var key := MemberKeyName(m.shape, m.name);
        if key in xmlDict then
          match ParseShape(c, m.shape, xmlDict[key])
          case Raised(e) => Failure(e)
          case Ok(v) => DecodeMembers(c, s, x, xmlDict, i + 1, acc[m.name := v])
        else if m.shape.ser.xmlAttribute == Some(true) then
          match AttributeMember(m, x)
          case Failure(e) => Failure(e)
          case Success(None) => DecodeMembers(c, s, x, xmlDict, i + 1, acc)
          case Success(Some(a)) => DecodeMembers(c, s, x, xmlDict, i + 1, acc[m.name := VStr(a)])
        else DecodeMembers(c, s, x, xmlDict, i + 1, acc)
  }

  /** `_handle_structure` */
  function HandleStructure(c: Codecs, s: Shape, x: XIn): Decoded
    requires s.Structure?
    decreases s, 2
  {
    match NameToXmlNode(x)
    case Failure(e) => Raised(e)
    case Success(xmlDict) =>
      match DecodeMembers(c, s, x, xmlDict, 0, map[])
      case Failure(e) => Raised(e)
      case Success(fields) => Ok(VDict(fields))
  }

  /** What the handlers iterate: a list's elements, an element's children,
      a string's characters. */
  function Items(x: XIn): seq<XIn>
  {
    match x
    case XElems(ns) => Elems(ns)
    case XElem(n) => Elems(n.children)
    case XText(t) => TextChars(t)
    case XTexts(ts) => Texts(ts)
  }

  function Texts(ts: seq<string>): (r: seq<XIn>)
    ensures |r| == |ts| && forall k :: 0 <= k < |ts| ==> r[k] == XText(ts[k])
  {
    if ts == [] then [] else [XText(ts[0])] + Texts(ts[1..])
  }

  function Elems(ns: seq<XNode>): (r: seq<XIn>)
    ensures |r| == |ns| && forall k :: 0 <= k < |ns| ==> r[k] == XElem(ns[k])
  {
    if ns == [] then [] else [XElem(ns[0])] + Elems(ns[1..])
  }

  function TextChars(t: string): (r: seq<XIn>)
    ensures |r| == |t| && forall k :: 0 <= k < |t| ==> r[k] == XText([t[k]])
  {
    if t == [] then [] else [XText([t[0]])] + TextChars(t[1..])
  }

  function StrippedTexts(parts: seq<string>): (r: seq<XIn>)
    ensures |r| == |parts| && forall k :: 0 <= k < |parts| ==> r[k] == XText(Strip(parts[k]))
  {
    if parts == [] then [] else [XText(Strip(parts[0]))] + StrippedTexts(parts[1..])
  }

  /** The items a list decodes: a header-bound list given text is split on
      commas and each part stripped; a flattened list given one element is
      that element alone; otherwise (and always for a list of nodes or of
      strings) the input's items. */
  function ListItems(s: Shape, x: XIn): (r: seq<XIn>)
    requires s.ListOf?
    ensures s.ser.location == Some("header") && x.XText? ==>
      |r| == |Split(x.t, ',')| && forall k :: 0 <= k < |r| ==> r[k] == XText(Strip(Split(x.t, ',')[k]))
    ensures !(s.ser.location == Some("header") && x.XText?) && IsFlattened(s) && !(x.XElems? || x.XTexts?) ==> r == [x]
    ensures !(s.ser.location == Some("header") && x.XText?) && (x.XElems? || x.XTexts?) ==> r == Items(x)
  {
    if s.ser.location == Some("header") && x.XText? then StrippedTexts(Split(x.t, ','))
    else if IsFlattened(s) && !(x.XElems? || x.XTexts?) then [x]
    else Items(x)
  }

  function DecodeItems(c: Codecs, s: Shape, items: seq<XIn>, i: nat): Result<seq<Value>, string>
    requires s.ListOf? && i <= |items|
    decreases s, 1, |items| - i
  {
    if i == |items| then Success([])
    else
      match ParseShape(c, s.member, items[i])
      case Raised(e) => Failure(e)
      case Ok(v) =>
        match DecodeItems(c, s, items, i + 1)
        case Failure(e) => Failure(e)
        case Success(rest) => Success([v] + rest)
  }

  /** `_handle_list` */
  function HandleList(c: Codecs, s: Shape, x: XIn): Decoded
    requires s.ListOf?
    decreases s, 2
  {
    match DecodeItems(c, s, ListItems(s, x), 0)
    case Failure(e) => Raised(e)
    case Success(vs) => Ok(VList(vs))
  }

  /** The tag names of a map entry's key and value (`"key"`, `"value"` by default). */
  function EntryTag(s: Shape, default: string): string
  {
    if s.ser.name.Some? && s.ser.name.value != "" then s.ser.name.value else default
  }

  /** The inner loop of `_handle_map` over the children of one entry: the
      last key and value seen so far carry over (they are Python locals). */
  function DecodePairs(c: Codecs, s: Shape, pairs: seq<XNode>, i: nat, key: Option<Value>, val: Option<Value>)
    : Result<(Option<Value>, Option<Value>), string>
    requires s.MapOf? && i <= |pairs|
    decreases s, 0, |pairs| - i
  {
    if i == |pairs| then Success((key, val))
    else
      var tag := NodeTag(pairs[i]);
      if tag == EntryTag(s.key, "key") then
        match ParseShape(c, s.key, XElem(pairs[i]))
        case Raised(e) => Failure(e)
        case Ok(k) => DecodePairs(c, s, pairs, i + 1, Some(k), val)
      else if tag == EntryTag(s.value, "value") then
        match ParseShape(c, s.value, XElem(pairs[i]))
        case Raised(e) => Failure(e)
        case Ok(v) => DecodePairs(c, s, pairs, i + 1, key, Some(v))
      else Failure("ResponseParserError")
  }

  /** The outer loop of `_handle_map` over the entries. */
  function DecodeEntries(c: Codecs, s: Shape, entries: seq<XIn>, i: nat, key: Option<Value>, val: Option<Value>,
                         acc: map<string, Value>): Result<map<string, Value>, string>
    requires s.MapOf? && i <= |entries|
    decreases s, 1, |entries| - i
  {
    if i == |entries| then Success(acc)
    else
      var pairs := match entries[i] case XElem(e) => Success(e.children)
                                   case XText(t) => if t == "" then Success([]) else Failure("AttributeError")
                                   case _ => Failure("AttributeError");
      match pairs
      case Failure(err) => Failure(err)
      case Success(children) =>
        match DecodePairs(c, s, children, 0, key, val)
        case Failure(err) => Failure(err)
        case Success((k, v)) =>
          if k.None? || v.None? then Failure("UnboundLocalError")
          else if !k.value.VStr? then Failure("TypeError")
          else DecodeEntries(c, s, entries, i + 1, k, v, acc[k.value.s := v.value])
  }

  /** `_handle_map`: a flattened map given one element is that entry alone. */
  function HandleMap(c: Codecs, s: Shape, x: XIn): Decoded
    requires s.MapOf?
    decreases s, 2
  {
    var entries := if IsFlattened(s) && !(x.XElems? || x.XTexts?) then [x] else Items(x);
    match DecodeEntries(c, s, entries, 0, None, None, map[])
    case Failure(e) => Raised(e)
    case Success(m) => Ok(VDict(m))
  }

  /** `RestXMLParser._initial_body_parse`: an empty body is an element with
      the empty tag; otherwise the text is parsed (`parse` is ElementTree,
      `None` where it fails). */
  function InitialBodyParse(parse: string -> Option<XNode>, body: string): (r: Result<XNode, string>)
    ensures body == "" ==> r == Success(XNode("", [], None, []))
    ensures body != "" && parse(body).None? ==> r == Failure("ResponseParserError")
  {
    if body == "" then Success(XNode("", [], None, []))
    else
      match parse(body)
      case Some(root) => Success(root)
      case None => Failure("ResponseParserError")
  }

  // ---------------------------------------------------------------------
  // Properties.

  /** Booleans are true only for the exact text `"true"`; an empty element reads as `""`. */
  lemma ScalarText(c: Codecs, s: Shape, n: XNode)
    requires s.Scalar?
    ensures s.scalar == SBoolean ==> ParseShape(c, s, XElem(n)) == Ok(VBool(n.text == Some("true")))
    ensures s.scalar == SString && !IsJsonValueHeader(s) ==> ParseShape(c, s, XElem(n)) == Ok(VStr(n.text.GetOr("")))
    ensures IsJsonValueHeader(s) ==> ParseShape(c, s, XElem(n)) == c.jsonValueHeader(n.text.GetOr(""))
  {
  }

  /** A flattened list or map given a single element decodes it as a
      one-element sequence. */
  lemma FlattenedSingle(c: Codecs, s: Shape, n: XNode)
    requires (s.ListOf? && s.ser.location != Some("header")) || s.MapOf?
    requires IsFlattened(s)
    ensures s.ListOf? ==> ParseShape(c, s, XElem(n)) == HandleList(c, s, XElems([n]))
    ensures s.MapOf? ==> ParseShape(c, s, XElem(n)) == HandleMap(c, s, XElems([n]))
  {
    assert Items(XElems([n])) == [XElem(n)];
  }

  /** With no children and no attributes, nothing is read. */
  lemma {:induction false} DecodeMembersEmpty(c: Codecs, s: Shape, x: XIn, i: nat)
    requires s.Structure? && i <= |s.members|
    requires x == XElem(XNode("", [], None, []))
    requires forall j :: i <= j < |s.members| && s.members[j].shape.ser.xmlAttribute == Some(true) ==>
      s.members[j].shape.ser.name.Some?
    ensures DecodeMembers(c, s, x, map[], i, map[]) == Success(map[])
    decreases |s.members| - i
  {
    if i < |s.members| {
      DecodeMembersEmpty(c, s, x, i + 1);
    }
  }

  /** A RestXML request with an empty body decodes its input structure to
      `{}` when no attribute member lacks a `locationName`. */
  lemma EmptyBodyDecoding(c: Codecs, parse: string -> Option<XNode>, s: Shape)
    requires s.Structure?
    requires forall j :: 0 <= j < |s.members| && s.members[j].shape.ser.xmlAttribute == Some(true) ==>
      s.members[j].shape.ser.name.Some?
    ensures ParseShape(c, s, XElem(InitialBodyParse(parse, "").value)) == Ok(VDict(map[]))
  {
    var x := XElem(XNode("", [], None, []));
    DecodeMembersEmpty(c, s, x, 0);
    assert Aggregate([]) == map[];
  }
}
