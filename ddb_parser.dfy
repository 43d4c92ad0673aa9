/** The DynamoDB item parser (moto/dynamodb2/validation/parser.py): an item
    in DynamoDB's typed JSON becomes an `ItemNode` holding one attribute
    node per top-level key. A failure is the exception the Python code
    raises on a malformed item. */
module DdbParser {
  import opened Wrappers
  import opened DdbAst

  /** A size that every recursive call of the parser decreases. */
  function Size(f: Field): (n: nat)
    ensures n >= 1
  {
    match f
    case FList(items) => 1 + ItemsSize(items)
    case FDict(es) => 1 + EntriesSize(es)
    case _ => 1
  }

  function ItemsSize(items: seq<Field>): nat
  {
    if |items| == 0 then 0 else Size(items[0]) + ItemsSize(items[1..])
  }

  function EntriesSize(es: seq<(string, Field)>): nat
  {
    if |es| == 0 then 0 else EntrySize(es[0]) + EntriesSize(es[1..])
  }

  function EntrySize(e: (string, Field)): nat
  {
    Size(e.1)
  }

  lemma {:induction false} EntriesSizeAppend(a: seq<(string, Field)>, b: seq<(string, Field)>)
    ensures EntriesSize(a + b) == EntriesSize(a) + EntriesSize(b)
  {
    if |a| > 0 {
      EntriesSizeAppend(a[1..], b);
      assert (a + b)[1..] == a[1..] + b;
    } else {
      assert a + b == b;
    }
  }

  /** The descriptor of an attribute, `{type: data}`: its first key and
      first value. A value that is not a dict raises `AttributeError`, an
      empty one `IndexError`. */
  function Descriptor(v: Field): (r: Result<(string, Field), string>)
    ensures r.Success? <==> v.FDict? && |v.entries| > 0
    ensures r.Success? ==> r.value == v.entries[0]
    ensures r.Failure? ==> r.error == (if v.FDict? then "IndexError" else "AttributeError")
  {
    if !v.FDict? then Failure("AttributeError")
    else if |v.entries| == 0 then Failure("IndexError")
    else Success(v.entries[0])
  }

  predicate Described(es: seq<(string, Field)>)
  {
    forall i :: 0 <= i < |es| ==> Descriptor(es[i].1).Success?
  }

  /** The descriptors are all read before any attribute is built, so the
      first malformed one decides the error. */
  function CheckDescriptors(es: seq<(string, Field)>): (r: Result<bool, string>)
    ensures r.Success? <==> Described(es)
    ensures r.Failure? ==> exists i :: 0 <= i < |es| && Descriptor(es[i].1) == Failure(r.error)
                                       && forall j :: 0 <= j < i ==> Descriptor(es[j].1).Success?
  {
    if |es| == 0 then Success(true)
    else
      match Descriptor(es[0].1)
      case Failure(e) => Failure(e)
      case Success(_) =>
        var rest := CheckDescriptors(es[1..]);
        assert forall i :: 1 <= i < |es| ==> es[i] == es[1..][i - 1];
        if rest.Failure? then
          var i :| 0 <= i < |es[1..]| && Descriptor(es[1..][i].1) == Failure(rest.error)
                   && forall j :: 0 <= j < i ==> Descriptor(es[1..][j].1).Success?;
          assert Descriptor(es[i + 1].1) == Failure(rest.error);
          Failure(rest.error)
        else rest
  }

  /** The attribute class of a descriptor type other than `M`. */
  function TypedClass(t: string): (c: NodeClass)
    ensures t == "N" ==> c == NumberAttributeNode
    ensures t == "S" ==> c == StringAttributeNode
    ensures t != "N" && t != "S" ==> c == AttributeNode
  {
    if t == "N" then NumberAttributeNode else if t == "S" then StringAttributeNode else AttributeNode
  }

  /** The class of the attribute node built for a descriptor type. */
  function AttributeClass(t: string): NodeClass
  {
    if t == "M" then MapAttributeNode else TypedClass(t)
  }

  function Make(c: NodeClass, kwargs: map<string, Field>): Field
  {
    FNode(Construct(c, kwargs))
  }

  /** The name node of attribute `k`. */
  function NameNode(k: string): Field
  {
    Make(AttributeNameNode, map["value" := FStr(k)])
  }

  /** `str(i)` of a value; `show` renders lists, dicts and nodes. */
  function StrOf(f: Field, show: Field -> string): string
  {
    match f
    case FStr(s) => s
    case FBool(b) => if b then "True" else "False"
    case FNone => "None"
    case _ => show(f)
  }

  /** `[str(i) for i in data]`: the elements of a list, the keys of a dict,
      the characters of a string; `TypeError` for anything else. */
  function StrValues(data: Field, show: Field -> string): (r: Result<seq<Field>, string>)
    ensures data.FList? ==> r.Success? && |r.value| == |data.items|
    ensures data.FList? ==> forall i :: 0 <= i < |data.items| ==> r.value[i] == FStr(StrOf(data.items[i], show))
  {
    match data
    case FList(items) => Success(seq(|items|, i requires 0 <= i < |items| => FStr(StrOf(items[i], show))))
    case FDict(es) => Success(seq(|es|, i requires 0 <= i < |es| => FStr(es[i].0)))
    case FStr(s) => Success(seq(|s|, i requires 0 <= i < |s| => FStr([s[i]])))
    case _ => Failure("TypeError")
  }

  /** Whether `[(k, v) for d in data for k, v in d.items()]` can be built:
      every element must be a dict. A string or dict yields its characters
      or keys, which have no `items`; `None` and booleans do not iterate. */
  function FlattenCheck(data: Field): (r: Result<bool, string>)
    ensures r.Success? ==> data.FList? || data == FDict([]) || data == FStr("")
  {
    match data
    case FList(ds) =>
      if forall i :: 0 <= i < |ds| ==> ds[i].FDict? then Success(true) else Failure("AttributeError")
    case FDict(es) => if |es| == 0 then Success(true) else Failure("AttributeError")
    case FStr(s) => if |s| == 0 then Success(true) else Failure("AttributeError")
    case _ => Failure("TypeError")
  }

  /** The `(k, v)` pairs of every dict of the list, in order. */
  function Flatten(ds: seq<Field>): (r: seq<(string, Field)>)
    requires forall i :: 0 <= i < |ds| ==> ds[i].FDict?
    ensures EntriesSize(r) <= ItemsSize(ds)
  {
    if |ds| == 0 then []
    else
      EntriesSizeAppend(ds[0].entries, Flatten(ds[1..]));
      ds[0].entries + Flatten(ds[1..])
  }

  /** `parse` on an item value: a dict becomes the list of its attribute
      nodes, a list is parsed element-wise, anything else is a scalar. */
  function Parse(f: Field, show: Field -> string): Result<Field, string>
    decreases Size(f), 2
  {
    match f
    case FDict(es) =>
      var _ :- CheckDescriptors(es);
      var attrs :- Attributes(es, show);
      Success(FList(attrs))
    case FList(items) =>
      var ps :- ParseItems(items, show);
      Success(FList(ps))
    case _ => Success(Make(StringValueNode, map["value" := f]))
  }

  /** The attribute nodes of a dict whose descriptors are all well formed:
      `M` gives a map attribute of the recursively parsed data, `N`, `S`
      and every other type an attribute holding the parsed descriptor. */
  function Attributes(es: seq<(string, Field)>, show: Field -> string): (r: Result<seq<Field>, string>)
    requires Described(es)
    ensures r.Success? ==> |r.value| == |es|
    decreases EntriesSize(es), 4
  {
    if |es| == 0 then Success([])
    else
      var k := es[0].0;
      var t := es[0].1.entries[0].0;
      var data := es[0].1.entries[0].1;
      assert Size(data) < EntriesSize(es) by {
        var ents := es[0].1.entries;
        assert EntriesSize(es) == EntrySize(es[0]) + EntriesSize(es[1..]);
        assert EntrySize(es[0]) == 1 + EntriesSize(ents);
        assert EntriesSize(ents) == EntrySize(ents[0]) + EntriesSize(ents[1..]);
      }
      var attr :- (if t == "M" then
                     var a :- Parse(data, show);
                     Success(Make(MapAttributeNode, map["name" := NameNode(k), "attributes" := a]))
                   else
                     var v :- ParseTuple(t, data, show);
                     Success(Make(TypedClass(t), map["name" := NameNode(k), "value" := v])));
      assert forall i :: 1 <= i < |es| ==> es[i] == es[1..][i - 1];
      var rest :- Attributes(es[1..], show);
      Success([attr] + rest)
  }

  /** The elements of a list, parsed in order. */
  function ParseItems(items: seq<Field>, show: Field -> string): (r: Result<seq<Field>, string>)
    ensures r.Success? ==> |r.value| == |items|
    decreases ItemsSize(items), 4
  {
    if |items| == 0 then Success([])
    else
      assert forall i :: 1 <= i < |items| ==> items[i] == items[1..][i - 1];
      var p :- Parse(items[0], show);
      var rest :- ParseItems(items[1..], show);
      Success([p] + rest)
  }

  /** The descriptors of a list, each parsed as a `(type, data)` pair. */
  function ParsePairs(ps: seq<(string, Field)>, show: Field -> string): (r: Result<seq<Field>, string>)
    ensures r.Success? ==> |r.value| == |ps|
    decreases EntriesSize(ps), 4
  {
    if |ps| == 0 then Success([])
    else
      assert forall i :: 1 <= i < |ps| ==> ps[i] == ps[1..][i - 1];
      assert EntriesSize(ps) == EntrySize(ps[0]) + EntriesSize(ps[1..]);
      var p :- ParseTuple(ps[0].0, ps[0].1, show);
      var rest :- ParsePairs(ps[1..], show);
      Success([p] + rest)
  }

  /** The attribute value node of a `(type, data)` pair. */
  function AttributeValue(t: string, data: Field): Field
  {
    Make(AttributeValueNode, map["type" := FStr(t), "data" := data])
  }

  /** `parse` on a `(type, data)` pair: `L` gives a list value of the
      parsed descriptors of its dicts, `SS` a string set of the `str` of
      its elements, `M` a map attribute without a name, `N` a number value
      holding the data as it is, and any other type an attribute value of
      the parsed data. */
  function ParseTuple(t: string, data: Field, show: Field -> string): Result<Field, string>
    decreases Size(data), 3
  {
    if t == "L" then
      var _ :- FlattenCheck(data);
      var pairs := if data.FList? then Flatten(data.items) else [];
      var vs :- ParsePairs(pairs, show);
      Success(AttributeValue("L", Make(ListValueNode, map["values" := FList(vs)])))
    else if t == "SS" then
      var ss :- StrValues(data, show);
      Success(AttributeValue("SS", Make(StringSetValueNode, map["values" := FList(ss)])))
    else if t == "M" then
      var a :- Parse(data, show);
      Success(Make(MapAttributeNode, map["attributes" := a]))
    else if t == "N" then
      Success(AttributeValue(t, Make(NumberValueNode, map["value" := data])))
    else
      var d :- Parse(data, show);
      Success(AttributeValue(t, d))
  }

  /** `item_parser`: the parsed item wrapped in an `ItemNode`, whatever
      the item is. */
  function ItemParser(item: Field, show: Field -> string): (r: Result<AstNode, string>)
    ensures r.Success? <==> Parse(item, show).Success?
    ensures r.Success? ==> r.value.cls == ItemNode && WellFormed(r.value)
                           && r.value.attrs == map["attributes" := Parse(item, show).value]
  {
    var a :- Parse(item, show);
    AttributeKeyLayouts();
    var n := Construct(ItemNode, map["attributes" := a]);
    assert n.attrs == map["attributes" := a];
    Success(n)
  }

  // ---------------------------------------------------------------------
  // Properties of the parser

  /** A dict item becomes one attribute node per key, in order: named by
      the key, of the class its descriptor type selects. */
  lemma {:induction false} AttributesShape(es: seq<(string, Field)>, show: Field -> string)
    requires Described(es) && Attributes(es, show).Success?
    ensures var r := Attributes(es, show).value;
            forall i :: 0 <= i < |es| ==> r[i].FNode? && r[i].node.cls == AttributeClass(es[i].1.entries[0].0)
                                          && "name" in r[i].node.attrs && r[i].node.attrs["name"] == NameNode(es[i].0)
    decreases |es|
  {
    if |es| > 0 {
      AttributesHead(es, show);
      AttributesTail(es, show);
      AttributesShape(es[1..], show);
      var r := Attributes(es, show).value;
      var rest := Attributes(es[1..], show).value;
      forall i | 1 <= i < |es|
        ensures r[i] == rest[i - 1] && es[i] == es[1..][i - 1]
      {
      }
    }
  }

  /** The first entry's node: named by its key, of the class its
      descriptor type selects. */
  lemma {:induction false} AttributesHead(es: seq<(string, Field)>, show: Field -> string)
    requires |es| > 0 && Described(es) && Attributes(es, show).Success?
    ensures var r := Attributes(es, show).value;
            r[0].FNode? && r[0].node.cls == AttributeClass(es[0].1.entries[0].0)
            && "name" in r[0].node.attrs && r[0].node.attrs["name"] == NameNode(es[0].0)
  {
    AttributeKeyLayouts();
  }

  /** The entries after the first are parsed on their own. */
  lemma {:induction false} AttributesTail(es: seq<(string, Field)>, show: Field -> string)
    requires |es| > 0 && Described(es) && Attributes(es, show).Success?
    ensures Described(es[1..]) && Attributes(es[1..], show).Success?
    ensures Attributes(es, show).value[1..] == Attributes(es[1..], show).value
  {
    assert Described(es[1..]) by {
      assert forall i :: 1 <= i < |es| ==> es[i] == es[1..][i - 1];
    }
  }

  /** The item parser on a dict: an `ItemNode` whose attributes are one
      node per top-level key. */
  lemma ItemAttributes(es: seq<(string, Field)>, show: Field -> string)
    requires ItemParser(FDict(es), show).Success?
    ensures var n := ItemParser(FDict(es), show).value;
            n.cls == ItemNode && n.attrs["attributes"].FList? && |n.attrs["attributes"].items| == |es|
            && (forall i :: 0 <= i < |es| ==>
                  es[i].1.FDict? && |es[i].1.entries| > 0
                  && n.attrs["attributes"].items[i].FNode?
                  && n.attrs["attributes"].items[i].node.cls == AttributeClass(es[i].1.entries[0].0)
                  && "name" in n.attrs["attributes"].items[i].node.attrs
                  && n.attrs["attributes"].items[i].node.attrs["name"] == NameNode(es[i].0))
  {
    AttributesShape(es, show);
  }

  /** A malformed descriptor fails the whole item: one that is not a dict
      raises `AttributeError`, an empty one `IndexError`. */
  lemma MalformedDescriptor(k: string, v: Field, show: Field -> string)
    requires !(v.FDict? && |v.entries| > 0)
    ensures ItemParser(FDict([(k, v)]), show) == Failure(if v.FDict? then "IndexError" else "AttributeError")
  {
  }

  /** Only the first key of a descriptor is read: further keys change
      nothing. */
  lemma FirstKeyOnly(k: string, t: string, data: Field, more: seq<(string, Field)>, show: Field -> string)
    ensures Parse(FDict([(k, FDict([(t, data)] + more))]), show) == Parse(FDict([(k, FDict([(t, data)]))]), show)
  {
    var es1 := [(k, FDict([(t, data)] + more))];
    var es2 := [(k, FDict([(t, data)]))];
    assert es1[1..] == [] && es2[1..] == [];
    assert Attributes(es1, show) == Attributes(es2, show);
  }

  /** The attribute built for each descriptor type. */
  lemma AttributeTypes(k: string, t: string, data: Field, show: Field -> string)
    ensures var r := Parse(FDict([(k, FDict([(t, data)]))]), show);
            r.Success? ==> r.value.FList? && |r.value.items| == 1 && r.value.items[0].FNode?
                           && r.value.items[0].node.cls
                              == (if t == "M" then MapAttributeNode else if t == "N" then NumberAttributeNode
                                  else if t == "S" then StringAttributeNode else AttributeNode)
  {
    var es := [(k, FDict([(t, data)]))];
    if Parse(FDict(es), show).Success? {
      AttributesShape(es, show);
    }
  }

  /** A map attribute holds the recursively parsed attributes of its
      data. */
  lemma MapAttribute(k: string, data: Field, show: Field -> string)
    requires Parse(data, show).Success?
    ensures Parse(FDict([(k, FDict([("M", data)]))]), show)
            == Success(FList([Make(MapAttributeNode, map["name" := NameNode(k), "attributes" := Parse(data, show).value])]))
  {
    var es := [(k, FDict([("M", data)]))];
    assert es[1..] == [];
    var attr := Make(MapAttributeNode, map["name" := NameNode(k), "attributes" := Parse(data, show).value]);
    assert Attributes(es[1..], show) == Success([]);
    assert es[0].1.entries[0] == ("M", data);
    assert [attr] + [] == [attr];
    assert Attributes(es, show) == Success([attr]);
  }

  /** A number descriptor keeps its data, unparsed, in a number value. */
  lemma NumberValue(data: Field, show: Field -> string)
    ensures ParseTuple("N", data, show) == Success(AttributeValue("N", Make(NumberValueNode, map["value" := data])))
  {
  }

  /** A string set holds the `str` of each element. */
  lemma StringSetValue(items: seq<Field>, show: Field -> string)
    ensures var r := ParseTuple("SS", FList(items), show);
            r.Success? && r.value == AttributeValue("SS", Make(StringSetValueNode, map["values" := FList(StrValues(FList(items), show).value)]))
            && |StrValues(FList(items), show).value| == |items|
            && forall i :: 0 <= i < |items| ==> StrValues(FList(items), show).value[i] == FStr(StrOf(items[i], show))
  {
  }

  /** A list descriptor holds the descriptors of its dicts, in order. */
  lemma {:induction false} ListValue(ds: seq<Field>, show: Field -> string)
    requires forall i :: 0 <= i < |ds| ==> ds[i].FDict?
    requires ParseTuple("L", FList(ds), show).Success?
    ensures var pairs := Flatten(ds);
            var r := ParseTuple("L", FList(ds), show);
            ParsePairs(pairs, show).Success?
            && r.value == AttributeValue("L", Make(ListValueNode, map["values" := FList(ParsePairs(pairs, show).value)]))
  {
  }

  /** The parsed descriptors of a list value line up with its pairs. */
  lemma {:induction false} PairsElementwise(ps: seq<(string, Field)>, show: Field -> string)
    requires ParsePairs(ps, show).Success?
    ensures forall i :: 0 <= i < |ps| ==> ParseTuple(ps[i].0, ps[i].1, show) == Success(ParsePairs(ps, show).value[i])
  {
    if |ps| > 0 {
      PairsElementwise(ps[1..], show);
      assert forall i :: 1 <= i < |ps| ==> ps[i] == ps[1..][i - 1];
    }
  }

  /** A scalar becomes a string value holding it. */
  lemma ScalarValue(f: Field, show: Field -> string)
    requires !f.FDict? && !f.FList?
    ensures Parse(f, show) == Success(Make(StringValueNode, map["value" := f]))
  {
  }

  /** A list is parsed element by element, and fails iff an element
      fails. */
  lemma {:induction false} ListElementwise(items: seq<Field>, show: Field -> string)
    ensures ParseItems(items, show).Success? <==> forall i :: 0 <= i < |items| ==> Parse(items[i], show).Success?
    ensures ParseItems(items, show).Success? ==>
              forall i :: 0 <= i < |items| ==> Parse(items[i], show) == Success(ParseItems(items, show).value[i])
  {
    if |items| > 0 {
      ListElementwise(items[1..], show);
      assert forall i :: 1 <= i < |items| ==> items[i] == items[1..][i - 1];
    }
  }
}
