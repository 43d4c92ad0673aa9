/** The DynamoDB item AST (moto/dynamodb2/validation/ast.py): node classes
    whose attributes are the keys they inherit followed by their own slots,
    construction from keyword arguments, structural equality, the hash
    tuple, copies and the snake-case kind. */
module DdbAst {
  import opened Wrappers
  import opened Strs

  /** The node classes; `Node` is the common base. */
  datatype NodeClass =
    | Node | ItemNode | AttributeNode | NumberAttributeNode | StringAttributeNode | BinaryAttributeNode
    | MapAttributeNode | AttributeValueNode | AttributeNameNode
    | ValueNode | NumberValueNode | StringValueNode | ListValueNode | StringSetValueNode

  /** A value held by a node attribute, or a value of the parsed item:
      `None`, a string, a boolean, a node, a list, or a dict with its
      entries in insertion order. */
  datatype Field =
    | FNone
    | FStr(s: string)
    | FBool(b: bool)
    | FNode(node: AstNode)
    | FList(items: seq<Field>)
    | FDict(entries: seq<(string, Field)>)

  /** A node: its class and the attributes that construction set. */
  datatype AstNode = AstNode(cls: NodeClass, attrs: map<string, Field>)

  /** `cls.__name__` */
  function ClassName(c: NodeClass): string
  {
    match c
    case Node => "Node"
    case ItemNode => "ItemNode"
    case AttributeNode => "AttributeNode"
    case NumberAttributeNode => "NumberAttributeNode"
    case StringAttributeNode => "StringAttributeNode"
    case BinaryAttributeNode => "BinaryAttributeNode"
    case MapAttributeNode => "MapAttributeNode"
    case AttributeValueNode => "AttributeValueNode"
    case AttributeNameNode => "AttributeNameNode"
    case ValueNode => "ValueNode"
    case NumberValueNode => "NumberValueNode"
    case StringValueNode => "StringValueNode"
    case ListValueNode => "ListValueNode"
    case StringSetValueNode => "StringSetValueNode"
  }

  /** The base class: the value nodes derive from `ValueNode`, every other
      class from `Node`. */
  function Base(c: NodeClass): (b: NodeClass)
    requires c != Node
    ensures b == Node || b == ValueNode
  {
    if c in {NumberValueNode, StringValueNode, ListValueNode, StringSetValueNode} then ValueNode else Node
  }

  /** `__slots__`, the attributes a class declares itself. */
  function Slots(c: NodeClass): seq<string>
  {
    match c
    case Node => []
    case ItemNode => ["attributes"]
    case AttributeNode => ["name", "value"]
    case NumberAttributeNode => ["name", "value"]
    case StringAttributeNode => ["name", "value"]
    case BinaryAttributeNode => ["name", "value"]
    case MapAttributeNode => ["name", "attributes"]
    case AttributeValueNode => ["type", "data"]
    case AttributeNameNode => ["value"]
    case ValueNode => ["value"]
    case NumberValueNode => ["value"]
    case StringValueNode => ["value"]
    case ListValueNode => ["values"]
    case StringSetValueNode => ["values"]
  }

  function Depth(c: NodeClass): nat
  {
    if c == Node then 0 else if c == ValueNode || Base(c) == Node then 1 else 2
  }

  /** `keys`: the keys of the base followed by the class's own slots;
      `Node` itself has none. */
  function Keys(c: NodeClass): seq<string>
    decreases Depth(c)
  {
    if c == Node then [] else Keys(Base(c)) + Slots(c)
  }

  /** The attribute layout of the item and attribute classes. */
  lemma AttributeKeyLayouts()
    ensures Keys(Node) == []
    ensures Keys(ItemNode) == ["attributes"]
    ensures forall c :: c in {AttributeNode, NumberAttributeNode, StringAttributeNode, BinaryAttributeNode} ==> Keys(c) == ["name", "value"]
    ensures Keys(MapAttributeNode) == ["name", "attributes"]
    ensures Keys(AttributeValueNode) == ["type", "data"]
    ensures Keys(AttributeNameNode) == ["value"]
  {
  }

  /** The attribute layout of the value classes. A value node repeats the
      slot of `ValueNode` when it declares the same name. */
  lemma ValueKeyLayouts()
    ensures Keys(ValueNode) == ["value"]
    ensures Keys(NumberValueNode) == ["value", "value"] && Keys(StringValueNode) == ["value", "value"]
    ensures Keys(ListValueNode) == ["value", "values"] && Keys(StringSetValueNode) == ["value", "values"]
  {
    assert Keys(ValueNode) == [] + ["value"];
    assert Keys(NumberValueNode) == Keys(ValueNode) + ["value"];
    assert Keys(ListValueNode) == Keys(ValueNode) + ["values"];
    assert Keys(StringValueNode) == Keys(ValueNode) + ["value"];
    assert Keys(StringSetValueNode) == Keys(ValueNode) + ["values"];
  }

  /** A subclass keeps every key of its base, in front of its own. */
  lemma KeysExtendBase(c: NodeClass)
    requires c != Node
    ensures Keys(c)[..|Keys(Base(c))|] == Keys(Base(c))
    ensures Keys(c)[|Keys(Base(c))|..] == Slots(c)
  {
  }

  /** `kind`: `ast` for `Node` itself; otherwise the class name without a
      trailing `Node`, in snake case. `snake` is `camelcase_to_underscores`. */
  function Kind(c: NodeClass, snake: string -> string): string
  {
    if c == Node then "ast"
    else
      var name := ClassName(c);
      snake(if EndsWith(name, "Node") then name[..|name| - 4] else name)
  }

  /** The kind of `Node` is `ast`; the kind of the item class and of the plain
      attribute class is the class name without `Node`, in snake case. */
  lemma KindExamples(snake: string -> string)
    ensures Kind(Node, snake) == "ast"
    ensures Kind(ItemNode, snake) == snake("Item")
    ensures Kind(AttributeNode, snake) == snake("Attribute")
  {
    KindOfStem(ItemNode, "Item", snake);
    KindOfStem(AttributeNode, "Attribute", snake);
  }

  /** The kind of the typed attribute classes. */
  lemma TypedAttributeKindExamples(snake: string -> string)
    ensures Kind(NumberAttributeNode, snake) == snake("NumberAttribute")
    ensures Kind(StringAttributeNode, snake) == snake("StringAttribute")
    ensures Kind(BinaryAttributeNode, snake) == snake("BinaryAttribute")
  {
    KindOfStem(NumberAttributeNode, "NumberAttribute", snake);
    KindOfStem(StringAttributeNode, "StringAttribute", snake);
    KindOfStem(BinaryAttributeNode, "BinaryAttribute", snake);
  }

  /** The kind of the map attribute, attribute value and attribute name classes. */
  lemma AttributeKindExamples(snake: string -> string)
    ensures Kind(MapAttributeNode, snake) == snake("MapAttribute")
    ensures Kind(AttributeValueNode, snake) == snake("AttributeValue")
    ensures Kind(AttributeNameNode, snake) == snake("AttributeName")
  {
    KindOfStem(MapAttributeNode, "MapAttribute", snake);
    KindOfStem(AttributeValueNode, "AttributeValue", snake);
    KindOfStem(AttributeNameNode, "AttributeName", snake);
  }

  /** The kind of the scalar value classes. */
  lemma ValueKindExamples(snake: string -> string)
    ensures Kind(ValueNode, snake) == snake("Value")
    ensures Kind(NumberValueNode, snake) == snake("NumberValue")
    ensures Kind(StringValueNode, snake) == snake("StringValue")
  {
    KindOfStem(ValueNode, "Value", snake);
    KindOfStem(NumberValueNode, "NumberValue", snake);
    KindOfStem(StringValueNode, "StringValue", snake);
  }

  /** The kind of the collection value classes. */
  lemma CollectionKindExamples(snake: string -> string)
    ensures Kind(ListValueNode, snake) == snake("ListValue")
    ensures Kind(StringSetValueNode, snake) == snake("StringSetValue")
  {
    KindOfStem(ListValueNode, "ListValue", snake);
    KindOfStem(StringSetValueNode, "StringSetValue", snake);
  }

  /** A class named `stem` followed by `Node` has the kind of `stem`. */
  lemma KindOfStem(c: NodeClass, stem: string, snake: string -> string)
    requires c != Node && ClassName(c) == stem + "Node"
    ensures Kind(c, snake) == snake(stem)
  {
    var name := stem + "Node";
    assert name[|name| - 4..] == "Node";
    assert name[..|name| - 4] == stem;
  }

  /** `kwargs.get(key)` */
  function Kwarg(kwargs: map<string, Field>, key: string): Field
  {
    if key in kwargs then kwargs[key] else FNone
  }

  /** `__init__`: every key of the class is set from the keyword arguments,
      `None` when one is not given; other keyword arguments are ignored. */
  function Construct(c: NodeClass, kwargs: map<string, Field>): (n: AstNode)
    ensures n.cls == c
    ensures forall k :: k in n.attrs <==> k in Keys(c)
    ensures forall k :: k in Keys(c) && k in kwargs ==> n.attrs[k] == kwargs[k]
    ensures forall k :: k in Keys(c) && k !in kwargs ==> n.attrs[k] == FNone
  {
    AstNode(c, map k | k in Keys(c) :: Kwarg(kwargs, k))
  }

  /** A node as construction leaves it: exactly the keys of its class are
      set. */
  predicate WellFormed(n: AstNode)
  {
    (forall k :: k in n.attrs ==> k in Keys(n.cls)) && (forall k :: k in Keys(n.cls) ==> k in n.attrs)
  }

  /** `getattr(node, key)` for a key of the node's class. */
  function Attr(n: AstNode, k: string): Field
    requires WellFormed(n) && k in Keys(n.cls)
  {
    n.attrs[k]
  }

  /** `__eq__`: the same class, and every key equal. */
  predicate NodeEquals(a: AstNode, b: AstNode)
    requires WellFormed(a) && WellFormed(b)
  {
    a.cls == b.cls && forall k :: k in Keys(a.cls) ==> Attr(a, k) == Attr(b, k)
  }

  /** Node equality is exactly equality of the modelled nodes. */
  lemma NodeEqualsIff(a: AstNode, b: AstNode)
    requires WellFormed(a) && WellFormed(b)
    ensures NodeEquals(a, b) <==> a == b
  {
    if NodeEquals(a, b) {
      assert a.attrs.Keys == b.attrs.Keys;
      assert forall k :: k in a.attrs ==> a.attrs[k] == b.attrs[k];
      assert a.attrs == b.attrs;
    }
  }

  /** The two built nodes are equal iff the classes are equal and the
      keyword arguments agree on the keys of the class. */
  lemma ConstructEquals(c: NodeClass, d: NodeClass, kw1: map<string, Field>, kw2: map<string, Field>)
    ensures Construct(c, kw1) == Construct(d, kw2)
            <==> c == d && forall k :: k in Keys(c) ==> Kwarg(kw1, k) == Kwarg(kw2, k)
  {
    var a := Construct(c, kw1);
    var b := Construct(d, kw2);
    if c == d && forall k :: k in Keys(c) ==> Kwarg(kw1, k) == Kwarg(kw2, k) {
      assert a.attrs == b.attrs;
    }
    if a == b {
      forall k | k in Keys(c)
        ensures Kwarg(kw1, k) == Kwarg(kw2, k)
      {
        assert a.attrs[k] == b.attrs[k];
      }
    }
  }

  /** The tuple `__hash__` hashes: the attributes in key order. */
  function HashTuple(n: AstNode): (t: seq<Field>)
    requires WellFormed(n)
    ensures |t| == |Keys(n.cls)|
    ensures forall i :: 0 <= i < |t| ==> t[i] == Attr(n, Keys(n.cls)[i])
  {
    seq(|Keys(n.cls)|, i requires 0 <= i < |Keys(n.cls)| => Attr(n, Keys(n.cls)[i]))
  }

  /** `hash` of an attribute succeeds: lists and dicts are unhashable, and
      a node hashes its own attributes. */
  predicate Hashable(f: Field)
  {
    match f
    case FList(_) => false
    case FDict(_) => false
    case FNode(m) => WellFormed(m) && forall k :: k in m.attrs ==> Hashable(m.attrs[k])
    case _ => true
  }

  /** `__hash__`: the hash of the attribute tuple, given as the tuple
      itself; an unhashable attribute raises `TypeError`. */
  function NodeHash(n: AstNode): (r: Result<seq<Field>, string>)
    requires WellFormed(n)
    ensures r.Failure? <==> exists k :: k in Keys(n.cls) && !Hashable(Attr(n, k))
    ensures r.Failure? ==> r.error == "TypeError"
    ensures r.Success? ==> r.value == HashTuple(n)
  {
    if forall k :: k in n.attrs ==> Hashable(n.attrs[k]) then Success(HashTuple(n)) else Failure("TypeError")
  }

  /** Equal nodes hash the same tuple, and one raises exactly when the other does. */
  lemma HashConsistent(a: AstNode, b: AstNode)
    requires WellFormed(a) && WellFormed(b) && NodeEquals(a, b)
    ensures HashTuple(a) == HashTuple(b)
    ensures NodeHash(a) == NodeHash(b)
  {
  }

  /** A number value node hashes its value twice, once per `value` key. */
  lemma NumberValueHash(v: Field)
    ensures WellFormed(Construct(NumberValueNode, map["value" := v]))
    ensures HashTuple(Construct(NumberValueNode, map["value" := v])) == [v, v]
  {
    ValueKeyLayouts();
  }

  /** `__copy__`: a node of the same class built from its own attributes. */
  function Copy(n: AstNode): AstNode
    requires WellFormed(n)
  {
    Construct(n.cls, map k | k in Keys(n.cls) :: Attr(n, k))
  }

  /** `__deepcopy__`: the same, from copies of the attributes; a copy of
      an immutable modelled value is the value itself. */
  function DeepCopy(n: AstNode): AstNode
    requires WellFormed(n)
  {
    Construct(n.cls, map k | k in Keys(n.cls) :: CopyOf(Attr(n, k)))
  }

  function CopyOf(f: Field): Field
  {
    f
  }

  /** Both copies equal the original. */
  lemma CopiesEqual(n: AstNode)
    requires WellFormed(n)
    ensures WellFormed(Copy(n)) && Copy(n) == n && NodeEquals(Copy(n), n)
    ensures WellFormed(DeepCopy(n)) && DeepCopy(n) == n && NodeEquals(DeepCopy(n), n)
  {
    var c := Copy(n);
    assert c.attrs == n.attrs;
    var d := DeepCopy(n);
    assert d.attrs == n.attrs;
  }
}
