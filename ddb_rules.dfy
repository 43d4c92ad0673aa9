/** The item validation rules (moto/dynamodb2/validation/rules.py): a
    number value must convert to a number, every key of the table's key
    schema must be a top-level attribute of the item, and a key attribute
    must have the type its definition gives. The rules are visitors; the
    callbacks they implement are the `Event`s below, carrying what the
    callbacks read from their node. */
module DdbRules {
  import opened Wrappers
  import opened DdbAst
  import opened DdbErrors

  /** An entry of the visitor's ancestor list: a node, or a list of nodes. */
  datatype Ancestor = AncestorNode(cls: NodeClass) | AncestorList

  /** The visitor callbacks the rules implement.
      `EnterTypedAttribute` is `enter_attribute`, `enter_number_attribute`,
      `enter_string_attribute` and `enter_binary_attribute`, with the name
      of the attribute and the type of its value. */
  datatype Event =
    | EnterNumberValue(value: Field)
    | EnterAttributeName(name: string, ancestors: seq<Ancestor>)
    | EnterTypedAttribute(name: string, valueType: string)
    | EnterMapAttribute
    | LeaveMapAttribute
    | LeaveItem

  /** An entry of the table's `attribute_definitions`. */
  datatype KeyDefinition = KeyDefinition(name: string, attrType: string)

  const NotNumeric := "The parameter cannot be converted to a numeric value"

  /** `int(node.value)`, falling back on `float(node.value)`: a string
      converts when `numeric` accepts it, a boolean always does, and any
      other value raises a `TypeError` that no rule catches. A string
      that converts to neither is reported. */
  function NumberCheck(value: Field, numeric: string -> bool): (r: Result<seq<string>, string>)
    ensures r.Failure? <==> !(value.FStr? || value.FBool?)
    ensures r.Failure? ==> r.error == "TypeError"
    ensures r.Success? ==> (r.value == [NotNumeric] <==> value.FStr? && !numeric(value.s))
    ensures r.Success? ==> r.value == [] || r.value == [NotNumeric]
  {
    match value
    case FStr(s) => Success(if numeric(s) then [] else [NotNumeric])
    case FBool(_) => Success([])
    case _ => Failure("TypeError")
  }

  /** `is_item_attribute`: the attribute sits directly under the item. */
  predicate IsItemAttribute(ancestors: seq<Ancestor>)
  {
    |ancestors| == 2 && ancestors[0] == AncestorNode(ItemNode)
  }

  function MissingKeyMessage(key: string): string
  {
    "Missing the key " + key + " in the item"
  }

  /** The keys, in key schema order, that are not among the item's
      attribute names. */
  function Missing(keys: seq<string>, names: seq<string>): (r: seq<string>)
    ensures |r| <= |keys|
    decreases |keys|
  {
    if keys == [] then []
    else (if keys[0] in names then [] else [keys[0]]) + Missing(keys[1..], names)
  }

  /** A key is reported missing exactly when it is a key and no top-level
      attribute has its name. */
  lemma {:induction false} MissingMembers(keys: seq<string>, names: seq<string>)
    ensures forall k :: k in Missing(keys, names) <==> k in keys && k !in names
    decreases |keys|
  {
    if keys != [] {
      MissingMembers(keys[1..], names);
      assert keys == [keys[0]] + keys[1..];
    }
  }

  /** The item has every key exactly when nothing is missing; an item
      with none of them misses all of them, in order. */
  lemma {:induction false} MissingCases(keys: seq<string>, names: seq<string>)
    ensures Missing(keys, names) == [] <==> forall k :: k in keys ==> k in names
    ensures (forall k :: k in keys ==> k !in names) ==> Missing(keys, names) == keys
    decreases |keys|
  {
    MissingMembers(keys, names);
    if keys != [] {
      MissingCases(keys[1..], names);
      if forall k :: k in keys ==> k !in names {
        assert forall k :: k in keys[1..] ==> k in keys;
        assert keys == [keys[0]] + keys[1..];
      }
    }
  }

  function MissingMessages(keys: seq<string>): (r: seq<string>)
    ensures |r| == |keys|
    ensures forall i :: 0 <= i < |keys| ==> r[i] == MissingKeyMessage(keys[i])
  {
    seq(|keys|, i requires 0 <= i < |keys| => MissingKeyMessage(keys[i]))
  }

  /** The messages of the keys from `i` on: the one of key `i`, if it is
      missing, followed by those of the rest. */
  lemma MissingStep(keys: seq<string>, names: seq<string>, i: int)
    requires 0 <= i < |keys|
    ensures MissingMessages(Missing(keys[i..], names))
            == (if keys[i] in names then [] else [MissingKeyMessage(keys[i])]) + MissingMessages(Missing(keys[i + 1..], names))
  {
    var head := if keys[i] in names then [] else [keys[i]];
    var tail := Missing(keys[i + 1..], names);
    assert keys[i..][0] == keys[i] && keys[i..][1..] == keys[i + 1..];
    assert Missing(keys[i..], names) == head + tail;
    assert MissingMessages(head + tail) == MissingMessages(head) + MissingMessages(tail);
  }

  /** A type mismatch of a key definition. */
  datatype Mismatch = Mismatch(key: string, expected: string, actual: string)

  function MismatchMessage(m: Mismatch): string
  {
    "Type mismatch for key " + m.key + " expected: " + m.expected + " actual: " + m.actual
  }

  function MismatchMessages(ms: seq<Mismatch>): (r: seq<string>)
    ensures |r| == |ms|
    ensures forall i :: 0 <= i < |ms| ==> r[i] == MismatchMessage(ms[i])
  {
    seq(|ms|, i requires 0 <= i < |ms| => MismatchMessage(ms[i]))
  }

  /** The definitions, in order, whose key was recorded with another type.
      `attr_types.get(key, expected)`: a key that was not recorded never
      mismatches. */
  function Mismatches(defs: seq<KeyDefinition>, types: map<string, string>): (r: seq<Mismatch>)
    ensures |r| <= |defs|
    decreases |defs|
  {
    if defs == [] then []
    else
      var d := defs[0];
      var actual := if d.name in types then types[d.name] else d.attrType;
      (if actual != d.attrType then [Mismatch(d.name, d.attrType, actual)] else []) + Mismatches(defs[1..], types)
  }

  /** A mismatch is reported for a definition exactly when its key was
      recorded with a type other than the defined one, and it names both
      types. */
  lemma {:induction false} MismatchMembers(defs: seq<KeyDefinition>, types: map<string, string>)
    ensures forall m :: m in Mismatches(defs, types) ==>
              KeyDefinition(m.key, m.expected) in defs && m.key in types && types[m.key] == m.actual && m.actual != m.expected
    ensures forall d :: d in defs && d.name in types && types[d.name] != d.attrType ==>
              Mismatch(d.name, d.attrType, types[d.name]) in Mismatches(defs, types)
    decreases |defs|
  {
    if defs != [] {
      MismatchMembers(defs[1..], types);
      assert defs == [defs[0]] + defs[1..];
    }
  }

  /** The messages of the definitions from `i` on: the one of definition
      `i`, if it mismatches, followed by those of the rest. */
  lemma MismatchStep(defs: seq<KeyDefinition>, types: map<string, string>, i: int)
    requires 0 <= i < |defs|
    ensures var d := defs[i];
            var actual := if d.name in types then types[d.name] else d.attrType;
            MismatchMessages(Mismatches(defs[i..], types))
            == (if actual != d.attrType then [MismatchMessage(Mismatch(d.name, d.attrType, actual))] else [])
               + MismatchMessages(Mismatches(defs[i + 1..], types))
  {
    var d := defs[i];
    var actual := if d.name in types then types[d.name] else d.attrType;
    var head := if actual != d.attrType then [Mismatch(d.name, d.attrType, actual)] else [];
    var tail := Mismatches(defs[i + 1..], types);
    assert defs[i..][0] == defs[i] && defs[i..][1..] == defs[i + 1..];
    assert Mismatches(defs[i..], types) == head + tail;
    assert MismatchMessages(head + tail) == MismatchMessages(head) + MismatchMessages(tail);
  }

  /** The state of `KeysMustBeOfCorrectType`: the type table of the
      attributes at the current map level, and the tables of the levels
      around it. */
  datatype TypeState = TypeState(attrTypes: map<string, string>, stack: seq<map<string, string>>)

  /** How an event changes the type table; leaving a map with no table
      saved raises `IndexError` (`pop` of an empty list). */
  function TypeStep(st: TypeState, e: Event): (r: Result<TypeState, string>)
    ensures r.Failure? <==> e.LeaveMapAttribute? && st.stack == []
  {
    match e
    case EnterTypedAttribute(name, t) => Success(TypeState(st.attrTypes[name := t], st.stack))
    case EnterMapAttribute => Success(TypeState(map[], st.stack + [st.attrTypes]))
    case LeaveMapAttribute =>
      if st.stack == [] then Failure("IndexError")
      else Success(TypeState(st.stack[|st.stack| - 1], st.stack[..|st.stack| - 1]))
    case _ => Success(st)
  }

  /** The type table after a run of events, or the error that stopped it. */
  function TypeRun(st: TypeState, es: seq<Event>): Result<TypeState, string>
    decreases |es|
  {
    if es == [] then Success(st)
    else match TypeStep(st, es[0])
      case Failure(err) => Failure(err)
      case Success(next) => TypeRun(next, es[1..])
  }

  /** How many maps a run of events leaves open. */
  function Depth(es: seq<Event>): int
    decreases |es|
  {
    if es == [] then 0
    else (if es[0].EnterMapAttribute? then 1 else if es[0].LeaveMapAttribute? then -1 else 0) + Depth(es[1..])
  }

  /** Maps are entered and left in nesting order: no prefix leaves more
      maps than it entered, and the whole run leaves none open. */
  predicate Balanced(es: seq<Event>)
  {
    Depth(es) == 0 && forall k :: 0 <= k <= |es| ==> Depth(es[..k]) >= 0
  }

  /** A run never pops below the tables it started with, provided no
      prefix leaves more maps than the entered maps and the tables saved
      beyond `base` allow. */
  lemma {:induction false} TypeRunKeepsBase(st: TypeState, es: seq<Event>, base: seq<map<string, string>>)
    requires |base| <= |st.stack| && st.stack[..|base|] == base
    requires forall k :: 0 <= k <= |es| ==> |st.stack| + Depth(es[..k]) >= |base|
    ensures TypeRun(st, es).Success?
    ensures var s := TypeRun(st, es).value.stack;
            |s| == |st.stack| + Depth(es) && |base| <= |s| && s[..|base|] == base
    decreases |es|
  {
    if es == [] {
      assert Depth(es) == 0;
    } else {
      var e := es[0];
      var rest := es[1..];
      assert es[..1] == [e] && Depth([e]) == Depth(es[..1]);
      assert [e][1..] == [];
      assert |st.stack| + Depth([e]) >= |base|;
      var next := TypeStep(st, e).value;
      assert |next.stack| == |st.stack| + Depth([e]);
      assert next.stack[..|base|] == base;
      forall k | 0 <= k <= |rest|
        ensures |next.stack| + Depth(rest[..k]) >= |base|
      {
        assert es[..k + 1][1..] == rest[..k];
        assert es[..k + 1][0] == e;
        assert Depth(es[..k + 1]) == Depth([e]) + Depth(rest[..k]);
      }
      TypeRunKeepsBase(next, rest, base);
      assert Depth(es) == Depth([e]) + Depth(rest);
    }
  }

  /** Entering a map and leaving it restores the type table of the
      enclosing level, whatever the attributes inside recorded: nested
      attributes do not leak into the item's table. */
  lemma MapLevelRestores(st: TypeState, inner: seq<Event>)
    requires Balanced(inner)
    ensures TypeRun(st, [EnterMapAttribute] + inner + [LeaveMapAttribute]) == Success(st)
  {
    var inside := TypeState(map[], st.stack + [st.attrTypes]);
    var base := st.stack + [st.attrTypes];
    assert inside.stack[..|base|] == base;
    TypeRunKeepsBase(inside, inner, base);
    var after := TypeRun(inside, inner).value;
    assert after.stack == base;
    TypeRunAppend(inside, inner, [LeaveMapAttribute]);
    TypeRunAppend(st, [EnterMapAttribute], inner + [LeaveMapAttribute]);
    assert [EnterMapAttribute] + inner + [LeaveMapAttribute] == [EnterMapAttribute] + (inner + [LeaveMapAttribute]);
    assert TypeRun(st, [EnterMapAttribute]) == Success(inside) by {
      assert [EnterMapAttribute][1..] == [];
    }
    assert TypeRun(after, [LeaveMapAttribute]) == Success(st) by {
      assert [LeaveMapAttribute][1..] == [];
      assert base[..|base| - 1] == st.stack;
    }
  }

  /** A run of two batches is the second run after the first. */
  lemma {:induction false} TypeRunAppend(st: TypeState, a: seq<Event>, b: seq<Event>)
    ensures TypeRun(st, a + b) == match TypeRun(st, a)
                                  case Failure(err) => Failure(err)
                                  case Success(mid) => TypeRun(mid, b)
    decreases |a|
  {
    if a == [] {
      assert a + b == b;
    } else {
      assert (a + b)[0] == a[0] && (a + b)[1..] == a[1..] + b;
      if TypeStep(st, a[0]).Success? {
        TypeRunAppend(TypeStep(st, a[0]).value, a[1..], b);
      }
    }
  }

  /** `ValuesOfCorrectTypeRule`. */
  class ValuesOfCorrectTypeRule {
    constructor ()
    {
    }

    /** `enter_number_value`: reports a value that converts to no number;
        a value that cannot be converted at all raises `TypeError`. */
    method EnterNumberValue(value: Field, numeric: string -> bool, log: ErrorLog) returns (r: Result<bool, string>)
      modifies log
      ensures NumberCheck(value, numeric).Failure? ==> r == Failure("TypeError") && log.errors == old(log.errors)
      ensures NumberCheck(value, numeric).Success? ==>
                r.Success? && (log.errors, r.value) == Deliver(old(log.errors), NumberCheck(value, numeric).value, log.maxErrors)
    {
      match value {
        case FStr(s) =>
          if numeric(s) {
            r := Success(false);
          } else {
            var aborted := log.OnError(NotNumeric);
            r := Success(aborted);
          }
        case FBool(_) =>
          r := Success(false);
        case _ =>
          r := Failure("TypeError");
      }
    }
  }

  /** `KeysMustBePresent`. */
  class KeysMustBePresent {
    /** The `AttributeName`s of the key schema, in order. */
    const keyNames: seq<string>
    /** The names of the item's top-level attributes seen so far. */
    var attrNames: seq<string>

    constructor (keySchema: seq<string>)
      ensures keyNames == keySchema && attrNames == []
    {
      keyNames := keySchema;
      attrNames := [];
    }

    /** `enter_attribute_name`: only a top-level attribute counts. */
    method EnterAttributeName(name: string, ancestors: seq<Ancestor>)
      modifies this
      ensures attrNames == old(attrNames) + (if IsItemAttribute(ancestors) then [name] else [])
    {
      if |ancestors| == 2 && ancestors[0] == AncestorNode(ItemNode) {
        attrNames := attrNames + [name];
      }
    }

    /** `leave_item`: one report per missing key, in key schema order,
        until the error limit aborts. */
    method LeaveItem(log: ErrorLog) returns (aborted: bool)
      modifies log
      ensures (log.errors, aborted) == Deliver(old(log.errors), MissingMessages(Missing(keyNames, attrNames)), log.maxErrors)
    {
      ghost var total := Deliver(log.errors, MissingMessages(Missing(keyNames, attrNames)), log.maxErrors);
      var i := 0;
      aborted := false;
      while i < |keyNames| && !aborted
        invariant 0 <= i <= |keyNames|
        invariant !aborted ==> Deliver(log.errors, MissingMessages(Missing(keyNames[i..], attrNames)), log.maxErrors) == total
        invariant aborted ==> (log.errors, true) == total
      {
        var key := keyNames[i];
        ghost var before := log.errors;
        ghost var rest := MissingMessages(Missing(keyNames[i + 1..], attrNames));
        MissingStep(keyNames, attrNames, i);
        if key !in attrNames {
          assert MissingMessages(Missing(keyNames[i..], attrNames)) == [MissingKeyMessage(key)] + rest;
          DeliverCons(before, MissingKeyMessage(key), rest, log.maxErrors);
          aborted := log.OnError(MissingKeyMessage(key));
        } else {
          assert MissingMessages(Missing(keyNames[i..], attrNames)) == rest;
        }
        i := i + 1;
      }
      if !aborted {
        assert keyNames[i..] == [];
      }
    }
  }

  /** `KeysMustBeOfCorrectType`. */
  class KeysMustBeOfCorrectType {
    /** The table's `attribute_definitions`. */
    const definitions: seq<KeyDefinition>
    /** `attr_types`: the type of each attribute at the current level. */
    var attrTypes: map<string, string>
    /** `attr_definitions_stack`: the tables of the enclosing levels. */
    var stack: seq<map<string, string>>

    constructor (definitions: seq<KeyDefinition>)
      ensures this.definitions == definitions && attrTypes == map[] && stack == []
    {
      this.definitions := definitions;
      attrTypes := map[];
      stack := [];
    }

    function State(): TypeState
      reads this
    {
      TypeState(attrTypes, stack)
    }

    /** `record_type`: the attribute's name gets its value's type. */
    method RecordType(name: string, valueType: string)
      modifies this
      ensures attrTypes == old(attrTypes)[name := valueType] && stack == old(stack)
      ensures TypeStep(old(State()), EnterTypedAttribute(name, valueType)) == Success(State())
    {
      attrTypes := attrTypes[name := valueType];
    }

    /** `enter_map_attribute`: the current table is saved, and the map's
        attributes start a fresh one. */
    method EnterMapAttribute()
      modifies this
      ensures stack == old(stack) + [old(attrTypes)] && attrTypes == map[]
      ensures TypeStep(old(State()), Event.EnterMapAttribute) == Success(State())
    {
      stack := stack + [attrTypes];
      attrTypes := map[];
    }

    /** `leave_map_attribute`: the saved table comes back; with none saved
        the `pop` raises and nothing changes. */
    method LeaveMapAttribute() returns (r: Result<(), string>)
      modifies this
      ensures old(stack) == [] ==> r == Failure("IndexError") && attrTypes == old(attrTypes) && stack == old(stack)
      ensures old(stack) != [] ==>
                r.Success? && attrTypes == old(stack)[|old(stack)| - 1] && stack == old(stack)[..|old(stack)| - 1]
      ensures r.Success? <==> TypeStep(old(State()), Event.LeaveMapAttribute) == Success(State())
    {
      if stack == [] {
        r := Failure("IndexError");
      } else {
        attrTypes := stack[|stack| - 1];
        stack := stack[..|stack| - 1];
        r := Success(());
      }
    }

    /** `leave_item`: one report per key definition whose recorded type
        differs, in definition order, until the error limit aborts. */
    method LeaveItem(log: ErrorLog) returns (aborted: bool)
      modifies log
      ensures (log.errors, aborted) == Deliver(old(log.errors), MismatchMessages(Mismatches(definitions, attrTypes)), log.maxErrors)
    {
      ghost var total := Deliver(log.errors, MismatchMessages(Mismatches(definitions, attrTypes)), log.maxErrors);
      var i := 0;
      aborted := false;
      while i < |definitions| && !aborted
        invariant 0 <= i <= |definitions|
        invariant !aborted ==> Deliver(log.errors, MismatchMessages(Mismatches(definitions[i..], attrTypes)), log.maxErrors) == total
        invariant aborted ==> (log.errors, true) == total
      {
        var definition := definitions[i];
        var key := definition.name;
        var expected := definition.attrType;
        var actual := if key in attrTypes then attrTypes[key] else expected;
        ghost var before := log.errors;
        ghost var rest := MismatchMessages(Mismatches(definitions[i + 1..], attrTypes));
        MismatchStep(definitions, attrTypes, i);
        if actual != expected {
          var message := MismatchMessage(Mismatch(key, expected, actual));
          assert MismatchMessages(Mismatches(definitions[i..], attrTypes)) == [message] + rest;
          DeliverCons(before, message, rest, log.maxErrors);
          aborted := log.OnError(message);
        } else {
          assert MismatchMessages(Mismatches(definitions[i..], attrTypes)) == rest;
        }
        i := i + 1;
      }
      if !aborted {
        assert definitions[i..] == [];
      }
    }
  }
}
