/** `validate` (moto/dynamodb2/validation/validate.py): one instance of
    each rule visits the item's events in parallel, in rule order; every
    report goes through `on_error`, which aborts the visit at the error
    limit, and an exception of a rule ends the validation. The visit is
    given as the sequence of callbacks it makes. */
module DdbValidation {
  import opened Wrappers
  import opened DdbAst
  import opened DdbErrors
  import opened DdbRules

  /** The rule classes. */
  datatype Rule = ValuesOfCorrectType | KeysPresent | KeysOfCorrectType

  /** `item_rules`, in the order their reports come out. */
  const ItemRules: seq<Rule> := [ValuesOfCorrectType, KeysPresent, KeysOfCorrectType]

  /** What the rules read from the table schema: the `AttributeName`s of
      `key_schema`, and `attribute_definitions`. */
  datatype Schema = Schema(keyNames: seq<string>, definitions: seq<KeyDefinition>)

  /** The `max_errors` argument: `None`, an int (a Python bool is one), or
      a value of any other type. */
  datatype MaxErrors = NoLimit | Limit(n: int) | NotAnInt

  /** The state of one rule instance. */
  datatype RuleState =
    | ValuesState
    | PresentState(keyNames: seq<string>, attrNames: seq<string>)
    | TypesState(definitions: seq<KeyDefinition>, types: TypeState)

  /** `rule(context)`: a fresh instance configured from the schema. */
  function Initial(r: Rule, schema: Schema): RuleState
  {
    match r
    case ValuesOfCorrectType => ValuesState
    case KeysPresent => PresentState(schema.keyNames, [])
    case KeysOfCorrectType => TypesState(schema.definitions, TypeState(map[], []))
  }

  function InitialStates(rules: seq<Rule>, schema: Schema): (r: seq<RuleState>)
    ensures |r| == |rules|
    ensures forall j :: 0 <= j < |rules| ==> r[j] == Initial(rules[j], schema)
  {
    seq(|rules|, j requires 0 <= j < |rules| => Initial(rules[j], schema))
  }

  /** How a callback ends: the visit goes on with the new errors and
      state, `on_error` aborted it, or a rule raised. */
  datatype Outcome<S> = Continue(errors: seq<string>, state: S) | Aborted(errors: seq<string>) | Raised(error: string)

  function Report<S>(errors: seq<string>, msgs: seq<string>, maxErrors: Option<int>, st: S): Outcome<S>
  {
    var (es, aborted) := Deliver(errors, msgs, maxErrors);
    if aborted then Aborted(es) else Continue(es, st)
  }

  /** The callback of one rule instance for an event. */
  function Handle(errors: seq<string>, st: RuleState, e: Event, numeric: string -> bool, maxErrors: Option<int>): Outcome<RuleState>
  {
    match st
    case ValuesState =>
      if e.EnterNumberValue? then
        (match NumberCheck(e.value, numeric)
         case Failure(err) => Raised(err)
         case Success(msgs) => Report(errors, msgs, maxErrors, st))
      else Continue(errors, st)
    case PresentState(keys, names) =>
      (match e
       case EnterAttributeName(n, ancestors) =>
         Continue(errors, PresentState(keys, names + if IsItemAttribute(ancestors) then [n] else []))
       case LeaveItem => Report(errors, MissingMessages(Missing(keys, names)), maxErrors, st)
       case _ => Continue(errors, st))
    case TypesState(defs, ts) =>
      if e.LeaveItem? then Report(errors, MismatchMessages(Mismatches(defs, ts.attrTypes)), maxErrors, st)
      else
        match TypeStep(ts, e)
        case Failure(err) => Raised(err)
        case Success(next) => Continue(errors, TypesState(defs, next))
  }

  /** `ParallelVisitor`: the event goes to the rule instances from `j` on,
      in order. */
  function Dispatch(errors: seq<string>, states: seq<RuleState>, e: Event, j: nat, numeric: string -> bool, maxErrors: Option<int>): Outcome<seq<RuleState>>
    requires j <= |states|
    decreases |states| - j
  {
    if j == |states| then Continue(errors, states)
    else
      match Handle(errors, states[j], e, numeric, maxErrors)
      case Continue(es, st) => Dispatch(es, states[j := st], e, j + 1, numeric, maxErrors)
      case Aborted(es) => Aborted(es)
      case Raised(err) => Raised(err)
  }

  /** The rest of the visit: an abort ends it with the errors so far, an
      exception of a rule ends the validation with that exception. */
  function Run(errors: seq<string>, states: seq<RuleState>, events: seq<Event>, numeric: string -> bool, maxErrors: Option<int>): Result<seq<string>, string>
    decreases |events|
  {
    if events == [] then Success(errors)
    else
      match Dispatch(errors, states, events[0], 0, numeric, maxErrors)
      case Continue(es, sts) => Run(es, sts, events[1..], numeric, maxErrors)
      case Aborted(es) => Success(es)
      case Raised(err) => Failure(err)
  }

  function LimitOf(m: MaxErrors): Option<int>
  {
    if m.Limit? then Some(m.n) else None
  }

  /** `validate`: the errors of visiting the events with the rules
      (`item_rules` when none are given). */
  function Validation(schema: Schema, events: seq<Event>, rules: Option<seq<Rule>>, maxErrors: MaxErrors, numeric: string -> bool): Result<seq<string>, string>
  {
    if maxErrors.NotAnInt? then Failure("TypeError")
    else Run([], InitialStates(rules.GetOr(ItemRules), schema), events, numeric, LimitOf(maxErrors))
  }

  /** The errors a limit `n` keeps of `errs`: all of them when they fit,
      otherwise the first `n` and the sentinel. */
  function Cut(errs: seq<string>, n: int): seq<string>
  {
    var room := Room(0, n);
    if |errs| <= room then errs else errs[..room] + [TooMany]
  }

  /** Cutting a list that already overflows gives what cutting any
      longer list with the same front gives. */
  lemma CutPrefix(short: seq<string>, long: seq<string>, n: int)
    requires |short| <= |long| && long[..|short|] == short && |short| > Room(0, n)
    ensures Cut(long, n) == Cut(short, n)
  {
    assert long[..Room(0, n)] == short[..Room(0, n)];
  }

  // ---------------------------------------------------------------- the limit

  /** Without a limit a callback never aborts, and it only appends. */
  lemma HandleUnlimited(errors: seq<string>, st: RuleState, e: Event, numeric: string -> bool)
    ensures !Handle(errors, st, e, numeric, None).Aborted?
    ensures var o := Handle(errors, st, e, numeric, None);
            o.Continue? ==> |errors| <= |o.errors| && o.errors[..|errors|] == errors
  {
    match st
    case ValuesState =>
      if e.EnterNumberValue? && NumberCheck(e.value, numeric).Success? {
        DeliverUnlimited(errors, NumberCheck(e.value, numeric).value);
      }
    case PresentState(keys, names) =>
      DeliverUnlimited(errors, MissingMessages(Missing(keys, names)));
    case TypesState(defs, ts) =>
      DeliverUnlimited(errors, MismatchMessages(Mismatches(defs, ts.attrTypes)));
  }

  /** Reporting under a limit that the errors so far fit: the unlimited
      report, cut to the limit. */
  lemma ReportCut<S>(errors: seq<string>, msgs: seq<string>, n: int, st: S)
    requires |errors| <= Room(0, n)
    ensures Report(errors, msgs, Some(n), st)
            == if |errors + msgs| <= Room(0, n) then Continue(errors + msgs, st) else Aborted(Cut(errors + msgs, n))
  {
    DeliverLimited(errors, msgs, n);
    var room := Room(|errors|, n);
    assert room == Room(0, n) - |errors|;
    if |msgs| > room {
      assert (errors + msgs)[..Room(0, n)] == errors + msgs[..room];
    }
  }

  /** A callback under a limit that the errors so far fit: as without a
      limit, except that it aborts with the cut errors once they overflow. */
  lemma HandleLimited(errors: seq<string>, st: RuleState, e: Event, numeric: string -> bool, n: int)
    requires |errors| <= Room(0, n)
    ensures var o := Handle(errors, st, e, numeric, None);
            (o.Raised? ==> Handle(errors, st, e, numeric, Some(n)) == o)
            && (o.Continue? ==> Handle(errors, st, e, numeric, Some(n))
                                == if |o.errors| <= Room(0, n) then o else Aborted(Cut(o.errors, n)))
  {
    match st
    case ValuesState =>
      if e.EnterNumberValue? && NumberCheck(e.value, numeric).Success? {
        var msgs := NumberCheck(e.value, numeric).value;
        DeliverUnlimited(errors, msgs);
        ReportCut(errors, msgs, n, st);
      }
    case PresentState(keys, names) =>
      if e.LeaveItem? {
        var msgs := MissingMessages(Missing(keys, names));
        DeliverUnlimited(errors, msgs);
        ReportCut(errors, msgs, n, st);
      }
    case TypesState(defs, ts) =>
      if e.LeaveItem? {
        var msgs := MismatchMessages(Mismatches(defs, ts.attrTypes));
        DeliverUnlimited(errors, msgs);
        ReportCut(errors, msgs, n, st);
      }
  }

  /** Without a limit the dispatch of an event never aborts, and it only
      appends. */
  lemma {:induction false} DispatchUnlimited(errors: seq<string>, states: seq<RuleState>, e: Event, j: nat, numeric: string -> bool)
    requires j <= |states|
    ensures !Dispatch(errors, states, e, j, numeric, None).Aborted?
    ensures var o := Dispatch(errors, states, e, j, numeric, None);
            o.Continue? ==> |errors| <= |o.errors| && o.errors[..|errors|] == errors
    decreases |states| - j
  {
    if j < |states| {
      HandleUnlimited(errors, states[j], e, numeric);
      var h := Handle(errors, states[j], e, numeric, None);
      if h.Continue? {
        DispatchUnlimited(h.errors, states[j := h.state], e, j + 1, numeric);
      }
    }
  }

  /** The dispatch of an event under a limit that the errors so far fit. */
  lemma {:induction false} DispatchLimited(errors: seq<string>, states: seq<RuleState>, e: Event, j: nat, numeric: string -> bool, n: int)
    requires j <= |states| && |errors| <= Room(0, n)
    ensures var o := Dispatch(errors, states, e, j, numeric, None);
            o.Continue? ==> Dispatch(errors, states, e, j, numeric, Some(n))
                            == if |o.errors| <= Room(0, n) then o else Aborted(Cut(o.errors, n))
    decreases |states| - j
  {
    if j < |states| {
      HandleLimited(errors, states[j], e, numeric, n);
      var h := Handle(errors, states[j], e, numeric, None);
      if h.Continue? {
        var next := states[j := h.state];
        if |h.errors| <= Room(0, n) {
          DispatchLimited(h.errors, next, e, j + 1, numeric, n);
        } else {
          DispatchUnlimited(h.errors, next, e, j + 1, numeric);
          var o := Dispatch(h.errors, next, e, j + 1, numeric, None);
          if o.Continue? {
            CutPrefix(h.errors, o.errors, n);
          }
        }
      }
    }
  }

  /** Without a limit the errors only grow. */
  lemma {:induction false} RunUnlimited(errors: seq<string>, states: seq<RuleState>, events: seq<Event>, numeric: string -> bool)
    ensures var r := Run(errors, states, events, numeric, None);
            r.Success? ==> |errors| <= |r.value| && r.value[..|errors|] == errors
    decreases |events|
  {
    if events != [] {
      DispatchUnlimited(errors, states, events[0], 0, numeric);
      var o := Dispatch(errors, states, events[0], 0, numeric, None);
      if o.Continue? {
        RunUnlimited(o.errors, o.state, events[1..], numeric);
      }
    }
  }

  /** A visit under a limit that the errors so far fit ends with the
      errors of the unlimited visit, cut to the limit. */
  lemma {:induction false} RunLimited(errors: seq<string>, states: seq<RuleState>, events: seq<Event>, numeric: string -> bool, n: int)
    requires |errors| <= Room(0, n)
    ensures var r := Run(errors, states, events, numeric, None);
            r.Success? ==> Run(errors, states, events, numeric, Some(n)) == Success(Cut(r.value, n))
    decreases |events|
  {
    if events != [] {
      DispatchLimited(errors, states, events[0], 0, numeric, n);
      DispatchUnlimited(errors, states, events[0], 0, numeric);
      var o := Dispatch(errors, states, events[0], 0, numeric, None);
      if o.Continue? {
        assert Run(errors, states, events, numeric, None) == Run(o.errors, o.state, events[1..], numeric, None);
        if |o.errors| <= Room(0, n) {
          RunLimited(o.errors, o.state, events[1..], numeric, n);
          assert Run(errors, states, events, numeric, Some(n)) == Run(o.errors, o.state, events[1..], numeric, Some(n));
        } else {
          RunUnlimited(o.errors, o.state, events[1..], numeric);
          var r := Run(o.errors, o.state, events[1..], numeric, None);
          assert Run(errors, states, events, numeric, Some(n)) == Success(Cut(o.errors, n));
          if r.Success? {
            CutPrefix(o.errors, r.value, n);
          }
        }
      }
    }
  }

  /** `max_errors = n`: when the unlimited validation reports `errs`, the
      limited one keeps all of them if there are at most `n`, and
      otherwise the first `n` followed by the sentinel. */
  lemma LimitKeepsFirst(schema: Schema, events: seq<Event>, rules: Option<seq<Rule>>, n: int, numeric: string -> bool)
    ensures var r := Validation(schema, events, rules, NoLimit, numeric);
            r.Success? ==> Validation(schema, events, rules, Limit(n), numeric) == Success(Cut(r.value, n))
  {
    RunLimited([], InitialStates(rules.GetOr(ItemRules), schema), events, numeric, n);
  }

  /** A callback under a limit that the errors so far fit keeps them
      within it, or aborts one past it with the sentinel last. */
  lemma HandleBound(errors: seq<string>, st: RuleState, e: Event, numeric: string -> bool, n: int)
    requires |errors| <= Room(0, n)
    ensures var o := Handle(errors, st, e, numeric, Some(n));
            (o.Continue? ==> |o.errors| <= Room(0, n))
            && (o.Aborted? ==> |o.errors| == Room(0, n) + 1 && o.errors[Room(0, n)] == TooMany)
  {
    match st
    case ValuesState =>
      if e.EnterNumberValue? && NumberCheck(e.value, numeric).Success? {
        DeliverBound(errors, NumberCheck(e.value, numeric).value, n);
      }
    case PresentState(keys, names) =>
      DeliverBound(errors, MissingMessages(Missing(keys, names)), n);
    case TypesState(defs, ts) =>
      DeliverBound(errors, MismatchMessages(Mismatches(defs, ts.attrTypes)), n);
  }

  lemma {:induction false} DispatchBound(errors: seq<string>, states: seq<RuleState>, e: Event, j: nat, numeric: string -> bool, n: int)
    requires j <= |states| && |errors| <= Room(0, n)
    ensures var o := Dispatch(errors, states, e, j, numeric, Some(n));
            (o.Continue? ==> |o.errors| <= Room(0, n))
            && (o.Aborted? ==> |o.errors| == Room(0, n) + 1 && o.errors[Room(0, n)] == TooMany)
    decreases |states| - j
  {
    if j < |states| {
      HandleBound(errors, states[j], e, numeric, n);
      var h := Handle(errors, states[j], e, numeric, Some(n));
      if h.Continue? {
        DispatchBound(h.errors, states[j := h.state], e, j + 1, numeric, n);
      }
    }
  }

  lemma {:induction false} RunBound(errors: seq<string>, states: seq<RuleState>, events: seq<Event>, numeric: string -> bool, n: int)
    requires |errors| <= Room(0, n)
    ensures var r := Run(errors, states, events, numeric, Some(n));
            r.Success? ==> |r.value| <= Room(0, n) + 1 && (|r.value| == Room(0, n) + 1 ==> r.value[Room(0, n)] == TooMany)
    decreases |events|
  {
    if events != [] {
      DispatchBound(errors, states, events[0], 0, numeric, n);
      var o := Dispatch(errors, states, events[0], 0, numeric, Some(n));
      if o.Continue? {
        RunBound(o.errors, o.state, events[1..], numeric, n);
      }
    }
  }

  /** `max_errors = n`: at most `n` errors are kept, and a list one longer
      ends with the sentinel, even when a rule would have raised later. */
  lemma AtMostLimit(schema: Schema, events: seq<Event>, rules: Option<seq<Rule>>, n: int, numeric: string -> bool)
    ensures var r := Validation(schema, events, rules, Limit(n), numeric);
            r.Success? ==> |r.value| <= Room(0, n) + 1 && (|r.value| == Room(0, n) + 1 ==> r.value[Room(0, n)] == TooMany)
  {
    RunBound([], InitialStates(rules.GetOr(ItemRules), schema), events, numeric, n);
  }

  // ------------------------------------------------------------ the rule order

  /** Leaving the item with `item_rules`: the missing keys are reported
      before the type mismatches, and nothing changes state. */
  lemma LeaveItemOrder(errors: seq<string>, keys: seq<string>, names: seq<string>, defs: seq<KeyDefinition>, ts: TypeState, numeric: string -> bool)
    ensures var states := [ValuesState, PresentState(keys, names), TypesState(defs, ts)];
            Dispatch(errors, states, LeaveItem, 0, numeric, None)
            == Continue(errors + MissingMessages(Missing(keys, names)) + MismatchMessages(Mismatches(defs, ts.attrTypes)), states)
  {
    var states := [ValuesState, PresentState(keys, names), TypesState(defs, ts)];
    var missing := MissingMessages(Missing(keys, names));
    var mismatched := MismatchMessages(Mismatches(defs, ts.attrTypes));
    DeliverUnlimited(errors, missing);
    DeliverUnlimited(errors + missing, mismatched);
    assert states[0 := ValuesState] == states;
    assert states[1 := PresentState(keys, names)] == states;
    assert states[2 := TypesState(defs, ts)] == states;
    assert Handle(errors, states[0], LeaveItem, numeric, None) == Continue(errors, states[0]);
    assert Handle(errors, states[1], LeaveItem, numeric, None) == Continue(errors + missing, states[1]);
    assert Handle(errors + missing, states[2], LeaveItem, numeric, None) == Continue(errors + missing + mismatched, states[2]);
    assert Dispatch(errors + missing + mismatched, states, LeaveItem, 3, numeric, None) == Continue(errors + missing + mismatched, states);
    assert Dispatch(errors + missing, states, LeaveItem, 2, numeric, None) == Dispatch(errors + missing + mismatched, states, LeaveItem, 3, numeric, None);
    assert Dispatch(errors, states, LeaveItem, 1, numeric, None) == Dispatch(errors + missing, states, LeaveItem, 2, numeric, None);
    assert Dispatch(errors, states, LeaveItem, 0, numeric, None) == Dispatch(errors, states, LeaveItem, 1, numeric, None);
  }

  // ------------------------------------------------------------ an example

  /** The table of the key validation examples: hash key `artist` and range
      key `song`, both strings. */
  function SongTable(): Schema
  {
    Schema(["artist", "song"], [KeyDefinition("artist", "S"), KeyDefinition("song", "S")])
  }

  /** With `item_rules`, an attribute or attribute name event only updates
      the rule states. */
  lemma ItemRulesRecord(errors: seq<string>, keys: seq<string>, names: seq<string>, defs: seq<KeyDefinition>, ts: TypeState, e: Event, numeric: string -> bool)
    requires e.EnterTypedAttribute? || e.EnterAttributeName?
    ensures var names' := if e.EnterAttributeName? && IsItemAttribute(e.ancestors) then names + [e.name] else names;
            var ts' := if e.EnterTypedAttribute? then TypeState(ts.attrTypes[e.name := e.valueType], ts.stack) else ts;
            Dispatch(errors, [ValuesState, PresentState(keys, names), TypesState(defs, ts)], e, 0, numeric, None)
            == Continue(errors, [ValuesState, PresentState(keys, names'), TypesState(defs, ts')])
  {
    var names' := if e.EnterAttributeName? && IsItemAttribute(e.ancestors) then names + [e.name] else names;
    var ts' := if e.EnterTypedAttribute? then TypeState(ts.attrTypes[e.name := e.valueType], ts.stack) else ts;
    var s0 := [ValuesState, PresentState(keys, names), TypesState(defs, ts)];
    var s1 := s0[1 := PresentState(keys, names')];
    var s2 := s1[2 := TypesState(defs, ts')];
    assert s0[0 := ValuesState] == s0;
    assert names + [] == names;
    assert Handle(errors, s0[1], e, numeric, None) == Continue(errors, PresentState(keys, names'));
    assert Handle(errors, s1[2], e, numeric, None) == Continue(errors, TypesState(defs, ts'));
    assert Dispatch(errors, s0, e, 0, numeric, None) == Dispatch(errors, s0, e, 1, numeric, None);
    assert Dispatch(errors, s0, e, 1, numeric, None) == Dispatch(errors, s1, e, 2, numeric, None);
    assert Dispatch(errors, s1, e, 2, numeric, None) == Dispatch(errors, s2, e, 3, numeric, None);
    assert s2 == [ValuesState, PresentState(keys, names'), TypesState(defs, ts')];
  }

  /** An event that continues the visit hands the rest to the new states. */
  lemma RunCons(errors: seq<string>, states: seq<RuleState>, e: Event, rest: seq<Event>, numeric: string -> bool,
                maxErrors: Option<int>, es: seq<string>, sts: seq<RuleState>)
    requires Dispatch(errors, states, e, 0, numeric, maxErrors) == Continue(es, sts)
    ensures Run(errors, states, [e] + rest, numeric, maxErrors) == Run(es, sts, rest, numeric, maxErrors)
  {
    assert ([e] + rest)[0] == e && ([e] + rest)[1..] == rest;
  }

  lemma SongKeys()
    ensures Missing(SongTable().keyNames, ["song"]) == ["artist"]
    ensures Mismatches(SongTable().definitions, map["song" := "S"]) == []
  {
    var keys := SongTable().keyNames;
    var defs := SongTable().definitions;
    assert keys[1..] == ["song"] && keys[1..][1..] == [];
    assert defs[1..] == [KeyDefinition("song", "S")] && defs[1..][1..] == [];
  }

  /** Three events that each continue the visit end it with the states
      and errors of the last. */
  lemma RunThree(errors: seq<string>, s0: seq<RuleState>, e0: Event, e1: Event, e2: Event, numeric: string -> bool,
                 es1: seq<string>, s1: seq<RuleState>, es2: seq<string>, s2: seq<RuleState>, es3: seq<string>, s3: seq<RuleState>)
    requires Dispatch(errors, s0, e0, 0, numeric, None) == Continue(es1, s1)
    requires Dispatch(es1, s1, e1, 0, numeric, None) == Continue(es2, s2)
    requires Dispatch(es2, s2, e2, 0, numeric, None) == Continue(es3, s3)
    ensures Run(errors, s0, [e0, e1, e2], numeric, None) == Success(es3)
  {
    RunCons(errors, s0, e0, [e1, e2], numeric, None, es1, s1);
    RunCons(es1, s1, e1, [e2], numeric, None, es2, s2);
    RunCons(es2, s2, e2, [], numeric, None, es3, s3);
    assert [e0, e1, e2] == [e0] + [e1, e2];
    assert [e1, e2] == [e1] + [e2];
    assert [e2] == [e2] + [];
  }

  /** The song table's rule states before any event. */
  lemma SongInitial()
    ensures InitialStates(ItemRules, SongTable())
            == [ValuesState, PresentState(SongTable().keyNames, []), TypesState(SongTable().definitions, TypeState(map[], []))]
  {
  }

  /** Leaving the item with only `song` recorded reports the missing
      `artist` and nothing else. */
  lemma SongLeave(numeric: string -> bool)
    ensures var s2 := [ValuesState, PresentState(SongTable().keyNames, ["song"]), TypesState(SongTable().definitions, TypeState(map["song" := "S"], []))];
            Dispatch([], s2, LeaveItem, 0, numeric, None) == Continue([MissingKeyMessage("artist")], s2)
  {
    SongKeys();
    LeaveItemOrder([], SongTable().keyNames, ["song"], SongTable().definitions, TypeState(map["song" := "S"], []), numeric);
    var message := MissingKeyMessage("artist");
    assert MissingMessages(["artist"]) == [message];
    assert MismatchMessages([]) == [];
    assert [] + [message] + [] == [message];
  }

  /** The item `{"song": {"S": ...}}` is missing its hash key: the string
      attribute records its type, its name node is a top-level attribute
      name, and leaving the item reports the one missing key. */
  lemma HashKeyMissing(ancestors: seq<Ancestor>, numeric: string -> bool)
    requires IsItemAttribute(ancestors)
    ensures Validation(SongTable(), [EnterTypedAttribute("song", "S"), EnterAttributeName("song", ancestors), LeaveItem], None, NoLimit, numeric)
            == Success([MissingKeyMessage("artist")])
  {
    var keys := SongTable().keyNames;
    var defs := SongTable().definitions;
    var types := TypeState(map["song" := "S"], []);
    var s0 := [ValuesState, PresentState(keys, []), TypesState(defs, TypeState(map[], []))];
    var s1 := [ValuesState, PresentState(keys, []), TypesState(defs, types)];
    var s2 := [ValuesState, PresentState(keys, ["song"]), TypesState(defs, types)];
    SongInitial();
    ItemRulesRecord([], keys, [], defs, TypeState(map[], []), EnterTypedAttribute("song", "S"), numeric);
    ItemRulesRecord([], keys, [], defs, types, EnterAttributeName("song", ancestors), numeric);
    assert [] + ["song"] == ["song"];
    SongLeave(numeric);
    RunThree([], s0, EnterTypedAttribute("song", "S"), EnterAttributeName("song", ancestors), LeaveItem, numeric,
             [], s1, [], s2, [MissingKeyMessage("artist")], s2);
  }

  // --------------------------------------------------------------- the method

  /** A rule instance, of one of the rule classes. */
  datatype Visitor =
    | ValuesVisitor(values: ValuesOfCorrectTypeRule)
    | PresentVisitor(present: KeysMustBePresent)
    | TypesVisitor(types: KeysMustBeOfCorrectType)

  function ObjectOf(v: Visitor): object
  {
    match v
    case ValuesVisitor(o) => o
    case PresentVisitor(o) => o
    case TypesVisitor(o) => o
  }

  /** The state of an instance, as the pure visit sees it. */
  function StateOf(v: Visitor): RuleState
    reads ObjectOf(v)
  {
    match v
    case ValuesVisitor(_) => ValuesState
    case PresentVisitor(p) => PresentState(p.keyNames, p.attrNames)
    case TypesVisitor(t) => TypesState(t.definitions, t.State())
  }

  function Objects(vs: seq<Visitor>): set<object>
  {
    set v | v in vs :: ObjectOf(v)
  }

  /** The instances are in the given states. */
  predicate Mirrors(vs: seq<Visitor>, states: seq<RuleState>)
    reads Objects(vs)
  {
    |vs| == |states| && forall a :: 0 <= a < |vs| ==> StateOf(vs[a]) == states[a]
  }

  /** Every instance is a separate object. */
  predicate Distinct(vs: seq<Visitor>)
  {
    forall a, b :: 0 <= a < b < |vs| ==> ObjectOf(vs[a]) != ObjectOf(vs[b])
  }

  /** How the visit stands after a callback. */
  datatype Status = Running | Stopped | Raising(error: string)

  /** The callback of `v` for `e`, as `Handle` describes it. */
  method Visit(v: Visitor, e: Event, log: ErrorLog, numeric: string -> bool) returns (status: Status)
    modifies ObjectOf(v), log
    ensures var h := Handle(old(log.errors), old(StateOf(v)), e, numeric, log.maxErrors);
            (h.Continue? <==> status == Running) && (h.Aborted? <==> status == Stopped)
            && (h.Continue? ==> log.errors == h.errors && StateOf(v) == h.state)
            && (h.Aborted? ==> log.errors == h.errors)
            && (h.Raised? ==> status == Raising(h.error))
  {
    status := Running;
    match v {
      case ValuesVisitor(rule) =>
        if e.EnterNumberValue? {
          var r := rule.EnterNumberValue(e.value, numeric, log);
          if r.Failure? {
            status := Raising(r.error);
          } else if r.value {
            status := Stopped;
          }
        }
      case PresentVisitor(rule) =>
        match e {
          case EnterAttributeName(n, ancestors) =>
            rule.EnterAttributeName(n, ancestors);
          case LeaveItem =>
            var aborted := rule.LeaveItem(log);
            if aborted {
              status := Stopped;
            }
          case _ =>
        }
      case TypesVisitor(rule) =>
        match e {
          case EnterTypedAttribute(n, t) =>
            rule.RecordType(n, t);
          case EnterMapAttribute =>
            rule.EnterMapAttribute();
          case LeaveMapAttribute =>
            var r := rule.LeaveMapAttribute();
            if r.Failure? {
              status := Raising(r.error);
            }
          case LeaveItem =>
            var aborted := rule.LeaveItem(log);
            if aborted {
              status := Stopped;
            }
          case _ =>
        }
    }
  }

  /** A fresh instance of a rule class. */
  method NewVisitor(r: Rule, schema: Schema) returns (v: Visitor)
    ensures fresh(ObjectOf(v))
    ensures StateOf(v) == Initial(r, schema)
  {
    match r {
      case ValuesOfCorrectType =>
        var rule := new ValuesOfCorrectTypeRule();
        v := ValuesVisitor(rule);
      case KeysPresent =>
        var rule := new KeysMustBePresent(schema.keyNames);
        v := PresentVisitor(rule);
      case KeysOfCorrectType =>
        var rule := new KeysMustBeOfCorrectType(schema.definitions);
        v := TypesVisitor(rule);
    }
  }

  /** `[rule(context) for rule in rules]` */
  method NewVisitors(rules: seq<Rule>, schema: Schema) returns (visitors: seq<Visitor>)
    ensures |visitors| == |rules|
    ensures Distinct(visitors)
    ensures forall v :: v in visitors ==> fresh(ObjectOf(v))
    ensures forall j :: 0 <= j < |rules| ==> StateOf(visitors[j]) == Initial(rules[j], schema)
  {
    visitors := [];
    var i := 0;
    while i < |rules|
      invariant 0 <= i <= |rules| && |visitors| == i
      invariant Distinct(visitors)
      invariant forall v :: v in visitors ==> fresh(ObjectOf(v))
      invariant forall j :: 0 <= j < i ==> StateOf(visitors[j]) == Initial(rules[j], schema)
    {
      var v := NewVisitor(rules[i], schema);
      visitors := visitors + [v];
      i := i + 1;
    }
  }

  /** `validate`: a non-int limit raises `TypeError`; otherwise the errors
      of the visit, as `Validation` gives them. */
  method Validate(schema: Schema, events: seq<Event>, rules: Option<seq<Rule>>, maxErrors: MaxErrors, numeric: string -> bool)
    returns (r: Result<seq<string>, string>)
    ensures maxErrors.NotAnInt? ==> r == Failure("TypeError")
    ensures r == Validation(schema, events, rules, maxErrors, numeric)
  {
    var ruleList := if rules.None? then ItemRules else rules.value;
    if maxErrors.NotAnInt? {
      return Failure("TypeError");
    }
    var log := new ErrorLog(LimitOf(maxErrors));
    var visitors := NewVisitors(ruleList, schema);
    assert ruleList == rules.GetOr(ItemRules);
    ghost var states := InitialStates(ruleList, schema);
    assert Mirrors(visitors, states);
    ghost var spec := Run([], states, events, numeric, log.maxErrors);
    var k := 0;
    var status := Running;
    while k < |events| && status == Running
      invariant 0 <= k <= |events|
      invariant fresh(log) && log.maxErrors == LimitOf(maxErrors)
      invariant forall v :: v in visitors ==> fresh(ObjectOf(v)) && ObjectOf(v) != log
      invariant status == Running ==> Mirrors(visitors, states) && Run(log.errors, states, events[k..], numeric, log.maxErrors) == spec
      invariant status == Stopped ==> spec == Success(log.errors)
      invariant status.Raising? ==> spec == Failure(status.error)
    {
      status, states := EventStep(visitors, states, events, k, log, numeric);
      k := k + 1;
    }
    if status == Running {
      assert events[k..] == [];
    }
    if status.Raising? {
      r := Failure(status.error);
    } else {
      r := Success(log.errors);
    }
  }

  /** Visiting event `k`: the rest of the run is the run from the new
      states, unless the event stopped it. */
  method EventStep(visitors: seq<Visitor>, ghost states: seq<RuleState>, events: seq<Event>, k: nat, log: ErrorLog, numeric: string -> bool)
    returns (status: Status, ghost after: seq<RuleState>)
    requires k < |events| && Distinct(visitors) && Mirrors(visitors, states)
    requires forall v :: v in visitors ==> ObjectOf(v) != log
    modifies Objects(visitors), log
    ensures var spec := Run(old(log.errors), states, events[k..], numeric, log.maxErrors);
            (status == Running ==> Mirrors(visitors, after) && Run(log.errors, after, events[k + 1..], numeric, log.maxErrors) == spec)
            && (status == Stopped ==> spec == Success(log.errors))
            && (status.Raising? ==> spec == Failure(status.error))
  {
    ghost var errs := log.errors;
    assert events[k..][0] == events[k] && events[k..][1..] == events[k + 1..];
    assert Run(errs, states, events[k..], numeric, log.maxErrors)
           == match Dispatch(errs, states, events[k], 0, numeric, log.maxErrors)
              case Continue(es, sts) => Run(es, sts, events[k + 1..], numeric, log.maxErrors)
              case Aborted(es) => Success(es)
              case Raised(err) => Failure(err);
    status, after := DispatchEvent(visitors, states, events[k], log, numeric);
  }

  /** `ParallelVisitor` for one event: the instances' callbacks in order,
      as `Dispatch` describes them. */
  method DispatchEvent(visitors: seq<Visitor>, ghost states: seq<RuleState>, e: Event, log: ErrorLog, numeric: string -> bool)
    returns (status: Status, ghost after: seq<RuleState>)
    requires Distinct(visitors) && Mirrors(visitors, states)
    requires forall v :: v in visitors ==> ObjectOf(v) != log
    modifies Objects(visitors), log
    ensures var o := Dispatch(old(log.errors), states, e, 0, numeric, log.maxErrors);
            (o.Continue? <==> status == Running) && (o.Aborted? <==> status == Stopped)
            && (o.Continue? ==> log.errors == o.errors && after == o.state && Mirrors(visitors, after))
            && (o.Aborted? ==> log.errors == o.errors)
            && (o.Raised? ==> status == Raising(o.error))
  {
    ghost var total := Dispatch(log.errors, states, e, 0, numeric, log.maxErrors);
    after := states;
    var j := 0;
    status := Running;
    while j < |visitors| && status == Running
      invariant 0 <= j <= |visitors| && |after| == |visitors|
      invariant status == Running ==> Mirrors(visitors, after) && Dispatch(log.errors, after, e, j, numeric, log.maxErrors) == total
      invariant status == Stopped ==> total == Aborted(log.errors)
      invariant status.Raising? ==> total == Raised(status.error)
    {
      ghost var errs := log.errors;
      ghost var h := Handle(errs, after[j], e, numeric, log.maxErrors);
      assert Dispatch(errs, after, e, j, numeric, log.maxErrors)
             == match h
                case Continue(es, st) => Dispatch(es, after[j := st], e, j + 1, numeric, log.maxErrors)
                case Aborted(es) => Aborted(es)
                case Raised(err) => Raised(err);
      assert visitors[j] in visitors;
      status, after := VisitAt(visitors, after, j, e, log, numeric);
      j := j + 1;
    }
  }

  /** The callback of the `j`-th instance; the others keep their states. */
  method VisitAt(visitors: seq<Visitor>, ghost states: seq<RuleState>, j: nat, e: Event, log: ErrorLog, numeric: string -> bool)
    returns (status: Status, ghost after: seq<RuleState>)
    requires j < |visitors| && Distinct(visitors) && Mirrors(visitors, states)
    requires forall v :: v in visitors ==> ObjectOf(v) != log
    modifies ObjectOf(visitors[j]), log
    ensures |after| == |states|
    ensures var h := Handle(old(log.errors), states[j], e, numeric, log.maxErrors);
            (h.Continue? <==> status == Running) && (h.Aborted? <==> status == Stopped)
            && (h.Continue? ==> log.errors == h.errors && after == states[j := h.state] && Mirrors(visitors, after))
            && (h.Aborted? ==> log.errors == h.errors)
            && (h.Raised? ==> status == Raising(h.error))
  {
    var v := visitors[j];
    assert v in visitors;
    status := Visit(v, e, log, numeric);
    after := states;
    if status == Running {
      ghost var h := Handle(old(log.errors), states[j], e, numeric, log.maxErrors);
      after := states[j := h.state];
      forall a | 0 <= a < |visitors| && a != j
        ensures StateOf(visitors[a]) == after[a]
      {
        assert ObjectOf(visitors[a]) != ObjectOf(v);
        assert StateOf(visitors[a]) == old(StateOf(visitors[a]));
      }
    }
  }
}
