/** DynamoDB input-parameter validation (moto/dynamodb2/validate.py): the
    walk over the user parameters that records one report per violation,
    the error list that aborts the walk at its limit, the names reports
    are given, and the text of the final report.

    The walk of structures follows the inherited botocore structure check
    that the file keeps as a comment (moto/dynamodb2/validate.py:216-235);
    the minimum checks of botocore's `_validate_string` and
    `_validate_list`, the element walk of lists and the dispatch on the
    operation model are not part of this model. */
module DdbValidate {
  import opened Wrappers
  import opened Strs

  /** A user parameter: a string, a list, or a dict with its entries in
      insertion order. */
  datatype Param = PStr(s: string) | PList(items: seq<Param>) | PDict(entries: seq<(string, Param)>)

  /** The input shapes the walk knows: a string with its `max` metadata
      and its enum, a list with its `max`, a map, and a structure with its
      required members and its members in declaration order. */
  datatype Shape =
    | StringShape(max: Option<int>, enum: seq<string>)
    | ListShape(listMax: Option<int>)
    | MapShape(key: Shape, value: Shape)
    | StructureShape(required: seq<string>, members: seq<(string, Shape)>)

  /** A keyword argument of a report: a user parameter, a text, a list of
      names, or a number. */
  datatype Arg = AParam(p: Param) | AText(s: string) | ANames(names: seq<string>) | AInt(i: int)

  /** The reasons of reports, each standing for its text in the source
      (`InvalidMax` for `"invalid max"`, …); `OtherReason` carries any
      other text. */
  datatype Reason =
    | MissingRequiredField | UnknownField | InvalidTypeReason | InvalidRange | InvalidLength
    | UnableToEncode | InvalidEnum | InvalidMax | OtherReason(text: string)

  /** The keyword names of reports (`ParamKw` for `param`, `ValidMax` for
      `valid_max`, …). */
  datatype Keyword =
    | ParamKw | ValidMax | ValidValues | ValidTypes | ValidNames | UnknownParam | RequiredName
    | UserParams | ValidRange | TypeErrorKw

  /** An entry of `_errors`: `(reason, name, kwargs)`. */
  datatype Record = Record(reason: Reason, name: string, kwargs: map<Keyword, Arg>)

  const StrTypes: seq<string> := ["<class 'str'>"]
  const ListTypes: seq<string> := ["<class 'list'>", "<class 'tuple'>"]
  const DictTypes: seq<string> := ["<class 'dict'>"]

  /** `str(type(param))` */
  function TypeName(p: Param): string
  {
    match p
    case PStr(_) => "<class 'str'>"
    case PList(_) => "<class 'list'>"
    case PDict(_) => "<class 'dict'>"
  }

  /** The report of the `type_check` decorator for a parameter of the
      wrong Python type. */
  function InvalidType(p: Param, name: string, validTypes: seq<string>): Record
  {
    Record(InvalidTypeReason, name, map[ParamKw := AParam(p), ValidTypes := ANames(validTypes)])
  }

  /** `range_check_max`: one report when the shape has a `max` and the
      length exceeds it, none otherwise (no `max` means no bound). */
  function RangeCheckMax(name: string, p: Param, length: nat, max: Option<int>, reason: Reason): (r: seq<Record>)
    ensures |r| <= 1
    ensures |r| == 1 <==> max.Some? && length > max.value
    ensures |r| == 1 ==> r[0] == Record(reason, name, map[ParamKw := AParam(p), ValidMax := AInt(max.value)])
  {
    if max.Some? && length > max.value then [Record(reason, name, map[ParamKw := AParam(p), ValidMax := AInt(max.value)])]
    else []
  }

  /** `enum_check`: one report when the enum is non-empty and the value is
      not one of it. */
  function EnumCheck(name: string, value: string, enum: seq<string>, reason: Reason): (r: seq<Record>)
    ensures |r| <= 1
    ensures |r| == 1 <==> enum != [] && value !in enum
    ensures |r| == 1 ==> r[0] == Record(reason, name, map[ParamKw := AParam(PStr(value)), ValidValues := ANames(enum)])
  {
    if enum != [] && value !in enum then [Record(reason, name, map[ParamKw := AParam(PStr(value)), ValidValues := ANames(enum)])]
    else []
  }

  function Keys(es: seq<(string, Param)>): seq<string>
  {
    if |es| == 0 then [] else Keys(es[..|es| - 1]) + [es[|es| - 1].0]
  }

  lemma {:induction false} KeysIndex(es: seq<(string, Param)>)
    ensures |Keys(es)| == |es|
    ensures forall i :: 0 <= i < |es| ==> Keys(es)[i] == es[i].0
  {
    if |es| > 0 {
      KeysIndex(es[..|es| - 1]);
    }
  }

  function MemberNames(ms: seq<(string, Shape)>): seq<string>
  {
    if |ms| == 0 then [] else MemberNames(ms[..|ms| - 1]) + [ms[|ms| - 1].0]
  }

  /** The shape of member `k`, the first declaration of that name. */
  function MemberShape(ms: seq<(string, Shape)>, k: string): (r: Option<Shape>)
    ensures r.Some? ==> r.value in (set m | m in ms :: m.1)
  {
    if |ms| == 0 then None
    else if ms[0].0 == k then Some(ms[0].1)
    else MemberShape(ms[1..], k)
  }

  lemma {:induction false} MemberShapeFound(ms: seq<(string, Shape)>, k: string)
    ensures MemberShape(ms, k).Some? <==> k in MemberNames(ms)
  {
    if |ms| > 0 {
      MemberShapeFound(ms[1..], k);
      MemberNamesFront(ms);
    }
  }

  lemma {:induction false} MemberNamesFront(ms: seq<(string, Shape)>)
    requires |ms| > 0
    ensures MemberNames(ms) == [ms[0].0] + MemberNames(ms[1..])
  {
    if |ms| > 1 {
      MemberNamesFront(ms[..|ms| - 1]);
      assert ms[..|ms| - 1][1..] == ms[1..][..|ms[1..]| - 1];
    } else {
      assert ms[..|ms| - 1] == [];
    }
  }

  /** The reports of the required-member check, one per required member
      missing from the parameters, in the order of `required`. */
  function MissingMembers(required: seq<string>, p: Param, name: string): (r: seq<Record>)
    requires p.PDict?
    ensures |r| <= |required|
    ensures forall e :: e in r ==> e.reason == MissingRequiredField
  {
    if |required| == 0 then []
    else
      MissingMembers(required[..|required| - 1], p, name)
      + (if required[|required| - 1] in Keys(p.entries) then []
         else [Record(MissingRequiredField, name,
                      map[RequiredName := AText(required[|required| - 1]), UserParams := AParam(p)])])
  }

  /** The reports of the unknown-member check, one per parameter that the
      structure does not declare, in parameter order. */
  function UnknownMembers(es: seq<(string, Param)>, ms: seq<(string, Shape)>, name: string): (r: seq<Record>)
    ensures |r| <= |es|
    ensures forall e :: e in r ==> e.reason == UnknownField
  {
    if |es| == 0 then []
    else
      UnknownMembers(es[..|es| - 1], ms, name)
      + (if MemberShape(ms, es[|es| - 1].0).Some? then []
         else [Record(UnknownField, name,
                      map[UnknownParam := AText(es[|es| - 1].0), ValidNames := ANames(MemberNames(ms))])])
  }

  /** `_validate`, dispatched on the shape. `lengthReason` is the reason
      `_validate_string` gives a string over its maximum length. */
  function Walk(p: Param, shape: Shape, name: string, lengthReason: Reason): (r: seq<Record>)
    decreases shape, 1
  {
    match shape
    case StringShape(max, enum) =>
      if !p.PStr? then [InvalidType(p, name, StrTypes)]
      else RangeCheckMax(name, p, |p.s|, max, lengthReason) + EnumCheck(name, p.s, enum, InvalidEnum)
    case ListShape(max) =>
      if !p.PList? then [InvalidType(p, name, ListTypes)]
      else RangeCheckMax(name, p, |p.items|, max, InvalidMax)
    case MapShape(_, _) =>
      if !p.PDict? then [InvalidType(p, name, DictTypes)]
      else WalkEntries(p.entries, shape, name, lengthReason)
    case StructureShape(required, ms) =>
      if !p.PDict? then [InvalidType(p, name, DictTypes)]
      else MissingMembers(required, p, name) + UnknownMembers(p.entries, ms, name)
           + WalkKnown(p.entries, shape, name, lengthReason)
  }

  /** `"%s (key: %s)" % (name, key)` */
  function KeyPath(name: string, key: string): string
  {
    name + " (key: " + key + ")"
  }

  /** `"%s.%s.member" % (name, key)` */
  function ValuePath(name: string, key: string): string
  {
    name + "." + key + ".member"
  }

  /** `"%s.%s" % (name, param)` */
  function MemberPath(name: string, param: string): string
  {
    name + "." + param
  }

  /** `_validate_map`: each key at `"name (key: k)"`, then its value at
      `"name.k.member"`, entry by entry. */
  function WalkEntries(es: seq<(string, Param)>, shape: Shape, name: string, lengthReason: Reason): seq<Record>
    requires shape.MapShape?
    decreases shape, 0, |es|
  {
    if |es| == 0 then []
    else
      WalkEntries(es[..|es| - 1], shape, name, lengthReason)
      + Walk(PStr(es[|es| - 1].0), shape.key, KeyPath(name, es[|es| - 1].0), lengthReason)
      + Walk(es[|es| - 1].1, shape.value, ValuePath(name, es[|es| - 1].0), lengthReason)
  }

  /** The member walk of a structure: each declared parameter at
      `"name.param"`, in parameter order. */
  function WalkKnown(es: seq<(string, Param)>, shape: Shape, name: string, lengthReason: Reason): seq<Record>
    requires shape.StructureShape?
    decreases shape, 0, |es|
  {
    if |es| == 0 then []
    else
      var k := es[|es| - 1].0;
      var rest := WalkKnown(es[..|es| - 1], shape, name, lengthReason);
      match MemberShape(shape.members, k)
      case None => rest
      case Some(m) => rest + Walk(es[|es| - 1].1, m, MemberPath(name, k), lengthReason)
  }

  /** A map with one entry is checked at exactly the two paths of that
      entry: the key first, then the value. */
  lemma MapEntryPaths(k: string, v: Param, ks: Shape, vs: Shape, name: string, lengthReason: Reason)
    ensures Walk(PDict([(k, v)]), MapShape(ks, vs), name, lengthReason)
            == Walk(PStr(k), ks, KeyPath(name, k), lengthReason)
               + Walk(v, vs, ValuePath(name, k), lengthReason)
  {
    var shape := MapShape(ks, vs);
    assert Walk(PDict([(k, v)]), shape, name, lengthReason) == WalkEntries([(k, v)], shape, name, lengthReason);
    WalkEntriesSnoc([], (k, v), shape, name, lengthReason);
    assert [] + [(k, v)] == [(k, v)];
  }

  /** Entries are checked in insertion order: the reports of the entries
      added later follow those of the earlier ones. */
  lemma {:induction false} WalkEntriesAppend(es: seq<(string, Param)>, more: seq<(string, Param)>, shape: Shape, name: string, lengthReason: Reason)
    requires shape.MapShape?
    ensures WalkEntries(es + more, shape, name, lengthReason)
            == WalkEntries(es, shape, name, lengthReason) + WalkEntries(more, shape, name, lengthReason)
    decreases |more|
  {
    if |more| == 0 {
      assert es + more == es;
    } else {
      var front := more[..|more| - 1];
      var e := more[|more| - 1];
      WalkEntriesAppend(es, front, shape, name, lengthReason);
      assert es + more == (es + front) + [e];
      assert more == front + [e];
      WalkEntriesSnoc(es + front, e, shape, name, lengthReason);
      WalkEntriesSnoc(front, e, shape, name, lengthReason);
      SeqAssoc4(WalkEntries(es, shape, name, lengthReason), WalkEntries(front, shape, name, lengthReason),
                Walk(PStr(e.0), shape.key, KeyPath(name, e.0), lengthReason),
                Walk(e.1, shape.value, ValuePath(name, e.0), lengthReason));
    }
  }

  /** One entry more: its key's reports, then its value's, after the rest. */
  lemma WalkEntriesSnoc(es: seq<(string, Param)>, e: (string, Param), shape: Shape, name: string, lengthReason: Reason)
    requires shape.MapShape?
    ensures WalkEntries(es + [e], shape, name, lengthReason)
            == WalkEntries(es, shape, name, lengthReason)
               + Walk(PStr(e.0), shape.key, KeyPath(name, e.0), lengthReason)
               + Walk(e.1, shape.value, ValuePath(name, e.0), lengthReason)
  {
    assert (es + [e])[..|es + [e]| - 1] == es;
  }

  lemma SeqAssoc4(a: seq<Record>, b: seq<Record>, c: seq<Record>, d: seq<Record>)
    ensures (a + b) + c + d == a + (b + c + d)
  {
  }

  /** A string that meets its maximum and its enum draws no report; one
      over its maximum draws exactly one, with the length reason. */
  lemma StringChecks(s: string, max: Option<int>, enum: seq<string>, name: string, lengthReason: Reason)
    ensures (max.None? || |s| <= max.value) && (enum == [] || s in enum)
            ==> Walk(PStr(s), StringShape(max, enum), name, lengthReason) == []
    ensures max.Some? && |s| > max.value && (enum == [] || s in enum)
            ==> Walk(PStr(s), StringShape(max, enum), name, lengthReason)
                == [Record(lengthReason, name, map[ParamKw := AParam(PStr(s)), ValidMax := AInt(max.value)])]
  {
  }

  // ---------------------------------------------------------------------
  // Naming and formatting

  /** `_get_name`: an empty name is `input`, one leading dot is dropped,
      and every dot-separated segment is camel-cased. `camel` is
      `pascal_to_camelcase`. */
  function GetName(name: string, camel: string -> string): string
  {
    var n := if name == "" then "input" else if StartsWith(name, ".") then name[1..] else name;
    Join(CamelAll(Split(n, '.'), camel), ".")
  }

  function CamelAll(parts: seq<string>, camel: string -> string): (r: seq<string>)
    ensures |r| == |parts|
    ensures forall i :: 0 <= i < |parts| ==> r[i] == camel(parts[i])
  {
    if |parts| == 0 then [] else [camel(parts[0])] + CamelAll(parts[1..], camel)
  }

  /** An empty name is reported as the input itself. */
  lemma GetNameEmpty(camel: string -> string)
    ensures GetName("", camel) == camel("input")
  {
    SplitAbsent("input", '.');
  }

  /** A name without dots is one camel-cased segment, with or without the
      leading dot of a top-level member path. */
  lemma GetNameSegment(n: string, camel: string -> string)
    requires n != "" && '.' !in n
    ensures GetName(n, camel) == camel(n)
    ensures GetName(MemberPath("", n), camel) == camel(n)
  {
    SplitAbsent(n, '.');
    assert MemberPath("", n)[1..] == n;
  }

  /** When camel-casing never produces a dot, a name's segments are the
      camel-cased segments of the name with its leading dot removed. */
  lemma GetNameSegments(name: string, camel: string -> string)
    requires forall s: string :: '.' !in camel(s)
    ensures Split(GetName(name, camel), '.')
            == CamelAll(Split(if name == "" then "input" else if StartsWith(name, ".") then name[1..] else name, '.'), camel)
  {
    var n := if name == "" then "input" else if StartsWith(name, ".") then name[1..] else name;
    var parts := CamelAll(Split(n, '.'), camel);
    SplitJoin(parts, '.');
  }

  /** The `%s` text of an argument. `show` is `str()` of a list or dict
      parameter. */
  function Text(a: Arg, show: Param -> string): string
  {
    match a
    case AParam(p) => if p.PStr? then p.s else show(p)
    case AText(s) => s
    case AInt(i) => IntToString(i)
    case ANames(ns) => "[" + Join(Quoted(ns), ", ") + "]"
  }

  function Quoted(ns: seq<string>): (r: seq<string>)
    ensures |r| == |ns|
  {
    if |ns| == 0 then [] else ["'" + ns[0] + "'"] + Quoted(ns[1..])
  }

  function Chars(s: string): (r: seq<string>)
    ensures |r| == |s|
    ensures forall i :: 0 <= i < |s| ==> r[i] == [s[i]]
  {
    if |s| == 0 then [] else [[s[0]]] + Chars(s[1..])
  }

  /** The strings of a list parameter, `None` when one of them is not a
      string. */
  function StrItems(items: seq<Param>): Option<seq<string>>
  {
    if |items| == 0 then Some([])
    else if !items[0].PStr? then None
    else
      match StrItems(items[1..])
      case None => None
      case Some(rest) => Some([items[0].s] + rest)
  }

  /** `", ".join(arg)`: a list of strings, the characters of a string or
      the keys of a dict; `TypeError` for anything else. */
  function JoinArg(a: Arg): Result<string, string>
  {
    match a
    case ANames(ns) => Success(Join(ns, ", "))
    case AText(s) => Success(Join(Chars(s), ", "))
    case AInt(_) => Failure("TypeError")
    case AParam(p) =>
      match p
      case PStr(s) => Success(Join(Chars(s), ", "))
      case PDict(es) => Success(Join(Keys(es), ", "))
      case PList(items) =>
        match StrItems(items)
        case None => Failure("TypeError")
        case Some(ss) => Success(Join(ss, ", "))
  }

  /** `arg[i]` as `%s` text, for the bounds of a range. */
  function IndexArg(a: Arg, i: nat, show: Param -> string): Result<string, string>
  {
    match a
    case ANames(ns) => if i < |ns| then Success(ns[i]) else Failure("IndexError")
    case AText(s) => if i < |s| then Success([s[i]]) else Failure("IndexError")
    case AInt(_) => Failure("TypeError")
    case AParam(p) =>
      match p
      case PStr(s) => if i < |s| then Success([s[i]]) else Failure("IndexError")
      case PDict(_) => Failure("KeyError")
      case PList(items) => if i < |items| then Success(Text(AParam(items[i]), show)) else Failure("IndexError")
  }

  function Kw(kw: map<Keyword, Arg>, key: Keyword): Result<Arg, string>
  {
    if key in kw then Success(kw[key]) else Failure("KeyError")
  }

  /** `_format_error`: the message of one report, by its reason. A keyword
      the reason needs and the report lacks raises `KeyError`. `other` is
      the inherited formatter for the remaining reasons. */
  function FormatError(e: Record, camel: string -> string, show: Param -> string, other: Record -> string): Result<string, string>
  {
    var name := GetName(e.name, camel);
    var kw := e.kwargs;
    match e.reason
    case MissingRequiredField =>
      var req :- Kw(kw, RequiredName);
      Success("Missing required parameter in " + name + ": \"" + Text(req, show) + "\"")
    case UnknownField =>
      var unknown :- Kw(kw, UnknownParam);
      var valid :- Kw(kw, ValidNames);
      var names :- JoinArg(valid);
      Success("Unknown parameter in " + name + ": \"" + Text(unknown, show) + "\", must be one of: " + names)
    case InvalidTypeReason =>
      var param :- Kw(kw, ParamKw);
      var valid :- Kw(kw, ValidTypes);
      var types :- JoinArg(valid);
      Success("Invalid type for parameter " + name + ", value: " + Text(param, show) + ", type: "
              + ArgTypeName(param) + ", valid types: " + types)
    case InvalidRange => RangeMessage("Invalid range", name, kw, show)
    case InvalidLength => RangeMessage("Invalid length", name, kw, show)
    case UnableToEncode =>
      var err :- Kw(kw, TypeErrorKw);
      Success("Invalid parameter " + name + " must be json serializable: " + Text(err, show))
    case InvalidEnum =>
      var param :- Kw(kw, ParamKw);
      var valid :- Kw(kw, ValidValues);
      var values :- JoinArg(valid);
      Success("Value '" + Text(param, show) + "' at '" + name + "' failed to satisfy constraint: Member must satisfy enum value set: [" + values + "]")
    case InvalidMax =>
      var param :- Kw(kw, ParamKw);
      var max :- Kw(kw, ValidMax);
      Success(MaxLengthMessage(Text(param, show), name, Text(max, show)))
    case OtherReason(_) => Success(other(e))
  }

  /** `str(type(arg))` */
  function ArgTypeName(a: Arg): string
  {
    match a
    case AParam(p) => TypeName(p)
    case AInt(_) => "<class 'int'>"
    case AText(_) => "<class 'str'>"
    case ANames(_) => "<class 'list'>"
  }

  /** The message of `invalid range` and `invalid length`: both bounds are
      read from `valid_range`. */
  function RangeMessage(what: string, name: string, kw: map<Keyword, Arg>, show: Param -> string): Result<string, string>
  {
    var range :- Kw(kw, ValidRange);
    var lo :- IndexArg(range, 0, show);
    var hi :- IndexArg(range, 1, show);
    var param :- Kw(kw, ParamKw);
    Success(what + " for parameter " + name + ", value: " + Text(param, show) + ", valid range: " + lo + "-" + hi)
  }

  /** The message of `invalid max`. */
  function MaxLengthMessage(param: string, name: string, max: string): string
  {
    "Value '" + param + "' at '" + name + "' failed to satisfy constraint: Member must have length less than or equal to " + max
  }

  /** A report the formatter can render: a reason with its own message and
      the keywords that message needs, of a kind it can join. */
  predicate Formattable(e: Record)
  {
    var kw := e.kwargs;
    (e.reason == MissingRequiredField && RequiredName in kw)
    || (e.reason == UnknownField && UnknownParam in kw && ValidNames in kw && kw[ValidNames].ANames?)
    || (e.reason == InvalidTypeReason && ParamKw in kw && ValidTypes in kw && kw[ValidTypes].ANames?)
    || (e.reason == InvalidEnum && ParamKw in kw && ValidValues in kw && kw[ValidValues].ANames?)
    || (e.reason == InvalidMax && ParamKw in kw && ValidMax in kw)
  }

  lemma FormattableFormats(e: Record, camel: string -> string, show: Param -> string, other: Record -> string)
    requires Formattable(e)
    ensures FormatError(e, camel, show, other).Success?
  {
  }

  /** A report over the maximum length names the limit in its message. */
  lemma MaxMessage(name: string, s: string, max: int, camel: string -> string, show: Param -> string, other: Record -> string)
    ensures FormatError(Record(InvalidMax, name, map[ParamKw := AParam(PStr(s)), ValidMax := AInt(max)]), camel, show, other)
            == Success(MaxLengthMessage(s, GetName(name, camel), IntToString(max)))
  {
  }

  /** The corrected walk only ever records reports the formatter can
      render. */
  lemma {:induction false} WalkFormattable(p: Param, shape: Shape, name: string)
    ensures forall e :: e in Walk(p, shape, name, InvalidMax) ==> Formattable(e)
    decreases shape, 1
  {
    match shape
    case StringShape(max, enum) =>
    case ListShape(max) =>
    case MapShape(_, _) =>
      if p.PDict? {
        EntriesFormattable(p.entries, shape, name);
      }
    case StructureShape(required, ms) =>
      if p.PDict? {
        KnownFormattable(p.entries, shape, name);
        UnknownFormattable(p.entries, ms, name);
        MissingFormattable(required, p, name);
      }
  }

  lemma {:induction false} EntriesFormattable(es: seq<(string, Param)>, shape: Shape, name: string)
    requires shape.MapShape?
    ensures forall e :: e in WalkEntries(es, shape, name, InvalidMax) ==> Formattable(e)
    decreases shape, 0, |es|
  {
    if |es| > 0 {
      EntriesFormattable(es[..|es| - 1], shape, name);
      WalkFormattable(PStr(es[|es| - 1].0), shape.key, KeyPath(name, es[|es| - 1].0));
      WalkFormattable(es[|es| - 1].1, shape.value, ValuePath(name, es[|es| - 1].0));
    }
  }

  lemma {:induction false} KnownFormattable(es: seq<(string, Param)>, shape: Shape, name: string)
    requires shape.StructureShape?
    ensures forall e :: e in WalkKnown(es, shape, name, InvalidMax) ==> Formattable(e)
    decreases shape, 0, |es|
  {
    if |es| > 0 {
      KnownFormattable(es[..|es| - 1], shape, name);
      var k := es[|es| - 1].0;
      match MemberShape(shape.members, k)
      case None =>
      case Some(m) =>
        WalkFormattable(es[|es| - 1].1, m, MemberPath(name, k));
    }
  }

  lemma {:induction false} UnknownFormattable(es: seq<(string, Param)>, ms: seq<(string, Shape)>, name: string)
    ensures forall e :: e in UnknownMembers(es, ms, name) ==> Formattable(e)
  {
    if |es| > 0 {
      UnknownFormattable(es[..|es| - 1], ms, name);
    }
  }

  lemma {:induction false} MissingFormattable(required: seq<string>, p: Param, name: string)
    requires p.PDict?
    ensures forall e :: e in MissingMembers(required, p, name) ==> Formattable(e)
  {
    if |required| > 0 {
      MissingFormattable(required[..|required| - 1], p, name);
    }
  }

  /** The messages of the reports in order, or the first formatting
      failure. */
  function FormatAll(es: seq<Record>, camel: string -> string, show: Param -> string, other: Record -> string): (r: Result<seq<string>, string>)
    ensures r.Success? ==> |r.value| == |es|
    ensures r.Success? ==> forall i :: 0 <= i < |es| ==> FormatError(es[i], camel, show, other) == Success(r.value[i])
    ensures r.Failure? <==> exists i :: 0 <= i < |es| && FormatError(es[i], camel, show, other).Failure?
  {
    if |es| == 0 then Success([])
    else
      var m :- FormatError(es[0], camel, show, other);
      var rest :- FormatAll(es[1..], camel, show, other);
      assert forall i :: 1 <= i < |es| ==> es[i] == es[1..][i - 1];
      Success([m] + rest)
  }

  lemma FormatOne(e: Record, camel: string -> string, show: Param -> string, other: Record -> string)
    requires FormatError(e, camel, show, other).Success?
    ensures FormatAll([e], camel, show, other) == Success([FormatError(e, camel, show, other).value])
  {
    assert [e][1..] == [];
    assert FormatAll([], camel, show, other) == Success([]);
    assert [FormatError(e, camel, show, other).value] + [] == [FormatError(e, camel, show, other).value];
  }

  /** The header of a report: the count and `validation error(s)
      detected`. */
  function Header(n: nat): string
  {
    NatToString(n) + " validation " + (if n == 1 then "error" else "errors") + " detected: "
  }

  /** The header uses the singular for exactly one error. */
  lemma HeaderNumber(n: nat)
    ensures n == 1 ==> Header(n) == "1 validation error detected: "
    ensures n != 1 ==> Header(n) == NatToString(n) + " validation errors detected: "
  {
    assert NatToString(1) == "1";
  }

  /** `generate_report`: the header followed by the messages, one per line
      (the inherited report joins them with newlines). */
  function GenerateReport(es: seq<Record>, camel: string -> string, show: Param -> string, other: Record -> string): (r: Result<string, string>)
    ensures r.Success? <==> FormatAll(es, camel, show, other).Success?
    ensures r.Success? ==> r.value == Header(|es|) + Join(FormatAll(es, camel, show, other).value, "\n")
  {
    var msgs :- FormatAll(es, camel, show, other);
    Success(Header(|es|) + Join(msgs, "\n"))
  }

  // ---------------------------------------------------------------------
  // The error list and its limit

  /** How many of `n` further reports are recorded when `have` are
      recorded already: each report is appended, and the walk is aborted
      once the count reaches `max`. */
  function Taken(have: nat, n: nat, max: int): (r: nat)
    ensures r <= n
    decreases n
  {
    if n == 0 then 0
    else if have + 1 >= max then 1
    else 1 + Taken(have + 1, n - 1, max)
  }

  /** Whether recording `n` further reports ends in the abort. */
  predicate Aborts(have: nat, n: nat, max: int)
    decreases n
  {
    n > 0 && (have + 1 >= max || Aborts(have + 1, n - 1, max))
  }

  /** From an empty list, the first `max` reports are kept (at least one,
      since a report is appended before the limit is checked), and the
      walk is aborted iff there were that many. */
  lemma {:induction false} TakenFromEmpty(have: nat, n: nat, max: int)
    requires n > 0
    ensures Taken(have, n, max) == if have + n <= max then n else if have + 1 >= max then 1 else max - have
    ensures Aborts(have, n, max) <==> have + n >= max
    decreases n
  {
    if have + 1 < max && n > 1 {
      TakenFromEmpty(have + 1, n - 1, max);
    }
  }

  /** At most `max` reports are kept when `max` is at least one. */
  lemma AtMostMax(n: nat, max: int)
    requires max >= 1
    ensures Taken(0, n, max) <= max
    ensures Taken(0, n, max) == if n < max then n else max
  {
    if n > 0 {
      TakenFromEmpty(0, n, max);
    }
  }

  /** `DDBValidationErrors`: the reports recorded so far and the limit. */
  class ValidationErrors {
    const maxErrors: int
    var errors: seq<Record>

    constructor(maxErrors: int)
      ensures this.maxErrors == maxErrors && errors == []
    {
      this.maxErrors := maxErrors;
      errors := [];
    }

    predicate HasErrors()
      reads this
    {
      errors != []
    }

    /** `report`: append, and abort once the count reaches the limit. */
    method Report(e: Record) returns (aborted: bool)
      modifies this`errors
      ensures errors == old(errors) + [e]
      ensures aborted <==> |errors| >= maxErrors
    {
      errors := errors + [e];
      aborted := |errors| >= maxErrors;
    }

    /** The walk's reports one by one, until the abort. */
    method ReportEach(es: seq<Record>) returns (aborted: bool)
      modifies this`errors
      ensures errors == old(errors) + es[..Taken(|old(errors)|, |es|, maxErrors)]
      ensures aborted <==> Aborts(|old(errors)|, |es|, maxErrors)
    {
      var i := 0;
      aborted := false;
      while i < |es|
        invariant 0 <= i <= |es|
        invariant errors == old(errors) + es[..i]
        invariant Taken(|old(errors)|, |es|, maxErrors) == i + Taken(|old(errors)| + i, |es| - i, maxErrors)
        invariant Aborts(|old(errors)|, |es|, maxErrors) <==> Aborts(|old(errors)| + i, |es| - i, maxErrors)
      {
        aborted := Report(es[i]);
        assert es[..i + 1] == es[..i] + [es[i]];
        i := i + 1;
        if aborted {
          return;
        }
      }
    }
  }

  /** The report of `validate_parameters`: nothing without an input shape
      or without errors, otherwise the report of the recorded errors. */
  function ValidationReport(params: Param, inputShape: Option<Shape>, maxErrors: int, lengthReason: Reason,
                            camel: string -> string, show: Param -> string, other: Record -> string): Result<Option<string>, string>
  {
    if inputShape.None? then Success(None)
    else
      var es := Walk(params, inputShape.value, "", lengthReason);
      var kept := es[..Taken(0, |es|, maxErrors)];
      if kept == [] then Success(None)
      else
        var report :- GenerateReport(kept, camel, show, other);
        Success(Some(report))
  }

  /** `validate_parameters`, with the string maximum reported under the
      reason the formatter knows. */
  method ValidateParameters(params: Param, inputShape: Option<Shape>, maxErrors: int,
                            camel: string -> string, show: Param -> string, other: Record -> string)
    returns (r: Result<Option<string>, string>)
    ensures inputShape.None? ==> r == Success(None)
    ensures r == ValidationReport(params, inputShape, maxErrors, InvalidMax, camel, show, other)
    ensures r.Success?
  {
    if inputShape.None? {
      return Success(None);
    }
    var shape := inputShape.value;
    var errors := new ValidationErrors(maxErrors);
    var es := Walk(params, shape, "", InvalidMax);
    var _ := errors.ReportEach(es);
    var kept := errors.errors;
    assert kept == es[..Taken(0, |es|, maxErrors)];
    ReportsFormat(params, shape, maxErrors, camel, show, other);
    ValidationReportOfKept(params, shape, maxErrors, camel, show, other);
    if kept == [] {
      return Success(None);
    }
    var report := GenerateReport(kept, camel, show, other);
    return Success(Some(report.value));
  }

  lemma ValidationReportOfKept(params: Param, shape: Shape, maxErrors: int, camel: string -> string, show: Param -> string, other: Record -> string)
    requires var es := Walk(params, shape, "", InvalidMax);
             GenerateReport(es[..Taken(0, |es|, maxErrors)], camel, show, other).Success?
    ensures var es := Walk(params, shape, "", InvalidMax);
            var kept := es[..Taken(0, |es|, maxErrors)];
            ValidationReport(params, Some(shape), maxErrors, InvalidMax, camel, show, other)
            == if kept == [] then Success(None) else Success(Some(GenerateReport(kept, camel, show, other).value))
  {
  }

  /** Every kept report of the corrected walk renders, so the report is
      always produced. */
  lemma ReportsFormat(params: Param, shape: Shape, maxErrors: int, camel: string -> string, show: Param -> string, other: Record -> string)
    ensures var es := Walk(params, shape, "", InvalidMax);
            GenerateReport(es[..Taken(0, |es|, maxErrors)], camel, show, other).Success?
  {
    var es := Walk(params, shape, "", InvalidMax);
    var kept := es[..Taken(0, |es|, maxErrors)];
    WalkFormattable(params, shape, "");
    forall i | 0 <= i < |kept|
      ensures FormatError(kept[i], camel, show, other).Success?
    {
      assert kept[i] in es;
      FormattableFormats(kept[i], camel, show, other);
    }
  }

  /** A table-name structure whose name may have at most three
      characters. */
  const NameShape := StructureShape([], [("TableName", StringShape(Some(3), []))])
  const LongName := PDict([("TableName", PStr("abcd"))])

  /** Walking the four-character name records one report, whatever the
      reason for an overlong string. */
  lemma LongNameWalk(reason: Reason)
    ensures Walk(LongName, NameShape, "", reason)
            == [Record(reason, MemberPath("", "TableName"), map[ParamKw := AParam(PStr("abcd")), ValidMax := AInt(3)])]
  {
    var shape := NameShape;
    var p := LongName;
    var e := Record(reason, MemberPath("", "TableName"), map[ParamKw := AParam(PStr("abcd")), ValidMax := AInt(3)]);
    assert p.entries[..0] == [];
    assert Keys(p.entries) == ["TableName"];
    assert MemberShape(shape.members, "TableName") == Some(StringShape(Some(3), []));
    assert UnknownMembers(p.entries, shape.members, "") == [];
    assert Walk(PStr("abcd"), StringShape(Some(3), []), MemberPath("", "TableName"), reason) == [e];
    assert WalkKnown(p.entries, shape, "", reason) == [e];
  }

  /** The validator as written: `_validate_string` reports a string over
      its maximum as `invalid length` with only `valid_max`, and the
      formatter reads `valid_range` for that reason, so producing the
      report raises `KeyError`. */
  lemma OverlongStringRaises(camel: string -> string, show: Param -> string, other: Record -> string)
    ensures ValidationReport(LongName, Some(NameShape), 1, InvalidLength, camel, show, other) == Failure("KeyError")
  {
    var e := Record(InvalidLength, MemberPath("", "TableName"), map[ParamKw := AParam(PStr("abcd")), ValidMax := AInt(3)]);
    LongNameWalk(InvalidLength);
    assert [e][..Taken(0, 1, 1)] == [e];
    LengthWithoutRangeRaises(e, camel, show, other);
    assert GenerateReport([e], camel, show, other) == Failure("KeyError") by {
      assert [e][0] == e;
    }
  }

  /** An `invalid length` report without `valid_range` cannot be formatted. */
  lemma LengthWithoutRangeRaises(e: Record, camel: string -> string, show: Param -> string, other: Record -> string)
    requires e.reason == InvalidLength && ValidRange !in e.kwargs
    ensures FormatError(e, camel, show, other) == Failure("KeyError")
  {
  }

  lemma LongNameMessage(camel: string -> string, show: Param -> string, other: Record -> string)
    requires camel("TableName") == "tableName"
    ensures FormatError(Record(InvalidMax, MemberPath("", "TableName"), map[ParamKw := AParam(PStr("abcd")), ValidMax := AInt(3)]), camel, show, other)
            == Success(MaxLengthMessage("abcd", "tableName", IntToString(3)))
  {
    GetNameSegment("TableName", camel);
    MaxMessage(MemberPath("", "TableName"), "abcd", 3, camel, show, other);
  }

  /** The same input under the corrected reason: one report naming the
      limit. */
  lemma OverlongStringReported(camel: string -> string, show: Param -> string, other: Record -> string)
    requires camel("TableName") == "tableName"
    ensures ValidationReport(LongName, Some(NameShape), 1, InvalidMax, camel, show, other)
            == Success(Some(Header(1) + MaxLengthMessage("abcd", "tableName", IntToString(3))))
  {
    var e := Record(InvalidMax, MemberPath("", "TableName"), map[ParamKw := AParam(PStr("abcd")), ValidMax := AInt(3)]);
    LongNameWalk(InvalidMax);
    LongNameMessage(camel, show, other);
    FormatOne(e, camel, show, other);
    assert [e][..Taken(0, 1, 1)] == [e];
  }
}
