/** The operation router of moto/core/routing.py: request URIs become
    rule strings with sanitised variable names, each operation's required
    query and header arguments give its rule a score, operations that share
    a path and method are told apart by those arguments or by an action
    constraint, and `match` normalises the request before matching. The
    URL matcher itself is a simple segment matcher here. */
module Routing {
  import opened Wrappers
  import opened Values
  import opened Strs
  import opened Shapes
  import R = RestDecode

  // ---------------------------------------------------------------------
  // Requests and action constraints.

  /** What the router reads of a request: the method, the raw path, the
      query arguments and form values as multi-dicts, and the headers. */
  datatype Request = Request(
    verb: string,
    path: string,
    args: map<string, seq<string>>,
    form: map<string, seq<string>>,
    headers: seq<R.Header>)

  /** `MultiDict.get`: the first value of the key. */
  function First(m: map<string, seq<string>>, key: string): Option<string>
  {
    if key in m && |m[key]| > 0 then Some(m[key][0]) else None
  }

  /** `request.values.get(name)`: the query arguments first, then the form;
      werkzeug leaves the form out of `values` for a `GET` request. */
  function ValuesGet(req: Request, name: string): (r: Option<string>)
    ensures First(req.args, name).Some? ==> r == First(req.args, name)
    ensures First(req.args, name).None? && req.verb != "GET" ==> r == First(req.form, name)
    ensures req.verb == "GET" ==> r == First(req.args, name)
  {
    if First(req.args, name).Some? then First(req.args, name)
    else if req.verb == "GET" then None
    else First(req.form, name)
  }

  /** `Headers.get(name)`: the first header of that name, ignoring case. */
  function HeaderGet(hs: seq<R.Header>, name: string): Option<string>
  {
    if |hs| == 0 then None
    else if Lower(hs[0].name) == Lower(name) then Some(hs[0].value)
    else HeaderGet(hs[1..], name)
  }

  /** A header is missing exactly when no header has the name, compared
      without regard to case. */
  lemma {:induction false} HeaderGetMissing(hs: seq<R.Header>, name: string)
    ensures HeaderGet(hs, name).None? <==> forall i :: 0 <= i < |hs| ==> Lower(hs[i].name) != Lower(name)
    decreases |hs|
  {
    if |hs| > 0 && Lower(hs[0].name) != Lower(name) {
      HeaderGetMissing(hs[1..], name);
      assert forall i :: 1 <= i < |hs| ==> hs[i] == hs[1..][i - 1];
    }
  }

  /** A header found is the value of the first header with the name. */
  lemma {:induction false} HeaderGetFirst(hs: seq<R.Header>, name: string, i: nat)
    requires i < |hs| && Lower(hs[i].name) == Lower(name)
    requires forall j :: 0 <= j < i ==> Lower(hs[j].name) != Lower(name)
    ensures HeaderGet(hs, name) == Some(hs[i].value)
    decreases i
  {
    if i > 0 {
      HeaderGetFirst(hs[1..], name, i - 1);
    }
  }

  /** `name in headers` */
  predicate HasHeader(hs: seq<R.Header>, name: string)
  {
    HeaderGet(hs, name).Some?
  }

  /** `DataValueConstraint` and `HeaderValueConstraint`. */
  datatype Constraint = DataValue(name: string, value: string) | HeaderValue(name: string, value: string)

  /** `accept`: the one request value must equal the constraint's value. */
  predicate Accepts(c: Constraint, req: Request)
  {
    match c
    case DataValue(n, v) => ValuesGet(req, n) == Some(v)
    case HeaderValue(n, v) => HeaderGet(req.headers, n) == Some(v)
  }

  datatype Candidate = Candidate(op: OperationModel, constraints: seq<Constraint>)

  predicate AcceptsAll(cand: Candidate, req: Request)
  {
    forall i :: 0 <= i < |cand.constraints| ==> Accepts(cand.constraints[i], req)
  }

  /** `ActionSelector.select_action`: the operation of the first candidate
      all of whose constraints accept the request, else `None`. */
  function SelectAction(cands: seq<Candidate>, req: Request): (r: Option<OperationModel>)
    ensures r.None? <==> forall i :: 0 <= i < |cands| ==> !AcceptsAll(cands[i], req)
    ensures r.Some? ==> exists i :: (0 <= i < |cands| && AcceptsAll(cands[i], req) && cands[i].op == r.value &&
      forall j :: 0 <= j < i ==> !AcceptsAll(cands[j], req))
  {
    if |cands| == 0 then None
    else if AcceptsAll(cands[0], req) then Some(cands[0].op)
    else
      var r := SelectAction(cands[1..], req);
      assert forall i :: 1 <= i < |cands| ==> cands[i] == cands[1..][i - 1];
      if r.Some? then
        var i :| 0 <= i < |cands[1..]| && AcceptsAll(cands[1..][i], req) && cands[1..][i].op == r.value &&
          forall j :: 0 <= j < i ==> !AcceptsAll(cands[1..][j], req);
        assert AcceptsAll(cands[i + 1], req) && cands[i + 1].op == r.value;
        r
      else r
  }

  // ---------------------------------------------------------------------
  // Sanitised rule variables.

  /** `_rule_replacements`: `-` is not allowed in a rule variable name. */
  const Replacement := "_0_"

  /** `str.translate(_rule_replacement_table)` */
  function Translate(s: string): (r: string)
    ensures '-' !in r
  {
    if |s| == 0 then "" else (if s[0] == '-' then Replacement else [s[0]]) + Translate(s[1..])
  }

  /** `post_process_arg_name`: every `_0_` back to `-`. */
  function PostProcess(k: string): string
  {
    ReplaceAll(k, Replacement, "-")
  }

  /** A name whose translation cannot be misread: no `_0` in it is
      followed by `_` or `-`. */
  predicate Unambiguous(n: string)
  {
    forall i :: 0 <= i < |n| - 2 ==> !(n[i] == '_' && n[i + 1] == '0' && (n[i + 2] == '_' || n[i + 2] == '-'))
  }

  /** Un-sanitising a sanitised name gives the name back. */
  lemma {:induction false} PostProcessTranslate(n: string)
    requires Unambiguous(n)
    ensures PostProcess(Translate(n)) == n
    decreases |n|
  {
    if |n| > 0 {
      var rest := Translate(n[1..]);
      assert Unambiguous(n[1..]) by {
        forall i | 0 <= i < |n[1..]| - 2
          ensures !(n[1..][i] == '_' && n[1..][i + 1] == '0' && (n[1..][i + 2] == '_' || n[1..][i + 2] == '-'))
        {
          assert n[1..][i] == n[i + 1] && n[1..][i + 1] == n[i + 2] && n[1..][i + 2] == n[i + 3];
        }
      }
      PostProcessTranslate(n[1..]);
      var t := Translate(n);
      assert t == (if n[0] == '-' then Replacement else [n[0]]) + rest;
      if n[0] == '-' {
        assert t[3..] == rest;
      } else {
        assert t[1..] == rest;
        assert !(|t| >= 3 && Replacement <= t) by {
          if |t| >= 3 && n[0] == '_' && |n| >= 2 {
            TranslateHead(n[1..]);
            if n[1] == '0' {
              if |n| >= 3 {
                assert n[1..][1..] == n[2..];
                assert rest == "0" + Translate(n[2..]);
                TranslateHead(n[2..]);
                assert t[2] == Translate(n[2..])[0];
              }
            } else {
              assert t[1] == rest[0];
            }
          }
        }
      }
    }
  }

  /** The first character of a translation. */
  lemma TranslateHead(s: string)
    ensures |Translate(s)| >= |s|
    ensures |s| > 0 ==> Translate(s)[0] == (if s[0] == '-' then '_' else s[0])
  {
  }

  /** The replacement cannot always be undone: two names share a
      translation, so un-sanitising gets one of them wrong. */
  lemma TranslateNotInjective()
    ensures Translate("_0-") == Translate("-0_") == "_0_0_"
    ensures PostProcess(Translate("_0-")) == "-0_"
  {
    assert Translate("") == "";
    assert Translate("-") == "_0_";
    assert Translate("0-") == "0_0_";
    assert Translate("_0-") == "_0_0_";
    assert Translate("_") == "_";
    assert Translate("0_") == "0_";
    assert Translate("-0_") == "_0_0_";
    assert ReplaceAll("_", Replacement, "-") == "_";
    assert ReplaceAll("0_", Replacement, "-") == "0_";
    assert ReplaceAll("_0_0_", Replacement, "-") == "-" + ReplaceAll("0_", Replacement, "-");
  }

  /** `s.strip(c)`: the character removed from both ends. */
  function StripChar(s: string, c: char): (r: string)
    ensures |r| <= |s|
    ensures |r| > 0 ==> r[0] != c && r[|r| - 1] != c
    decreases |s|
  {
    if |s| > 0 && s[0] == c then StripChar(s[1..], c)
    else if |s| > 0 && s[|s| - 1] == c then StripChar(s[..|s| - 1], c)
    else s
  }

  /** The variable name of a placeholder: `X+` loses its `+` signs. */
  function ParamName(v: string): string
  {
    if EndsWith(v, "+") then StripChar(v, '+') else v
  }

  /** `transform_path_params_to_rule_vars` on the text between the braces:
      a greedy `X+` becomes `<path:X>`, any other `X` becomes `<X>`, with
      `-` replaced in the name. */
  function TransformParam(v: string): string
  {
    "<" + (if EndsWith(v, "+") then "path:" else "") + Translate(ParamName(v)) + ">"
  }

  /** A rule variable's name and whether it uses the path converter. */
  function RuleVar(t: string): Option<(string, bool)>
  {
    if |t| >= 2 && t[0] == '<' && t[|t| - 1] == '>' then
      var inner := t[1..|t| - 1];
      if StartsWith(inner, "path:") then Some((inner[5..], true)) else Some((inner, false))
    else None
  }

  /** The variable a placeholder becomes is greedy exactly for `X+`, and
      its name un-sanitises to the placeholder's name. */
  lemma TransformRoundTrip(v: string)
    requires Unambiguous(ParamName(v)) && !StartsWith(Translate(ParamName(v)), "path:")
    ensures RuleVar(TransformParam(v)).Some?
    ensures RuleVar(TransformParam(v)).value.1 == EndsWith(v, "+")
    ensures PostProcess(RuleVar(TransformParam(v)).value.0) == ParamName(v)
  {
    var tn := Translate(ParamName(v));
    var inner := if EndsWith(v, "+") then "path:" + tn else tn;
    assert TransformParam(v) == "<" + inner + ">";
    RuleVarOf(inner);
    if EndsWith(v, "+") {
      assert inner[5..] == tn;
    }
    PostProcessTranslate(ParamName(v));
  }

  /** Reading back a rule variable. */
  lemma RuleVarOf(inner: string)
    ensures RuleVar("<" + inner + ">") ==
      if StartsWith(inner, "path:") then Some((inner[5..], true)) else Some((inner, false))
  {
    var t := "<" + inner + ">";
    assert t[1..|t| - 1] == inner;
  }

  /** `path_param_regex.sub(transform_path_params_to_rule_vars, path)`:
      each `{...}` with at least one character before the closing brace,
      and no line break, is replaced, left to right. */
  function RuleString(p: string): string
    decreases |p|
  {
    if |p| == 0 then ""
    else if p[0] == '{' && |p| >= 3 then
      match IndexOf(p[2..], '}')
      case Some(j) =>
        var content := p[1..2 + j];
        if '\n' in content then [p[0]] + RuleString(p[1..])
        else TransformParam(content) + RuleString(p[3 + j..])
      case None => [p[0]] + RuleString(p[1..])
    else [p[0]] + RuleString(p[1..])
  }

  /** A path without braces is its own rule string. */
  lemma {:induction false} RuleStringPlain(p: string)
    requires '{' !in p
    ensures RuleString(p) == p
    decreases |p|
  {
    if |p| > 0 {
      assert p[0] != '{';
      RuleStringPlain(p[1..]);
      assert p == [p[0]] + p[1..];
    }
  }

  /** A placeholder is replaced by its rule variable. */
  lemma RuleStringPlaceholder(name: string, rest: string)
    requires |name| > 0 && '}' !in name && '\n' !in name
    ensures RuleString("{" + name + "}" + rest) == TransformParam(name) + RuleString(rest)
  {
    var p := "{" + name + "}" + rest;
    var tail := name[1..] + "}" + rest;
    assert p[2..] == tail;
    assert tail[|name| - 1] == '}';
    assert tail[..|name| - 1] == name[1..];
    assert '}' !in name[1..];
    assert IndexOf(tail, '}') == Some(|name| - 1);
    assert p[1..1 + |name|] == name;
    assert p[2 + |name|..] == rest;
  }

  // ---------------------------------------------------------------------
  // `_HttpOperation.from_operation`

  /** An operation's path, method and required query and header arguments. */
  datatype HttpOperation = HttpOperation(
    op: OperationModel,
    path: string,
    verb: string,
    queryArgs: map<string, seq<string>>,
    headerArgs: seq<string>,
    deprecated: bool)

  /** `s.rstrip(c)` */
  function RStripChar(s: string, c: char): (r: string)
    ensures r <= s
    ensures |r| > 0 ==> r[|r| - 1] != c
    ensures forall k :: |r| <= k < |s| ==> s[k] == c
    decreases |s|
  {
    if |s| > 0 && s[|s| - 1] == c then RStripChar(s[..|s| - 1], c) else s
  }

  /** The URI an operation is routed on: with a non-empty `authPath`, that
      path without trailing `/` followed by the query part of `requestUri`;
      otherwise `requestUri`, `/` by default. */
  function OperationUri(h: Http): (r: string)
    ensures (h.authPath.None? || h.authPath == Some("")) && h.requestUri.None? ==> r == "/"
  {
    match h.authPath
    case Some(auth) =>
      if auth == "" then h.requestUri.GetOr("/")
      else
        var ru := h.requestUri.GetOr("");
        (match IndexOf(ru, '?')
         case None => RStripChar(auth, '/')
         case Some(i) => RStripChar(auth, '/') + "?" + ru[i + 1..])
    case None => h.requestUri.GetOr("/")
  }

  /** `parse_qs(q, keep_blank_values=True)` over the `&`-separated pairs
      from `i` on: empty pairs are skipped, a pair without `=` has an empty
      value, and names and values have `+` turned into a space and are then
      unquoted; repeated names collect their values in order. */
  function ParseQs(c: Codecs, pairs: seq<string>, i: nat, m: map<string, seq<string>>): (r: map<string, seq<string>>)
    requires i <= |pairs|
    ensures m.Keys <= r.Keys
    ensures forall k :: k in m ==> |m[k]| <= |r[k]| && r[k][..|m[k]|] == m[k]
    decreases |pairs| - i
  {
    if i == |pairs| then m
    else if pairs[i] == "" then ParseQs(c, pairs, i + 1, m)
    else
      var nv := SplitPair(pairs[i]);
      var m' := AppendValue(m, c.unquote(PlusToSpace(nv.0)), c.unquote(PlusToSpace(nv.1)));
      var r := ParseQs(c, pairs, i + 1, m');
      assert forall k :: k in m ==> r[k][..|m[k]|] == r[k][..|m'[k]|][..|m[k]|];
      r
  }

  /** A pair cut at its first `=`; without one the whole pair is the name
      and the value is empty. */
  function SplitPair(p: string): (string, string)
  {
    match IndexOf(p, '=') case Some(j) => (p[..j], p[j + 1..]) case None => (p, "")
  }

  /** One more value under `key`, after those already there. */
  function AppendValue(m: map<string, seq<string>>, key: string, v: string): (r: map<string, seq<string>>)
    ensures r.Keys == m.Keys + {key}
    ensures r[key] == (if key in m then m[key] else []) + [v]
    ensures forall k :: k in m && k != key ==> r[k] == m[k]
    ensures forall k :: k in m ==> |m[k]| <= |r[k]| && r[k][..|m[k]|] == m[k]
  {
    m[key := (if key in m then m[key] else []) + [v]]
  }

  /** `s.replace("+", " ")`, which `parse_qsl` applies before unquoting. */
  function PlusToSpace(s: string): (r: string)
    ensures |r| == |s|
    ensures forall i :: 0 <= i < |s| ==> r[i] == (if s[i] == '+' then ' ' else s[i])
  {
    if |s| == 0 then "" else [if s[0] == '+' then ' ' else s[0]] + PlusToSpace(s[1..])
  }

  /** One pair `name=value`, with no `=` in the name, gives the unquoted
      name, `+` read as a space, holding the one value decoded the same way. */
  lemma ParseQsPair(c: Codecs, name: string, value: string)
    requires '=' !in name
    ensures ParseQs(c, [name + "=" + value], 0, map[]) ==
      map[c.unquote(PlusToSpace(name)) := [c.unquote(PlusToSpace(value))]]
  {
    var p := name + "=" + value;
    assert p[|name|] == '=' && p[..|name|] == name && p[|name| + 1..] == value;
    assert IndexOf(p, '=') == Some(|name|);
    var pairs := [p];
    assert pairs[0] == p && |pairs| == 1 && p != "";
    var key := c.unquote(PlusToSpace(name));
    var m': map<string, seq<string>> := map[key := [c.unquote(PlusToSpace(value))]];
    var empty: map<string, seq<string>> := map[];
    assert key !in empty;
    var v := c.unquote(PlusToSpace(value));
    assert [] + [v] == [v];
    assert empty[key := [v]] == m';
    assert ParseQs(c, pairs, 1, m') == m';
    assert ParseQs(c, pairs, 0, empty) == ParseQs(c, pairs, 1, m');
  }

  /** `list(filter(None, v))`: the non-empty values, in order. */
  function NonBlank(vs: seq<string>): (r: seq<string>)
    ensures forall x :: x in r <==> x in vs && x != ""
    ensures |r| <= |vs|
  {
    if |vs| == 0 then []
    else if vs[0] == "" then NonBlank(vs[1..])
    else [vs[0]] + NonBlank(vs[1..])
  }

  /** The mandatory query arguments of a request URI: those after its
      first `?`, with blank values dropped (a name alone only has to be
      present). */
  function MandatoryQuery(c: Codecs, uri: string): (r: map<string, seq<string>>)
    ensures '?' !in uri ==> r == map[]
    ensures forall k :: k in r ==> forall x :: x in r[k] ==> x != ""
  {
    var parts := Split(uri, '?');
    assert '?' !in uri ==> |parts| == 1 by {
      if '?' !in uri { SplitAbsent(uri, '?'); }
    }
    if |parts| > 1 then
      var parsed := ParseQs(c, Split(parts[1], '&'), 0, map[]);
      map k | k in parsed :: NonBlank(parsed[k])
    else map[]
  }

  /** The required member `name` is bound to `location` under the wire name `wire`. */
  predicate RequiredAt(ms: seq<Member>, name: string, location: string, wire: string)
  {
    MemberNamed(ms, name).Some? &&
    MemberNamed(ms, name).value.ser.location == Some(location) &&
    MemberNamed(ms, name).value.ser.name == Some(wire)
  }

  /** The loop over `required_members` from `i` on: a required header
      member adds its header name; a required query-string member adds its
      name with no required values unless the URI already requires it. */
  function RequiredArgs(ms: seq<Member>, req: seq<string>, i: nat, hs: seq<string>, qs: map<string, seq<string>>)
    : (r: Result<(seq<string>, map<string, seq<string>>), string>)
    requires i <= |req|
    ensures r.Success? ==> hs <= r.value.0
    ensures r.Success? ==> forall k :: k in qs ==> k in r.value.1 && r.value.1[k] == qs[k]
    decreases |req| - i
  {
    if i == |req| then Success((hs, qs))
    else
      match MemberNamed(ms, req[i])
      case None => Failure("KeyError")
      case Some(m) =>
        if m.ser.location == Some("header") then
          match m.ser.name
          case None => Failure("MissingLocationName")
          case Some(n) => RequiredArgs(ms, req, i + 1, hs + [n], qs)
        else if m.ser.location == Some("querystring") then
          match m.ser.name
          case None => Failure("MissingLocationName")
          case Some(n) => RequiredArgs(ms, req, i + 1, hs, if n in qs then qs else qs[n := []])
        else RequiredArgs(ms, req, i + 1, hs, qs)
  }

  /** Every header name added is that of a required header member from
      `i` on. */
  lemma {:induction false} RequiredHeadersSound(ms: seq<Member>, req: seq<string>, i: nat, hs: seq<string>, qs: map<string, seq<string>>)
    requires i <= |req| && RequiredArgs(ms, req, i, hs, qs).Success?
    ensures forall k :: |hs| <= k < |RequiredArgs(ms, req, i, hs, qs).value.0| ==>
              exists j :: i <= j < |req| && RequiredAt(ms, req[j], "header", RequiredArgs(ms, req, i, hs, qs).value.0[k])
    decreases |req| - i
  {
    if i < |req| {
      var m := MemberNamed(ms, req[i]).value;
      var r := RequiredArgs(ms, req, i, hs, qs).value;
      if m.ser.location == Some("header") {
        var n := m.ser.name.value;
        assert RequiredArgs(ms, req, i, hs, qs) == RequiredArgs(ms, req, i + 1, hs + [n], qs);
        RequiredHeadersSound(ms, req, i + 1, hs + [n], qs);
        assert (hs + [n])[|hs|] == n && hs + [n] <= r.0;
        assert RequiredAt(ms, req[i], "header", n);
      } else if m.ser.location == Some("querystring") {
        var n := m.ser.name.value;
        var qs' := if n in qs then qs else qs[n := []];
        assert RequiredArgs(ms, req, i, hs, qs) == RequiredArgs(ms, req, i + 1, hs, qs');
        RequiredHeadersSound(ms, req, i + 1, hs, qs');
      } else {
        assert RequiredArgs(ms, req, i, hs, qs) == RequiredArgs(ms, req, i + 1, hs, qs);
        RequiredHeadersSound(ms, req, i + 1, hs, qs);
      }
    }
  }

  /** The header name of every required header member from `i` on is
      added. */
  lemma {:induction false} RequiredHeadersComplete(ms: seq<Member>, req: seq<string>, i: nat, hs: seq<string>, qs: map<string, seq<string>>)
    requires i <= |req| && RequiredArgs(ms, req, i, hs, qs).Success?
    ensures forall j, w :: i <= j < |req| && RequiredAt(ms, req[j], "header", w) ==> w in RequiredArgs(ms, req, i, hs, qs).value.0
    decreases |req| - i
  {
    if i < |req| {
      var m := MemberNamed(ms, req[i]).value;
      var r := RequiredArgs(ms, req, i, hs, qs).value;
      if m.ser.location == Some("header") {
        var n := m.ser.name.value;
        assert RequiredArgs(ms, req, i, hs, qs) == RequiredArgs(ms, req, i + 1, hs + [n], qs);
        RequiredHeadersComplete(ms, req, i + 1, hs + [n], qs);
        assert (hs + [n])[|hs|] == n && hs + [n] <= r.0;
        assert RequiredAt(ms, req[i], "header", n);
      } else if m.ser.location == Some("querystring") {
        var n := m.ser.name.value;
        var qs' := if n in qs then qs else qs[n := []];
        assert RequiredArgs(ms, req, i, hs, qs) == RequiredArgs(ms, req, i + 1, hs, qs');
        RequiredHeadersComplete(ms, req, i + 1, hs, qs');
      } else {
        assert RequiredArgs(ms, req, i, hs, qs) == RequiredArgs(ms, req, i + 1, hs, qs);
        RequiredHeadersComplete(ms, req, i + 1, hs, qs);
      }
    }
  }

  /** The query names added, each with no required values, are exactly
      those of the required query-string members from `i` on. */
  lemma {:induction false} RequiredQuery(ms: seq<Member>, req: seq<string>, i: nat, hs: seq<string>, qs: map<string, seq<string>>)
    requires i <= |req| && RequiredArgs(ms, req, i, hs, qs).Success?
    ensures var r := RequiredArgs(ms, req, i, hs, qs).value;
            (forall k :: k in r.1 && k !in qs ==> r.1[k] == [] && exists j :: i <= j < |req| && RequiredAt(ms, req[j], "querystring", k))
            && (forall j, w :: i <= j < |req| && RequiredAt(ms, req[j], "querystring", w) ==> w in r.1)
    decreases |req| - i
  {
    if i < |req| {
      var m := MemberNamed(ms, req[i]).value;
      if m.ser.location == Some("header") {
        var n := m.ser.name.value;
        assert RequiredArgs(ms, req, i, hs, qs) == RequiredArgs(ms, req, i + 1, hs + [n], qs);
        RequiredQuery(ms, req, i + 1, hs + [n], qs);
      } else if m.ser.location == Some("querystring") {
        var n := m.ser.name.value;
        var qs' := if n in qs then qs else qs[n := []];
        assert RequiredArgs(ms, req, i, hs, qs) == RequiredArgs(ms, req, i + 1, hs, qs');
        RequiredQuery(ms, req, i + 1, hs, qs');
        assert RequiredAt(ms, req[i], "querystring", n);
      } else {
        assert RequiredArgs(ms, req, i, hs, qs) == RequiredArgs(ms, req, i + 1, hs, qs);
        RequiredQuery(ms, req, i + 1, hs, qs);
      }
    }
  }

  /** `_HttpOperation.from_operation`: the method defaults to `POST`, the
      path is the URI before its first `?`, and the required arguments are
      the URI's mandatory query arguments and the structure input's
      required header and query-string members. */
  function HttpOperationOf(c: Codecs, op: OperationModel): (r: Result<HttpOperation, string>)
    ensures r.Success? ==> r.value.op == op && r.value.deprecated == op.deprecated
    ensures r.Success? ==> r.value.verb == op.http.verb.GetOr("POST")
    ensures r.Success? ==> r.value.path == Split(OperationUri(op.http), '?')[0]
    ensures r.Success? ==> forall k :: k in MandatoryQuery(c, OperationUri(op.http)) ==>
      k in r.value.queryArgs && r.value.queryArgs[k] == MandatoryQuery(c, OperationUri(op.http))[k]
    ensures (op.input.None? || !op.input.value.Structure?) ==> r.Success? && r.value.headerArgs == []
  {
    var uri := OperationUri(op.http);
    var q0 := MandatoryQuery(c, uri);
    var path := Split(uri, '?')[0];
    var verb := op.http.verb.GetOr("POST");
    match op.input
    case Some(input) =>
      if input.Structure? then
        var args :- RequiredArgs(input.members, input.meta.required, 0, [], q0);
        Success(HttpOperation(op, path, verb, args.1, args.0, op.deprecated))
      else Success(HttpOperation(op, path, verb, q0, [], op.deprecated))
    case None => Success(HttpOperation(op, path, verb, q0, [], op.deprecated))
  }

  /** `from_operation`, filling `header_args` and `query_args` in a loop. */
  method FromOperation(c: Codecs, op: OperationModel) returns (r: Result<HttpOperation, string>)
    ensures r == HttpOperationOf(c, op)
  {
    var uri := OperationUri(op.http);
    var verb := op.http.verb.GetOr("POST");
    var path := Split(uri, '?')[0];
    var headerArgs: seq<string> := [];
    var queryArgs := MandatoryQuery(c, uri);
    if op.input.Some? && op.input.value.Structure? {
      var input := op.input.value;
      var required := input.meta.required;
      var i := 0;
      while i < |required|
        invariant 0 <= i <= |required|
        invariant RequiredArgs(input.members, required, 0, [], MandatoryQuery(c, uri)) ==
          RequiredArgs(input.members, required, i, headerArgs, queryArgs)
        decreases |required| - i
      {
        var m := MemberNamed(input.members, required[i]);
        if m.None? {
          return Failure("KeyError");
        }
        var location := m.value.ser.location;
        if location == Some("header") {
          if m.value.ser.name.None? {
            return Failure("MissingLocationName");
          }
          headerArgs := headerArgs + [m.value.ser.name.value];
        } else if location == Some("querystring") {
          if m.value.ser.name.None? {
            return Failure("MissingLocationName");
          }
          var queryName := m.value.ser.name.value;
          if queryName !in queryArgs {
            queryArgs := queryArgs[queryName := []];
          }
        }
        i := i + 1;
      }
    }
    return Success(HttpOperation(op, path, verb, queryArgs, headerArgs, op.deprecated));
  }

  // ---------------------------------------------------------------------
  // `_RequiredArgsRule` and `_RequestMatchingRule`

  /** A fine-grained rule: the operation, its required query arguments
      (with the values each must take) and headers, and its score. */
  datatype ArgsRule = ArgsRule(
    endpoint: OperationModel,
    queryArgs: map<string, seq<string>>,
    headerArgs: seq<string>,
    score: int)

  /** `_RequiredArgsRule.__init__`: the score is 10, plus 10 per required
      query argument and per required header, less 5 when deprecated. */
  function MakeRule(h: HttpOperation): (r: ArgsRule)
    ensures r.endpoint == h.op && r.queryArgs == h.queryArgs && r.headerArgs == h.headerArgs
  {
    var score := 10 + 10 * |h.queryArgs| + 10 * |h.headerArgs|;
    ArgsRule(h.op, h.queryArgs, h.headerArgs, if h.deprecated then score - 5 else score)
  }

  /** One more required argument outweighs deprecation, and between rules
      with as many required arguments the deprecated one scores lower. */
  lemma ScoreRanks(a: HttpOperation, b: HttpOperation)
    ensures |a.queryArgs| + |a.headerArgs| > |b.queryArgs| + |b.headerArgs| ==> MakeRule(a).score > MakeRule(b).score
    ensures |a.queryArgs| + |a.headerArgs| == |b.queryArgs| + |b.headerArgs| ==>
      (MakeRule(a).score > MakeRule(b).score <==> !a.deprecated && b.deprecated)
    ensures MakeRule(a).score >= 5
  {
  }

  /** `matches`: every required query argument is present with each of its
      required values, and every required header is present. */
  predicate Matches(rule: ArgsRule, args: map<string, seq<string>>, headers: seq<R.Header>)
  {
    (forall k :: k in rule.queryArgs ==> k in args && forall v :: v in rule.queryArgs[k] ==> v in args[k]) &&
    (forall i :: 0 <= i < |rule.headerArgs| ==> HasHeader(headers, rule.headerArgs[i]))
  }

  /** A request that matches a rule still matches it with more query values
      and more headers. */
  lemma MatchesMonotone(rule: ArgsRule, args: map<string, seq<string>>, headers: seq<R.Header>,
                        args': map<string, seq<string>>, headers': seq<R.Header>)
    requires Matches(rule, args, headers)
    requires forall k :: k in args ==> k in args' && forall v :: v in args[k] ==> v in args'[k]
    requires forall i :: 0 <= i < |headers| ==> headers[i] in headers'
    ensures Matches(rule, args', headers')
  {
    forall i | 0 <= i < |rule.headerArgs|
      ensures HasHeader(headers', rule.headerArgs[i])
    {
      var n := rule.headerArgs[i];
      HeaderGetMissing(headers, n);
      var j :| 0 <= j < |headers| && Lower(headers[j].name) == Lower(n);
      var k :| 0 <= k < |headers'| && headers'[k] == headers[j];
      HeaderGetMissing(headers', n);
    }
  }

  /** Scores never increase along the sequence. */
  predicate Descending(rs: seq<ArgsRule>)
  {
    forall i, j :: 0 <= i < j < |rs| ==> rs[i].score >= rs[j].score
  }

  /** Insertion into a descending sequence, ahead of the rules that score no
      higher, so rules of equal score keep their order. */
  function InsertDesc(x: ArgsRule, rs: seq<ArgsRule>): (r: seq<ArgsRule>)
    requires Descending(rs)
    ensures Descending(r)
    ensures |r| == |rs| + 1
    ensures forall k :: 0 <= k < |r| ==> r[k].score <= x.score || (|rs| > 0 && r[k].score <= rs[0].score)
  {
    if |rs| == 0 || x.score >= rs[0].score then [x] + rs
    else
      var tail := InsertDesc(x, rs[1..]);
      assert rs == [rs[0]] + rs[1..];
      assert forall k :: 0 <= k < |tail| ==> rs[0].score >= tail[k].score;
      [rs[0]] + tail
  }

  /** Insertion adds the rule and loses none. */
  lemma {:induction false} InsertDescPerm(x: ArgsRule, rs: seq<ArgsRule>)
    requires Descending(rs)
    ensures multiset(InsertDesc(x, rs)) == multiset(rs) + multiset{x}
  {
    if |rs| > 0 && x.score < rs[0].score {
      InsertDescPerm(x, rs[1..]);
      assert rs == [rs[0]] + rs[1..];
    }
  }

  /** `sorted(rules, key=lambda rule: rule.match_score, reverse=True)` */
  function SortDesc(rs: seq<ArgsRule>): (r: seq<ArgsRule>)
    ensures Descending(r)
    ensures multiset(r) == multiset(rs)
    ensures |r| == |rs|
  {
    if |rs| == 0 then []
    else
      assert rs == [rs[0]] + rs[1..];
      InsertDescPerm(rs[0], SortDesc(rs[1..]));
      InsertDesc(rs[0], SortDesc(rs[1..]))
  }

  /** `match_request`: the first rule that matches; `None` stands for
      `NotFound`. */
  function MatchRequest(rules: seq<ArgsRule>, args: map<string, seq<string>>, headers: seq<R.Header>): (r: Option<ArgsRule>)
    ensures r.None? <==> forall i :: 0 <= i < |rules| ==> !Matches(rules[i], args, headers)
    ensures r.Some? ==> exists i :: (0 <= i < |rules| && rules[i] == r.value && Matches(r.value, args, headers) &&
      forall j :: 0 <= j < i ==> !Matches(rules[j], args, headers))
  {
    if |rules| == 0 then None
    else if Matches(rules[0], args, headers) then Some(rules[0])
    else
      var r := MatchRequest(rules[1..], args, headers);
      assert forall i :: 1 <= i < |rules| ==> rules[i] == rules[1..][i - 1];
      if r.Some? then
        var i :| 0 <= i < |rules[1..]| && rules[1..][i] == r.value && Matches(r.value, args, headers) &&
          forall j :: 0 <= j < i ==> !Matches(rules[1..][j], args, headers);
        assert rules[i + 1] == r.value;
        r
      else r
  }

  /** On rules sorted by score the first match scores highest among the
      rules that match. */
  lemma BestMatch(rules: seq<ArgsRule>, args: map<string, seq<string>>, headers: seq<R.Header>)
    requires MatchRequest(SortDesc(rules), args, headers).Some?
    ensures var best := MatchRequest(SortDesc(rules), args, headers).value;
      best in rules && Matches(best, args, headers) &&
      forall x :: x in rules && Matches(x, args, headers) ==> x.score <= best.score
  {
    var sorted := SortDesc(rules);
    var best := MatchRequest(sorted, args, headers).value;
    var i :| 0 <= i < |sorted| && sorted[i] == best && Matches(best, args, headers) &&
      forall j :: 0 <= j < i ==> !Matches(sorted[j], args, headers);
    assert best in multiset(sorted);
    forall x | x in rules && Matches(x, args, headers)
      ensures x.score <= best.score
    {
      assert x in multiset(rules);
      assert x in multiset(sorted);
      FirstMatchBest(sorted, args, headers, i, x);
    }
  }

  /** In a descending sequence, a rule that matches scores no higher than
      the first rule that matches. */
  lemma FirstMatchBest(sorted: seq<ArgsRule>, args: map<string, seq<string>>, headers: seq<R.Header>, i: nat, x: ArgsRule)
    requires Descending(sorted) && i < |sorted|
    requires forall j :: 0 <= j < i ==> !Matches(sorted[j], args, headers)
    requires x in sorted && Matches(x, args, headers)
    ensures x.score <= sorted[i].score
  {
    var k :| 0 <= k < |sorted| && sorted[k] == x;
    assert i <= k;
  }

  // ---------------------------------------------------------------------
  // `_create_service_map`

  /** What a rule dispatches to: one operation, an action selector, or the
      score-sorted fine-grained rules of a `_RequestMatchingRule`. */
  datatype Endpoint =
    | OperationEndpoint(op: OperationModel)
    | SelectorEndpoint(candidates: seq<Candidate>)
    | MatchingEndpoint(rules: seq<ArgsRule>)

  /** A rule: its rule string, its methods, its endpoint and its subdomain. */
  datatype Rule = Rule(ruleString: string, methods: seq<string>, endpoint: Endpoint, subdomain: Option<string>)

  /** What the router reads of a service model. */
  datatype Service = Service(
    name: string,
    protocol: string,
    protocols: Option<seq<string>>,
    targetPrefix: Option<string>,
    operations: seq<OperationModel>)

  type Key = (string, string)

  function KeyOf(h: HttpOperation): Key { (h.path, h.verb) }

  /** The keys of `path_index` in insertion order. */
  function KeysOf(hs: seq<HttpOperation>): seq<Key>
  {
    if |hs| == 0 then []
    else
      var ks := KeysOf(hs[..|hs| - 1]);
      if KeyOf(hs[|hs| - 1]) in ks then ks else ks + [KeyOf(hs[|hs| - 1])]
  }

  /** `path_index[key]`: the operations with that path and method, in order. */
  function GroupOf(hs: seq<HttpOperation>, k: Key): seq<HttpOperation>
  {
    if |hs| == 0 then []
    else GroupOf(hs[..|hs| - 1], k) + (if KeyOf(hs[|hs| - 1]) == k then [hs[|hs| - 1]] else [])
  }

  /** The keys are the (path, method) pairs of the operations. */
  lemma {:induction false} KeysOfMembers(hs: seq<HttpOperation>, k: Key)
    ensures k in KeysOf(hs) <==> exists i :: 0 <= i < |hs| && KeyOf(hs[i]) == k
  {
    if |hs| > 0 {
      var front := hs[..|hs| - 1];
      KeysOfMembers(front, k);
      assert forall i :: 0 <= i < |front| ==> front[i] == hs[i];
    }
  }

  /** No key is listed twice. */
  lemma {:induction false} KeysOfDistinct(hs: seq<HttpOperation>)
    ensures forall i, j :: 0 <= i < j < |KeysOf(hs)| ==> KeysOf(hs)[i] != KeysOf(hs)[j]
  {
    if |hs| > 0 {
      var front := hs[..|hs| - 1];
      KeysOfDistinct(front);
      var ks := KeysOf(front);
      var k := KeyOf(hs[|hs| - 1]);
      if k !in ks {
        var r := ks + [k];
        forall i, j | 0 <= i < j < |r|
          ensures r[i] != r[j]
        {
          if j == |ks| {
            assert r[i] == ks[i] && ks[i] in ks && r[j] == k;
          } else {
            assert r[i] == ks[i] && r[j] == ks[j];
          }
        }
      }
    }
  }

  /** A group holds operations of its own (path, method) only, and is
      empty exactly when the key is not listed. */
  lemma {:induction false} GroupOfMembers(hs: seq<HttpOperation>, k: Key)
    ensures forall x :: x in GroupOf(hs, k) ==> x in hs && KeyOf(x) == k
    ensures GroupOf(hs, k) == [] <==> k !in KeysOf(hs)
  {
    if |hs| > 0 {
      var front := hs[..|hs| - 1];
      GroupOfMembers(front, k);
      assert hs == front + [hs[|hs| - 1]];
    }
  }

  /** The grouping loop of `_create_service_map`: every operation is
      appended to the list of its (path, method). */
  method GroupOperations(hs: seq<HttpOperation>) returns (keys: seq<Key>, index: map<Key, seq<HttpOperation>>)
    ensures keys == KeysOf(hs)
    ensures forall k :: k in index <==> k in keys
    ensures forall k :: k in index ==> index[k] == GroupOf(hs, k)
  {
    keys := [];
    index := map[];
    var i := 0;
    while i < |hs|
      invariant 0 <= i <= |hs|
      invariant Indexed(hs[..i], keys, index)
      decreases |hs| - i
    {
      var k := KeyOf(hs[i]);
      assert hs[..i + 1] == hs[..i] + [hs[i]];
      if k in index {
        IndexAdd(hs[..i], hs[i], keys, index);
        index := index[k := index[k] + [hs[i]]];
      } else {
        IndexNew(hs[..i], hs[i], keys, index);
        keys := keys + [k];
        index := index[k := [hs[i]]];
      }
      i := i + 1;
    }
    assert hs[..i] == hs;
  }

  /** `keys` and `index` are `path_index` built from `hs`. */
  ghost predicate Indexed(hs: seq<HttpOperation>, keys: seq<Key>, index: map<Key, seq<HttpOperation>>)
  {
    keys == KeysOf(hs) &&
    (forall k :: k in index <==> k in keys) &&
    (forall k :: k in index ==> index[k] == GroupOf(hs, k))
  }

  /** The groups and keys of one more operation, from those before it. */
  lemma IndexSnoc(front: seq<HttpOperation>, h: HttpOperation)
    ensures forall k :: GroupOf(front + [h], k) == GroupOf(front, k) + (if KeyOf(h) == k then [h] else [])
    ensures KeysOf(front + [h]) == if KeyOf(h) in KeysOf(front) then KeysOf(front) else KeysOf(front) + [KeyOf(h)]
  {
    assert (front + [h])[..|front|] == front;
  }

  /** An operation with a (path, method) seen before joins its group, last. */
  lemma IndexAdd(front: seq<HttpOperation>, h: HttpOperation, keys: seq<Key>, index: map<Key, seq<HttpOperation>>)
    requires KeyOf(h) in index
    requires Indexed(front, keys, index)
    ensures Indexed(front + [h], keys, index[KeyOf(h) := index[KeyOf(h)] + [h]])
  {
    IndexSnoc(front, h);
  }

  /** An operation with a new (path, method) opens a group of its own. */
  lemma IndexNew(front: seq<HttpOperation>, h: HttpOperation, keys: seq<Key>, index: map<Key, seq<HttpOperation>>)
    requires KeyOf(h) !in index
    requires Indexed(front, keys, index)
    ensures Indexed(front + [h], keys + [KeyOf(h)], index[KeyOf(h) := [h]])
  {
    IndexSnoc(front, h);
    GroupOfMembers(front, KeyOf(h));
  }

  /** A `/{Bucket}` path also gets a rule without that prefix, matched on
      the bucket subdomain. */
  function BucketRules(hs: seq<HttpOperation>): (r: seq<Rule>)
    ensures forall i :: 0 <= i < |r| ==> r[i].subdomain == Some("<Bucket>") && r[i].endpoint.OperationEndpoint?
    ensures |r| <= |hs|
  {
    if |hs| == 0 then []
    else
      var h := hs[0];
      var here := if StartsWith(h.path, "/{Bucket}") then
        var p := h.path[9..];
        [Rule(RuleString(if p == "" then "/" else p), [h.verb], OperationEndpoint(h.op), Some("<Bucket>"))]
      else [];
      here + BucketRules(hs[1..])
  }

  const SqsQueuePath := "/{AccountId}/{QueueName}"

  /** The action candidates of a query/EC2 group: `Action` must name the operation. */
  function ActionCandidates(hs: seq<HttpOperation>): (r: seq<Candidate>)
    ensures |r| == |hs| && forall i :: 0 <= i < |hs| ==> r[i] == Candidate(hs[i].op, [DataValue("Action", hs[i].op.name)])
  {
    seq(|hs|, i requires 0 <= i < |hs| => Candidate(hs[i].op, [DataValue("Action", hs[i].op.name)]))
  }

  /** `f"{targetPrefix}"`: a missing prefix prints as `None`. */
  function PrefixText(p: Option<string>): string
  {
    match p
    case Some(t) => t
    case None => "None"
  }

  /** The action candidates of a JSON group: `X-Amz-Target` must be the
      target prefix and the operation name. */
  function TargetCandidates(svc: Service, hs: seq<HttpOperation>): (r: seq<Candidate>)
    ensures |r| == |hs| && forall i :: 0 <= i < |hs| ==>
      r[i] == Candidate(hs[i].op, [HeaderValue("X-Amz-Target", PrefixText(svc.targetPrefix) + "." + hs[i].op.name)])
  {
    seq(|hs|, i requires 0 <= i < |hs| =>
      Candidate(hs[i].op, [HeaderValue("X-Amz-Target", PrefixText(svc.targetPrefix) + "." + hs[i].op.name)]))
  }

  /** The rules for one (path, method) group under one protocol. */
  function GroupRules(svc: Service, protocol: string, k: Key, hs: seq<HttpOperation>): (r: seq<Rule>)
  {
    var ruleString := RuleString(k.0);
    if StartsWith(protocol, "rest") then
      if |hs| == 1 then [Rule(ruleString, [k.1], OperationEndpoint(hs[0].op), None)] + BucketRules(hs)
      else
        var rules := seq(|hs|, i requires 0 <= i < |hs| => MakeRule(hs[i]));
        [Rule(ruleString, [k.1], MatchingEndpoint(SortDesc(rules)), None)] + BucketRules(hs)
    else if protocol == "query" || protocol == "ec2" then
      var selector := SelectorEndpoint(ActionCandidates(hs));
      [Rule(ruleString, ["POST", "GET"], selector, None)] +
      (if svc.name == "sqs" then [Rule(RuleString(SqsQueuePath), ["POST", "GET"], selector, None)] else [])
    else if StartsWith(protocol, "json") then
      var selector := SelectorEndpoint(TargetCandidates(svc, hs));
      [Rule(ruleString, [k.1], selector, None)] +
      (if svc.name == "sqs" then [Rule(RuleString(SqsQueuePath), ["POST"], selector, None)] else [])
    else []
  }

  /** The rules of one protocol, group by group in `path_index` order. */
  function ProtocolRules(svc: Service, protocol: string, keys: seq<Key>, index: map<Key, seq<HttpOperation>>): seq<Rule>
    requires forall k :: k in keys ==> k in index
  {
    if |keys| == 0 then []
    else GroupRules(svc, protocol, keys[0], index[keys[0]]) + ProtocolRules(svc, protocol, keys[1..], index)
  }

  /** `service.metadata.get("protocols", [protocol])` */
  function SupportedProtocols(svc: Service): seq<string>
  {
    svc.protocols.GetOr([svc.protocol])
  }

  /** `_create_service_map`: the operations' HTTP bindings grouped by path
      and method, and one rule list per supported protocol. */
  method CreateServiceMap(c: Codecs, svc: Service) returns (r: Result<map<string, seq<Rule>>, string>)
    ensures r.Success? ==> forall p :: p in r.value <==> p in SupportedProtocols(svc)
    ensures r.Success? ==> exists hs: seq<HttpOperation> ::
      |hs| == |svc.operations| &&
      (forall i :: 0 <= i < |hs| ==> HttpOperationOf(c, svc.operations[i]) == Success(hs[i])) &&
      forall p :: p in r.value ==> r.value[p] == ProtocolRules(svc, p, KeysOf(hs), GroupIndex(hs))
    ensures r.Failure? ==> exists i :: 0 <= i < |svc.operations| && HttpOperationOf(c, svc.operations[i]).Failure?
  {
    var made := HttpOperations(c, svc.operations);
    if made.Failure? {
      return Failure(made.error);
    }
    var hs := made.value;
    var keys, index := GroupOperations(hs);
    assert keys == KeysOf(hs) && index == GroupIndex(hs);
    var result := ServiceMap(svc, keys, index);
    return Success(result);
  }

  /** One rule list per supported protocol. */
  function ServiceMap(svc: Service, keys: seq<Key>, index: map<Key, seq<HttpOperation>>): (m: map<string, seq<Rule>>)
    requires forall k :: k in keys ==> k in index
    ensures forall p :: p in m <==> p in SupportedProtocols(svc)
    ensures forall p :: p in m ==> m[p] == ProtocolRules(svc, p, keys, index)
  {
    map p | p in SupportedProtocols(svc) :: ProtocolRules(svc, p, keys, index)
  }

  /** The HTTP bindings of the operations, in order; the first that
      fails stops the loop. */
  method HttpOperations(c: Codecs, ops: seq<OperationModel>) returns (r: Result<seq<HttpOperation>, string>)
    ensures r.Success? ==> |r.value| == |ops| && forall i :: 0 <= i < |ops| ==> HttpOperationOf(c, ops[i]) == Success(r.value[i])
    ensures r.Failure? ==> exists i :: 0 <= i < |ops| && HttpOperationOf(c, ops[i]).Failure?
  {
    var hs: seq<HttpOperation> := [];
    var i := 0;
    while i < |ops|
      invariant 0 <= i <= |ops|
      invariant |hs| == i
      invariant forall j :: 0 <= j < i ==> HttpOperationOf(c, ops[j]) == Success(hs[j])
      decreases |ops| - i
    {
      var h := FromOperation(c, ops[i]);
      if h.Failure? {
        return Failure(h.error);
      }
      hs := hs + [h.value];
      i := i + 1;
    }
    return Success(hs);
  }

  /** `path_index` as a value. */
  function GroupIndex(hs: seq<HttpOperation>): (m: map<Key, seq<HttpOperation>>)
    ensures forall k :: k in m <==> k in KeysOf(hs)
  {
    map k | k in KeysOf(hs) :: GroupOf(hs, k)
  }

  /** Under a REST protocol a group of one operation gets a plain rule for
      it, and a larger group one rule holding the score-sorted rules of
      all its operations. */
  lemma RestGroupRules(svc: Service, protocol: string, k: Key, hs: seq<HttpOperation>)
    requires StartsWith(protocol, "rest") && |hs| >= 1
    ensures var r := GroupRules(svc, protocol, k, hs);
      |r| >= 1 && r[0].ruleString == RuleString(k.0) && r[0].methods == [k.1] && r[0].subdomain.None? &&
      (|hs| == 1 ==> r[0].endpoint == OperationEndpoint(hs[0].op)) &&
      (|hs| > 1 ==> (r[0].endpoint.MatchingEndpoint? && Descending(r[0].endpoint.rules) &&
        multiset(r[0].endpoint.rules) == multiset(seq(|hs|, i requires 0 <= i < |hs| => MakeRule(hs[i])))))
  {
  }

  /** Under the query and EC2 protocols a group accepts `POST` and `GET`
      and selects the operation whose name is the `Action` value. */
  lemma QueryGroupRules(svc: Service, protocol: string, k: Key, hs: seq<HttpOperation>, req: Request)
    requires protocol == "query" || protocol == "ec2"
    ensures var r := GroupRules(svc, protocol, k, hs);
      |r| >= 1 && r[0].methods == ["POST", "GET"] && r[0].endpoint.SelectorEndpoint? &&
      (SelectAction(r[0].endpoint.candidates, req).Some? <==>
        exists i :: 0 <= i < |hs| && ValuesGet(req, "Action") == Some(hs[i].op.name)) &&
      (SelectAction(r[0].endpoint.candidates, req).Some? ==>
        ValuesGet(req, "Action") == Some(SelectAction(r[0].endpoint.candidates, req).value.name))
  {
    assert protocol[0] != 'r';
    assert !StartsWith(protocol, "rest");
    var cands := ActionCandidates(hs);
    forall i | 0 <= i < |hs|
      ensures AcceptsAll(cands[i], req) <==> ValuesGet(req, "Action") == Some(hs[i].op.name)
    {
      assert cands[i].constraints == [DataValue("Action", hs[i].op.name)];
      assert AcceptsAll(cands[i], req) <==> Accepts(cands[i].constraints[0], req);
    }
  }

  /** Under a JSON protocol the candidates are told apart by
      `X-Amz-Target`, the target prefix and the operation name. */
  lemma JsonGroupRules(svc: Service, protocol: string, k: Key, hs: seq<HttpOperation>, req: Request)
    requires StartsWith(protocol, "json") && !StartsWith(protocol, "rest")
    ensures var r := GroupRules(svc, protocol, k, hs);
      |r| >= 1 && r[0].methods == [k.1] && r[0].endpoint.SelectorEndpoint? &&
      (SelectAction(r[0].endpoint.candidates, req).Some? ==>
        HeaderGet(req.headers, "X-Amz-Target") ==
          Some(PrefixText(svc.targetPrefix) + "." + SelectAction(r[0].endpoint.candidates, req).value.name))
  {
    JsonGroupHead(svc, protocol, k, hs);
    TargetSelected(svc, hs, req);
  }

  /** The first rule of a JSON group selects among the target candidates. */
  lemma JsonGroupHead(svc: Service, protocol: string, k: Key, hs: seq<HttpOperation>)
    requires StartsWith(protocol, "json") && !StartsWith(protocol, "rest")
    ensures var r := GroupRules(svc, protocol, k, hs);
      |r| >= 1 && r[0] == Rule(RuleString(k.0), [k.1], SelectorEndpoint(TargetCandidates(svc, hs)), None)
  {
    assert protocol[0] == 'j';
  }

  /** The operation selected among the target candidates is the one the
      `X-Amz-Target` header names. */
  lemma TargetSelected(svc: Service, hs: seq<HttpOperation>, req: Request)
    ensures var r := SelectAction(TargetCandidates(svc, hs), req);
      r.Some? ==> HeaderGet(req.headers, "X-Amz-Target") == Some(PrefixText(svc.targetPrefix) + "." + r.value.name)
  {
    var cands := TargetCandidates(svc, hs);
    forall i | 0 <= i < |hs| && AcceptsAll(cands[i], req)
      ensures HeaderGet(req.headers, "X-Amz-Target") == Some(PrefixText(svc.targetPrefix) + "." + hs[i].op.name)
    {
      assert cands[i].constraints[0] == HeaderValue("X-Amz-Target", PrefixText(svc.targetPrefix) + "." + hs[i].op.name);
    }
  }

  // ---------------------------------------------------------------------
  // Path matching against a rule string

  /** A rule string as a sequence of literal characters and variables;
      a greedy variable is a `<path:...>` one. */
  datatype Token = Ch(c: char) | Var(name: string, greedy: bool)

  /** Reads a rule string: `<...>` is a variable, anything else literal. */
  function RuleTokens(rule: string): (r: seq<Token>)
    decreases |rule|
  {
    if |rule| == 0 then []
    else if rule[0] == '<' then
      match IndexOf(rule[1..], '>')
      case Some(j) =>
        (match RuleVar(rule[..j + 2])
         case Some(v) => [Var(v.0, v.1)] + RuleTokens(rule[j + 2..])
         case None => [Ch(rule[0])] + RuleTokens(rule[1..]))
      case None => [Ch(rule[0])] + RuleTokens(rule[1..])
    else [Ch(rule[0])] + RuleTokens(rule[1..])
  }

  /** The variables of a token sequence, in order. */
  function VarNames(ts: seq<Token>): (r: seq<string>)
    ensures |r| <= |ts|
  {
    if |ts| == 0 then []
    else if ts[0].Var? then [ts[0].name] + VarNames(ts[1..])
    else VarNames(ts[1..])
  }

  /** A path built from the tokens with the given variable values. */
  function Render(ts: seq<Token>, vals: seq<string>): string
    requires |vals| == |VarNames(ts)|
  {
    if |ts| == 0 then ""
    else if ts[0].Ch? then [ts[0].c] + Render(ts[1..], vals)
    else vals[0] + Render(ts[1..], vals[1..])
  }

  /** A plain variable takes one non-empty path segment; a greedy one
      takes anything. */
  predicate ValuesFit(ts: seq<Token>, vals: seq<string>)
    requires |vals| == |VarNames(ts)|
  {
    if |ts| == 0 then true
    else if ts[0].Ch? then ValuesFit(ts[1..], vals)
    else (ts[0].greedy || (vals[0] != "" && '/' !in vals[0])) && ValuesFit(ts[1..], vals[1..])
  }

  /** The length of the leading run of non-`/` characters. */
  function SegmentRun(path: string): (n: nat)
    ensures n <= |path|
    ensures forall i :: 0 <= i < n ==> path[i] != '/'
    ensures n < |path| ==> path[n] == '/'
  {
    if |path| == 0 || path[0] == '/' then 0 else 1 + SegmentRun(path[1..])
  }

  /** The values the tokens bind in a path, when the path matches: a plain
      variable tries the longest segment first, a greedy one the shortest
      match first, as the regular expressions of a werkzeug rule do. */
  function MatchTokens(ts: seq<Token>, path: string): (r: Option<seq<string>>)
    decreases |ts|, |path| + 2
  {
    if |ts| == 0 then (if path == "" then Some([]) else None)
    else match ts[0]
      case Ch(c) => if |path| > 0 && path[0] == c then MatchTokens(ts[1..], path[1..]) else None
      case Var(_, greedy) =>
        if greedy then MatchLazy(ts[1..], path, 0) else MatchSegment(ts[1..], path, SegmentRun(path))
  }

  function MatchLazy(rest: seq<Token>, path: string, k: nat): (r: Option<seq<string>>)
    requires k <= |path|
    decreases |rest| + 1, |path| - k
  {
    var m := MatchTokens(rest, path[k..]);
    if m.Some? then Some([path[..k]] + m.value)
    else if k == |path| then None
    else MatchLazy(rest, path, k + 1)
  }

  function MatchSegment(rest: seq<Token>, path: string, k: nat): (r: Option<seq<string>>)
    requires k <= |path|
    decreases |rest| + 1, k
  {
    if k == 0 then None
    else
      var m := MatchTokens(rest, path[k..]);
      if m.Some? then Some([path[..k]] + m.value)
      else MatchSegment(rest, path, k - 1)
  }

  /** The matcher is sound: its values fit their variables and rebuild the path. */
  lemma {:induction false} MatchSound(ts: seq<Token>, path: string)
    requires MatchTokens(ts, path).Some?
    ensures var vals := MatchTokens(ts, path).value;
      |vals| == |VarNames(ts)| && ValuesFit(ts, vals) && Render(ts, vals) == path
    decreases |ts|, |path| + 2
  {
    if |ts| > 0 {
      match ts[0]
      case Ch(c) =>
        MatchSound(ts[1..], path[1..]);
        assert [path[0]] + path[1..] == path;
      case Var(_, greedy) =>
        if greedy {
          LazySound(ts[1..], path, 0);
        } else {
          SegmentSound(ts[1..], path, SegmentRun(path));
        }
    }
  }

  lemma {:induction false} LazySound(rest: seq<Token>, path: string, k: nat)
    requires k <= |path| && MatchLazy(rest, path, k).Some?
    ensures var vals := MatchLazy(rest, path, k).value;
      |vals| == 1 + |VarNames(rest)| && ValuesFit(rest, vals[1..]) && vals[0] + Render(rest, vals[1..]) == path
    decreases |rest| + 1, |path| - k
  {
    var m := MatchTokens(rest, path[k..]);
    if m.Some? {
      MatchSound(rest, path[k..]);
      assert ([path[..k]] + m.value)[1..] == m.value;
      assert path[..k] + path[k..] == path;
    } else {
      LazySound(rest, path, k + 1);
    }
  }

  lemma {:induction false} SegmentSound(rest: seq<Token>, path: string, k: nat)
    requires k <= SegmentRun(path) && MatchSegment(rest, path, k).Some?
    ensures var vals := MatchSegment(rest, path, k).value;
      |vals| == 1 + |VarNames(rest)| && ValuesFit(rest, vals[1..]) && vals[0] + Render(rest, vals[1..]) == path &&
      vals[0] != "" && '/' !in vals[0]
    decreases |rest| + 1, k
  {
    var m := MatchTokens(rest, path[k..]);
    if m.Some? {
      MatchSound(rest, path[k..]);
      assert ([path[..k]] + m.value)[1..] == m.value;
      assert path[..k] + path[k..] == path;
      assert forall i :: 0 <= i < k ==> path[..k][i] == path[i];
    } else {
      SegmentSound(rest, path, k - 1);
    }
  }

  /** The matcher is complete: a path built from fitting values matches. */
  lemma {:induction false} MatchComplete(ts: seq<Token>, vals: seq<string>)
    requires |vals| == |VarNames(ts)| && ValuesFit(ts, vals)
    ensures MatchTokens(ts, Render(ts, vals)).Some?
    decreases |ts|
  {
    if |ts| > 0 {
      var path := Render(ts, vals);
      match ts[0]
      case Ch(c) =>
        MatchComplete(ts[1..], vals);
        assert path[1..] == Render(ts[1..], vals);
      case Var(_, greedy) =>
        var v := vals[0];
        var tail := Render(ts[1..], vals[1..]);
        MatchComplete(ts[1..], vals[1..]);
        assert path == v + tail && path[|v|..] == tail;
        if greedy {
          LazyComplete(ts[1..], path, 0, |v|);
        } else {
          assert forall i :: 0 <= i < |v| ==> path[i] == v[i] && v[i] in v;
          SegmentRunAtLeast(path, |v|);
          SegmentComplete(ts[1..], path, SegmentRun(path), |v|);
        }
    }
  }

  lemma {:induction false} SegmentRunAtLeast(path: string, n: nat)
    requires n <= |path| && forall i :: 0 <= i < n ==> path[i] != '/'
    ensures n <= SegmentRun(path)
    decreases n
  {
    if n > 0 {
      assert forall i :: 0 <= i < n - 1 ==> path[1..][i] == path[i + 1];
      SegmentRunAtLeast(path[1..], n - 1);
    }
  }

  lemma {:induction false} LazyComplete(rest: seq<Token>, path: string, k: nat, k0: nat)
    requires k <= k0 <= |path| && MatchTokens(rest, path[k0..]).Some?
    ensures MatchLazy(rest, path, k).Some?
    decreases |path| - k
  {
    if MatchTokens(rest, path[k..]).None? {
      LazyComplete(rest, path, k + 1, k0);
    }
  }

  lemma {:induction false} SegmentComplete(rest: seq<Token>, path: string, k: nat, k0: nat)
    requires 1 <= k0 <= k <= |path| && MatchTokens(rest, path[k0..]).Some?
    ensures MatchSegment(rest, path, k).Some?
    decreases k
  {
    if MatchTokens(rest, path[k..]).None? {
      SegmentComplete(rest, path, k - 1, k0);
    }
  }

  // ---------------------------------------------------------------------
  // `ServiceOperationRouter.match`

  /** OPTIONS requests are matched as GET requests. */
  function NormalizedMethod(verb: string): (r: string)
    ensures verb != "OPTIONS" ==> r == verb
    ensures verb == "OPTIONS" ==> r == "GET"
  {
    if verb == "OPTIONS" then "GET" else verb
  }

  /** Trailing slashes are ignored on any path longer than one character. */
  function NormalizedPath(p: string): string
  {
    if |p| > 1 then RStripChar(p, '/') else p
  }

  /** The rule a path and method bind to: the first rule without a
      subdomain whose methods hold the method and whose rule string matches
      the path, with the values of its variables. */
  function FindRule(rules: seq<Rule>, verb: string, path: string): (r: Option<(Rule, seq<string>)>)
    ensures r.None? <==> forall i :: 0 <= i < |rules| ==>
      rules[i].subdomain.Some? || verb !in rules[i].methods || MatchTokens(RuleTokens(rules[i].ruleString), path).None?
    ensures r.Some? ==> (r.value.0 in rules && r.value.0.subdomain.None? && verb in r.value.0.methods &&
      MatchTokens(RuleTokens(r.value.0.ruleString), path) == Some(r.value.1))
  {
    if |rules| == 0 then None
    else
      var m := MatchTokens(RuleTokens(rules[0].ruleString), path);
      if rules[0].subdomain.None? && verb in rules[0].methods && m.Some? then Some((rules[0], m.value))
      else
        assert forall i :: 1 <= i < |rules| ==> rules[i] == rules[1..][i - 1];
        FindRule(rules[1..], verb, path)
  }

  /** The werkzeug rule arguments: names paired with values, a later
      duplicate name winning. */
  function RawArgs(names: seq<string>, vals: seq<string>): map<string, string>
    requires |names| == |vals|
  {
    if |names| == 0 then map[]
    else
      var n := |names| - 1;
      RawArgs(names[..n], vals[..n])[names[n] := vals[n]]
  }

  /** The keys are the names given. */
  lemma {:induction false} RawArgsKeys(names: seq<string>, vals: seq<string>)
    requires |names| == |vals|
    ensures RawArgs(names, vals).Keys == set i | 0 <= i < |names| :: names[i]
    decreases |names|
  {
    if |names| > 0 {
      var n := |names| - 1;
      RawArgsKeys(names[..n], vals[..n]);
      assert forall i :: 0 <= i < n ==> names[..n][i] == names[i];
      assert (set i | 0 <= i < |names| :: names[i]) == (set i | 0 <= i < n :: names[i]) + {names[n]};
    }
  }

  /** Each name holds the value of its last occurrence. */
  lemma {:induction false} RawArgsLast(names: seq<string>, vals: seq<string>, i: nat)
    requires |names| == |vals| && i < |names|
    requires forall j :: i < j < |names| ==> names[j] != names[i]
    ensures names[i] in RawArgs(names, vals) && RawArgs(names, vals)[names[i]] == vals[i]
    decreases |names|
  {
    var n := |names| - 1;
    if i < n {
      assert names[..n][i] == names[i] && vals[..n][i] == vals[i];
      assert forall j :: i < j < n ==> names[..n][j] == names[j];
      RawArgsLast(names[..n], vals[..n], i);
    }
  }

  /** The path arguments of an operation rule: the rule variable names
      un-sanitised and the values URL-unquoted, a later duplicate winning. */
  function PostArgs(c: Codecs, names: seq<string>, vals: seq<string>): map<string, string>
    requires |names| == |vals|
  {
    if |names| == 0 then map[]
    else
      var n := |names| - 1;
      PostArgs(c, names[..n], vals[..n])[PostProcess(names[n]) := c.unquote(vals[n])]
  }

  /** The keys are the names given. */
  lemma {:induction false} PostArgsKeys(c: Codecs, names: seq<string>, vals: seq<string>)
    requires |names| == |vals|
    ensures PostArgs(c, names, vals).Keys == set i | 0 <= i < |names| :: PostProcess(names[i])
    decreases |names|
  {
    if |names| > 0 {
      var n := |names| - 1;
      PostArgsKeys(c, names[..n], vals[..n]);
      assert forall i :: 0 <= i < n ==> names[..n][i] == names[i];
      assert (set i | 0 <= i < |names| :: PostProcess(names[i])) == (set i | 0 <= i < n :: PostProcess(names[i])) + {PostProcess(names[n])};
    }
  }

  /** Each un-sanitised name holds the unquoted value of its last occurrence. */
  lemma {:induction false} PostArgsLast(c: Codecs, names: seq<string>, vals: seq<string>, i: nat)
    requires |names| == |vals| && i < |names|
    requires forall j :: i < j < |names| ==> PostProcess(names[j]) != PostProcess(names[i])
    ensures PostProcess(names[i]) in PostArgs(c, names, vals)
    ensures PostArgs(c, names, vals)[PostProcess(names[i])] == c.unquote(vals[i])
    decreases |names|
  {
    var n := |names| - 1;
    if i < n {
      assert names[..n][i] == names[i] && vals[..n][i] == vals[i];
      assert forall j :: i < j < n ==> names[..n][j] == names[j];
      PostArgsLast(c, names[..n], vals[..n], i);
    }
  }

  /** What `match` does once it has the protocol's rules: the rule the
      method and path bind to, then the fine-grained rule or the action
      selector; every miss is `NotFound`. */
  function Dispatch(c: Codecs, rules: seq<Rule>, verb: string, path: string, req: Request): (r: Result<(OperationModel, map<string, string>), string>)
    ensures r.Failure? ==> r.error == "NotFound"
  {
    match FindRule(rules, verb, path)
    case None => Failure("NotFound")
    case Some(found) =>
      var rule := found.0;
      var vals := found.1;
      var names := VarNames(RuleTokens(rule.ruleString));
      MatchSound(RuleTokens(rule.ruleString), path);
      match rule.endpoint
      case OperationEndpoint(op) => Success((op, PostArgs(c, names, vals)))
      case MatchingEndpoint(ars) =>
        (match MatchRequest(ars, req.args, req.headers)
         case None => Failure("NotFound")
         case Some(ar) => Success((ar.endpoint, PostArgs(c, names, vals))))
      case SelectorEndpoint(cands) =>
        (match SelectAction(cands, req)
         case None => Failure("NotFound")
         case Some(op) => Success((op, RawArgs(names, vals))))
  }

  /** `match`: the protocol's rules (a missing protocol is a `KeyError`),
      dispatched on the normalised method and path. The protocol is the one
      determined from the request's content type. */
  function Match(c: Codecs, smap: map<string, seq<Rule>>, protocol: string, req: Request): (r: Result<(OperationModel, map<string, string>), string>)
    ensures r.Failure? ==> r.error == "KeyError" || r.error == "NotFound"
    ensures r.Failure? && r.error == "KeyError" <==> protocol !in smap
  {
    if protocol !in smap then Failure("KeyError")
    else Dispatch(c, smap[protocol], NormalizedMethod(req.verb), NormalizedPath(req.path), req)
  }

  /** Two requests whose `values` agree on every name. */
  ghost predicate SameValues(req: Request, req': Request)
  {
    forall n :: ValuesGet(req, n) == ValuesGet(req', n)
  }

  /** The constraints read the request's values and headers only. */
  lemma {:induction false} SelectActionReadsValues(cands: seq<Candidate>, req: Request, req': Request)
    requires SameValues(req, req') && req.headers == req'.headers
    ensures SelectAction(cands, req) == SelectAction(cands, req')
    decreases |cands|
  {
    assert forall cand :: AcceptsAll(cand, req) == AcceptsAll(cand, req') by {
      forall cand ensures AcceptsAll(cand, req) == AcceptsAll(cand, req') {
        assert forall k :: 0 <= k < |cand.constraints| ==> Accepts(cand.constraints[k], req) == Accepts(cand.constraints[k], req');
      }
    }
    if |cands| > 0 {
      SelectActionReadsValues(cands[1..], req, req');
    }
  }

  lemma DispatchReadsValues(c: Codecs, rules: seq<Rule>, verb: string, path: string, req: Request, req': Request)
    requires SameValues(req, req') && req.args == req'.args && req.headers == req'.headers
    ensures Dispatch(c, rules, verb, path, req) == Dispatch(c, rules, verb, path, req')
  {
    match FindRule(rules, verb, path)
    case None =>
    case Some(found) =>
      if found.0.endpoint.SelectorEndpoint? {
        SelectActionReadsValues(found.0.endpoint.candidates, req, req');
      }
  }

  /** An OPTIONS request is matched against the rules as a GET request. It
      is routed exactly as the same GET request when its form adds nothing
      to `values`, that is when every form name is also a query argument:
      werkzeug reads the form of an OPTIONS request but not of a GET one. */
  lemma MatchOptionsAsGet(c: Codecs, smap: map<string, seq<Rule>>, protocol: string, req: Request)
    requires req.verb == "OPTIONS"
    ensures protocol in smap ==>
      Match(c, smap, protocol, req) == Dispatch(c, smap[protocol], "GET", NormalizedPath(req.path), req)
    ensures (forall n :: First(req.form, n).Some? ==> First(req.args, n).Some?) ==>
      Match(c, smap, protocol, req) == Match(c, smap, protocol, req.(verb := "GET"))
  {
    if protocol in smap && forall n :: First(req.form, n).Some? ==> First(req.args, n).Some? {
      assert SameValues(req, req.(verb := "GET"));
      DispatchReadsValues(c, smap[protocol], "GET", NormalizedPath(req.path), req, req.(verb := "GET"));
    }
  }

  /** Stripping trailing slashes from a path without one gives it back. */
  lemma {:induction false} RStripSlashes(p: string, slashes: string)
    requires forall i :: 0 <= i < |slashes| ==> slashes[i] == '/'
    requires |p| > 0 && p[|p| - 1] != '/'
    ensures RStripChar(p + slashes, '/') == p
    decreases |slashes|
  {
    if |slashes| > 0 {
      var n := |slashes| - 1;
      assert (p + slashes)[..|p + slashes| - 1] == p + slashes[..n];
      RStripSlashes(p, slashes[..n]);
    } else {
      assert p + slashes == p;
    }
  }

  /** Trailing slashes do not change the route of a path that does not
      end in one. */
  lemma TrailingSlashIgnored(c: Codecs, smap: map<string, seq<Rule>>, protocol: string, req: Request, slashes: string)
    requires forall i :: 0 <= i < |slashes| ==> slashes[i] == '/'
    requires |req.path| > 0 && req.path[|req.path| - 1] != '/'
    ensures Match(c, smap, protocol, req.(path := req.path + slashes)) == Match(c, smap, protocol, req)
  {
    RStripSlashes(req.path, slashes);
    RStripSlashes(req.path, "");
    assert NormalizedPath(req.path + slashes) == NormalizedPath(req.path);
    if protocol in smap {
      assert SameValues(req, req.(path := req.path + slashes));
      DispatchReadsValues(c, smap[protocol], NormalizedMethod(req.verb), NormalizedPath(req.path), req, req.(path := req.path + slashes));
    }
  }

  /** A matched operation comes from a rule of the protocol that binds the
      normalised method and path, and the returned arguments are named
      after that rule's variables. */
  lemma MatchFound(c: Codecs, smap: map<string, seq<Rule>>, protocol: string, req: Request)
    requires Match(c, smap, protocol, req).Success?
    ensures protocol in smap
    ensures var found := FindRule(smap[protocol], NormalizedMethod(req.verb), NormalizedPath(req.path));
      found.Some? && found.value.0 in smap[protocol] && NormalizedMethod(req.verb) in found.value.0.methods &&
      var ts := RuleTokens(found.value.0.ruleString);
      |found.value.1| == |VarNames(ts)| && Render(ts, found.value.1) == NormalizedPath(req.path) &&
      (found.value.0.endpoint.SelectorEndpoint? ==>
        Match(c, smap, protocol, req).value.1.Keys == set i | 0 <= i < |VarNames(ts)| :: VarNames(ts)[i]) &&
      (!found.value.0.endpoint.SelectorEndpoint? ==>
        Match(c, smap, protocol, req).value.1.Keys == set i | 0 <= i < |VarNames(ts)| :: PostProcess(VarNames(ts)[i]))
  {
    var found := FindRule(smap[protocol], NormalizedMethod(req.verb), NormalizedPath(req.path));
    var rule := found.value.0;
    var vals := found.value.1;
    var names := VarNames(RuleTokens(rule.ruleString));
    MatchSound(RuleTokens(rule.ruleString), NormalizedPath(req.path));
    if rule.endpoint.SelectorEndpoint? {
      RawArgsKeys(names, vals);
    } else {
      PostArgsKeys(c, names, vals);
    }
  }
}
