/** The REST request parsers (`BaseRestParser`, `RestJSONParser`,
    `RestXMLParser` in moto/core/parse.py): the operation is chosen from the
    HTTP method and the path, members bound to headers, the URI and the
    query string are read first, and the body (or one payload member) is
    decoded with the JSON or the XML decoder. */
module RestDecode {
  import opened Wrappers
  import opened Values
  import opened Strs
  import opened Shapes
  import J = JsonDecode
  import X = XmlDecode

  // ---------------------------------------------------------------------
  // URI templates.

  /** One `/`-separated element of a request URI template, as a regular
      expression: a literal, or a named group. `slash` is a group that may
      span `/` (`.`), `nonEmpty` one that needs at least one character. */
  datatype Piece = Literal(text: string) | Capture(name: string, slash: bool, nonEmpty: bool)

  /** `{...}` placeholders. */
  predicate IsPlaceholder(elem: string)
  {
    |elem| >= 2 && elem[0] == '{' && elem[|elem| - 1] == '}'
  }

  /** The group name of a placeholder: braces and `+` dropped, `-` as `_`. */
  function GroupName(elem: string): (r: string)
    ensures '{' !in r && '}' !in r && '+' !in r && '-' !in r
    ensures |r| <= |elem|
  {
    if |elem| == 0 then ""
    else if elem[0] in "{}+" then GroupName(elem[1..])
    else [if elem[0] == '-' then '_' else elem[0]] + GroupName(elem[1..])
  }

  /** `_convert`: a placeholder in the last element is non-empty, and may
      span `/` when it carries `+`; elsewhere it may be empty but not span. */
  function Convert(elem: string, isLast: bool): (r: Piece)
    ensures !IsPlaceholder(elem) ==> r == Literal(elem)
    ensures r.Capture? ==> r.name == GroupName(elem) && (r.slash ==> isLast) && (r.nonEmpty <==> isLast)
    ensures r.Capture? && isLast ==> (r.slash <==> '+' in elem)
  {
    if !IsPlaceholder(elem) then Literal(elem)
    else if isLast then Capture(GroupName(elem), '+' in elem, true)
    else Capture(GroupName(elem), false, false)
  }

  /** The pieces of a template path: one per `/`-separated element. */
  function UriPattern(uri: string): (r: seq<Piece>)
    ensures |r| == |Split(uri, '/')| && |r| >= 1
    ensures forall i :: 0 <= i < |r| ==> r[i] == Convert(Split(uri, '/')[i], i == |r| - 1)
  {
    var elems := Split(uri, '/');
    seq(|elems|, i requires 0 <= i < |elems| => Convert(elems[i], i == |elems| - 1))
  }

  /** The regular-expression text of one piece. */
  function PieceRegexp(p: Piece): string
  {
    match p
    case Literal(t) => t
    case Capture(n, slash, nonEmpty) =>
      "(?P<" + n + ">" + (if slash then "." else "[^/]") + (if nonEmpty then "+" else "*") + ")"
  }

  function PieceRegexps(ps: seq<Piece>): (r: seq<string>)
    ensures |r| == |ps| && forall i :: 0 <= i < |ps| ==> r[i] == PieceRegexp(ps[i])
  {
    seq(|ps|, i requires 0 <= i < |ps| => PieceRegexp(ps[i]))
  }

  /** `uri_to_regexp`: the pieces joined by `/`, anchored at both ends. */
  function UriToRegexp(uri: string): (r: string)
    ensures r == "^" + Join(PieceRegexps(UriPattern(uri)), "/") + "$"
    ensures |r| >= 2 && r[0] == '^' && r[|r| - 1] == '$'
  {
    "^" + Join(PieceRegexps(UriPattern(uri)), "/") + "$"
  }

  /** A template without placeholders matches only itself: its regular
      expression is the template text, anchored. */
  lemma LiteralUriRegexp(uri: string)
    requires forall i :: 0 <= i < |Split(uri, '/')| ==> !IsPlaceholder(Split(uri, '/')[i])
    ensures UriToRegexp(uri) == "^" + uri + "$"
  {
    assert PieceRegexps(UriPattern(uri)) == Split(uri, '/');
    JoinSplit(uri, '/');
  }

  /** The text before the first occurrence of `c`. */
  function Before(s: string, c: char): (r: string)
    ensures r <= s && c !in r
    ensures c !in s ==> r == s
  {
    match IndexOf(s, c)
    case None => s
    case Some(i) => s[..i]
  }

  /** `urlparse(uri).path` for a path-only request URI: the query and the
      fragment are cut off. */
  function UriPath(uri: string): (r: string)
    ensures r <= uri && '?' !in r && '#' !in r
  {
    Before(Before(uri, '#'), '?')
  }

  /** The groups a regular expression match binds, by name. */
  type Groups = map<string, string>

  /** A non-spanning piece against one path element. */
  predicate PieceMatches(p: Piece, part: string)
  {
    match p
    case Literal(t) => part == t
    case Capture(_, _, nonEmpty) => !nonEmpty || part != ""
  }

  function Bind(g: Groups, p: Piece, part: string): Groups
  {
    if p.Capture? then g[p.name := part] else g
  }

  /** Element-wise match of pieces against path elements. */
  function MatchElements(ps: seq<Piece>, parts: seq<string>, g: Groups): (r: Option<Groups>)
    requires |ps| == |parts|
    ensures r.Some? <==> forall i :: 0 <= i < |ps| ==> PieceMatches(ps[i], parts[i])
  {
    if |ps| == 0 then Some(g)
    else if PieceMatches(ps[0], parts[0]) then MatchElements(ps[1..], parts[1..], Bind(g, ps[0], parts[0]))
    else None
  }

  /** `re.match(uri_to_regexp(...), path)` on a template's pieces. The
      pieces cannot contain `/` except in a spanning last group, so a match
      pairs each piece with one element of the path, and a spanning last
      group takes all remaining elements. */
  function MatchPattern(ps: seq<Piece>, path: string): (r: Option<Groups>)
    requires |ps| >= 1
  {
    var parts := Split(path, '/');
    var n := |ps|;
    var last := ps[n - 1];
    if last.Capture? && last.slash then
      if |parts| < n then None
      else
        var rest := Join(parts[n - 1..], "/");
        if rest == "" then None
        else
          match MatchElements(ps[..n - 1], parts[..n - 1], map[])
          case None => None
          case Some(g) => Some(g[last.name := rest])
    else if |parts| != n then None
    else MatchElements(ps, parts, map[])
  }

  /** The template's pieces filled in with the groups of a match. */
  function Fill(ps: seq<Piece>, g: Groups): (r: seq<string>)
    requires forall i :: 0 <= i < |ps| && ps[i].Capture? ==> ps[i].name in g
    ensures |r| == |ps|
  {
    seq(|ps|, i requires 0 <= i < |ps| => if ps[i].Capture? then g[ps[i].name] else ps[i].text)
  }

  predicate DistinctNames(ps: seq<Piece>)
  {
    forall i, j :: 0 <= i < j < |ps| && ps[i].Capture? && ps[j].Capture? ==> ps[i].name != ps[j].name
  }

  /** The groups of an element-wise match, and the elements they come from. */
  lemma {:induction false} MatchElementsBinds(ps: seq<Piece>, parts: seq<string>, g: Groups)
    requires |ps| == |parts| && DistinctNames(ps)
    requires MatchElements(ps, parts, g).Some?
    ensures var r := MatchElements(ps, parts, g).value;
      g.Keys <= r.Keys &&
      (forall k :: k in g && (forall i :: 0 <= i < |ps| && ps[i].Capture? ==> ps[i].name != k) ==> r[k] == g[k]) &&
      (forall i :: 0 <= i < |ps| && ps[i].Capture? ==> ps[i].name in r && r[ps[i].name] == parts[i])
    decreases |ps|
  {
    if |ps| > 0 {
      var g' := Bind(g, ps[0], parts[0]);
      assert DistinctNames(ps[1..]) by {
        forall i, j | 0 <= i < j < |ps[1..]| && ps[1..][i].Capture? && ps[1..][j].Capture?
          ensures ps[1..][i].name != ps[1..][j].name
        {
          assert ps[1..][i] == ps[i + 1] && ps[1..][j] == ps[j + 1];
        }
      }
      MatchElementsBinds(ps[1..], parts[1..], g');
      var r := MatchElements(ps, parts, g).value;
      assert r == MatchElements(ps[1..], parts[1..], g').value;
      forall i | 0 <= i < |ps| && ps[i].Capture?
        ensures ps[i].name in r && r[ps[i].name] == parts[i]
      {
        if i > 0 {
          assert ps[1..][i - 1] == ps[i] && parts[1..][i - 1] == parts[i];
        } else {
          forall i' | 0 <= i' < |ps[1..]| && ps[1..][i'].Capture?
            ensures ps[1..][i'].name != ps[0].name
          {
            assert ps[1..][i'] == ps[i' + 1];
          }
        }
      }
      forall k | k in g && (forall i :: 0 <= i < |ps| && ps[i].Capture? ==> ps[i].name != k)
        ensures r[k] == g[k]
      {
        forall i' | 0 <= i' < |ps[1..]| && ps[1..][i'].Capture?
          ensures ps[1..][i'].name != k
        {
          assert ps[1..][i'] == ps[i' + 1];
        }
      }
    }
  }

  /** `Join` splits at any point: joining a head, `/`, and the joined rest. */
  lemma {:induction false} JoinAppend(parts: seq<string>, k: nat)
    requires 0 < k < |parts|
    ensures Join(parts, "/") == Join(parts[..k], "/") + "/" + Join(parts[k..], "/")
    decreases k
  {
    if k > 1 {
      JoinAppend(parts[1..], k - 1);
      assert parts[1..][..k - 1] == parts[1..k];
      assert parts[1..][k - 1..] == parts[k..];
      assert parts[..k][1..] == parts[1..k];
    } else {
      assert parts[1..] == parts[k..];
    }
  }

  /** A path that matches a template is that template filled in with the
      groups the match binds: the groups hold exactly the path's text. */
  lemma MatchRenders(ps: seq<Piece>, path: string)
    requires |ps| >= 1 && DistinctNames(ps)
    requires MatchPattern(ps, path).Some?
    ensures var g := MatchPattern(ps, path).value;
      (forall i :: 0 <= i < |ps| && ps[i].Capture? ==> ps[i].name in g) &&
      Join(Fill(ps, g), "/") == path
  {
    if ps[|ps| - 1].Capture? && ps[|ps| - 1].slash {
      MatchRendersGreedy(ps, path);
    } else {
      MatchRendersPlain(ps, path);
    }
  }

  /** The case of a greedy last capture, which takes the rest of the path. */
  lemma MatchRendersGreedy(ps: seq<Piece>, path: string)
    requires |ps| >= 1 && DistinctNames(ps)
    requires MatchPattern(ps, path).Some?
    requires ps[|ps| - 1].Capture? && ps[|ps| - 1].slash
    ensures var g := MatchPattern(ps, path).value;
      (forall i :: 0 <= i < |ps| && ps[i].Capture? ==> ps[i].name in g) &&
      Join(Fill(ps, g), "/") == path
  {
    var parts := Split(path, '/');
    var n := |ps|;
    var last := ps[n - 1];
    var g := MatchPattern(ps, path).value;
    JoinSplit(path, '/');
    var front := ps[..n - 1];
    assert DistinctNames(front) by {
      forall i, j | 0 <= i < j < |front| && front[i].Capture? && front[j].Capture?
        ensures front[i].name != front[j].name
      {
        assert front[i] == ps[i] && front[j] == ps[j];
      }
    }
    var g0 := MatchElements(front, parts[..n - 1], map[]).value;
    MatchElementsBinds(front, parts[..n - 1], map[]);
    assert g == g0[last.name := Join(parts[n - 1..], "/")];
    var f := Fill(ps, g);
    forall i | 0 <= i < n - 1
      ensures f[i] == parts[i]
    {
      assert front[i] == ps[i];
      assert parts[..n - 1][i] == parts[i];
      if ps[i].Capture? {
        assert ps[i].name != last.name;
      } else {
        assert PieceMatches(front[i], parts[..n - 1][i]);
      }
    }
    assert f[n - 1] == Join(parts[n - 1..], "/");
    if n > 1 {
      assert f[..n - 1] == parts[..n - 1];
      JoinAppend(f, n - 1);
      JoinAppend(parts, n - 1);
      assert f[n - 1..] == [f[n - 1]];
    } else {
      assert parts[n - 1..] == parts;
    }
  }

  /** The case where every piece takes one segment. */
  lemma MatchRendersPlain(ps: seq<Piece>, path: string)
    requires |ps| >= 1 && DistinctNames(ps)
    requires MatchPattern(ps, path).Some?
    requires !(ps[|ps| - 1].Capture? && ps[|ps| - 1].slash)
    ensures var g := MatchPattern(ps, path).value;
      (forall i :: 0 <= i < |ps| && ps[i].Capture? ==> ps[i].name in g) &&
      Join(Fill(ps, g), "/") == path
  {
    var parts := Split(path, '/');
    var n := |ps|;
    var last := ps[n - 1];
    var g := MatchPattern(ps, path).value;
    JoinSplit(path, '/');
    MatchElementsBinds(ps, parts, map[]);
    var f := Fill(ps, g);
    forall i | 0 <= i < n
      ensures f[i] == parts[i]
    {
      if !ps[i].Capture? {
        assert PieceMatches(ps[i], parts[i]);
      }
    }
    assert f == parts;
  }

  // ---------------------------------------------------------------------
  // Choosing the operation.

  /** An operation whose `http` trait has both a method and a request URI. */
  predicate HasRoute(op: OperationModel)
  {
    op.http.verb.Some? && op.http.requestUri.Some?
  }

  function Route(op: OperationModel): seq<Piece>
    requires HasRoute(op)
  {
    UriPattern(UriPath(op.http.requestUri.value))
  }

  function RouteRegexp(op: OperationModel): string
    requires HasRoute(op)
  {
    UriToRegexp(UriPath(op.http.requestUri.value))
  }

  predicate AllRouted(ops: seq<OperationModel>)
  {
    forall k :: 0 <= k < |ops| ==> HasRoute(ops[k])
  }

  /** Operation `k` is bound to `verb` and is the first of them with its
      regular expression: it is where that expression enters the table. */
  predicate FirstOfRegexp(ops: seq<OperationModel>, verb: string, k: nat)
    requires AllRouted(ops) && k < |ops|
  {
    ops[k].http.verb == Some(verb) &&
    forall j :: 0 <= j < k && ops[j].http.verb == Some(verb) ==> RouteRegexp(ops[j]) != RouteRegexp(ops[k])
  }

  /** One registration of the table: an operation's method, regular
      expression and name. */
  datatype Entry = Entry(verb: Option<string>, rx: string, name: string)

  /** The registrations, one per operation, in order. */
  function Table(ops: seq<OperationModel>): (t: seq<Entry>)
    requires AllRouted(ops)
    ensures |t| == |ops| && forall k :: 0 <= k < |ops| ==> t[k] == Entry(ops[k].http.verb, RouteRegexp(ops[k]), ops[k].name)
  {
    seq(|ops|, k requires 0 <= k < |ops| => Entry(ops[k].http.verb, RouteRegexp(ops[k]), ops[k].name))
  }

  /** Entry `k` registers `rx` for `verb`. */
  predicate Registers(t: seq<Entry>, verb: string, rx: string, k: nat)
    requires k < |t|
  {
    t[k].verb == Some(verb) && t[k].rx == rx
  }

  /** The name the table keeps for a regular expression: the last entry
      registering it for `verb`, among the first `n`. */
  function LastNamed(t: seq<Entry>, verb: string, rx: string, n: nat): Option<string>
    requires n <= |t|
  {
    if n == 0 then None
    else if Registers(t, verb, rx, n - 1) then Some(t[n - 1].name)
    else LastNamed(t, verb, rx, n - 1)
  }

  /** A name is kept exactly when some entry among the first `n` registers
      the expression for `verb`. */
  lemma {:induction false} LastNamedFound(t: seq<Entry>, verb: string, rx: string, n: nat)
    requires n <= |t|
    ensures LastNamed(t, verb, rx, n).Some? <==> exists k :: 0 <= k < n && Registers(t, verb, rx, k)
  {
    if n > 0 && !Registers(t, verb, rx, n - 1) {
      LastNamedFound(t, verb, rx, n - 1);
    }
  }

  /** The name kept is that of the last such entry. */
  lemma {:induction false} LastNamedLast(t: seq<Entry>, verb: string, rx: string, n: nat)
    requires n <= |t| && LastNamed(t, verb, rx, n).Some?
    ensures exists k :: (0 <= k < n && Registers(t, verb, rx, k) && t[k].name == LastNamed(t, verb, rx, n).value &&
      forall j :: k < j < n ==> !Registers(t, verb, rx, j))
  {
    if !Registers(t, verb, rx, n - 1) {
      LastNamedLast(t, verb, rx, n - 1);
    }
  }

  /** The operation chosen for `verb` and `path`, and the groups of the
      match that chose it, trying the table's expressions from `k` on. */
  function SelectRoute(ops: seq<OperationModel>, verb: string, path: string, k: nat): (string, Option<Groups>)
    requires AllRouted(ops) && k <= |ops|
    decreases |ops| - k
  {
    if k == |ops| then ("UnknownOperation", None)
    else if Candidate(ops, verb, path, k) then
      (LastNamed(Table(ops), verb, RouteRegexp(ops[k]), |ops|).GetOr(""), MatchPattern(Route(ops[k]), path))
    else SelectRoute(ops, verb, path, k + 1)
  }

  /** `BaseRestParser._parse_action`: an operation without a method or a
      request URI raises `KeyError` while the table is built. */
  function RestAction(ops: seq<OperationModel>, verb: string, path: string): (r: Result<(string, Option<Groups>), string>)
    ensures r.Failure? <==> !AllRouted(ops)
    ensures r.Failure? ==> r.error == "KeyError"
  {
    if !AllRouted(ops) then Failure("KeyError")
    else Success(SelectRoute(ops, verb, path, 0))
  }

  /** Operation `k` enters the table for `verb` and its expression matches the path. */
  predicate Candidate(ops: seq<OperationModel>, verb: string, path: string, k: nat)
    requires AllRouted(ops) && k < |ops|
  {
    FirstOfRegexp(ops, verb, k) && MatchPattern(Route(ops[k]), path).Some?
  }

  /** When no expression of the method matches, the choice is
      `UnknownOperation` with no match. */
  lemma {:induction false} SelectRouteUnknown(ops: seq<OperationModel>, verb: string, path: string, k: nat)
    requires AllRouted(ops) && k <= |ops|
    requires forall j :: k <= j < |ops| ==> !Candidate(ops, verb, path, j)
    ensures SelectRoute(ops, verb, path, k) == ("UnknownOperation", None)
    decreases |ops| - k
  {
    if k < |ops| {
      assert !Candidate(ops, verb, path, k);
      SelectRouteUnknown(ops, verb, path, k + 1);
    }
  }

  /** Otherwise the first expression that matches is chosen, named by the
      last operation that registered it, with that match's groups. */
  lemma SelectRouteFirst(ops: seq<OperationModel>, verb: string, path: string, k: nat, j: nat)
    requires AllRouted(ops) && k <= j < |ops|
    requires Candidate(ops, verb, path, j)
    requires forall i :: k <= i < j ==> !Candidate(ops, verb, path, i)
    ensures SelectRoute(ops, verb, path, k).1 == MatchPattern(Route(ops[j]), path)
    ensures Some(SelectRoute(ops, verb, path, k).0) == LastNamed(Table(ops), verb, RouteRegexp(ops[j]), |ops|)
  {
    SelectRouteSkips(ops, verb, path, k, j);
    SelectRouteHere(ops, verb, path, j);
  }

  /** Expressions that do not match are passed over. */
  lemma {:induction false} SelectRouteSkips(ops: seq<OperationModel>, verb: string, path: string, k: nat, j: nat)
    requires AllRouted(ops) && k <= j < |ops|
    requires forall i :: k <= i < j ==> !Candidate(ops, verb, path, i)
    ensures SelectRoute(ops, verb, path, k) == SelectRoute(ops, verb, path, j)
    decreases j - k
  {
    if k < j {
      SelectRoutePasses(ops, verb, path, k);
      SelectRouteSkips(ops, verb, path, k + 1, j);
    }
  }

  /** One expression that does not match is passed over. */
  lemma SelectRoutePasses(ops: seq<OperationModel>, verb: string, path: string, k: nat)
    requires AllRouted(ops) && k < |ops| && !Candidate(ops, verb, path, k)
    ensures SelectRoute(ops, verb, path, k) == SelectRoute(ops, verb, path, k + 1)
  {
  }

  /** A candidate is chosen with its own match, named from the table. */
  lemma SelectRouteHere(ops: seq<OperationModel>, verb: string, path: string, j: nat)
    requires AllRouted(ops) && j < |ops| && Candidate(ops, verb, path, j)
    ensures SelectRoute(ops, verb, path, j).1 == MatchPattern(Route(ops[j]), path)
    ensures Some(SelectRoute(ops, verb, path, j).0) == LastNamed(Table(ops), verb, RouteRegexp(ops[j]), |ops|)
  {
    var t := Table(ops);
    var rx := RouteRegexp(ops[j]);
    assert t[j] == Entry(ops[j].http.verb, rx, ops[j].name);
    assert Registers(t, verb, rx, j);
    LastNamedFound(t, verb, rx, |ops|);
  }

  /** A method with no operation yields `UnknownOperation` and no match. */
  lemma UnknownVerb(ops: seq<OperationModel>, verb: string, path: string)
    requires AllRouted(ops)
    requires forall k :: 0 <= k < |ops| ==> ops[k].http.verb != Some(verb)
    ensures RestAction(ops, verb, path) == Success(("UnknownOperation", None))
  {
    SelectRouteUnknown(ops, verb, path, 0);
  }

  // ---------------------------------------------------------------------
  // The request.

  datatype Header = Header(name: string, value: string)

  /** A query-string value: one text, or a list of them. */
  datatype Raw = RawText(t: string) | RawList(ts: seq<string>)

  datatype Request = Request(
    verb: string,
    path: string,
    headers: seq<Header>,
    qs: map<string, Raw>,
    body: string)

  datatype Protocol = RestJsonProtocol | RestXmlProtocol

  /** The JSON text reader and the XML reader, as parameters. */
  datatype Readers = Readers(loads: string -> Option<J.Json>, parseXml: string -> Option<X.XNode>)

  /** A header value by its exact name; the last header of that name wins. */
  function HeaderGet(hs: seq<Header>, name: string): (r: Option<string>)
    ensures r.None? <==> forall i :: 0 <= i < |hs| ==> hs[i].name != name
  {
    if |hs| == 0 then None
    else if hs[|hs| - 1].name == name then Some(hs[|hs| - 1].value)
    else HeaderGet(hs[..|hs| - 1], name)
  }

  /** A raw text or list handed to the protocol's shape decoder. */
  function DecodeRaw(p: Protocol, c: Codecs, s: Shape, raw: Raw): Decoded
  {
    match p
    case RestJsonProtocol =>
      J.ParseShape(J.RestJson, c, s,
        match raw
        case RawText(t) => J.JStr(t)
        case RawList(ts) => J.JArray(seq(|ts|, i requires 0 <= i < |ts| => J.JStr(ts[i]))))
    case RestXmlProtocol =>
      X.ParseShape(c, s,
        match raw
        case RawText(t) => X.XText(t)
        case RawList(ts) => X.XTexts(ts))
  }

  /** The query string itself, as the value of a map member. */
  function QueryValue(qs: map<string, Raw>): Value
  {
    VDict(map k | k in qs :: match qs[k]
      case RawText(t) => VStr(t)
      case RawList(ts) => VList(seq(|ts|, i requires 0 <= i < |ts| => VStr(ts[i]))))
  }

  /** A header whose lower-cased name begins with the prefix. */
  predicate Prefixed(h: Header, prefix: string)
  {
    StartsWith(Lower(h.name), prefix)
  }

  /** `_parse_header_map` over the first `n` headers: each header whose
      lower-cased name starts with the prefix, keyed by the rest of its name. */
  function HeaderMapOf(prefix: string, hs: seq<Header>, n: nat): map<string, Value>
    requires n <= |hs|
  {
    if n == 0 then map[]
    else
      var d := HeaderMapOf(prefix, hs, n - 1);
      var h := hs[n - 1];
      if Prefixed(h, prefix) then d[h.name[|prefix|..] := VStr(h.value)] else d
  }

  function HeaderMap(s: Shape, hs: seq<Header>): map<string, Value>
  {
    HeaderMapOf(Lower(s.ser.name.GetOr("")), hs, |hs|)
  }

  /** The header map holds a key exactly when some prefixed header names
      it, and its value is that of the last such header. */
  lemma {:induction false} HeaderMapKeys(prefix: string, hs: seq<Header>, n: nat)
    requires n <= |hs|
    ensures forall k :: k in HeaderMapOf(prefix, hs, n) <==>
      exists i :: 0 <= i < n && Prefixed(hs[i], prefix) && hs[i].name[|prefix|..] == k
  {
    if n > 0 {
      HeaderMapKeys(prefix, hs, n - 1);
      var h := hs[n - 1];
      forall k
        ensures k in HeaderMapOf(prefix, hs, n) <==>
          exists i :: 0 <= i < n && Prefixed(hs[i], prefix) && hs[i].name[|prefix|..] == k
      {
        if Prefixed(h, prefix) && h.name[|prefix|..] == k {
          assert 0 <= n - 1 < n && Prefixed(hs[n - 1], prefix) && hs[n - 1].name[|prefix|..] == k;
        } else {
          assert k in HeaderMapOf(prefix, hs, n) <==> k in HeaderMapOf(prefix, hs, n - 1);
          assert !(Prefixed(hs[n - 1], prefix) && hs[n - 1].name[|prefix|..] == k);
        }
      }
    }
  }

  /** A header the later ones do not shadow gives its value. */
  lemma {:induction false} HeaderMapLast(prefix: string, hs: seq<Header>, n: nat, i: nat)
    requires i < n <= |hs| && Prefixed(hs[i], prefix)
    requires forall j :: i < j < n && Prefixed(hs[j], prefix) ==> hs[j].name[|prefix|..] != hs[i].name[|prefix|..]
    ensures hs[i].name[|prefix|..] in HeaderMapOf(prefix, hs, n)
    ensures HeaderMapOf(prefix, hs, n)[hs[i].name[|prefix|..]] == VStr(hs[i].value)
  {
    if i < n - 1 {
      HeaderMapLast(prefix, hs, n - 1, i);
    }
  }

  // ---------------------------------------------------------------------
  // Members outside the body.

  /** What one member does to the parsed dictionary: go on, stop the whole
      walk (`return`), or raise. */
  datatype Step = Next(acc: map<string, Value>) | Stop(acc: map<string, Value>) | Fail(err: string)

  function OfDecoded(d: Decoded, acc: map<string, Value>, name: string): Step
  {
    match d
    case Ok(v) => Next(acc[name := v])
    case Raised(e) => Fail(e)
  }

  /** The body of the loop in `_parse_non_payload_attrs` for one member. */
  function MemberStep(p: Protocol, c: Codecs, req: Request, um: Option<Groups>, m: Member,
                      acc: map<string, Value>): Step
  {
    var s := m.shape;
    var key := SerializedName(s, m.name);
    match s.ser.location
    case None => Next(acc)
    case Some(loc) =>
      if loc == "headers" then Next(acc[m.name := VDict(HeaderMap(s, req.headers))])
      else if loc == "header" then
        match HeaderGet(req.headers, key)
        case None => Next(acc)
        case Some(v) => OfDecoded(DecodeRaw(p, c, s, RawText(v)), acc, m.name)
      else if loc == "uri" then
        if um.Some? && key in um.value then
          match DecodeRaw(p, c, s, RawText(c.unquote(um.value[key])))
          case Raised("IndexError") => Next(acc)
          case d => OfDecoded(d, acc, m.name)
        else Next(acc)
      else if loc == "querystring" then
        if s.ListOf? then
          OfDecoded(DecodeRaw(p, c, s, if key in req.qs then req.qs[key] else RawList([])), acc, m.name)
        else if s.MapOf? then Stop(acc[m.name := QueryValue(req.qs)])
        else if key !in req.qs then Stop(acc)
        else OfDecoded(DecodeRaw(p, c, s, req.qs[key]), acc, m.name)
      else Next(acc)
  }

  /** The walk over the input structure's members from `i` on. */
  function NonPayload(p: Protocol, c: Codecs, req: Request, um: Option<Groups>, ms: seq<Member>, i: nat,
                      acc: map<string, Value>): Result<map<string, Value>, string>
    requires i <= |ms|
    decreases |ms| - i
  {
    if i == |ms| then Success(acc)
    else
      match MemberStep(p, c, req, um, ms[i], acc)
      case Next(a) => NonPayload(p, c, req, um, ms, i + 1, a)
      case Stop(a) => Success(a)
      case Fail(e) => Failure(e)
  }

  /** `_parse_non_payload_attrs`, updating `finalParsed` member by member. */
  method ParseNonPayloadAttrs(p: Protocol, c: Codecs, req: Request, um: Option<Groups>, ms: seq<Member>,
                              finalParsed: map<string, Value>) returns (r: Result<map<string, Value>, string>)
    ensures r == NonPayload(p, c, req, um, ms, 0, finalParsed)
  {
    var parsed := finalParsed;
    var i := 0;
    while i < |ms|
      invariant 0 <= i <= |ms|
      invariant NonPayload(p, c, req, um, ms, 0, finalParsed) == NonPayload(p, c, req, um, ms, i, parsed)
      decreases |ms| - i
    {
      var m := ms[i];
      var s := m.shape;
      var key := SerializedName(s, m.name);
      if s.ser.location.None? {
        i := i + 1;
        continue;
      }
      var loc := s.ser.location.value;
      if loc == "headers" {
        parsed := parsed[m.name := VDict(HeaderMap(s, req.headers))];
      } else if loc == "header" {
        var v := HeaderGet(req.headers, key);
        if v.Some? {
          var d := DecodeRaw(p, c, s, RawText(v.value));
          if d.Raised? {
            return Failure(d.err);
          }
          parsed := parsed[m.name := d.v];
        }
      } else if loc == "uri" {
        if um.Some? && key in um.value {
          var d := DecodeRaw(p, c, s, RawText(c.unquote(um.value[key])));
          if d.Raised? && d.err != "IndexError" {
            return Failure(d.err);
          } else if d.Ok? {
            parsed := parsed[m.name := d.v];
          }
        }
      } else if loc == "querystring" {
        var value: Raw;
        if s.ListOf? {
          value := if key in req.qs then req.qs[key] else RawList([]);
        } else if s.MapOf? {
          parsed := parsed[m.name := QueryValue(req.qs)];
          return Success(parsed);
        } else {
          if key !in req.qs {
            return Success(parsed);
          }
          value := req.qs[key];
        }
        var d := DecodeRaw(p, c, s, value);
        if d.Raised? {
          return Failure(d.err);
        }
        parsed := parsed[m.name := d.v];
      }
      i := i + 1;
    }
    return Success(parsed);
  }

  /** A member that ends the walk: a map bound to the query string, or a
      scalar or structure whose query parameter is absent. */
  predicate Stops(req: Request, m: Member)
  {
    m.shape.ser.location == Some("querystring") && !m.shape.ListOf? &&
    (m.shape.MapOf? || SerializedName(m.shape, m.name) !in req.qs)
  }

  /** Members after one that stops the walk are never read. */
  lemma {:induction false} StopIgnoresRest(p: Protocol, c: Codecs, req: Request, um: Option<Groups>, ms: seq<Member>,
                                           i: nat, j: nat, acc: map<string, Value>)
    requires i <= j < |ms| && Stops(req, ms[j])
    ensures NonPayload(p, c, req, um, ms, i, acc) == NonPayload(p, c, req, um, ms[..j + 1], i, acc)
    decreases j - i
  {
    var pre := ms[..j + 1];
    assert pre[i] == ms[i];
    if i < j {
      match MemberStep(p, c, req, um, ms[i], acc)
      case Next(a) =>
        assert NonPayload(p, c, req, um, ms, i, acc) == NonPayload(p, c, req, um, ms, i + 1, a);
        assert NonPayload(p, c, req, um, pre, i, acc) == NonPayload(p, c, req, um, pre, i + 1, a);
        StopIgnoresRest(p, c, req, um, ms, i + 1, j, a);
      case Stop(a) =>
      case Fail(e) =>
    } else {
      assert MemberStep(p, c, req, um, ms[i], acc).Stop?;
    }
  }

  /** Members without a location trait leave the dictionary unchanged. */
  lemma {:induction false} BodyMembersSkipped(p: Protocol, c: Codecs, req: Request, um: Option<Groups>,
                                              ms: seq<Member>, i: nat, acc: map<string, Value>)
    requires i <= |ms|
    requires forall j :: i <= j < |ms| ==> ms[j].shape.ser.location.None?
    ensures NonPayload(p, c, req, um, ms, i, acc) == Success(acc)
    decreases |ms| - i
  {
    if i < |ms| {
      BodyMembersSkipped(p, c, req, um, ms, i + 1, acc);
    }
  }

  // ---------------------------------------------------------------------
  // The body.

  datatype Body = JsonBody(j: J.Json) | XmlBody(x: X.XNode)

  /** `_initial_body_parse` of each protocol. */
  function InitialBodyParse(p: Protocol, rd: Readers, body: string): (r: Result<Body, string>)
    ensures p == RestJsonProtocol ==> r == Success(JsonBody(J.ParseBodyAsJson(rd.loads, body)))
  {
    match p
    case RestJsonProtocol => Success(JsonBody(J.ParseBodyAsJson(rd.loads, body)))
    case RestXmlProtocol =>
      match X.InitialBodyParse(rd.parseXml, body)
      case Success(n) => Success(XmlBody(n))
      case Failure(e) => Failure(e)
  }

  function DecodeBody(c: Codecs, s: Shape, b: Body): Decoded
  {
    match b
    case JsonBody(j) => J.ParseShape(J.RestJson, c, s, j)
    case XmlBody(n) => X.ParseShape(c, s, X.XElem(n))
  }

  /** `_parse_payload`. With a `payload` trait only that member is read
      from the body: a string or blob member takes the body text when it
      is not empty; any other member takes the decoded body when it is
      truthy, or, in XML, when it is `{}` from a non-empty body. Without
      one the decoded body structure is merged over what is parsed. */
  function Payload(p: Protocol, c: Codecs, rd: Readers, s: Shape, body: string, acc: map<string, Value>)
    : (r: Result<map<string, Value>, string>)
    requires s.Structure?
    ensures r.Success? ==> acc.Keys <= r.value.Keys
    ensures s.ser.payload.Some? && r.Success? ==> forall k :: k in acc && k != s.ser.payload.value ==> r.value[k] == acc[k]
    ensures s.ser.payload.Some? && MemberNamed(s.members, s.ser.payload.value).None? ==> r == Failure("KeyError")
    ensures (s.ser.payload.Some? && MemberNamed(s.members, s.ser.payload.value).Some? &&
      IsStream(MemberNamed(s.members, s.ser.payload.value).value)) ==>
      r == Success(if body != "" then acc[s.ser.payload.value := VStr(body)] else acc)
    ensures s.ser.payload.None? && r.Success? ==> exists b :: r.value == acc + b
  {
    match s.ser.payload
    case Some(pn) =>
      (match MemberNamed(s.members, pn)
       case None => Failure("KeyError")
       case Some(bs) =>
         if IsStream(bs) then Success(if body != "" then acc[pn := VStr(body)] else acc)
         else
           var tree :- InitialBodyParse(p, rd, body);
           match DecodeBody(c, bs, tree)
           case Raised(e) => Failure(e)
           case Ok(v) =>
             if Truthy(v) || (body != "" && v == VDict(map[]) && p == RestXmlProtocol) then Success(acc[pn := v])
             else Success(acc))
    case None =>
      var tree :- InitialBodyParse(p, rd, body);
      match DecodeBody(c, s, tree)
      case Raised(e) => Failure(e)
      case Ok(v) => if v.VDict? then Success(acc + v.fields) else Failure("TypeError")
  }

  /** A JSON body member that decodes to a falsy value is left out. */
  lemma FalsyPayloadDropped(c: Codecs, rd: Readers, s: Shape, body: string, acc: map<string, Value>)
    requires s.Structure? && s.ser.payload.Some?
    requires MemberNamed(s.members, s.ser.payload.value).Some?
    requires !IsStream(MemberNamed(s.members, s.ser.payload.value).value)
    requires var d := DecodeBody(c, MemberNamed(s.members, s.ser.payload.value).value,
      JsonBody(J.ParseBodyAsJson(rd.loads, body)));
      d.Ok? && !Truthy(d.v)
    ensures Payload(RestJsonProtocol, c, rd, s, body, acc) == Success(acc)
  {
  }

  /** `_add_modeled_parse` via `_do_parse`: no input shape parses to `{}`. */
  function DoParse(p: Protocol, c: Codecs, rd: Readers, input: Option<Shape>, req: Request, um: Option<Groups>)
    : (r: Result<map<string, Value>, string>)
    ensures input.None? ==> r == Success(map[])
  {
    match input
    case None => Success(map[])
    case Some(s) =>
      if !s.Structure? then Failure("AttributeError")
      else
        var parsed :- NonPayload(p, c, req, um, s.members, 0, map[]);
        Payload(p, c, rd, s, req.body, parsed)
  }

  datatype ParsedRequest = ParsedRequest(action: string, params: map<string, Value>)

  /** The operation of the given name, the first of that name. */
  function OperationNamed(ops: seq<OperationModel>, name: string): (r: Option<OperationModel>)
    ensures r.None? <==> forall i :: 0 <= i < |ops| ==> ops[i].name != name
    ensures r.Some? ==> r.value.name == name && r.value in ops
  {
    if |ops| == 0 then None
    else if ops[0].name == name then Some(ops[0])
    else OperationNamed(ops[1..], name)
  }

  /** `RequestParser.parse` for the REST protocols: the action, the
      operation of that name (`OperationNotFoundError` when there is none,
      `UnknownOperation` included), and its input parameters. */
  function Parse(p: Protocol, c: Codecs, rd: Readers, ops: seq<OperationModel>, req: Request)
    : (r: Result<ParsedRequest, string>)
    ensures r.Success? ==> OperationNamed(ops, r.value.action).Some?
  {
    var (action, um) :- RestAction(ops, req.verb, req.path);
    match OperationNamed(ops, action)
    case None => Failure("OperationNotFoundError")
    case Some(op) =>
      var params :- DoParse(p, c, rd, op.input, req, um);
      Success(ParsedRequest(action, params))
  }
}
