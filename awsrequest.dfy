/** The request front end of moto/motocore/awsrequest.py: the signing
    context read from the `Authorization` header, the protocol read from the
    content type, form decoding, and the result/error branching around the
    backend call. Headers are a `HeadersDict`: names compare without regard
    to case and the last header of a name wins. The query-string splitter
    (`parse_qsl`) is not part of this model; its output, a list of pairs, is
    the input here. */
module AwsRequest {
  import opened Wrappers
  import opened Strs
  import RdsResponses

  datatype Header = Header(name: string, value: string)

  /** `headers.get(name)` on a `HeadersDict`. */
  function HeaderGet(hs: seq<Header>, name: string): Option<string>
  {
    if |hs| == 0 then None
    else if Lower(hs[|hs| - 1].name) == Lower(name) then Some(hs[|hs| - 1].value)
    else HeaderGet(hs[..|hs| - 1], name)
  }

  /** A header is missing exactly when no header has the name, compared
      without regard to case. */
  lemma {:induction false} HeaderGetMissing(hs: seq<Header>, name: string)
    ensures HeaderGet(hs, name).None? <==> forall i :: 0 <= i < |hs| ==> Lower(hs[i].name) != Lower(name)
    decreases |hs|
  {
    if |hs| > 0 && Lower(hs[|hs| - 1].name) != Lower(name) {
      var init := hs[..|hs| - 1];
      assert forall i :: 0 <= i < |init| ==> init[i] == hs[i];
      HeaderGetMissing(init, name);
    }
  }

  /** A header found is the value of the last header with the name. */
  lemma {:induction false} HeaderGetLast(hs: seq<Header>, name: string, i: nat)
    requires i < |hs| && Lower(hs[i].name) == Lower(name)
    requires forall j :: i < j < |hs| ==> Lower(hs[j].name) != Lower(name)
    ensures HeaderGet(hs, name) == Some(hs[i].value)
    decreases |hs|
  {
    if i < |hs| - 1 {
      var init := hs[..|hs| - 1];
      assert forall j :: 0 <= j < |init| ==> init[j] == hs[j];
      HeaderGetLast(init, name, i);
    }
  }

  /** `s.split(c, 1)` unpacked into two names: `None` where Python raises
      `ValueError` because the separator is missing. */
  function SplitOnce(s: string, c: char): (r: Option<(string, string)>)
    ensures r.None? <==> c !in s
    ensures r.Some? ==> s == r.value.0 + [c] + r.value.1 && c !in r.value.0
  {
    match IndexOf(s, c)
    case None => None
    case Some(i) =>
      assert s == s[..i] + [c] + s[i + 1..];
      Some((s[..i], s[i + 1..]))
  }

  /** Cutting a string made of a separator-free head, the separator and a
      tail gives back the head and the tail. */
  lemma SplitOnceOf(head: string, c: char, tail: string)
    requires c !in head
    ensures SplitOnce(head + [c] + tail, c) == Some((head, tail))
  {
    var s := head + [c] + tail;
    assert s[|head|] == c;
    var r := SplitOnce(s, c);
    assert r.Some?;
    var (h, t) := r.value;
    assert h == s[..|head|] == head;
    assert t == s[|head| + 1..] == tail;
  }

  /** The signing details of an `Authorization` header. */
  datatype AuthContext = AuthContext(region: string, service: string)

  /** `{k: v for option in options for k, v in [option.split('=', 1)]}`:
      later options override earlier ones, and an option without `=` raises
      `ValueError`. */
  function OptionsDict(options: seq<string>): (r: Result<map<string, string>, string>)
    ensures r.Failure? ==> r.error == "ValueError"
  {
    if |options| == 0 then Success(map[])
    else
      match OptionsDict(options[..|options| - 1])
      case Failure(e) => Failure(e)
      case Success(d) =>
        match SplitOnce(options[|options| - 1], '=')
        case None => Failure("ValueError")
        case Some((k, v)) => Success(d[k := v])
  }

  /** Building the dictionary fails exactly when an option lacks `=`. */
  lemma {:induction false} OptionsDictFails(options: seq<string>)
    ensures OptionsDict(options).Failure? <==> exists i :: 0 <= i < |options| && '=' !in options[i]
    decreases |options|
  {
    if |options| > 0 {
      var n := |options| - 1;
      var init := options[..n];
      assert forall i :: 0 <= i < |init| ==> init[i] == options[i];
      OptionsDictFails(init);
      if OptionsDict(init).Success? {
        assert forall i :: 0 <= i < n ==> '=' in options[i];
      } else {
        var i :| 0 <= i < |init| && '=' !in init[i];
        assert '=' !in options[i];
      }
    }
  }

  /** The dictionary's keys are the names of the options. */
  lemma {:induction false} OptionsDictKeys(options: seq<string>)
    requires OptionsDict(options).Success?
    ensures forall k :: k in OptionsDict(options).value <==>
      exists i :: 0 <= i < |options| && SplitOnce(options[i], '=').Some? && SplitOnce(options[i], '=').value.0 == k
    decreases |options|
  {
    if |options| > 0 {
      var n := |options| - 1;
      var init := options[..n];
      assert forall i :: 0 <= i < |init| ==> init[i] == options[i];
      OptionsDictKeys(init);
      var kv := SplitOnce(options[n], '=').value;
      forall k | k in OptionsDict(options).value
        ensures exists i :: 0 <= i < |options| && SplitOnce(options[i], '=').Some? && SplitOnce(options[i], '=').value.0 == k
      {
        if k != kv.0 {
          var i :| 0 <= i < |init| && SplitOnce(init[i], '=').Some? && SplitOnce(init[i], '=').value.0 == k;
          assert options[i] == init[i];
        }
      }
    }
  }

  /** In the options dictionary each key holds the value of its last option. */
  lemma {:induction false} OptionsLastWins(options: seq<string>, i: nat)
    requires forall j :: 0 <= j < |options| ==> '=' in options[j]
    requires i < |options|
    requires forall j :: i < j < |options| ==> SplitOnce(options[j], '=').value.0 != SplitOnce(options[i], '=').value.0
    ensures OptionsDict(options).Success?
    ensures SplitOnce(options[i], '=').value.0 in OptionsDict(options).value
    ensures OptionsDict(options).value[SplitOnce(options[i], '=').value.0] == SplitOnce(options[i], '=').value.1
    decreases |options|
  {
    OptionsDictFails(options);
    var init := options[..|options| - 1];
    assert forall j :: 0 <= j < |init| ==> init[j] == options[j];
    if i < |options| - 1 {
      OptionsLastWins(init, i);
    }
  }

  /** `aws_context_from_headers`: `Success(None)` where the source returns
      `None`, `Failure` where it raises. */
  function AwsContextFromHeaders(hs: seq<Header>): Result<Option<AuthContext>, string>
  {
    match HeaderGet(hs, "Authorization")
    case None => Success(None)
    case Some(value) => ContextOfValue(value)
  }

  /** Without an `Authorization` header, in any case, there is no context. */
  lemma NoAuthorizationNoContext(hs: seq<Header>)
    requires forall i :: 0 <= i < |hs| ==> Lower(hs[i].name) != Lower("Authorization")
    ensures AwsContextFromHeaders(hs) == Success(None)
  {
    HeaderGetMissing(hs, "Authorization");
  }

  /** The last `Authorization` header, in any case, gives the context. */
  lemma LastAuthorizationDecides(hs: seq<Header>, i: nat)
    requires i < |hs| && Lower(hs[i].name) == Lower("Authorization")
    requires forall j :: i < j < |hs| ==> Lower(hs[j].name) != Lower("Authorization")
    ensures AwsContextFromHeaders(hs) == ContextOfValue(hs[i].value)
  {
    HeaderGetLast(hs, "Authorization", i);
  }

  /** The context an `Authorization` value gives: none for an empty value or
      one without a space or with another scheme than `aws4-hmac-sha256`
      (in any case); else the region and service of the `Credential` option,
      none when that option is missing or empty. */
  function ContextOfValue(value: string): (r: Result<Option<AuthContext>, string>)
    ensures value == "" || ' ' !in value ==> r == Success(None)
    ensures r.Success? && r.value.Some? ==> ' ' in value && Lower(SplitOnce(value, ' ').value.0) == "aws4-hmac-sha256"
    ensures r.Failure? ==> r.error == "ValueError"
  {
    if value == "" then Success(None)
    else
      match SplitOnce(value, ' ')
      case None => Success(None)
      case Some((authType, authInfo)) =>
        if Lower(authType) != "aws4-hmac-sha256" then Success(None)
        else
          match OptionsDict(Split(authInfo, ','))
          case Failure(e) => Failure(e)
          case Success(details) =>
            if "Credential" !in details || details["Credential"] == "" then Success(None)
            else
              var parts := Split(details["Credential"], '/');
              if |parts| != 5 then Failure("ValueError")
              else Success(Some(AuthContext(parts[2], parts[3])))
  }

  /** Any scheme other than `aws4-hmac-sha256`, in whatever case, gives no
      context. */
  lemma OtherSchemeNoContext(scheme: string, info: string)
    requires ' ' !in scheme && Lower(scheme) != "aws4-hmac-sha256"
    ensures ContextOfValue(scheme + " " + info) == Success(None)
  {
    SplitOnceOf(scheme, ' ', info);
  }

  /** The credential scope of AWS Signature Version 4: a value
      `<scheme> Credential=<key>/<date>/<region>/<service>/<terminator>` gives
      the region and the service, the scheme being matched without regard to
      case. */
  lemma CredentialScope(scheme: string, key: string, date: string, region: string, service: string, terminator: string)
    requires Lower(scheme) == "aws4-hmac-sha256"
    requires forall f :: f in [key, date, region, service, terminator] ==> '/' !in f && ',' !in f
    ensures var cred := Join([key, date, region, service, terminator], "/");
      ContextOfValue(scheme + " " + ("Credential" + "=" + cred)) == Success(Some(AuthContext(region, service)))
  {
    var fields := [key, date, region, service, terminator];
    var cred := Join(fields, "/");
    assert forall i :: 0 <= i < |fields| ==> '/' !in fields[i] && ',' !in fields[i];
    SplitJoin(fields, '/');
    JoinNoSeparator(fields, '/', ',');
    assert '=' !in "Credential" && ',' !in "Credential";
    LoneOption("Credential", cred);
    SchemeNoSpace(scheme);
    CredentialContext(scheme, "Credential" + "=" + cred, cred, fields);
  }

  /** The last steps of `CredentialScope`: a scheme, then options holding
      only a five-field credential, give the credential's region and
      service. */
  lemma CredentialContext(scheme: string, info: string, cred: string, fields: seq<string>)
    requires ' ' !in scheme && Lower(scheme) == "aws4-hmac-sha256"
    requires OptionsDict(Split(info, ',')) == Success(map["Credential" := cred])
    requires cred != "" && Split(cred, '/') == fields && |fields| == 5
    ensures ContextOfValue(scheme + " " + info) == Success(Some(AuthContext(fields[2], fields[3])))
  {
    SplitOnceOf(scheme, ' ', info);
  }

  /** A scheme that lower-cases to `aws4-hmac-sha256` holds no space. */
  lemma SchemeNoSpace(scheme: string)
    requires Lower(scheme) == "aws4-hmac-sha256"
    ensures ' ' !in scheme
  {
    LowerLength(scheme);
    forall i | 0 <= i < |scheme|
      ensures scheme[i] != ' '
    {
      assert Lower(scheme)[i] == LowerChar(scheme[i]);
      assert "aws4-hmac-sha256"[i] != ' ';
    }
  }

  /** A lone `key=value` option gives a one-entry dictionary. */
  lemma LoneOption(k: string, v: string)
    requires '=' !in k && ',' !in k && ',' !in v
    ensures OptionsDict(Split(k + "=" + v, ',')) == Success(map[k := v])
  {
    var info := k + "=" + v;
    assert ',' !in info by {
      assert forall i :: 0 <= i < |info| ==> info[i] == if i < |k| then k[i] else if i == |k| then '=' else v[i - |k| - 1];
    }
    SplitAbsent(info, ',');
    SplitOnceOf(k, '=', v);
    assert [info][..0] == [];
  }

  /** `Lower` keeps the length. */
  lemma LowerLength(s: string)
    ensures |Lower(s)| == |s|
  {
  }

  /** A join of fields free of `d` whose separator is not `d` holds no `d`. */
  lemma {:induction false} JoinNoSeparator(parts: seq<string>, sep: char, d: char)
    requires sep != d
    requires forall i :: 0 <= i < |parts| ==> d !in parts[i]
    ensures d !in Join(parts, [sep])
    decreases |parts|
  {
    if |parts| > 1 {
      JoinNoSeparator(parts[1..], sep, d);
    }
  }

  /** `get_protocol_from_headers`: the protocol named by the content type,
      `""` when there is none. */
  function GetProtocolFromHeaders(hs: seq<Header>): Option<string>
  {
    ProtocolOf(HeaderGet(hs, "content-type").GetOr(""))
  }

  /** The protocol a content type names: `query` for a form, else `json` for
      an `application/x-amz-json` type, else none. */
  function ProtocolOf(contentType: string): (r: Option<string>)
    ensures (r == Some("query") <==> StartsWith(contentType, "application/x-www-form-urlencoded")) &&
      (r == Some("json") <==> !StartsWith(contentType, "application/x-www-form-urlencoded") && StartsWith(contentType, "application/x-amz-json")) &&
      (r.None? <==> !StartsWith(contentType, "application/x-www-form-urlencoded") && !StartsWith(contentType, "application/x-amz-json"))
  {
    if StartsWith(contentType, "application/x-www-form-urlencoded") then Some("query")
    else if StartsWith(contentType, "application/x-amz-json") then Some("json")
    else None
  }

  /** Any `application/x-amz-json` content type, whatever its version
      suffix, selects the JSON protocol. */
  lemma JsonProtocol(suffix: string)
    ensures ProtocolOf("application/x-amz-json" + suffix) == Some("json")
  {
    var ct := "application/x-amz-json" + suffix;
    assert ct[14] == 'a';
    assert "application/x-www-form-urlencoded"[14] == 'w';
    assert ct[..22] == "application/x-amz-json";
  }

  /** A form content type, with or without parameters such as a charset,
      selects the query protocol. */
  lemma QueryProtocol(params: string)
    ensures ProtocolOf("application/x-www-form-urlencoded" + params) == Some("query")
  {
    var ct := "application/x-www-form-urlencoded" + params;
    assert ct[..33] == "application/x-www-form-urlencoded";
  }

  /** Without a content type neither protocol is chosen. */
  lemma NoProtocol(hs: seq<Header>)
    requires HeaderGet(hs, "content-type").None?
    ensures GetProtocolFromHeaders(hs).None?
  {
  }

  /** `convert_params_to_dict` over the pairs `parse_qsl` yields: a later
      pair overrides an earlier one with the same key. */
  function ConvertParamsToDict(pairs: seq<(string, string)>): (r: map<string, string>)
    ensures forall k :: k in r <==> exists i :: 0 <= i < |pairs| && pairs[i].0 == k
  {
    if |pairs| == 0 then map[]
    else
      var init := pairs[..|pairs| - 1];
      assert forall i :: 0 <= i < |init| ==> init[i] == pairs[i];
      ConvertParamsToDict(init)[pairs[|pairs| - 1].0 := pairs[|pairs| - 1].1]
  }

  /** For duplicate keys the last value wins. */
  lemma {:induction false} ParamsLastWins(pairs: seq<(string, string)>, i: nat)
    requires i < |pairs|
    requires forall j :: i < j < |pairs| ==> pairs[j].0 != pairs[i].0
    ensures ConvertParamsToDict(pairs)[pairs[i].0] == pairs[i].1
    decreases |pairs|
  {
    var init := pairs[..|pairs| - 1];
    assert forall j :: 0 <= j < |init| ==> init[j] == pairs[j];
    if i < |pairs| - 1 {
      ParamsLastWins(init, i);
    }
  }

  /** The `try` block of `request_dict_to_parsed` after the backend call:
      paging applies to RDS operations that can paginate; every exception,
      from the backend or from paging, becomes an error result with the
      exception's status, 400 by default; success is 200. */
  function ParsedOutcome<T>(outcome: Result<seq<T>, string>, canPaginate: bool, service: string, idOf: T -> string,
                            marker: Option<string>, maxRecords: Option<int>,
                            statusOf: string -> Option<int>): (r: (int, RdsResponses.ResultDict<T>))
    ensures outcome.Failure? ==> r == (statusOf(outcome.error).GetOr(400), RdsResponses.ResultError(outcome.error))
    ensures outcome.Success? && !(canPaginate && service == "rds") ==> r == (200, RdsResponses.ResultOk(outcome.value, None))
    ensures outcome.Success? && canPaginate && service == "rds" ==>
      (r.1.ResultOk? <==> RdsResponses.Paginate(outcome.value, idOf, marker, maxRecords).Success?)
    ensures r.1.ResultOk? ==> r.0 == 200 && (r.1.marker.Some? ==> r.1.marker.value != "")
    ensures r.1.ResultError? ==> r.0 == statusOf(r.1.error).GetOr(400)
  {
    match outcome
    case Failure(e) => (statusOf(e).GetOr(400), RdsResponses.ResultError(e))
    case Success(v) =>
      if canPaginate && service == "rds" then
        match RdsResponses.Paginate(v, idOf, marker, maxRecords)
        case Failure(e) => (statusOf(e).GetOr(400), RdsResponses.ResultError(e))
        case Success(p) => (200, RdsResponses.ResultOk(p.items, if Given(p.nextMarker) then p.nextMarker else None))
      else (200, RdsResponses.ResultOk(v, None))
  }

  /** For an RDS operation that can paginate, the generic front end answers
      as `call_action` does wherever `call_action` answers; an exception that
      `call_action` lets escape (one that is not an `RDSError`, such as the
      `ValueError` of an unknown marker) the front end answers as an error
      result with its status, 400 by default. */
  lemma AgreesWithRds<T>(outcome: Result<seq<T>, string>, idOf: T -> string, marker: Option<string>,
                         maxRecords: Option<int>, isRdsError: string -> bool, statusOf: string -> Option<int>)
    ensures var c := RdsResponses.CallAction(outcome, true, idOf, marker, maxRecords, isRdsError, statusOf);
      var p := ParsedOutcome(outcome, true, "rds", idOf, marker, maxRecords, statusOf);
      (c.Success? ==> c.value == p) &&
      (c.Failure? ==> !isRdsError(c.error) && p == (statusOf(c.error).GetOr(400), RdsResponses.ResultError(c.error)))
  {
  }

  /** When every exception is an `RDSError`, the two answers are the same. */
  lemma AgreesWithRdsOnRdsErrors<T>(outcome: Result<seq<T>, string>, idOf: T -> string, marker: Option<string>,
                                    maxRecords: Option<int>, statusOf: string -> Option<int>)
    ensures RdsResponses.CallAction(outcome, true, idOf, marker, maxRecords, _ => true, statusOf) ==
      Success(ParsedOutcome(outcome, true, "rds", idOf, marker, maxRecords, statusOf))
  {
    AgreesWithRds(outcome, idOf, marker, maxRecords, _ => true, statusOf);
  }
}
