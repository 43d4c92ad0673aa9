/** The motocore event handlers (moto/motocore/handlers.py): per-service
    rewrites of a parsed request's keyword arguments before the backend is
    called, and of the backend's result before it is serialized. The
    dictionaries are changed in place, so each holder is an object and each
    handler a method. A model object whose attributes a handler sets is a
    `VDict` whose fields are its attributes. */
module Handlers {
  import opened Wrappers
  import opened Values
  import opened OrderedDicts

  /** How a handler ends: normally, or by raising the named exception. */
  datatype Outcome = Done | Raises(error: string)

  /** `d.get(key, default)` */
  function Get(m: map<string, Value>, key: string, default: Value): (r: Value)
    ensures key in m ==> r == m[key]
    ensures key !in m ==> r == default
  {
    if key in m then m[key] else default
  }

  /** `d[to] = d.pop(from)`: the value moves to the new key and the old key
      is gone. */
  function Moved(m: map<string, Value>, from: string, to: string): (r: map<string, Value>)
    requires from in m
    ensures r.Keys == m.Keys - {from} + {to}
    ensures r[to] == m[from]
    ensures forall k :: k in m && k != from && k != to ==> r[k] == m[k]
  {
    (m - {from})[to := m[from]]
  }

  /** Renaming a key that the dictionary did not already use loses nothing:
      moving it back restores the dictionary. */
  lemma MovedBack(m: map<string, Value>, from: string, to: string)
    requires from in m && to !in m
    ensures Moved(Moved(m, from, to), to, from) == m
  {
  }

  /** `d[to] = d.pop(from, default)` */
  function MovedOr(m: map<string, Value>, from: string, to: string, default: Value): (r: map<string, Value>)
    ensures r.Keys == m.Keys - {from} + {to}
    ensures r[to] == Get(m, from, default)
    ensures forall k :: k in m && k != from && k != to ==> r[k] == m[k]
  {
    (m - {from})[to := Get(m, from, default)]
  }

  /** `parsed_request`: the backend method to call and its keyword
      arguments. */
  class ParsedRequest {
    var action: string
    var kwargs: map<string, Value>

    constructor(action: string, kwargs: map<string, Value>)
      ensures this.action == action && this.kwargs == kwargs
    {
      this.action := action;
      this.kwargs := kwargs;
    }
  }

  /** `result_dict`: the backend's result under `"result"`. */
  class ResultDict {
    var fields: map<string, Value>

    constructor(fields: map<string, Value>)
      ensures this.fields == fields
    {
      this.fields := fields;
    }
  }

  /** The outgoing request's headers. */
  class OutgoingRequest {
    var headers: map<string, string>

    constructor(headers: map<string, string>)
      ensures this.headers == headers
    {
      this.headers := headers;
    }
  }

  /** `inject_api_version_header_if_needed`: only an endpoint-discovery
      operation gets the `x-amz-api-version` header, set to the service's
      API version. */
  method InjectApiVersionHeader(isEndpointDiscovery: bool, apiVersion: string, params: OutgoingRequest)
    modifies params
    ensures isEndpointDiscovery ==> params.headers == old(params.headers)["x-amz-api-version" := apiVersion]
    ensures !isEndpointDiscovery ==> params.headers == old(params.headers)
  {
    if !isEndpointDiscovery {
      return;
    }
    params.headers := params.headers["x-amz-api-version" := apiVersion];
  }

  // ------------------------------------------------------------------ EC2

  /** The keyword arguments `RunInstances` hands to `add_instances`: the
      count is the minimum count (1 when absent), the security group names
      are the `security_group` argument (none when absent), and the user data
      is `None` when absent. Every other argument is kept. */
  function RunInstancesKwargs(m: map<string, Value>): (r: map<string, Value>)
    ensures r.Keys == m.Keys + {"count", "security_group_names", "user_data"}
    ensures r["count"] == Get(m, "min_count", VInt(1))
    ensures r["security_group_names"] == Get(m, "security_group", VList([]))
    ensures r["user_data"] == Get(m, "user_data", VNone)
    ensures forall k :: k in m && k != "count" && k != "security_group_names" && k != "user_data" ==> r[k] == m[k]
  {
    m["count" := Get(m, "min_count", VInt(1))]
     ["security_group_names" := Get(m, "security_group", VList([]))]
     ["user_data" := Get(m, "user_data", VNone)]
  }

  /** Applying the `RunInstances` rewrite twice is applying it once. */
  lemma RunInstancesIdempotent(m: map<string, Value>)
    ensures RunInstancesKwargs(RunInstancesKwargs(m)) == RunInstancesKwargs(m)
  {
    var r := RunInstancesKwargs(m);
    assert Get(r, "min_count", VInt(1)) == Get(m, "min_count", VInt(1));
    assert Get(r, "security_group", VList([])) == Get(m, "security_group", VList([]));
    assert Get(r, "user_data", VNone) == r["user_data"];
  }

  /** `fix_ec2_request_issues`: `RunInstances` becomes `add_instances`; a
      `CreateSubnet` without an availability zone gets one (`zone` stands
      for the name of the zone `random.choice` picks). */
  method FixEc2Request(req: ParsedRequest, opName: string, zone: string)
    modifies req
    ensures opName == "RunInstances" ==>
      req.action == "add_instances" && req.kwargs == RunInstancesKwargs(old(req.kwargs))
    ensures opName == "CreateSubnet" ==> (req.action == old(req.action) &&
      req.kwargs == (if "availability_zone" in old(req.kwargs) then old(req.kwargs)
                     else old(req.kwargs)["availability_zone" := VStr(zone)]))
    ensures opName != "RunInstances" && opName != "CreateSubnet" ==> unchanged(req)
  {
    if opName == "RunInstances" {
      req.action := "add_instances";
      var params := req.kwargs;
      params := params["count" := Get(params, "min_count", VInt(1))];
      params := params["security_group_names" := Get(params, "security_group", VList([]))];
      params := params["user_data" := Get(params, "user_data", VNone)];
      req.kwargs := params;
    } else if opName == "CreateSubnet" {
      if "availability_zone" !in req.kwargs {
        req.kwargs := req.kwargs["availability_zone" := VStr(zone)];
      }
    }
  }

  /** Whether a model object has the attribute. */
  predicate HasAttr(v: Value, name: string)
  {
    v.VDict? && name in v.fields
  }

  /** `obj.to = obj.from` */
  function Copied(v: Value, from: string, to: string): (r: Value)
    requires HasAttr(v, from)
    ensures HasAttr(r, to) && HasAttr(r, from)
    ensures r.fields[to] == v.fields[from]
    ensures r.fields.Keys == v.fields.Keys + {to}
    ensures forall k :: k in v.fields && k != to ==> r.fields[k] == v.fields[k]
  {
    VDict(v.fields[to := v.fields[from]])
  }

  /** Copying an attribute again changes nothing. */
  lemma CopiedIdempotent(v: Value, from: string, to: string)
    requires HasAttr(v, from) && from != to
    ensures Copied(Copied(v, from, to), from, to) == Copied(v, from, to)
  {
  }

  /** The position of the first item lacking the attribute (the length when
      none does). */
  function FirstWithout(items: seq<Value>, attr: string): (k: nat)
    ensures k <= |items|
    ensures forall i :: 0 <= i < k ==> HasAttr(items[i], attr)
    ensures k < |items| ==> !HasAttr(items[k], attr)
  {
    if items == [] then 0
    else if !HasAttr(items[0], attr) then 0
    else 1 + FirstWithout(items[1..], attr)
  }

  /** The items after `for item in items: item.to = item.from`, run until an
      item lacks the attribute: those before it copied, the rest as they
      were. */
  function CopiedUntilMissing(items: seq<Value>, from: string, to: string): (r: seq<Value>)
    ensures |r| == |items|
    ensures forall i :: 0 <= i < FirstWithout(items, from) ==> r[i] == Copied(items[i], from, to)
    ensures forall i :: FirstWithout(items, from) <= i < |items| ==> r[i] == items[i]
  {
    var k := FirstWithout(items, from);
    seq(|items|, i requires 0 <= i < |items| => if i < k then Copied(items[i], from, to) else items[i])
  }

  /** The loop setting one attribute from another on each item, stopping
      with `AttributeError` at the first item without it. */
  method CopyEach(items: seq<Value>, from: string, to: string) returns (out: seq<Value>, o: Outcome)
    ensures out == CopiedUntilMissing(items, from, to)
    ensures o == (if FirstWithout(items, from) == |items| then Done else Raises("AttributeError"))
  {
    out := items;
    var i := 0;
    while i < |items|
      invariant i <= FirstWithout(items, from) && |out| == |items|
      invariant forall j :: 0 <= j < i ==> out[j] == Copied(items[j], from, to)
      invariant forall j :: i <= j < |items| ==> out[j] == items[j]
    {
      if !HasAttr(items[i], from) {
        assert out == CopiedUntilMissing(items, from, to);
        return out, Raises("AttributeError");
      }
      out := out[i := Copied(items[i], from, to)];
      i := i + 1;
    }
    assert out == CopiedUntilMissing(items, from, to);
    o := Done;
  }

  /** The `RunInstances` result after the rewrite: the reservation gets
      `reservation_id` from its `id`, `instances_set` becomes the very list
      `instances` is, and each instance gets `instance_id` from its `id`.
      An attribute missing or a list that is not one stops the rewrite with
      what it had changed so far: an instance without `id` leaves the ones
      before it rewritten and the rest as they were, in the one list that
      both `instances` and `instances_set` name. */
  function RunInstancesResult(v: Value): (r: (Value, Outcome))
    ensures !HasAttr(v, "id") ==> r == (v, Raises("AttributeError"))
    ensures HasAttr(v, "id") && !HasAttr(v, "instances") ==>
      r == (VDict(v.fields["reservation_id" := v.fields["id"]]), Raises("AttributeError"))
    ensures HasAttr(v, "id") && HasAttr(v, "instances") && !v.fields["instances"].VList? ==>
      r == (VDict(v.fields["reservation_id" := v.fields["id"]]["instances_set" := v.fields["instances"]]), Raises("TypeError"))
    ensures r.1 == Done <==>
      HasAttr(v, "id") && HasAttr(v, "instances") && v.fields["instances"].VList? &&
      forall i :: 0 <= i < |v.fields["instances"].items| ==> HasAttr(v.fields["instances"].items[i], "id")
    ensures r.1 != Done ==> r.1 in {Raises("AttributeError"), Raises("TypeError")}
    ensures HasAttr(v, "id") && HasAttr(v, "instances") && v.fields["instances"].VList? ==> (
      var items := v.fields["instances"].items;
      r.0 == VDict(v.fields["reservation_id" := v.fields["id"]]
                          ["instances_set" := VList(CopiedUntilMissing(items, "id", "instance_id"))]
                          ["instances" := VList(CopiedUntilMissing(items, "id", "instance_id"))]) &&
      (r.1 == Done || r.1 == Raises("AttributeError")))
  {
    if !HasAttr(v, "id") then (v, Raises("AttributeError"))
    else
      var v1 := Copied(v, "id", "reservation_id");
      if !HasAttr(v1, "instances") then (v1, Raises("AttributeError"))
      else
        var instances := v1.fields["instances"];
        if !instances.VList? then (VDict(v1.fields["instances_set" := instances]), Raises("TypeError"))
        else
          var out := CopiedUntilMissing(instances.items, "id", "instance_id");
          var o := if FirstWithout(instances.items, "id") == |instances.items| then Done else Raises("AttributeError");
          (VDict(v1.fields["instances_set" := VList(out)]["instances" := VList(out)]), o)
  }

  /** The EC2 operations whose results get attribute aliases. */
  predicate RewritesEc2Result(opName: string)
  {
    opName == "RunInstances" || opName == "DescribeAvailabilityZones" || opName == "CreateVpc" || opName == "CreateSubnet"
  }

  /** The `RunInstances` branch of `fix_ec2_result_issues`, on a result
      dictionary holding `result`. */
  method FixRunInstancesResult(rd: ResultDict) returns (o: Outcome)
    requires "result" in rd.fields
    modifies rd
    ensures var (v, outcome) := RunInstancesResult(old(rd.fields)["result"]);
      o == outcome && rd.fields == old(rd.fields)["result" := v]
  {
    var value := rd.fields["result"];
    if !HasAttr(value, "id") {
      return Raises("AttributeError");
    }
    var reservation := Copied(value, "id", "reservation_id");
    rd.fields := rd.fields["result" := reservation];
    if !HasAttr(reservation, "instances") {
      return Raises("AttributeError");
    }
    var instances := reservation.fields["instances"];
    value := VDict(reservation.fields["instances_set" := instances]);
    rd.fields := rd.fields["result" := value];
    if !instances.VList? {
      return Raises("TypeError");
    }
    var out;
    out, o := CopyEach(instances.items, "id", "instance_id");
    assert value.fields["instances_set" := VList(out)] == reservation.fields["instances_set" := VList(out)];
    rd.fields := rd.fields["result" := VDict(value.fields["instances_set" := VList(out)]["instances" := VList(out)])];
  }

  /** `fix_ec2_result_issues`: the attribute aliases the serializer expects.
      The result is read with `result_dict["result"]`. */
  method FixEc2Result(rd: ResultDict, opName: string) returns (o: Outcome)
    modifies rd
    ensures !RewritesEc2Result(opName) ==> o == Done && unchanged(rd)
    ensures RewritesEc2Result(opName) && "result" !in old(rd.fields) ==> o == Raises("KeyError") && unchanged(rd)
    ensures opName == "RunInstances" && "result" in old(rd.fields) ==> (
      var (v, outcome) := RunInstancesResult(old(rd.fields)["result"]);
      o == outcome && rd.fields == old(rd.fields)["result" := v])
    ensures opName == "DescribeAvailabilityZones" && "result" in old(rd.fields) ==> (
      var v := old(rd.fields)["result"];
      (!v.VList? ==> o == Raises("TypeError") && unchanged(rd)) &&
      (v.VList? ==> (rd.fields == old(rd.fields)["result" := VList(CopiedUntilMissing(v.items, "name", "zone_name"))] &&
         o == (if FirstWithout(v.items, "name") == |v.items| then Done else Raises("AttributeError")))))
    ensures (opName == "CreateVpc" || opName == "CreateSubnet") && "result" in old(rd.fields) ==> (
      var v := old(rd.fields)["result"];
      var to := if opName == "CreateVpc" then "vpc_id" else "subnet_id";
      (!HasAttr(v, "id") ==> o == Raises("AttributeError") && unchanged(rd)) &&
      (HasAttr(v, "id") ==> o == Done && rd.fields == old(rd.fields)["result" := Copied(v, "id", to)]))
  {
    if !RewritesEc2Result(opName) {
      return Done;
    }
    if "result" !in rd.fields {
      return Raises("KeyError");
    }
    var value := rd.fields["result"];
    if opName == "RunInstances" {
      o := FixRunInstancesResult(rd);
    } else if opName == "DescribeAvailabilityZones" {
      if !value.VList? {
        return Raises("TypeError");
      }
      var out;
      out, o := CopyEach(value.items, "name", "zone_name");
      rd.fields := rd.fields["result" := VList(out)];
    } else {
      if !HasAttr(value, "id") {
        return Raises("AttributeError");
      }
      rd.fields := rd.fields["result" := Copied(value, "id", if opName == "CreateVpc" then "vpc_id" else "subnet_id")];
      o := Done;
    }
  }

  /** `fix_elasticbeanstalk_result_issues`: `CreateEnvironment` pops the
      result out of the dictionary and returns it. */
  method FixElasticBeanstalkResult(rd: ResultDict, opName: string) returns (o: Outcome, popped: Option<Value>)
    modifies rd
    ensures opName != "CreateEnvironment" ==> o == Done && popped.None? && unchanged(rd)
    ensures opName == "CreateEnvironment" && "result" !in old(rd.fields) ==> o == Raises("KeyError") && unchanged(rd)
    ensures opName == "CreateEnvironment" && "result" in old(rd.fields) ==>
      o == Done && popped == Some(old(rd.fields)["result"]) && rd.fields == old(rd.fields) - {"result"}
  {
    if opName != "CreateEnvironment" {
      return Done, None;
    }
    if "result" !in rd.fields {
      return Raises("KeyError"), None;
    }
    popped := Some(rd.fields["result"]);
    rd.fields := rd.fields - {"result"};
    o := Done;
  }

  // ------------------------------------------------------------------ EMR

  /** One bootstrap action as the backend wants it: its name, and the path
      and arguments of its script action (`""` and `[]` when absent). */
  function BootstrapAction(a: Value): (r: Result<Value, string>)
    ensures r.Success? <==> (HasAttr(a, "name") && HasAttr(a, "script_bootstrap_action") &&
      a.fields["script_bootstrap_action"].VDict?)
    ensures r.Success? ==> (
      var script := a.fields["script_bootstrap_action"].fields;
      r.value == VDict(map["name" := a.fields["name"], "script_path" := Get(script, "path", VStr("")),
                           "args" := Get(script, "args", VList([]))]))
  {
    if !a.VDict? then Failure("TypeError")
    else if "name" !in a.fields || "script_bootstrap_action" !in a.fields then Failure("KeyError")
    else
      var script := a.fields["script_bootstrap_action"];
      if !script.VDict? then Failure("AttributeError")
      else Success(VDict(map["name" := a.fields["name"], "script_path" := Get(script.fields, "path", VStr("")),
                             "args" := Get(script.fields, "args", VList([]))]))
  }

  /** The bootstrap actions converted before the first one that fails, and
      that failure. */
  function ConvertActions(acts: seq<Value>): (seq<Value>, Option<string>)
  {
    if acts == [] then ([], None)
    else
      var (done, err) := ConvertActions(acts[..|acts| - 1]);
      if err.Some? then (done, err)
      else match BootstrapAction(acts[|acts| - 1])
        case Failure(e) => (done, Some(e))
        case Success(v) => (done + [v], None)
  }

  /** When every action converts, each is converted in place and order. */
  lemma {:induction false} ConvertActionsAll(acts: seq<Value>)
    requires ConvertActions(acts).1.None?
    ensures |ConvertActions(acts).0| == |acts|
    ensures forall i :: 0 <= i < |acts| ==> BootstrapAction(acts[i]) == Success(ConvertActions(acts).0[i])
  {
    if acts != [] {
      var front := acts[..|acts| - 1];
      ConvertActionsAll(front);
      assert forall i :: 0 <= i < |front| ==> acts[i] == front[i];
    }
  }

  /** A failure stays the outcome of every longer list. */
  lemma {:induction false} ConvertActionsFails(acts: seq<Value>, i: nat)
    requires i <= |acts| && ConvertActions(acts[..i]).1.Some?
    ensures ConvertActions(acts) == ConvertActions(acts[..i])
    decreases |acts| - i
  {
    if i < |acts| {
      assert acts[..i + 1][..i] == acts[..i];
      ConvertActionsFails(acts, i + 1);
    } else {
      assert acts[..i] == acts;
    }
  }

  /** The keyword arguments of `RunJobFlow` before its bootstrap actions are
      rebuilt: `instances` renamed to `instance_attrs`, `steps` defaulting to
      none, and the bootstrap actions emptied. */
  function JobFlowBase(m: map<string, Value>): (r: map<string, Value>)
    requires "instances" in m
    ensures "instances" !in r && "instance_attrs" in r && "steps" in r && "bootstrap_actions" in r
    ensures r["instance_attrs"] == m["instances"]
    ensures r["steps"] == Get(m, "steps", VList([]))
    ensures r["bootstrap_actions"] == VList([])
    ensures forall k :: k in m && k != "instances" && k != "instance_attrs" && k != "steps" && k != "bootstrap_actions" ==>
      k in r && r[k] == m[k]
  {
    Moved(m, "instances", "instance_attrs")["steps" := Get(m, "steps", VList([]))]["bootstrap_actions" := VList([])]
  }

  /** `fix_emr_request_issues`: `RunJobFlow` moves `instances` to
      `instance_attrs`, defaults `steps`, and rebuilds the bootstrap actions
      one by one into a fresh list. A failing action leaves the actions
      converted before it in place. A bootstrap-action argument that is not a
      list cannot be iterated. */
  method FixEmrRequest(req: ParsedRequest, opName: string) returns (o: Outcome)
    modifies req
    ensures opName != "RunJobFlow" ==> o == Done && unchanged(req)
    ensures opName == "RunJobFlow" && "instances" !in old(req.kwargs) ==> o == Raises("KeyError") && unchanged(req)
    ensures opName == "RunJobFlow" && "instances" in old(req.kwargs) ==> (
      var acts := Get(old(req.kwargs), "bootstrap_actions", VList([]));
      req.action == old(req.action) &&
      (!acts.VList? ==> o == Raises("TypeError") && req.kwargs == JobFlowBase(old(req.kwargs))) &&
      (acts.VList? ==>
        var (done, err) := ConvertActions(acts.items);
        req.kwargs == JobFlowBase(old(req.kwargs))["bootstrap_actions" := VList(done)] &&
        o == (if err.Some? then Raises(err.value) else Done)))
  {
    if opName != "RunJobFlow" {
      return Done;
    }
    if "instances" !in req.kwargs {
      return Raises("KeyError");
    }
    var params := req.kwargs;
    var acts := Get(params, "bootstrap_actions", VList([]));
    params := Moved(params, "instances", "instance_attrs");
    params := params["steps" := Get(params, "steps", VList([]))];
    params := params - {"bootstrap_actions"};
    params := params["bootstrap_actions" := VList([])];
    assert params == JobFlowBase(old(req.kwargs));
    req.kwargs := params;
    if !acts.VList? {
      return Raises("TypeError");
    }
    o := RebuildBootstrapActions(req, params, acts.items);
  }

  /** The loop appending each converted bootstrap action to the fresh list
      held under `bootstrap_actions`. */
  method RebuildBootstrapActions(req: ParsedRequest, params: map<string, Value>, items: seq<Value>) returns (o: Outcome)
    requires req.kwargs == params["bootstrap_actions" := VList([])]
    modifies req`kwargs
    ensures req.kwargs == params["bootstrap_actions" := VList(ConvertActions(items).0)]
    ensures o == (if ConvertActions(items).1.Some? then Raises(ConvertActions(items).1.value) else Done)
  {
    var built: seq<Value> := [];
    for i := 0 to |items|
      invariant ConvertActions(items[..i]) == (built, None)
      invariant req.kwargs == params["bootstrap_actions" := VList(built)]
    {
      assert items[..i + 1][..i] == items[..i];
      var ba := BootstrapAction(items[i]);
      if ba.Failure? {
        ConvertActionsFails(items, i + 1);
        return Raises(ba.error);
      }
      built := built + [ba.value];
      req.kwargs := params["bootstrap_actions" := VList(built)];
    }
    assert items[..|items|] == items;
    o := Done;
  }

  // ---------------------------------------------------------- KMS, Polly

  /** Each listed argument that is missing becomes `None`; present ones and
      all others are kept. */
  function WithNoneDefaults(m: map<string, Value>, names: seq<string>): (r: map<string, Value>)
    ensures forall k :: k in m ==> k in r && r[k] == m[k]
    ensures forall i :: 0 <= i < |names| ==> names[i] in r
    ensures forall i :: 0 <= i < |names| && names[i] !in m ==> r[names[i]] == VNone
    ensures forall k :: k in r ==> k in m || k in names
  {
    if names == [] then m
    else
      var r0 := WithNoneDefaults(m, names[..|names| - 1]);
      var last := names[|names| - 1];
      if last in r0 then r0 else r0[last := VNone]
  }

  /** Filling the defaults in twice is filling them in once. */
  lemma WithNoneDefaultsIdempotent(m: map<string, Value>, names: seq<string>)
    ensures WithNoneDefaults(WithNoneDefaults(m, names), names) == WithNoneDefaults(m, names)
  {
  }

  /** The `CreateKey` arguments that default to `None`. */
  const KmsDefaultToNone: seq<string> := ["customer_master_key_spec", "tags", "region", "policy", "key_usage"]

  /** The loop filling in missing arguments with `None`. */
  method FillNone(req: ParsedRequest, names: seq<string>)
    modifies req`kwargs
    ensures req.kwargs == WithNoneDefaults(old(req.kwargs), names)
  {
    for i := 0 to |names|
      invariant req.kwargs == WithNoneDefaults(old(req.kwargs), names[..i])
    {
      assert names[..i + 1][..i] == names[..i];
      if names[i] !in req.kwargs {
        req.kwargs := req.kwargs[names[i] := VNone];
      }
    }
    assert names[..|names|] == names;
  }

  /** `fix_kms_request_issues` */
  method FixKmsRequest(req: ParsedRequest, opName: string)
    modifies req
    ensures opName == "CreateKey" ==> (req.kwargs == WithNoneDefaults(old(req.kwargs), KmsDefaultToNone) &&
      req.action == old(req.action))
    ensures opName != "CreateKey" ==> unchanged(req)
  {
    if opName == "CreateKey" {
      FillNone(req, KmsDefaultToNone);
    }
  }

  /** `fix_kms_result_issues`: the created key gets `key_id` from its `id`. */
  method FixKmsResult(rd: ResultDict, opName: string) returns (o: Outcome)
    modifies rd
    ensures opName != "CreateKey" ==> o == Done && unchanged(rd)
    ensures opName == "CreateKey" && "result" !in old(rd.fields) ==> o == Raises("KeyError") && unchanged(rd)
    ensures opName == "CreateKey" && "result" in old(rd.fields) ==> (
      var v := old(rd.fields)["result"];
      (!HasAttr(v, "id") ==> o == Raises("AttributeError") && unchanged(rd)) &&
      (HasAttr(v, "id") ==> o == Done && rd.fields == old(rd.fields)["result" := Copied(v, "id", "key_id")]))
  {
    if opName != "CreateKey" {
      return Done;
    }
    if "result" !in rd.fields {
      return Raises("KeyError");
    }
    var value := rd.fields["result"];
    if !HasAttr(value, "id") {
      return Raises("AttributeError");
    }
    rd.fields := rd.fields["result" := Copied(value, "id", "key_id")];
    o := Done;
  }

  /** `fix_polly_request_issues`: `DescribeVoices` defaults the language
      and the token to `None`. */
  method FixPollyRequest(req: ParsedRequest, opName: string)
    modifies req
    ensures opName == "DescribeVoices" ==>
      req.kwargs == WithNoneDefaults(old(req.kwargs), ["language_code", "next_token"]) && req.action == old(req.action)
    ensures opName != "DescribeVoices" ==> unchanged(req)
  {
    if opName == "DescribeVoices" {
      FillNone(req, ["language_code", "next_token"]);
    }
  }

  /** Whether `xform` tells the keys apart. */
  predicate RenamesApart(xform: string -> string, fields: map<string, Value>)
  {
    forall k1, k2 :: k1 in fields && k2 in fields && xform(k1) == xform(k2) ==> k1 == k2
  }

  /** A voice with each key passed through `xform_name`. */
  function RenamedKeys(fields: map<string, Value>, xform: string -> string): (r: map<string, Value>)
    requires RenamesApart(xform, fields)
    ensures forall k :: k in fields ==> xform(k) in r && r[xform(k)] == fields[k]
    ensures forall k :: k in r ==> exists k0 :: k0 in fields && xform(k0) == k
  {
    map k | k in fields :: xform(k) := fields[k]
  }

  /** Every voice is a dictionary whose keys `xform` tells apart. */
  predicate VoicesRenamable(items: seq<Value>, xform: string -> string)
  {
    forall i :: 0 <= i < |items| ==> items[i].VDict? ==> RenamesApart(xform, items[i].fields)
  }

  /** `fix_polly_result_issues`: `DescribeVoices` rebuilds each voice with
      its keys renamed (`xform` stands for botocore's `xform_name`). The new
      list replaces the result only once every voice is rebuilt. */
  method FixPollyResult(rd: ResultDict, opName: string, xform: string -> string) returns (o: Outcome)
    requires "result" in rd.fields && rd.fields["result"].VList? ==> VoicesRenamable(rd.fields["result"].items, xform)
    modifies rd
    ensures opName != "DescribeVoices" ==> o == Done && unchanged(rd)
    ensures opName == "DescribeVoices" && "result" !in old(rd.fields) ==> o == Raises("KeyError") && unchanged(rd)
    ensures opName == "DescribeVoices" && "result" in old(rd.fields) ==> (
      var v := old(rd.fields)["result"];
      (!v.VList? ==> o == Raises("TypeError") && unchanged(rd)) &&
      ((v.VList? && exists i :: 0 <= i < |v.items| && !v.items[i].VDict?) ==> o == Raises("AttributeError") && unchanged(rd)) &&
      ((v.VList? && forall i :: 0 <= i < |v.items| ==> v.items[i].VDict?) ==> o == Done) &&
      (v.VList? && o == Done ==> (
        "result" in rd.fields && rd.fields.Keys == old(rd.fields).Keys &&
        rd.fields["result"].VList? && |rd.fields["result"].items| == |v.items| &&
        forall i :: 0 <= i < |v.items| ==>
          v.items[i].VDict? && rd.fields["result"].items[i] == VDict(RenamedKeys(v.items[i].fields, xform)))))
  {
    if opName != "DescribeVoices" {
      return Done;
    }
    if "result" !in rd.fields {
      return Raises("KeyError");
    }
    var value := rd.fields["result"];
    if !value.VList? {
      return Raises("TypeError");
    }
    var items := value.items;
    var renamed: seq<Value> := [];
    for i := 0 to |items|
      invariant |renamed| == i
      invariant forall j :: 0 <= j < i ==> items[j].VDict? && renamed[j] == VDict(RenamedKeys(items[j].fields, xform))
    {
      if !items[i].VDict? {
        ghost var bad := i;
        return Raises("AttributeError");
      }
      renamed := renamed + [VDict(RenamedKeys(items[i].fields, xform))];
    }
    rd.fields := rd.fields["result" := VList(renamed)];
    o := Done;
  }

  // ------------------------------------------------------------- Redshift

  /** The Redshift operations that are told the region. */
  predicate TakesRegion(opName: string)
  {
    opName == "CreateCluster" || opName == "CreateClusterSubnetGroup" ||
    opName == "CreateClusterSecurityGroup" || opName == "CreateClusterParameterGroup"
  }

  /** The Redshift argument renames, by operation. `CreateTags` is checked
      separately. */
  function RedshiftKwargs(m: map<string, Value>, opName: string, region: string): map<string, Value>
  {
    RedshiftRenames(if TakesRegion(opName) then m["region_name" := VStr(region)] else m, opName)
  }

  /** The renames of `RedshiftKwargs`, after the region is set. */
  function RedshiftRenames(m1: map<string, Value>, opName: string): map<string, Value>
  {
    if opName == "CreateCluster" then
      (if "iam_roles" in m1 then Moved(m1, "iam_roles", "iam_roles_arn") else m1)
    else if opName == "CreateClusterParameterGroup" then
      var m2 := if "parameter_group_name" in m1 then Moved(m1, "parameter_group_name", "cluster_parameter_group_name") else m1;
      if "parameter_group_family" in m2 then Moved(m2, "parameter_group_family", "group_family") else m2
    else if opName == "DeleteCluster" then MovedOr(m1, "skip_final_cluster_snapshot", "skip_final_snapshot", VBool(false))
    else if opName == "DescribeClusterSubnetGroups" then MovedOr(m1, "cluster_subnet_group_name", "subnet_identifier", VNone)
    else m1
  }

  /** The operations told the region get it as `region_name`. */
  lemma RedshiftRegion(m: map<string, Value>, opName: string, region: string)
    requires TakesRegion(opName)
    ensures "region_name" in RedshiftKwargs(m, opName, region) && RedshiftKwargs(m, opName, region)["region_name"] == VStr(region)
  {
  }

  /** `CreateCluster` passes `iam_roles` as `iam_roles_arn`. */
  lemma RedshiftCreateCluster(m: map<string, Value>, region: string)
    requires "iam_roles" in m
    ensures var r := RedshiftKwargs(m, "CreateCluster", region);
      "iam_roles" !in r && "iam_roles_arn" in r && r["iam_roles_arn"] == m["iam_roles"]
  {
  }

  /** `CreateClusterParameterGroup` renames the group's name and family. */
  lemma RedshiftParameterGroup(m: map<string, Value>, region: string)
    ensures var r := RedshiftKwargs(m, "CreateClusterParameterGroup", region);
      "parameter_group_name" in m ==> ("parameter_group_name" !in r &&
        "cluster_parameter_group_name" in r && r["cluster_parameter_group_name"] == m["parameter_group_name"])
    ensures var r := RedshiftKwargs(m, "CreateClusterParameterGroup", region);
      "parameter_group_family" in m ==> ("parameter_group_family" !in r &&
        "group_family" in r && r["group_family"] == m["parameter_group_family"])
  {
  }

  /** `DeleteCluster` passes `skip_final_cluster_snapshot`, false when
      absent, as `skip_final_snapshot`. */
  lemma RedshiftDeleteCluster(m: map<string, Value>, region: string)
    ensures var r := RedshiftKwargs(m, "DeleteCluster", region);
      "skip_final_cluster_snapshot" !in r && "skip_final_snapshot" in r &&
      r["skip_final_snapshot"] == Get(m, "skip_final_cluster_snapshot", VBool(false))
  {
  }

  /** `DescribeClusterSubnetGroups` passes the group name, `None` when
      absent, as `subnet_identifier`. */
  lemma RedshiftSubnetGroups(m: map<string, Value>, region: string)
    ensures var r := RedshiftKwargs(m, "DescribeClusterSubnetGroups", region);
      "cluster_subnet_group_name" !in r && "subnet_identifier" in r &&
      r["subnet_identifier"] == Get(m, "cluster_subnet_group_name", VNone)
  {
  }

  /** Every other operation passes its arguments through unchanged. */
  lemma RedshiftOtherOps(m: map<string, Value>, opName: string, region: string)
    requires !TakesRegion(opName) && opName != "DeleteCluster" && opName != "DescribeClusterSubnetGroups"
    ensures RedshiftKwargs(m, opName, region) == m
  {
  }

  /** Whether `CreateTags` can rebuild its tags: a list of dictionaries. */
  function RedshiftTagsCheck(m: map<string, Value>): (r: Outcome)
    ensures r == Done <==> "tags" in m && m["tags"].VList? && forall i :: 0 <= i < |m["tags"].items| ==> m["tags"].items[i].VDict?
    ensures "tags" !in m ==> r == Raises("KeyError")
  {
    if "tags" !in m then Raises("KeyError")
    else if !m["tags"].VList? then Raises("TypeError")
    else if exists i :: 0 <= i < |m["tags"].items| && !m["tags"].items[i].VDict? then Raises("TypeError")
    else Done
  }

  /** `fix_redshift_request_issues`; `region` is the request context's
      region. */
  method FixRedshiftRequest(req: ParsedRequest, opName: string, region: string) returns (o: Outcome)
    modifies req
    ensures req.kwargs == RedshiftKwargs(old(req.kwargs), opName, region) && req.action == old(req.action)
    ensures o == (if opName == "CreateTags" then RedshiftTagsCheck(req.kwargs) else Done)
  {
    var params := req.kwargs;
    if TakesRegion(opName) {
      params := params["region_name" := VStr(region)];
    }
    ghost var m1 := params;
    // The operation names below are distinct, so at most one branch runs.
    if opName == "CreateCluster" {
      if "iam_roles" in params {
        params := Moved(params, "iam_roles", "iam_roles_arn");
      }
    } else if opName == "CreateClusterParameterGroup" {
      if "parameter_group_name" in params {
        params := Moved(params, "parameter_group_name", "cluster_parameter_group_name");
      }
      if "parameter_group_family" in params {
        params := Moved(params, "parameter_group_family", "group_family");
      }
    } else if opName == "DeleteCluster" {
      params := MovedOr(params, "skip_final_cluster_snapshot", "skip_final_snapshot", VBool(false));
    } else if opName == "DescribeClusterSubnetGroups" {
      params := MovedOr(params, "cluster_subnet_group_name", "subnet_identifier", VNone);
    }
    assert params == RedshiftRenames(m1, opName);
    req.kwargs := params;
    o := if opName == "CreateTags" then RedshiftTagsCheck(params) else Done;
  }

  // ------------------------------------------------------------ SQS, SSM

  /** `fix_sqs_request_issues`: `CreateQueue` renames `queue_name` to
      `name`. */
  method FixSqsRequest(req: ParsedRequest, opName: string) returns (o: Outcome)
    modifies req
    ensures opName != "CreateQueue" ==> o == Done && unchanged(req)
    ensures opName == "CreateQueue" && "queue_name" !in old(req.kwargs) ==> o == Raises("KeyError") && unchanged(req)
    ensures opName == "CreateQueue" && "queue_name" in old(req.kwargs) ==>
      o == Done && req.kwargs == Moved(old(req.kwargs), "queue_name", "name") && req.action == old(req.action)
  {
    if opName != "CreateQueue" {
      return Done;
    }
    if "queue_name" !in req.kwargs {
      return Raises("KeyError");
    }
    req.kwargs := Moved(req.kwargs, "queue_name", "name");
    o := Done;
  }

  /** Whether a tag entry has a string `key` and a `value`. */
  predicate IsTagEntry(t: Value)
  {
    HasAttr(t, "key") && HasAttr(t, "value") && t.fields["key"].VStr?
  }

  /** `{t["key"]: t["value"] for t in tags}`: a later tag with the same key
      wins. */
  function TagsDict(ts: seq<Value>): (r: Result<map<string, Value>, string>)
    ensures r.Success? <==> forall i :: 0 <= i < |ts| ==> IsTagEntry(ts[i])
    ensures r.Success? ==> forall i :: 0 <= i < |ts| ==> ts[i].fields["key"].s in r.value
    ensures r.Success? ==> forall k :: k in r.value ==> exists i :: 0 <= i < |ts| && ts[i].fields["key"] == VStr(k)
  {
    if ts == [] then Success(map[])
    else
      var last := ts[|ts| - 1];
      match TagsDict(ts[..|ts| - 1])
      case Failure(e) => Failure(e)
      case Success(d) =>
        if !last.VDict? then Failure("TypeError")
        else if "key" !in last.fields || "value" !in last.fields then Failure("KeyError")
        else if !last.fields["key"].VStr? then Failure("TypeError")
        else
          assert forall j :: 0 <= j < |ts| - 1 ==> ts[..|ts| - 1][j] == ts[j];
          Success(d[last.fields["key"].s := last.fields["value"]])
  }

  /** The tag that counts for a key is the last one listing it. */
  lemma {:induction false} TagsDictLastWins(ts: seq<Value>, i: nat)
    requires TagsDict(ts).Success? && i < |ts|
    requires forall j :: i < j < |ts| ==> ts[j].fields["key"] != ts[i].fields["key"]
    ensures TagsDict(ts).value[ts[i].fields["key"].s] == ts[i].fields["value"]
  {
    if i < |ts| - 1 {
      var front := ts[..|ts| - 1];
      assert forall j :: i < j < |front| ==> front[j] == ts[j];
      TagsDictLastWins(front, i);
    }
  }

  /** `fix_ssm_request_issues`: `AddTagsToResource` turns the tag list into
      a dictionary; `RemoveTagsFromResource` renames `tag_keys` to `keys`. */
  method FixSsmRequest(req: ParsedRequest, opName: string) returns (o: Outcome)
    modifies req
    ensures opName != "AddTagsToResource" && opName != "RemoveTagsFromResource" ==> o == Done && unchanged(req)
    ensures opName == "AddTagsToResource" ==> (
      var m := old(req.kwargs);
      ("tags" !in m ==> o == Raises("KeyError") && unchanged(req)) &&
      ("tags" in m && !m["tags"].VList? ==> o == Raises("TypeError") && unchanged(req)) &&
      ("tags" in m && m["tags"].VList? ==>
        match TagsDict(m["tags"].items)
        case Failure(e) => o == Raises(e) && unchanged(req)
        case Success(d) => o == Done && req.kwargs == m["tags" := VDict(d)] && req.action == old(req.action)))
    ensures opName == "RemoveTagsFromResource" && "tag_keys" !in old(req.kwargs) ==> o == Raises("KeyError") && unchanged(req)
    ensures opName == "RemoveTagsFromResource" && "tag_keys" in old(req.kwargs) ==>
      o == Done && req.kwargs == Moved(old(req.kwargs), "tag_keys", "keys") && req.action == old(req.action)
  {
    if opName == "AddTagsToResource" {
      if "tags" !in req.kwargs {
        return Raises("KeyError");
      }
      var tags := req.kwargs["tags"];
      if !tags.VList? {
        return Raises("TypeError");
      }
      match TagsDict(tags.items)
      case Failure(e) =>
        return Raises(e);
      case Success(d) =>
        req.kwargs := req.kwargs["tags" := VDict(d)];
        return Done;
    } else if opName == "RemoveTagsFromResource" {
      if "tag_keys" !in req.kwargs {
        return Raises("KeyError");
      }
      req.kwargs := Moved(req.kwargs, "tag_keys", "keys");
    }
    return Done;
  }

  /** `{"key": k, "value": v}` */
  function TagEntry(k: string, v: Value): (r: Value)
    ensures IsTagEntry(r) && r.fields["key"] == VStr(k) && r.fields["value"] == v
  {
    VDict(map["key" := VStr(k), "value" := v])
  }

  /** The tag dictionary as a list of entries, in the dictionary's order. */
  function TagEntries(keys: seq<string>, m: map<string, Value>): (r: seq<Value>)
    requires forall k :: k in keys ==> k in m
    ensures |r| == |keys|
    ensures forall i :: 0 <= i < |keys| ==> r[i] == TagEntry(keys[i], m[keys[i]])
  {
    if keys == [] then [] else TagEntries(keys[..|keys| - 1], m) + [TagEntry(keys[|keys| - 1], m[keys[|keys| - 1]])]
  }

  /** The entries of `m` under `keys`. */
  function Pick(keys: seq<string>, m: map<string, Value>): map<string, Value>
    requires forall k :: k in keys ==> k in m
  {
    map k | k in keys :: m[k]
  }

  /** The result rewrite and the request rewrite are inverse: the entries of
      a tag dictionary turn back into that dictionary. */
  lemma {:induction false} TagEntriesRoundTrip(keys: seq<string>, m: map<string, Value>)
    requires forall k :: k in keys ==> k in m
    ensures TagsDict(TagEntries(keys, m)) == Success(Pick(keys, m))
  {
    if keys != [] {
      var front := keys[..|keys| - 1];
      var last := keys[|keys| - 1];
      TagEntriesRoundTrip(front, m);
      var e := TagEntry(last, m[last]);
      assert TagEntries(keys, m) == TagEntries(front, m) + [e];
      TagsDictSnoc(TagEntries(front, m), e);
      PickExtend(keys, m);
    } else {
      assert Pick(keys, m) == map[];
    }
  }

  /** One more entry sets its key. */
  lemma TagsDictSnoc(ts: seq<Value>, t: Value)
    requires TagsDict(ts).Success? && IsTagEntry(t)
    ensures TagsDict(ts + [t]) == Success(TagsDict(ts).value[t.fields["key"].s := t.fields["value"]])
  {
    assert (ts + [t])[..|ts|] == ts;
  }

  lemma PickExtend(keys: seq<string>, m: map<string, Value>)
    requires keys != [] && forall k :: k in keys ==> k in m
    ensures Pick(keys[..|keys| - 1], m)[keys[|keys| - 1] := m[keys[|keys| - 1]]] == Pick(keys, m)
  {
    assert keys == keys[..|keys| - 1] + [keys[|keys| - 1]];
  }

  /** `fix_ssm_result_issues`: the `ListTagsForResource` result, a tag
      dictionary, becomes `{"tag_list": [...]}`. `order` is the dictionary's
      key order, which a `VDict` does not keep. */
  method FixSsmResult(rd: ResultDict, opName: string, order: seq<string>) returns (o: Outcome)
    requires "result" in rd.fields && rd.fields["result"].VDict? ==>
      Distinct(order) && forall k :: k in order <==> k in rd.fields["result"].fields
    modifies rd
    ensures opName != "ListTagsForResource" ==> o == Done && unchanged(rd)
    ensures opName == "ListTagsForResource" && "result" !in old(rd.fields) ==> o == Raises("KeyError") && unchanged(rd)
    ensures opName == "ListTagsForResource" && "result" in old(rd.fields) ==> (
      var v := old(rd.fields)["result"];
      (!v.VDict? ==> o == Raises("AttributeError") && unchanged(rd)) &&
      (v.VDict? ==> (o == Done &&
        rd.fields == old(rd.fields)["result" := VDict(map["tag_list" := VList(TagEntries(order, v.fields))])] &&
        TagsDict(TagEntries(order, v.fields)) == Success(v.fields))))
  {
    if opName != "ListTagsForResource" {
      return Done;
    }
    if "result" !in rd.fields {
      return Raises("KeyError");
    }
    var value := rd.fields["result"];
    if !value.VDict? {
      return Raises("AttributeError");
    }
    TagEntriesRoundTrip(order, value.fields);
    assert Pick(order, value.fields) == value.fields;
    rd.fields := rd.fields["result" := VDict(map["tag_list" := VList(TagEntries(order, value.fields))])];
    o := Done;
  }
}
