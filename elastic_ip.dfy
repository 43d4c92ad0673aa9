/** EC2 Elastic IP addresses (moto/ec2/models/elastic_ip_addresses.py):
    allocation, the lookups by IP, allocation id and association id, and
    association state. Addresses and network interfaces are objects the
    backend mutates in place. Random IPs and ids are parameters. */
module ElasticIp {
  import opened Wrappers

  /** A network interface; association writes its public IP. */
  class NetworkInterface {
    const id: string
    var publicIp: Option<string>

    constructor(id: string)
      ensures this.id == id && publicIp.None?
    {
      this.id := id;
      publicIp := None;
    }
  }

  /** An instance, as far as association reads it: its id and its primary
      network interface `nics[0]`. */
  datatype Instance = Instance(id: string, primaryNic: NetworkInterface)

  /** A domain other than `standard` or `vpc` is taken to be `vpc`. */
  function NormalDomain(domain: string): (r: string)
    ensures r == "standard" || r == "vpc"
    ensures domain == "standard" || domain == "vpc" ==> r == domain
  {
    if domain == "standard" || domain == "vpc" then domain else "vpc"
  }

  /** An `ElasticAddress`. Its public IP, domain and `id` never change. */
  class ElasticAddress {
    const publicIp: string
    const domain: string
    const id: Option<string>
    var allocationId: Option<string>
    var instance: Option<Instance>
    var eni: Option<NetworkInterface>
    var associationId: Option<string>

    /** `ElasticAddress(backend, domain, address)`: the given address or a
        random one; an allocation id, which is also its `id`, only in a VPC. */
    constructor(domain: string, address: Option<string>, randomIp: string, randomAllocationId: string)
      ensures publicIp == (if Given(address) then address.value else randomIp)
      ensures allocationId == (if domain == "vpc" then Some(randomAllocationId) else None)
      ensures id == allocationId && this.domain == domain
      ensures instance.None? && eni.None? && associationId.None?
    {
      publicIp := if Given(address) then address.value else randomIp;
      allocationId := if domain == "vpc" then Some(randomAllocationId) else None;
      id := if domain == "vpc" then Some(randomAllocationId) else None;
      this.domain := domain;
      instance := None;
      eni := None;
      associationId := None;
    }

    /** The updates of a successful `associate_address`: the instance and
        interface are recorded (the instance's primary interface when no
        interface is given), the interface receives the public IP, and a
        VPC address gets the new association id. */
    method Associate(instance: Option<Instance>, eni: Option<NetworkInterface>, newAssociationId: string)
      modifies this, (if eni.Some? then {eni.value} else {}), (if instance.Some? then {instance.value.primaryNic} else {})
      ensures this.instance == instance && this.eni == ChosenEni(instance, eni)
      ensures this.eni.Some? ==> this.eni.value.publicIp == Some(publicIp)
      ensures associationId == (if domain == "vpc" then Some(newAssociationId) else old(associationId))
      ensures allocationId == old(allocationId)
      ensures eni.Some? && instance.Some? && instance.value.primaryNic != eni.value ==> unchanged(instance.value.primaryNic)
    {
      this.instance := instance;
      this.eni := eni;
      if this.eni.None? && instance.Some? {
        this.eni := Some(instance.value.primaryNic);
      }
      if this.eni.Some? {
        this.eni.value.publicIp := Some(publicIp);
      }
      if domain == "vpc" {
        associationId := Some(newAssociationId);
      }
    }

    /** The updates of `disassociate_address`: the address forgets its
        instance, its interface and its association id, and the interface
        loses its public IP. */
    method Disassociate()
      modifies this, (if eni.Some? then {eni.value} else {})
      ensures instance.None? && eni.None? && associationId.None? && allocationId == old(allocationId)
      ensures old(eni).Some? ==> old(eni).value.publicIp.None?
    {
      if eni.Some? {
        eni.value.publicIp := None;
        eni := None;
      }
      instance := None;
      associationId := None;
    }
  }

  /** No entry of the list appears twice. */
  ghost predicate NoRepeats<T>(s: seq<T>)
  {
    forall i, j :: 0 <= i < j < |s| ==> s[i] != s[j]
  }

  /** Removing one entry of a list without repeats leaves a list without
      repeats holding exactly the other entries, in their order. */
  lemma RemovedAt<T>(s: seq<T>, k: nat)
    requires k < |s| && NoRepeats(s)
    ensures var t := s[..k] + s[k + 1..];
      |t| == |s| - 1 && NoRepeats(t) &&
      (forall i :: 0 <= i < |t| ==> t[i] == (if i < k then s[i] else s[i + 1])) &&
      (forall x :: x in t <==> x in s && x != s[k])
  {
    var t := s[..k] + s[k + 1..];
    assert forall i :: 0 <= i < |t| ==> t[i] == (if i < k then s[i] else s[i + 1]);
    forall x | x in s && x != s[k]
      ensures x in t
    {
      var i :| 0 <= i < |s| && s[i] == x;
      if i < k {
        assert t[i] == x;
      } else {
        assert t[i - 1] == x;
      }
    }
  }

  /** The addresses whose public IP is one of `ips`, in list order. */
  function WithIpIn(addrs: seq<ElasticAddress>, ips: seq<string>): (r: seq<ElasticAddress>)
    ensures forall a :: a in r ==> a in addrs && a.publicIp in ips
    ensures forall a :: a in addrs && a.publicIp in ips ==> a in r
    ensures |r| <= |addrs|
    ensures addrs != [] && addrs[0].publicIp in ips ==> r != [] && r[0] == addrs[0]
  {
    if |addrs| == 0 then []
    else (if addrs[0].publicIp in ips then [addrs[0]] else []) + WithIpIn(addrs[1..], ips)
  }

  /** The first address a lookup by IP returns is the first listed address
      whose IP was asked for. */
  lemma {:induction false} WithIpInFirst(addrs: seq<ElasticAddress>, ips: seq<string>, k: nat)
    requires k < |addrs| && addrs[k].publicIp in ips
    requires forall j :: 0 <= j < k ==> addrs[j].publicIp !in ips
    ensures WithIpIn(addrs, ips) != [] && WithIpIn(addrs, ips)[0] == addrs[k]
  {
    if k > 0 {
      WithIpInFirst(addrs[1..], ips, k - 1);
      assert WithIpIn(addrs, ips) == WithIpIn(addrs[1..], ips);
    }
  }

  /** Narrowing a concatenation by IP narrows each part in turn: the
      list order is kept. */
  lemma {:induction false} WithIpInAppend(s: seq<ElasticAddress>, t: seq<ElasticAddress>, ips: seq<string>)
    ensures WithIpIn(s + t, ips) == WithIpIn(s, ips) + WithIpIn(t, ips)
  {
    if s != [] {
      ConsAppend(s, t);
      WithIpInAppend(s[1..], t, ips);
      AppendAssoc(if s[0].publicIp in ips then [s[0]] else [], WithIpIn(s[1..], ips), WithIpIn(t, ips));
    } else {
      assert s + t == t;
    }
  }

  /** Whether an address's allocation id is one of `ids`. */
  predicate AllocationIn(a: ElasticAddress, ids: seq<string>)
    reads a
  {
    a.allocationId.Some? && a.allocationId.value in ids
  }

  /** Whether an address's association id is one of `ids`. */
  predicate AssociationIn(a: ElasticAddress, ids: seq<string>)
    reads a
  {
    a.associationId.Some? && a.associationId.value in ids
  }

  /** The addresses whose allocation id is one of `ids`, in list order. */
  function WithAllocationIn(addrs: seq<ElasticAddress>, ids: seq<string>): (r: seq<ElasticAddress>)
    reads addrs
    ensures forall a :: a in r ==> a in addrs && AllocationIn(a, ids)
    ensures forall a :: a in addrs && AllocationIn(a, ids) ==> a in r
    ensures |r| <= |addrs|
    ensures addrs != [] && AllocationIn(addrs[0], ids) ==> r != [] && r[0] == addrs[0]
  {
    if |addrs| == 0 then []
    else (if AllocationIn(addrs[0], ids) then [addrs[0]] else []) + WithAllocationIn(addrs[1..], ids)
  }

  /** Narrowing a concatenation by allocation id narrows each part in
      turn: the list order is kept. */
  lemma {:induction false} WithAllocationInAppend(s: seq<ElasticAddress>, t: seq<ElasticAddress>, ids: seq<string>)
    ensures WithAllocationIn(s + t, ids) == WithAllocationIn(s, ids) + WithAllocationIn(t, ids)
  {
    if s != [] {
      ConsAppend(s, t);
      WithAllocationInAppend(s[1..], t, ids);
      AppendAssoc(if AllocationIn(s[0], ids) then [s[0]] else [], WithAllocationIn(s[1..], ids), WithAllocationIn(t, ids));
    } else {
      assert s + t == t;
    }
  }

  /** The addresses whose association id is one of `ids`, in list order. */
  function WithAssociationIn(addrs: seq<ElasticAddress>, ids: seq<string>): (r: seq<ElasticAddress>)
    reads addrs
    ensures forall a :: a in r ==> a in addrs && AssociationIn(a, ids)
    ensures forall a :: a in addrs && AssociationIn(a, ids) ==> a in r
    ensures |r| <= |addrs|
    ensures addrs != [] && AssociationIn(addrs[0], ids) ==> r != [] && r[0] == addrs[0]
  {
    if |addrs| == 0 then []
    else (if AssociationIn(addrs[0], ids) then [addrs[0]] else []) + WithAssociationIn(addrs[1..], ids)
  }

  /** Narrowing a concatenation by association id narrows each part in
      turn: the list order is kept. */
  lemma {:induction false} WithAssociationInAppend(s: seq<ElasticAddress>, t: seq<ElasticAddress>, ids: seq<string>)
    ensures WithAssociationIn(s + t, ids) == WithAssociationIn(s, ids) + WithAssociationIn(t, ids)
  {
    if s != [] {
      ConsAppend(s, t);
      WithAssociationInAppend(s[1..], t, ids);
      AppendAssoc(if AssociationIn(s[0], ids) then [s[0]] else [], WithAssociationIn(s[1..], ids), WithAssociationIn(t, ids));
    } else {
      assert s + t == t;
    }
  }

  /** Whether an address passes both narrowings of `describe_addresses`:
      a list of ids that is not empty must hold the address's id. */
  predicate Matches(a: ElasticAddress, allocationIds: seq<string>, publicIps: seq<string>)
    reads a
  {
    (allocationIds != [] ==> AllocationIn(a, allocationIds)) && (publicIps != [] ==> a.publicIp in publicIps)
  }

  /** The addresses passing both narrowings at once, in list order. */
  function Narrowed(addrs: seq<ElasticAddress>, allocationIds: seq<string>, publicIps: seq<string>): (r: seq<ElasticAddress>)
    reads addrs
    ensures forall a :: a in r ==> a in addrs && Matches(a, allocationIds, publicIps)
    ensures forall a :: a in addrs && Matches(a, allocationIds, publicIps) ==> a in r
  {
    if |addrs| == 0 then []
    else (if Matches(addrs[0], allocationIds, publicIps) then [addrs[0]] else []) +
         Narrowed(addrs[1..], allocationIds, publicIps)
  }

  /** `describe_addresses`'s first narrowing, by allocation id when ids are given. */
  function ByAllocationStep(addrs: seq<ElasticAddress>, allocationIds: seq<string>): seq<ElasticAddress>
    reads addrs
  {
    if allocationIds != [] then WithAllocationIn(addrs, allocationIds) else addrs
  }

  /** `describe_addresses`'s second narrowing, by public IP when IPs are given. */
  function ByIpStep(addrs: seq<ElasticAddress>, publicIps: seq<string>): seq<ElasticAddress>
  {
    if publicIps != [] then WithIpIn(addrs, publicIps) else addrs
  }

  /** Narrowing by allocation id and then by IP is narrowing once by both. */
  lemma {:induction false} NarrowedSteps(addrs: seq<ElasticAddress>, allocationIds: seq<string>, publicIps: seq<string>)
    ensures ByIpStep(ByAllocationStep(addrs, allocationIds), publicIps) == Narrowed(addrs, allocationIds, publicIps)
  {
    if addrs != [] {
      NarrowedSteps(addrs[1..], allocationIds, publicIps);
      var head := if allocationIds == [] || AllocationIn(addrs[0], allocationIds) then [addrs[0]] else [];
      assert ByAllocationStep(addrs, allocationIds) == head + ByAllocationStep(addrs[1..], allocationIds) by {
        if allocationIds == [] {
          assert addrs == [addrs[0]] + addrs[1..];
        }
      }
      WithIpInAppend(head, ByAllocationStep(addrs[1..], allocationIds), publicIps);
      if publicIps != [] && head != [] {
        assert WithIpIn(head, publicIps) == (if addrs[0].publicIp in publicIps then [addrs[0]] else []) by {
          assert head[1..] == [];
        }
      }
    }
  }

  /** The lookups' check: a lookup fails when nothing matched or fewer
      addresses matched than ids were asked for. */
  function Checked(matches: seq<ElasticAddress>, asked: seq<string>, error: string): (r: Result<seq<ElasticAddress>, string>)
    ensures r.Failure? <==> matches == [] || |asked| > |matches|
    ensures r.Failure? ==> r.error == error
    ensures r.Success? ==> r.value == matches && r.value != []
  {
    if matches == [] || |asked| > |matches| then Failure(error) else Success(matches)
  }

  /** `eips[0]` of a lookup. */
  function First(r0: Result<seq<ElasticAddress>, string>): (r: Result<ElasticAddress, string>)
    ensures r0.Failure? ==> r == Failure(r0.error)
    ensures r0.Success? && r0.value != [] ==> r == Success(r0.value[0])
    ensures r0.Success? && r0.value == [] ==> r == Failure("IndexError")
  {
    match r0
    case Failure(e) => Failure(e)
    case Success(eips) => if eips == [] then Failure("IndexError") else Success(eips[0])
  }

  /** Which interface an association leaves on the address: the one given,
      or else the instance's primary one. */
  function ChosenEni(instance: Option<Instance>, eni: Option<NetworkInterface>): (r: Option<NetworkInterface>)
    ensures eni.Some? ==> r == eni
    ensures eni.None? && instance.Some? ==> r == Some(instance.value.primaryNic)
    ensures eni.None? && instance.None? ==> r.None?
  {
    if eni.Some? then eni else if instance.Some? then Some(instance.value.primaryNic) else None
  }

  /** Whether `associate_address` may proceed: the instance is new or the
      same one, the interface is new or the same one, or reassociation is
      allowed. */
  predicate MayAssociate(current: Option<Instance>, currentEni: Option<NetworkInterface>,
                         instance: Option<Instance>, eni: Option<NetworkInterface>, reassociate: bool)
  {
    (instance.Some? && (current.None? || current.value.id == instance.value.id)) ||
    (eni.Some? && (currentEni.None? || eni.value.id == currentEni.value.id)) ||
    reassociate
  }

  /** An address associated with nothing can always be associated with an
      instance or an interface; an address tied to another instance and
      another interface needs `reassociate`. */
  lemma MayAssociateCases(current: Option<Instance>, currentEni: Option<NetworkInterface>,
                          instance: Option<Instance>, eni: Option<NetworkInterface>, reassociate: bool)
    ensures current.None? && currentEni.None? && (instance.Some? || eni.Some?) ==>
      MayAssociate(current, currentEni, instance, eni, reassociate)
    ensures (current.Some? && currentEni.Some? && instance.Some? && eni.Some? &&
             current.value.id != instance.value.id && currentEni.value.id != eni.value.id) ==>
      (MayAssociate(current, currentEni, instance, eni, reassociate) <==> reassociate)
    ensures instance.None? && eni.None? ==> (MayAssociate(current, currentEni, instance, eni, reassociate) <==> reassociate)
  {
  }

  /** What every listed address satisfies: a non-empty IP, a known
      domain, an allocation id (equal to its `id`) exactly in a VPC, and an
      association id only in a VPC. */
  ghost predicate WellFormed(a: ElasticAddress)
    reads a
  {
    a.publicIp != "" && (a.domain == "standard" || a.domain == "vpc") &&
    a.allocationId == a.id && (a.allocationId.Some? <==> a.domain == "vpc") &&
    (a.associationId.Some? ==> a.domain == "vpc")
  }

  /** `ElasticAddressBackend`: the list of addresses, in allocation order. */
  class ElasticAddressBackend {
    var addresses: seq<ElasticAddress>

    /** Each address is listed once and is well formed. */
    ghost predicate Valid()
      reads this, addresses
    {
      NoRepeats(addresses) && forall a :: a in addresses ==> WellFormed(a)
    }

    constructor()
      ensures Valid() && addresses == []
    {
      addresses := [];
    }

    /** `allocate_address`: the new address goes at the end of the list.
        `randomIp` and `randomAllocationId` stand for `random_ip()` and
        `random_eip_allocation_id()`. */
    method AllocateAddress(domain: string, address: Option<string>, randomIp: string, randomAllocationId: string)
      returns (a: ElasticAddress)
      requires Valid() && randomIp != ""
      modifies this
      ensures Valid() && fresh(a)
      ensures addresses == old(addresses) + [a]
      ensures a.domain == NormalDomain(domain)
      ensures a.publicIp == (if Given(address) then address.value else randomIp)
      ensures a.allocationId == (if a.domain == "vpc" then Some(randomAllocationId) else None) && a.id == a.allocationId
      ensures a.instance.None? && a.eni.None? && a.associationId.None?
    {
      a := new ElasticAddress(NormalDomain(domain), address, randomIp, randomAllocationId);
      addresses := addresses + [a];
    }

    /** `address_by_ip` */
    function AddressByIp(ips: seq<string>, failIfNotFound: bool): (r: Result<seq<ElasticAddress>, string>)
      reads this
      ensures r.Failure? <==> failIfNotFound && (WithIpIn(addresses, ips) == [] || |ips| > |WithIpIn(addresses, ips)|)
      ensures r.Failure? ==> r.error == "InvalidAddressError"
      ensures r.Success? ==> r.value == WithIpIn(addresses, ips)
    {
      var eips := WithIpIn(addresses, ips);
      if failIfNotFound then Checked(eips, ips, "InvalidAddressError") else Success(eips)
    }

    /** `address_by_allocation` */
    function AddressByAllocation(ids: seq<string>): (r: Result<seq<ElasticAddress>, string>)
      reads this, addresses
      ensures r.Failure? <==> WithAllocationIn(addresses, ids) == [] || |ids| > |WithAllocationIn(addresses, ids)|
      ensures r.Failure? ==> r.error == "InvalidAllocationIdError"
      ensures r.Success? ==> r.value == WithAllocationIn(addresses, ids)
    {
      Checked(WithAllocationIn(addresses, ids), ids, "InvalidAllocationIdError")
    }

    /** `address_by_association` */
    function AddressByAssociation(ids: seq<string>): (r: Result<seq<ElasticAddress>, string>)
      reads this, addresses
      ensures r.Failure? <==> WithAssociationIn(addresses, ids) == [] || |ids| > |WithAssociationIn(addresses, ids)|
      ensures r.Failure? ==> r.error == "InvalidAssociationIdError"
      ensures r.Success? ==> r.value == WithAssociationIn(addresses, ids)
    {
      Checked(WithAssociationIn(addresses, ids), ids, "InvalidAssociationIdError")
    }

    /** The address `associate_address` and `release_address` act on: by IP
        when one is given, else by allocation id, else `eips[0]` of nothing. */
    function ByIpOrAllocation(address: Option<string>, allocationId: Option<string>): (r: Result<ElasticAddress, string>)
      reads this, addresses
      ensures r.Success? ==> r.value in addresses
    {
      if Given(address) then First(AddressByIp([address.value], true))
      else if Given(allocationId) then First(AddressByAllocation([allocationId.value]))
      else Failure("IndexError")
    }

    /** The address `disassociate_address` acts on: by IP, else by
        association id. */
    function ByIpOrAssociation(address: Option<string>, associationId: Option<string>): (r: Result<ElasticAddress, string>)
      reads this, addresses
      ensures r.Success? ==> r.value in addresses
    {
      if Given(address) then First(AddressByIp([address.value], true))
      else if Given(associationId) then First(AddressByAssociation([associationId.value]))
      else Failure("IndexError")
    }

    /** A listed address is found by its own IP, and what is found is the
        first listed address with that IP. */
    lemma FoundByOwnIp(a: ElasticAddress)
      requires Valid() && a in addresses
      ensures ByIpOrAssociation(Some(a.publicIp), None).Success?
      ensures ByIpOrAssociation(Some(a.publicIp), None).value.publicIp == a.publicIp
    {
      var m := WithIpIn(addresses, [a.publicIp]);
      assert a in m;
      assert |m| >= 1;
    }

    /** Looking an address up by IP yields the first listed address with
        that IP. */
    lemma FirstByIp(ip: string, k: nat)
      requires ip != "" && k < |addresses| && addresses[k].publicIp == ip
      requires forall j :: 0 <= j < k ==> addresses[j].publicIp != ip
      ensures ByIpOrAllocation(Some(ip), None) == Success(addresses[k])
      ensures ByIpOrAssociation(Some(ip), None) == Success(addresses[k])
    {
      WithIpInFirst(addresses, [ip], k);
      var m := WithIpIn(addresses, [ip]);
      assert addresses[k] in m;
    }

    /** A listed VPC address is found by its own allocation id. */
    lemma FoundByOwnAllocation(a: ElasticAddress)
      requires a in addresses && a.allocationId.Some? && a.allocationId.value != ""
      ensures ByIpOrAllocation(None, a.allocationId).Success?
      ensures ByIpOrAllocation(None, a.allocationId).value.allocationId == a.allocationId
    {
      var m := WithAllocationIn(addresses, [a.allocationId.value]);
      assert a in m;
      assert |m| >= 1;
    }

    /** `associate_address`. The address is looked up first; then the
        instance and interface are recorded (the instance's primary
        interface when no interface is given), the interface receives the
        address's public IP, and a VPC address gets a new association id
        (`associationId` stands for `random_eip_association_id()`). */
    method AssociateAddress(instance: Option<Instance>, eni: Option<NetworkInterface>, address: Option<string>,
                            allocationId: Option<string>, reassociate: bool, associationId: string)
      returns (r: Result<ElasticAddress, string>)
      requires Valid()
      modifies addresses, (if eni.Some? then {eni.value} else {}), (if instance.Some? then {instance.value.primaryNic} else {})
      ensures Valid()
      ensures var found := old(ByIpOrAllocation(address, allocationId));
        (found.Failure? ==> r == Failure(found.error)) &&
        (found.Success? && !old(MayAssociate(found.value.instance, found.value.eni, instance, eni, reassociate)) ==>
           r == Failure("ResourceAlreadyAssociatedError")) &&
        (found.Success? && old(MayAssociate(found.value.instance, found.value.eni, instance, eni, reassociate)) ==>
           r == Success(found.value))
      ensures r.Failure? ==> forall a :: a in addresses ==> unchanged(a)
      ensures r.Success? ==> (
        var e := r.value;
        e.instance == instance && e.eni == ChosenEni(instance, eni) &&
        (e.eni.Some? ==> e.eni.value.publicIp == Some(e.publicIp)) &&
        e.associationId == (if e.domain == "vpc" then Some(associationId) else old(e.associationId)) &&
        e.allocationId == old(e.allocationId) &&
        forall a :: a in addresses && a != e ==> unchanged(a))
      ensures eni.Some? && instance.Some? && instance.value.primaryNic != eni.value ==> unchanged(instance.value.primaryNic)
    {
      var found := ByIpOrAllocation(address, allocationId);
      if found.Failure? {
        return Failure(found.error);
      }
      var eip := found.value;
      var newInstance := instance.Some? && (eip.instance.None? || eip.instance.value.id == instance.value.id);
      var newEni := eni.Some? && (eip.eni.None? || eni.value.id == eip.eni.value.id);
      if newInstance || newEni || reassociate {
        eip.Associate(instance, eni, associationId);
        return Success(eip);
      }
      return Failure("ResourceAlreadyAssociatedError");
    }

    /** The interfaces the listed addresses hold. */
    ghost function Enis(): set<NetworkInterface>
      reads this, addresses
    {
      set i | 0 <= i < |addresses| && addresses[i].eni.Some? :: addresses[i].eni.value
    }

    /** `disassociate_address`: the address forgets its instance, its
        interface and its association id, and the interface loses its
        public IP. */
    method DisassociateAddress(address: Option<string>, associationId: Option<string>) returns (r: Result<bool, string>)
      requires Valid()
      modifies addresses, Enis()
      ensures Valid()
      ensures var found := old(ByIpOrAssociation(address, associationId));
        (found.Failure? ==> r == Failure(found.error)) && (found.Success? ==> r == Success(true))
      ensures r.Failure? ==> forall a :: a in addresses ==> unchanged(a)
      ensures r.Success? ==> (
        var e := old(ByIpOrAssociation(address, associationId)).value;
        e.instance.None? && e.eni.None? && e.associationId.None? && e.allocationId == old(e.allocationId) &&
        (old(e.eni).Some? ==> old(e.eni).value.publicIp.None?) &&
        forall a :: a in addresses && a != e ==> unchanged(a))
    {
      var found := ByIpOrAssociation(address, associationId);
      if found.Failure? {
        return Failure(found.error);
      }
      found.value.Disassociate();
      return Success(true);
    }

    /** `release_address`: the address found is released. The source
        disassociates by the address's IP, so the address disassociated is
        the first listed address with that IP (the found one itself when no
        earlier address shares its IP). The found address then loses its
        allocation id and leaves the list; the other addresses keep their
        places and, but for the disassociated one, their fields. */
    method ReleaseAddress(address: Option<string>, allocationId: Option<string>) returns (r: Result<bool, string>)
      requires Valid()
      modifies this, addresses, Enis()
      ensures Valid()
      ensures var found := old(ByIpOrAllocation(address, allocationId));
        (found.Failure? ==> (r == Failure(found.error) && addresses == old(addresses) &&
           forall a :: a in addresses ==> unchanged(a))) &&
        (found.Success? ==> (
           r == Success(true) && found.value.allocationId.None? &&
           exists k :: 0 <= k < |old(addresses)| && old(addresses)[k] == found.value &&
             addresses == old(addresses)[..k] + old(addresses)[k + 1..]))
      ensures var found := old(ByIpOrAllocation(address, allocationId));
        found.Success? ==> old(ByIpOrAssociation(Some(found.value.publicIp), None)).Success?
      ensures var found := old(ByIpOrAllocation(address, allocationId));
        found.Success? ==>
        var d := old(ByIpOrAssociation(Some(found.value.publicIp), None));
        d.Success? ==> (
          var e := found.value;
          var u := d.value;
          u.publicIp == e.publicIp &&
          u.instance.None? && u.eni.None? && u.associationId.None? &&
          (old(u.eni).Some? ==> old(u.eni).value.publicIp.None?) &&
          (u != e ==> e.instance == old(e.instance) && e.eni == old(e.eni) && e.associationId == old(e.associationId)) &&
          (u != e ==> u.allocationId == old(u.allocationId)) &&
          forall a :: a in old(addresses) && a != u && a != e ==> unchanged(a))
      ensures var found := old(ByIpOrAllocation(address, allocationId));
        found.Success? && (forall a :: a in old(addresses) && a != found.value ==> a.publicIp != found.value.publicIp) ==>
          old(ByIpOrAssociation(Some(found.value.publicIp), None)) == Success(found.value)
    {
      var found := ByIpOrAllocation(address, allocationId);
      if found.Failure? {
        return Failure(found.error);
      }
      var eip := found.value;
      FoundByOwnIp(eip);
      var k :| 0 <= k < |addresses| && addresses[k] == eip;
      if forall a :: a in addresses && a != eip ==> a.publicIp != eip.publicIp {
        FirstByIp(eip.publicIp, k);
      }
      ReleaseFound(k, ByIpOrAssociation(Some(eip.publicIp), None).value);
      return Success(true);
    }

    /** `release_address` once the address at `k` is found: disassociating
        by its IP finds `u`, then the found address loses its allocation id
        and leaves the list. */
    method ReleaseFound(k: nat, ghost u: ElasticAddress)
      requires Valid() && k < |addresses|
      requires ByIpOrAssociation(Some(addresses[k].publicIp), None) == Success(u)
      modifies this, addresses, Enis()
      ensures Valid()
      ensures addresses == old(addresses)[..k] + old(addresses)[k + 1..]
      ensures var e := old(addresses)[k];
        e.allocationId.None? && u.publicIp == e.publicIp &&
        u.instance.None? && u.eni.None? && u.associationId.None? &&
        (old(u.eni).Some? ==> old(u.eni).value.publicIp.None?) &&
        (u != e ==> e.instance == old(e.instance) && e.eni == old(e.eni) && e.associationId == old(e.associationId)) &&
        (u != e ==> u.allocationId == old(u.allocationId)) &&
        forall a :: a in old(addresses) && a != u && a != e ==> unchanged(a)
    {
      var eip := addresses[k];
      FoundByOwnIp(eip);
      var done := DisassociateAddress(Some(eip.publicIp), None);
      ReleaseAt(k);
    }

    /** The last two steps of `release_address`: the address at `k` loses
        its allocation id and leaves the list. */
    method ReleaseAt(k: nat)
      requires Valid() && k < |addresses|
      modifies this, addresses[k]
      ensures Valid()
      ensures addresses == old(addresses)[..k] + old(addresses)[k + 1..]
      ensures var e := old(addresses)[k];
        e.allocationId.None? && e.instance == old(e.instance) && e.eni == old(e.eni) && e.associationId == old(e.associationId)
    {
      var eip := addresses[k];
      eip.allocationId := None;
      RemovedAt(addresses, k);
      addresses := addresses[..k] + addresses[k + 1..];
    }

    /** Whether a listed address passes both narrowings of `describe_addresses`. */
    predicate Kept(a: ElasticAddress, allocationIds: seq<string>, publicIps: seq<string>)
      reads this, addresses, a
    {
      a in addresses && Matches(a, allocationIds, publicIps)
    }

    /** `describe_addresses` without filters: narrowed by allocation ids,
        then by public IPs; each narrowing fails when it keeps fewer
        addresses than ids were asked for. A success lists, in list order,
        exactly the addresses passing both narrowings. */
    function DescribeAddresses(allocationIds: seq<string>, publicIps: seq<string>): (r: Result<seq<ElasticAddress>, string>)
      reads this, addresses
      ensures var allocationShort := allocationIds != [] && |allocationIds| > |WithAllocationIn(addresses, allocationIds)|;
        var ipShort := publicIps != [] && |publicIps| > |Narrowed(addresses, allocationIds, publicIps)|;
        (allocationShort ==> r == Failure("InvalidAllocationIdError")) &&
        (!allocationShort && ipShort ==> r == Failure("InvalidAddressError")) &&
        (!allocationShort && !ipShort ==> r == Success(Narrowed(addresses, allocationIds, publicIps)))
      ensures r.Success? ==> forall a :: a in r.value ==> Kept(a, allocationIds, publicIps)
      ensures r.Success? ==> forall a :: a in addresses && Kept(a, allocationIds, publicIps) ==> a in r.value
      ensures allocationIds == [] && publicIps == [] ==> r == Success(addresses)
    {
      var byAllocation := ByAllocationStep(addresses, allocationIds);
      if allocationIds != [] && |allocationIds| > |byAllocation| then Failure("InvalidAllocationIdError")
      else
        var byIp := ByIpStep(byAllocation, publicIps);
        NarrowedSteps(addresses, allocationIds, publicIps);
        if publicIps != [] && |publicIps| > |byIp| then Failure("InvalidAddressError")
        else Success(byIp)
    }
  }
}
