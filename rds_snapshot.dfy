/** DB snapshots of the RDS backend (moto/rds3/models/db_snapshot.py):
    identifier validation, the `restore` share attribute and its add/remove
    algebra, and the backend's insertion-ordered snapshot store with create,
    copy, delete, describe and attribute modification. */
module RdsSnapshot {
  import opened Wrappers
  import opened Strs
  import opened OrderedDicts

  /** The longest identifier accepted. */
  const MaxIdentifierLength := 255
  /** `MOTO_RDS_SNAPSHOT_LIMIT` at its default. */
  const SnapshotLimit := 100
  /** `MAX_SHARED_ACCOUNTS` at its default. */
  const MaxSharedAccounts := 20
  /** `DBSnapshotAttribute.ALLOWED_ATTRIBUTE_NAMES` */
  const AllowedAttributeNames := ["restore"]

  // ---------------------------------------------------------------------
  // Identifier validity

  /** `string.digits + string.ascii_letters + "-"` */
  predicate IsIdentifierChar(c: char) { IsDigit(c) || IsAsciiLetter(c) || c == '-' }

  /** No two adjacent hyphens. */
  predicate NoDoubleHyphen(s: string)
  {
    forall i :: 0 <= i < |s| - 1 ==> !(s[i] == '-' && s[i + 1] == '-')
  }

  /** `_is_identifier_valid` as written: on the empty string every flag is
      cleared, but `db_snapshot_identifier[0]` then raises. */
  function IdentifierValidAsWritten(id: string): (r: Result<bool, string>)
    ensures r.Failure? <==> id == ""
    ensures r.Failure? ==> r.error == "IndexError"
    ensures r.Success? ==> r.value == IsIdentifierValid(id)
  {
    if |id| == 0 then Failure("IndexError")
    else Success(|id| <= MaxIdentifierLength && IsAsciiLetter(id[0]) && id[|id| - 1] != '-'
      && !Contains(id, "--") && forall i :: 0 <= i < |id| ==> IsIdentifierChar(id[i]))
  }

  /** `_is_identifier_valid` as evidently intended: the empty identifier is
      simply invalid. */
  function IsIdentifierValid(id: string): bool
  {
    |id| >= 1 && |id| <= MaxIdentifierLength && IsAsciiLetter(id[0]) && id[|id| - 1] != '-'
      && !Contains(id, "--") && forall i :: 0 <= i < |id| ==> IsIdentifierChar(id[i])
  }

  /** The documented grammar: one or more runs of letters and digits joined
      by single hyphens. */
  predicate HyphenatedWords(s: string)
    decreases |s|
  {
    |s| > 0 && (IsAsciiLetter(s[0]) || IsDigit(s[0])) &&
    (|s| == 1 || (if s[1] == '-' then HyphenatedWords(s[2..]) else HyphenatedWords(s[1..])))
  }

  lemma DoubleHyphen(s: string)
    ensures Contains(s, "--") <==> !NoDoubleHyphen(s)
  {
    if Contains(s, "--") {
      var i :| 0 <= i <= |s| && OccursAt(s, "--", i);
      assert s[i..i + 2][0] == s[i] && s[i..i + 2][1] == s[i + 1];
    }
    if !NoDoubleHyphen(s) {
      var i :| 0 <= i < |s| - 1 && s[i] == '-' && s[i + 1] == '-';
      assert s[i..i + 2] == "--";
      assert OccursAt(s, "--", i);
    }
  }

  /** The hyphenated-words grammar is exactly: non-empty, only letters,
      digits and hyphens, no leading, trailing or doubled hyphen. */
  lemma {:induction false} HyphenatedWordsShape(s: string)
    ensures HyphenatedWords(s) <==>
      (|s| > 0 && s[0] != '-' && s[|s| - 1] != '-' && NoDoubleHyphen(s) &&
       forall i :: 0 <= i < |s| ==> IsIdentifierChar(s[i]))
    decreases |s|
  {
    if |s| >= 2 {
      if s[1] == '-' {
        var t := s[2..];
        HyphenatedWordsShape(t);
        if |t| > 0 {
          assert forall i :: 0 <= i < |t| ==> t[i] == s[i + 2];
          assert s[0] != '-' ==> (NoDoubleHyphen(s) <==> (t[0] != '-' && NoDoubleHyphen(t))) by {
            if NoDoubleHyphen(s) {
              assert !(s[1] == '-' && s[2] == '-');
            }
            if s[0] != '-' && t[0] != '-' && NoDoubleHyphen(t) {
              forall i | 0 <= i < |s| - 1
                ensures !(s[i] == '-' && s[i + 1] == '-')
              {
                if i >= 2 {
                  assert s[i] == t[i - 2] && s[i + 1] == t[i - 1];
                }
              }
            }
          }
          assert (forall i :: 0 <= i < |s| ==> IsIdentifierChar(s[i])) <==>
            (IsIdentifierChar(s[0]) && IsIdentifierChar(s[1]) && forall i :: 0 <= i < |t| ==> IsIdentifierChar(t[i])) by {
            if IsIdentifierChar(s[0]) && IsIdentifierChar(s[1]) && forall i :: 0 <= i < |t| ==> IsIdentifierChar(t[i]) {
              forall i | 0 <= i < |s|
                ensures IsIdentifierChar(s[i])
              {
                if i >= 2 {
                  assert s[i] == t[i - 2];
                }
              }
            }
          }
          assert s[|s| - 1] == t[|t| - 1];
        }
      } else {
        var t := s[1..];
        HyphenatedWordsShape(t);
        assert forall i :: 0 <= i < |t| ==> t[i] == s[i + 1];
        assert NoDoubleHyphen(s) <==> NoDoubleHyphen(t) by {
          if NoDoubleHyphen(t) {
            forall i | 0 <= i < |s| - 1
              ensures !(s[i] == '-' && s[i + 1] == '-')
            {
              if i >= 1 {
                assert s[i] == t[i - 1] && s[i + 1] == t[i];
              }
            }
          }
        }
        assert (forall i :: 0 <= i < |s| ==> IsIdentifierChar(s[i])) <==>
          (IsIdentifierChar(s[0]) && forall i :: 0 <= i < |t| ==> IsIdentifierChar(t[i])) by {
          if IsIdentifierChar(s[0]) && forall i :: 0 <= i < |t| ==> IsIdentifierChar(t[i]) {
            forall i | 0 <= i < |s|
              ensures IsIdentifierChar(s[i])
            {
              if i >= 1 {
                assert s[i] == t[i - 1];
              }
            }
          }
        }
        assert s[|s| - 1] == t[|t| - 1];
      }
    }
  }

  /** An identifier is valid iff it is at most 255 characters, starts with
      a letter and follows the hyphenated-words grammar. */
  lemma IdentifierGrammar(id: string)
    ensures IsIdentifierValid(id) <==>
      (0 < |id| <= MaxIdentifierLength && IsAsciiLetter(id[0]) && HyphenatedWords(id))
  {
    DoubleHyphen(id);
    HyphenatedWordsShape(id);
  }

  /** The documented example identifier is accepted. */
  lemma ExampleIdentifierValid()
    ensures IsIdentifierValid("my-snapshot-id")
  {
    var id := "my-snapshot-id";
    assert forall i :: 0 <= i < |id| ==> IsIdentifierChar(id[i]);
    assert NoDoubleHyphen(id);
    DoubleHyphen(id);
  }

  /** An identifier with a colon, such as an automated snapshot's name, is
      refused. */
  lemma ColonIdentifierInvalid()
    ensures !IsIdentifierValid("rds:snapshot-1")
  {
    assert !IsIdentifierChar("rds:snapshot-1"[3]);
  }

  /** A doubled hyphen is refused. */
  lemma DoubleHyphenInvalid()
    ensures !IsIdentifierValid("a--b")
  {
    DoubleHyphen("a--b");
    assert "a--b"[1] == '-' && "a--b"[2] == '-';
  }

  /** The empty identifier makes the source raise instead of answering
      "invalid". */
  lemma EmptyIdentifierRaises()
    ensures IdentifierValidAsWritten("") == Failure("IndexError")
    ensures !IsIdentifierValid("")
  {
  }

  // ---------------------------------------------------------------------
  // Share attributes

  /** One named attribute and its account ids. */
  datatype Attribute = Attribute(name: string, values: seq<string>)

  /** `DBSnapshotAttributeResult`: the snapshot id and its attribute list. */
  datatype AttributeResult = AttributeResult(identifier: string, attributes: seq<Attribute>)

  /** A fresh attribute result: `restore` with no accounts. */
  function InitialAttributes(id: string): (r: AttributeResult)
    ensures r.identifier == id && |r.attributes| == 1
    ensures r.attributes[0].name == "restore" && r.attributes[0].values == []
  {
    AttributeResult(id, [Attribute("restore", [])])
  }

  /** `[value for value in xs if value not in rm]` */
  function Without(xs: seq<string>, rm: seq<string>): (r: seq<string>)
    ensures |r| <= |xs|
    ensures forall v :: v in r <==> v in xs && v !in rm
  {
    if |xs| == 0 then []
    else (if xs[0] in rm then [] else [xs[0]]) + Without(xs[1..], rm)
  }

  /** The filter keeps every surviving occurrence, as many times as it occurs. */
  lemma {:induction false} WithoutCounts(xs: seq<string>, rm: seq<string>, v: string)
    ensures multiset(Without(xs, rm))[v] == if v in rm then 0 else multiset(xs)[v]
  {
    if |xs| > 0 {
      WithoutCounts(xs[1..], rm, v);
      assert xs == [xs[0]] + xs[1..];
    }
  }

  /** The filter works element by element, so it distributes over `+`: the
      relative order of the surviving values is kept. */
  lemma {:induction false} WithoutAppend(a: seq<string>, b: seq<string>, rm: seq<string>)
    ensures Without(a + b, rm) == Without(a, rm) + Without(b, rm)
  {
    if |a| > 0 {
      ConsAppend(a, b);
      WithoutAppend(a[1..], b, rm);
      AppendAssoc(if a[0] in rm then [] else [a[0]], Without(a[1..], rm), Without(b, rm));
    } else {
      assert a + b == b;
    }
  }

  /** Removing values that do not occur changes nothing. */
  lemma {:induction false} WithoutNothing(xs: seq<string>, rm: seq<string>)
    requires forall v :: v in xs ==> v !in rm
    ensures Without(xs, rm) == xs
  {
    if |xs| > 0 {
      WithoutNothing(xs[1..], rm);
      assert xs == [xs[0]] + xs[1..];
    }
  }

  /** Some value is both added and removed. */
  predicate Overlap(add: seq<string>, remove: seq<string>)
  {
    exists v :: v in add && v in remove
  }

  /** `DBSnapshotAttribute.build_from_values`; an absent add or remove list is
      the empty list. The checks run in order: attribute name, overlap, quota. */
  function BuildFromValues(name: string, values: seq<string>, add: seq<string>, remove: seq<string>): (r: Result<Attribute, string>)
    ensures name !in AllowedAttributeNames ==> r == Failure("InvalidParameterValue")
    ensures name in AllowedAttributeNames && Overlap(add, remove) ==> r == Failure("InvalidParameterCombination")
    ensures name in AllowedAttributeNames && !Overlap(add, remove) && |Without(values + add, remove)| > MaxSharedAccounts ==>
      r == Failure("SharedSnapshotQuotaExceeded")
    ensures r.Success? <==> name in AllowedAttributeNames && !Overlap(add, remove) && |Without(values + add, remove)| <= MaxSharedAccounts
    ensures r.Success? ==> r.value.name == name && forall v :: v in r.value.values <==> (v in values || v in add) && v !in remove
  {
    if name !in AllowedAttributeNames then Failure("InvalidParameterValue")
    else if Overlap(add, remove) then Failure("InvalidParameterCombination")
    else
      var kept := Without(values + add, remove);
      if |kept| > MaxSharedAccounts then Failure("SharedSnapshotQuotaExceeded")
      else Success(Attribute(name, kept))
  }

  /** Sharing with new accounts and then revoking exactly those accounts
      gives the original list back, order included. */
  lemma ShareThenRevoke(values: seq<string>, add: seq<string>)
    requires forall v :: v in add ==> v !in values
    requires |values + add| <= MaxSharedAccounts
    ensures BuildFromValues("restore", values, add, []).Success?
    ensures BuildFromValues("restore", BuildFromValues("restore", values, add, []).value.values, [], add) ==
      Success(Attribute("restore", values))
  {
    var shared := values + add;
    WithoutNothing(shared, []);
    assert !Overlap(add, []);
    var first := BuildFromValues("restore", values, add, []);
    assert first == Success(Attribute("restore", shared));
    assert !Overlap([], add);
    assert shared + [] == shared;
    WithoutAppend(values, add, add);
    WithoutNothing(values, add);
    WithoutAll(add, add);
    assert Without(shared, add) == values;
  }

  /** Removing every value of a list leaves nothing. */
  lemma {:induction false} WithoutAll(xs: seq<string>, rm: seq<string>)
    requires forall v :: v in xs ==> v in rm
    ensures Without(xs, rm) == []
  {
    if |xs| > 0 {
      assert xs[0] in xs;
      WithoutAll(xs[1..], rm);
    }
  }

  // ---------------------------------------------------------------------
  // Snapshots

  datatype Tag = Tag(key: string, value: string)

  /** The parts of a DB instance a snapshot copies. */
  datatype DBInstance = DBInstance(
    resourceId: string, engine: string, allocatedStorage: int,
    kmsKeyId: Option<string>, storageEncrypted: bool, port: int,
    availabilityZone: string, engineVersion: string, masterUsername: string,
    storageType: string, iops: Option<int>, copyTagsToSnapshot: bool, tags: seq<Tag>)

  /** A snapshot. `instance` is its private copy of the instance; the fields
      the source copies from it (engine, storage, port, ...) are read off that
      copy. `events` are the event codes recorded for this snapshot. */
  datatype DBSnapshot = DBSnapshot(
    identifier: string, snapshotType: string, status: string, tags: seq<Tag>,
    instance: DBInstance, attributes: AttributeResult, events: seq<string>)
  {
    function InstanceIdentifier(): string { instance.resourceId }
    function KmsKeyId(): Option<string> { instance.kmsKeyId }
    function Encrypted(): bool { instance.storageEncrypted }
    function ResourceId(): string { identifier }
  }

  /** Which tags a new snapshot starts with: explicit tags win, otherwise the
      instance's when it copies tags to snapshots, otherwise none. */
  function InitialTags(tags: seq<Tag>, instance: DBInstance): (r: seq<Tag>)
    ensures tags != [] ==> r == tags
    ensures tags == [] && instance.copyTagsToSnapshot ==> r == instance.tags
    ensures tags == [] && !instance.copyTagsToSnapshot ==> r == []
  {
    if tags != [] then tags
    else if instance.copyTagsToSnapshot then instance.tags
    else []
  }

  /** `DBSnapshot.__init__`: only manual snapshots have their identifier
      validated; a KMS key forces encryption on the copied instance. */
  function NewSnapshot(id: string, instance: DBInstance, snapshotType: string, tags: seq<Tag>, kmsKeyId: Option<string>): (r: Result<DBSnapshot, string>)
    ensures r.Failure? <==> snapshotType == "manual" && !IsIdentifierValid(id)
    ensures r.Failure? ==> r.error == "InvalidDBSnapshotIdentifierValue"
    ensures r.Success? ==> SnapshotOk(r.value, id)
    ensures r.Success? ==> r.value.snapshotType == snapshotType && r.value.status == "available"
    ensures r.Success? ==> r.value.tags == InitialTags(tags, instance)
    ensures r.Success? && kmsKeyId.Some? ==> r.value.KmsKeyId() == kmsKeyId && r.value.Encrypted()
    ensures r.Success? && kmsKeyId.None? ==> r.value.KmsKeyId() == instance.kmsKeyId && r.value.Encrypted() == instance.storageEncrypted
    ensures r.Success? ==> r.value.InstanceIdentifier() == instance.resourceId && r.value.events == []
  {
    if snapshotType == "manual" && !IsIdentifierValid(id) then Failure("InvalidDBSnapshotIdentifierValue")
    else
      var copied := if kmsKeyId.Some? then instance.(kmsKeyId := kmsKeyId, storageEncrypted := true) else instance;
      Success(DBSnapshot(id, snapshotType, "available", InitialTags(tags, instance), copied, InitialAttributes(id), []))
  }

  /** What the store keeps true of each snapshot under key `id`. */
  predicate SnapshotOk(s: DBSnapshot, id: string)
  {
    s.identifier == id && |s.attributes.attributes| >= 1
  }

  /** The two events a creation records, start then finish: each whole message is upper-cased. */
  function CreateEvents(snapshotType: string): (r: seq<string>)
    ensures |r| == 2
    ensures r[0] == "DB_SNAPSHOT_CREATE_" + Upper(snapshotType) + "_START"
    ensures r[1] == "DB_SNAPSHOT_CREATE_" + Upper(snapshotType) + "_FINISH"
    ensures StartsWith(r[0], "DB_SNAPSHOT_CREATE_") && StartsWith(r[1], "DB_SNAPSHOT_CREATE_")
    ensures EndsWith(r[0], "_START") && EndsWith(r[1], "_FINISH")
  {
    var start := Upper("DB_SNAPSHOT_CREATE_" + snapshotType + "_START");
    var finish := Upper("DB_SNAPSHOT_CREATE_" + snapshotType + "_FINISH");
    UpperFixedParts("DB_SNAPSHOT_CREATE_", snapshotType, "_START");
    UpperFixedParts("DB_SNAPSHOT_CREATE_", snapshotType, "_FINISH");
    assert start[..|"DB_SNAPSHOT_CREATE_"|] == "DB_SNAPSHOT_CREATE_";
    assert finish[..|"DB_SNAPSHOT_CREATE_"|] == "DB_SNAPSHOT_CREATE_";
    assert start[|start| - |"_START"|..] == "_START";
    assert finish[|finish| - |"_FINISH"|..] == "_FINISH";
    [start, finish]
  }

  /** Upper-casing a message whose fixed parts carry no lower-case letter only upper-cases its variable middle. */
  lemma UpperFixedParts(pre: string, mid: string, post: string)
    requires forall i :: 0 <= i < |pre| ==> !IsAsciiLower(pre[i])
    requires forall i :: 0 <= i < |post| ==> !IsAsciiLower(post[i])
    ensures Upper(pre + mid + post) == pre + Upper(mid) + post
  {
    var u := Upper(pre + mid + post);
    var w := pre + Upper(mid) + post;
    assert |u| == |w|;
    forall i | 0 <= i < |u|
      ensures u[i] == w[i]
    {
      if i < |pre| {
        assert (pre + mid + post)[i] == pre[i];
      } else if i < |pre| + |mid| {
        assert (pre + mid + post)[i] == mid[i - |pre|];
      } else {
        assert (pre + mid + post)[i] == post[i - |pre| - |mid|];
      }
    }
  }

  /** `DBInstanceAutomatedBackup`: an instance and its automated snapshots. */
  datatype AutomatedBackup = AutomatedBackup(instanceIdentifier: string, snapshots: seq<DBSnapshot>)

  /** Its `status`: `active` while the instance exists, else `retained`. */
  function BackupStatus(b: AutomatedBackup, instances: set<string>): (r: string)
    ensures r == "active" <==> b.instanceIdentifier in instances
    ensures r == "active" || r == "retained"
  {
    if b.instanceIdentifier in instances then "active" else "retained"
  }

  // ---------------------------------------------------------------------
  // Describe filters, as functions on the snapshots in store order

  /** The snapshots of instance `inst` whose type is one of `types`, in order. */
  function OfInstance(snaps: seq<DBSnapshot>, inst: string, types: seq<string>): (r: seq<DBSnapshot>)
    ensures forall s :: s in r <==> s in snaps && s.InstanceIdentifier() == inst && s.snapshotType in types
    ensures |r| <= |snaps|
  {
    if |snaps| == 0 then []
    else
      var last := snaps[|snaps| - 1];
      OfInstance(snaps[..|snaps| - 1], inst, types) +
        (if last.InstanceIdentifier() == inst && last.snapshotType in types then [last] else [])
  }

  /** Snapshots restricted to one instance when an id is given (`is not None`). */
  function ForInstance(snaps: seq<DBSnapshot>, inst: Option<string>): (r: seq<DBSnapshot>)
    ensures inst.None? ==> r == snaps
    ensures inst.Some? ==> forall s :: s in r <==> s in snaps && s.InstanceIdentifier() == inst.value
  {
    if inst.None? then snaps
    else if |snaps| == 0 then []
    else
      var last := snaps[|snaps| - 1];
      ForInstance(snaps[..|snaps| - 1], inst) + (if last.InstanceIdentifier() == inst.value then [last] else [])
  }

  /** The automated snapshots of `inst`, in order. */
  function AutomatedOf(snaps: seq<DBSnapshot>, inst: string): seq<DBSnapshot>
  {
    if |snaps| == 0 then []
    else
      var last := snaps[|snaps| - 1];
      AutomatedOf(snaps[..|snaps| - 1], inst) + AutomatedStep(last, inst)
  }

  /** What one more snapshot adds to `AutomatedOf`. */
  function AutomatedStep(s: DBSnapshot, inst: string): seq<DBSnapshot>
  {
    if s.snapshotType == "automated" && s.InstanceIdentifier() == inst then [s] else []
  }

  /** A group holds exactly the automated snapshots of its instance. */
  lemma {:induction false} AutomatedOfMembers(snaps: seq<DBSnapshot>, inst: string)
    ensures forall s :: s in AutomatedOf(snaps, inst) <==> s in snaps && s.snapshotType == "automated" && s.InstanceIdentifier() == inst
  {
    if |snaps| > 0 {
      var init := snaps[..|snaps| - 1];
      AutomatedOfMembers(init, inst);
      assert snaps == init + [snaps[|snaps| - 1]];
    }
  }

  /** The instances with automated snapshots, in order of first appearance. */
  function AutomatedOwners(snaps: seq<DBSnapshot>): seq<string>
  {
    if |snaps| == 0 then []
    else
      var init := snaps[..|snaps| - 1];
      var last := snaps[|snaps| - 1];
      var owners := AutomatedOwners(init);
      if last.snapshotType == "automated" && last.InstanceIdentifier() !in owners
      then owners + [last.InstanceIdentifier()]
      else owners
  }

  /** An instance is listed exactly when it has an automated snapshot. */
  lemma {:induction false} OwnerIff(snaps: seq<DBSnapshot>, k: string)
    ensures k in AutomatedOwners(snaps) <==> AutomatedOf(snaps, k) != []
  {
    if |snaps| > 0 {
      var init := snaps[..|snaps| - 1];
      OwnerIff(init, k);
      OwnerIff(init, snaps[|snaps| - 1].InstanceIdentifier());
    }
  }

  /** No instance is listed twice. */
  lemma {:induction false} OwnersDistinct(snaps: seq<DBSnapshot>)
    ensures forall i, j :: 0 <= i < j < |AutomatedOwners(snaps)| ==> AutomatedOwners(snaps)[i] != AutomatedOwners(snaps)[j]
  {
    if |snaps| > 0 {
      var init := snaps[..|snaps| - 1];
      var last := snaps[|snaps| - 1];
      OwnersDistinct(init);
      var o := AutomatedOwners(init);
      if last.snapshotType == "automated" && last.InstanceIdentifier() !in o {
        var r := o + [last.InstanceIdentifier()];
        forall i, j | 0 <= i < j < |r|
          ensures r[i] != r[j]
        {
          if j == |o| {
            assert r[i] == o[i] && o[i] in o && r[j] == last.InstanceIdentifier();
          } else {
            assert r[i] == o[i] && r[j] == o[j];
          }
        }
      }
    }
  }

  /** The values of one more key, filtered: the filter of the values before
      it, then that key's value when it passes. */
  lemma OfInstanceSnoc(keys: seq<string>, m: map<string, DBSnapshot>, i: nat, inst: string, types: seq<string>)
    requires i < |keys| && forall k :: k in keys ==> k in m
    ensures var s := m[keys[i]];
      OfInstance(ValuesOf(keys[..i + 1], m), inst, types) ==
        OfInstance(ValuesOf(keys[..i], m), inst, types) + (if s.InstanceIdentifier() == inst && s.snapshotType in types then [s] else [])
  {
    var front := ValuesOf(keys[..i], m);
    assert keys[..i + 1][..i] == keys[..i];
    var all := ValuesOf(keys[..i + 1], m);
    assert all == front + [m[keys[i]]];
    assert all[..|all| - 1] == front;
  }

  /** The loop of `describe_db_snapshots` over the stored snapshots, keeping
      those of one instance and of the requested types, in order. */
  method CollectOfInstance(keys: seq<string>, m: map<string, DBSnapshot>, inst: string, types: seq<string>)
    returns (acc: seq<DBSnapshot>)
    requires forall k :: k in keys ==> k in m
    ensures acc == OfInstance(ValuesOf(keys, m), inst, types)
  {
    acc := [];
    for i := 0 to |keys|
      invariant acc == OfInstance(ValuesOf(keys[..i], m), inst, types)
    {
      var s := m[keys[i]];
      OfInstanceSnoc(keys, m, i, inst, types);
      if s.InstanceIdentifier() == inst && s.snapshotType in types {
        acc := acc + [s];
      }
    }
    assert keys[..|keys|] == keys;
  }

  function TypeFilter(snapshotType: Option<string>): seq<string>
  {
    if snapshotType.None? then ["automated", "manual"] else [snapshotType.value]
  }

  // ---------------------------------------------------------------------
  // The backend

  /** `DBSnapshotBackend`: `db_snapshots` is an insertion-ordered dict,
      modelled as its key order `ids` beside the map `snapshots`. */
  class DBSnapshotBackend {
    var ids: seq<string>
    var snapshots: map<string, DBSnapshot>

    ghost predicate Valid()
      reads this
    {
      Distinct(ids) &&
      (forall k :: k in snapshots <==> k in ids) &&
      (forall k :: k in snapshots ==> SnapshotOk(snapshots[k], k))
    }

    constructor()
      ensures Valid() && ids == [] && snapshots == map[]
    {
      ids := [];
      snapshots := map[];
    }

    /** The stored snapshots in insertion order (`db_snapshots.values()`). */
    function Values(): (r: seq<DBSnapshot>)
      reads this
      requires Valid()
      ensures |r| == |ids| && forall i :: 0 <= i < |ids| ==> r[i] == snapshots[ids[i]]
    {
      ValuesOf(ids, snapshots)
    }

    /** `get_db_snapshot` */
    function GetDbSnapshot(id: string): (r: Result<DBSnapshot, string>)
      reads this
      ensures r.Success? <==> id in snapshots
      ensures r.Success? ==> r.value == snapshots[id]
      ensures r.Failure? ==> r.error == "DBSnapshotNotFound"
    {
      if id in snapshots then Success(snapshots[id]) else Failure("DBSnapshotNotFound")
    }

    /** `describe_db_snapshot_attributes` */
    function DescribeDbSnapshotAttributes(id: string): (r: Result<AttributeResult, string>)
      reads this
      ensures r.Success? <==> id in snapshots
      ensures r.Success? ==> r.value == snapshots[id].attributes
      ensures r.Failure? ==> r.error == "DBSnapshotNotFound"
    {
      match GetDbSnapshot(id)
      case Failure(e) => Failure(e)
      case Success(s) => Success(s.attributes)
    }

    /** Appends a new key; the store stays well formed. */
    method Insert(id: string, s: DBSnapshot)
      requires Valid() && id !in snapshots && SnapshotOk(s, id)
      modifies this
      ensures Valid()
      ensures ids == old(ids) + [id] && snapshots == old(snapshots)[id := s]
    {
      ids := ids + [id];
      snapshots := snapshots[id := s];
    }

    /** `copy_db_snapshot`. `describeKey` stands for the KMS lookup: the key
        id for a key or alias, `None` when the lookup raises. The checks run
        in order: target exists, quota, KMS key, source snapshot. */
    method CopyDbSnapshot(source: string, target: string, kmsKeyId: Option<string>, tags: seq<Tag>, copyTags: bool,
                          describeKey: string -> Option<string>) returns (r: Result<DBSnapshot, string>)
      requires Valid()
      modifies this
      ensures Valid()
      ensures target in old(snapshots) ==> r == Failure("DBSnapshotAlreadyExists")
      ensures target !in old(snapshots) && |old(ids)| >= SnapshotLimit ==> r == Failure("SnapshotQuotaExceeded")
      ensures target !in old(snapshots) && |old(ids)| < SnapshotLimit && kmsKeyId.Some? && describeKey(kmsKeyId.value).None? ==>
        r == Failure("KMSKeyNotAccessibleFault")
      ensures target !in old(snapshots) && |old(ids)| < SnapshotLimit && (kmsKeyId.None? || describeKey(kmsKeyId.value).Some?) ==>
        (source !in old(snapshots) ==> r == Failure("DBSnapshotNotFound")) &&
        (source in old(snapshots) ==>
          var src := old(snapshots)[source];
          r == NewSnapshot(target, src.instance, "manual",
                           if copyTags && tags == [] then src.tags else tags,
                           if kmsKeyId.Some? then describeKey(kmsKeyId.value) else None))
      ensures r.Success? ==> ids == old(ids) + [target] && snapshots == old(snapshots)[target := r.value]
      ensures r.Failure? ==> ids == old(ids) && snapshots == old(snapshots)
    {
      if target in snapshots {
        return Failure("DBSnapshotAlreadyExists");
      }
      if |ids| >= SnapshotLimit {
        return Failure("SnapshotQuotaExceeded");
      }
      var key := None;
      if kmsKeyId.Some? {
        key := describeKey(kmsKeyId.value);
        if key.None? {
          return Failure("KMSKeyNotAccessibleFault");
        }
      }
      if source !in snapshots {
        return Failure("DBSnapshotNotFound");
      }
      var src := snapshots[source];
      var useTags := tags;
      if copyTags && tags == [] {
        useTags := src.tags;
      }
      r := NewSnapshot(target, src.instance, "manual", useTags, key);
      if r.Success? {
        Insert(target, r.value);
      }
    }

    /** `create_db_snapshot`. `instances` stands for the instance store, whose
        lookup fails with `DBInstanceNotFound`. */
    method CreateDbSnapshot(instanceId: string, id: string, tags: seq<Tag>, snapshotType: string,
                            instances: map<string, DBInstance>) returns (r: Result<DBSnapshot, string>)
      requires Valid()
      modifies this
      ensures Valid()
      ensures id in old(snapshots) ==> r == Failure("DBSnapshotAlreadyExists")
      ensures id !in old(snapshots) && |old(ids)| >= SnapshotLimit ==> r == Failure("SnapshotQuotaExceeded")
      ensures id !in old(snapshots) && |old(ids)| < SnapshotLimit && instanceId !in instances ==> r == Failure("DBInstanceNotFound")
      ensures id !in old(snapshots) && |old(ids)| < SnapshotLimit && instanceId in instances ==>
        var made := NewSnapshot(id, instances[instanceId], snapshotType, tags, None);
        (made.Failure? ==> r == made) &&
        (made.Success? ==> r == Success(made.value.(events := CreateEvents(snapshotType))))
      ensures r.Success? ==> ids == old(ids) + [id] && snapshots == old(snapshots)[id := r.value]
      ensures r.Failure? ==> ids == old(ids) && snapshots == old(snapshots)
    {
      if id in snapshots {
        return Failure("DBSnapshotAlreadyExists");
      }
      if |ids| >= SnapshotLimit {
        return Failure("SnapshotQuotaExceeded");
      }
      if instanceId !in instances {
        return Failure("DBInstanceNotFound");
      }
      var made := NewSnapshot(id, instances[instanceId], snapshotType, tags, None);
      if made.Failure? {
        return made;
      }
      var s := made.value.(events := CreateEvents(snapshotType));
      Insert(id, s);
      r := Success(s);
    }

    /** `delete_db_snapshot`: removes exactly that key, keeping the order of
        the others, and returns the snapshot removed. */
    method DeleteDbSnapshot(id: string) returns (r: Result<DBSnapshot, string>)
      requires Valid()
      modifies this
      ensures Valid()
      ensures id !in old(snapshots) ==> r == Failure("DBSnapshotNotFound") && ids == old(ids) && snapshots == old(snapshots)
      ensures id in old(snapshots) ==> (r == Success(old(snapshots)[id]) &&
        ids == RemoveKey(old(ids), id) && snapshots == old(snapshots) - {id})
    {
      if id !in snapshots {
        return Failure("DBSnapshotNotFound");
      }
      r := Success(snapshots[id]);
      RemoveKeyDistinct(ids, id);
      ids := RemoveKey(ids, id);
      snapshots := snapshots - {id};
    }

    /** `describe_db_snapshots`: one snapshot by id; else an instance's
        snapshots of the requested types; else every snapshot, whatever the
        type. */
    method DescribeDbSnapshots(instanceId: Option<string>, id: Option<string>, snapshotType: Option<string>)
      returns (r: Result<seq<DBSnapshot>, string>)
      requires Valid()
      ensures Given(id) ==> (id.value in snapshots ==> r == Success([snapshots[id.value]])) &&
                            (id.value !in snapshots ==> r == Failure("DBSnapshotNotFound"))
      ensures !Given(id) && Given(instanceId) ==> r == Success(OfInstance(Values(), instanceId.value, TypeFilter(snapshotType)))
      ensures !Given(id) && !Given(instanceId) ==> r == Success(Values())
    {
      if Given(id) {
        var found := GetDbSnapshot(id.value);
        match found
        case Failure(e) => return Failure(e);
        case Success(s) => return Success([s]);
      }
      var types := TypeFilter(snapshotType);
      if Given(instanceId) {
        var acc := CollectOfInstance(ids, snapshots, instanceId.value, types);
        return Success(acc);
      }
      return Success(Values());
    }

    /** `describe_db_instance_automated_backups`: automated snapshots grouped
        by instance, groups in order of first appearance. */
    method DescribeDbInstanceAutomatedBackups(instanceId: Option<string>) returns (r: seq<AutomatedBackup>)
      requires Valid()
      ensures var snaps := ForInstance(Values(), instanceId);
        var owners := AutomatedOwners(snaps);
        |r| == |owners| &&
        forall j :: 0 <= j < |r| ==> r[j] == AutomatedBackup(owners[j], AutomatedOf(snaps, owners[j]))
    {
      var snaps := ForInstance(Values(), instanceId);
      var owners, grouped := GroupAutomated(snaps);
      r := seq(|owners|, j requires 0 <= j < |owners| => AutomatedBackup(owners[j], grouped[owners[j]]));
    }

    /** `modify_db_snapshot_attribute`: only a manual snapshot may be shared,
        and only its first attribute is replaced. */
    method ModifyDbSnapshotAttribute(id: string, name: string, add: seq<string>, remove: seq<string>)
      returns (r: Result<AttributeResult, string>)
      requires Valid()
      modifies this
      ensures Valid()
      ensures id !in old(snapshots) ==> r == Failure("DBSnapshotNotFound")
      ensures id in old(snapshots) && old(snapshots)[id].snapshotType != "manual" ==> r == Failure("InvalidDBSnapshotIdentifierValue")
      ensures id in old(snapshots) && old(snapshots)[id].snapshotType == "manual" ==>
        var s := old(snapshots)[id];
        var built := BuildFromValues(name, s.attributes.attributes[0].values, add, remove);
        (built.Failure? ==> r == Failure(built.error)) &&
        (built.Success? ==> r == Success(s.attributes.(attributes := s.attributes.attributes[0 := built.value])))
      ensures r.Success? ==> ids == old(ids) && snapshots == old(snapshots)[id := old(snapshots)[id].(attributes := r.value)]
      ensures r.Failure? ==> ids == old(ids) && snapshots == old(snapshots)
    {
      if id !in snapshots {
        return Failure("DBSnapshotNotFound");
      }
      var s := snapshots[id];
      if s.snapshotType != "manual" {
        return Failure("InvalidDBSnapshotIdentifierValue");
      }
      var built := BuildFromValues(name, s.attributes.attributes[0].values, add, remove);
      if built.Failure? {
        return Failure(built.error);
      }
      var updated := s.attributes.(attributes := s.attributes.attributes[0 := built.value]);
      snapshots := snapshots[id := s.(attributes := updated)];
      r := Success(updated);
    }
  }

  /** The `defaultdict(list)` grouping of automated snapshots by instance:
      the keys in order of first appearance and each key's snapshots. */
  method GroupAutomated(snaps: seq<DBSnapshot>) returns (owners: seq<string>, grouped: map<string, seq<DBSnapshot>>)
    ensures owners == AutomatedOwners(snaps)
    ensures forall k :: k in grouped <==> k in owners
    ensures forall k :: k in grouped ==> grouped[k] == AutomatedOf(snaps, k)
  {
    owners := [];
    grouped := map[];
    for i := 0 to |snaps|
      invariant Grouped(snaps[..i], owners, grouped)
    {
      var s := snaps[i];
      GroupSnoc(snaps, i);
      if s.snapshotType == "automated" {
        var k := s.InstanceIdentifier();
        if k !in grouped {
          GroupNew(snaps, i, owners, grouped);
          owners := owners + [k];
          grouped := grouped[k := [s]];
        } else {
          GroupAdd(snaps, i, owners, grouped);
          grouped := grouped[k := grouped[k] + [s]];
        }
      } else {
        GroupSkip(snaps, i, owners, grouped);
      }
    }
    assert snaps[..|snaps|] == snaps;
  }

  /** `owners` and `grouped` are the grouping of `snaps`. */
  ghost predicate Grouped(snaps: seq<DBSnapshot>, owners: seq<string>, grouped: map<string, seq<DBSnapshot>>)
  {
    owners == AutomatedOwners(snaps) &&
    (forall k :: k in grouped <==> k in owners) &&
    (forall k :: k in grouped ==> grouped[k] == AutomatedOf(snaps, k))
  }

  /** The grouping of one more snapshot, from that of those before it. */
  lemma GroupSnoc(snaps: seq<DBSnapshot>, i: nat)
    requires i < |snaps|
    ensures forall k :: AutomatedOf(snaps[..i + 1], k) == AutomatedOf(snaps[..i], k) + AutomatedStep(snaps[i], k)
    ensures var s := snaps[i]; var before := AutomatedOwners(snaps[..i]);
      AutomatedOwners(snaps[..i + 1]) ==
        if s.snapshotType == "automated" && s.InstanceIdentifier() !in before then before + [s.InstanceIdentifier()] else before
  {
    var prefix := snaps[..i + 1];
    assert prefix[..i] == snaps[..i] && prefix[i] == snaps[i];
  }

  /** A manual snapshot leaves the grouping as it is. */
  lemma GroupSkip(snaps: seq<DBSnapshot>, i: nat, owners: seq<string>, grouped: map<string, seq<DBSnapshot>>)
    requires i < |snaps| && snaps[i].snapshotType != "automated"
    requires Grouped(snaps[..i], owners, grouped)
    ensures Grouped(snaps[..i + 1], owners, grouped)
  {
    GroupSnoc(snaps, i);
    forall k | k in grouped
      ensures grouped[k] == AutomatedOf(snaps[..i + 1], k)
    {
      assert AutomatedStep(snaps[i], k) == [];
    }
  }

  /** The first automated snapshot of an instance opens its group. */
  lemma GroupNew(snaps: seq<DBSnapshot>, i: nat, owners: seq<string>, grouped: map<string, seq<DBSnapshot>>)
    requires i < |snaps| && snaps[i].snapshotType == "automated" && snaps[i].InstanceIdentifier() !in grouped
    requires Grouped(snaps[..i], owners, grouped)
    ensures var k := snaps[i].InstanceIdentifier();
      Grouped(snaps[..i + 1], owners + [k], grouped[k := [snaps[i]]])
  {
    var s := snaps[i];
    var k := s.InstanceIdentifier();
    GroupSnoc(snaps, i);
    OwnerIff(snaps[..i], k);
    var g := grouped[k := [s]];
    forall j | j in g
      ensures g[j] == AutomatedOf(snaps[..i + 1], j)
    {
      if j != k {
        assert AutomatedStep(s, j) == [];
      }
    }
  }

  /** A later automated snapshot of an instance joins its group, last. */
  lemma GroupAdd(snaps: seq<DBSnapshot>, i: nat, owners: seq<string>, grouped: map<string, seq<DBSnapshot>>)
    requires i < |snaps| && snaps[i].snapshotType == "automated" && snaps[i].InstanceIdentifier() in grouped
    requires Grouped(snaps[..i], owners, grouped)
    ensures var k := snaps[i].InstanceIdentifier();
      Grouped(snaps[..i + 1], owners, grouped[k := grouped[k] + [snaps[i]]])
  {
    var s := snaps[i];
    var k := s.InstanceIdentifier();
    GroupSnoc(snaps, i);
    var g := grouped[k := grouped[k] + [s]];
    forall j | j in g
      ensures g[j] == AutomatedOf(snaps[..i + 1], j)
    {
      if j != k {
        assert AutomatedStep(s, j) == [];
      }
    }
  }
}
