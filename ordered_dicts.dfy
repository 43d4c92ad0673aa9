/** Python's insertion-ordered `dict`, as used by the backends' stores:
    the keys in insertion order beside the key-value map. Assigning to an
    existing key keeps its place; deleting a key drops it from the order. */
module OrderedDicts {

  /** The values stored under `keys`, in that order (`d.values()`). */
  function ValuesOf<V>(keys: seq<string>, m: map<string, V>): (r: seq<V>)
    requires forall k :: k in keys ==> k in m
    ensures |r| == |keys|
    ensures forall i :: 0 <= i < |keys| ==> r[i] == m[keys[i]]
  {
    if |keys| == 0 then []
    else ValuesOf(keys[..|keys| - 1], m) + [m[keys[|keys| - 1]]]
  }

  /** A dict: `keys` is the insertion order, `m` the entries. */
  datatype ODict<V> = ODict(keys: seq<string>, m: map<string, V>)
  {
    ghost predicate Valid()
    {
      Distinct(keys) && forall k :: k in m <==> k in keys
    }

    /** `d[k] = v`: a new key goes last, an existing key keeps its place. */
    function Put(k: string, v: V): (r: ODict<V>)
      requires Valid()
      ensures r.Valid() && r.m == m[k := v]
      ensures r.keys == if k in m then keys else keys + [k]
    {
      if k in m then ODict(keys, m[k := v])
      else
        assert Distinct(keys + [k]) by {
          forall i, j | 0 <= i < j < |keys| + 1 ensures (keys + [k])[i] != (keys + [k])[j] {
            if j == |keys| { assert (keys + [k])[i] == keys[i] && keys[i] in keys; }
          }
        }
        ODict(keys + [k], m[k := v])
    }

    /** `del d[k]`: the key leaves both the order and the entries. */
    function Del(k: string): (r: ODict<V>)
      requires Valid()
      ensures r.Valid() && r.m == m - {k} && r.keys == RemoveKey(keys, k)
    {
      RemoveKeyDistinct(keys, k);
      ODict(RemoveKey(keys, k), m - {k})
    }

    /** `list(d.values())` */
    function Values(): (r: seq<V>)
      requires Valid()
      ensures |r| == |keys|
      ensures forall i :: 0 <= i < |keys| ==> r[i] == m[keys[i]]
    {
      ValuesOf(keys, m)
    }
  }

  /** `{}` */
  function EmptyDict<V>(): (r: ODict<V>)
    ensures r.Valid() && r.m == map[] && r.Values() == []
  {
    ODict([], map[])
  }

  /** `d.values()` holds exactly the values of the entries. */
  lemma ValuesAreEntries<V>(d: ODict<V>)
    requires d.Valid()
    ensures forall v :: v in d.Values() <==> v in d.m.Values
  {
    var r := d.Values();
    forall v | v in d.m.Values
      ensures v in r
    {
      var k :| k in d.m && d.m[k] == v;
      var i :| 0 <= i < |d.keys| && d.keys[i] == k;
      assert r[i] == v;
    }
  }

  /** A new key's value is appended to the values. */
  lemma PutNewValues<V>(d: ODict<V>, k: string, v: V)
    requires d.Valid() && k !in d.m
    ensures d.Put(k, v).Values() == d.Values() + [v]
  {
    var ks := d.keys + [k];
    assert ks[..|ks| - 1] == d.keys;
    ValuesOfIgnores(d.keys, d.m, k, v);
  }

  /** The values under `keys` do not see an entry for another key. */
  lemma {:induction false} ValuesOfIgnores<V>(keys: seq<string>, m: map<string, V>, k: string, v: V)
    requires (forall x :: x in keys ==> x in m) && k !in keys
    ensures ValuesOf(keys, m[k := v]) == ValuesOf(keys, m)
  {
    if |keys| > 0 {
      ValuesOfIgnores(keys[..|keys| - 1], m, k, v);
    }
  }

  /** Adding a new key and deleting it again gives back the same dict. */
  lemma PutDel<V>(d: ODict<V>, k: string, v: V)
    requires d.Valid() && k !in d.m
    ensures d.Put(k, v).Del(k) == d
  {
    var p := d.Put(k, v);
    RemoveKeyConcat(d.keys, [k], k);
    RemoveKeyAbsent(d.keys, k);
    assert RemoveKey([k], k) == [];
    assert d.keys + [] == d.keys;
    UpdateRemove(d.m, k, v);
    assert p.Del(k).keys == d.keys && p.Del(k).m == d.m;
  }

  /** An entry added for a new key and removed again leaves the map as it was. */
  lemma UpdateRemove<V>(m: map<string, V>, k: string, v: V)
    requires k !in m
    ensures m[k := v] - {k} == m
  {
  }

  /** Taking out a key that is not there changes nothing. */
  lemma {:induction false} RemoveKeyAbsent(ks: seq<string>, k: string)
    requires k !in ks
    ensures RemoveKey(ks, k) == ks
  {
    if |ks| > 0 {
      RemoveKeyAbsent(ks[1..], k);
      assert [ks[0]] + ks[1..] == ks;
    }
  }

  /** Taking a key out of a concatenation takes it out of each part. */
  lemma {:induction false} RemoveKeyConcat(a: seq<string>, b: seq<string>, k: string)
    ensures RemoveKey(a + b, k) == RemoveKey(a, k) + RemoveKey(b, k)
  {
    if |a| == 0 {
      assert a + b == b;
    } else {
      assert (a + b)[1..] == a[1..] + b;
      RemoveKeyConcat(a[1..], b, k);
    }
  }

  /** The key order with one key taken out. */
  function RemoveKey(ks: seq<string>, k: string): (r: seq<string>)
    ensures forall x :: x in r <==> x in ks && x != k
    ensures |r| <= |ks|
  {
    if |ks| == 0 then []
    else (if ks[0] == k then [] else [ks[0]]) + RemoveKey(ks[1..], k)
  }

  /** No key occurs twice. */
  predicate Distinct(ks: seq<string>)
  {
    forall i, j :: 0 <= i < j < |ks| ==> ks[i] != ks[j]
  }

  /** Taking a key out of a duplicate-free order keeps it duplicate-free. */
  lemma {:induction false} RemoveKeyDistinct(ks: seq<string>, k: string)
    requires Distinct(ks)
    ensures Distinct(RemoveKey(ks, k))
  {
    if |ks| > 0 {
      var tail := ks[1..];
      assert Distinct(tail) by {
        forall i, j | 0 <= i < j < |tail|
          ensures tail[i] != tail[j]
        {
          assert tail[i] == ks[i + 1] && tail[j] == ks[j + 1];
        }
      }
      RemoveKeyDistinct(tail, k);
      var rt := RemoveKey(tail, k);
      if ks[0] != k {
        var r := [ks[0]] + rt;
        assert RemoveKey(ks, k) == r;
        forall i, j | 0 <= i < j < |r|
          ensures r[i] != r[j]
        {
          if i == 0 {
            assert r[j] == rt[j - 1] && rt[j - 1] in rt;
          } else {
            assert r[i] == rt[i - 1] && r[j] == rt[j - 1];
          }
        }
      } else {
        assert RemoveKey(ks, k) == rt;
      }
    }
  }
}
