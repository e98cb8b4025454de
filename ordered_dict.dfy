/**
 * A model of Python's built-in `dict`: keys kept in insertion order plus the
 * key-to-value mapping. Assigning to an existing key replaces its value and
 * keeps its position; assigning to a new key appends it.
 */
module OrderedDict {

  datatype Dict<V> = Dict(keys: seq<string>, vals: map<string, V>)

  predicate Distinct(s: seq<string>)
  {
    forall i, j :: 0 <= i < j < |s| ==> s[i] != s[j]
  }

  /** The keys listed are exactly the keys mapped, each listed once. */
  ghost predicate Valid<V>(d: Dict<V>)
  {
    Distinct(d.keys) && forall k :: k in d.vals <==> k in d.keys
  }

  function Empty<V>(): (d: Dict<V>)
    ensures Valid(d) && d.keys == [] && d.vals == map[]
  {
    Dict([], map[])
  }

  /** `d[k] = v` */
  function Put<V>(d: Dict<V>, k: string, v: V): (r: Dict<V>)
    requires Valid(d)
    ensures Valid(r)
    ensures r.vals == d.vals[k := v]
    ensures k in d.vals ==> r.keys == d.keys
    ensures k !in d.vals ==> r.keys == d.keys + [k]
  {
    if k in d.vals then Dict(d.keys, d.vals[k := v]) else Dict(d.keys + [k], d.vals[k := v])
  }

  /** The keys of `ks` that are not in `present`, in the order of `ks`. */
  function Appended(ks: seq<string>, present: set<string>): (r: seq<string>)
  {
    if ks == [] then [] else
      (if ks[0] in present then [] else [ks[0]]) + Appended(ks[1..], present)
  }

  /** Assign `m[k]` to every key `k` of `ks`, in order. */
  function PutAll<V>(d: Dict<V>, ks: seq<string>, m: map<string, V>): (r: Dict<V>)
    requires Valid(d)
    requires forall k :: k in ks ==> k in m
    ensures Valid(r)
    decreases |ks|
  {
    if ks == [] then d else PutAll(Put(d, ks[0], m[ks[0]]), ks[1..], m)
  }

  /** `d.update(e)` */
  function Update<V>(d: Dict<V>, e: Dict<V>): (r: Dict<V>)
    requires Valid(d) && Valid(e)
    ensures Valid(r)
  {
    PutAll(d, e.keys, e.vals)
  }

  /** `d.pop(k)` for a key that is present, keeping the order of the rest. */
  function Remove<V>(d: Dict<V>, k: string): (r: Dict<V>)
    requires Valid(d) && k in d.vals
    ensures Valid(r)
    ensures r.vals == d.vals - {k}
    ensures r.keys == Without(d.keys, k)
  {
    Dict(Without(d.keys, k), d.vals - {k})
  }

  function Without(s: seq<string>, k: string): (r: seq<string>)
    ensures forall x :: x in r <==> x in s && x != k
    ensures Distinct(s) ==> Distinct(r)
  {
    if s == [] then [] else
      var rest := Without(s[1..], k);
      DistinctTail(s);
      if s[0] == k then rest else [s[0]] + rest
  }

  /** The entries of `s` that are not in `ks`, in the order of `s`. */
  function Keep(s: seq<string>, ks: seq<string>): (r: seq<string>)
    ensures forall x :: x in r <==> x in s && x !in ks
  {
    if s == [] then [] else (if s[0] in ks then [] else [s[0]]) + Keep(s[1..], ks)
  }

  /** Filtering out `ks` and then `k` is filtering out `ks + [k]`. */
  lemma {:induction false} WithoutKeep(s: seq<string>, ks: seq<string>, k: string)
    ensures Without(Keep(s, ks), k) == Keep(s, ks + [k])
  {
    if s != [] {
      var rest := Keep(s[1..], ks);
      WithoutKeep(s[1..], ks, k);
      assert s[0] in ks + [k] <==> s[0] in ks || s[0] == k;
      if s[0] in ks {
        assert Keep(s, ks) == rest;
      } else {
        assert Keep(s, ks) == [s[0]] + rest;
        WithoutCons(s[0], rest, k);
      }
    }
  }

  lemma WithoutCons(x: string, rest: seq<string>, k: string)
    ensures Without([x] + rest, k) == if x == k then Without(rest, k) else [x] + Without(rest, k)
  {
    assert ([x] + rest)[0] == x && ([x] + rest)[1..] == rest;
  }

  lemma {:induction false} KeepNothing(s: seq<string>)
    ensures Keep(s, []) == s
  {
    if s != [] {
      KeepNothing(s[1..]);
    }
  }

  lemma DistinctTail(s: seq<string>)
    requires s != []
    ensures Distinct(s) ==> s[0] !in s[1..] && Distinct(s[1..])
  {
    if Distinct(s) {
      forall i | 0 <= i < |s[1..]| ensures s[1..][i] != s[0] {
        assert s[1..][i] == s[i + 1];
      }
    }
  }

  lemma DistinctInit(s: seq<string>)
    requires s != [] && Distinct(s)
    ensures Distinct(s[..|s| - 1]) && s[|s| - 1] !in s[..|s| - 1]
  {
    var init := s[..|s| - 1];
    forall a | 0 <= a < |init| ensures init[a] != s[|s| - 1] {
      assert init[a] == s[a];
    }
  }

  lemma {:induction false} AppendedIgnores(ks: seq<string>, present: set<string>, k: string)
    requires k !in ks
    ensures Appended(ks, present + {k}) == Appended(ks, present)
  {
    if ks != [] {
      AppendedIgnores(ks[1..], present, k);
    }
  }

  /**
   * What `PutAll` does to the values: later assignments win over earlier
   * ones, and keys not assigned keep their values.
   */
  lemma {:induction false} PutAllVals<V>(d: Dict<V>, ks: seq<string>, m: map<string, V>)
    requires Valid(d)
    requires forall k :: k in ks ==> k in m
    ensures forall k :: k in PutAll(d, ks, m).vals <==> k in d.vals || k in ks
    ensures forall k :: k in ks ==> PutAll(d, ks, m).vals[k] == m[k]
    ensures forall k :: k in d.vals && k !in ks ==> PutAll(d, ks, m).vals[k] == d.vals[k]
    decreases |ks|
  {
    if ks != [] {
      PutAllVals(Put(d, ks[0], m[ks[0]]), ks[1..], m);
      assert forall k :: k in ks <==> k == ks[0] || k in ks[1..];
    }
  }

  /**
   * What `PutAll` does to the order: keys already present keep their
   * positions, and new keys are appended in the order given.
   */
  lemma {:induction false} PutAllKeys<V>(d: Dict<V>, ks: seq<string>, m: map<string, V>)
    requires Valid(d) && Distinct(ks)
    requires forall k :: k in ks ==> k in m
    ensures PutAll(d, ks, m).keys == d.keys + Appended(ks, d.vals.Keys)
    decreases |ks|
  {
    if ks != [] {
      var d' := Put(d, ks[0], m[ks[0]]);
      DistinctTail(ks);
      PutAllKeys(d', ks[1..], m);
      PutKeysStep(d, ks[0], m[ks[0]], ks[1..]);
      assert ks == [ks[0]] + ks[1..];
    }
  }

  /** One step of `PutAllKeys`: assigning `k` first, then the rest. */
  lemma PutKeysStep<V>(d: Dict<V>, k: string, v: V, rest: seq<string>)
    requires Valid(d) && k !in rest
    ensures Put(d, k, v).keys + Appended(rest, Put(d, k, v).vals.Keys)
         == d.keys + Appended([k] + rest, d.vals.Keys)
  {
    AppendedCons(k, rest, d.vals.Keys);
    if k in d.vals {
      PutOldKey(d, k, v, rest);
    } else {
      PutNewKey(d, k, v, rest);
    }
  }

  lemma PutOldKey<V>(d: Dict<V>, k: string, v: V, rest: seq<string>)
    requires Valid(d) && k in d.vals
    ensures Put(d, k, v).keys + Appended(rest, Put(d, k, v).vals.Keys)
         == d.keys + ([] + Appended(rest, d.vals.Keys))
  {
    assert Put(d, k, v).vals.Keys == d.vals.Keys;
  }

  lemma AppendedCons(k: string, rest: seq<string>, present: set<string>)
    ensures Appended([k] + rest, present) == (if k in present then [] else [k]) + Appended(rest, present)
  {
    assert ([k] + rest)[1..] == rest;
  }

  lemma PutNewKey<V>(d: Dict<V>, k: string, v: V, rest: seq<string>)
    requires Valid(d) && k !in rest && k !in d.vals
    ensures Put(d, k, v).keys + Appended(rest, Put(d, k, v).vals.Keys)
         == d.keys + ([k] + Appended(rest, d.vals.Keys))
  {
    var present := d.vals.Keys;
    assert Put(d, k, v).vals.Keys == present + {k};
    AppendedIgnores(rest, present, k);
  }

  /**
   * `d.update(e)`: the values are those of `e` over those of `d`; the keys of
   * `d` keep their positions and the new keys of `e` follow in `e`'s order.
   */
  lemma UpdateSpec<V>(d: Dict<V>, e: Dict<V>)
    requires Valid(d) && Valid(e)
    ensures Update(d, e).vals == d.vals + e.vals
    ensures Update(d, e).keys == d.keys + Appended(e.keys, d.vals.Keys)
  {
    UpdateVals(d, e);
    UpdateKeys(d, e);
  }

  /** The values of `d.update(e)`: those of `e` over those of `d`. */
  lemma UpdateVals<V>(d: Dict<V>, e: Dict<V>)
    requires Valid(d) && Valid(e)
    ensures Update(d, e).vals == d.vals + e.vals
  {
    PutAllVals(d, e.keys, e.vals);
  }

  /** The keys of `d.update(e)`: those of `d`, then the new keys of `e` in `e`'s order. */
  lemma UpdateKeys<V>(d: Dict<V>, e: Dict<V>)
    requires Valid(d) && Valid(e)
    ensures Update(d, e).keys == d.keys + Appended(e.keys, d.vals.Keys)
  {
    PutAllKeys(d, e.keys, e.vals);
  }

  lemma {:induction false} AppendedNone(ks: seq<string>, present: set<string>)
    requires forall k :: k in ks ==> k !in present
    ensures Appended(ks, present) == ks
  {
    if ks != [] {
      AppendedNone(ks[1..], present);
    }
  }

  lemma {:induction false} AppendedAll(ks: seq<string>, present: set<string>)
    requires forall k :: k in ks ==> k in present
    ensures Appended(ks, present) == []
  {
    if ks != [] {
      AppendedAll(ks[1..], present);
    }
  }

  /** Updating with an empty dict, or updating an empty dict, changes nothing. */
  lemma UpdateEmpty<V>(d: Dict<V>)
    requires Valid(d)
    ensures Update(Empty(), d) == d && Update(d, Empty()) == d
  {
    UpdateWithEmpty(d);
    UpdateOfEmpty(d);
  }

  lemma UpdateWithEmpty<V>(d: Dict<V>)
    requires Valid(d)
    ensures Update(d, Empty()) == d
  {
    var e: Dict<V> := Empty();
    assert e.keys == [];
    assert Update(d, e) == PutAll(d, [], e.vals);
  }

  lemma UpdateOfEmpty<V>(d: Dict<V>)
    requires Valid(d)
    ensures Update(Empty(), d) == d
  {
    var e: Dict<V> := Empty();
    UpdateOfEmptyKeys(d);
    UpdateOfEmptyVals(d);
    var r := Update(e, d);
    assert r == Dict(r.keys, r.vals);
  }

  lemma UpdateOfEmptyKeys<V>(d: Dict<V>)
    requires Valid(d)
    ensures Update(Empty(), d).keys == d.keys
  {
    var e: Dict<V> := Empty();
    PutAllKeys(e, d.keys, d.vals);
    assert e.vals.Keys == {};
    AppendedNone(d.keys, e.vals.Keys);
    assert [] + d.keys == d.keys;
  }

  lemma UpdateOfEmptyVals<V>(d: Dict<V>)
    requires Valid(d)
    ensures Update(Empty(), d).vals == d.vals
  {
    var e: Dict<V> := Empty();
    PutAllVals(e, d.keys, d.vals);
  }

  /** `d.update(d)` changes nothing. */
  lemma UpdateSelf<V>(d: Dict<V>)
    requires Valid(d)
    ensures Update(d, d) == d
  {
    UpdateSpec(d, d);
    AppendedAll(d.keys, d.vals.Keys);
  }
}
