/**
 * The field-plan builder of core/schema.py: the `Field` descriptor and what
 * `MetaSchema.__new__` does when a schema class is defined. It collects the
 * class attributes that are `Field`s, removes them from the class namespace,
 * merges the `_fields` plans found along the class's MRO, lets the local
 * declarations override them, and derives `_processed_fields`.
 */
module Schema {
  import opened Wrappers
  import opened OrderedDict

  /** The `Field` dataclass; Python's `None` is `Option.None`. */
  datatype Field = Field(name: Option<string>, outputLabel: Option<string>, required: bool)

  /** `Field()`: no name override, no label, required. */
  function DefaultField(): (f: Field)
    ensures f.name.None? && f.outputLabel.None? && f.required
  {
    Field(None, None, true)
  }

  /** `Field.from_native` performs no conversion. */
  function FromNative<T>(f: Field, value: T): (r: T)
    ensures r == value
  {
    value
  }

  /** `Field.getter` returns `None` for every field name. */
  function Getter(f: Field, fieldName: string): (r: Option<string>)
    ensures r.None?
  {
    None
  }

  /** Python's `x or fallback` for an optional string: `None` and `""` are falsy. */
  function OrElse(x: Option<string>, fallback: string): (r: string)
    ensures x.None? || x == Some("") ==> r == fallback
    ensures x.Some? && x != Some("") ==> r == x.value
  {
    if x.Some? && x.value != "" then x.value else fallback
  }

  /** A value bound in a class body: a `Field` instance or anything else. */
  datatype Attr = FieldAttr(field: Field) | OtherAttr(repr: string)

  /** A `_fields` plan: attribute name to descriptor, in insertion order. */
  type Plan = Dict<Field>

  /** The bound method `field.from_native` stored as the converter. */
  datatype Converter = FromNativeOf(owner: Field)

  /**
   * One `_processed_fields` entry `(field, output_key, accessor, converter)`;
   * the accessor `operator.attrgetter(a)` is kept as the attribute name `a`.
   */
  datatype Entry = Entry(field: Field, outputKey: string, accessor: string, converter: Converter)

  /**
   * A class of an MRO: whether it is a subclass of `BaseSchema`, and the
   * `_fields` in its own `__dict__`, if any.
   */
  datatype Ancestor = Ancestor(isSchema: bool, ownFields: Option<Plan>)

  /** `BaseSchema` itself: `_fields = {}`. */
  function BaseSchemaClass(): (a: Ancestor)
    ensures a.isSchema && a.ownFields == Some(Empty())
  {
    Ancestor(true, Some(Empty()))
  }

  ghost predicate PlansValid(mro: seq<Ancestor>)
  {
    forall i :: 0 <= i < |mro| && mro[i].ownFields.Some? ==> Valid(mro[i].ownFields.value)
  }

  // ---------------------------------------------------------------------------
  // Collecting the local declarations and clearing them from the namespace
  // ---------------------------------------------------------------------------

  /** The names among `names` bound to `Field` values, in order. */
  function FieldNames(names: seq<string>, attrs: map<string, Attr>): (r: seq<string>)
    requires forall k :: k in names ==> k in attrs
  {
    if names == [] then [] else
      var n := |names| - 1;
      FieldNames(names[..n], attrs) + (if attrs[names[n]].FieldAttr? then [names[n]] else [])
  }

  /**
   * The plan `schema_fields` built from `names` in order: exactly the names
   * bound to `Field` values, each mapped to its descriptor.
   */
  function DeclaredIn(names: seq<string>, attrs: map<string, Attr>): (r: Plan)
    requires forall k :: k in names ==> k in attrs
    ensures Valid(r)
    ensures forall k :: k in r.vals <==> k in names && attrs[k].FieldAttr?
    ensures forall k :: k in r.vals ==> attrs[k] == FieldAttr(r.vals[k])
  {
    if names == [] then Empty() else
      var n := |names| - 1;
      var p := DeclaredIn(names[..n], attrs);
      assert forall k :: k in names <==> k in names[..n] || k == names[n];
      if attrs[names[n]].FieldAttr? then Put(p, names[n], attrs[names[n]].field) else p
  }

  /** With distinct names, the plan lists the `Field` names in declaration order. */
  lemma {:induction false} DeclaredInKeys(names: seq<string>, attrs: map<string, Attr>)
    requires forall k :: k in names ==> k in attrs
    requires Distinct(names)
    ensures DeclaredIn(names, attrs).keys == FieldNames(names, attrs)
  {
    if names != [] {
      var n := |names| - 1;
      DistinctInit(names);
      DeclaredInKeys(names[..n], attrs);
    }
  }

  /** The local declarations of a class body. */
  function Declared(attrs: Dict<Attr>): (r: Plan)
    requires Valid(attrs)
    ensures Valid(r)
    ensures forall k :: k in r.vals <==> k in attrs.vals && attrs.vals[k].FieldAttr?
    ensures forall k :: k in r.vals ==> attrs.vals[k] == FieldAttr(r.vals[k])
    ensures r.keys == FieldNames(attrs.keys, attrs.vals)
  {
    DeclaredInKeys(attrs.keys, attrs.vals);
    DeclaredIn(attrs.keys, attrs.vals)
  }

  /** `attrs.pop(k)` for every `k` of `ks`, in order. */
  function RemoveAll<V>(d: Dict<V>, ks: seq<string>): (r: Dict<V>)
    requires Valid(d) && Distinct(ks) && forall k :: k in ks ==> k in d.vals
    ensures Valid(r)
    ensures forall k :: k in r.vals <==> k in d.vals && k !in ks
    ensures forall k :: k in r.vals ==> r.vals[k] == d.vals[k]
    ensures r.keys == Keep(d.keys, ks)
  {
    if ks == [] then
      KeepNothing(d.keys);
      d
    else
      var n := |ks| - 1;
      assert forall k :: k in ks <==> k in ks[..n] || k == ks[n];
      DistinctInit(ks);
      WithoutKeep(d.keys, ks[..n], ks[n]);
      assert ks[..n] + [ks[n]] == ks;
      Remove(RemoveAll(d, ks[..n]), ks[n])
  }

  /**
   * Lines 51-53: collects the attributes whose values are `Field`s, in the
   * order of the class body.
   */
  method CollectFields(attrs: Dict<Attr>) returns (schemaFields: Plan)
    requires Valid(attrs)
    ensures schemaFields == Declared(attrs)
  {
    schemaFields := Empty();
    for i := 0 to |attrs.keys|
      invariant schemaFields == DeclaredIn(attrs.keys[..i], attrs.vals)
    {
      var name := attrs.keys[i];
      var field := attrs.vals[name];
      assert attrs.keys[..i + 1][..i] == attrs.keys[..i];
      if field.FieldAttr? {
        schemaFields := Put(schemaFields, name, field.field);
      }
    }
    assert attrs.keys[..|attrs.keys|] == attrs.keys;
  }

  /** Lines 55-56: pops every collected name from the namespace. */
  method PopFields(attrs: Dict<Attr>, schemaFields: Plan) returns (namespace: Dict<Attr>)
    requires Valid(attrs) && Valid(schemaFields)
    requires forall k :: k in schemaFields.vals ==> k in attrs.vals
    ensures namespace == RemoveAll(attrs, schemaFields.keys)
  {
    var names := schemaFields.keys;
    namespace := attrs;
    for i := 0 to |names|
      invariant PrefixRemovable(attrs, names, i)
      invariant namespace == RemoveAll(attrs, names[..i])
    {
      RemoveAllStep(attrs, names, i);
      namespace := Remove(namespace, names[i]);
    }
    assert names[..|names|] == names;
  }

  /** The first `i` names are distinct keys of `d`. */
  ghost predicate PrefixRemovable<V>(d: Dict<V>, ks: seq<string>, i: nat)
  {
    i <= |ks| && Distinct(ks[..i]) && forall k :: k in ks[..i] ==> k in d.vals
  }

  /** Popping the names one at a time: the next name is still present. */
  lemma RemoveAllStep<V>(d: Dict<V>, ks: seq<string>, i: nat)
    requires Valid(d) && Distinct(ks) && forall k :: k in ks ==> k in d.vals
    requires i < |ks| && PrefixRemovable(d, ks, i)
    ensures PrefixRemovable(d, ks, i + 1)
    ensures ks[i] in RemoveAll(d, ks[..i]).vals
    ensures RemoveAll(d, ks[..i + 1]) == Remove(RemoveAll(d, ks[..i]), ks[i])
  {
    var pre := ks[..i + 1];
    assert pre[..i] == ks[..i] && pre[i] == ks[i];
    forall a, b | 0 <= a < b < |pre| ensures pre[a] != pre[b] {
      assert pre[a] == ks[a] && pre[b] == ks[b];
    }
    forall a | 0 <= a < i ensures ks[a] != ks[i] {
      assert ks[..i][a] == ks[a];
    }
  }

  /**
   * After the pops, the namespace holds no `Field` and keeps every other
   * attribute of the class body with its value.
   */
  lemma NamespaceWithoutFields(attrs: Dict<Attr>)
    requires Valid(attrs)
    ensures var ns := RemoveAll(attrs, Declared(attrs).keys);
            && Valid(ns)
            && (forall k :: k in ns.vals ==> ns.vals[k].OtherAttr?)
            && (forall k :: k in attrs.vals && attrs.vals[k].OtherAttr? ==>
                  k in ns.vals && ns.vals[k] == attrs.vals[k])
  {
    var d := Declared(attrs);
    forall k | k in attrs.vals && attrs.vals[k].FieldAttr? ensures k in d.keys {
      assert k in d.vals;
    }
  }

  // ---------------------------------------------------------------------------
  // Merging the plans found along the MRO
  // ---------------------------------------------------------------------------

  /**
   * What `mro[i]._fields` evaluates to: the `_fields` of the nearest class
   * at or after `i` that owns one. Every schema MRO ends in `BaseSchema`,
   * whose `_fields` is empty, so the empty fallback matches Python there.
   */
  function Resolve(mro: seq<Ancestor>, i: nat): (p: Plan)
    requires i <= |mro| && PlansValid(mro)
    ensures Valid(p)
    decreases |mro| - i
  {
    if i == |mro| then Empty()
    else if mro[i].ownFields.Some? then mro[i].ownFields.value
    else Resolve(mro, i + 1)
  }

  /** The class at `j` takes part in the walk and its `_fields` holds `k`. */
  ghost predicate Holds(mro: seq<Ancestor>, j: nat, k: string)
    requires j < |mro| && PlansValid(mro)
  {
    mro[j].isSchema && k in Resolve(mro, j).vals
  }

  ghost predicate InRange(mro: seq<Ancestor>, order: seq<nat>)
  {
    forall t :: 0 <= t < |order| ==> order[t] < |mro|
  }

  /**
   * `fields.update(cls._fields)` for every schema class of `mro`, visiting
   * the classes in the index order `order`, starting from `acc`.
   */
  function Walk(mro: seq<Ancestor>, order: seq<nat>, acc: Plan): (r: Plan)
    requires PlansValid(mro) && InRange(mro, order) && Valid(acc)
    ensures Valid(r)
    decreases |order|
  {
    if order == [] then acc else
      var j := order[0];
      Walk(mro, order[1..], if mro[j].isSchema then Update(acc, Resolve(mro, j)) else acc)
  }

  /** `__mro__[::1]`: indices `0 .. n - 1`, the class itself first. */
  function LeafFirst(n: nat): (order: seq<nat>)
    ensures |order| == n && forall t :: 0 <= t < n ==> order[t] == t
  {
    seq(n, t => t)
  }

  /** `__mro__[::-1]`: indices `n - 1 .. 0`, the root first. */
  function RootFirst(n: nat): (order: seq<nat>)
    ensures |order| == n && forall t :: 0 <= t < n ==> order[t] == n - 1 - t
  {
    seq(n, t => n - 1 - t)
  }

  /** Whether some class of `ancestors` is a subclass of `BaseSchema`. */
  predicate AnySchema(ancestors: seq<Ancestor>)
  {
    exists i :: 0 <= i < |ancestors| && ancestors[i].isSchema
  }

  /**
   * `new_cls.__mro__` right after `super().__new__`: the new class, which owns
   * no `_fields` yet, followed by `ancestors` (its `__mro__[1:]`).
   */
  function FullMro(ancestors: seq<Ancestor>): (mro: seq<Ancestor>)
    requires PlansValid(ancestors)
    ensures PlansValid(mro) && |mro| == |ancestors| + 1 && mro[1..] == ancestors
    ensures mro[0].ownFields.None?
  {
    [Ancestor(AnySchema(ancestors), None)] + ancestors
  }

  /** Lines 63-65: the inherited plan, walking the MRO leaf first. */
  function Inherited(ancestors: seq<Ancestor>): (p: Plan)
    requires PlansValid(ancestors)
    ensures Valid(p)
  {
    var mro := FullMro(ancestors);
    Walk(mro, LeafFirst(|mro|), Empty())
  }

  /** Lines 63-67: the merged plan `fields` as the code computes it. */
  function Merged(ancestors: seq<Ancestor>, declared: Plan): (p: Plan)
    requires PlansValid(ancestors) && Valid(declared)
    ensures Valid(p)
  {
    Update(Inherited(ancestors), declared)
  }

  /** The plan with the MRO walked root first, as `__mro__[::-1]` would walk it. */
  function MergedRootFirst(ancestors: seq<Ancestor>, declared: Plan): (p: Plan)
    requires PlansValid(ancestors) && Valid(declared)
    ensures Valid(p)
  {
    var mro := FullMro(ancestors);
    Update(Walk(mro, RootFirst(|mro|), Empty()), declared)
  }

  /**
   * Lines 63-65 as a loop: each schema class of the MRO, in order, updates
   * `fields` with its `_fields`.
   */
  method InheritedFields(mro: seq<Ancestor>) returns (fields: Plan)
    requires PlansValid(mro)
    ensures fields == Walk(mro, LeafFirst(|mro|), Empty())
  {
    fields := Empty();
    var order := LeafFirst(|mro|);
    for i := 0 to |mro|
      invariant Valid(fields)
      invariant Walk(mro, order, Empty()) == Walk(mro, order[i..], fields)
    {
      assert order[i..][0] == i && order[i..][1..] == order[i + 1..];
      if mro[i].isSchema {
        fields := Update(fields, Resolve(mro, i));
      }
    }
  }

  /** No class visited after position `t` of `order` holds `k`. */
  ghost predicate NoLaterHolder(mro: seq<Ancestor>, order: seq<nat>, t: nat, k: string)
    requires PlansValid(mro) && InRange(mro, order)
  {
    forall u :: t < u < |order| ==> !Holds(mro, order[u], k)
  }

  /** One step of the walk: the plan after visiting `order[0]`. */
  function Step(mro: seq<Ancestor>, j: nat, acc: Plan): (r: Plan)
    requires PlansValid(mro) && j < |mro| && Valid(acc)
    ensures Valid(r)
    ensures forall k :: k in r.vals <==> k in acc.vals || Holds(mro, j, k)
    ensures forall k :: Holds(mro, j, k) ==> r.vals[k] == Resolve(mro, j).vals[k]
    ensures forall k :: k in acc.vals && !Holds(mro, j, k) ==> r.vals[k] == acc.vals[k]
  {
    if mro[j].isSchema then
      UpdateSpec(acc, Resolve(mro, j));
      Update(acc, Resolve(mro, j))
    else acc
  }

  lemma WalkUnfold(mro: seq<Ancestor>, order: seq<nat>, acc: Plan)
    requires PlansValid(mro) && InRange(mro, order) && Valid(acc) && order != []
    ensures InRange(mro, order[1..])
    ensures Walk(mro, order, acc) == Walk(mro, order[1..], Step(mro, order[0], acc))
    ensures forall u :: 0 < u < |order| ==> order[1..][u - 1] == order[u]
  {
  }

  /**
   * The walk in any order keeps a key iff it was already there or some
   * visited class holds it.
   */
  lemma {:induction false} WalkKeys(mro: seq<Ancestor>, order: seq<nat>, acc: Plan, k: string)
    requires PlansValid(mro) && InRange(mro, order) && Valid(acc)
    ensures k in Walk(mro, order, acc).vals <==>
              k in acc.vals || exists t :: 0 <= t < |order| && Holds(mro, order[t], k)
    decreases |order|
  {
    if order != [] {
      var rest := order[1..];
      WalkUnfold(mro, order, acc);
      WalkKeys(mro, rest, Step(mro, order[0], acc), k);
      if exists t :: 0 <= t < |order| && Holds(mro, order[t], k) {
        var t :| 0 <= t < |order| && Holds(mro, order[t], k);
        if t > 0 {
          assert Holds(mro, rest[t - 1], k);
        }
      }
      if exists t :: 0 <= t < |rest| && Holds(mro, rest[t], k) {
        var t :| 0 <= t < |rest| && Holds(mro, rest[t], k);
        assert Holds(mro, order[t + 1], k);
      }
    }
  }

  /**
   * The walk in any order: the descriptor kept for a key is the one of the
   * LAST visited class that holds it.
   */
  lemma {:induction false} WalkLastWins(mro: seq<Ancestor>, order: seq<nat>, acc: Plan, k: string, t: nat)
    requires PlansValid(mro) && InRange(mro, order) && Valid(acc)
    requires t < |order| && Holds(mro, order[t], k) && NoLaterHolder(mro, order, t, k)
    ensures k in Walk(mro, order, acc).vals
    ensures Walk(mro, order, acc).vals[k] == Resolve(mro, order[t]).vals[k]
    decreases |order|
  {
    var rest := order[1..];
    var acc' := Step(mro, order[0], acc);
    WalkUnfold(mro, order, acc);
    if t > 0 {
      assert Holds(mro, rest[t - 1], k);
      assert NoLaterHolder(mro, rest, t - 1, k) by {
        forall u | t - 1 < u < |rest| ensures !Holds(mro, rest[u], k) {
          assert rest[u] == order[u + 1];
        }
      }
      WalkLastWins(mro, rest, acc', k, t - 1);
    } else {
      assert forall u :: 0 <= u < |rest| ==> !Holds(mro, rest[u], k) by {
        forall u | 0 <= u < |rest| ensures !Holds(mro, rest[u], k) {
          assert rest[u] == order[u + 1];
        }
      }
      WalkNoHolder(mro, rest, acc', k);
    }
  }

  /** The walk leaves alone a key that no visited class holds. */
  lemma {:induction false} WalkNoHolder(mro: seq<Ancestor>, order: seq<nat>, acc: Plan, k: string)
    requires PlansValid(mro) && InRange(mro, order) && Valid(acc) && k in acc.vals
    requires forall t :: 0 <= t < |order| ==> !Holds(mro, order[t], k)
    ensures k in Walk(mro, order, acc).vals && Walk(mro, order, acc).vals[k] == acc.vals[k]
    decreases |order|
  {
    if order != [] {
      var rest := order[1..];
      WalkUnfold(mro, order, acc);
      assert !Holds(mro, order[0], k);
      assert forall u :: 0 <= u < |rest| ==> !Holds(mro, rest[u], k) by {
        forall u | 0 <= u < |rest| ensures !Holds(mro, rest[u], k) {
          assert rest[u] == order[u + 1];
        }
      }
      WalkNoHolder(mro, rest, Step(mro, order[0], acc), k);
    }
  }

  /**
   * When every class from `i` on that owns `_fields` owns an empty one, every
   * class from `i` on resolves `_fields` to the empty plan.
   */
  lemma {:induction false} ResolvesEmpty(mro: seq<Ancestor>, i: nat)
    requires i <= |mro| && PlansValid(mro)
    requires forall j :: i <= j < |mro| && mro[j].ownFields.Some? ==> mro[j].ownFields.value == Empty()
    ensures forall j :: i <= j <= |mro| ==> Resolve(mro, j) == Empty()
    decreases |mro| - i
  {
    if i < |mro| {
      ResolvesEmpty(mro, i + 1);
    }
  }

  /** Visiting only classes whose `_fields` resolve to the empty plan changes nothing. */
  lemma {:induction false} WalkEmptyPlans(mro: seq<Ancestor>, order: seq<nat>, acc: Plan)
    requires PlansValid(mro) && InRange(mro, order) && Valid(acc)
    requires forall t :: 0 <= t < |order| ==> Resolve(mro, order[t]) == Empty()
    ensures Walk(mro, order, acc) == acc
    decreases |order|
  {
    if order != [] {
      WalkUnfold(mro, order, acc);
      if mro[order[0]].isSchema {
        UpdateEmpty(acc);
      }
      WalkEmptyPlans(mro, order[1..], acc);
    }
  }

  /**
   * The merged plan has unique keys; it holds a key iff the class body
   * declares it or some schema class of the MRO has it in its `_fields`.
   */
  lemma MergedKeys(ancestors: seq<Ancestor>, declared: Plan, k: string)
    requires PlansValid(ancestors) && Valid(declared)
    ensures Distinct(Merged(ancestors, declared).keys)
    ensures k in Merged(ancestors, declared).vals <==>
              k in declared.vals || exists j :: 0 <= j < |ancestors| + 1 && Holds(FullMro(ancestors), j, k)
  {
    var mro := FullMro(ancestors);
    var order := LeafFirst(|mro|);
    WalkKeys(mro, order, Empty(), k);
    UpdateSpec(Inherited(ancestors), declared);
    if exists j :: 0 <= j < |mro| && Holds(mro, j, k) {
      var j :| 0 <= j < |mro| && Holds(mro, j, k);
      assert Holds(mro, order[j], k);
    }
  }

  /**
   * Local declarations win: a declared key maps to its local descriptor; an
   * inherited key keeps its position, and the new local keys are appended in
   * declaration order.
   */
  lemma MergedLocal(ancestors: seq<Ancestor>, declared: Plan)
    requires PlansValid(ancestors) && Valid(declared)
    ensures forall k :: k in declared.vals ==>
              k in Merged(ancestors, declared).vals && Merged(ancestors, declared).vals[k] == declared.vals[k]
    ensures Merged(ancestors, declared).keys ==
              Inherited(ancestors).keys + Appended(declared.keys, Inherited(ancestors).vals.Keys)
  {
    UpdateSpec(Inherited(ancestors), declared);
  }

  /**
   * As written (`__mro__[::1]`): for an inherited key that is not declared
   * locally, the descriptor kept is the one of the root-most schema class
   * of the MRO that holds the key.
   */
  lemma MergedInheritedRootMost(ancestors: seq<Ancestor>, declared: Plan, k: string, j: nat)
    requires PlansValid(ancestors) && Valid(declared) && k !in declared.vals
    requires j < |ancestors| + 1 && Holds(FullMro(ancestors), j, k)
    requires forall j' :: j < j' < |ancestors| + 1 ==> !Holds(FullMro(ancestors), j', k)
    ensures k in Merged(ancestors, declared).vals
    ensures Merged(ancestors, declared).vals[k] == Resolve(FullMro(ancestors), j).vals[k]
  {
    var mro := FullMro(ancestors);
    var order := LeafFirst(|mro|);
    assert Holds(mro, order[j], k) && NoLaterHolder(mro, order, j, k);
    WalkLastWins(mro, order, Empty(), k, j);
    UpdateSpec(Inherited(ancestors), declared);
  }

  /**
   * Walking the MRO root first: for an inherited key that is not declared
   * locally, the descriptor kept is the one of the NEAREST schema class of
   * the MRO that holds the key.
   */
  lemma MergedRootFirstNearest(ancestors: seq<Ancestor>, declared: Plan, k: string, j: nat)
    requires PlansValid(ancestors) && Valid(declared) && k !in declared.vals
    requires j < |ancestors| + 1 && Holds(FullMro(ancestors), j, k)
    requires forall j' :: 0 <= j' < j ==> !Holds(FullMro(ancestors), j', k)
    ensures k in MergedRootFirst(ancestors, declared).vals
    ensures MergedRootFirst(ancestors, declared).vals[k] == Resolve(FullMro(ancestors), j).vals[k]
  {
    var mro := FullMro(ancestors);
    var n := |mro|;
    var order := RootFirst(n);
    var walked := Walk(mro, order, Empty());
    var t := n - 1 - j;
    assert order[t] == j;
    assert NoLaterHolder(mro, order, t, k) by {
      forall u | t < u < n ensures !Holds(mro, order[u], k) {
        assert order[u] == n - 1 - u < j;
      }
    }
    WalkLastWins(mro, order, Empty(), k, t);
    UpdateSpec(walked, declared);
  }

  // ---------------------------------------------------------------------------
  // Deriving `_processed_fields`
  // ---------------------------------------------------------------------------

  /**
   * Lines 70-75 for one plan entry: `Getter` always yields `None`, so the
   * `default_getter` branch runs: the accessor reads `field.name or name` and
   * the output key is `field.outputLabel or name`.
   */
  function MakeEntry(name: string, f: Field): (e: Entry)
    ensures e.field == f && e.converter == FromNativeOf(f)
    ensures f.outputLabel.None? || f.outputLabel == Some("") ==> e.outputKey == name
    ensures f.outputLabel.Some? && f.outputLabel != Some("") ==> e.outputKey == f.outputLabel.value
    ensures f.name.None? || f.name == Some("") ==> e.accessor == name
    ensures f.name.Some? && f.name != Some("") ==> e.accessor == f.name.value
  {
    var getter := Getter(f, name);
    assert getter.None?;
    Entry(f, OrElse(f.outputLabel, name), OrElse(f.name, name), FromNativeOf(f))
  }

  /** Lines 69-84: one entry per plan key, in plan order. */
  function Processed(plan: Plan): (r: seq<Entry>)
    requires Valid(plan)
    ensures |r| == |plan.keys|
    ensures forall i :: 0 <= i < |r| ==>
              && r[i].field == plan.vals[plan.keys[i]]
              && r[i].outputKey == OrElse(plan.vals[plan.keys[i]].outputLabel, plan.keys[i])
              && r[i].accessor == OrElse(plan.vals[plan.keys[i]].name, plan.keys[i])
              && r[i].converter == FromNativeOf(plan.vals[plan.keys[i]])
  {
    seq(|plan.keys|, i requires 0 <= i < |plan.keys| => MakeEntry(plan.keys[i], plan.vals[plan.keys[i]]))
  }

  // ---------------------------------------------------------------------------
  // The class object
  // ---------------------------------------------------------------------------

  /**
   * A class created by `MetaSchema`: its namespace, its MRO after itself, and
   * the `_fields` / `_processed_fields` in its own `__dict__` (`None` while
   * they are inherited).
   */
  class SchemaClass {
    const namespace: Dict<Attr>
    const ancestors: seq<Ancestor>
    var fields: Option<Plan>
    var processedFields: Option<seq<Entry>>

    /** `super().__new__(cls, name, bases, attrs)` (line 59). */
    constructor (namespace: Dict<Attr>, ancestors: seq<Ancestor>)
      ensures this.namespace == namespace && this.ancestors == ancestors
      ensures fields.None? && processedFields.None?
    {
      this.namespace := namespace;
      this.ancestors := ancestors;
      fields := None;
      processedFields := None;
    }

    /** `__mro__`: this class followed by its ancestors. */
    function Mro(): (mro: seq<Ancestor>)
      reads this
      ensures |mro| == |ancestors| + 1 && mro[0] == AsAncestor() && mro[1..] == ancestors
    {
      [AsAncestor()] + ancestors
    }

    /** This class as an entry of a subclass's MRO. */
    function AsAncestor(): (a: Ancestor)
      reads this
      ensures a.ownFields == fields
    {
      Ancestor(AnySchema(ancestors), fields)
    }
  }

  /**
   * `MetaSchema.__new__(name, bases, attrs)`, with the MRO after the new
   * class given as `ancestors`.
   */
  method NewSchemaClass(attrs: Dict<Attr>, ancestors: seq<Ancestor>) returns (cls: SchemaClass)
    requires Valid(attrs) && PlansValid(ancestors)
    ensures fresh(cls) && cls.ancestors == ancestors
    ensures cls.namespace == RemoveAll(attrs, Declared(attrs).keys)
    ensures var plan := Merged(ancestors, Declared(attrs));
            && (plan.keys == [] ==> cls.fields.None? && cls.processedFields.None?)
            && (plan.keys != [] ==> cls.fields == Some(plan) && cls.processedFields == Some(Processed(plan)))
  {
    var schemaFields := CollectFields(attrs);
    var namespace := PopFields(attrs, schemaFields);
    cls := new SchemaClass(namespace, ancestors);
    var mro := cls.Mro();
    assert mro == FullMro(ancestors);
    var fields := InheritedFields(mro);
    fields := Update(fields, schemaFields);
    var processed: seq<Entry> := [];
    ghost var plan := Processed(fields);
    for i := 0 to |fields.keys|
      invariant processed == plan[..i]
      invariant i == 0 ==> cls.fields.None? && cls.processedFields.None?
      invariant i > 0 ==> cls.fields == Some(fields) && cls.processedFields == Some(processed)
    {
      var name := fields.keys[i];
      var field := fields.vals[name];
      // `getter` is always None here, so the `default_getter` branch runs.
      var accessor := OrElse(field.name, name);
      var converter := FromNativeOf(field);
      var outputKey := OrElse(field.outputLabel, name);
      processed := processed + [Entry(field, outputKey, accessor, converter)];
      cls.fields := Some(fields);
      cls.processedFields := Some(processed);
    }
    assert plan[..|fields.keys|] == plan;
  }
}
