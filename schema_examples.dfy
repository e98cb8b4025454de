/**
 * The schema classes of tests/test_core/test_schema.py, and a grandchild of
 * them that shows the effect of the leaf-first MRO walk.
 */
module SchemaExamples {
  import opened Wrappers
  import opened OrderedDict
  import opened Schema

  /** `Field` and `object`: not schema classes, no `_fields`. */
  function PlainClass(): (a: Ancestor) { Ancestor(false, None) }

  function Field1(): (f: Field) { Field(Some("dbfield1"), Some("field"), false) }
  function Field3(): (f: Field) { Field(Some("dbfield3"), Some("field3"), false) }

  /** `class TestSchema(BaseSchema)`: the MRO after it, and its class body. */
  function TestSchemaMro(): (mro: seq<Ancestor>) { [BaseSchemaClass(), PlainClass(), PlainClass()] }

  function TestSchemaAttrs(): (attrs: Dict<Attr>)
  {
    Dict(["default_getter"], map["default_getter" := OtherAttr("operator.attrgetter")])
  }

  /** `class TestSchemaFoo(TestSchema)`. `TestSchema` owns no `_fields`. */
  function FooMro(): (mro: seq<Ancestor>) { [Ancestor(true, None)] + TestSchemaMro() }

  function FooAttrs(): (attrs: Dict<Attr>)
  {
    Dict(["field1", "field2", "field3"],
         map["field1" := FieldAttr(Field1()), "field2" := FieldAttr(DefaultField()),
             "field3" := FieldAttr(Field3())])
  }

  function FooPlan(): (p: Plan)
  {
    Dict(["field1", "field2", "field3"],
         map["field1" := Field1(), "field2" := DefaultField(), "field3" := Field3()])
  }

  /** `class TestSchemaBar(TestSchemaFoo)`. */
  function BarMro(): (mro: seq<Ancestor>) { [Ancestor(true, Some(FooPlan()))] + FooMro() }

  function BarAttrs(): (attrs: Dict<Attr>)
  {
    Dict(["field3", "field4"],
         map["field3" := FieldAttr(DefaultField()), "field4" := FieldAttr(DefaultField())])
  }

  function BarPlan(): (p: Plan)
  {
    Dict(["field1", "field2", "field3", "field4"],
         map["field1" := Field1(), "field2" := DefaultField(), "field3" := DefaultField(),
             "field4" := DefaultField()])
  }

  /** `class TestSchemaBaz(TestSchemaBar)` with an empty body. */
  function BazMro(): (mro: seq<Ancestor>) { [Ancestor(true, Some(BarPlan()))] + BarMro() }

  function NoAttrs(): (attrs: Dict<Attr>) { Dict([], map[]) }

  lemma {:induction false} PlansValidExamples()
    ensures Valid(FooPlan()) && Valid(BarPlan())
    ensures PlansValid(TestSchemaMro()) && PlansValid(FooMro()) && PlansValid(BarMro()) && PlansValid(BazMro())
  {
    assert PlansValid(FooMro());
    assert PlansValid(BarMro());
  }


  /** The local declarations of `TestSchemaBar`. */
  function BarDeclared(): (p: Plan)
  {
    Dict(["field3", "field4"], map["field3" := DefaultField(), "field4" := DefaultField()])
  }

  lemma DeclaredTestSchema()
    ensures Declared(TestSchemaAttrs()) == Empty()
  {
    assert TestSchemaAttrs().keys[..0] == [];
  }

  lemma DeclaredNothing()
    ensures Declared(NoAttrs()) == Empty()
  {
  }

  lemma DeclaredFoo1()
    ensures DeclaredIn(FooAttrs().keys[..1], FooAttrs().vals) == Dict(["field1"], map["field1" := Field1()])
  {
    assert FooAttrs().keys[..1][..0] == [];
  }

  lemma DeclaredFoo2()
    ensures DeclaredIn(FooAttrs().keys[..2], FooAttrs().vals)
         == Dict(["field1", "field2"], map["field1" := Field1(), "field2" := DefaultField()])
  {
    var a := FooAttrs();
    DeclaredFoo1();
    var p := DeclaredIn(a.keys[..1], a.vals);
    assert a.keys[..2][..1] == a.keys[..1];
    assert a.keys[..2][1] == "field2";
    assert DeclaredIn(a.keys[..2], a.vals) == Put(p, "field2", DefaultField());
    PutFresh(p, "field2", DefaultField());
  }

  lemma PutFresh<V>(d: Dict<V>, k: string, v: V)
    requires Valid(d) && k !in d.vals
    ensures Put(d, k, v) == Dict(d.keys + [k], d.vals[k := v])
  {
  }

  lemma DeclaredFoo()
    ensures Declared(FooAttrs()) == FooPlan()
  {
    DeclaredFoo3();
  }

  lemma DeclaredFoo3()
    ensures DeclaredIn(FooAttrs().keys, FooAttrs().vals) == FooPlan()
  {
    var a := FooAttrs();
    DeclaredFoo2();
    var p := DeclaredIn(a.keys[..2], a.vals);
    assert a.keys[..3] == a.keys;
    assert a.keys[..3][..2] == a.keys[..2];
    assert DeclaredIn(a.keys, a.vals) == Put(p, "field3", Field3());
    PutFresh(p, "field3", Field3());
    assert p.keys + ["field3"] == FooPlan().keys;
  }

  lemma DeclaredBar1()
    ensures DeclaredIn(BarAttrs().keys[..1], BarAttrs().vals) == Dict(["field3"], map["field3" := DefaultField()])
  {
    assert BarAttrs().keys[..1][..0] == [];
  }

  lemma DeclaredBar()
    ensures Declared(BarAttrs()) == BarDeclared()
  {
    DeclaredBar2();
  }

  lemma DeclaredBar2()
    ensures DeclaredIn(BarAttrs().keys, BarAttrs().vals) == BarDeclared()
  {
    var a := BarAttrs();
    DeclaredBar1();
    var p := DeclaredIn(a.keys[..1], a.vals);
    assert a.keys[..2] == a.keys;
    assert a.keys[..2][..1] == a.keys[..1];
    assert DeclaredIn(a.keys, a.vals) == Put(p, "field4", DefaultField());
    PutFresh(p, "field4", DefaultField());
  }

  lemma TestSchemaHasNoFields()
    ensures PlansValid(TestSchemaMro())
    ensures Merged(TestSchemaMro(), Declared(TestSchemaAttrs())).keys == []
  {
    PlansValidExamples();
    DeclaredTestSchema();
    var mro := FullMro(TestSchemaMro());
    ResolvesEmpty(mro, 0);
    WalkEmptyPlans(mro, LeafFirst(|mro|), Empty());
    UpdateEmpty(Empty<Field>());
  }

  /** Foo inherits an empty plan. */
  lemma FooInherits()
    ensures PlansValid(FooMro())
    ensures Inherited(FooMro()) == Empty()
  {
    PlansValidExamples();
    var mro := FullMro(FooMro());
    assert mro[0].ownFields.None? && mro[1].ownFields.None? && mro[2].ownFields == Some(Empty());
    assert mro[3].ownFields.None? && mro[4].ownFields.None?;
    ResolvesEmpty(mro, 0);
    WalkEmptyPlans(mro, LeafFirst(|mro|), Empty());
  }

  /** Foo's plan is its three declarations, in declaration order. */
  lemma FooExample()
    ensures PlansValid(FooMro())
    ensures Merged(FooMro(), Declared(FooAttrs())) == FooPlan()
  {
    FooInherits();
    DeclaredFoo();
    UpdateEmpty(FooPlan());
  }

  /** Foo's processed entries: output keys `field`, `field2`, `field3`. */
  lemma FooProcessedExample()
    ensures Valid(FooPlan())
    ensures var p := Processed(FooPlan());
            && p[0].field == Field1() && p[0].outputKey == "field" && p[0].accessor == "dbfield1"
            && p[1].field == DefaultField() && p[1].outputKey == "field2" && p[1].accessor == "field2"
            && p[2].field == Field3() && p[2].outputKey == "field3" && p[2].accessor == "dbfield3"
  {
    PlansValidExamples();
  }

  /** In Bar's MRO, Bar itself and Foo resolve `_fields` to Foo's plan, the rest to `{}`. */
  lemma BarMroResolves()
    ensures PlansValid(FullMro(BarMro()))
    ensures var mro := FullMro(BarMro());
            && Resolve(mro, 0) == FooPlan() && Resolve(mro, 1) == FooPlan()
            && forall j :: 2 <= j <= |mro| ==> Resolve(mro, j) == Empty()
  {
    PlansValidExamples();
    var mro := FullMro(BarMro());
    assert mro[2].ownFields.None? && mro[3].ownFields == Some(Empty());
    assert mro[4].ownFields.None? && mro[5].ownFields.None?;
    ResolvesEmpty(mro, 2);
  }

  /** After Bar and Foo have been visited, the rest of the walk adds nothing. */
  lemma BarWalkTail()
    ensures PlansValid(FullMro(BarMro()))
    ensures var mro := FullMro(BarMro());
            Walk(mro, LeafFirst(|mro|)[2..], FooPlan()) == FooPlan()
  {
    BarMroResolves();
    PlansValidExamples();
    var mro := FullMro(BarMro());
    var order := LeafFirst(|mro|)[2..];
    assert forall t :: 0 <= t < |order| ==> order[t] == t + 2;
    WalkEmptyPlans(mro, order, FooPlan());
  }

  /** What Bar inherits is Foo's plan. */
  lemma BarInherits()
    ensures PlansValid(BarMro())
    ensures Inherited(BarMro()) == FooPlan()
  {
    PlansValidExamples();
    BarMroResolves();
    BarWalkTail();
    var mro := FullMro(BarMro());
    var order := LeafFirst(|mro|);
    WalkUnfold(mro, order, Empty());
    UpdateEmpty(FooPlan());
    assert Step(mro, 0, Empty()) == FooPlan();
    WalkUnfold(mro, order[1..], FooPlan());
    UpdateSelf(FooPlan());
    assert Step(mro, 1, FooPlan()) == FooPlan();
    assert order[1..][1..] == order[2..];
  }

  /**
   * Bar redeclares `field3`: the new `Field()` replaces Foo's in place, and
   * `field4` is appended.
   */
  lemma BarExample()
    ensures PlansValid(BarMro())
    ensures Merged(BarMro(), Declared(BarAttrs())) == BarPlan()
  {
    BarInherits();
    DeclaredBar();
    BarUpdate();
  }

  lemma BarUpdate()
    ensures Valid(FooPlan()) && Valid(BarDeclared())
    ensures Update(FooPlan(), BarDeclared()) == BarPlan()
  {
    PlansValidExamples();
    assert Valid(BarDeclared());
    var r := Update(FooPlan(), BarDeclared());
    BarUpdateKeys();
    BarUpdateVals();
    assert r == Dict(r.keys, r.vals);
  }

  lemma BarUpdateKeys()
    requires Valid(FooPlan()) && Valid(BarDeclared())
    ensures Update(FooPlan(), BarDeclared()).keys == BarPlan().keys
  {
    UpdateKeys(FooPlan(), BarDeclared());
    BarAppends();
    assert FooPlan().keys + ["field4"] == BarPlan().keys;
  }

  lemma BarUpdateVals()
    requires Valid(FooPlan()) && Valid(BarDeclared())
    ensures Update(FooPlan(), BarDeclared()).vals == BarPlan().vals
  {
    UpdateVals(FooPlan(), BarDeclared());
    BarOverrides();
  }

  lemma BarAppends()
    ensures Appended(BarDeclared().keys, FooPlan().vals.Keys) == ["field4"]
  {
    assert "field4" !in FooPlan().vals.Keys;
    assert "field3" in FooPlan().vals.Keys;
    assert BarDeclared().keys[1..][1..] == [];
  }

  lemma BarOverrides()
    ensures FooPlan().vals + BarDeclared().vals == BarPlan().vals
  {
  }

  /**
   * As written, a class deriving from Bar without declaring anything gets
   * Foo's `field3` descriptor back, although Bar redeclared it; walking the
   * MRO root first keeps Bar's.
   */
  lemma GrandchildRevertsRedeclaration()
    ensures PlansValid(BazMro())
    ensures "field3" in Merged(BazMro(), Declared(NoAttrs())).vals
    ensures Merged(BazMro(), Declared(NoAttrs())).vals["field3"] == Field3()
    ensures "field3" in MergedRootFirst(BazMro(), Declared(NoAttrs())).vals
    ensures MergedRootFirst(BazMro(), Declared(NoAttrs())).vals["field3"] == DefaultField()
    ensures Field3() != DefaultField()
  {
    PlansValidExamples();
    DeclaredNothing();
    var mro := FullMro(BazMro());
    assert Resolve(mro, 2) == FooPlan();
    ResolvesEmpty(mro, 3);
    MergedInheritedRootMost(BazMro(), Empty(), "field3", 2);
    assert Resolve(mro, 0) == BarPlan();
    MergedRootFirstNearest(BazMro(), Empty(), "field3", 0);
  }
}
