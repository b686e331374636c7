/**
 * The two scenarios of tests/test_registery.py, stated as verified
 * postconditions over the model: a `FakeTool` registry with two tools
 * registered by decorator, and a `FakeTool` inheritance registry with two
 * tool subclasses.
 */
module Scenarios {
  import opened Centers
  import opened ClassGraph
  import AnnotationRegistry
  import InheritanceRegistry

  datatype Tool = ToolOne | ToolTwo

  function OneMeta(): Meta {
    map["name" := StrValue("one"), "limit" := IntValue(9)]
  }

  function TwoMeta(): Meta {
    map["name" := StrValue("two")]
  }

  /** `TestRegistry`: `ToolOne` is registered and kept, `ToolTwo` is
      registered but its name is bound to `None`; both are found by name, and
      `ToolOne`'s metadata is the keyword dict. */
  method DecoratedTools() returns (keptOne: Option<Tool>, keptTwo: Option<Tool>, one: Option<Tool>, two: Option<Tool>, meta: Result<Meta>)
    ensures keptOne == Some(ToolOne) && keptTwo == None
    ensures one == Some(ToolOne) && two == Some(ToolTwo)
    ensures meta == Success(OneMeta())
  {
    var fakeTool := new AnnotationRegistry.Registry<Tool>(PlainDict);
    var r1 := fakeTool.Register(ToolOne, true, None, OneMeta());
    var r2 := fakeTool.Register(ToolTwo, false, None, TwoMeta());
    keptOne, keptTwo := r1.value, r2.value;
    var c1 := Empty<Tool, Meta>().Put(ToolOne, OneMeta());
    PutKeepsPositions(Empty<Tool, Meta>(), ToolOne, OneMeta());
    PutKeepsPositions(c1, ToolTwo, TwoMeta());
    Lookups(fakeTool.Entries().Items());
    one := fakeTool.Query(None, map["name" := StrValue("one")]);
    two := fakeTool.Query(None, TwoMeta());
    meta := fakeTool.MetaOf(one.value);
  }

  /** The class table of `TestSubclassRegistry` after `FakeTool` (1),
      `ToolOne` (2) and `ToolTwo` (3) are defined. */
  lemma ToolOwners()
    ensures WellFormed([[], [Sentinel]]) && InheritanceRegistry.Owner([[], [Sentinel]], 1) == None
    ensures WellFormed([[], [Sentinel], [1]]) && InheritanceRegistry.Owner([[], [Sentinel], [1]], 2) == Some(1)
    ensures WellFormed([[], [Sentinel], [1], [1]]) && InheritanceRegistry.Owner([[], [Sentinel], [1], [1]], 3) == Some(1)
  {
    var t: Table := [[], [Sentinel], [1], [1]];
    assert DerivesRegistry(t[..3], 1) by {
      assert t[..3][1][0] == Sentinel;
    }
    assert DerivesRegistry(t, 1) by {
      assert t[1][0] == Sentinel;
    }
  }

  /** `TestSubclassRegistry`: defining `ToolOne(FakeTool, name='one',
      limit=9)` and `ToolTwo(FakeTool, name='two')` files both under
      `FakeTool`, where a query by name finds them. */
  method SubclassedTools() returns (one: Option<ClassId>, two: Option<ClassId>, meta: Result<Meta>)
    ensures one == Some(2) && two == Some(3)
    ensures meta == Success(OneMeta())
  {
    var h := DefineTools();
    Lookups(h.CenterOf(1).Items());
    one := h.Query(1, None, map["name" := StrValue("one")]);
    two := h.Query(1, None, TwoMeta());
    meta := h.MetaOf(1, 2);
  }

  /** `class FakeTool(SubclassRegistry)`, `class ToolOne(FakeTool, name='one',
      limit=9)`, `class ToolTwo(FakeTool, name='two')`. */
  method DefineTools() returns (h: InheritanceRegistry.Hierarchy)
    ensures fresh(h) && h.Valid() && |h.bases| == 4
    ensures h.CenterOf(1).Valid() && h.CenterOf(1).Items() == [(2, OneMeta()), (3, TwoMeta())]
  {
    h := DefineFakeTool();
    var c1 := DefineToolOne(h);
    DefineToolTwo(h, c1);
  }

  method DefineFakeTool() returns (h: InheritanceRegistry.Hierarchy)
    ensures fresh(h) && h.Valid() && h.bases == [[], [Sentinel]]
    ensures h.shapes == [PlainDict, PlainDict] && h.centers == map[]
  {
    ToolOwners();
    h := new InheritanceRegistry.Hierarchy();
    var fakeTool := h.DefineClass([Sentinel], PlainDict, map[]);
  }

  method DefineToolOne(h: InheritanceRegistry.Hierarchy) returns (c1: Center<ClassId, Meta>)
    requires h.Valid() && h.bases == [[], [Sentinel]]
    requires h.shapes == [PlainDict, PlainDict] && h.centers == map[]
    modifies h
    ensures h.Valid() && h.bases == [[], [Sentinel], [1]]
    ensures h.shapes == [PlainDict, PlainDict, PlainDict] && h.centers == map[1 := c1]
    ensures c1.Valid() && c1.order == [2] && c1.Items() == [(2, OneMeta())]
  {
    ToolOwners();
    assert Extend(h.bases, [1]) == [[], [Sentinel], [1]];
    assert Construct(h.shapes[1], OneMeta()) == Some(OneMeta());
    var toolOne := h.DefineClass([1], PlainDict, OneMeta());
    c1 := h.CenterOf(1);
    assert c1 == Empty<ClassId, Meta>().Put(2, OneMeta());
    PutKeepsPositions(Empty<ClassId, Meta>(), 2, OneMeta());
  }

  method DefineToolTwo(h: InheritanceRegistry.Hierarchy, c1: Center<ClassId, Meta>)
    requires h.Valid() && h.bases == [[], [Sentinel], [1]]
    requires h.shapes == [PlainDict, PlainDict, PlainDict] && h.centers == map[1 := c1]
    requires c1.Valid() && c1.order == [2] && c1.Items() == [(2, OneMeta())]
    modifies h
    ensures h.Valid() && |h.bases| == 4
    ensures h.CenterOf(1).Valid() && h.CenterOf(1).Items() == [(2, OneMeta()), (3, TwoMeta())]
  {
    ToolOwners();
    assert Extend(h.bases, [1]) == [[], [Sentinel], [1], [1]];
    assert Construct(h.shapes[1], TwoMeta()) == Some(TwoMeta());
    assert 3 !in c1.order;
    var toolTwo := h.DefineClass([1], PlainDict, TwoMeta());
    assert h.CenterOf(1) == c1.Put(3, TwoMeta());
    PutKeepsPositions(c1, 3, TwoMeta());
  }

  /** Over a center holding the two tools in order, a query by `name='one'`
      finds the first and a query by `name='two'` the second. */
  lemma Lookups<K>(es: seq<(K, Meta)>)
    requires |es| == 2 && es[0].1 == OneMeta() && es[1].1 == TwoMeta()
    ensures FirstMatch(es, Matcher(None, map["name" := StrValue("one")])) == Some(es[0].0)
    ensures FirstMatch(es, Matcher(None, TwoMeta())) == Some(es[1].0)
  {
    SupersetIffFieldsAgree(OneMeta(), TwoMeta());
    assert OneMeta()["name"] != TwoMeta()["name"];
    SupersetIffFieldsAgree(OneMeta(), map["name" := StrValue("one")]);
    SupersetIffFieldsAgree(TwoMeta(), TwoMeta());
    FirstMatchAt(es, Matcher(None, map["name" := StrValue("one")]), 0);
    FirstMatchAt(es, Matcher(None, TwoMeta()), 1);
  }
}
