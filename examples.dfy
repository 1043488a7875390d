/**
 * The two classes of the test module, `Point` and `ObjectWithName`, and
 * the scenarios its tests exercise, stated over the model.
 */
module TestClasses {
  import opened Values
  import opened Classes
  import opened Escaping
  import opened Unescaping
  import opened RoundTrip
  import opened Facade

  const TestModule: string := "dictserialise.tests.test_serialise"
  const PointName: string := QualifiedName(TestModule, "Point")
  const ObjectWithNameName: string := QualifiedName(TestModule, "ObjectWithName")

  /** `Point`: `x`, `y` and `subpoints` default to 0, 0 and []; `from_dict` copies all three. */
  const PointClass: ClassDef := ClassDef(
    TestModule, "Point", false,
    map["x" := LScalar(Int(0)), "y" := LScalar(Int(0)), "subpoints" := LList([])],
    ["x", "y", "subpoints"],
    false)

  /** `ObjectWithName`: `name` defaults to ""; `to_dict` returns it; `from_dict` raises `NotImplementedError`. */
  const ObjectWithNameClass: ClassDef := ClassDef(
    TestModule, "ObjectWithName", false,
    map["name" := LScalar(Str(""))],
    ["name"],
    true)

  /** What `pydoc.locate` finds for the two test classes. */
  const TestRegistry: Registry := map[PointName := PointClass, ObjectWithNameName := ObjectWithNameClass]

  /** `Point(x=x, y=y, subpoints=subpoints)` as `escape` sees it. */
  function Point(x: int, y: int, subpoints: seq<Live>): (p: Live)
    ensures p.Obj? && p.view.Keys == FieldKeys(PointClass)
  {
    Obj(TestModule, "Point",
        map[Str("x") := LScalar(Int(x)), Str("y") := LScalar(Int(y)), Str("subpoints") := LList(subpoints)])
  }

  /** The escaped form of a point whose subpoints escape to `subpoints`. */
  function PointTree(x: int, y: int, subpoints: seq<Value>): Value
  {
    Dict(map[TagKey := Scalar(Str(PointName)),
             Str("x") := Scalar(Int(x)), Str("y") := Scalar(Int(y)), Str("subpoints") := List(subpoints)])
  }

  /** Each test class is located under its own qualified name. */
  lemma TestClassesLocated()
    ensures Locate(TestRegistry, QualifiedName(TestModule, "Point")) == Some(PointClass)
    ensures Locate(TestRegistry, QualifiedName(TestModule, "ObjectWithName")) == Some(ObjectWithNameClass)
  {
    assert |PointName| != |ObjectWithNameName|;
  }

  /** A point is restorable when its subpoints are. */
  lemma PointRestorable(x: int, y: int, subpoints: seq<Live>)
    requires forall i | 0 <= i < |subpoints| :: Restorable(TestRegistry, subpoints[i])
    ensures Restorable(TestRegistry, Point(x, y, subpoints))
  {
    TestClassesLocated();
    assert FieldKeys(PointClass) == {Str("x"), Str("y"), Str("subpoints")};
    assert Restorable(TestRegistry, LList(subpoints));
  }

  /** The entries of an escaped point, one key at a time. */
  lemma EscapePointEntries(x: int, y: int, subpoints: seq<Live>)
    ensures var e := Escape(Point(x, y, subpoints)).entries;
      && e.Keys == {TagKey, Str("x"), Str("y"), Str("subpoints")}
      && e[TagKey] == Scalar(Str(PointName))
      && e[Str("x")] == Scalar(Int(x))
      && e[Str("y")] == Scalar(Int(y))
      && e[Str("subpoints")] == Escape(LList(subpoints))
  {
    var view := Point(x, y, subpoints).view;
    assert TagKey !in view;
    EscapeObjectEntries(TestModule, "Point", view);
  }

  /** Helper: a dict with exactly the keys of an escaped point is that map display. */
  lemma PointShaped(e: map<Scalar, Value>, tag: Value, x: Value, y: Value, subpoints: Value)
    requires e.Keys == {TagKey, Str("x"), Str("y"), Str("subpoints")}
    requires e[TagKey] == tag && e[Str("x")] == x && e[Str("y")] == y && e[Str("subpoints")] == subpoints
    ensures e == map[TagKey := tag, Str("x") := x, Str("y") := y, Str("subpoints") := subpoints]
  {
  }

  /** A point escapes to the tagged dict of its coordinates and escaped subpoints. */
  lemma EscapePoint(x: int, y: int, subpoints: seq<Live>)
    ensures Escape(Point(x, y, subpoints)) == PointTree(x, y, Escape(LList(subpoints)).items)
  {
    EscapePointEntries(x, y, subpoints);
    var e := Escape(Point(x, y, subpoints)).entries;
    PointShaped(e, Scalar(Str(PointName)), Scalar(Int(x)), Scalar(Int(y)), Escape(LList(subpoints)));
  }

  /** `dumps(Point(x=3, y=2), encoder="json")` is the JSON text of the tagged dict of both coordinates. */
  lemma DumpsPoint(codecs: Codecs)
    ensures Dumps(codecs, Point(3, 2, []), map["encoder" := "json"]) == Encoded(codecs.json, PointTree(3, 2, []))
  {
    PointRoundTrip(3, 2);
  }

  /** `dumps` of nested points with `encoder="json"`: each point is tagged, in order, with its own coordinates. */
  lemma DumpsNestedPoints(codecs: Codecs)
    ensures Dumps(codecs, Point(2, 1, [Point(10, 5, []), Point(20, 10, [])]), map["encoder" := "json"])
         == Encoded(codecs.json, PointTree(2, 1, [PointTree(10, 5, []), PointTree(20, 10, [])]))
  {
    EscapeNestedPoints();
  }

  /** Helper: the escaped tree of the nested points. */
  lemma EscapeNestedPoints()
    ensures Escape(Point(2, 1, [Point(10, 5, []), Point(20, 10, [])]))
         == PointTree(2, 1, [PointTree(10, 5, []), PointTree(20, 10, [])])
  {
    var inner := [Point(10, 5, []), Point(20, 10, [])];
    EscapePoint(10, 5, []);
    EscapePoint(20, 10, []);
    EscapePoint(2, 1, inner);
    assert Escape(LList([])).items == [];
    EscapePair(inner[0], inner[1]);
    assert [inner[0], inner[1]] == inner;
  }

  /** `loads(s, decoder="json")` of the JSON text of a tagged point builds that point. */
  lemma LoadsPoint(codecs: Codecs, s: Wire)
    requires codecs.json.decode(s) == Some(PointTree(200, 100, []))
    ensures Loads(codecs, TestRegistry, s, map["decoder" := "json"]) == Ok(Point(200, 100, []))
  {
    PointRoundTrip(200, 100);
  }

  /** `loads(s, decoder="json")` of a list holding one tagged point is a list holding that point. */
  lemma LoadsListOfPoints(codecs: Codecs, s: Wire)
    requires codecs.json.decode(s) == Some(List([PointTree(200, 100, [])]))
    ensures Loads(codecs, TestRegistry, s, map["decoder" := "json"]) == Ok(LList([Point(200, 100, [])]))
  {
    PointRoundTrip(200, 100);
    UnescapeSingleton(TestRegistry, PointTree(200, 100, []));
  }

  /**
   * Nested points load back as nested points; the test passes `encoder="json"`
   * to `loads`, which then decodes with its default, JSON.
   */
  lemma LoadsNestedPoints(codecs: Codecs, s: Wire)
    requires codecs.json.decode(s) == Some(Escape(Point(1, 2, [Point(10, 20, []), Point(20, 40, [])])))
    ensures Loads(codecs, TestRegistry, s, map["encoder" := "json"])
         == Ok(Point(1, 2, [Point(10, 20, []), Point(20, 40, [])]))
  {
    var p := Point(1, 2, [Point(10, 20, []), Point(20, 40, [])]);
    NestedPointsRestorable();
    UnescapeEscape(TestRegistry, p);
    var kwargs := map["encoder" := "json"];
    assert "decoder" !in kwargs;
    LoadsDefaultsToJson(codecs, TestRegistry, s, kwargs);
  }

  /** Helper: the nested points of the load test are restorable. */
  lemma NestedPointsRestorable()
    ensures Restorable(TestRegistry, Point(1, 2, [Point(10, 20, []), Point(20, 40, [])]))
  {
    PointRestorable(10, 20, []);
    PointRestorable(20, 40, []);
    PointRestorable(1, 2, [Point(10, 20, []), Point(20, 40, [])]);
  }

  /**
   * `pydoc.locate` also finds classes under import paths: the test module
   * imports `dictserialise`, so `InvalidCoding` is found under a second
   * name whose module, `dictserialise`, differs from its own.
   */
  const AliasName: string := TestModule + ".dictserialise.InvalidCoding"
  const AliasRegistry: Registry :=
    TestRegistry[AliasName := ClassDef("dictserialise", "InvalidCoding", false, map[], [], true)]

  /** The aliased name does not disturb the round trip of a point. */
  lemma AliasedRegistryRoundTrip(x: int, y: int)
    ensures AliasName != QualifiedName("dictserialise", "InvalidCoding")
    ensures Unescape(AliasRegistry, Escape(Point(x, y, []))) == Ok(Point(x, y, []))
  {
    assert |AliasName| != |QualifiedName("dictserialise", "InvalidCoding")|;
    assert |AliasName| != |PointName|;
    TestClassesLocated();
    assert AliasRegistry[PointName] == PointClass;
    assert FieldKeys(PointClass) == {Str("x"), Str("y"), Str("subpoints")};
    assert Restorable(AliasRegistry, LList([]));
    assert Restorable(AliasRegistry, Point(x, y, []));
    UnescapeEscape(AliasRegistry, Point(x, y, []));
  }

  /**
   * `ObjectWithName` cannot be loaded back: its `from_dict` raises, and the
   * source has no custom loader that could replace it.
   */
  lemma ObjectWithNameDoesNotLoad(name: string)
    ensures Unescape(TestRegistry, Escape(Obj(TestModule, "ObjectWithName", map[Str("name") := LScalar(Str(name))])))
         == Err(ReconstructionError)
  {
  }

  /** Helper: a two-element list escapes element by element. */
  lemma EscapePair(a: Live, b: Live)
    ensures Escape(LList([a, b])) == List([Escape(a), Escape(b)])
  {
    var r := Escape(LList([a, b])).items;
    assert r[0] == Escape(a) && r[1] == Escape(b);
  }

  /** Helper: a one-element list unescapes to the list of its element's unescape. */
  lemma UnescapeSingleton(reg: Registry, t: Value)
    requires Unescape(reg, t).Ok?
    ensures Unescape(reg, List([t])) == Ok(LList([Unescape(reg, t).value]))
  {
    var items := UnescapeItems(reg, [t]);
    assert items.Ok?;
    assert items.value == [Unescape(reg, t).value];
  }

  /** Helper for the point lemmas: any point without subpoints escapes and unescapes back. */
  lemma PointRoundTrip(x: int, y: int)
    ensures Escape(Point(x, y, [])) == PointTree(x, y, [])
    ensures Unescape(TestRegistry, PointTree(x, y, [])) == Ok(Point(x, y, []))
  {
    EscapePoint(x, y, []);
    assert Escape(LList([])).items == [];
    PointRestorable(x, y, []);
    UnescapeEscape(TestRegistry, Point(x, y, []));
  }
}
