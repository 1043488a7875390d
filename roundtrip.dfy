/**
 * How `unescape` undoes `escape`: on plain trees always, and on object
 * graphs when every object's class is located under its own qualified
 * name, can be called with no arguments, and has a `from_dict` that assigns
 * exactly the fields its `to_dict` returns.  Other names the registry
 * holds, such as import aliases, play no part.
 */
module RoundTrip {
  import opened Values
  import opened Classes
  import opened Escaping
  import opened Unescaping

  /**
   * Every object in `v` can be rebuilt: its qualified name locates a class
   * with that module and class name, which can be called with no arguments
   * and has a `from_dict` that does not raise and whose fields are exactly
   * the object's `to_dict()` keys, which do not include the tag key.  No
   * plain dict in `v` holds the tag key.
   */
  predicate Restorable(reg: Registry, v: Live)
  {
    match v
    case LScalar(_) => true
    case LList(xs) => forall i | 0 <= i < |xs| :: Restorable(reg, xs[i])
    case LDict(m) => TagKey !in m && forall k | k in m :: Restorable(reg, m[k])
    case Obj(mod, c, view) =>
      && QualifiedName(mod, c) in reg
      && reg[QualifiedName(mod, c)].moduleName == mod
      && reg[QualifiedName(mod, c)].className == c
      && !reg[QualifiedName(mod, c)].constructorRaises
      && !reg[QualifiedName(mod, c)].fromDictRaises
      && view.Keys == FieldKeys(reg[QualifiedName(mod, c)])
      && TagKey !in view
      && forall k | k in view :: Restorable(reg, view[k])
  }

  /** An instance rebuilt from its own `to_dict()` output has the same `to_dict()`. */
  lemma FromOwnView(cls: ClassDef, view: map<Scalar, Live>)
    requires view.Keys == FieldKeys(cls)
    ensures FromDictSucceeds(cls, view) || cls.fromDictRaises
    ensures !cls.fromDictRaises ==> ToDictOf(cls, FromDictAttrs(cls, cls.defaults, view)) == view
  {
    if !cls.fromDictRaises {
      var r := ToDictOf(cls, FromDictAttrs(cls, cls.defaults, view));
      forall k | k in view
        ensures r[k] == view[k]
      {
        assert k.Str? && k.s in cls.fields;
      }
    }
  }

  /**
   * Round trip on object graphs: `unescape(escape(v))` is `v` again,
   * nested objects included.  The equality is structural: each rebuilt
   * object is a new instance with the same module, class and `to_dict()`,
   * which Python's `==` on a class without `__eq__` would not report.
   */
  lemma {:induction false} UnescapeEscape(reg: Registry, v: Live)
    requires Restorable(reg, v)
    ensures Unescape(reg, Escape(v)) == Ok(v)
  {
    match v
    case LScalar(_) =>
    case LList(xs) =>
      var e := Escape(v).items;
      forall i | 0 <= i < |xs|
        ensures Unescape(reg, e[i]) == Ok(xs[i])
      {
        UnescapeEscape(reg, xs[i]);
      }
      assert UnescapeItems(reg, e).value == xs;
    case LDict(m) =>
      var e := Escape(v).entries;
      forall k | k in m
        ensures Unescape(reg, e[k]) == Ok(m[k])
      {
        UnescapeEscape(reg, m[k]);
      }
      assert UnescapeEntries(reg, e).value == m;
    case Obj(mod, c, view) =>
      forall k | k in view
        ensures Unescape(reg, Escape(view[k])) == Ok(view[k])
      {
        UnescapeEscape(reg, view[k]);
      }
      UnescapeEscapeObject(reg, mod, c, view);
  }

  /** The object step of the round trip, given the round trip of every `to_dict()` value. */
  lemma UnescapeEscapeObject(reg: Registry, mod: string, c: string, view: map<Scalar, Live>)
    requires Restorable(reg, Obj(mod, c, view))
    requires forall k | k in view :: Unescape(reg, Escape(view[k])) == Ok(view[k])
    ensures Unescape(reg, Escape(Obj(mod, c, view))) == Ok(Obj(mod, c, view))
  {
    var e := Escape(Obj(mod, c, view)).entries;
    assert forall k | k in view :: e[k] == Escape(view[k]);
    var payload := UnescapeEntries(reg, e).value;
    assert payload == view;
    var name := QualifiedName(mod, c);
    assert e[TagKey] == Scalar(Str(name));
    var cls := reg[name];
    FromOwnView(cls, view);
  }

  /** Escaping a plain tree and lifting the result gives the tree back. */
  lemma {:induction false} LiftEscape(v: Live)
    requires PlainLive(v)
    ensures Lift(Escape(v)) == v
  {
    match v
    case LScalar(_) =>
    case LList(xs) =>
      var r := Lift(Escape(v)).items;
      forall i | 0 <= i < |xs|
        ensures r[i] == xs[i]
      {
        LiftEscape(xs[i]);
      }
      assert r == xs;
    case LDict(m) =>
      var r := Lift(Escape(v)).entries;
      forall k | k in m
        ensures r[k] == m[k]
      {
        LiftEscape(m[k]);
      }
      assert r == m;
  }

  /**
   * Round trip on plain trees: lists, dicts and scalars without the tag
   * key come back unchanged, whatever the registry holds.
   */
  lemma PlainRoundTrip(reg: Registry, v: Live)
    requires PlainLive(v)
    ensures Unescape(reg, Escape(v)) == Ok(v)
  {
    EscapeTagFree(v);
    UnescapeTagFree(reg, Escape(v));
    LiftEscape(v);
  }

  /**
   * A live dict that already holds the tag key is not a plain dict once it
   * has been through `escape` and `unescape`: it is read as an object or
   * fails to load.
   */
  lemma TagKeyCollision(reg: Registry, m: map<Scalar, Live>)
    requires TagKey in m
    ensures var r := Unescape(reg, Escape(LDict(m))); r.Err? || r.value.Obj?
  {
  }
}
