/**
 * `escape`: a live value becomes a plain tree.  Lists and dicts are rebuilt
 * element by element, objects with `to_dict` become dicts tagged with
 * their qualified class name, and scalars pass through.
 */
module Escaping {
  import opened Values

  /** The tag entry that an escaped object starts from. */
  function TagEntry(moduleName: string, className: string): (m: map<Scalar, Value>)
    ensures m.Keys == {TagKey}
    ensures m[TagKey] == Scalar(Str(QualifiedName(moduleName, className)))
  {
    map[TagKey := Scalar(Str(QualifiedName(moduleName, className)))]
  }

  /** `escape(item)`, as a recursive function over the live value. */
  function Escape(v: Live): (r: Value)
    ensures v.LScalar? <==> r.Scalar?
    ensures v.LList? <==> r.List?
    ensures v.LDict? || v.Obj? <==> r.Dict?
    ensures v.LList? ==> |r.items| == |v.items|
    ensures v.LDict? ==> r.entries.Keys == v.entries.Keys
    ensures v.Obj? ==> r.entries.Keys == v.view.Keys + {TagKey}
  {
    match v
    case LScalar(s) => Scalar(s)
    case LList(xs) => List(seq(|xs|, i requires 0 <= i < |xs| => Escape(xs[i])))
    case LDict(m) => Dict(map k | k in m :: Escape(m[k]))
    case Obj(mod, c, view) => Dict(TagEntry(mod, c) + map k | k in view :: Escape(view[k]))
  }

  /**
   * `escape(item)` as the source writes it: comprehensions for lists and
   * dicts, and for an object a dict that starts with the tag and then
   * receives `escape(key): escape(value)` for each `to_dict()` entry, one
   * insertion at a time.  Keys are scalars, which `escape` returns
   * unchanged.
   */
  method EscapeItem(item: Live) returns (r: Value)
    ensures r == Escape(item)
    decreases item
  {
    match item {
      case Obj(mod, c, view) =>
        var escaped := TagEntry(mod, c);
        var todo := view.Keys;
        while todo != {}
          invariant todo <= view.Keys
          invariant escaped == TagEntry(mod, c) + map k | k in view.Keys - todo :: Escape(view[k])
          decreases todo
        {
          var k :| k in todo;
          var e := EscapeItem(view[k]);
          escaped := escaped[k := e];
          todo := todo - {k};
        }
        r := Dict(escaped);
      case _ =>
        r := Escape(item);
    }
  }

  /** A list keeps its length and order: the i-th element is the escape of the i-th input. */
  lemma EscapeListElements(xs: seq<Live>, i: nat)
    requires i < |xs|
    ensures Escape(LList(xs)).List?
    ensures |Escape(LList(xs)).items| == |xs|
    ensures Escape(LList(xs)).items[i] == Escape(xs[i])
  {
  }

  /** A dict keeps its keys, maps each to the escape of its value and gains no tag. */
  lemma EscapeDictEntries(m: map<Scalar, Live>)
    ensures Escape(LDict(m)).Dict?
    ensures Escape(LDict(m)).entries.Keys == m.Keys
    ensures forall k | k in m :: Escape(LDict(m)).entries[k] == Escape(m[k])
    ensures TagKey in Escape(LDict(m)).entries <==> TagKey in m
  {
  }

  /**
   * An object becomes a dict holding the tag and every escaped `to_dict()`
   * entry; since the tag is inserted first, a `to_dict()` entry under the tag
   * key replaces it.
   */
  lemma EscapeObjectEntries(mod: string, c: string, view: map<Scalar, Live>)
    ensures Escape(Obj(mod, c, view)).Dict?
    ensures TagKey in Escape(Obj(mod, c, view)).entries
    ensures TagKey !in view ==>
      Escape(Obj(mod, c, view)).entries[TagKey] == Scalar(Str(QualifiedName(mod, c)))
    ensures forall k | k in view :: Escape(Obj(mod, c, view)).entries[k] == Escape(view[k])
  {
  }

  /** Scalars are returned unchanged. */
  lemma EscapeScalar(s: Scalar)
    ensures Escape(LScalar(s)) == Scalar(s)
  {
  }

  /**
   * Tags appear exactly where the input has an object or a dict that
   * already holds the tag key: the escaped tree is tag-free if and only if
   * the input is plain.
   */
  lemma {:induction false} EscapeTagFree(v: Live)
    ensures TagFree(Escape(v)) <==> PlainLive(v)
  {
    match v
    case LScalar(_) =>
    case LList(xs) =>
      var r := Escape(v).items;
      forall i | 0 <= i < |xs|
        ensures TagFree(r[i]) <==> PlainLive(xs[i])
      {
        EscapeTagFree(xs[i]);
      }
    case LDict(m) =>
      var r := Escape(v).entries;
      forall k | k in m
        ensures TagFree(r[k]) <==> PlainLive(m[k])
      {
        EscapeTagFree(m[k]);
      }
    case Obj(_, _, _) =>
      assert TagKey in Escape(v).entries;
  }

  /** On a plain tree (one without objects) `escape` is the identity. */
  lemma {:induction false} EscapeLift(p: Value)
    ensures Escape(Lift(p)) == p
  {
    match p
    case Scalar(_) =>
    case List(xs) =>
      var r := Escape(Lift(p)).items;
      forall i | 0 <= i < |xs|
        ensures r[i] == xs[i]
      {
        EscapeLift(xs[i]);
      }
      assert r == xs;
    case Dict(m) =>
      var r := Escape(Lift(p)).entries;
      forall k | k in m
        ensures r[k] == m[k]
      {
        EscapeLift(m[k]);
      }
      assert r == m;
  }
}
