/**
 * `unescape`: a plain tree becomes a live value.  Lists and untagged dicts
 * are rebuilt element by element; a dict holding the tag key has the tag
 * removed, the name located, a zero-argument instance built and
 * `from_dict` called on the unescaped remainder; scalars pass through.
 * Every exception the source can raise on the way (locating a non-string,
 * calling the `None` that `pydoc.locate` returns for an unknown name,
 * calling a class whose `__init__` needs arguments, a `KeyError` or other
 * exception inside `from_dict`) is the one error
 * `ReconstructionError`.
 */
module Unescaping {
  import opened Values
  import opened Classes

  /** `unescape(item)`, as a recursive function over the plain tree. */
  function Unescape(reg: Registry, v: Value): (r: Result<Live>)
    ensures r.Err? ==> r.error == ReconstructionError
    ensures v.Scalar? ==> r == Ok(LScalar(v.sc))
    ensures r.Ok? && v.List? ==> r.value.LList? && |r.value.items| == |v.items|
    ensures r.Ok? && v.Dict? && TagKey !in v.entries ==>
      r.value.LDict? && r.value.entries.Keys == v.entries.Keys
    ensures r.Ok? && v.Dict? && TagKey in v.entries ==>
      var tag := v.entries[TagKey];
      && tag.Scalar? && tag.sc.Str? && tag.sc.s in reg
      && r.value.Obj?
      && r.value.moduleName == reg[tag.sc.s].moduleName
      && r.value.className == reg[tag.sc.s].className
    decreases v, 1
  {
    match v
    case Scalar(s) => Ok(LScalar(s))
    case List(xs) =>
      (match UnescapeItems(reg, xs)
       case Ok(items) => Ok(LList(items))
       case Err(e) => Err(e))
    case Dict(m) =>
      if TagKey !in m then
        (match UnescapeEntries(reg, m)
         case Ok(entries) => Ok(LDict(entries))
         case Err(e) => Err(e))
      else
        (match UnescapeEntries(reg, m)
         case Ok(payload) => Reconstruct(reg, m[TagKey], payload)
         case Err(e) => Err(e))
  }

  /** The list comprehension of `unescape`: every element, in order, or an error. */
  function UnescapeItems(reg: Registry, xs: seq<Value>): (r: Result<seq<Live>>)
    ensures r.Err? ==> r.error == ReconstructionError
    ensures r.Ok? <==> forall i | 0 <= i < |xs| :: Unescape(reg, xs[i]).Ok?
    ensures r.Ok? ==> |r.value| == |xs|
    ensures r.Ok? ==> forall i | 0 <= i < |xs| :: Unescape(reg, xs[i]) == Ok(r.value[i])
    decreases List(xs), 0
  {
    if forall i | 0 <= i < |xs| :: Unescape(reg, xs[i]).Ok? then
      Ok(seq(|xs|, i requires 0 <= i < |xs| => Unescape(reg, xs[i]).value))
    else
      Err(ReconstructionError)
  }

  /**
   * The dict comprehension of `unescape` over every entry except the tag:
   * each value unescaped under its key (scalar keys unescape to themselves).
   */
  function UnescapeEntries(reg: Registry, m: map<Scalar, Value>): (r: Result<map<Scalar, Live>>)
    ensures r.Err? ==> r.error == ReconstructionError
    ensures r.Ok? <==> forall k | k in m && k != TagKey :: Unescape(reg, m[k]).Ok?
    ensures r.Ok? ==> r.value.Keys == m.Keys - {TagKey}
    ensures r.Ok? ==> forall k | k in r.value :: Unescape(reg, m[k]) == Ok(r.value[k])
    decreases Dict(m), 0
  {
    if forall k | k in m && k != TagKey :: Unescape(reg, m[k]).Ok? then
      Ok(map k | k in m && k != TagKey :: Unescape(reg, m[k]).value)
    else
      Err(ReconstructionError)
  }

  /**
   * The tagged branch once the payload is unescaped: locate the class by
   * name, build an instance with no arguments, call `from_dict(payload)` on
   * it and return that instance (not what `from_dict` returns).
   */
  function Reconstruct(reg: Registry, tag: Value, payload: map<Scalar, Live>): (r: Result<Live>)
    ensures r.Err? ==> r.error == ReconstructionError
    ensures r.Ok? <==>
      && tag.Scalar? && tag.sc.Str? && tag.sc.s in reg
      && !reg[tag.sc.s].constructorRaises
      && FromDictSucceeds(reg[tag.sc.s], payload)
    ensures r.Ok? ==>
      var cls := reg[tag.sc.s];
      r.value == Obj(cls.moduleName, cls.className,
                     ToDictOf(cls, FromDictAttrs(cls, cls.defaults, payload)))
  {
    if !(tag.Scalar? && tag.sc.Str?) then
      Err(ReconstructionError)  // pydoc.locate needs a string
    else
      match Locate(reg, tag.sc.s)
      case None => Err(ReconstructionError)  // calling None raises TypeError
      case Some(cls) =>
        if cls.constructorRaises then
          Err(ReconstructionError)  // klass() raises TypeError
        else if FromDictSucceeds(cls, payload) then
          Ok(Obj(cls.moduleName, cls.className,
                 ToDictOf(cls, FromDictAttrs(cls, cls.defaults, payload))))
        else
          Err(ReconstructionError)
  }

  /** Removing the tag entry first does not change the unescaped remainder. */
  lemma UnescapeEntriesWithoutTag(reg: Registry, m: map<Scalar, Value>)
    ensures UnescapeEntries(reg, m - {TagKey}) == UnescapeEntries(reg, m)
  {
    var m' := m - {TagKey};
    var a, b := UnescapeEntries(reg, m'), UnescapeEntries(reg, m);
    forall k | k in m && k != TagKey
      ensures k in m' && m'[k] == m[k]
    {
    }
    assert a.Ok? <==> b.Ok?;
    if a.Ok? {
      assert a.value == b.value;
    }
  }

  /** A Python dict that the caller passes in and `unescape` may change. */
  class PyDict {
    var entries: map<Scalar, Value>

    constructor (entries: map<Scalar, Value>)
      ensures this.entries == entries
    {
      this.entries := entries;
    }

    /** `d.pop(k)` for a key that is present. */
    method Pop(k: Scalar) returns (v: Value)
      requires k in entries
      modifies this
      ensures v == old(entries)[k]
      ensures entries == old(entries) - {k}
    {
      v := entries[k];
      entries := entries - {k};
    }
  }

  /**
   * The dict branch of `unescape` on the caller's dict object.  A tagged
   * dict has its tag popped off the caller's dict first; the located class
   * is then instantiated, the remainder unescaped and `from_dict` called on
   * the fresh instance, which is what is returned.
   */
  method UnescapeDict(reg: Registry, item: PyDict) returns (r: Result<Live>, obj: Instance?)
    modifies item
    ensures item.entries == old(item.entries) - {TagKey}
    ensures r == Unescape(reg, Dict(old(item.entries)))
    ensures (obj != null) <==> (TagKey in old(item.entries) && r.Ok?)
    ensures obj != null ==> fresh(obj)
    ensures obj != null ==> forall f | f in obj.cls.fields :: f in obj.attrs
    ensures obj != null ==> r.Ok? && r.value == obj.AsLive()
  {
    ghost var m := item.entries;
    if TagKey !in item.entries {
      obj := null;
      var entries := UnescapeEntries(reg, item.entries);
      r := if entries.Ok? then Ok(LDict(entries.value)) else Err(entries.error);
      return;
    }
    var tag := item.Pop(TagKey);
    UnescapeEntriesWithoutTag(reg, m);
    obj := null;
    if !(tag.Scalar? && tag.sc.Str?) {
      r := Err(ReconstructionError);
      return;
    }
    var klass := Locate(reg, tag.sc.s);
    if klass.None? {
      r := Err(ReconstructionError);
      return;
    }
    if klass.value.constructorRaises {
      r := Err(ReconstructionError);
      return;
    }
    var loaded := new Instance(klass.value);
    var unescaped := UnescapeEntries(reg, item.entries);
    if unescaped.Err? {
      r := Err(ReconstructionError);
      return;
    }
    var raised := loaded.FromDict(unescaped.value);
    if raised {
      r := Err(ReconstructionError);
      return;
    }
    obj := loaded;
    r := Ok(loaded.AsLive());
  }

  /** A list is unescaped element-wise in order. */
  lemma UnescapeListElements(reg: Registry, xs: seq<Value>, i: nat)
    requires i < |xs|
    requires Unescape(reg, List(xs)).Ok?
    ensures Unescape(reg, xs[i]).Ok?
    ensures Unescape(reg, List(xs)).value.items[i] == Unescape(reg, xs[i]).value
  {
  }

  /** An untagged dict keeps its keys and unescapes each value. */
  lemma UnescapePlainDict(reg: Registry, m: map<Scalar, Value>)
    requires TagKey !in m
    requires Unescape(reg, Dict(m)).Ok?
    ensures Unescape(reg, Dict(m)).value.LDict?
    ensures Unescape(reg, Dict(m)).value.entries.Keys == m.Keys
    ensures forall k | k in m :: Unescape(reg, m[k]) == Ok(Unescape(reg, Dict(m)).value.entries[k])
  {
  }

  /**
   * A tagged dict naming a class that cannot be located, or holding a
   * non-string tag, yields no object.
   */
  lemma UnescapeUnlocated(reg: Registry, m: map<Scalar, Value>)
    requires TagKey in m
    requires !(m[TagKey].Scalar? && m[TagKey].sc.Str? && m[TagKey].sc.s in reg)
    ensures Unescape(reg, Dict(m)) == Err(ReconstructionError)
  {
  }

  /**
   * A tagged dict is reconstructed as an instance of the located class
   * whose `from_dict` received the unescaped entries other than the tag.
   */
  lemma UnescapeTagged(reg: Registry, m: map<Scalar, Value>, payload: map<Scalar, Live>)
    requires TagKey in m && m[TagKey].Scalar? && m[TagKey].sc.Str?
    requires UnescapeEntries(reg, m) == Ok(payload)
    ensures payload.Keys == m.Keys - {TagKey}
    ensures Unescape(reg, Dict(m)).Ok? <==>
      && m[TagKey].sc.s in reg
      && !reg[m[TagKey].sc.s].constructorRaises
      && FromDictSucceeds(reg[m[TagKey].sc.s], payload)
    ensures Unescape(reg, Dict(m)).Ok? ==>
      var cls := reg[m[TagKey].sc.s];
      Unescape(reg, Dict(m)).value
        == Obj(cls.moduleName, cls.className, ToDictOf(cls, FromDictAttrs(cls, cls.defaults, payload)))
  {
  }

  /** On a tree without tags `unescape` always succeeds and is the identity. */
  lemma {:induction false} UnescapeTagFree(reg: Registry, p: Value)
    requires TagFree(p)
    ensures Unescape(reg, p) == Ok(Lift(p))
  {
    match p
    case Scalar(_) =>
    case List(xs) =>
      forall i | 0 <= i < |xs|
        ensures Unescape(reg, xs[i]) == Ok(Lift(xs[i]))
      {
        UnescapeTagFree(reg, xs[i]);
      }
      assert UnescapeItems(reg, xs).value == Lift(p).items;
    case Dict(m) =>
      forall k | k in m
        ensures Unescape(reg, m[k]) == Ok(Lift(m[k]))
      {
        UnescapeTagFree(reg, m[k]);
      }
      assert UnescapeEntries(reg, m).value == Lift(p).entries;
  }
}
