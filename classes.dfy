/**
 * The classes that `unescape` reconstructs.
 *
 * A class is described by its `__module__` and `__name__`, the attributes
 * its zero-argument constructor sets, the attributes its `to_dict`
 * returns and its `from_dict` assigns (the `Point` shape: one statement
 * `self.f = d["f"]` per field, in order), and whether its `from_dict`
 * raises instead (the `ObjectWithName` shape).  It also says whether calling
 * the class with no arguments raises, as it does when `__init__` needs
 * arguments.  The dynamic lookup done by `pydoc.locate` is a finite map
 * from dotted names to classes; a class may be found under several names
 * (its own qualified name and every import path that reaches it).
 */
module Classes {
  import opened Values

  datatype ClassDef = ClassDef(
    moduleName: string,
    className: string,
    constructorRaises: bool,
    defaults: map<string, Live>,
    fields: seq<string>,
    fromDictRaises: bool)

  /** What `pydoc.locate` can find: dotted name to class. */
  type Registry = map<string, ClassDef>

  /** The keys that `to_dict` of an instance of `cls` returns. */
  function FieldKeys(cls: ClassDef): (ks: set<Scalar>)
    ensures forall f :: Str(f) in ks <==> f in cls.fields
    ensures forall k | k in ks :: k.Str?
  {
    set f | f in cls.fields :: Str(f)
  }

  /** `pydoc.locate(name)`: the class, or `None` when nothing is found. */
  function Locate(reg: Registry, name: string): (r: Option<ClassDef>)
    ensures r.Some? <==> name in reg
    ensures r.Some? ==> r.value == reg[name]
  {
    if name in reg then Some(reg[name]) else None
  }

  /**
   * The dotted name determines module and class when class names hold no
   * dot (Python identifiers cannot).
   */
  lemma QualifiedNameInjective(m1: string, c1: string, m2: string, c2: string)
    requires '.' !in c1 && '.' !in c2
    requires QualifiedName(m1, c1) == QualifiedName(m2, c2)
    ensures m1 == m2 && c1 == c2
  {
    var id := QualifiedName(m1, c1);
    assert m1 == id[..|m1|] == m2;
  }

  /** Whether `from_dict(d)` completes: it does not raise and finds every field. */
  predicate FromDictSucceeds(cls: ClassDef, d: map<Scalar, Live>)
  {
    !cls.fromDictRaises && forall f | f in cls.fields :: Str(f) in d
  }

  /** The attributes after a successful `from_dict(d)` on attributes `attrs`. */
  function FromDictAttrs(cls: ClassDef, attrs: map<string, Live>, d: map<Scalar, Live>): (r: map<string, Live>)
    requires FromDictSucceeds(cls, d)
    ensures r.Keys == attrs.Keys + set f | f in cls.fields
    ensures forall f | f in cls.fields :: r[f] == d[Str(f)]
    ensures forall a | a in attrs && a !in cls.fields :: r[a] == attrs[a]
  {
    attrs + map f | f in cls.fields :: d[Str(f)]
  }

  /** What `to_dict()` returns for an instance with attributes `attrs`. */
  function ToDictOf(cls: ClassDef, attrs: map<string, Live>): (view: map<Scalar, Live>)
    requires forall f | f in cls.fields :: f in attrs
    ensures view.Keys == FieldKeys(cls)
    ensures forall f | f in cls.fields :: view[Str(f)] == attrs[f]
  {
    map k | k in FieldKeys(cls) :: attrs[k.s]
  }

  /** Assigning the next field extends the attributes assigned so far. */
  lemma AssignNext(attrs: map<string, Live>, fields: seq<string>, i: nat, d: map<Scalar, Live>)
    requires i < |fields|
    requires forall j | 0 <= j <= i :: Str(fields[j]) in d
    ensures (attrs + map f | f in fields[..i] :: d[Str(f)])[fields[i] := d[Str(fields[i])]]
         == attrs + map f | f in fields[..i + 1] :: d[Str(f)]
  {
    assert fields[..i + 1] == fields[..i] + [fields[i]];
    var a := (attrs + map f | f in fields[..i] :: d[Str(f)])[fields[i] := d[Str(fields[i])]];
    var b := attrs + map f | f in fields[..i + 1] :: d[Str(f)];
    assert a.Keys == b.Keys;
  }

  /** An instance of a class, whose attributes `from_dict` updates in place. */
  class Instance {
    const cls: ClassDef
    var attrs: map<string, Live>

    /** `klass()` when the zero-argument call does not raise. */
    constructor (cls: ClassDef)
      requires !cls.constructorRaises
      ensures this.cls == cls && attrs == cls.defaults
    {
      this.cls := cls;
      attrs := cls.defaults;
    }

    /** The instance as a live value, as `escape` would observe it. */
    function AsLive(): (v: Live)
      reads this
      requires forall f | f in cls.fields :: f in attrs
      ensures v.Obj? && v.moduleName == cls.moduleName && v.className == cls.className
      ensures v.view == ToDictOf(cls, attrs)
    {
      Obj(cls.moduleName, cls.className, ToDictOf(cls, attrs))
    }

    /**
     * `from_dict(d)`: assigns each field from `d` in order; a missing key
     * raises `KeyError` after the earlier fields were assigned, and a
     * `from_dict` that raises outright changes nothing.  Only whether it
     * raised is returned: the source ignores what `from_dict` returns.
     */
    method FromDict(d: map<Scalar, Live>) returns (raised: bool)
      modifies this
      ensures raised <==> !FromDictSucceeds(cls, d)
      ensures !raised ==> attrs == FromDictAttrs(cls, old(attrs), d)
      ensures raised && cls.fromDictRaises ==> attrs == old(attrs)
      ensures raised && !cls.fromDictRaises ==>
        exists j | 0 <= j < |cls.fields| ::
          && Str(cls.fields[j]) !in d
          && (forall i | 0 <= i < j :: Str(cls.fields[i]) in d)
          && attrs == old(attrs) + map f | f in cls.fields[..j] :: d[Str(f)]
    {
      if cls.fromDictRaises {
        return true;
      }
      var i := 0;
      while i < |cls.fields|
        invariant 0 <= i <= |cls.fields|
        invariant forall j | 0 <= j < i :: Str(cls.fields[j]) in d
        invariant attrs == old(attrs) + map f | f in cls.fields[..i] :: d[Str(f)]
      {
        var key := Str(cls.fields[i]);
        if key !in d {
          assert Str(cls.fields[i]) !in d;
          return true;
        }
        AssignNext(old(attrs), cls.fields, i, d);
        attrs := attrs[cls.fields[i] := d[key]];
        i := i + 1;
      }
      assert cls.fields[..i] == cls.fields;
      raised := false;
    }
  }
}
