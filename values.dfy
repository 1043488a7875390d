/**
 * The values that dictserialise works on.
 *
 * `Value` is the plain intermediate tree that `escape` produces and the
 * codecs encode: scalars, lists and dicts only.  `Live` is an application
 * value before `escape` (or after `unescape`): the same shapes plus objects
 * that expose `to_dict`.  Dict keys are scalars in both: a key that escaped
 * to a list or a dict would be unhashable in the source.
 */
module Values {

  /** The scalars the source passes through unchanged. */
  datatype Scalar = Null | Bool(b: bool) | Int(i: int) | Str(s: string)

  /** The plain intermediate tree. */
  datatype Value =
    | Scalar(sc: Scalar)
    | List(items: seq<Value>)
    | Dict(entries: map<Scalar, Value>)

  /**
   * A live value.  An object is described by what `escape` can observe of
   * it: its `__module__`, its class's `__name__`, and the mapping its
   * `to_dict()` returns.
   */
  datatype Live =
    | LScalar(sc: Scalar)
    | LList(items: seq<Live>)
    | LDict(entries: map<Scalar, Live>)
    | Obj(moduleName: string, className: string, view: map<Scalar, Live>)

  /** The reserved key that marks a dict as an escaped object. */
  const ClassNameKey: string := "__classname__"
  const TagKey: Scalar := Str(ClassNameKey)

  /** The type identifier written under the tag: `"<module>.<ClassName>"`. */
  function QualifiedName(moduleName: string, className: string): (id: string)
    ensures |id| == |moduleName| + 1 + |className|
    ensures id[..|moduleName|] == moduleName && id[|moduleName|] == '.'
    ensures id[|moduleName| + 1..] == className
  {
    moduleName + "." + className
  }

  /** Errors the model distinguishes. */
  datatype Error =
    | InvalidCoding(name: string)  // an unknown encoder or decoder name
    | EncodeError                  // the codec cannot encode the tree
    | DecodeError                  // the codec rejected its input
    | ReconstructionError          // an exception raised while unescaping

  datatype Result<T> = Ok(value: T) | Err(error: Error)

  datatype Option<T> = None | Some(value: T)

  /** True when no dict anywhere in `v` carries the tag key. */
  predicate TagFree(v: Value)
  {
    match v
    case Scalar(_) => true
    case List(xs) => forall i | 0 <= i < |xs| :: TagFree(xs[i])
    case Dict(m) => TagKey !in m && forall k | k in m :: TagFree(m[k])
  }

  /** True when `v` holds no object and no dict that carries the tag key. */
  predicate PlainLive(v: Live)
  {
    match v
    case LScalar(_) => true
    case LList(xs) => forall i | 0 <= i < |xs| :: PlainLive(xs[i])
    case LDict(m) => TagKey !in m && forall k | k in m :: PlainLive(m[k])
    case Obj(_, _, _) => false
  }

  /** The live value that a plain tree stands for: the same shape, no objects. */
  function Lift(v: Value): (r: Live)
    ensures r.LScalar? <==> v.Scalar?
    ensures r.LList? <==> v.List?
    ensures r.LDict? <==> v.Dict?
    ensures v.List? ==> |r.items| == |v.items|
    ensures v.Dict? ==> r.entries.Keys == v.entries.Keys
    ensures TagFree(v) ==> PlainLive(r)
  {
    match v
    case Scalar(s) => LScalar(s)
    case List(xs) => LList(seq(|xs|, i requires 0 <= i < |xs| => Lift(xs[i])))
    case Dict(m) => LDict(map k | k in m :: Lift(m[k]))
  }
}
