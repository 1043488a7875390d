/**
 * `dumps` and `loads`: `escape` followed by an encoder, a decoder followed
 * by `unescape`, the codec chosen by name.  The two codecs (JSON and
 * msgpack) are outside the model and are passed in as an encode/decode
 * pair each.  Keyword arguments are a map from option name to value.
 */
module Facade {
  import opened Values
  import opened Classes
  import opened Escaping
  import opened Unescaping
  import opened RoundTrip

  /** An encoded string. */
  type Wire = seq<bv8>

  /**
   * A codec: `encode` yields `None` when it cannot encode a tree (msgpack
   * raises on an integer outside its 64-bit range), `decode` when it
   * rejects its input.
   */
  datatype Codec = Codec(encode: Value -> Option<Wire>, decode: Wire -> Option<Value>)

  datatype Codecs = Codecs(json: Codec, msgpack: Codec)

  datatype Coding = Json | Msgpack

  const DefaultCoding: string := "json"

  /** `kwargs.get(option, "json")`. */
  function CodingName(kwargs: map<string, string>, option: string): (name: string)
    ensures option in kwargs ==> name == kwargs[option]
    ensures option !in kwargs ==> name == DefaultCoding
  {
    if option in kwargs then kwargs[option] else DefaultCoding
  }

  /** The name comparison of `dumps` and `loads`; other names raise `InvalidCoding`. */
  function ParseCoding(name: string): (r: Result<Coding>)
    ensures r.Ok? <==> name == "json" || name == "msgpack"
    ensures r.Ok? ==> (r.value == Json <==> name == "json")
    ensures r.Err? ==> r.error == InvalidCoding(name)
  {
    if name == "json" then Ok(Json)
    else if name == "msgpack" then Ok(Msgpack)
    else Err(InvalidCoding(name))
  }

  function CodecOf(codecs: Codecs, coding: Coding): Codec
  {
    match coding
    case Json => codecs.json
    case Msgpack => codecs.msgpack
  }

  /** One encoder call: the encoded string, or `EncodeError` when the encoder raises. */
  function Encoded(codec: Codec, tree: Value): (r: Result<Wire>)
    ensures r.Ok? <==> codec.encode(tree).Some?
    ensures r.Ok? ==> codec.encode(tree) == Some(r.value)
    ensures r.Err? ==> r.error == EncodeError
  {
    match codec.encode(tree)
    case None => Err(EncodeError)
    case Some(w) => Ok(w)
  }

  /** `dumps(obj, **kwargs)`: escape, then encode with the codec named by `encoder`. */
  function Dumps(codecs: Codecs, obj: Live, kwargs: map<string, string>): (r: Result<Wire>)
    ensures ParseCoding(CodingName(kwargs, "encoder")).Err? ==>
      r == Err(InvalidCoding(CodingName(kwargs, "encoder")))
    ensures ParseCoding(CodingName(kwargs, "encoder")).Ok? ==>
      var codec := CodecOf(codecs, ParseCoding(CodingName(kwargs, "encoder")).value);
      && (r.Ok? <==> codec.encode(Escape(obj)).Some?)
      && (r.Ok? ==> codec.encode(Escape(obj)) == Some(r.value))
      && (r.Err? ==> r.error == EncodeError)
  {
    var escaped := Escape(obj);
    match ParseCoding(CodingName(kwargs, "encoder"))
    case Ok(coding) => Encoded(CodecOf(codecs, coding), escaped)
    case Err(e) => Err(e)
  }

  /**
   * `loads(s, **kwargs)`: decode with the codec named by `decoder`, then
   * unescape.  An unknown name is reported before anything is decoded.
   */
  function Loads(codecs: Codecs, reg: Registry, s: Wire, kwargs: map<string, string>): (r: Result<Live>)
    ensures ParseCoding(CodingName(kwargs, "decoder")).Err? ==>
      r == Err(InvalidCoding(CodingName(kwargs, "decoder")))
    ensures r.Err? && ParseCoding(CodingName(kwargs, "decoder")).Ok? ==>
      r.error == DecodeError || r.error == ReconstructionError
    ensures ParseCoding(CodingName(kwargs, "decoder")).Ok? ==>
      r == (match CodecOf(codecs, ParseCoding(CodingName(kwargs, "decoder")).value).decode(s)
            case None => Err(DecodeError)
            case Some(tree) => Unescape(reg, tree))
  {
    match ParseCoding(CodingName(kwargs, "decoder"))
    case Err(e) => Err(e)
    case Ok(coding) =>
      match CodecOf(codecs, coding).decode(s)
      case None => Err(DecodeError)
      case Some(tree) => Unescape(reg, tree)
  }

  /** Without an `encoder` option `dumps` uses JSON. */
  lemma DumpsDefaultsToJson(codecs: Codecs, obj: Live, kwargs: map<string, string>)
    requires "encoder" !in kwargs
    ensures Dumps(codecs, obj, kwargs) == Encoded(codecs.json, Escape(obj))
  {
  }

  /** With `encoder="msgpack"` `dumps` uses msgpack. */
  lemma DumpsMsgpack(codecs: Codecs, obj: Live, kwargs: map<string, string>)
    requires "encoder" in kwargs && kwargs["encoder"] == "msgpack"
    ensures Dumps(codecs, obj, kwargs) == Encoded(codecs.msgpack, Escape(obj))
  {
  }

  /** Without a `decoder` option `loads` uses JSON. */
  lemma LoadsDefaultsToJson(codecs: Codecs, reg: Registry, s: Wire, kwargs: map<string, string>)
    requires "decoder" !in kwargs
    ensures Loads(codecs, reg, s, kwargs) ==
      match codecs.json.decode(s)
      case None => Err(DecodeError)
      case Some(tree) => Unescape(reg, tree)
  {
  }

  /**
   * `loads` reads only the `decoder` option: an `encoder` option passed to
   * it, as the nested-load test does, changes nothing.
   */
  lemma LoadsReadsOnlyDecoder(codecs: Codecs, reg: Registry, s: Wire, k1: map<string, string>, k2: map<string, string>)
    requires CodingName(k1, "decoder") == CodingName(k2, "decoder")
    ensures Loads(codecs, reg, s, k1) == Loads(codecs, reg, s, k2)
  {
  }

  /**
   * `loads(dumps(v))` is `v`, structurally (objects are new instances with
   * the same module, class and `to_dict()`), when both sides name the same known codec,
   * that codec can encode the escaped tree and decodes what it encoded,
   * and `v` is restorable.
   */
  lemma LoadsDumps(codecs: Codecs, reg: Registry, v: Live, dumpArgs: map<string, string>, loadArgs: map<string, string>)
    requires CodingName(dumpArgs, "encoder") == CodingName(loadArgs, "decoder")
    requires ParseCoding(CodingName(dumpArgs, "encoder")).Ok?
    requires var c := CodecOf(codecs, ParseCoding(CodingName(dumpArgs, "encoder")).value);
      c.encode(Escape(v)).Some? && c.decode(c.encode(Escape(v)).value) == Some(Escape(v))
    requires Restorable(reg, v)
    ensures Dumps(codecs, v, dumpArgs).Ok?
    ensures Loads(codecs, reg, Dumps(codecs, v, dumpArgs).value, loadArgs) == Ok(v)
  {
    UnescapeEscape(reg, v);
  }
}
