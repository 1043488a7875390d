# dictserialise in Dafny

A model of the core of `dictserialise`, a small Python library that turns object
graphs into strings and back. `escape` walks a live value. Lists and dicts are
rebuilt recursively. Every object that has `to_dict` becomes a dict that holds
its escaped `to_dict()` entries and is tagged `"__classname__":
"<module>.<ClassName>"`. Scalars pass through. `unescape` walks the plain tree
back. A tagged dict has its tag popped, the named class located, a
zero-argument instance built, and `from_dict` called on the unescaped
remainder. The instance itself is returned. `dumps` and `loads` put a codec,
chosen by name, after `escape` or before `unescape`. The names are `"json"`
(the default) and `"msgpack"`; any other name raises `InvalidCoding`.

Files and modules:

- `values.dfy` (`Values`): the plain tree `Value`, the live value `Live`, the tag key and the errors.
- `classes.dfy` (`Classes`): classes as reconstructed by `unescape`, the located-class registry, and `Instance`, a class whose `FromDict` updates its attributes in place.
- `escape.dfy` (`Escaping`): `Escape`, and `EscapeItem`, which inserts entries one at a time like the source's loop, proved equal to it.
- `unescape.dfy` (`Unescaping`): `Unescape`, and `UnescapeDict`, which pops the tag off a mutable `PyDict` and returns a fresh `Instance`, proved equal to it.
- `roundtrip.dfy` (`RoundTrip`): `unescape(escape(v))` gives `v` back for plain trees, and for object graphs up to structural equality of objects (same module, class and `to_dict()`).
- `facade.dfy` (`Facade`): `Dumps`, `Loads` and codec selection by name.
- `examples.dfy` (`TestClasses`): `Point` and `ObjectWithName` from the test module, and the tests' scenarios.

How the model represents the source:

- Dicts are Dafny maps with scalar keys (`Null`, `Bool`, `Int`, `Str`).
- A live object is `Obj(moduleName, className, view)`. `view` is what its `to_dict()` returns; `escape` can observe nothing else about it.
- `pydoc.locate` is a finite map from dotted names to class descriptions (`Registry`). A class can appear under several names: its own qualified name, and every import path that reaches it (`dictserialise.tests.test_serialise.dictserialise.InvalidCoding`, say). The round trip needs only the entry under each object's own qualified name.
- A class description says whether calling the class with no arguments raises (an `__init__` that needs arguments raises `TypeError`). It also gives the defaults set by the zero-argument constructor and the fields that `to_dict` returns.
- It also says how `from_dict` behaves. In the `Point` shape it runs `self.f = d["f"]` for each field in order, and a missing key raises `KeyError`. In the `ObjectWithName` shape it raises.
- Every exception `unescape` can raise is one error, `ReconstructionError`. This covers locating a non-string, calling the `None` returned for an unknown name, calling a class whose `__init__` needs arguments, and an exception inside `from_dict`.
- The JSON and msgpack codecs are parameters: an encode function that may fail (msgpack raises on an integer outside 64 bits), and a decode function that may reject its input. Encoding failures are `EncodeError`.

Points where the code does less than its tests or a general serialisation design might suggest, and which the model follows:

- The constructed instance is returned and the value that `from_dict` returns is ignored (`dictserialise/__init__.py:80-81`).
- There is no custom-loader registry: `register_custom_loader` does not exist in `dictserialise/__init__.py`.
- Errors are plain Python exceptions, not distinct `UnresolvedType`/`MalformedPayload` kinds.
- The only codec names are `"json"` and `"msgpack"`.

## Model

| member | source | states |
|---|---|---|
| Values.QualifiedName | dictserialise/__init__.py:97-98 | the tag is the module, a dot, then the class name, with each part recoverable by position |
| Classes.QualifiedNameInjective | dictserialise/__init__.py:97-98 | for dot-free class names, the tag determines both module and class name |
| Classes.Locate | dictserialise/__init__.py:74 | `pydoc.locate` finds a class exactly for a name in the registry, and `None` otherwise |
| Classes.FromDictAttrs | dictserialise/tests/test_serialise.py:20-24 | a successful `from_dict` sets every field to `d[field]` and keeps every other attribute |
| Classes.ToDictOf | dictserialise/tests/test_serialise.py:17-18 | `to_dict` returns exactly the fields, each mapped to its attribute |
| Classes.Instance.constructor | dictserialise/__init__.py:75 | `klass()`, for a class whose zero-argument call does not raise, builds an instance with the class's default attributes |
| Classes.Instance.FromDict | dictserialise/tests/test_serialise.py:20-24 | `from_dict` raises iff the class's `from_dict` raises or a field key is missing; otherwise it assigns every field from the dict. A `from_dict` that raises outright changes no attribute; a missing key leaves exactly the fields before the first missing one assigned |
| Escaping.Escape | dictserialise/__init__.py:86-103 | escape keeps the shape: scalar to scalar, a list to a list of the same length, a dict to a dict with the same keys, an object to a dict with its `to_dict` keys plus the tag |
| Escaping.EscapeItem | dictserialise/__init__.py:96-101 | inserting the tag and then each escaped `to_dict()` entry one by one in a loop gives exactly `Escape` |
| Escaping.EscapeListElements | dictserialise/__init__.py:89-90 | an escaped list has the input's length, and its i-th element is the escape of the i-th input element |
| Escaping.EscapeDictEntries | dictserialise/__init__.py:91-95 | an escaped dict maps every input key to the escape of its value and gains no tag |
| Escaping.EscapeObjectEntries | dictserialise/__init__.py:96-101 | an escaped object holds the tag (the qualified name unless `to_dict` itself returns the tag key, which then wins) and `escape(v)` under every `to_dict()` key |
| Escaping.EscapeScalar | dictserialise/__init__.py:102-103 | scalars are returned unchanged |
| Escaping.EscapeTagFree | dictserialise/__init__.py:86-103 | the escaped tree holds a tag somewhere iff the input holds an object or a dict already keyed by the tag |
| Escaping.EscapeLift | dictserialise/__init__.py:89-103 | on a tree of lists, dicts and scalars, escape is the identity |
| Unescaping.Unescape | dictserialise/__init__.py:59-83 | scalars come back unchanged, lists keep their length, untagged dicts keep their keys, and a successful tagged dict yields an object of the located class; failures are only ReconstructionError |
| Unescaping.UnescapeItems | dictserialise/__init__.py:64-65 | a list unescapes iff every element does, with the i-th result being the i-th element's unescape |
| Unescaping.UnescapeEntries | dictserialise/__init__.py:69-72 | the entries other than the tag unescape iff every value does; the result has the same keys minus the tag |
| Unescaping.Reconstruct | dictserialise/__init__.py:74-81 | reconstruction succeeds iff the tag is a located string, the class can be called with no arguments, and `from_dict` succeeds; it yields the fresh instance after `from_dict`, not what `from_dict` returns |
| Unescaping.UnescapeEntriesWithoutTag | dictserialise/__init__.py:74-79 | popping the tag first leaves the unescaped remainder unchanged |
| Unescaping.PyDict.Pop | dictserialise/__init__.py:74 | `pop` returns the value under the key and removes just that key |
| Unescaping.UnescapeDict | dictserialise/__init__.py:66-81 | on the caller's dict, the tag is removed from the input and the result equals `Unescape`; for a tagged dict it is a freshly allocated instance, the one `from_dict` was called on |
| Unescaping.UnescapeListElements | dictserialise/__init__.py:64-65 | the i-th element of an unescaped list is the unescape of the i-th element |
| Unescaping.UnescapePlainDict | dictserialise/__init__.py:67-72 | an untagged dict keeps its keys and unescapes each value |
| Unescaping.UnescapeUnlocated | dictserialise/__init__.py:74-75 | a tag that is not a string, or that names no locatable class, yields no object |
| Unescaping.UnescapeTagged | dictserialise/__init__.py:73-81 | a tagged dict succeeds iff the class is located, `klass()` does not raise, and its `from_dict` succeeds on the unescaped entries minus the tag; the result is that instance |
| Unescaping.UnescapeTagFree | dictserialise/__init__.py:64-83 | a tree without tags always unescapes, to itself |
| RoundTrip.FromOwnView | dictserialise/tests/test_serialise.py:17-24 | `from_dict` applied to an instance's own `to_dict()` output restores the same `to_dict()` |
| RoundTrip.UnescapeEscape | dictserialise/__init__.py:59-103 | for any registry in which every object of the graph is restorable (located under its own qualified name, with a no-argument constructor and a `from_dict` matching its `to_dict`), `unescape(escape(v))` is `v`, nested objects included; other registry names, such as import aliases, play no part. The equality is structural: each rebuilt object is a new instance with the same module, class and `to_dict()`, not `==` in Python, which is identity for `Point` |
| RoundTrip.LiftEscape | dictserialise/__init__.py:89-95 | escaping a plain live tree and reading it back as live gives the tree |
| RoundTrip.PlainRoundTrip | dictserialise/__init__.py:64-103 | for any registry, `unescape(escape(v)) == v` on trees of lists, dicts and scalars without the tag key |
| RoundTrip.TagKeyCollision | dictserialise/__init__.py:67-74 | a live dict holding the tag key does not come back as a plain dict |
| Facade.CodingName | dictserialise/__init__.py:35 | the codec name is the keyword argument if given, else `"json"` |
| Facade.ParseCoding | dictserialise/__init__.py:36-41 | only `"json"` and `"msgpack"` are accepted; any other name is `InvalidCoding(name)` |
| Facade.Encoded | dictserialise/__init__.py:36-39 | one encoder call yields its string exactly when the encoder accepts the tree, and `EncodeError` otherwise |
| Facade.Dumps | dictserialise/__init__.py:28-41 | an unknown encoder name is `InvalidCoding` of that name; with a known name, `dumps` is the named codec's encoding of the escaped value, or `EncodeError` exactly when that codec cannot encode it (msgpack raises on integers outside 64 bits) |
| Facade.Loads | dictserialise/__init__.py:44-56 | an unknown decoder name is `InvalidCoding` whatever the input; with a known name, the result is a decoding error if the named codec rejects the input and otherwise the unescape of the decoded tree |
| Facade.DumpsDefaultsToJson | dictserialise/__init__.py:34-37 | without `encoder`, `dumps` is the JSON encoder's result on the escaped value |
| Facade.DumpsMsgpack | dictserialise/__init__.py:38-39 | with `encoder="msgpack"`, `dumps` is the msgpack encoder's result on the escaped value, which may be `EncodeError` |
| Facade.LoadsDefaultsToJson | dictserialise/__init__.py:49-51 | without `decoder`, `loads` decodes with JSON and then unescapes |
| Facade.LoadsReadsOnlyDecoder | dictserialise/__init__.py:49 | `loads` depends on the keyword arguments only through `decoder` |
| Facade.LoadsDumps | dictserialise/__init__.py:28-56 | `loads(dumps(v))` is structurally `v` (same module, class and `to_dict()` for every object) when both name the same known codec, that codec can encode the escaped tree and decodes what it encoded, and `v` is restorable |
| TestClasses.Point | dictserialise/tests/test_serialise.py:12-18 | a point's `to_dict` keys are exactly `x`, `y` and `subpoints` |
| TestClasses.TestClassesLocated | dictserialise/tests/test_serialise.py:7-24 | `Point` and `ObjectWithName` are located under their own qualified names |
| TestClasses.PointRestorable | dictserialise/tests/test_serialise.py:7-24 | a point whose subpoints are restorable is restorable |
| TestClasses.EscapePoint | dictserialise/__init__.py:96-101 | a point escapes to the dict of its tag, coordinates and escaped subpoints |
| TestClasses.DumpsPoint | dictserialise/tests/test_serialise.py:83-97 | `dumps(Point(x=3, y=2), encoder="json")` is the JSON encoder's result on the tagged dict with `x` 3 and `y` 2 |
| TestClasses.DumpsNestedPoints | dictserialise/tests/test_serialise.py:99-124 | `dumps` with `encoder="json"` of nested points encodes each point tagged, in order, with its own coordinates |
| TestClasses.LoadsPoint | dictserialise/tests/test_serialise.py:29-40 | `loads(s, decoder="json")`, where JSON decodes `s` to the tagged tree with `x` 200 and `y` 100, is that point |
| TestClasses.LoadsListOfPoints | dictserialise/tests/test_serialise.py:126-137 | `loads(s, decoder="json")` of a list holding one tagged point is a list holding that point |
| TestClasses.LoadsNestedPoints | dictserialise/tests/test_serialise.py:42-81 | `loads(s, encoder="json")` of an escaped point with two subpoints decodes with JSON and gives the point back |
| TestClasses.AliasedRegistryRoundTrip | dictserialise/tests/test_serialise.py:4 | with `InvalidCoding` also located under the test module's import path, a point still escapes and unescapes back to itself |
| TestClasses.ObjectWithNameDoesNotLoad | dictserialise/tests/test_serialise.py:139-170 | an escaped `ObjectWithName` fails to load, because its `from_dict` raises and no custom loader exists |

## Left out

- The JSON and msgpack encoders and decoders (`json.dumps/loads`, `msgpack.packb/unpackb`). They are foreign library calls, so `Codec` takes them as parameters. `Facade.LoadsDumps` assumes the chosen codec encodes the escaped tree and decodes what it encoded; real JSON does not do this for non-string keys.
- `pydoc.locate` dynamic import: replaced by a finite `Registry`. Where the source gets a class, it gets a class description. Locating a module or a function instead of a class is not modelled.
- Custom loaders and a type registry with registration: the source defines no `register_custom_loader`. The test that calls it (`dictserialise/tests/test_serialise.py:139-154`) exercises behaviour the code does not have.
- `dictserialise/compare_codings.py` (benchmark: timing, compression, printing) and `setup.py` (packaging).
- Dict keys other than scalars: a key that escapes to a dict or list is unhashable in Python and raises `TypeError`.
- Tuples, sets and other containers that `escape` passes through untouched; floats; Python 2 `iteritems`; `True == 1` key collisions.
- Cyclic object graphs: live values are finite trees, so the source's unbounded recursion on a cycle cannot occur in the model.
- Unescaping.UnescapeDict: only the top-level dict is mutable in the model. In the source, nested tagged dicts inside the argument lose their tag too, because `unescape` pops them as it goes. Here nested dicts are values, so the model does not capture that mutation or any sharing of nested dicts.
- Unescaping.Unescape: which exception is raised is not modelled, only that one is. Dict iteration order is unspecified, so the first entry to fail is not determined.
- Unescaping.Reconstruct: the value returned by `from_dict` is not modelled, since the source ignores it.
- Classes.Instance.FromDict: only two shapes of `from_dict` are modelled: copy each field from the dict (the `Point` shape) and raise (the `ObjectWithName` shape). A class whose `from_dict` or `to_dict` does something else is outside the model.
- Facade.CodingName: keyword argument values are strings only. In the source, `encoder` and `decoder` can be any object (`encoder=None` raises `InvalidCoding("invalid encoder: None")`); the model does not represent non-string values or the message text.
- Facade.Dumps: in the source, `escape` runs before the encoder name is checked. `escape` cannot fail in the model, so this order is not observable.
