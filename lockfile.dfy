/** The flake lock file (src/libexpr/flake/lockfile.cc): a tree of locked inputs, its
    decoding from JSON with the legacy key fallback and the immutability guard, its
    encoding back to JSON, the recursive `isImmutable` conjunction, the store path of an
    input, and the version gate of `LockFile::read`.

    `LockedInputs` is the C++ base class: a map from input name to `LockedInput`.
    A `LockedInput` is a `LockedInputs` (its field `sub`) together with its resolved
    reference, its original reference and its NAR hash. A `LockFile` is a
    `LockedInputs` with nothing added. */
module Lockfile {
  import opened Wrappers
  import opened Json
  import opened Collaborators

  datatype LockedInputs = LockedInputs(inputs: map<string, LockedInput>)

  datatype LockedInput = LockedInput(
    ref: FlakeRef,
    originalRef: FlakeRef,
    narHash: Hash,
    sub: LockedInputs)

  type LockFile = LockedInputs

  /** The lock file format version this code reads and writes. */
  const LockVersion := 3

  /** The ways reading a lock file fails. `TypeError` is nlohmann's type_error (a member
      of the wrong JSON kind); `MissingKey` is a const `operator[]` on an absent member,
      which the source leaves undefined; the others are the collaborators' parse errors,
      the mutable-reference guard and the version gate. */
  datatype LockError =
    | TypeError(key: string)
    | MissingKey(key: string)
    | BadFlakeRef(url: string)
    | BadHash(text: string)
    | MutableFlakeRef(url: string)
    | UnsupportedVersion(version: int)

  // ---------------------------------------------------------------------------
  // Decoding

  /** `json.value(key, def)` for a string member: the member when it is present (a
      type error when it is not a string), the default when it is absent. */
  function StringValue(fields: map<string, Json>, key: string, def: string): (r: Result<string, LockError>)
    ensures key !in fields ==> r == Success(def)
    ensures key in fields ==> (r.Success? <==> fields[key].JString?)
    ensures key in fields && r.Success? ==> r.value == fields[key].s
    ensures r.Failure? ==> r.error == TypeError(key)
  {
    if key in fields then
      if fields[key].JString? then Success(fields[key].s) else Failure(TypeError(key))
    else Success(def)
  }

  /** `json.value(key, json.value(legacyKey, ""))`. The inner call is an argument of the
      outer one, so it is evaluated (and may fail) even when `key` is present. */
  function UrlValue(fields: map<string, Json>, key: string, legacyKey: string): (r: Result<string, LockError>)
    ensures legacyKey in fields && !fields[legacyKey].JString? ==> r == Failure(TypeError(legacyKey))
    ensures (legacyKey !in fields || fields[legacyKey].JString?) && key in fields ==>
      r == (if fields[key].JString? then Success(fields[key].s) else Failure(TypeError(key)))
    ensures key !in fields ==>
      r == (if legacyKey in fields then StringValue(fields, legacyKey, "") else Success(""))
  {
    var fallback :- StringValue(fields, legacyKey, "");
    StringValue(fields, key, fallback)
  }

  /** `parseFlakeRef`, whose throw becomes `BadFlakeRef(url)`. */
  function ParseRef(env: Env, url: string): (r: Result<FlakeRef, LockError>)
    ensures r.Success? <==> env.parseFlakeRef(url).Some?
    ensures r.Success? ==> env.parseFlakeRef(url) == Some(r.value)
    ensures r.Failure? ==> r.error == BadFlakeRef(url)
  {
    match env.parseFlakeRef(url)
    case Some(r) => Success(r)
    case None => Failure(BadFlakeRef(url))
  }

  /** `Hash((std::string) json["narHash"])`. */
  function NarHash(env: Env, fields: map<string, Json>): (r: Result<Hash, LockError>)
    ensures "narHash" !in fields ==> r == Failure(MissingKey("narHash"))
    ensures r.Success? ==>
      "narHash" in fields && fields["narHash"].JString? && env.parseHash(fields["narHash"].s) == Some(r.value)
  {
    if "narHash" !in fields then Failure(MissingKey("narHash"))
    else if !fields["narHash"].JString? then Failure(TypeError("narHash"))
    else match env.parseHash(fields["narHash"].s)
      case Some(h) => Success(h)
      case None => Failure(BadHash(fields["narHash"].s))
  }

  /** The member initialisers and the body of the `LockedInput` constructor, run once its
      base `LockedInputs` part `sub` has been built. */
  function FinishInput(env: Env, fields: map<string, Json>, sub: LockedInputs): (r: Result<LockedInput, LockError>)
    ensures r.Success? ==> r.value.sub == sub && env.isImmutable(r.value.ref)
    ensures r.Success? ==> exists url :: UrlValue(fields, "url", "uri") == Success(url) && env.parseFlakeRef(url) == Some(r.value.ref)
    ensures r.Success? ==> exists url :: UrlValue(fields, "originalUrl", "originalUri") == Success(url) && env.parseFlakeRef(url) == Some(r.value.originalRef)
    ensures r.Success? ==> NarHash(env, fields) == Success(r.value.narHash)
  {
    var url :- UrlValue(fields, "url", "uri");
    var ref :- ParseRef(env, url);
    var originalUrl :- UrlValue(fields, "originalUrl", "originalUri");
    var originalRef :- ParseRef(env, originalUrl);
    var narHash :- NarHash(env, fields);
    if !env.isImmutable(ref) then Failure(MutableFlakeRef(env.refToString(ref)))
    else Success(LockedInput(ref, originalRef, narHash, sub))
  }

  /** The `LockedInput` constructor: first its base class, then `FinishInput`. */
  function DecodeInput(env: Env, j: Json): (r: Result<LockedInput, LockError>)
    ensures r.Success? ==> j.JObject? && InputImmutable(env, r.value)
    decreases j, 2
  {
    var sub :- DecodeInputs(env, j);
    FinishInput(env, j.fields, sub)
  }

  /** A decoded input's own inputs are the decoding of the same object as a
      `LockedInputs`, its base class. */
  lemma DecodedInputBase(env: Env, j: Json)
    requires DecodeInput(env, j).Success?
    ensures DecodeInputs(env, j) == Success(DecodeInput(env, j).value.sub)
  {
  }

  /** The `LockedInputs` constructor: `json["inputs"]` (a const lookup, so the object
      must have it) and then one `LockedInput` per entry. */
  function DecodeInputs(env: Env, j: Json): (r: Result<LockedInputs, LockError>)
    ensures r.Success? ==> j.JObject? && "inputs" in j.fields
    ensures r.Success? ==> InputsImmutable(env, r.value)
    ensures r.Success? && j.fields["inputs"].JObject? ==> r.value.inputs.Keys == j.fields["inputs"].fields.Keys
    ensures r.Success? && j.fields["inputs"].JNull? ==> r.value.inputs == map[]
    decreases j, 1
  {
    if !j.JObject? then Failure(TypeError("inputs"))
    else if "inputs" !in j.fields then Failure(MissingKey("inputs"))
    else DecodeEntries(env, j.fields["inputs"])
  }

  /** The keys of `entries` whose value does not decode. The ghost `j` is the object
      `entries` came from; it is there only as a termination measure. */
  function FailingKeys(env: Env, entries: map<string, Json>, ghost j: Json): (r: set<string>)
    requires j == JObject(entries)
    ensures forall k :: k in r <==> k in entries && DecodeInput(env, entries[k]).Failure?
    decreases j, 0
  {
    set k | k in entries && DecodeInput(env, entries[k]).Failure?
  }

  /** The loop over `json["inputs"].items()` with `insert_or_assign`. Items come in key
      order and the first entry that fails aborts the loop, so the error is that of the
      least failing key. A null `inputs` has no items; a string or an integer yields
      itself as its one item, and a `LockedInput` built from a non-object is a type
      error. */
  function DecodeEntries(env: Env, j: Json): (r: Result<LockedInputs, LockError>)
    ensures r.Success? ==> InputsImmutable(env, r.value)
    ensures r.Success? && j.JObject? ==> r.value.inputs.Keys == j.fields.Keys
    ensures r.Success? ==> j.JObject? || j.JNull?
    ensures r.Success? && j.JNull? ==> r.value.inputs == map[]
    decreases j, 1
  {
    match j
    case JNull => Success(LockedInputs(map[]))
    case JInt(_) => Failure(TypeError("inputs"))
    case JString(_) => Failure(TypeError("inputs"))
    case JObject(entries) =>
      var failing := FailingKeys(env, entries, j);
      if failing != {} then
        Failure(DecodeInput(env, entries[LeastKey(failing)]).error)
      else
        Success(LockedInputs(DecodedEntries(env, entries, j)))
  }

  /** The decoded entries, when none fails. The ghost `j` is only a termination
      measure, as in `FailingKeys`. */
  function DecodedEntries(env: Env, entries: map<string, Json>, ghost j: Json): (r: map<string, LockedInput>)
    requires j == JObject(entries)
    requires forall k :: k in entries ==> DecodeInput(env, entries[k]).Success?
    ensures r.Keys == entries.Keys
    ensures forall k :: k in r ==> DecodeInput(env, entries[k]) == Success(r[k])
    ensures forall k :: k in r ==> InputImmutable(env, r[k])
    decreases j, 0
  {
    map k | k in entries :: DecodeInput(env, entries[k]).value
  }

  // ---------------------------------------------------------------------------
  // isImmutable

  /** `LockedInputs::isImmutable`: every input's reference is immutable and so is
      every input below it. */
  predicate InputsImmutable(env: Env, t: LockedInputs)
    decreases t
  {
    forall k :: k in t.inputs ==> InputImmutable(env, t.inputs[k])
  }

  /** The conjunct for one entry of the loop in `LockedInputs::isImmutable`. */
  predicate InputImmutable(env: Env, i: LockedInput)
    decreases i, 0
  {
    env.isImmutable(i.ref) && InputsImmutable(env, i.sub)
  }

  /** The input reached from `t` by following the names in `path`. */
  ghost function InputAt(t: LockedInputs, path: seq<string>): Option<LockedInput>
    decreases |path|
  {
    if path == [] || path[0] !in t.inputs then None
    else if |path| == 1 then Some(t.inputs[path[0]])
    else InputAt(t.inputs[path[0]].sub, path[1..])
  }

  /** Every input at any depth has an immutable reference. */
  ghost predicate AllRefsImmutable(env: Env, t: LockedInputs)
  {
    forall path :: InputAt(t, path).Some? ==> env.isImmutable(InputAt(t, path).value.ref)
  }

  lemma {:induction false} ImmutableAtEveryPath(env: Env, t: LockedInputs, path: seq<string>)
    requires InputsImmutable(env, t)
    requires InputAt(t, path).Some?
    ensures env.isImmutable(InputAt(t, path).value.ref)
    decreases |path|
  {
    if |path| > 1 {
      ImmutableAtEveryPath(env, t.inputs[path[0]].sub, path[1..]);
    }
  }

  lemma {:induction false} ImmutableFromPaths(env: Env, t: LockedInputs)
    requires AllRefsImmutable(env, t)
    ensures InputsImmutable(env, t)
    decreases t
  {
    forall k | k in t.inputs
      ensures InputImmutable(env, t.inputs[k])
    {
      assert InputAt(t, [k]) == Some(t.inputs[k]);
      var sub := t.inputs[k].sub;
      forall path | InputAt(sub, path).Some?
        ensures env.isImmutable(InputAt(sub, path).value.ref)
      {
        assert ([k] + path)[1..] == path;
        assert InputAt(t, [k] + path) == InputAt(sub, path);
      }
      ImmutableFromPaths(env, sub);
    }
  }

  /** The recursive conjunction means exactly "no mutable reference anywhere". */
  lemma InputsImmutableIffAllRefs(env: Env, t: LockedInputs)
    ensures InputsImmutable(env, t) <==> AllRefsImmutable(env, t)
  {
    if InputsImmutable(env, t) {
      forall path | InputAt(t, path).Some?
        ensures env.isImmutable(InputAt(t, path).value.ref)
      {
        ImmutableAtEveryPath(env, t, path);
      }
    }
    if AllRefsImmutable(env, t) {
      ImmutableFromPaths(env, t);
    }
  }

  /** One mutable reference at any depth makes the whole tree not immutable. */
  lemma MutableInputAnywhere(env: Env, t: LockedInputs, path: seq<string>, i: LockedInput)
    requires InputAt(t, path) == Some(i) && !env.isImmutable(i.ref)
    ensures !InputsImmutable(env, t)
  {
  }

  lemma EmptyIsImmutable(env: Env)
    ensures InputsImmutable(env, LockedInputs(map[]))
  {
  }

  /** `LockedInputs::isImmutable` as the source writes it: a loop over the entries that
      returns false at the first one whose reference, or whose own inputs, are not
      immutable. */
  method IsImmutable(env: Env, t: LockedInputs) returns (b: bool)
    ensures b == InputsImmutable(env, t)
    decreases t
  {
    var todo := t.inputs.Keys;
    while todo != {}
      invariant todo <= t.inputs.Keys
      invariant forall k :: k in t.inputs && k !in todo ==> InputImmutable(env, t.inputs[k])
      decreases todo
    {
      var k := LeastKey(todo);
      var input := t.inputs[k];
      if !env.isImmutable(input.ref) {
        return false;
      }
      var below := IsImmutable(env, input.sub);
      if !below {
        return false;
      }
      todo := todo - {k};
    }
    return true;
  }

  // ---------------------------------------------------------------------------
  // Encoding

  /** `LockedInput::toJson`: the base class's object plus `url`, `originalUrl` and the
      SRI form of `narHash`. */
  function InputToJson(env: Env, i: LockedInput): (r: Json)
    ensures r.JObject? && r.fields.Keys == {"inputs", "url", "originalUrl", "narHash"}
    decreases i, 0
  {
    var base := InputsToJson(env, i.sub).fields;
    JObject(base["url" := JString(env.refToString(i.ref))]
                ["originalUrl" := JString(env.refToString(i.originalRef))]
                ["narHash" := JString(env.hashToSRI(i.narHash))])
  }

  /** `LockedInputs::toJson`: an object whose only member `inputs` maps every name to
      that input's encoding. */
  function InputsToJson(env: Env, t: LockedInputs): (r: Json)
    ensures r.JObject? && r.fields.Keys == {"inputs"} && r.fields["inputs"].JObject?
    ensures r.fields["inputs"].fields.Keys == t.inputs.Keys
    decreases t
  {
    JObject(map["inputs" := JObject(EncodedEntries(env, t))])
  }

  /** The encoding of every entry. */
  function EncodedEntries(env: Env, t: LockedInputs): (r: map<string, Json>)
    ensures r.Keys == t.inputs.Keys
    ensures forall k :: k in r ==> r[k] == InputToJson(env, t.inputs[k])
    decreases t, 0
  {
    map k | k in t.inputs :: InputToJson(env, t.inputs[k])
  }

  /** `LockFile::toJson`: `LockedInputs::toJson` with `version` set to 3. */
  function LockFileToJson(env: Env, lockFile: LockFile): (r: Json)
    ensures r.JObject? && r.fields.Keys == {"inputs", "version"}
    ensures r.fields["version"] == JInt(LockVersion)
    ensures r.fields["inputs"] == InputsToJson(env, lockFile).fields["inputs"]
  {
    JObject(InputsToJson(env, lockFile).fields["version" := JInt(LockVersion)])
  }

  /** The loop of `LockedInputs::toJson` that assigns `j[i.first] = i.second.toJson()`. */
  method EncodeInputs(env: Env, t: LockedInputs) returns (json: Json)
    ensures json == InputsToJson(env, t)
    decreases t
  {
    var j: map<string, Json> := map[];
    var todo := t.inputs.Keys;
    while todo != {}
      invariant todo <= t.inputs.Keys
      invariant j.Keys == t.inputs.Keys - todo
      invariant forall k :: k in j ==> j[k] == InputToJson(env, t.inputs[k])
      decreases todo
    {
      // The source visits the keys in order; the object built does not depend on it.
      var k :| k in todo;
      var entry := EncodeInput(env, t.inputs[k]);
      j := j[k := entry];
      todo := todo - {k};
    }
    assert j == EncodedEntries(env, t);
    json := JObject(map["inputs" := JObject(j)]);
  }

  /** `LockedInput::toJson`, calling the loop above for its base class. */
  method EncodeInput(env: Env, i: LockedInput) returns (json: Json)
    ensures json == InputToJson(env, i)
    decreases i
  {
    var base := EncodeInputs(env, i.sub);
    json := JObject(base.fields["url" := JString(env.refToString(i.ref))]
                               ["originalUrl" := JString(env.refToString(i.originalRef))]
                               ["narHash" := JString(env.hashToSRI(i.narHash))]);
  }

  // ---------------------------------------------------------------------------
  // The decoding loop

  /** The `LockedInputs` constructor as the source writes it: a loop over the items of
      `json["inputs"]` in key order that inserts each decoded `LockedInput` with
      `insert_or_assign` and stops at the first one that throws. */
  method NewLockedInputs(env: Env, json: Json) returns (r: Result<LockedInputs, LockError>)
    ensures r == DecodeInputs(env, json)
    decreases json, 1
  {
    if !json.JObject? {
      return Failure(TypeError("inputs"));
    }
    if "inputs" !in json.fields {
      return Failure(MissingKey("inputs"));
    }
    r := DecodeItems(env, json.fields["inputs"]);
  }

  /** The loop itself, over the items of `json["inputs"]`. */
  method DecodeItems(env: Env, items: Json) returns (r: Result<LockedInputs, LockError>)
    ensures r == DecodeEntries(env, items)
    decreases items, 1
  {
    if items.JNull? {
      return Success(LockedInputs(map[]));
    }
    if !items.JObject? {
      return Failure(TypeError("inputs"));
    }
    var entries := items.fields;
    var inputs: map<string, LockedInput> := map[];
    var todo := entries.Keys;
    while todo != {}
      invariant todo <= entries.Keys
      invariant forall k, k' :: k in entries && k !in todo && k' in todo ==> KeyLess(k, k')
      invariant forall k :: k in entries && k !in todo ==> DecodeInput(env, entries[k]).Success?
      invariant inputs.Keys == entries.Keys - todo
      invariant forall k :: k in inputs ==> inputs[k] == DecodeInput(env, entries[k]).value
      decreases todo
    {
      var k := LeastKey(todo);
      var input := NewLockedInput(env, entries[k]);
      if input.Failure? {
        FirstFailureIsLeast(env, entries, items, todo, k);
        return Failure(input.error);
      }
      inputs := inputs[k := input.value];
      OrderKept(entries.Keys, todo, k);
      todo := todo - {k};
    }
    AllEntriesDecoded(env, entries, items, inputs);
    return Success(LockedInputs(inputs));
  }

  /** When no entry fails, the loop's map is the decoded object. */
  lemma AllEntriesDecoded(env: Env, entries: map<string, Json>, items: Json, inputs: map<string, LockedInput>)
    requires items == JObject(entries)
    requires forall k :: k in entries ==> DecodeInput(env, entries[k]).Success?
    requires inputs.Keys == entries.Keys
    requires forall k :: k in inputs ==> inputs[k] == DecodeInput(env, entries[k]).value
    ensures DecodeEntries(env, items) == Success(LockedInputs(inputs))
  {
    NoFailingKeys(env, entries, items);
    DecodeWithoutFailures(env, entries, items);
    SameDecodedEntries(env, entries, items, inputs);
  }

  lemma NoFailingKeys(env: Env, entries: map<string, Json>, items: Json)
    requires items == JObject(entries)
    requires forall k :: k in entries ==> DecodeInput(env, entries[k]).Success?
    ensures FailingKeys(env, entries, items) == {}
  {
  }

  lemma DecodeWithoutFailures(env: Env, entries: map<string, Json>, items: Json)
    requires items == JObject(entries)
    requires FailingKeys(env, entries, items) == {}
    ensures forall k :: k in entries ==> DecodeInput(env, entries[k]).Success?
    ensures DecodeEntries(env, items) == Success(LockedInputs(DecodedEntries(env, entries, items)))
  {
  }

  lemma SameDecodedEntries(env: Env, entries: map<string, Json>, items: Json, inputs: map<string, LockedInput>)
    requires items == JObject(entries)
    requires forall k :: k in entries ==> DecodeInput(env, entries[k]).Success?
    requires inputs.Keys == entries.Keys
    requires forall k :: k in inputs ==> inputs[k] == DecodeInput(env, entries[k]).value
    ensures DecodedEntries(env, entries, items) == inputs
  {
    var decoded := DecodedEntries(env, entries, items);
    assert forall k :: k in inputs ==> decoded[k] == inputs[k];
    MapsEqual(decoded, inputs);
  }

  /** Maps with the same keys and the same values are equal. */
  lemma MapsEqual<V>(a: map<string, V>, b: map<string, V>)
    requires a.Keys == b.Keys
    requires forall k :: k in a ==> a[k] == b[k]
    ensures a == b
  {
  }

  /** Visiting the least remaining key keeps every visited key before every remaining
      one. */
  lemma OrderKept(keys: set<string>, todo: set<string>, k: string)
    requires todo <= keys && IsLeast(k, todo)
    requires forall k1, k2 :: k1 in keys && k1 !in todo && k2 in todo ==> KeyLess(k1, k2)
    ensures forall k1, k2 :: k1 in keys && k1 !in todo - {k} && k2 in todo - {k} ==> KeyLess(k1, k2)
  {
  }

  /** When the loop visits keys in order and the first failure is at `k`, `k` is the
      least failing key. */
  lemma FirstFailureIsLeast(env: Env, entries: map<string, Json>, items: Json, todo: set<string>, k: string)
    requires items == JObject(entries)
    requires todo <= entries.Keys && IsLeast(k, todo)
    requires forall k1, k2 :: k1 in entries && k1 !in todo && k2 in todo ==> KeyLess(k1, k2)
    requires forall k1 :: k1 in entries && k1 !in todo ==> DecodeInput(env, entries[k1]).Success?
    requires DecodeInput(env, entries[k]).Failure?
    ensures DecodeEntries(env, items) == Failure(DecodeInput(env, entries[k]).error)
  {
    var failing := FailingKeys(env, entries, items);
    assert IsLeast(k, failing);
    LeastUnique(k, LeastKey(failing), failing);
  }

  /** The `LockedInput` constructor: its base class through the loop above, then the
      member initialisers and the immutability check. */
  method NewLockedInput(env: Env, json: Json) returns (r: Result<LockedInput, LockError>)
    ensures r == DecodeInput(env, json)
    decreases json, 2
  {
    var sub := NewLockedInputs(env, json);
    if sub.Failure? {
      return Failure(sub.error);
    }
    r := FinishInput(env, json.fields, sub.value);
  }

  // ---------------------------------------------------------------------------
  // Reading

  /** `json.value("version", 0)`: the version number, 0 when it is absent. */
  function VersionOf(json: Json): (r: Result<int, LockError>)
    ensures r.Success? ==> json.JObject?
    ensures json.JObject? && "version" !in json.fields ==> r == Success(0)
    ensures json.JObject? && "version" in json.fields ==>
      (r.Success? <==> json.fields["version"].JInt?)
    ensures r.Success? && "version" in json.fields ==> json.fields["version"] == JInt(r.value)
  {
    if !json.JObject? then Failure(TypeError("version"))
    else if "version" !in json.fields then Success(0)
    else if json.fields["version"].JInt? then Success(json.fields["version"].n)
    else Failure(TypeError("version"))
  }

  /** `LockFile::read`, given the parsed contents of the file, or `None` when there is
      no file at the path. */
  function Read(env: Env, file: Option<Json>): (r: Result<LockFile, LockError>)
    ensures file.None? ==> r == Success(LockedInputs(map[]))
    ensures file.Some? && r.Success? ==> VersionOf(file.value) == Success(LockVersion)
    ensures r.Success? ==> InputsImmutable(env, r.value)
  {
    match file
    case None => Success(LockedInputs(map[]))
    case Some(json) =>
      var version :- VersionOf(json);
      if version != LockVersion then Failure(UnsupportedVersion(version))
      else DecodeInputs(env, json)
  }

  /** `LockedInput::computeStorePath`. */
  function ComputeStorePath(env: Env, i: LockedInput): string
  {
    env.printStorePath(env.makeFixedOutputPath(true, i.narHash, "source"))
  }

  // ---------------------------------------------------------------------------
  // Properties

  /** Any version other than 3 is refused, and so is a document without a version. */
  lemma VersionGate(env: Env, json: Json)
    requires json.JObject?
    ensures "version" !in json.fields ==> Read(env, Some(json)) == Failure(UnsupportedVersion(0))
    ensures "version" in json.fields && json.fields["version"].JInt? && json.fields["version"].n != LockVersion ==>
      Read(env, Some(json)) == Failure(UnsupportedVersion(json.fields["version"].n))
    ensures "version" in json.fields && json.fields["version"] == JInt(LockVersion) ==>
      Read(env, Some(json)) == DecodeInputs(env, json)
  {
  }

  /** No lock file yet is an empty lock file, which is immutable. */
  lemma ReadAbsent(env: Env)
    ensures Read(env, None) == Success(LockedInputs(map[]))
    ensures InputsImmutable(env, Read(env, None).value)
  {
  }

  /** A `url` that parses to a mutable reference is refused, whatever `originalUrl`
      holds. */
  lemma MutableUrlRefused(env: Env, fields: map<string, Json>, url: string, ref: FlakeRef)
    requires UrlValue(fields, "url", "uri") == Success(url)
    requires env.parseFlakeRef(url) == Some(ref) && !env.isImmutable(ref)
    ensures DecodeInput(env, JObject(fields)).Failure?
  {
  }

  /** When every other part of the entry is well formed, the error is the
      mutable-reference error. */
  lemma MutableUrlError(env: Env, fields: map<string, Json>, url: string, ref: FlakeRef)
    requires DecodeInputs(env, JObject(fields)).Success?
    requires UrlValue(fields, "url", "uri") == Success(url)
    requires env.parseFlakeRef(url) == Some(ref) && !env.isImmutable(ref)
    requires UrlValue(fields, "originalUrl", "originalUri").Success?
    requires env.parseFlakeRef(UrlValue(fields, "originalUrl", "originalUri").value).Some?
    requires NarHash(env, fields).Success?
    ensures DecodeInput(env, JObject(fields)) == Failure(MutableFlakeRef(env.refToString(ref)))
  {
  }

  /** A lock file written with the legacy `uri`/`originalUri` keys reads exactly like
      the same file with `url`/`originalUrl`. */
  lemma LegacyKeysEquivalent(env: Env, fields: map<string, Json>)
    requires "url" in fields && fields["url"].JString? && "uri" !in fields
    requires "originalUrl" in fields && fields["originalUrl"].JString? && "originalUri" !in fields
    ensures DecodeInput(env, JObject(LegacyFields(fields))) == DecodeInput(env, JObject(fields))
  {
  }

  /** `fields` with `url` and `originalUrl` renamed to their legacy names. */
  function LegacyFields(fields: map<string, Json>): (r: map<string, Json>)
    requires "url" in fields && "originalUrl" in fields
    ensures r.Keys == fields.Keys - {"url", "originalUrl"} + {"uri", "originalUri"}
    ensures r["uri"] == fields["url"] && r["originalUri"] == fields["originalUrl"]
    ensures forall k :: k in fields && k !in {"url", "originalUrl", "uri", "originalUri"} ==> r[k] == fields[k]
  {
    (fields - {"url", "originalUrl"})["uri" := fields["url"]]["originalUri" := fields["originalUrl"]]
  }

  /** Decoding the encoding of an input gives it back, provided every reference in it is
      immutable and references and hashes survive printing and parsing. */
  lemma {:induction false} InputRoundTrip(env: Env, i: LockedInput)
    requires RefsRoundTrip(env) && HashesRoundTrip(env)
    requires InputImmutable(env, i)
    ensures DecodeInput(env, InputToJson(env, i)) == Success(i)
    decreases i, 0
  {
    var json := InputToJson(env, i);
    InputsRoundTripAt(env, i.sub, json);
    assert env.parseFlakeRef(env.refToString(i.ref)) == Some(i.ref);
    assert env.parseFlakeRef(env.refToString(i.originalRef)) == Some(i.originalRef);
    assert env.parseHash(env.hashToSRI(i.narHash)) == Some(i.narHash);
    assert FinishInput(env, json.fields, i.sub) == Success(i);
  }

  /** Decoding any object whose `inputs` member is that of `InputsToJson(t)` gives `t`. */
  lemma {:induction false} InputsRoundTripAt(env: Env, t: LockedInputs, json: Json)
    requires RefsRoundTrip(env) && HashesRoundTrip(env)
    requires InputsImmutable(env, t)
    requires json.JObject? && "inputs" in json.fields
    requires json.fields["inputs"] == InputsToJson(env, t).fields["inputs"]
    ensures DecodeInputs(env, json) == Success(t)
    decreases t
  {
    var items := json.fields["inputs"];
    var entries := items.fields;
    assert entries == EncodedEntries(env, t);
    forall k | k in entries
      ensures DecodeInput(env, entries[k]) == Success(t.inputs[k])
    {
      InputRoundTrip(env, t.inputs[k]);
    }
    AllEntriesDecoded(env, entries, items, t.inputs);
  }

  /** The round trip of the whole file: reading what `LockFile::toJson` wrote gives the
      same names, references, hashes and nesting. */
  lemma LockFileRoundTrip(env: Env, lockFile: LockFile)
    requires RefsRoundTrip(env) && HashesRoundTrip(env)
    requires InputsImmutable(env, lockFile)
    ensures Read(env, Some(LockFileToJson(env, lockFile))) == Success(lockFile)
  {
    InputsRoundTripAt(env, lockFile, LockFileToJson(env, lockFile));
  }

  /** Every lock file that reads successfully passes `isImmutable`, so the round trip
      above applies to everything `read` returns. */
  lemma ReadThenWrite(env: Env, file: Json, lockFile: LockFile)
    requires RefsRoundTrip(env) && HashesRoundTrip(env)
    requires Read(env, Some(file)) == Success(lockFile)
    ensures Read(env, Some(LockFileToJson(env, lockFile))) == Success(lockFile)
  {
    LockFileRoundTrip(env, lockFile);
  }

  /** The store path depends on the NAR hash alone. */
  lemma StorePathOfHash(env: Env, a: LockedInput, b: LockedInput)
    requires a.narHash == b.narHash
    ensures ComputeStorePath(env, a) == ComputeStorePath(env, b)
  {
  }

  /** With an injective store, inputs have the same store path exactly when they have the
      same NAR hash. */
  lemma StorePathIffHash(env: Env, a: LockedInput, b: LockedInput)
    requires StoreInjective(env)
    ensures ComputeStorePath(env, a) == ComputeStorePath(env, b) <==> a.narHash == b.narHash
  {
  }
}
