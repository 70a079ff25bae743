/** Field-level encryption of whole events: configuration, envelope, loops over the fields. */
module FieldEncryption {
  import opened Events
  import opened FieldPaths
  import opened Sealing
  import opened Splitting

  const AES_256_GCM := "AES-256-GCM"

  datatype Result<+T> = Ok(value: T) | Err(error: Error)

  datatype Error =
    | InvalidFieldPath(eventType: string)
    | NoProvider
    | NoKeyConfigured
    | KeyNotResolved
    | KeyUnavailable(key: string)
    | NotAJsonObject
    | ParentIsNotAnObject(path: string)
    | UnsupportedAlgorithm
    | UndecodableKey
    | HandlerRefused
    | FieldTampered(path: string)
    | FieldNotOpened(path: string)

  /** A key provider wraps data keys under any master key that is not `unusable` (unknown,
      revoked, unreachable), and unwraps a data key only under the master key that wrapped it. */
  datatype Provider = Provider(unusable: set<string>)
  {
    predicate Unwraps(key: string, wrapped: WrappedKey) {
      wrapped.Wrapped? && wrapped.master == key && key !in unusable
    }
  }

  /** `onFailure` is the decryption error handler; it answers whether to serve the data as stored. */
  datatype Options = Options(
    fields: map<string, seq<string>>,
    provider: Option<Provider>,
    defaultKey: string,
    resolver: Option<string -> string>,
    requireResolution: bool,
    onFailure: Option<(string, Metadata) -> bool>)

  function FieldsOf(x: Options, eventType: string): seq<string> {
    if eventType in x.fields then x.fields[eventType] else []
  }

  function TagsOf(m: Metadata): seq<string> {
    if m.subjects.NameList? then m.subjects.names else []
  }

  /** The tenant, or else the primary subject. */
  function KeyOwner(m: Metadata): string {
    if m.tenantId != "" then m.tenantId
    else if TagsOf(m) != [] then TagsOf(m)[0]
    else ""
  }

  function ResolveKeyId(x: Options, m: Metadata): string {
    if x.resolver.Some? && KeyOwner(m) != "" && x.resolver.value(KeyOwner(m)) != "" then x.resolver.value(KeyOwner(m))
    else x.defaultKey
  }

  function SelectKeyId(x: Options, m: Metadata): Result<string> {
    if x.requireResolution && x.resolver.Some? then
      var key := if KeyOwner(m) != "" then x.resolver.value(KeyOwner(m)) else "";
      if key == "" then Err(KeyNotResolved) else Ok(key)
    else if ResolveKeyId(x, m) == "" then Err(NoKeyConfigured)
    else Ok(ResolveKeyId(x, m))
  }

  /** A decoded JSON object; the literal null decodes to an empty one. */
  function AsObject(data: Json): Option<Members> {
    match data
    case Obj(members) => Some(members)
    case Null => Some(map[])
    case _ => None
  }

  predicate HasMalformed(paths: seq<string>) {
    exists i | 0 <= i < |paths| :: !ValidFieldPath(paths[i])
  }

  /** The error of a configuration that cannot seal anything, whatever the event. */
  function ConfigError(x: Options, eventType: string, m: Metadata): Option<Error> {
    if HasMalformed(FieldsOf(x, eventType)) then Some(InvalidFieldPath(eventType))
    else if x.provider.None? then Some(NoProvider)
    else if SelectKeyId(x, m).Err? then Some(SelectKeyId(x, m).error)
    else if SelectKeyId(x, m).value in x.provider.value.unusable then Some(KeyUnavailable(SelectKeyId(x, m).value))
    else None
  }

  function Enveloped(m: Metadata, names: seq<string>, key: string, dek: nat): Metadata {
    m.(encryptedFields := NameList(names), keyId := key, dek := Wrapped(key, dek), algorithm := AES_256_GCM)
  }

  /** Encrypts the configured fields of an event under the fresh data key `dek`. */
  function Encrypt(x: Options, stream: string, eventType: string, data: Json, m: Metadata, dek: nat): Result<(Json, Metadata)> {
    if FieldsOf(x, eventType) == [] then Ok((data, m))
    else if ConfigError(x, eventType, m).Some? then Err(ConfigError(x, eventType, m).value)
    else if AsObject(data).None? then Err(NotAJsonObject)
    else
      match SealAll(AsObject(data).value, OrderByDepth(FieldsOf(x, eventType), true), dek, stream)
      case Refused(path) => Err(ParentIsNotAnObject(path))
      case AllSealed(tree, names) =>
        if names == [] then Ok((data, m))
        else Ok((Obj(tree), Enveloped(m, names, SelectKeyId(x, m).value, dek)))
  }

  function RecordedFields(m: Metadata): seq<string> {
    if m.encryptedFields.NameList? then m.encryptedFields.names else []
  }

  /** Decrypts the recorded fields of an event. */
  function Decrypt(x: Options, stream: string, eventType: string, data: Json, m: Metadata): Result<Json> {
    if !IsEncrypted(m) then Ok(data)
    else if x.provider.None? then Err(NoProvider)
    else if m.algorithm != "" && m.algorithm != AES_256_GCM then Err(UnsupportedAlgorithm)
    else if m.dek == BadKey then Err(UndecodableKey)
    else if !x.provider.value.Unwraps(m.keyId, m.dek) then
      if x.onFailure.None? then Err(KeyUnavailable(m.keyId))
      else if x.onFailure.value(eventType, m) then Ok(data)
      else Err(HandlerRefused)
    else if RecordedFields(m) == [] then Ok(data)
    else if AsObject(data).None? then Err(NotAJsonObject)
    else
      match UnsealAll(AsObject(data).value, OrderByDepth(RecordedFields(m), false), m.dek.dek, stream)
      case AllRestored(tree) => Ok(Obj(tree))
      case Failed(path, tampered) => Err(if tampered then FieldTampered(path) else FieldNotOpened(path))
  }

  // ---- The configuration object ----

  predicate HasNested(paths: seq<string>) {
    exists i | 0 <= i < |paths| :: IndexOf(paths[i], '.') < |paths[i]|
  }

  /** Sorting is skipped when no path is nested; that makes no difference. */
  function DepthOrdered(paths: seq<string>, deepestFirst: bool): (r: seq<string>)
    ensures r == OrderByDepth(paths, deepestFirst)
  {
    if HasNested(paths) then OrderByDepth(paths, deepestFirst)
    else
      FlatListsAreOrdered(paths, deepestFirst);
      paths
  }

  /** One turn of the sealing loop. */
  lemma SealAllSteps(tree: Members, paths: seq<string>, i: nat, dek: nat, stream: string)
    requires i <= |paths|
    ensures paths[0..] == paths
    ensures SealAll(tree, paths[i..], dek, stream)
         == if i == |paths| then AllSealed(tree, [])
            else match SealField(tree, paths[i], dek, stream)
                 case Sealed(t) => Named([paths[i]], SealAll(t, paths[i + 1..], dek, stream))
                 case NothingThere => SealAll(tree, paths[i + 1..], dek, stream)
                 case ShapeMismatch => Refused(paths[i])
  {
    if i < |paths| { assert paths[i..][1..] == paths[i + 1..]; }
  }

  class FieldEncryptionConfig {
    const options: Options
    var sealOrder: map<string, seq<string>>   // only for event types with nested paths
    var invalid: set<string>                  // event types with a malformed path

    ghost predicate Valid()
      reads this
    {
      Finalized(options.fields.Keys)
    }

    /** Exactly these event types have been validated and ordered. */
    ghost predicate Finalized(types: set<string>)
      reads this
    {
      && types <= options.fields.Keys
      && (forall t :: t in types ==> (t in invalid <==> HasMalformed(options.fields[t])))
      && (forall t :: t in types ==> SealPaths(t) == OrderByDepth(options.fields[t], true))
      && invalid <= types && sealOrder.Keys <= types
    }

    /** Validates every path once and precomputes the sealing order of nested configurations. */
    constructor (options: Options)
      ensures Valid() && this.options == options
    {
      this.options, sealOrder, invalid := options, map[], {};
      new;
      var todo := options.fields.Keys;
      while todo != {}
        invariant todo <= options.fields.Keys && this.options == options
        invariant Finalized(options.fields.Keys - todo)
      {
        var t :| t in todo;
        FinalizeType(t, options.fields.Keys - todo);
        todo := todo - {t};
      }
    }

    method FinalizeType(t: string, ghost types: set<string>)
      requires Finalized(types) && t in options.fields && t !in types
      modifies this
      ensures Finalized(types + {t})
    {
      hide OrderByDepth, HasMalformed;
      var paths := options.fields[t];
      if HasMalformed(paths) { invalid := invalid + {t}; }
      if HasNested(paths) {
        sealOrder := sealOrder[t := OrderByDepth(paths, true)];
      } else {
        FlatListsAreOrdered(paths, true);
      }
    }

    function SealPaths(eventType: string): seq<string>
      reads this
    {
      if eventType in sealOrder then sealOrder[eventType] else FieldsOf(options, eventType)
    }

    method EncryptFields(stream: string, eventType: string, data: Json, m: Metadata, dek: nat) returns (r: Result<(Json, Metadata)>)
      requires Valid()
      ensures r == Encrypt(options, stream, eventType, data, m, dek)
    {
      var paths := SealPaths(eventType);
      assert paths == OrderByDepth(FieldsOf(options, eventType), true);
      assert |multiset(paths)| == |multiset(FieldsOf(options, eventType))|;
      if |paths| == 0 { return Ok((data, m)); }
      if eventType in invalid { return Err(InvalidFieldPath(eventType)); }
      if options.provider.None? { return Err(NoProvider); }
      var key := SelectKeyId(options, m);
      if key.Err? { return Err(key.error); }
      if key.value in options.provider.value.unusable { return Err(KeyUnavailable(key.value)); }
      var parsed := AsObject(data);
      if parsed.None? { return Err(NotAJsonObject); }
      var sealed := SealFields(parsed.value, paths, dek, stream);
      match sealed {
        case Refused(path) => return Err(ParentIsNotAnObject(path));
        case AllSealed(tree, names) =>
          if |names| == 0 { return Ok((data, m)); }
          return Ok((Obj(tree), Enveloped(m, names, key.value, dek)));
      }
    }

    method SealFields(tree0: Members, paths: seq<string>, dek: nat, stream: string) returns (r: SealedAll)
      ensures r == SealAll(tree0, paths, dek, stream)
    {
      hide SealAll, SealAt, Segments;
      var tree, names := tree0, [];
      var i := 0;
      SealAllSteps(tree0, paths, 0, dek, stream);
      while i < |paths|
        invariant 0 <= i <= |paths|
        invariant SealAll(tree0, paths, dek, stream) == Named(names, SealAll(tree, paths[i..], dek, stream))
      {
        SealAllSteps(tree, paths, i, dek, stream);
        var o := EncryptJSONField(tree, paths[i], paths[i], stream, dek);
        match o {
          case ShapeMismatch => return Refused(paths[i]);
          case NothingThere =>
          case Sealed(t) =>
            tree, names := t, names + [paths[i]];
        }
        i := i + 1;
      }
      SealAllSteps(tree, paths, i, dek, stream);
      r := AllSealed(tree, names);
    }

    /** Walks the path into nested objects; `fullPath` stays what it was at the root. */
    method EncryptJSONField(tree: Members, path: string, fullPath: string, stream: string, dek: nat) returns (o: SealOutcome)
      ensures o == SealAt(tree, Segments(path), dek, FieldAAD(stream, fullPath))
      decreases |path|
    {
      var i := IndexOf(path, '.');
      if i == |path| {
        if path !in tree { return NothingThere; }
        return Sealed(tree[path := Str(Box(dek, FieldAAD(stream, fullPath), tree[path]))]);
      }
      var parent, rest := path[..i], path[i + 1..];
      assert Segments(path)[0] == parent && Segments(path)[1..] == Segments(rest);
      if parent !in tree || tree[parent].Null? { return NothingThere; }
      if !tree[parent].Obj? { return ShapeMismatch; }
      o := EncryptJSONField(tree[parent].members, rest, fullPath, stream, dek);
      if o.Sealed? { o := Sealed(tree[parent := Obj(o.tree)]); }
    }

    method DecryptFields(stream: string, eventType: string, data: Json, m: Metadata) returns (r: Result<Json>)
      ensures r == Decrypt(options, stream, eventType, data, m)
    {
      if !IsEncrypted(m) { return Ok(data); }
      if options.provider.None? { return Err(NoProvider); }
      if m.algorithm != "" && m.algorithm != AES_256_GCM { return Err(UnsupportedAlgorithm); }
      if m.dek == BadKey { return Err(UndecodableKey); }
      if !options.provider.value.Unwraps(m.keyId, m.dek) {
        if options.onFailure.None? { return Err(KeyUnavailable(m.keyId)); }
        if options.onFailure.value(eventType, m) { return Ok(data); }
        return Err(HandlerRefused);
      }
      var names := RecordedFields(m);
      if |names| == 0 { return Ok(data); }
      var parsed := AsObject(data);
      if parsed.None? { return Err(NotAJsonObject); }
      var unsealed := UnsealFields(parsed.value, DepthOrdered(names, false), m.dek.dek, stream);
      match unsealed {
        case AllRestored(tree) => return Ok(Obj(tree));
        case Failed(path, tampered) => return Err(if tampered then FieldTampered(path) else FieldNotOpened(path));
      }
    }

    method UnsealFields(tree0: Members, paths: seq<string>, dek: nat, stream: string) returns (r: UnsealedAll)
      ensures r == UnsealAll(tree0, paths, dek, stream)
    {
      var tree := tree0;
      var i := 0;
      while i < |paths|
        invariant 0 <= i <= |paths|
        invariant UnsealAll(tree0, paths, dek, stream) == UnsealAll(tree, paths[i..], dek, stream)
      {
        assert paths[i..][0] == paths[i] && paths[i..][1..] == paths[i + 1..];
        var o := DecryptJSONField(tree, paths[i], paths[i], stream, dek);
        match o {
          case Restored(t) => tree := t;
          case Tampered => return Failed(paths[i], true);
          case NotOpened => return Failed(paths[i], false);
        }
        i := i + 1;
      }
      r := AllRestored(tree);
    }

    method DecryptJSONField(tree: Members, path: string, fullPath: string, stream: string, dek: nat) returns (o: UnsealOutcome)
      requires Leaf(path) == Leaf(fullPath)
      ensures o == UnsealAt(tree, Segments(path), dek, AcceptedAADs(stream, fullPath, Leaf(fullPath)))
      decreases |path|
    {
      var i := IndexOf(path, '.');
      if i == |path| {
        if path !in tree || !tree[path].Str? { return Tampered; }
        var value := DecryptFieldValue(tree[path].str, dek, stream, fullPath, path);
        if value.None? { return NotOpened; }
        return Restored(tree[path := value.value]);
      }
      var parent, rest := path[..i], path[i + 1..];
      assert Segments(path)[0] == parent && Segments(path)[1..] == Segments(rest);
      if parent !in tree || !tree[parent].Obj? { return Tampered; }
      o := DecryptJSONField(tree[parent].members, rest, fullPath, stream, dek);
      if o.Restored? { o := Restored(tree[parent := Obj(o.tree)]); }
    }

    /** Tries today's binding first, then the earlier ones, each at most once. */
    method DecryptFieldValue(text: Text, dek: nat, stream: string, fullPath: string, leaf: string) returns (value: Option<Json>)
      ensures value == if Opens(text, dek, AcceptedAADs(stream, fullPath, leaf)) then Some(text.sealed) else None
    {
      var candidates := [FieldAAD(stream, fullPath), FieldAAD(stream, leaf), fullPath, leaf];
      var seen := {};
      for i := 0 to |candidates|
        invariant forall j :: 0 <= j < i ==> candidates[j] in seen
        invariant !Opens(text, dek, seen)
      {
        if candidates[i] !in seen {
          seen := seen + {candidates[i]};
          if Opens(text, dek, {candidates[i]}) { return Some(text.sealed); }
        }
      }
      assert candidates[0] in seen && candidates[1] in seen && candidates[2] in seen && candidates[3] in seen;
      value := None;
    }
  }

  // ---- What encryption promises ----

  /** Decrypting what encryption produced gives back the payload, under any configuration that can
      still unwrap the data key and whatever the order in which the names come back. */
  lemma EncryptThenDecrypt(x: Options, y: Options, stream: string, eventType: string, data: Json, m: Metadata, dek: nat, recorded: seq<string>)
    requires !IsEncrypted(m)
    requires Encrypt(x, stream, eventType, data, m, dek).Ok?
    requires var m' := Encrypt(x, stream, eventType, data, m, dek).value.1;
             && multiset(recorded) == multiset(RecordedFields(m'))
             && y.provider.Some? && m'.keyId !in y.provider.value.unusable
    ensures var (data', m') := Encrypt(x, stream, eventType, data, m, dek).value;
            var read := if IsEncrypted(m') then m'.(encryptedFields := NameList(recorded)) else m';
            Decrypt(y, stream, eventType, data', read) == Ok(data)
  {
    hide SealAll, UnsealAll, OrderByDepth, ConfigError, SelectKeyId;
    var (data', m') := Encrypt(x, stream, eventType, data, m, dek).value;
    if IsEncrypted(m') {
      var tree, fields := AsObject(data).value, FieldsOf(x, eventType);
      SealUnsealRoundTrip(tree, fields, recorded, dek, stream);
      if data.Null? { NothingInNull(OrderByDepth(fields, true), dek, stream); }
      assert |multiset(recorded)| == |multiset(RecordedFields(m'))|;
    }
  }

  lemma {:induction false} NothingInNull(paths: seq<string>, dek: nat, stream: string)
    ensures SealAll(map[], paths, dek, stream) == AllSealed(map[], [])
  {
    if paths != [] { NothingInNull(paths[1..], dek, stream); }
  }

  /** What is recorded, and when encryption fails on the payload itself: both read off the payload. */
  lemma EncryptionFollowsThePayload(x: Options, stream: string, eventType: string, data: Json, m: Metadata, dek: nat)
    requires FieldsOf(x, eventType) != [] && ConfigError(x, eventType, m).None? && !IsEncrypted(m)
    ensures var r := Encrypt(x, stream, eventType, data, m, dek);
            var paths := OrderByDepth(FieldsOf(x, eventType), true);
            && (r.Ok? <==> AsObject(data).Some? && NoClash(AsObject(data).value, paths))
            && (r.Ok? ==> RecordedFields(r.value.1) == Resolving(AsObject(data).value, paths))
            && (r.Ok? && RecordedFields(r.value.1) == [] ==> r.value == (data, m))
            && (r.Ok? && RecordedFields(r.value.1) != [] ==> HasEncryptionEnvelope(r.value.1))
  {
    hide SealAll, OrderByDepth, NoClash, Resolving;
    OrderByDepthOrders(FieldsOf(x, eventType), true);
    if AsObject(data).Some? {
      SealedAreTheResolving(AsObject(data).value, OrderByDepth(FieldsOf(x, eventType), true), dek, stream);
    }
  }

  /** The master key an event's tenant, or for want of one its primary subject, calls for: the resolver's
      answer, and the default key only where resolution is not required; empty if there is none. */
  ghost function KeyFor(x: Options, m: Metadata): string {
    var owner := if m.tenantId != "" then m.tenantId else if TagsOf(m) != [] then TagsOf(m)[0] else "";
    if x.resolver.Some? && owner != "" && x.resolver.value(owner) != "" then x.resolver.value(owner)
    else if x.resolver.Some? && x.requireResolution then ""
    else x.defaultKey
  }

  /** A misconfiguration never stores plaintext: for an event type with configured fields encryption goes
      through exactly if every path is well formed, there is a provider with a usable key for the event,
      and no path clashes with the payload; and then that key is the one recorded. */
  lemma EncryptsExactlyWhen(x: Options, stream: string, eventType: string, data: Json, m: Metadata, dek: nat)
    requires FieldsOf(x, eventType) != [] && !IsEncrypted(m)
    ensures var r := Encrypt(x, stream, eventType, data, m, dek);
            && (r.Ok? <==>
                  && (forall p :: p in FieldsOf(x, eventType) ==> DotsApart(p))
                  && x.provider.Some? && KeyFor(x, m) != "" && KeyFor(x, m) !in x.provider.value.unusable
                  && AsObject(data).Some? && NoClash(AsObject(data).value, OrderByDepth(FieldsOf(x, eventType), true)))
            && (r.Ok? && IsEncrypted(r.value.1) ==>
                  r.value.1.keyId == KeyFor(x, m) && r.value.1.dek == Wrapped(KeyFor(x, m), dek) && r.value.1.algorithm == AES_256_GCM)
  {
    hide SealAll, OrderByDepth, DotsApart, ValidFieldPath, NoClash, Resolving;
    var paths := FieldsOf(x, eventType);
    forall p
      ensures ValidFieldPath(p) <==> DotsApart(p)
    {
      ValidPathMeans(p);
    }
    assert HasMalformed(paths) <==> exists p :: p in paths && !DotsApart(p) by {
      if p :| p in paths && !DotsApart(p) {
        var i :| 0 <= i < |paths| && paths[i] == p;
      }
    }
    assert SelectKeyId(x, m).Ok? <==> KeyFor(x, m) != "";
    if ConfigError(x, eventType, m).None? { EncryptionFollowsThePayload(x, stream, eventType, data, m, dek); }
  }

  lemma NothingConfigured(x: Options, stream: string, eventType: string, data: Json, m: Metadata, dek: nat)
    ensures FieldsOf(x, eventType) == [] ==> Encrypt(x, stream, eventType, data, m, dek) == Ok((data, m))
  {
  }

  /** Reading fails closed: ciphertext comes back only opened, or as it is with the handler's consent. */
  lemma DecryptionFailsClosed(x: Options, stream: string, eventType: string, data: Json, m: Metadata)
    requires IsEncrypted(m) && Decrypt(x, stream, eventType, data, m).Ok?
    ensures x.provider.Some? && (m.algorithm == "" || m.algorithm == AES_256_GCM) && m.dek != BadKey
    ensures var out := Decrypt(x, stream, eventType, data, m).value;
            if !m.dek.Wrapped? || m.dek.master != m.keyId || m.keyId in x.provider.value.unusable then
              x.onFailure.Some? && x.onFailure.value(eventType, m) && out == data
            else if RecordedFields(m) == [] then
              out == data
            else
              && AsObject(data).Some? && out.Obj?
              && UnsealAll(AsObject(data).value, OrderByDepth(RecordedFields(m), false), m.dek.dek, stream) == AllRestored(out.members)
  {
    hide UnsealAll, OrderByDepth;
  }

  /** Stored ciphertext never shows a configured field, so once no provider can unwrap the data key
      a reader gets an error or, if its handler says so, that ciphertext. */
  lemma ShreddedFieldsStayHidden(x: Options, y: Options, stream: string, eventType: string, data: Json, m: Metadata, dek: nat, i: nat)
    requires Encrypt(x, stream, eventType, data, m, dek).Ok? && !IsEncrypted(m)
    requires i < |FieldsOf(x, eventType)| && AsObject(data).Some?
    requires var m' := Encrypt(x, stream, eventType, data, m, dek).value.1;
             IsEncrypted(m') && (y.provider.None? || m'.keyId in y.provider.value.unusable)
    ensures var (data', m') := Encrypt(x, stream, eventType, data, m, dek).value;
            var read := Decrypt(y, stream, eventType, data', m');
            read.Err? || (read == Ok(data') && data'.Obj? && Hidden(data'.members, Segments(FieldsOf(x, eventType)[i])))
  {
    hide SealAll, UnsealAll, OrderByDepth, ConfigError, SelectKeyId, Hidden;
    var paths := OrderByDepth(FieldsOf(x, eventType), true);
    assert FieldsOf(x, eventType)[i] in multiset(paths);
    var j :| 0 <= j < |paths| && paths[j] == FieldsOf(x, eventType)[i];
    EveryConfiguredPathIsHidden(AsObject(data).value, paths, dek, stream, j);
  }

  // ---- What a box is bound to ----

  /** A box moved elsewhere opens exactly at its own stream and path, or, in its own stream, as the
      leaf of a nested path when it was sealed as a top-level field of that name. */
  lemma BoxOpensOnlyWhere(s: string, p: string, t: string, q: string, dek: nat, sealed: Json)
    requires s != "" && t != "" && '\0' !in s + t + q + Leaf(q)
    ensures Opens(Box(dek, FieldAAD(s, p), sealed), dek, AcceptedAADs(t, q, Leaf(q))) <==> s == t && (p == q || p == Leaf(q))
  {
    var aad := FieldAAD(s, p);
    assert aad[|s|] == '\0';
    assert aad == s + ['\0'] + p;
    if aad == FieldAAD(t, q) { SplitAtSeparator(s, p, t, q, '\0'); }
    if aad == FieldAAD(t, Leaf(q)) { SplitAtSeparator(s, p, t, Leaf(q), '\0'); }
  }
}
