/** What the event store does to an event on its way in and on its way out: reserved metadata,
    schema version, subject tags, encryption, and back through decryption and upcasting. */
module EventCodec {
  import opened Events
  import opened FieldEncryption
  import opened SubjectTags
  import opened Upcasting
  import Sealing
  import FieldPaths

  datatype Store = Store(
    encryption: Option<Options>,
    chain: Option<Registry>,
    callerSchemaVersion: bool,
    tagger: Option<Tagger>,
    callerSubjectTags: bool,
    tooLarge: Json -> bool)

  datatype Outcome<+T> = Success(value: T) | EncryptionFailed(error: FieldEncryption.Error) | TooLarge | UpcastFailed

  // ---- On the way in ----

  /** Removes the library-owned envelope, so a caller cannot make plaintext look encrypted. */
  function SanitizeReservedMetadata(m: Metadata): Metadata {
    m.(encryptedFields := NoNames, keyId := "", dek := NoKey, algorithm := "")
  }

  function Steps(x: Store, eventType: string): seq<Upcaster> {
    if x.chain.Some? then StepsOf(x.chain.value, eventType) else []
  }

  /** The caller's version stands only if honoring it is enabled and it is in range. */
  predicate HonorsVersion(x: Store, eventType: string, m: Metadata) {
    && x.callerSchemaVersion && Steps(x, eventType) != []
    && m.schemaVersion.Version? && DEFAULT_SCHEMA_VERSION <= m.schemaVersion.v <= Latest(Steps(x, eventType))
  }

  function ApplySchemaVersionPolicy(x: Store, eventType: string, m: Metadata): Metadata {
    if x.chain.None? then m.(schemaVersion := NoVersion)
    else if HonorsVersion(x, eventType, m) then m
    else m.(schemaVersion := Version(Latest(Steps(x, eventType))))
  }

  function ApplySubjectTagPolicy(x: Store, eventType: string, data: Json, m: Metadata): Metadata {
    if x.tagger.None? then m
    else
      var subjects := x.tagger.value(eventType, data, m);
      if x.callerSubjectTags then (if subjects == [] then m else SetSubjectTags(m, subjects))
      else ReplaceSubjectTags(m, subjects)
  }

  /** The metadata an appended event's tagger is shown: the envelope stripped, the version settled. */
  function Shown(x: Store, eventType: string, m: Metadata, trusted: bool): Metadata {
    if trusted then SanitizeReservedMetadata(m) else ApplySchemaVersionPolicy(x, eventType, SanitizeReservedMetadata(m))
  }

  /** The metadata an event is encrypted with. */
  function Stamped(x: Store, eventType: string, data: Json, m: Metadata, trusted: bool): Metadata {
    ApplySubjectTagPolicy(x, eventType, data, Shown(x, eventType, m, trusted))
  }

  /** What Append stores for a payload and whatever metadata the caller passes. */
  function Prepare(x: Store, stream: string, eventType: string, data: Json, m: Metadata, trusted: bool, dek: nat): Outcome<(Json, Metadata)> {
    var stamped := Stamped(x, eventType, data, m, trusted);
    var r: Result<(Json, Metadata)> :=
      if x.encryption.Some? then Encrypt(x.encryption.value, stream, eventType, data, stamped, dek) else Ok((data, stamped));
    if r.Err? then EncryptionFailed(r.error)
    else if x.tooLarge(r.value.0) then TooLarge
    else Success(r.value)
  }

  // ---- On the way out ----

  /** Decrypts an event for consumers of stored events; the envelope is cleared only if something
      was decrypted. */
  function DecryptStoredEvent(x: Store, e: StoredEvent): Result<StoredEvent> {
    if x.encryption.None? || !IsEncrypted(e.meta) then Ok(e)
    else
      match Decrypt(x.encryption.value, e.streamId, e.eventType, e.data, e.meta)
      case Err(error) => Err(error)
      case Ok(data) =>
        Ok(e.(data := data, meta := if data != e.data then SanitizeReservedMetadata(e.meta) else e.meta))
  }

  /** The payload as it was when it was appended. */
  function Payload(x: Store, e: StoredEvent): Result<Json> {
    if x.encryption.Some? then Decrypt(x.encryption.value, e.streamId, e.eventType, e.data, e.meta) else Ok(e.data)
  }

  /** A payload brought from its recorded version to the current one. */
  function Current(x: Store, eventType: string, payload: Json, m: Metadata): Outcome<Json> {
    match UpcastFrom(Steps(x, eventType), GetSchemaVersion(m), payload, m)
    case Done(data, _) => Success(data)
    case _ => UpcastFailed
  }

  /** What Load returns: the payload decrypted, then upcast. */
  function Load(x: Store, e: StoredEvent): Outcome<Json> {
    var r := Payload(x, e);
    if r.Err? then EncryptionFailed(r.error) else Current(x, e.eventType, r.value, e.meta)
  }

  // ---- Append, then Load ----

  /** The reading store can still unwrap the event's data key. */
  predicate CanRead(x: Store, m: Metadata) {
    !IsEncrypted(m)
    || (x.encryption.Some? && x.encryption.value.provider.Some? && m.keyId !in x.encryption.value.provider.value.unusable)
  }

  /** Nothing a caller puts under a library-owned key survives: the stored envelope is the one
      encryption stamps, or none. */
  lemma NoForgedEnvelope(x: Store, stream: string, eventType: string, data: Json, m: Metadata, trusted: bool, dek: nat)
    requires Prepare(x, stream, eventType, data, m, trusted, dek).Success?
    ensures var (data', m') := Prepare(x, stream, eventType, data, m, trusted, dek).value;
            && !IsEncrypted(Stamped(x, eventType, data, m, trusted))
            && (IsEncrypted(m') ==> HasEncryptionEnvelope(m') && m'.algorithm == AES_256_GCM && m'.dek == Wrapped(m'.keyId, dek))
            && (!IsEncrypted(m') ==> data' == data && m'.keyId == "" && m'.dek == NoKey && m'.algorithm == "")
  {
    hide Clean, Sealing.SealAll, FieldPaths.OrderByDepth, HasMalformed, ResolveKeyId, KeyOwner;
    StampedIsBare(x, eventType, data, m, trusted);
  }

  lemma StampedIsBare(x: Store, eventType: string, data: Json, m: Metadata, trusted: bool)
    ensures var stamped := Stamped(x, eventType, data, m, trusted);
            && stamped.encryptedFields == NoNames && stamped.keyId == "" && stamped.dek == NoKey && stamped.algorithm == ""
            && stamped.schemaVersion == if trusted then m.schemaVersion
                                        else ApplySchemaVersionPolicy(x, eventType, SanitizeReservedMetadata(m)).schemaVersion
  {
    hide Clean;
  }

  /** The version a payload is stored under. */
  function StoredVersion(x: Store, eventType: string, m: Metadata, trusted: bool): int {
    if trusted || HonorsVersion(x, eventType, m) then GetSchemaVersion(m) else Latest(Steps(x, eventType))
  }

  lemma PreparedVersion(x: Store, stream: string, eventType: string, data: Json, m: Metadata, trusted: bool, dek: nat)
    requires Prepare(x, stream, eventType, data, m, trusted, dek).Success?
    requires Chain(Steps(x, eventType), eventType)
    ensures GetSchemaVersion(Prepare(x, stream, eventType, data, m, trusted, dek).value.1) == StoredVersion(x, eventType, m, trusted)
  {
    hide Clean, Encrypt, UpcastFrom;
    var stamped := Stamped(x, eventType, data, m, trusted);
    StampedIsBare(x, eventType, data, m, trusted);
    if x.encryption.Some? { EncryptKeepsVersion(x.encryption.value, stream, eventType, data, stamped, dek); }
    if Steps(x, eventType) != [] { ChainMeans(Steps(x, eventType), eventType); }
  }

  lemma EncryptKeepsVersion(o: Options, stream: string, eventType: string, data: Json, m: Metadata, dek: nat)
    requires Encrypt(o, stream, eventType, data, m, dek).Ok?
    ensures Encrypt(o, stream, eventType, data, m, dek).value.1.schemaVersion == m.schemaVersion
  {
    hide Sealing.SealAll, FieldPaths.OrderByDepth, ConfigError;
  }

  /** Whatever metadata a caller passes, reserved keys included, Load returns the appended payload,
      upcast from the version it was stored under. */
  lemma AppendThenLoad(x: Store, e: StoredEvent, data: Json, m: Metadata, trusted: bool, dek: nat)
    requires Prepare(x, e.streamId, e.eventType, data, m, trusted, dek) == Success((e.data, e.meta))
    requires Chain(Steps(x, e.eventType), e.eventType) && CanRead(x, e.meta)
    ensures Load(x, e) ==
              match UpcastFrom(Steps(x, e.eventType), StoredVersion(x, e.eventType, m, trusted), data, e.meta)
              case Done(upcasted, _) => Success(upcasted)
              case _ => UpcastFailed
  {
    hide Stamped, UpcastFrom, Encrypt, Decrypt;
    PreparedVersion(x, e.streamId, e.eventType, data, m, trusted, dek);
    DecryptPrepared(x, e, data, m, trusted, dek);
  }

  lemma DecryptPrepared(x: Store, e: StoredEvent, data: Json, m: Metadata, trusted: bool, dek: nat)
    requires Prepare(x, e.streamId, e.eventType, data, m, trusted, dek) == Success((e.data, e.meta)) && CanRead(x, e.meta)
    ensures if x.encryption.Some? then Decrypt(x.encryption.value, e.streamId, e.eventType, e.data, e.meta) == Ok(data)
            else e.data == data
  {
    hide Stamped, Encrypt;
    var stamped := Stamped(x, e.eventType, data, m, trusted);
    StampedIsBare(x, e.eventType, data, m, trusted);
    if x.encryption.Some? {
      DecryptUndoesEncrypt(x.encryption.value, e, data, stamped, dek);
    }
  }

  lemma DecryptUndoesEncrypt(o: Options, e: StoredEvent, data: Json, m: Metadata, dek: nat)
    requires !IsEncrypted(m) && Encrypt(o, e.streamId, e.eventType, data, m, dek) == Ok((e.data, e.meta))
    requires IsEncrypted(e.meta) ==> o.provider.Some? && e.meta.keyId !in o.provider.value.unusable
    ensures Decrypt(o, e.streamId, e.eventType, e.data, e.meta) == Ok(data)
  {
    if IsEncrypted(e.meta) {
      hide Sealing.SealAll, FieldPaths.OrderByDepth, ConfigError, Decrypt;
      assert e.meta.encryptedFields == NameList(RecordedFields(e.meta));
      assert e.meta.(encryptedFields := NameList(RecordedFields(e.meta))) == e.meta;
      EncryptThenDecrypt(o, o, e.streamId, e.eventType, data, m, dek, RecordedFields(e.meta));
    } else {
      UnsealedIsUnchanged(o, e, data, m, dek);
    }
  }

  lemma UnsealedIsUnchanged(o: Options, e: StoredEvent, data: Json, m: Metadata, dek: nat)
    requires Encrypt(o, e.streamId, e.eventType, data, m, dek) == Ok((e.data, e.meta)) && !IsEncrypted(e.meta)
    ensures (e.data, e.meta) == (data, m)
  {
    hide Sealing.SealAll, FieldPaths.OrderByDepth, ConfigError;
  }

  /** With the default policies the payload comes back exactly as it was appended. */
  lemma AppendThenLoadIsIdentity(x: Store, e: StoredEvent, data: Json, m: Metadata, dek: nat)
    requires Prepare(x, e.streamId, e.eventType, data, m, false, dek) == Success((e.data, e.meta))
    requires Chain(Steps(x, e.eventType), e.eventType) && CanRead(x, e.meta) && !x.callerSchemaVersion
    ensures Load(x, e) == Success(data)
  {
    hide Load, Prepare, Encrypt, Decrypt;
    AppendThenLoad(x, e, data, m, false, dek);
    NothingToUpcast(Steps(x, e.eventType), Latest(Steps(x, e.eventType)), data, e.meta, e.eventType);
  }

  /** The version an event is stored under. Unless the store itself re-appends it, a caller's version
      stands only if callers may set it, the type has upcasters, and it lies between 1 and the latest;
      otherwise the latest is stamped, or no version at all without upcasters. */
  lemma StoredVersionIs(x: Store, stream: string, eventType: string, data: Json, m: Metadata, trusted: bool, dek: nat)
    requires Prepare(x, stream, eventType, data, m, trusted, dek).Success?
    ensures var (data', m') := Prepare(x, stream, eventType, data, m, trusted, dek).value;
            var latest := Latest(Steps(x, eventType));
            var legal := m.schemaVersion.Version? && 1 <= m.schemaVersion.v <= latest;
            && !x.tooLarge(data')
            && m'.schemaVersion == (if trusted then m.schemaVersion
                                    else if x.chain == None then NoVersion
                                    else if x.callerSchemaVersion && Steps(x, eventType) != [] && legal then m.schemaVersion
                                    else Version(latest))
  {
    hide Clean, Encrypt;
    StampedIsBare(x, eventType, data, m, trusted);
    if x.encryption.Some? { EncryptKeepsVersion(x.encryption.value, stream, eventType, data, Stamped(x, eventType, data, m, trusted), dek); }
  }

  // ---- Whom an event is tagged with, and sealed under ----

  /** The policy on tags: `given` are those an event comes with, `ids` what the tagger answers, if there
      is one, and `stored` what is recorded. By default the tagger alone decides; only a store that
      trusts callers keeps their tags, ahead of the tagger's. */
  ghost predicate TagsAre(x: Store, given: seq<string>, ids: Option<seq<string>>, stored: seq<string>) {
    match ids
    case None => stored == given
    case Some(ids) =>
      if x.callerSubjectTags then
        && (forall s :: s != "" ==> (s in stored <==> s in given || s in ids))
        && Clean(given) <= Clean(stored)
      else
        forall s :: s in stored <==> s in ids && s != ""
  }

  function Answer(x: Store, eventType: string, data: Json, m: Metadata): Option<seq<string>> {
    if x.tagger.Some? then Some(x.tagger.value(eventType, data, m)) else None
  }

  lemma {:induction false} CleanKeepsFront(a: seq<string>, b: seq<string>)
    ensures Clean(a) <= Clean(a + b)
  {
    if b == [] {
      assert a + b == a;
    } else {
      var front := b[..|b| - 1];
      CleanKeepsFront(a, front);
      assert (a + b)[..|a + b| - 1] == a + front;
    }
  }

  lemma {:induction false} CleanTwice(ids: seq<string>)
    ensures Clean(Clean(ids)) == Clean(ids)
  {
    if ids != [] {
      var front, last := ids[..|ids| - 1], ids[|ids| - 1];
      CleanTwice(front);
      if last != "" && last !in Clean(front) { assert (Clean(front) + [last])[..|Clean(front)|] == Clean(front); }
    }
  }

  /** The policy keeps everything but the tags, and decides those. */
  lemma TagPolicyMeans(x: Store, eventType: string, data: Json, m: Metadata)
    ensures var m' := ApplySubjectTagPolicy(x, eventType, data, m);
            && TagsAre(x, TagsOf(m), Answer(x, eventType, data, m), TagsOf(m'))
            && m' == m.(subjects := m'.subjects)
            && (x.tagger.Some? && !x.callerSubjectTags && TagsOf(m') == [] ==> m'.subjects == NoNames)
  {
    hide Clean;
    if x.tagger.Some? {
      var ids := x.tagger.value(eventType, data, m);
      if x.callerSubjectTags {
        CleanMeans(TagsOf(m) + ids);
        CleanKeepsFront(TagsOf(m), ids);
        CleanTwice(TagsOf(m) + ids);
        CleanMeans(TagsOf(m));
      } else {
        CleanMeans([] + ids);
        assert [] + ids == ids;
      }
    }
  }

  /** What an append records as tags, whatever metadata the caller passes. */
  lemma StoredTagsAre(x: Store, stream: string, eventType: string, data: Json, m: Metadata, trusted: bool, dek: nat)
    requires Prepare(x, stream, eventType, data, m, trusted, dek).Success?
    ensures var m' := Prepare(x, stream, eventType, data, m, trusted, dek).value.1;
            && TagsAre(x, TagsOf(m), Answer(x, eventType, data, Shown(x, eventType, m, trusted)), TagsOf(m'))
            && (x.tagger.Some? && !x.callerSubjectTags && TagsOf(m') == [] ==> m'.subjects == NoNames)
  {
    hide Encrypt, ApplySubjectTagPolicy, TagsAre;
    var stamped := Stamped(x, eventType, data, m, trusted);
    TagPolicyMeans(x, eventType, data, Shown(x, eventType, m, trusted));
    if x.encryption.Some? { EncryptKeepsTheRest(x.encryption.value, stream, eventType, data, stamped, dek); }
  }

  /** And what re-encryption makes of the tags of an event it seals. */
  lemma ResealedTagsAre(x: Store, e: StoredEvent, dek: nat)
    requires Resealed(x, e, dek).Some?
    ensures TagsAre(x, TagsOf(e.meta), Answer(x, e.eventType, e.data, SanitizeReservedMetadata(e.meta)), TagsOf(Resealed(x, e, dek).value.meta))
  {
    hide Encrypt, ApplySubjectTagPolicy, TagsAre;
    var m := SanitizeReservedMetadata(e.meta);
    TagPolicyMeans(x, e.eventType, e.data, m);
    EncryptKeepsTheRest(x.encryption.value, e.streamId, e.eventType, e.data, ApplySubjectTagPolicy(x, e.eventType, e.data, m), dek);
  }

  /** Sealing shows: what is recorded as encrypted never is the payload as it was. */
  lemma EncryptionShows(o: Options, stream: string, eventType: string, data: Json, m: Metadata, dek: nat)
    requires !IsEncrypted(m) && Encrypt(o, stream, eventType, data, m, dek).Ok? && IsEncrypted(Encrypt(o, stream, eventType, data, m, dek).value.1)
    ensures Encrypt(o, stream, eventType, data, m, dek).value.0 != data
  {
    hide Sealing.SealAll, ConfigError, FieldPaths.OrderByDepth;
    var paths := FieldPaths.OrderByDepth(FieldsOf(o, eventType), true);
    FieldPaths.OrderByDepthOrders(FieldsOf(o, eventType), true);
    var last := Sealing.SealingShows(AsObject(data).value, paths, dek, stream);
  }

  lemma EncryptKeepsTheRest(o: Options, stream: string, eventType: string, data: Json, m: Metadata, dek: nat)
    requires Encrypt(o, stream, eventType, data, m, dek).Ok?
    ensures var m' := Encrypt(o, stream, eventType, data, m, dek).value.1;
            m' == m.(encryptedFields := m'.encryptedFields, keyId := m'.keyId, dek := m'.dek, algorithm := m'.algorithm)
  {
    hide Sealing.SealAll, FieldPaths.OrderByDepth, ConfigError;
  }

  /** The first non-empty id. */
  ghost predicate IsPrimary(ids: seq<string>, i: nat) {
    i < |ids| && ids[i] != "" && forall j :: 0 <= j < i ==> ids[j] == ""
  }

  lemma {:induction false} CleanStartsWith(ids: seq<string>) returns (i: nat)
    requires Clean(ids) != []
    ensures IsPrimary(ids, i) && Clean(ids)[0] == ids[i]
  {
    var front := ids[..|ids| - 1];
    if Clean(front) != [] {
      i := CleanStartsWith(front);
    } else {
      i := |ids| - 1;
      CleanMeans(front);
      assert forall j :: 0 <= j < i ==> ids[j] in front;
    }
  }

  /** So where keys are subject-scoped no caller can have an event sealed under somebody else's key: it
      is the key of the first subject the tagger names. */
  lemma SealedForItsSubject(x: Store, stream: string, eventType: string, data: Json, m: Metadata, trusted: bool, dek: nat) returns (i: nat)
    requires Prepare(x, stream, eventType, data, m, trusted, dek).Success? && IsEncrypted(Prepare(x, stream, eventType, data, m, trusted, dek).value.1)
    requires x.tagger.Some? && !x.callerSubjectTags && m.tenantId == ""
    requires x.encryption.Some? && x.encryption.value.resolver.Some? && x.encryption.value.requireResolution
    ensures var ids := x.tagger.value(eventType, data, Shown(x, eventType, m, trusted));
            IsPrimary(ids, i) && Prepare(x, stream, eventType, data, m, trusted, dek).value.1.keyId == x.encryption.value.resolver.value(ids[i])
  {
    hide Encrypt, Clean, Stamped, Shown;
    var ids, stamped := x.tagger.value(eventType, data, Shown(x, eventType, m, trusted)), Stamped(x, eventType, data, m, trusted);
    TaggersTagsAreStamped(x, eventType, data, m, trusted);
    NothingConfigured(x.encryption.value, stream, eventType, data, stamped, dek);
    EncryptsExactlyWhen(x.encryption.value, stream, eventType, data, stamped, dek);
    i := CleanStartsWith(ids);
  }

  lemma TaggersTagsAreStamped(x: Store, eventType: string, data: Json, m: Metadata, trusted: bool)
    requires x.tagger.Some? && !x.callerSubjectTags
    ensures var stamped := Stamped(x, eventType, data, m, trusted);
            TagsOf(stamped) == Clean(x.tagger.value(eventType, data, Shown(x, eventType, m, trusted))) && stamped.tenantId == m.tenantId && !IsEncrypted(stamped)
  {
    hide Clean;
    StampedIsBare(x, eventType, data, m, trusted);
    var ids := x.tagger.value(eventType, data, Shown(x, eventType, m, trusted));
    assert [] + ids == ids;
    if ids == [] { NoIds(); }
  }

  lemma NoIds()
    ensures Clean([]) == []
  {
  }

  // ---- Re-encryption in place ----

  /** Seals a stored event under the current configuration, exactly as an append would tag and seal
      it; anything already encrypted, or with nothing to seal, passes through. */
  function EncryptStoredEvent(x: Store, e: StoredEvent, dek: nat): Result<StoredEvent> {
    if x.encryption.None? || IsEncrypted(e.meta) || FieldsOf(x.encryption.value, e.eventType) == [] then Ok(e)
    else
      var m := ApplySubjectTagPolicy(x, e.eventType, e.data, SanitizeReservedMetadata(e.meta));
      match Encrypt(x.encryption.value, e.streamId, e.eventType, e.data, m, dek)
      case Err(error) => Err(error)
      case Ok(r) => Ok(e.(data := r.0, meta := r.1))
  }

  /** The row a pass over the stream writes back, if it writes one. */
  function Resealed(x: Store, e: StoredEvent, dek: nat): Option<StoredEvent> {
    if IsEncrypted(e.meta) then None
    else
      match EncryptStoredEvent(x, e, dek)
      case Ok(sealed) => if IsEncrypted(sealed.meta) then Some(sealed) else None
      case Err(_) => None
  }

  /** Sealing a stored event gives what an append of it would have stored. */
  lemma ResealingIsAppending(x: Store, e: StoredEvent, dek: nat)
    requires Resealed(x, e, dek).Some?
    ensures var after := Resealed(x, e, dek).value;
            Prepare(x, e.streamId, e.eventType, e.data, e.meta, true, dek) == if x.tooLarge(after.data) then TooLarge else Success((after.data, after.meta))
    ensures Resealed(x, e, dek).value == e.(data := Resealed(x, e, dek).value.data, meta := Resealed(x, e, dek).value.meta)
  {
    hide Encrypt, ApplySubjectTagPolicy;
  }

  /** The pass has nothing left to do for this row. */
  ghost predicate Settled(x: Store, e: StoredEvent) {
    forall dek :: EncryptStoredEvent(x, e, dek).Ok? && Resealed(x, e, dek) == None
  }

  /** `after` is `before`, or `before` sealed under some data key. */
  ghost predicate SealedOrSame(x: Store, before: StoredEvent, after: StoredEvent) {
    after == before || exists dek :: Resealed(x, before, dek) == Some(after)
  }

  /** What a pass makes of one row, or None where it stops: the row cannot be sealed or not rewritten. */
  function RowPass(x: Store, e: StoredEvent, dek: nat, unwritable: set<nat>): Option<StoredEvent> {
    if EncryptStoredEvent(x, e, dek).Err? then None
    else if Resealed(x, e, dek) == None then Some(e)
    else if e.version in unwritable then None
    else Resealed(x, e, dek)
  }

  /** The first row, from `i` on, a pass stops at. */
  function StopAt(x: Store, rows: seq<StoredEvent>, deks: nat -> nat, unwritable: set<nat>, i: nat): (n: nat)
    requires i <= |rows|
    ensures i <= n <= |rows|
    decreases |rows| - i
  {
    if i == |rows| || RowPass(x, rows[i], deks(i), unwritable) == None then i else StopAt(x, rows, deks, unwritable, i + 1)
  }

  /** Seals one row where it stands, if there is anything to seal. */
  method ReEncryptRow(x: Store, rows: array<StoredEvent>, i: nat, dek: nat, unwritable: set<nat>) returns (ok: bool, rewritten: bool)
    requires i < rows.Length && x.encryption.Some?
    modifies rows
    ensures forall j :: 0 <= j < rows.Length && j != i ==> rows[j] == old(rows[j])
    ensures var done := RowPass(x, old(rows[i]), dek, unwritable);
            (ok <==> done.Some?) && rows[i] == if ok then done.value else old(rows[i])
    ensures SealedOrSame(x, old(rows[i]), rows[i]) && (ok ==> Settled(x, rows[i]))
    ensures rewritten <==> rows[i] != old(rows[i])
    ensures rewritten ==> ok
    ensures Settled(x, old(rows[i])) ==> ok && !rewritten
  {
    hide Encrypt, ApplySubjectTagPolicy;
    var e := rows[i];
    ok, rewritten := true, false;
    if !IsEncrypted(e.meta) && FieldsOf(x.encryption.value, e.eventType) != [] {
      var r := EncryptStoredEvent(x, e, dek);
      if r.Err? {
        ok := false;
      } else if !IsEncrypted(r.value.meta) {
        PassThroughSettles(x, e, dek);
      } else if e.version in unwritable {
        ok := false;
        assert Resealed(x, e, dek) != None;
      } else {
        assert Resealed(x, e, dek) == Some(r.value);
        SealingSettles(x, e, dek);
        rows[i] := r.value;
        rewritten := true;
      }
    }
  }

  /** A stream's rows, each rewritten where it stands. A rewrite of a version in `unwritable` fails
      and ends the pass, as does an event that cannot be sealed. */
  method ReEncryptStreamInPlace(x: Store, rows: array<StoredEvent>, deks: nat -> nat, unwritable: set<nat>)
    returns (ok: bool, n: nat, keys: set<string>)
    modifies rows
    ensures PassedWhole(x, old(rows[..]), rows[..], deks, unwritable, ok)
    ensures forall i :: 0 <= i < rows.Length ==> SealedOrSame(x, old(rows[i]), rows[i])
    ensures ok && x.encryption.Some? ==> forall i :: 0 <= i < rows.Length ==> Settled(x, rows[i])
    ensures n == Changed(old(rows[..]), rows[..])
    ensures (forall i :: 0 <= i < rows.Length ==> Settled(x, old(rows[i]))) ==> ok && n == 0 && rows[..] == old(rows[..])
    ensures keys == KeysUsed(old(rows[..]), rows[..])
  {
    hide Passed, Settled, SealedOrSame, Changed, RowPass, StopAt, KeysUsed, EncryptStoredEvent, Resealed;
    ok, n, keys := true, 0, {};
    ghost var was := rows[..];
    NothingPassed(x, was, deks, unwritable);
    if x.encryption.None? {
      NothingToDo(x, was, deks, unwritable, 0);
      PassWithoutEncryption(x, was, deks, unwritable);
      return;
    }
    var i := 0;
    while i < rows.Length && ok
      invariant 0 <= i <= rows.Length && (!ok ==> i > 0)
      invariant Passed(x, was, rows[..], deks, unwritable, i, ok, n, keys)
    {
      ghost var before := rows[..];
      var rewritten;
      SuffixIsUntouched(x, was, before, deks, unwritable, i, n, keys);
      ok, rewritten := ReEncryptRow(x, rows, i, deks(i), unwritable);
      PassStep(x, was, before, rows[..], deks, unwritable, i, ok, n, keys);
      if rewritten {
        n := n + 1;
        if rows[i].meta.keyId != "" { keys := keys + {rows[i].meta.keyId}; }
      }
      i := i + 1;
    }
    PassEnds(x, was, rows[..], deks, unwritable, i, ok, n, keys);
  }

  /** How far a pass has come: up to `i`, or to the row before, where it stopped. */
  ghost predicate Passed(x: Store, was: seq<StoredEvent>, rows: seq<StoredEvent>, deks: nat -> nat, unwritable: set<nat>,
                         i: nat, ok: bool, n: nat, keys: set<string>)
  {
    && |was| == |rows| && i <= |was| && (!ok ==> i > 0)
    && var done := if ok then i else i - 1;
       && StopAt(x, was, deks, unwritable, 0) == (if ok then StopAt(x, was, deks, unwritable, i) else i - 1)
       && (forall j :: 0 <= j < done ==> Some(rows[j]) == RowPass(x, was[j], deks(j), unwritable))
       && (forall j :: done <= j < |was| ==> rows[j] == was[j])
       && n == Changed(was[..i], rows[..i]) && keys == KeysUsed(was[..i], rows[..i])
  }

  lemma NothingPassed(x: Store, was: seq<StoredEvent>, deks: nat -> nat, unwritable: set<nat>)
    ensures Passed(x, was, was, deks, unwritable, 0, true, 0, {})
  {
    hide RowPass, StopAt;
  }

  lemma SuffixIsUntouched(x: Store, was: seq<StoredEvent>, rows: seq<StoredEvent>, deks: nat -> nat, unwritable: set<nat>, i: nat, n: nat, keys: set<string>)
    requires i < |was| && Passed(x, was, rows, deks, unwritable, i, true, n, keys)
    ensures |rows| == |was| && rows[i] == was[i]
  {
  }

  lemma PassStep(x: Store, was: seq<StoredEvent>, rows: seq<StoredEvent>, rows': seq<StoredEvent>, deks: nat -> nat, unwritable: set<nat>,
                 i: nat, ok: bool, n: nat, keys: set<string>)
    requires i < |was| && Passed(x, was, rows, deks, unwritable, i, true, n, keys)
    requires |rows'| == |rows| && forall j :: 0 <= j < |rows| && j != i ==> rows'[j] == rows[j]
    requires var done := RowPass(x, rows[i], deks(i), unwritable);
             (ok <==> done.Some?) && rows'[i] == if ok then done.value else rows[i]
    ensures Passed(x, was, rows', deks, unwritable, i + 1, ok,
                   if rows'[i] == was[i] then n else n + 1,
                   if rows'[i] == was[i] || rows'[i].meta.keyId == "" then keys else keys + {rows'[i].meta.keyId})
  {
    hide RowPass, Changed, KeysUsed;
    assert rows'[..i] == rows[..i];
    ChangedStep(was, rows', i);
    KeysUsedStep(was, rows', i);
  }

  lemma PassEnds(x: Store, was: seq<StoredEvent>, rows: seq<StoredEvent>, deks: nat -> nat, unwritable: set<nat>,
                 i: nat, ok: bool, n: nat, keys: set<string>)
    requires Passed(x, was, rows, deks, unwritable, i, ok, n, keys) && (ok ==> i == |was|)
    ensures n == Changed(was, rows) && keys == KeysUsed(was, rows)
    ensures PassedWhole(x, was, rows, deks, unwritable, ok)
    ensures forall j :: 0 <= j < |rows| ==> SealedOrSame(x, was[j], rows[j])
    ensures ok && x.encryption.Some? ==> forall j :: 0 <= j < |rows| ==> Settled(x, rows[j])
    ensures (forall j :: 0 <= j < |was| ==> Settled(x, was[j])) ==> ok && n == 0 && rows == was
  {
    hide RowPass, Settled, SealedOrSame, Changed;
    ChangedPrefix(was, rows, i);
    KeysUsedPrefix(was, rows, i);
    forall j | 0 <= j < |rows|
      ensures SealedOrSame(x, was[j], rows[j])
      ensures ok && x.encryption.Some? ==> Settled(x, rows[j])
    {
      if rows[j] == was[j] { SameIsSame(x, was[j]); }
      if j < StopAt(x, was, deks, unwritable, 0) { RowPassMeans(x, was[j], deks(j), unwritable); }
    }
    if forall j :: 0 <= j < |was| ==> Settled(x, was[j]) {
      SettledPassesThrough(x, was, deks, unwritable, 0);
      NothingChanged(was, rows);
    }
  }

  /** The pass went through every row before the first it stops at, and left the rest alone. */
  ghost predicate PassedWhole(x: Store, was: seq<StoredEvent>, rows: seq<StoredEvent>, deks: nat -> nat, unwritable: set<nat>, ok: bool)
  {
    var stop := StopAt(x, was, deks, unwritable, 0);
    && |rows| == |was| && (ok <==> stop == |was|)
    && (forall i :: 0 <= i < stop ==> Some(rows[i]) == RowPass(x, was[i], deks(i), unwritable))
    && (forall i :: stop <= i < |was| ==> rows[i] == was[i])
  }

  lemma RowPassMeans(x: Store, e: StoredEvent, dek: nat, unwritable: set<nat>)
    requires RowPass(x, e, dek, unwritable).Some?
    ensures SealedOrSame(x, e, RowPass(x, e, dek, unwritable).value)
    ensures x.encryption.Some? ==> Settled(x, RowPass(x, e, dek, unwritable).value)
  {
    hide Encrypt, ApplySubjectTagPolicy;
    if Resealed(x, e, dek).Some? {
      SealingSettles(x, e, dek);
    } else if !IsEncrypted(e.meta) && x.encryption.Some? {
      PassThroughSettles(x, e, dek);
    }
  }

  lemma {:induction false} SettledPassesThrough(x: Store, was: seq<StoredEvent>, deks: nat -> nat, unwritable: set<nat>, i: nat)
    requires i <= |was| && forall j :: 0 <= j < |was| ==> Settled(x, was[j])
    ensures StopAt(x, was, deks, unwritable, i) == |was|
    ensures forall j :: i <= j < |was| ==> RowPass(x, was[j], deks(j), unwritable) == Some(was[j])
    decreases |was| - i
  {
    hide EncryptStoredEvent, Resealed;
    if i < |was| { SettledPassesThrough(x, was, deks, unwritable, i + 1); }
  }

  lemma PassWithoutEncryption(x: Store, was: seq<StoredEvent>, deks: nat -> nat, unwritable: set<nat>)
    requires x.encryption.None? && StopAt(x, was, deks, unwritable, 0) == |was|
    requires forall j :: 0 <= j < |was| ==> RowPass(x, was[j], deks(j), unwritable) == Some(was[j])
    ensures PassedWhole(x, was, was, deks, unwritable, true)
    ensures Changed(was, was) == 0 && KeysUsed(was, was) == {}
    ensures forall j :: 0 <= j < |was| ==> SealedOrSame(x, was[j], was[j])
  {
    hide RowPass, StopAt;
    NothingChanged(was, was);
    forall j | 0 <= j < |was|
      ensures SealedOrSame(x, was[j], was[j])
    {
      SameIsSame(x, was[j]);
    }
  }

  lemma SameIsSame(x: Store, e: StoredEvent)
    ensures SealedOrSame(x, e, e)
  {
  }

  /** The wrapping keys of the rows that differ. */
  function KeysUsed(before: seq<StoredEvent>, after: seq<StoredEvent>): set<string>
    requires |before| == |after|
  {
    set i | 0 <= i < |before| && before[i] != after[i] && after[i].meta.keyId != "" :: after[i].meta.keyId
  }

  lemma KeysUsedStep(before: seq<StoredEvent>, after: seq<StoredEvent>, i: nat)
    requires |before| == |after| && i < |before|
    ensures KeysUsed(before[..i + 1], after[..i + 1])
         == KeysUsed(before[..i], after[..i]) + (if before[i] == after[i] || after[i].meta.keyId == "" then {} else {after[i].meta.keyId})
  {
  }

  lemma KeysUsedPrefix(before: seq<StoredEvent>, after: seq<StoredEvent>, i: nat)
    requires |before| == |after| && i <= |before| && forall j :: i <= j < |before| ==> before[j] == after[j]
    ensures KeysUsed(before, after) == KeysUsed(before[..i], after[..i])
  {
  }

  /** Without encryption configured a pass stops nowhere and changes nothing. */
  lemma {:induction false} NothingToDo(x: Store, rows: seq<StoredEvent>, deks: nat -> nat, unwritable: set<nat>, i: nat)
    requires x.encryption.None? && i <= |rows|
    ensures StopAt(x, rows, deks, unwritable, i) == |rows|
    ensures forall j :: i <= j < |rows| ==> RowPass(x, rows[j], deks(j), unwritable) == Some(rows[j])
    decreases |rows| - i
  {
    if i < |rows| { NothingToDo(x, rows, deks, unwritable, i + 1); }
  }

  /** How many rows differ. */
  function Changed(before: seq<StoredEvent>, after: seq<StoredEvent>): nat
    requires |before| == |after|
  {
    if before == [] then 0
    else
      var k := |before| - 1;
      Changed(before[..k], after[..k]) + if before[k] == after[k] then 0 else 1
  }

  lemma {:induction false} NothingChanged(before: seq<StoredEvent>, after: seq<StoredEvent>)
    requires |before| == |after|
    ensures Changed(before, after) == 0 <==> before == after
  {
    if before != [] {
      var k := |before| - 1;
      NothingChanged(before[..k], after[..k]);
      assert before == before[..k] + [before[k]] && after == after[..k] + [after[k]];
    }
  }

  lemma ChangedStep(before: seq<StoredEvent>, after: seq<StoredEvent>, i: nat)
    requires |before| == |after| && i < |before|
    ensures Changed(before[..i + 1], after[..i + 1]) == Changed(before[..i], after[..i]) + if before[i] == after[i] then 0 else 1
  {
    assert before[..i + 1][..i] == before[..i] && after[..i + 1][..i] == after[..i];
  }

  lemma {:induction false} ChangedPrefix(before: seq<StoredEvent>, after: seq<StoredEvent>, i: nat)
    requires |before| == |after| && i <= |before| && forall j :: i <= j < |before| ==> before[j] == after[j]
    ensures Changed(before, after) == Changed(before[..i], after[..i])
    ensures Changed(before, after) == 0 ==> before == after
    decreases |before|
  {
    NothingChanged(before, after);
    if i < |before| {
      var k := |before| - 1;
      ChangedPrefix(before[..k], after[..k], i);
      assert before[..k][..i] == before[..i] && after[..k][..i] == after[..i];
    } else {
      assert before[..i] == before && after[..i] == after;
    }
  }

  /** A sealed row is settled. */
  lemma SealingSettles(x: Store, e: StoredEvent, dek: nat)
    requires Resealed(x, e, dek).Some?
    ensures Settled(x, Resealed(x, e, dek).value) && Resealed(x, e, dek).value != e
  {
  }

  /** Whether a row has anything to seal does not depend on the data key. */
  lemma PassThroughSettles(x: Store, e: StoredEvent, dek: nat)
    requires EncryptStoredEvent(x, e, dek).Ok? && !IsEncrypted(EncryptStoredEvent(x, e, dek).value.meta) && !IsEncrypted(e.meta)
    ensures Settled(x, e)
  {
    if x.encryption.Some? && FieldsOf(x.encryption.value, e.eventType) != [] {
      var o := x.encryption.value;
      var m := ApplySubjectTagPolicy(x, e.eventType, e.data, SanitizeReservedMetadata(e.meta));
      RetaggedIsBare(x, e);
      forall k
        ensures EncryptStoredEvent(x, e, k).Ok? && Resealed(x, e, k) == None
      {
        NothingToSealWhateverTheKey(o, e.streamId, e.eventType, e.data, m, dek, k);
      }
    }
  }

  lemma RetaggedIsBare(x: Store, e: StoredEvent)
    ensures var m := ApplySubjectTagPolicy(x, e.eventType, e.data, SanitizeReservedMetadata(e.meta));
            && !IsEncrypted(m) && m.schemaVersion == e.meta.schemaVersion
            && m.(subjects := NoNames) == SanitizeReservedMetadata(e.meta).(subjects := NoNames)
  {
    hide Clean;
  }

  lemma NothingToSealWhateverTheKey(o: Options, stream: string, eventType: string, data: Json, m: Metadata, dek: nat, k: nat)
    requires !IsEncrypted(m) && FieldsOf(o, eventType) != []
    requires Encrypt(o, stream, eventType, data, m, dek).Ok? && !IsEncrypted(Encrypt(o, stream, eventType, data, m, dek).value.1)
    ensures Encrypt(o, stream, eventType, data, m, k) == Ok((data, m))
  {
    hide Sealing.SealAll, Sealing.NoClash, Sealing.Resolving, FieldPaths.OrderByDepth, ConfigError;
    assert ConfigError(o, eventType, m).None?;
    EncryptionFollowsThePayload(o, stream, eventType, data, m, dek);
    EncryptionFollowsThePayload(o, stream, eventType, data, m, k);
  }

  /** Passes compose: however many were cut short, each row is as it was or sealed once. */
  lemma PassesCompose(x: Store, a: StoredEvent, b: StoredEvent, c: StoredEvent)
    requires SealedOrSame(x, a, b) && SealedOrSame(x, b, c)
    ensures SealedOrSame(x, a, c)
  {
    if b != a {
      var dek :| Resealed(x, a, dek) == Some(b);
      SealingSettles(x, a, dek);
      assert c == b;
    }
  }

  /** Steps that answer alike under two metadata upcast alike. */
  lemma {:induction false} StepsAgree(steps: seq<Upcaster>, v: int, data: Json, m: Metadata, m': Metadata)
    requires forall i, d :: 0 <= i < |steps| ==> steps[i].step(d, m) == steps[i].step(d, m')
    ensures UpcastFrom(steps, v, data, m) == UpcastFrom(steps, v, data, m')
  {
    if steps != [] {
      assert forall i :: 0 <= i < |steps[1..]| ==> steps[1..][i] == steps[i + 1];
      if steps[0].from < v {
        StepsAgree(steps[1..], v, data, m, m');
      } else if steps[0].from == v {
        assert steps[0].step(data, m) == steps[0].step(data, m');
        match steps[0].step(data, m)
        case None =>
        case Some(d) => StepsAgree(steps[1..], steps[0].to, d, m, m');
      }
    }
  }

  /** Rewriting a row keeps the payload, the recorded version and everything but data and metadata:
      whatever its upcasters do, Load of the rewritten row is the upcast of the old payload under the
      new metadata. */
  lemma ResealingKeepsPayload(x: Store, e: StoredEvent, after: StoredEvent)
    requires SealedOrSame(x, e, after) && CanRead(x, after.meta)
    ensures Payload(x, after) == Payload(x, e) && GetSchemaVersion(after.meta) == GetSchemaVersion(e.meta)
    ensures after == e.(data := after.data, meta := after.meta)
    ensures SanitizeReservedMetadata(after.meta).(subjects := NoNames) == SanitizeReservedMetadata(e.meta).(subjects := NoNames)
    ensures Payload(x, e).Ok? ==> Load(x, after) == Current(x, e.eventType, Payload(x, e).value, after.meta)
  {
    hide Decrypt, Encrypt, UpcastFrom;
    if after != e {
      var dek :| Resealed(x, e, dek) == Some(after);
      var o := x.encryption.value;
      var m := ApplySubjectTagPolicy(x, e.eventType, e.data, SanitizeReservedMetadata(e.meta));
      RetaggedIsBare(x, e);
      SealedMetadata(o, e, m, dek, after);
      DecryptUndoesEncrypt(o, after, e.data, m, dek);
      PlaintextIsItself(o, e);
    }
  }

  lemma PlaintextIsItself(o: Options, e: StoredEvent)
    requires !IsEncrypted(e.meta)
    ensures Decrypt(o, e.streamId, e.eventType, e.data, e.meta) == Ok(e.data)
  {
  }

  /** For one row: Load returns the same exactly when the chain answers alike under both metadata. */
  lemma RowKeepsLoadExactlyWhen(x: Store, e: StoredEvent, after: StoredEvent)
    requires SealedOrSame(x, e, after) && CanRead(x, after.meta) && Payload(x, e).Ok?
    ensures Load(x, after) == Load(x, e) <==>
            Current(x, e.eventType, Payload(x, e).value, after.meta) == Current(x, e.eventType, Payload(x, e).value, e.meta)
  {
    hide Current, Payload;
    ResealingKeepsPayload(x, e, after);
  }

  /** However far a pass over a stream got, every readable event of the type loads as before. */
  ghost predicate PassesKeepLoad(x: Store, eventType: string) {
    forall e: StoredEvent, after: StoredEvent :: e.eventType == eventType && SealedOrSame(x, e, after) && CanRead(x, after.meta) ==> Load(x, after) == Load(x, e)
  }

  /** The type's chain answers alike on a plaintext event under its metadata and under what sealing it
      makes of them. */
  ghost predicate ChainAnswersAlike(x: Store, eventType: string) {
    forall e: StoredEvent, dek ::
      var after := Resealed(x, e, dek);
      e.eventType == eventType && after.Some? && CanRead(x, after.value.meta) ==>
        Current(x, eventType, e.data, e.meta) == Current(x, eventType, e.data, after.value.meta)
  }

  /** Re-encryption in place leaves every Load of an event type unchanged exactly when its upcasters
      cannot tell plaintext metadata from what the tagger and the envelope make of them. */
  lemma PassesKeepLoadExactlyWhen(x: Store, eventType: string)
    ensures PassesKeepLoad(x, eventType) <==> ChainAnswersAlike(x, eventType)
  {
    hide Load, Current, Resealed, CanRead, Payload;
    if ChainAnswersAlike(x, eventType) {
      forall e: StoredEvent, after: StoredEvent | e.eventType == eventType && SealedOrSame(x, e, after) && CanRead(x, after.meta)
        ensures Load(x, after) == Load(x, e)
      {
        if after != e {
          var dek :| Resealed(x, e, dek) == Some(after);
          ResealedWasPlaintext(x, e, dek);
          RowKeepsLoadExactlyWhen(x, e, after);
        }
      }
    }
    if PassesKeepLoad(x, eventType) {
      forall e: StoredEvent, dek | e.eventType == eventType && Resealed(x, e, dek).Some? && CanRead(x, Resealed(x, e, dek).value.meta)
        ensures Current(x, eventType, e.data, e.meta) == Current(x, eventType, e.data, Resealed(x, e, dek).value.meta)
      {
        var after := Resealed(x, e, dek).value;
        assert SealedOrSame(x, e, after);
        ResealedWasPlaintext(x, e, dek);
        RowKeepsLoadExactlyWhen(x, e, after);
      }
    }
  }

  lemma ResealedWasPlaintext(x: Store, e: StoredEvent, dek: nat)
    requires Resealed(x, e, dek).Some?
    ensures !IsEncrypted(e.meta) && Payload(x, e) == Ok(e.data)
  {
    if x.encryption.Some? { PlaintextIsItself(x.encryption.value, e); }
  }

  ghost predicate IgnoresEnvelopeAndTags(steps: seq<Upcaster>) {
    forall i :: 0 <= i < |steps| ==> BlindToEnvelopeAndTags(steps[i])
  }

  ghost predicate BlindToEnvelopeAndTags(u: Upcaster) {
    forall data: Json, m: Metadata, m': Metadata ::
      SanitizeReservedMetadata(m).(subjects := NoNames) == SanitizeReservedMetadata(m').(subjects := NoNames)
      ==> u.step(data, m) == u.step(data, m')
  }

  /** So it is enough that they look at neither the envelope nor the tags. */
  lemma ResealingKeepsLoad(x: Store, eventType: string)
    requires IgnoresEnvelopeAndTags(Steps(x, eventType))
    ensures PassesKeepLoad(x, eventType)
  {
    hide Payload, UpcastFrom, PassesKeepLoad, CanRead, Resealed;
    PassesKeepLoadExactlyWhen(x, eventType);
    forall e: StoredEvent, dek | e.eventType == eventType && Resealed(x, e, dek).Some? && CanRead(x, Resealed(x, e, dek).value.meta)
      ensures Current(x, eventType, e.data, e.meta) == Current(x, eventType, e.data, Resealed(x, e, dek).value.meta)
    {
      var after := Resealed(x, e, dek).value;
      assert SealedOrSame(x, e, after);
      ResealingKeepsPayload(x, e, after);
      forall i, d | 0 <= i < |Steps(x, eventType)|
        ensures Steps(x, eventType)[i].step(d, e.meta) == Steps(x, eventType)[i].step(d, after.meta)
      {
        assert BlindToEnvelopeAndTags(Steps(x, eventType)[i]);
      }
      StepsAgree(Steps(x, eventType), GetSchemaVersion(e.meta), e.data, e.meta, after.meta);
    }
  }

  ghost predicate IgnoresEnvelope(steps: seq<Upcaster>) {
    forall i :: 0 <= i < |steps| ==> BlindToEnvelope(steps[i])
  }

  ghost predicate BlindToEnvelope(u: Upcaster) {
    forall data: Json, m: Metadata, m': Metadata ::
      SanitizeReservedMetadata(m) == SanitizeReservedMetadata(m') ==> u.step(data, m) == u.step(data, m')
  }

  /** And for an event whose tags stay as they are, that they do not look at the envelope. */
  lemma ResealingKeepsTaggedLoad(x: Store, e: StoredEvent, after: StoredEvent)
    requires SealedOrSame(x, e, after) && CanRead(x, after.meta) && after.meta.subjects == e.meta.subjects
    requires IgnoresEnvelope(Steps(x, e.eventType))
    ensures Load(x, after) == Load(x, e)
  {
    hide Payload, UpcastFrom;
    ResealingKeepsPayload(x, e, after);
    var steps := Steps(x, e.eventType);
    assert SanitizeReservedMetadata(after.meta) == SanitizeReservedMetadata(e.meta) by {
      SameButForTags(SanitizeReservedMetadata(after.meta), SanitizeReservedMetadata(e.meta));
    }
    forall i, d | 0 <= i < |steps|
      ensures steps[i].step(d, e.meta) == steps[i].step(d, after.meta)
    {
      assert BlindToEnvelope(steps[i]);
    }
    if Payload(x, e).Ok? { StepsAgree(steps, GetSchemaVersion(e.meta), Payload(x, e).value, e.meta, after.meta); }
  }

  lemma SameButForTags(m: Metadata, m': Metadata)
    requires m.(subjects := NoNames) == m'.(subjects := NoNames) && m.subjects == m'.subjects
    ensures m == m'
  {
    assert m == m.(subjects := NoNames).(subjects := m.subjects);
    assert m' == m'.(subjects := NoNames).(subjects := m'.subjects);
  }

  /** An upcaster that reads the tags can tell: re-encryption tags an event that was appended untagged. */
  const TAG_READER := Upcaster("T", 1, 2, (data: Json, m: Metadata) => Some(Bool(TagsOf(m) != [])))

  const TAGGED_STORE := Store(
    Some(Options(map["T" := ["p"]], Some(Provider({})), "key", None, false, None)),
    Some(map["T" := [TAG_READER]]), false, Some((t: string, data: Json, m: Metadata) => ["s"]), false, data => false)

  const UNTAGGED := StoredEvent("S-1", "T", Obj(map["p" := Null]), Metadata("", NoNames, "", NoKey, "", Version(1), NoNames, map[]), 1, 1, 0)

  lemma TagReaderReadsTags(payload: Json, m: Metadata)
    requires GetSchemaVersion(m) == 1
    ensures Current(TAGGED_STORE, "T", payload, m) == Success(Bool(TagsOf(m) != []))
  {
    var steps := [TAG_READER];
    assert Steps(TAGGED_STORE, "T") == steps;
    assert steps[0] == TAG_READER && steps[1..] == [];
    var d := Bool(TagsOf(m) != []);
    assert TAG_READER.step(payload, m) == Some(d);
    assert UpcastFrom(steps[1..], 2, d, m) == Done(d, 2);
    assert UpcastFrom(steps, 1, payload, m) == Done(d, 2);
  }

  lemma TagWitnessIsResealed(x: Store, e: StoredEvent) returns (after: StoredEvent)
    requires x == TAGGED_STORE && e == UNTAGGED
    ensures Resealed(x, e, 0) == Some(after) && CanRead(x, after.meta) && TagsOf(after.meta) == ["s"]
  {
    hide Encrypt;
    var o, m := x.encryption.value, e.meta.(subjects := NameList(["s"]));
    assert ApplySubjectTagPolicy(x, "T", e.data, SanitizeReservedMetadata(e.meta)) == m;
    TagWitnessIsSealed(o, m);
    after := EncryptStoredEvent(x, e, 0).value;
  }

  lemma ResealingMayChangeLoad() returns (x: Store, e: StoredEvent, after: StoredEvent)
    ensures x == TAGGED_STORE && e == UNTAGGED
    ensures SealedOrSame(x, e, after) && CanRead(x, after.meta)
    ensures Load(x, e) == Success(Bool(false)) && Load(x, after) == Success(Bool(true))
    ensures !PassesKeepLoad(x, e.eventType) && !ChainAnswersAlike(x, e.eventType)
  {
    hide ChainAnswersAlike, Current, Decrypt, Resealed, CanRead;
    x, e := TAGGED_STORE, UNTAGGED;
    after := TagWitnessIsResealed(x, e);
    assert SealedOrSame(x, e, after);
    ResealingKeepsPayload(x, e, after);
    PlaintextIsItself(x.encryption.value, e);
    TagReaderReadsTags(e.data, e.meta);
    TagReaderReadsTags(e.data, after.meta);
    PassesKeepLoadExactlyWhen(x, "T");
  }

  lemma TagWitnessIsSealed(o: Options, m: Metadata)
    requires o == TAGGED_STORE.encryption.value && m == UNTAGGED.meta.(subjects := NameList(["s"]))
    ensures var r := Encrypt(o, "S-1", "T", UNTAGGED.data, m, 0);
            r.Ok? && IsEncrypted(r.value.1) && r.value.1.keyId == "key" && TagsOf(r.value.1) == ["s"] && CanRead(TAGGED_STORE, r.value.1)
  {
  }

  lemma SealedMetadata(o: Options, e: StoredEvent, m: Metadata, dek: nat, after: StoredEvent)
    requires Encrypt(o, e.streamId, e.eventType, e.data, m, dek) == Ok((after.data, after.meta))
    ensures after.meta.schemaVersion == m.schemaVersion
    ensures SanitizeReservedMetadata(after.meta) == SanitizeReservedMetadata(m)
  {
    hide Sealing.SealAll, FieldPaths.OrderByDepth, ConfigError;
  }
}
