/** What an erasure's guard, verification and certificate say about the whole log. */
module ErasureSpec {
  import opened Events
  import opened SubjectTags
  import opened EventCodec
  import opened SubjectSpec
  import opened SubjectResolution
  import opened FieldEncryption
  import opened Upcasting
  import Sealing
  import FieldPaths

  datatype RevocationState = NotRevoked | SoftRevoked | Revoked

  // ---- The blast-radius guard ----

  /** The event is ciphertext under the key. */
  predicate Under(e: StoredEvent, key: string) {
    HasEncryptionEnvelope(e.meta) && e.meta.keyId == key
  }

  /** Attributed to the target and to nobody else. */
  predicate ExclusivelyOf(a: Attribution, target: string)
    ensures ExclusivelyOf(a, target) <==> NamesOnly(a, target)
  {
    assert a.subjects != [] ==> a.subjects[0] in a.subjects;
    assert NamesOnly(a, target) ==> target in a.subjects;
    a.Attributed() && !a.ToOther(target)
  }

  /** Its subjects are the target, and nobody else. */
  ghost predicate NamesOnly(a: Attribution, target: string) {
    forall s :: s in a.subjects <==> s == target
  }

  /** Every event under the key, in the whole log, is the target's alone. */
  ghost predicate ExclusiveKey(x: Store, tagger: Option<Tagger>, log: seq<StoredEvent>, target: string, key: string) {
    forall e :: e in log && Under(e, key) ==> NamesOnly(Attribute(x, tagger, e), target)
  }

  /** The keys the guard refuses. */
  ghost function SharedKeys(x: Store, tagger: Option<Tagger>, log: seq<StoredEvent>, target: string, keys: set<string>): set<string> {
    set k | k in keys && !ExclusiveKey(x, tagger, log, target, k)
  }

  /** So it refuses exactly the keys over an event that somebody else is among the subjects of, or that
      nobody is a subject of. */
  lemma SharedKeysAre(x: Store, tagger: Option<Tagger>, log: seq<StoredEvent>, target: string, keys: set<string>)
    ensures forall k :: k in SharedKeys(x, tagger, log, target, keys) <==>
              k in keys && ContestedKey(x, tagger, log, target, k)
  {
    hide Attribute;
    forall e
      ensures Contested(x, tagger, e, target) <==> !NamesOnly(Attribute(x, tagger, e), target)
    {
      ContestedMeans(x, tagger, e, target);
    }
  }

  lemma ContestedMeans(x: Store, tagger: Option<Tagger>, e: StoredEvent, target: string)
    ensures Contested(x, tagger, e, target) <==> !NamesOnly(Attribute(x, tagger, e), target)
  {
    hide Attribute;
    var subjects := Attribute(x, tagger, e).subjects;
    if subjects != [] { assert subjects[0] in subjects; }
    if NamesOnly(Attribute(x, tagger, e), target) { assert target in subjects; }
  }

  /** Somebody else is among the event's subjects, or nobody is one. */
  ghost predicate Contested(x: Store, tagger: Option<Tagger>, e: StoredEvent, target: string) {
    var subjects := Attribute(x, tagger, e).subjects;
    subjects == [] || exists s :: s in subjects && s != target
  }

  /** Some event is ciphertext under the key and not the target's alone. */
  ghost predicate ContestedKey(x: Store, tagger: Option<Tagger>, log: seq<StoredEvent>, target: string, key: string) {
    exists e :: e in log && HasEncryptionEnvelope(e.meta) && e.meta.keyId == key && Contested(x, tagger, e, target)
  }

  /** Revoking exclusive keys leaves every event that is not the target's alone as it was: Load returns
      the same, and it is attributed to the same subjects. */
  lemma ExclusiveRevocationSparesOthers(x: Store, tagger: Option<Tagger>, log: seq<StoredEvent>, target: string, gone: set<string>, e: StoredEvent)
    requires forall k :: k in gone ==> k != "" && ExclusiveKey(x, tagger, log, target, k)
    requires e in log && Contested(x, tagger, e, target)
    ensures Load(Without(x, gone), e) == Load(x, e)
    ensures Attribute(Without(x, gone), tagger, e) == Attribute(x, tagger, e)
  {
    ContestedMeans(x, tagger, e, target);
    if HasEncryptionEnvelope(e.meta) && e.meta.keyId in gone { assert Under(e, e.meta.keyId); }
    SameKeySameReading(x, gone, e);
    SameReadingSameAttribution(x, Without(x, gone), tagger, e);
  }

  lemma SameKeySameReading(x: Store, gone: set<string>, e: StoredEvent)
    requires if HasEncryptionEnvelope(e.meta) then e.meta.keyId !in gone else "" !in gone
    ensures x.encryption.Some? ==>
              Decrypt(Without(x, gone).encryption.value, e.streamId, e.eventType, e.data, e.meta)
              == Decrypt(x.encryption.value, e.streamId, e.eventType, e.data, e.meta)
    ensures Load(Without(x, gone), e) == Load(x, e)
  {
    hide Sealing.UnsealAll, FieldPaths.OrderByDepth, UpcastFrom;
  }

  lemma SameReadingSameAttribution(x: Store, x': Store, tagger: Option<Tagger>, e: StoredEvent)
    requires x' == x.(encryption := x'.encryption) && (x'.encryption.Some? <==> x.encryption.Some?)
    requires x.encryption.Some? ==>
               Decrypt(x'.encryption.value, e.streamId, e.eventType, e.data, e.meta) == Decrypt(x.encryption.value, e.streamId, e.eventType, e.data, e.meta)
    ensures Attribute(x', tagger, e) == Attribute(x, tagger, e)
  {
    hide Decrypt, Clean;
  }

  lemma SharedKeysStep(x: Store, tagger: Option<Tagger>, seen: seq<StoredEvent>, e: StoredEvent, target: string, keys: set<string>)
    ensures SharedKeys(x, tagger, seen + [e], target, keys)
         == SharedKeys(x, tagger, seen, target, keys)
            + (if HasEncryptionEnvelope(e.meta) && e.meta.keyId in keys && !ExclusivelyOf(Attribute(x, tagger, e), target)
               then {e.meta.keyId} else {})
  {
    hide Attribute;
    assert forall f :: f in seen + [e] <==> f in seen || f == e;
    forall k
      ensures ExclusiveKey(x, tagger, seen + [e], target, k) <==>
              ExclusiveKey(x, tagger, seen, target, k) && (Under(e, k) ==> ExclusivelyOf(Attribute(x, tagger, e), target))
    {
    }
  }

  /** With the subject's writes quiesced a second resolve finds no key the first one did not, by
      scan or through an index that has not grown: revoking keys only ever takes attributions away. */
  lemma RevocationAddsNoKeys(before: Store, after: Store, tagger: Option<Tagger>, log: seq<StoredEvent>, s: string,
                             listed: set<string>, fewer: set<string>, authoritative: bool)
    requires FewerKeys(before, after) && fewer <= listed
    ensures ScanFootprint(after, tagger, log, s).keyIds <= ScanFootprint(before, tagger, log, s).keyIds
    ensures IndexFootprint(after, tagger, log, s, fewer, authoritative).keyIds <= IndexFootprint(before, tagger, log, s, listed, authoritative).keyIds
  {
    hide Attribute;
    forall e | e in Mine(after, tagger, log, s)
      ensures e in Mine(before, tagger, log, s)
    {
      RevocationOnlyHides(before, after, tagger, e);
    }
  }

  // ---- Erasing again ----

  /** Once its key is gone an event can be attributed by its tags alone. */
  lemma OnlyTagsCountOnceGone(x: Store, gone: set<string>, tagger: Option<Tagger>, e: StoredEvent)
    requires HasEncryptionEnvelope(e.meta) && e.meta.keyId in gone
    ensures Attribute(Without(x, gone), tagger, e).subjects != [] <==> TagsOf(e.meta) != []
    ensures Attribute(Without(x, gone), tagger, e).undecryptable <==> TagsOf(e.meta) == [] && (tagger.Some? || x.tagger.Some?)
  {
    hide Clean, Sealing.UnsealAll, FieldPaths.OrderByDepth;
  }

  /** The key protects an event that carries no tags. */
  ghost predicate ProtectsUntagged(log: seq<StoredEvent>, key: string) {
    exists e :: e in log && Under(e, key) && TagsOf(e.meta) == []
  }

  /** Of the keys that were the target's alone, the guard refuses after their revocation exactly the
      revoked ones that protect an untagged event. */
  lemma RerunIsRefusedExactlyWhen(x: Store, gone: set<string>, tagger: Option<Tagger>, log: seq<StoredEvent>, target: string, keys: set<string>)
    requires forall k :: k in keys ==> ExclusiveKey(x, tagger, log, target, k)
    ensures SharedKeys(Without(x, gone), tagger, log, target, keys) == set k | k in keys && k in gone && ProtectsUntagged(log, k)
  {
    hide Attribute, Without, FewerKeys;
    WithoutHasFewer(x, gone);
    forall k | k in keys
      ensures ExclusiveKey(Without(x, gone), tagger, log, target, k) <==> !(k in gone && ProtectsUntagged(log, k))
    {
      forall e | e in log && Under(e, k)
        ensures ExclusivelyOf(Attribute(Without(x, gone), tagger, e), target) <==> k !in gone || TagsOf(e.meta) != []
      {
        if k in gone {
          OnlyTagsCountOnceGone(x, gone, tagger, e);
          RevocationOnlyHides(x, Without(x, gone), tagger, e);
        } else {
          KeptKeySameAttribution(x, gone, tagger, e);
        }
      }
    }
  }

  /** Such a case: one event under the key is tagged, the other is attributed by the tagger. The key is
      the subject's alone; once it is revoked it is still found, and the guard refuses it. */
  lemma RerunMayBeRefused() returns (log: seq<StoredEvent>)
    ensures var after := Without(TAGGED_STORE, {"key"});
            && SharedKeys(TAGGED_STORE, None, log, "s", {"key"}) == {}
            && "key" in ScanFootprint(after, None, log, "s").keyIds
            && SharedKeys(after, None, log, "s", {"key"}) == {"key"}
  {
    hide Attribute, Without;
    var x := TAGGED_STORE;
    var untagged := SealedWitness(NoNames);
    var tagged := SealedWitness(NameList(["s"]));
    log := [tagged, untagged];
    RerunIsRefusedExactlyWhen(x, {"key"}, None, log, "s", {"key"});
    assert ProtectsUntagged(log, "key") by { assert untagged in log; }
    OnlyTagsCountOnceGone(x, {"key"}, None, tagged);
    WithoutHasFewer(x, {"key"});
    RevocationOnlyHides(x, Without(x, {"key"}), None, tagged);
    assert tagged in Mine(Without(x, {"key"}), None, log, "s");
  }

  /** An event sealed under the key, with the given tags, that is the subject's. */
  lemma SealedWitness(tags: Names) returns (e: StoredEvent)
    requires tags == NoNames || tags == NameList(["s"])
    ensures Under(e, "key") && TagsOf(e.meta) == (if tags == NoNames then [] else ["s"])
    ensures Attribute(TAGGED_STORE, None, e) == Attribution(["s"], false)
  {
    hide Encrypt, Decrypt, Attribute;
    var o, m := TAGGED_STORE.encryption.value, UNTAGGED.meta.(subjects := tags);
    e := SealedAs(m);
    DecryptUndoesEncrypt(o, e, UNTAGGED.data, m, 0);
    ReadableIsTheTaggers(e);
  }

  lemma SealedAs(m: Metadata) returns (e: StoredEvent)
    requires m == UNTAGGED.meta.(subjects := m.subjects)
    ensures e == UNTAGGED.(data := e.data, meta := e.meta) && e.data != UNTAGGED.data
    ensures Encrypt(TAGGED_STORE.encryption.value, "S-1", "T", UNTAGGED.data, m, 0) == Ok((e.data, e.meta))
    ensures Under(e, "key") && e.meta.subjects == m.subjects
  {
    var tree := TheFieldIsSealed();
    hide Sealing.SealAll;
    assert ConfigError(TAGGED_STORE.encryption.value, "T", m).None?;
    e := UNTAGGED.(data := Obj(tree), meta := Enveloped(m, ["p"], "key", 0));
  }

  lemma TheFieldIsSealed() returns (tree: map<string, Json>)
    ensures FieldPaths.OrderByDepth(["p"], true) == ["p"]
    ensures Sealing.SealAll(map["p" := Null], ["p"], 0, "S-1") == Sealing.AllSealed(tree, ["p"]) && tree != map["p" := Null]
  {
    var r := Sealing.SealField(map["p" := Null], "p", 0, "S-1");
    assert ["p"][1..] == [];
    assert r.Sealed?;
    tree := r.tree;
  }

  lemma ReadableIsTheTaggers(e: StoredEvent)
    requires Decrypt(TAGGED_STORE.encryption.value, e.streamId, e.eventType, e.data, e.meta) == Ok(UNTAGGED.data)
    requires e.data != UNTAGGED.data && (TagsOf(e.meta) == [] || TagsOf(e.meta) == ["s"])
    ensures Attribute(TAGGED_STORE, None, e) == Attribution(["s"], false)
  {
    hide Decrypt;
    assert ["s"][..0] == [];
  }

  lemma WithoutHasFewer(x: Store, gone: set<string>)
    ensures FewerKeys(x, Without(x, gone))
  {
  }

  lemma KeptKeySameAttribution(x: Store, gone: set<string>, tagger: Option<Tagger>, e: StoredEvent)
    requires HasEncryptionEnvelope(e.meta) && e.meta.keyId !in gone
    ensures Attribute(Without(x, gone), tagger, e) == Attribute(x, tagger, e)
  {
    hide Attribute, Decrypt;
    SameKeySameReading(x, gone, e);
    SameReadingSameAttribution(x, Without(x, gone), tagger, e);
  }

  // ---- Key discovery in a listed stream ----

  datatype Request = Request(
    subject: string,
    streams: seq<string>,
    filter: Option<StoredEvent -> bool>,
    keyIds: seq<string>,
    from: Option<int>,
    to: Option<int>)

  predicate Matches(req: Request, e: StoredEvent) {
    && (req.from.Some? ==> e.time >= req.from.value)
    && (req.to.Some? ==> e.time <= req.to.value)
    && (req.filter.Some? ==> req.filter.value(e))
  }

  /** Some event of the stream can be attributed to somebody. */
  ghost predicate Scoped(x: Store, tagger: Option<Tagger>, stored: seq<StoredEvent>) {
    exists e :: e in stored && Attribute(x, tagger, e).subjects != []
  }

  /** The events whose keys a listed stream contributes: in a scoped stream the subject's own, in a
      stream nobody can be attributed anything in, all that match. */
  ghost function Selected(x: Store, tagger: Option<Tagger>, req: Request, stored: seq<StoredEvent>): set<StoredEvent> {
    set e | e in stored && Matches(req, e) && (Scoped(x, tagger, stored) ==> req.subject in Attribute(x, tagger, e).subjects)
  }

  /** The stream holds matching events that nobody can be attributed, besides ones that can. */
  ghost predicate SkipsUnattributed(x: Store, tagger: Option<Tagger>, req: Request, stored: seq<StoredEvent>) {
    Scoped(x, tagger, stored) && exists e :: e in stored && Matches(req, e) && Attribute(x, tagger, e).subjects == []
  }

  /** What key discovery comes up with. `attributed` are the events the certificate will go by. */
  datatype Discovery = Discovery(keys: set<string>, streams: set<string>, shared: set<string>, attributed: set<Ref>, partial: bool)

  /** The events the listed streams contribute, each stream by its own scoping rule. */
  ghost function ListedEvents(x: Store, tagger: Option<Tagger>, req: Request, log: seq<StoredEvent>, listed: seq<string>): set<StoredEvent> {
    set e | e in log && e.streamId in listed && Matches(req, e)
            && (Scoped(x, tagger, OnStream(log, e.streamId)) ==> req.subject in Attribute(x, tagger, e).subjects)
  }

  /** Those of them that are known to be the subject's. */
  ghost function AttestableEvents(x: Store, tagger: Option<Tagger>, req: Request, log: seq<StoredEvent>, listed: seq<string>): set<StoredEvent> {
    set e | e in ListedEvents(x, tagger, req, log, listed) && Scoped(x, tagger, OnStream(log, e.streamId))
  }

  /** The matching events left out because nobody can be attributed them. */
  ghost function SkippedEvents(x: Store, tagger: Option<Tagger>, req: Request, log: seq<StoredEvent>, listed: seq<string>): set<StoredEvent> {
    set e | e in log && e.streamId in listed && Matches(req, e)
            && Scoped(x, tagger, OnStream(log, e.streamId)) && Attribute(x, tagger, e).subjects == []
  }

  ghost function FromListed(x: Store, tagger: Option<Tagger>, req: Request, log: seq<StoredEvent>, listed: seq<string>): Discovery {
    var chosen := ListedEvents(x, tagger, req, log, listed);
    Discovery(KeysOf(chosen), StreamsOf(chosen), SharedOf(x, tagger, log, req.subject, chosen),
              RefsOf(AttestableEvents(x, tagger, req, log, listed)), SkippedEvents(x, tagger, req, log, listed) != {})
  }

  ghost function MatchingIn(req: Request, events: seq<StoredEvent>): set<StoredEvent> {
    set e | e in events && Matches(req, e)
  }

  ghost function MatchingOf(x: Store, tagger: Option<Tagger>, req: Request, events: seq<StoredEvent>): set<StoredEvent> {
    set e | e in events && Matches(req, e) && req.subject in Attribute(x, tagger, e).subjects
  }

  /** With a filter the whole store is walked, and the filter alone sets the scope. */
  ghost function FromScan(x: Store, tagger: Option<Tagger>, req: Request, log: seq<StoredEvent>): Discovery {
    var chosen := MatchingIn(req, log);
    Discovery(KeysOf(chosen), StreamsOf(chosen), SharedOf(x, tagger, log, req.subject, chosen), RefsOf(MatchingOf(x, tagger, req, log)), false)
  }

  function NamedKeys(req: Request): set<string> {
    set i | 0 <= i < |req.keyIds| && req.keyIds[i] != "" :: req.keyIds[i]
  }

  /** What a request that names its sources comes to: the keys it names, and the listed streams or
      else the filter. */
  ghost function FromSources(x: Store, tagger: Option<Tagger>, req: Request, log: seq<StoredEvent>): Discovery {
    var d := if req.streams != [] then FromListed(x, tagger, req, log, req.streams)
             else if req.filter.Some? then FromScan(x, tagger, req, log)
             else Discovery({}, {}, {}, {}, false);
    d.(keys := NamedKeys(req) + d.keys)
  }

  /** Within the request's period, and let through by its filter, if it sets them. */
  ghost predicate Requested(req: Request, e: StoredEvent) {
    && (req.from == None || req.from.value <= e.time)
    && (req.to == None || e.time <= req.to.value)
    && (req.filter == None || req.filter.value(e))
  }

  lemma RequestedMeans(req: Request, e: StoredEvent)
    ensures Matches(req, e) <==> Requested(req, e)
  {
  }

  /** A request with a filter and no streams condemns the keys it names and those of the requested events,
      wherever they are; its streams are those of the requested events. */
  lemma FilteredScopeIs(x: Store, tagger: Option<Tagger>, req: Request, log: seq<StoredEvent>, k: string)
    requires req.streams == [] && req.filter.Some?
    ensures var d := FromSources(x, tagger, req, log);
            && (k in d.keys <==> (k != "" && k in req.keyIds) || exists e :: e in log && Requested(req, e) && HasEncryptionEnvelope(e.meta) && e.meta.keyId == k)
            && (k in d.streams <==> exists e :: e in log && Requested(req, e) && e.streamId == k)
  {
    hide Attribute;
    assert forall e :: e in log ==> (e in MatchingIn(req, log) <==> Requested(req, e));
  }

  lemma NoneListed(x: Store, tagger: Option<Tagger>, req: Request, log: seq<StoredEvent>)
    ensures FromListed(x, tagger, req, log, []) == Discovery({}, {}, {}, {}, false)
  {
    assert ListedEvents(x, tagger, req, log, []) == {} && SkippedEvents(x, tagger, req, log, []) == {};
  }

  /** One more listed stream adds what it selects. */
  lemma OneMoreListed(x: Store, tagger: Option<Tagger>, req: Request, log: seq<StoredEvent>, listed: seq<string>, stream: string)
    requires ValidLog(log)
    ensures var d, stored := FromListed(x, tagger, req, log, listed), OnStream(log, stream);
            var selected := Selected(x, tagger, req, stored);
            var mixed := exists e :: e in stored && Attribute(x, tagger, e).ToOther(req.subject);
            FromListed(x, tagger, req, log, listed + [stream])
            == Discovery(d.keys + KeysOf(selected), d.streams + StreamsOf(selected),
                         d.shared + (if mixed && selected != {} then {stream} else {}),
                         d.attributed + (if Scoped(x, tagger, stored) then RefsOf(selected) else {}),
                         d.partial || SkipsUnattributed(x, tagger, req, stored))
  {
    hide Attribute, Scoped, OnStream, Matches;
    var stored := OnStream(log, stream);
    var selected := Selected(x, tagger, req, stored);
    var none: set<StoredEvent> := {};
    OnStreamMembers(log, stream);
    assert forall s :: s in listed + [stream] <==> s in listed || s == stream;
    assert ListedEvents(x, tagger, req, log, listed + [stream]) == ListedEvents(x, tagger, req, log, listed) + selected;
    assert AttestableEvents(x, tagger, req, log, listed + [stream])
        == AttestableEvents(x, tagger, req, log, listed) + (if Scoped(x, tagger, stored) then selected else none);
    SkippedStep(x, tagger, req, log, listed, stream);
    UnionsOf(ListedEvents(x, tagger, req, log, listed), selected);
    UnionsOf(AttestableEvents(x, tagger, req, log, listed), if Scoped(x, tagger, stored) then selected else none);
    SharedStep(x, tagger, log, req.subject, ListedEvents(x, tagger, req, log, listed), selected, stream);
  }

  lemma SkippedStep(x: Store, tagger: Option<Tagger>, req: Request, log: seq<StoredEvent>, listed: seq<string>, stream: string)
    requires ValidLog(log)
    ensures SkippedEvents(x, tagger, req, log, listed + [stream]) != {}
       <==> SkippedEvents(x, tagger, req, log, listed) != {} || SkipsUnattributed(x, tagger, req, OnStream(log, stream))
  {
    hide Attribute, Scoped, OnStream, Matches;
    var stored := OnStream(log, stream);
    OnStreamMembers(log, stream);
    assert forall s :: s in listed + [stream] <==> s in listed || s == stream;
    var more := set e | e in stored && Matches(req, e) && Scoped(x, tagger, stored) && Attribute(x, tagger, e).subjects == [];
    assert SkippedEvents(x, tagger, req, log, listed + [stream]) == SkippedEvents(x, tagger, req, log, listed) + more;
    if SkipsUnattributed(x, tagger, req, stored) {
      var e :| e in stored && Matches(req, e) && Attribute(x, tagger, e).subjects == [];
      assert e in more;
    }
  }

  lemma UnionsOf(a: set<StoredEvent>, b: set<StoredEvent>)
    ensures KeysOf(a + b) == KeysOf(a) + KeysOf(b) && StreamsOf(a + b) == StreamsOf(a) + StreamsOf(b) && RefsOf(a + b) == RefsOf(a) + RefsOf(b)
  {
  }

  lemma SharedStep(x: Store, tagger: Option<Tagger>, log: seq<StoredEvent>, s: string, events: set<StoredEvent>, more: set<StoredEvent>, stream: string)
    requires ValidLog(log) && forall e :: e in more ==> e.streamId == stream
    ensures var mixed := exists e :: e in OnStream(log, stream) && Attribute(x, tagger, e).ToOther(s);
            SharedOf(x, tagger, log, s, events + more) == SharedOf(x, tagger, log, s, events) + (if mixed && more != {} then {stream} else {})
  {
    hide Attribute, OnStream, SharedIn;
    StreamShared(x, tagger, log, s, stream);
    UnionsOf(events, more);
    assert StreamsOf(more) == if more != {} then {stream} else {} by {
      if more != {} {
        var e :| e in more;
        assert e.streamId in StreamsOf(more);
      }
    }
  }

  /** What the listed streams contribute. A stream that holds attributable events spares its co-tenants:
      a key it contributes is that of a requested event of the subject's own, and a requested event that
      nobody can be attributed makes the result partial. A stream that holds none contributes the keys
      of all its requested events. */
  lemma ScopedStreamsSpareCoTenants(x: Store, tagger: Option<Tagger>, req: Request, log: seq<StoredEvent>, listed: seq<string>, k: string)
    requires ValidLog(log)
    ensures k in FromListed(x, tagger, req, log, listed).keys
       <==> exists e :: e in log && e.streamId in listed && Requested(req, e) && HasEncryptionEnvelope(e.meta) && e.meta.keyId == k
                        && (req.subject in Attribute(x, tagger, e).subjects || Ownerless(x, tagger, log, e.streamId))
    ensures FromListed(x, tagger, req, log, listed).partial
       <==> exists e :: e in log && e.streamId in listed && Requested(req, e) && Attribute(x, tagger, e).subjects == [] && !Ownerless(x, tagger, log, e.streamId)
  {
    hide Attribute, Scoped, OnStream, Matches, Requested, Ownerless;
    var chosen, skipped := ListedEvents(x, tagger, req, log, listed), SkippedEvents(x, tagger, req, log, listed);
    forall e ensures Matches(req, e) <==> Requested(req, e) { RequestedMeans(req, e); }
    forall e | e in log
      ensures Scoped(x, tagger, OnStream(log, e.streamId)) <==> !Ownerless(x, tagger, log, e.streamId)
      ensures Ownerless(x, tagger, log, e.streamId) ==> Attribute(x, tagger, e).subjects == []
    {
      OwnerlessMeans(x, tagger, log, e.streamId);
    }
    if e :| e in log && e.streamId in listed && Requested(req, e) && HasEncryptionEnvelope(e.meta) && e.meta.keyId == k
            && (req.subject in Attribute(x, tagger, e).subjects || Ownerless(x, tagger, log, e.streamId)) {
      assert e in chosen;
      assert e.meta.keyId in KeysOf(chosen);
    }
    if k in KeysOf(chosen) {
      var e :| e in chosen && HasEncryptionEnvelope(e.meta) && e.meta.keyId == k;
    }
    if e :| e in log && e.streamId in listed && Requested(req, e) && Attribute(x, tagger, e).subjects == [] && !Ownerless(x, tagger, log, e.streamId) {
      assert e in skipped;
    }
    if skipped != {} {
      var e :| e in skipped;
    }
  }

  /** No event of the stream can be attributed to anybody. */
  ghost predicate Ownerless(x: Store, tagger: Option<Tagger>, log: seq<StoredEvent>, stream: string) {
    forall e :: e in log && e.streamId == stream ==> Attribute(x, tagger, e).subjects == []
  }

  lemma OwnerlessMeans(x: Store, tagger: Option<Tagger>, log: seq<StoredEvent>, stream: string)
    requires ValidLog(log)
    ensures Scoped(x, tagger, OnStream(log, stream)) <==> !Ownerless(x, tagger, log, stream)
    ensures forall e :: e in log && e.streamId == stream && Ownerless(x, tagger, log, stream) ==> Attribute(x, tagger, e).subjects == []
  {
    hide Attribute, OnStream;
    OnStreamMembers(log, stream);
  }

  // ---- Verification ----

  /** What a verification goes by: attribution as it is now, the events the erasure attributed to
      the subject before it revoked anything, and the keys' states. */
  datatype Check = Check(x: Store, tagger: Option<Tagger>, subject: string, attributed: set<Ref>, state: string -> RevocationState)
  {
    predicate Owns(e: StoredEvent) {
      RefOf(e) in attributed || subject in Attribute(x, tagger, e).subjects
    }

    predicate Nobodys(e: StoredEvent) {
      RefOf(e) !in attributed && Attribute(x, tagger, e).subjects == []
    }

    /** Permanently unreadable: a complete envelope under a revoked key. */
    predicate Shredded(e: StoredEvent) {
      HasEncryptionEnvelope(e.meta) && state(e.meta.keyId) == Revoked
    }
  }

  datatype Report = Report(
    eventsChecked: nat,
    redacted: nat,
    residualEncrypted: set<Ref>,
    residualRecoverable: set<Ref>,
    residualCleartext: set<Ref>,
    unattributedRecoverable: set<Ref>,
    unattributedRedacted: set<Ref>,
    partial: bool)
  {
    predicate IsClean() {
      residualEncrypted == {} && residualRecoverable == {} && residualCleartext == {} && !partial
    }
  }

  ghost function OwnedEvents(c: Check, events: set<StoredEvent>): set<StoredEvent> {
    set e | e in events && c.Owns(e)
  }

  ghost function ShreddedOwned(c: Check, events: set<StoredEvent>): set<StoredEvent> {
    set e | e in events && c.Owns(e) && c.Shredded(e)
  }

  ghost function ResidualOwned(c: Check, events: set<StoredEvent>, state: RevocationState): set<StoredEvent> {
    set e | e in events && c.Owns(e) && HasEncryptionEnvelope(e.meta) && c.state(e.meta.keyId) == state
  }

  ghost function CleartextOwned(c: Check, events: set<StoredEvent>): set<StoredEvent> {
    set e | e in events && c.Owns(e) && !HasEncryptionEnvelope(e.meta)
  }

  ghost function NobodysEvents(c: Check, events: set<StoredEvent>, shredded: bool): set<StoredEvent> {
    set e | e in events && !c.Owns(e) && c.Nobodys(e) && c.Shredded(e) == shredded
  }

  /** The report on exactly these events. */
  ghost function ReportOn(c: Check, events: set<StoredEvent>, partial: bool): Report {
    Report(|OwnedEvents(c, events)|, |ShreddedOwned(c, events)|,
           RefsOf(ResidualOwned(c, events, NotRevoked)), RefsOf(ResidualOwned(c, events, SoftRevoked)), RefsOf(CleartextOwned(c, events)),
           RefsOf(NobodysEvents(c, events, false)), RefsOf(NobodysEvents(c, events, true)),
           partial || NobodysEvents(c, events, false) != {})
  }

  /** How one more event changes the report. */
  function Filed(c: Check, r: Report, e: StoredEvent): Report {
    var ref := RefOf(e);
    if c.Owns(e) then
      var q := r.(eventsChecked := r.eventsChecked + 1);
      if !HasEncryptionEnvelope(e.meta) then q.(residualCleartext := r.residualCleartext + {ref})
      else
        match c.state(e.meta.keyId)
        case Revoked => q.(redacted := r.redacted + 1)
        case SoftRevoked => q.(residualRecoverable := r.residualRecoverable + {ref})
        case NotRevoked => q.(residualEncrypted := r.residualEncrypted + {ref})
    else if Attribute(c.x, c.tagger, e).subjects == [] then
      if c.Shredded(e) then r.(unattributedRedacted := r.unattributedRedacted + {ref})
      else r.(unattributedRecoverable := r.unattributedRecoverable + {ref}, partial := true)
    else r
  }

  lemma RefsGrow(events: set<StoredEvent>, e: StoredEvent, on: bool)
    ensures RefsOf(if on then events + {e} else events) == if on then RefsOf(events) + {RefOf(e)} else RefsOf(events)
  {
  }

  lemma OwnedStep(c: Check, events: set<StoredEvent>, e: StoredEvent)
    requires e !in events
    ensures |OwnedEvents(c, events + {e})| == |OwnedEvents(c, events)| + (if c.Owns(e) then 1 else 0)
    ensures |ShreddedOwned(c, events + {e})| == |ShreddedOwned(c, events)| + (if c.Owns(e) && c.Shredded(e) then 1 else 0)
  {
    hide Attribute;
    assert OwnedEvents(c, events + {e}) == if c.Owns(e) then OwnedEvents(c, events) + {e} else OwnedEvents(c, events);
    assert ShreddedOwned(c, events + {e}) == if c.Owns(e) && c.Shredded(e) then ShreddedOwned(c, events) + {e} else ShreddedOwned(c, events);
  }

  lemma ResidualStep(c: Check, events: set<StoredEvent>, e: StoredEvent, state: RevocationState)
    ensures RefsOf(ResidualOwned(c, events + {e}, state))
         == RefsOf(ResidualOwned(c, events, state))
            + (if c.Owns(e) && HasEncryptionEnvelope(e.meta) && c.state(e.meta.keyId) == state then {RefOf(e)} else {})
  {
    hide Attribute;
    var on := c.Owns(e) && HasEncryptionEnvelope(e.meta) && c.state(e.meta.keyId) == state;
    RefsGrow(ResidualOwned(c, events, state), e, on);
    assert ResidualOwned(c, events + {e}, state) == if on then ResidualOwned(c, events, state) + {e} else ResidualOwned(c, events, state);
  }

  lemma CleartextStep(c: Check, events: set<StoredEvent>, e: StoredEvent)
    ensures RefsOf(CleartextOwned(c, events + {e}))
         == RefsOf(CleartextOwned(c, events)) + (if c.Owns(e) && !HasEncryptionEnvelope(e.meta) then {RefOf(e)} else {})
  {
    hide Attribute;
    var on := c.Owns(e) && !HasEncryptionEnvelope(e.meta);
    RefsGrow(CleartextOwned(c, events), e, on);
    assert CleartextOwned(c, events + {e}) == if on then CleartextOwned(c, events) + {e} else CleartextOwned(c, events);
  }

  lemma NobodysStep(c: Check, events: set<StoredEvent>, e: StoredEvent, shredded: bool)
    ensures RefsOf(NobodysEvents(c, events + {e}, shredded))
         == RefsOf(NobodysEvents(c, events, shredded))
            + (if !c.Owns(e) && c.Nobodys(e) && c.Shredded(e) == shredded then {RefOf(e)} else {})
    ensures NobodysEvents(c, events + {e}, shredded) != {} <==>
            NobodysEvents(c, events, shredded) != {} || (!c.Owns(e) && c.Nobodys(e) && c.Shredded(e) == shredded)
  {
    hide Attribute;
    var on := !c.Owns(e) && c.Nobodys(e) && c.Shredded(e) == shredded;
    RefsGrow(NobodysEvents(c, events, shredded), e, on);
    assert NobodysEvents(c, events + {e}, shredded) == if on then NobodysEvents(c, events, shredded) + {e} else NobodysEvents(c, events, shredded);
  }

  lemma FiledStep(c: Check, events: set<StoredEvent>, partial: bool, e: StoredEvent)
    requires e !in events
    ensures ReportOn(c, events + {e}, partial) == Filed(c, ReportOn(c, events, partial), e)
  {
    hide Attribute, RefsOf, OwnedEvents, ShreddedOwned, ResidualOwned, CleartextOwned, NobodysEvents, HasEncryptionEnvelope;
    OwnedStep(c, events, e);
    ResidualStep(c, events, e, NotRevoked);
    ResidualStep(c, events, e, SoftRevoked);
    CleartextStep(c, events, e);
    NobodysStep(c, events, e, false);
    NobodysStep(c, events, e, true);
  }

  /** A clean report leaves nothing: each event that is the subject's is shredded for good, and so
      is each one that nobody can be attributed. */
  lemma CleanReportMeans(c: Check, events: set<StoredEvent>, partial: bool, e: StoredEvent)
    requires ReportOn(c, events, partial).IsClean() && e in events
    ensures c.Owns(e) || c.Nobodys(e) ==> c.Shredded(e)
    ensures !partial
  {
    hide Attribute;
    var encrypted, recoverable, cleartext := ResidualOwned(c, events, NotRevoked), ResidualOwned(c, events, SoftRevoked), CleartextOwned(c, events);
    NoRefs(encrypted);
    NoRefs(recoverable);
    NoRefs(cleartext);
    assert e !in encrypted && e !in recoverable && e !in cleartext && e !in NobodysEvents(c, events, false);
  }

  /** And it is clean exactly then. */
  lemma CleanExactlyWhen(c: Check, events: set<StoredEvent>, partial: bool)
    ensures ReportOn(c, events, partial).IsClean() <==>
            !partial && forall e :: e in events && (c.Owns(e) || c.Nobodys(e)) ==> c.Shredded(e)
    ensures ReportOn(c, events, partial).eventsChecked > 0 <==> exists e :: e in events && c.Owns(e)
  {
    hide Attribute;
    var encrypted, recoverable, cleartext, nobodys := ResidualOwned(c, events, NotRevoked), ResidualOwned(c, events, SoftRevoked), CleartextOwned(c, events), NobodysEvents(c, events, false);
    if ReportOn(c, events, partial).IsClean() {
      forall e | e in events && (c.Owns(e) || c.Nobodys(e))
        ensures c.Shredded(e)
      {
        CleanReportMeans(c, events, partial, e);
      }
      NothingPartial(c, events, partial);
    } else if forall e :: e in events && (c.Owns(e) || c.Nobodys(e)) ==> c.Shredded(e) {
      assert encrypted == {} && recoverable == {} && cleartext == {} && nobodys == {};
      NothingRefersToNothing({});
    }
    if e :| e in events && c.Owns(e) { assert e in OwnedEvents(c, events); }
  }

  lemma NothingRefersToNothing(events: set<StoredEvent>)
    ensures events == {} ==> RefsOf(events) == {}
  {
  }

  lemma NoRefs(events: set<StoredEvent>)
    ensures RefsOf(events) == {} ==> events == {}
  {
    forall e | e in events
      ensures RefsOf(events) != {}
    {
      assert RefOf(e) in RefsOf(events);
    }
  }

  /** The events of these streams. */
  ghost function OnStreams(log: seq<StoredEvent>, streams: set<string>): set<StoredEvent> {
    set e | e in log && e.streamId in streams
  }

  /** The heart of the certificate. The subject's events were found while they were readable, by a scan
      or through an index that covers the subject; later, with keys gone, a verification of the found
      streams that goes by what was remembered is clean. Then every event of the whole log that was
      the subject's is shredded for good, whether or not it can still be attributed, and the footprint
      was not partial. */
  lemma CleanVerificationCoversTheLog(before: Store, c: Check, log: seq<StoredEvent>, log': seq<StoredEvent>, partial: bool)
    requires c.attributed == RefsOf(Mine(before, c.tagger, log, c.subject))
    requires forall e :: e in log ==> e in log'
    requires ReportOn(c, OnStreams(log', StreamsOf(Mine(before, c.tagger, log, c.subject))), partial).IsClean()
    ensures !partial
    ensures forall e :: e in log && c.subject in Attribute(before, c.tagger, e).subjects ==> c.Shredded(e)
  {
    hide Attribute;
    var mine := Mine(before, c.tagger, log, c.subject);
    var events := OnStreams(log', StreamsOf(mine));
    NothingPartial(c, events, partial);
    forall e | e in mine
      ensures c.Shredded(e)
    {
      assert RefOf(e) in RefsOf(mine) && e.streamId in StreamsOf(mine);
      CleanReportMeans(c, events, partial, e);
    }
  }

  lemma NothingPartial(c: Check, events: set<StoredEvent>, partial: bool)
    requires ReportOn(c, events, partial).IsClean()
    ensures !partial
  {
  }

  // ---- The certificate ----

  datatype StoreOutcome = StoreOutcome(name: string, failed: bool, skipped: bool, sharedStreamsSkipped: nat)

  datatype Residual = Counted(rows: nat) | Uncountable | CountFailed

  /** A sibling store: how its erasure turns out and what it then counts. */
  datatype SubjectStore = SubjectStore(outcome: StoreOutcome, residual: Residual)

  /** How many of these outcomes are failures. */
  function Failures(outcomes: seq<bool>): nat {
    if outcomes == [] then 0
    else Failures(outcomes[..|outcomes| - 1]) + (if outcomes[|outcomes| - 1] then 0 else 1)
  }

  function StoreFlags(stores: seq<SubjectStore>): seq<bool> {
    seq(|stores|, i requires 0 <= i < |stores| => !stores[i].outcome.failed)
  }

  /** None of them exactly when nothing failed. */
  lemma {:induction false} NoFailuresMeans(outcomes: seq<bool>)
    ensures Failures(outcomes) == 0 <==> forall i :: 0 <= i < |outcomes| ==> outcomes[i]
  {
    if outcomes != [] {
      var front := outcomes[..|outcomes| - 1];
      NoFailuresMeans(front);
      assert forall i :: 0 <= i < |front| ==> front[i] == outcomes[i];
    }
  }

  predicate StoreErased(o: StoreOutcome) {
    !o.failed && !o.skipped && o.sharedStreamsSkipped == 0
  }

  /** Counting stopped at no failure. */
  predicate AllCounted(stores: seq<SubjectStore>) {
    forall i :: 0 <= i < |stores| ==> stores[i].residual != CountFailed
  }

  predicate NoneLeft(stores: seq<SubjectStore>) {
    forall i :: 0 <= i < |stores| ==> stores[i].residual.Counted? ==> stores[i].residual.rows == 0
  }

  /** Everything a certificate's verdict depends on. */
  datatype Evidence = Evidence(
    report: Report,
    completed: bool,              // every stream could be loaded
    stores: seq<SubjectStore>,
    keysRevoked: set<string>,
    keysFailed: set<string>,
    streams: set<string>,
    markerMissing: bool,
    residualReadModels: nat)

  predicate Verified(v: Evidence) {
    && v.completed && v.report.IsClean()
    && AllCounted(v.stores) && NoneLeft(v.stores)
    && (v.report.eventsChecked > 0 || (v.keysRevoked == {} && v.keysFailed == {} && v.streams == {}))
    && v.keysFailed == {}
    && !v.markerMissing
    && (forall i :: 0 <= i < |v.stores| ==> StoreErased(v.stores[i].outcome))
    && v.residualReadModels == 0
  }

  lemma StoresGate(stores: seq<SubjectStore>)
    ensures AllCounted(stores) && NoneLeft(stores) && (forall i :: 0 <= i < |stores| ==> StoreErased(stores[i].outcome)) <==>
            forall store :: store in stores ==>
              var o := store.outcome;
              !o.failed && !o.skipped && o.sharedStreamsSkipped == 0 && (store.residual == Uncountable || store.residual == Counted(0))
  {
    forall i | 0 <= i < |stores|
      ensures stores[i] in stores
    {
    }
  }
}
