/** The data eraser: key discovery, the blast-radius guard, revocation, propagation, the
    certificate and the index purge. */
module Erasure {
  import opened Events
  import opened Stores
  import opened SubjectTags
  import opened EventCodec
  import opened SubjectSpec
  import opened SubjectResolution
  import opened ErasureSpec
  import FieldEncryption

  function UnusableIn(states: map<string, RevocationState>, missing: set<string>): set<string> {
    missing + set k | k in states && states[k] != NotRevoked
  }

  lemma UnusableGrows(before: map<string, RevocationState>, after: map<string, RevocationState>, missing: set<string>)
    requires forall k :: k in before && before[k] != NotRevoked ==> k in after && after[k] != NotRevoked
    ensures UnusableIn(before, missing) <= UnusableIn(after, missing)
  {
  }

  class KeyVault {
    var states: map<string, RevocationState>
    const missing: set<string>     // keys the provider cannot use anyway
    const refuses: set<string>     // keys whose revocation fails
    const scheduled: set<string>   // keys whose revocation is accepted, but only scheduled: recoverable for a while
    const revocable: bool          // whether the provider supports revocation at all

    constructor (missing: set<string>, refuses: set<string>, scheduled: set<string>, revocable: bool)
      ensures states == map[] && this.missing == missing && this.refuses == refuses && this.scheduled == scheduled && this.revocable == revocable
    {
      states, this.missing, this.refuses, this.scheduled, this.revocable := map[], missing, refuses, scheduled, revocable;
    }

    function State(key: string): RevocationState
      reads this
    {
      StateIn(states, key)
    }

    function Unusable(): set<string>
      reads this
    {
      UnusableIn(states, missing)
    }

    function StateIn(states: map<string, RevocationState>, key: string): RevocationState {
      if key in states then states[key] else NotRevoked
    }

    /** Exactly these keys have been revoked since. */
    ghost predicate Landed(before: map<string, RevocationState>, revoked: set<string>)
      reads this
    {
      forall k :: State(k) == if k in revoked then Landing(k, StateIn(before, k)) else StateIn(before, k)
    }

    /** Revoking a key again makes no difference. */
    lemma LandedTwice(before: map<string, RevocationState>, between: map<string, RevocationState>, first: set<string>, more: set<string>)
      requires forall k :: StateIn(between, k) == if k in first then Landing(k, StateIn(before, k)) else StateIn(before, k)
      requires Landed(between, more)
      ensures Landed(before, first + more)
      ensures more <= first ==> forall k :: State(k) == StateIn(between, k)
    {
    }

    /** What an accepted revocation makes of a key: gone for good, or pending deletion. */
    function Landing(key: string, before: RevocationState): (after: RevocationState)
      ensures after != NotRevoked && (before == Revoked ==> after == Revoked)
    {
      if key in scheduled && before != Revoked then SoftRevoked else Revoked
    }

    method RevokeKey(key: string) returns (ok: bool)
      modifies this
      ensures ok <==> key !in refuses
      ensures states == if ok then old(states)[key := Landing(key, old(State(key)))] else old(states)
    {
      ok := key !in refuses;
      if ok { states := states[key := Landing(key, State(key))]; }
    }
  }

  class ErasureResult {
    var keysRevoked: set<string>
    var keysFailed: set<string>
    var streams: set<string>
    var sharedStreams: set<string>
    var partial: bool
    var markerWritten: bool
    var residualReadModels: nat
    var subjectStores: seq<StoreOutcome>
    var errors: nat
    var attributed: set<Ref>
    var subjectIndexPurged: bool

    constructor ()
      ensures keysRevoked == {} && keysFailed == {} && streams == {} && sharedStreams == {} && !partial && !markerWritten
      ensures residualReadModels == 0 && subjectStores == [] && errors == 0 && attributed == {} && !subjectIndexPurged
    {
      keysRevoked, keysFailed, streams, sharedStreams, partial, markerWritten := {}, {}, {}, {}, false, false;
      residualReadModels, subjectStores, errors, attributed, subjectIndexPurged := 0, [], 0, {}, false;
    }

    /** What discovery has recorded here, besides the keys. */
    ghost function Discovered(keys: set<string>): Discovery
      reads this
    {
      Discovery(keys, streams, sharedStreams, attributed, partial)
    }

    /** The erasure did not fully succeed. */
    method Failed() returns (failed: bool)
      ensures failed <==> errors > 0 || partial || residualReadModels > 0
                          || exists i :: 0 <= i < |subjectStores| && subjectStores[i].skipped
    {
      if errors > 0 || partial || residualReadModels > 0 { return true; }
      for i := 0 to |subjectStores|
        invariant forall j :: 0 <= j < i ==> !subjectStores[j].skipped
      {
        if subjectStores[i].skipped { return true; }
      }
      failed := false;
    }
  }

  class VerificationReport {
    var eventsChecked: nat
    var redactedEvents: nat
    var residualEncrypted: set<Ref>
    var residualRecoverable: set<Ref>
    var residualCleartext: set<Ref>
    var unattributedRecoverable: set<Ref>
    var unattributedRedacted: set<Ref>
    var residualStores: nat
    var partial: bool

    constructor (partial: bool)
      ensures View() == Report(0, 0, {}, {}, {}, {}, {}, partial) && residualStores == 0
    {
      eventsChecked, redactedEvents, residualStores, this.partial := 0, 0, 0, partial;
      residualEncrypted, residualRecoverable, residualCleartext, unattributedRecoverable, unattributedRedacted := {}, {}, {}, {}, {};
    }

    ghost function View(): Report
      reads this
    {
      Report(eventsChecked, redactedEvents, residualEncrypted, residualRecoverable, residualCleartext,
             unattributedRecoverable, unattributedRedacted, partial)
    }

    predicate IsClean()
      reads this
    {
      residualEncrypted == {} && residualRecoverable == {} && residualCleartext == {} && residualStores == 0 && !partial
    }

    /** Counts one of the subject's events and classifies it. */
    method RecordChecked(ref: Ref, m: Metadata, state: RevocationState)
      modifies this`eventsChecked, this`redactedEvents, this`residualEncrypted, this`residualRecoverable, this`residualCleartext
      ensures var r := old(View()).(eventsChecked := old(eventsChecked) + 1);
              View() == if !HasEncryptionEnvelope(m) then r.(residualCleartext := r.residualCleartext + {ref})
                        else match state
                             case Revoked => r.(redacted := r.redacted + 1)
                             case SoftRevoked => r.(residualRecoverable := r.residualRecoverable + {ref})
                             case NotRevoked => r.(residualEncrypted := r.residualEncrypted + {ref})
    {
      eventsChecked := eventsChecked + 1;
      if !HasEncryptionEnvelope(m) {
        residualCleartext := residualCleartext + {ref};
      } else {
        match state {
          case Revoked => redactedEvents := redactedEvents + 1;
          case SoftRevoked => residualRecoverable := residualRecoverable + {ref};
          case NotRevoked => residualEncrypted := residualEncrypted + {ref};
        }
      }
    }

    /** Files an event nobody can be attributed: harmless once shredded, otherwise possibly the
        subject's own. */
    method RecordUnattributed(ref: Ref, m: Metadata, state: RevocationState)
      modifies this`unattributedRecoverable, this`unattributedRedacted, this`partial
      ensures var r := old(View());
              View() == if HasEncryptionEnvelope(m) && state == Revoked
                        then r.(unattributedRedacted := r.unattributedRedacted + {ref})
                        else r.(unattributedRecoverable := r.unattributedRecoverable + {ref}, partial := true)
    {
      if HasEncryptionEnvelope(m) && state == Revoked {
        unattributedRedacted := unattributedRedacted + {ref};
      } else {
        unattributedRecoverable := unattributedRecoverable + {ref};
        partial := true;
      }
    }
  }

  datatype Error =
    | SubjectRequired
    | NotConfigured
    | NoSources
    | LoadFailed
    | SharedKeyRefused(keys: set<string>)
    | RevocationUnsupported
    | MarkerLost
    | CertificateLost

  /** How the parts outside the event store turn out. */
  datatype Surroundings = Surroundings(
    redactions: seq<bool>,          // each read model's redaction or rebuild
    subjectStores: seq<SubjectStore>,
    hooks: seq<bool>,
    marker: Option<bool>,           // whether one is configured, and whether appending it succeeds
    sink: Option<bool>)             // whether one is configured, and whether it accepts the certificate

  /** How re-resolving after the revocation turned out. */
  datatype Reconciliation = Unresolved | NothingLate | Refusing | Revoking

  class DataEraser {
    const store: EventStore
    const codec: Store
    const vault: KeyVault
    const resolver: SubjectResolver?
    const batchSize: nat
    const sharedKeyGuard: bool
    const allowSharedKey: bool
    const strictAccountability: bool
    const surroundings: Surroundings
    const indexPurger: MemorySubjectIndex?

    constructor (store: EventStore, codec: Store, vault: KeyVault, resolver: SubjectResolver?, batchSize: nat,
                 sharedKeyGuard: bool, allowSharedKey: bool, strictAccountability: bool, surroundings: Surroundings,
                 indexPurger: MemorySubjectIndex?)
      requires batchSize > 0
      ensures this.store == store && this.codec == codec && this.vault == vault && this.resolver == resolver && this.batchSize == batchSize
      ensures this.sharedKeyGuard == sharedKeyGuard && this.allowSharedKey == allowSharedKey
      ensures this.strictAccountability == strictAccountability && this.surroundings == surroundings && this.indexPurger == indexPurger
      ensures ValidLog(store.log) && (resolver == null || (resolver.store == store && resolver.batchSize > 0)) ==> Valid()
    {
      this.store, this.codec, this.vault, this.resolver, this.batchSize := store, codec, vault, resolver, batchSize;
      this.sharedKeyGuard, this.allowSharedKey, this.strictAccountability := sharedKeyGuard, allowSharedKey, strictAccountability;
      this.surroundings, this.indexPurger := surroundings, indexPurger;
    }

    ghost predicate Valid()
      reads store, resolver
    {
      && ValidLog(store.log) && batchSize > 0
      && (resolver != null ==> resolver.store == store && resolver.batchSize > 0)
    }

    /** The store's configuration while the keys are as they now are. */
    function Now(): Store
      reads vault
    {
      if codec.encryption.Some? && codec.encryption.value.provider.Some? then
        codec.(encryption := Some(codec.encryption.value.(provider := Some(FieldEncryption.Provider(vault.Unusable())))))
      else codec
    }

    /** The tagger untagged events are attributed with. */
    function Tagger(): Option<Tagger> {
      if resolver != null then resolver.tagger else None
    }

    // ---- Key discovery ----

    /** One listed stream: its own scoping rule decides whose events count. */
    method CollectStreamKeys(req: Request, stored: seq<StoredEvent>) returns (keys: set<string>, streams: set<string>, remembered: set<Ref>, shared: bool, skipped: bool)
      ensures keys == KeysOf(Selected(Now(), Tagger(), req, stored))
      ensures streams == StreamsOf(Selected(Now(), Tagger(), req, stored))
      ensures remembered == if Scoped(Now(), Tagger(), stored) then RefsOf(Selected(Now(), Tagger(), req, stored)) else {}
      ensures shared <==> exists e :: e in stored && Attribute(Now(), Tagger(), e).ToOther(req.subject)
      ensures skipped <==> SkipsUnattributed(Now(), Tagger(), req, stored)
    {
      hide Attribute, Matches;
      var x := Now();
      var scoped;
      scoped, shared := AttributeStream(req, stored);
      keys, streams, remembered, skipped := {}, {}, {}, false;
      ghost var chosen: set<StoredEvent> := {};
      for i := 0 to |stored|
        invariant chosen == set e | e in stored[..i] && Matches(req, e) && (scoped ==> req.subject in Attribute(x, Tagger(), e).subjects)
        invariant keys == KeysOf(chosen) && streams == StreamsOf(chosen) && remembered == if scoped then RefsOf(chosen) else {}
        invariant skipped <==> scoped && exists e :: e in stored[..i] && Matches(req, e) && Attribute(x, Tagger(), e).subjects == []
      {
        var e := stored[i];
        assert stored[..i + 1] == stored[..i] + [e];
        if Matches(req, e) {
          var a := Attribute(x, Tagger(), e);
          if !scoped || a.To(req.subject) {
            ChosenStep(chosen, e);
            chosen := chosen + {e};
            streams := streams + {e.streamId};
            if HasEncryptionEnvelope(e.meta) { keys := keys + {e.meta.keyId}; }
            if scoped { remembered := remembered + {RefOf(e)}; }
          } else if !a.Attributed() {
            skipped := true;
          }
        }
      }
      assert stored[..|stored|] == stored;
      assert chosen == Selected(x, Tagger(), req, stored);
    }

    method AttributeStream(req: Request, stored: seq<StoredEvent>) returns (scoped: bool, shared: bool)
      ensures scoped <==> Scoped(Now(), Tagger(), stored)
      ensures shared <==> exists e :: e in stored && Attribute(Now(), Tagger(), e).ToOther(req.subject)
    {
      hide Attribute;
      scoped, shared := false, false;
      for i := 0 to |stored|
        invariant scoped <==> exists j :: 0 <= j < i && Attribute(Now(), Tagger(), stored[j]).subjects != []
        invariant shared <==> exists j :: 0 <= j < i && Attribute(Now(), Tagger(), stored[j]).ToOther(req.subject)
      {
        var a := Attribute(Now(), Tagger(), stored[i]);
        if a.Attributed() { scoped := true; }
        if a.ToOther(req.subject) { shared := true; }
      }
    }

    /** Keys, streams and attested events of the listed streams. A stream with events nobody can be
        attributed, besides ones that can, makes the result partial. */
    method DiscoverKeysByStream(req: Request, result: ErasureResult) returns (ok: bool, keys: set<string>)
      requires Valid() && result.Discovered({}) == Discovery({}, {}, {}, {}, false)
      modifies result`streams, result`sharedStreams, result`attributed, result`partial
      ensures !ok ==> !store.Healthy()
      ensures ok ==> result.Discovered(keys) == FromListed(Now(), Tagger(), req, store.log, req.streams)
    {
      hide Attribute, Matches, Scoped, Selected, SkipsUnattributed, OnStream, FromListed, KeysOf, RefsOf, StreamsOf;
      ok, keys := true, {};
      ghost var x, tagger, log := Now(), Tagger(), store.log;
      NoneListed(x, tagger, req, log);
      assert req.streams[..0] == [];
      for i := 0 to |req.streams|
        invariant result.Discovered(keys) == FromListed(x, tagger, req, log, req.streams[..i])
      {
        var loaded, stored := store.LoadRaw(req.streams[i]);
        if !loaded { return false, keys; }
        var found, streams, remembered, shared, skipped := CollectStreamKeys(req, stored);
        OneMoreListed(x, tagger, req, log, req.streams[..i], req.streams[i]);
        NothingSelected(Selected(x, tagger, req, stored));
        assert req.streams[..i + 1] == req.streams[..i] + [req.streams[i]];
        keys := keys + found;
        result.streams := result.streams + streams;
        result.attributed := result.attributed + remembered;
        if shared && streams != {} { result.sharedStreams := result.sharedStreams + {req.streams[i]}; }
        if skipped { result.partial := true; }
      }
      assert req.streams[..|req.streams|] == req.streams;
    }

    /** Walks the whole store and collects the keys and streams of every event that matches. */
    method ScanKeys(req: Request, result: ErasureResult) returns (ok: bool, keys: set<string>, streams: set<string>)
      requires Valid() && result.attributed == {}
      modifies result`attributed
      ensures !ok ==> !store.Healthy()
      ensures ok ==> keys == KeysOf(MatchingIn(req, store.log)) && streams == StreamsOf(MatchingIn(req, store.log))
      ensures ok ==> result.attributed == RefsOf(MatchingOf(Now(), Tagger(), req, store.log))
    {
      hide Attribute, LoadFrom, After, Matches, KeysOf, StreamsOf, RefsOf, MatchingIn, MatchingOf;
      ok, keys, streams := true, {}, {};
      var position, more := 0, true;
      ghost var seen: seq<StoredEvent> := [];
      AfterZero(store.log);
      NothingMatches(Now(), Tagger(), req);
      while more
        invariant seen + After(store.log, position) == store.log
        invariant keys == KeysOf(MatchingIn(req, seen)) && streams == StreamsOf(MatchingIn(req, seen))
        invariant result.attributed == RefsOf(MatchingOf(Now(), Tagger(), req, seen))
        invariant !more ==> After(store.log, position) == []
        decreases more, |After(store.log, position)|
      {
        var loaded, batch := store.LoadEventsFromPosition(position, batchSize);
        if !loaded { return false, keys, streams; }
        if |batch| == 0 {
          NothingLoaded(store.log, position, batchSize);
          more := false;
        } else {
          BatchLoaded(store.log, position, batchSize, seen, store.log);
          keys, streams := CollectScanKeys(req, batch, result, keys, streams, seen);
          seen := seen + batch;
          position := batch[|batch| - 1].position;
        }
      }
      assert seen == store.log;
    }

    /** Keys from every event of the store that matches; the caller's filter alone sets the scope. */
    method DiscoverKeysByScan(req: Request, result: ErasureResult) returns (ok: bool, keys: set<string>)
      requires Valid() && result.Discovered({}) == Discovery({}, {}, {}, {}, false)
      modifies result`streams, result`sharedStreams, result`attributed
      ensures !ok ==> !store.Healthy()
      ensures ok ==> result.Discovered(keys) == FromScan(Now(), Tagger(), req, store.log)
    {
      hide Attribute, KeysOf, StreamsOf, RefsOf, MatchingIn, MatchingOf, SharedIn;
      var streams, shared;
      ok, keys, streams := ScanKeys(req, result);
      if !ok { return; }
      ok, shared := SharedStreamsOf(req.subject, streams);
      if !ok { return; }
      result.streams := result.streams + streams;
      result.sharedStreams := result.sharedStreams + shared;
    }

    method CollectScanKeys(req: Request, batch: seq<StoredEvent>, result: ErasureResult, keys0: set<string>, streams0: set<string>, ghost seen: seq<StoredEvent>)
      returns (keys: set<string>, streams: set<string>)
      requires keys0 == KeysOf(MatchingIn(req, seen)) && streams0 == StreamsOf(MatchingIn(req, seen))
      requires result.attributed == RefsOf(MatchingOf(Now(), Tagger(), req, seen))
      modifies result`attributed
      ensures keys == KeysOf(MatchingIn(req, seen + batch)) && streams == StreamsOf(MatchingIn(req, seen + batch))
      ensures result.attributed == RefsOf(MatchingOf(Now(), Tagger(), req, seen + batch))
    {
      hide Attribute, Matches, KeysOf, StreamsOf, RefsOf, MatchingIn, MatchingOf;
      keys, streams := keys0, streams0;
      assert seen + batch[..0] == seen;
      for i := 0 to |batch|
        invariant keys == KeysOf(MatchingIn(req, seen + batch[..i])) && streams == StreamsOf(MatchingIn(req, seen + batch[..i]))
        invariant result.attributed == RefsOf(MatchingOf(Now(), Tagger(), req, seen + batch[..i]))
      {
        var e := batch[i];
        MatchingStep(Now(), Tagger(), req, seen + batch[..i], e);
        ChosenStep(MatchingIn(req, seen + batch[..i]), e);
        ChosenStep(MatchingOf(Now(), Tagger(), req, seen + batch[..i]), e);
        assert seen + batch[..i] + [e] == seen + batch[..i + 1];
        if Matches(req, e) {
          streams := streams + {e.streamId};
          if Attribute(Now(), Tagger(), e).To(req.subject) { result.attributed := result.attributed + {RefOf(e)}; }
          if HasEncryptionEnvelope(e.meta) { keys := keys + {e.meta.keyId}; }
        }
      }
      assert batch[..|batch|] == batch;
    }

    method SharedStreamsOf(subject: string, streams: set<string>) returns (ok: bool, shared: set<string>)
      requires Valid()
      ensures !ok ==> !store.Healthy()
      ensures ok ==> shared == set stream | stream in streams && SharedIn(Now(), Tagger(), store.log, subject, stream)
    {
      hide Attribute;
      ok, shared := true, {};
      var todo := streams;
      while todo != {}
        invariant todo <= streams
        invariant shared == set stream | stream in streams - todo && SharedIn(Now(), Tagger(), store.log, subject, stream)
      {
        var stream :| stream in todo;
        var loaded, stored := store.LoadRaw(stream);
        if !loaded { return false, shared; }
        StreamShared(Now(), Tagger(), store.log, subject, stream);
        var mixed := exists i | 0 <= i < |stored| :: Attribute(Now(), Tagger(), stored[i]).ToOther(subject);
        if mixed { shared := shared + {stream}; }
        todo := todo - {stream};
      }
    }

    // ---- Which keys an erasure starts from ----

    /** Only the subject is named, so the resolver decides. */
    predicate ByResolver(req: Request) {
      resolver != null && req.streams == [] && req.filter == None && req.keyIds == []
    }

    /** What an erasure starts from. */
    ghost function Scope(req: Request): Discovery
      requires Valid()
      reads store, vault, resolver, if resolver != null then {resolver.index} else {}
    {
      if ByResolver(req) then
        var fp := resolver.Found(Now(), req.subject);
        Discovery(fp.keyIds, fp.streams, fp.sharedStreams, RefsOf(resolver.FoundEvents(Now(), req.subject)), fp.partial)
      else FromSources(Now(), Tagger(), req, store.log)
    }

    /** The keys a second resolve finds besides, once the first ones are revoked and others have
        appended their events. */
    ghost function LateKeys(req: Request, concurrent: seq<StoredEvent>): set<string>
      requires Valid()
      reads store, vault, resolver, if resolver != null then {resolver.index} else {}
    {
      if ByResolver(req) then
        resolver.FoundIn(Without(Now(), Scope(req).keys - vault.refuses), store.log + concurrent, req.subject).keyIds - Scope(req).keys
      else {}
    }

    lemma LateKeysAre(req: Request, concurrent: seq<StoredEvent>)
      requires Valid()
      ensures LateKeys(req, concurrent) ==
                if ByResolver(req) then resolver.FoundIn(Without(Now(), Scope(req).keys - vault.refuses), store.log + concurrent, req.subject).keyIds - Scope(req).keys
                else {}
    {
    }

    /** Where the scope comes from: a request that names nothing but its subject is resolved, if there is a
        resolver, by scan or by its index; any other is what the sources it names come to. */
    lemma ScopeIs(req: Request)
      requires Valid()
      ensures resolver != null && req.streams == [] && req.filter == None && req.keyIds == [] ==>
                var fp := if resolver.index == null then ScanFootprint(Now(), Tagger(), store.log, req.subject)
                          else IndexFootprint(Now(), Tagger(), store.log, req.subject, resolver.index.StreamsBySubject(req.subject), resolver.authoritative);
                Scope(req).keys == fp.keyIds && Scope(req).streams == fp.streams && Scope(req).shared == fp.sharedStreams && Scope(req).partial == fp.partial
      ensures resolver == null || req.streams != [] || req.filter.Some? || req.keyIds != [] ==> Scope(req) == FromSources(Now(), Tagger(), req, store.log)
    {
      hide ScanFootprint, IndexFootprint, FromSources, Now;
    }

    /** With the subject's writes quiesced there are none. */
    lemma QuiescedAddsNothing(req: Request)
      requires Valid()
      ensures LateKeys(req, []) == {}
    {
      hide Attribute;
      if ByResolver(req) {
        assert store.log + [] == store.log;
        WithoutHasFewer(Now(), Scope(req).keys - vault.refuses);
        var listed := if resolver.index == null then {} else resolver.index.StreamsBySubject(req.subject);
        RevocationAddsNoKeys(Now(), Without(Now(), Scope(req).keys - vault.refuses), Tagger(), store.log, req.subject, listed, listed, resolver.authoritative);
      }
    }

    predicate NamesSources(req: Request) {
      req.streams != [] || req.filter.Some? || req.keyIds != []
    }

    method Discover(req: Request, result: ErasureResult) returns (err: Option<Error>, keys: set<string>)
      requires Valid() && req.subject != "" && result.Discovered({}) == Discovery({}, {}, {}, {}, false)
      modifies result`streams, result`sharedStreams, result`attributed, result`partial
      ensures err == None ==> result.Discovered(keys) == Scope(req)
      ensures err == Some(NoSources) <==> !ByResolver(req) && !NamesSources(req)
      ensures err.Some? ==> err.value == NoSources || (err.value == LoadFailed && !store.Healthy())
    {
      hide Attribute, Matches, Selected, ScanFootprint, IndexFootprint, Mine, FromListed, FromScan;
      err, keys := None, {};
      if ByResolver(req) {
        var ok, fp, matched := resolver.Resolve(Now(), req.subject);
        if !ok { return Some(LoadFailed), keys; }
        keys, result.streams, result.sharedStreams, result.partial, result.attributed :=
          fp.keyIds, fp.streams, fp.sharedStreams, fp.partial, matched;
        return;
      }
      if |req.streams| == 0 && req.filter == None && |req.keyIds| == 0 { return Some(NoSources), keys; }
      keys := NamedKeys(req);
      var ok, found := true, {};
      if |req.streams| > 0 {
        ok, found := DiscoverKeysByStream(req, result);
      } else if req.filter.Some? {
        ok, found := DiscoverKeysByScan(req, result);
      }
      if !ok { return Some(LoadFailed), keys; }
      keys := keys + found;
    }

    // ---- The guard ----

    /** The keys among `keys` that also protect another subject's events, or events nobody can be
        attributed: a scan of the whole store. */
    method DetectSharedKeys(target: string, keys: set<string>) returns (ok: bool, shared: set<string>)
      requires Valid()
      ensures !ok ==> !store.Healthy()
      ensures ok ==> shared == SharedKeys(Now(), Tagger(), store.log, target, keys)
      ensures ok ==> forall k :: k in shared <==> k in keys && ContestedKey(Now(), Tagger(), store.log, target, k)
    {
      hide Attribute, LoadFrom, SharedKeys, ContestedKey;
      ok, shared := true, {};
      var position, more := 0, true;
      ghost var seen: seq<StoredEvent> := [];
      AfterZero(store.log);
      NothingShared(Now(), Tagger(), target, keys);
      while more
        invariant seen + After(store.log, position) == store.log
        invariant shared == SharedKeys(Now(), Tagger(), seen, target, keys)
        invariant !more ==> After(store.log, position) == []
        decreases more, |After(store.log, position)|
      {
        var loaded, batch := store.LoadEventsFromPosition(position, batchSize);
        if !loaded { return false, shared; }
        if |batch| == 0 {
          NothingLoaded(store.log, position, batchSize);
          more := false;
        } else {
          BatchLoaded(store.log, position, batchSize, seen, store.log);
          shared := DetectInBatch(target, keys, batch, shared, seen);
          seen := seen + batch;
          position := batch[|batch| - 1].position;
        }
      }
      assert seen == store.log;
      SharedKeysAre(Now(), Tagger(), store.log, target, keys);
    }

    method DetectInBatch(target: string, keys: set<string>, batch: seq<StoredEvent>, shared0: set<string>, ghost seen: seq<StoredEvent>)
      returns (shared: set<string>)
      requires shared0 == SharedKeys(Now(), Tagger(), seen, target, keys)
      ensures shared == SharedKeys(Now(), Tagger(), seen + batch, target, keys)
    {
      hide Attribute, SharedKeys;
      shared := shared0;
      assert seen + batch[..0] == seen;
      for i := 0 to |batch|
        invariant shared == SharedKeys(Now(), Tagger(), seen + batch[..i], target, keys)
      {
        var e := batch[i];
        SharedKeysStep(Now(), Tagger(), seen + batch[..i], e, target, keys);
        assert seen + batch[..i] + [e] == seen + batch[..i + 1];
        if HasEncryptionEnvelope(e.meta) && e.meta.keyId in keys && !ExclusivelyOf(Attribute(Now(), Tagger(), e), target) {
          shared := shared + {e.meta.keyId};
        }
      }
      assert batch[..|batch|] == batch;
    }

    // ---- Revocation ----

    method RevokeOne(key: string, result: ErasureResult)
      modifies vault, result`keysRevoked, result`keysFailed, result`errors
      ensures forall k :: vault.State(k) == if k == key && k !in vault.refuses then vault.Landing(k, old(vault.State(k))) else old(vault.State(k))
      ensures result.keysRevoked == old(result.keysRevoked) + (if key in vault.refuses then {} else {key})
      ensures result.keysFailed == old(result.keysFailed) + (if key in vault.refuses then {key} else {})
      ensures result.errors == old(result.errors) + (if key in vault.refuses then 1 else 0)
    {
      var ok := vault.RevokeKey(key);
      if ok {
        result.keysRevoked := result.keysRevoked + {key};
      } else {
        result.errors := result.errors + 1;
        result.keysFailed := result.keysFailed + {key};
      }
    }

    /** Revokes each key; one that fails is recorded and the rest go on. */
    method RevokeAll(keys: set<string>, result: ErasureResult)
      modifies vault, result`keysRevoked, result`keysFailed, result`errors
      ensures result.keysRevoked == old(result.keysRevoked) + (keys - vault.refuses)
      ensures result.keysFailed == old(result.keysFailed) + keys * vault.refuses
      ensures result.errors == old(result.errors) + |keys * vault.refuses|
      ensures forall k :: vault.State(k) == if k in keys - vault.refuses then vault.Landing(k, old(vault.State(k))) else old(vault.State(k))
    {
      hide Accepted, Refused, SplitInto, KeyVault.State, KeyVault.Landing;
      var todo := keys;
      ghost var done: set<string> := {};
      NothingDone(keys, vault.refuses);
      while todo != {}
        invariant SplitInto(done, todo, keys)
        invariant result.keysRevoked == old(result.keysRevoked) + Accepted(done, vault.refuses)
        invariant result.keysFailed == old(result.keysFailed) + Refused(done, vault.refuses)
        invariant result.errors == old(result.errors) + |Refused(done, vault.refuses)|
        invariant forall k :: vault.State(k) == if k in done && k !in vault.refuses then vault.Landing(k, old(vault.State(k))) else old(vault.State(k))
      {
        var k :| k in todo;
        RevokeOne(k, result);
        OneMoreDone(done, todo, keys, k, vault.refuses, old(result.keysRevoked), old(result.keysFailed));
        todo := todo - {k};
        done := done + {k};
      }
      AllDone(done, keys, vault.refuses);
    }

    /** Revoking only ever takes keys away, and takes exactly those. */
    twostate lemma FewerNow(gone: set<string>)
      requires forall k :: vault.State(k) == if k in gone then vault.Landing(k, old(vault.State(k))) else old(vault.State(k))
      ensures FewerKeys(old(Now()), Now()) && Now() == Without(old(Now()), gone) && vault.Landed(old(vault.states), gone)
    {
      hide KeyVault.Landing;
      forall k
        ensures vault.State(k) == if k in gone then vault.Landing(k, vault.StateIn(old(vault.states), k)) else vault.StateIn(old(vault.states), k)
      {
        assert old(vault.State(k)) == vault.StateIn(old(vault.states), k);
      }
      assert vault.Unusable() == old(vault.Unusable()) + gone by {
        forall k
          ensures k in vault.Unusable() <==> k in old(vault.Unusable()) + gone
        {
          assert vault.State(k) == if k in gone then vault.Landing(k, old(vault.State(k))) else old(vault.State(k));
        }
      }
      forall k | k in old(vault.states) && old(vault.states[k]) != NotRevoked
        ensures k in vault.states && vault.states[k] != NotRevoked
      {
        assert vault.State(k) == vault.Landing(k, old(vault.State(k))) || vault.State(k) == old(vault.State(k));
      }
      UnusableGrows(old(vault.states), vault.states, vault.missing);
    }

    predicate Guarded() {
      sharedKeyGuard && !allowSharedKey
    }

    lemma GuardedMeans()
      ensures Guarded() <==> sharedKeyGuard && !allowSharedKey
    {
    }

    /** The same guard, for keys that appeared late. */
    method RefusesLate(subject: string, keys: set<string>) returns (refused: bool)
      requires Valid()
      ensures refused ==> Guarded() && (store.Healthy() ==> SharedKeys(Now(), Tagger(), store.log, subject, keys) != {})
      ensures !refused && Guarded() ==> forall k :: k in keys ==> ExclusiveKey(Now(), Tagger(), store.log, subject, k)
    {
      hide Attribute, ExclusiveKey, SharedKeys;
      if Guarded() {
        var scanned, shared := DetectSharedKeys(subject, keys);
        if !scanned || shared != {} { return true; }
        AllExclusive(Now(), Tagger(), store.log, subject, keys);
      }
      refused := false;
    }

    /** Revokes keys that appeared late, all or none. That the footprint grew makes the result partial. */
    method RevokeLate(subject: string, late: set<string>, result: ErasureResult) returns (ghost outcome: Reconciliation)
      requires Valid() && late != {}
      modifies vault, result`keysRevoked, result`keysFailed, result`errors, result`partial
      ensures result.partial && (outcome == Refusing || outcome == Revoking)
      ensures outcome == Refusing ==>
        && Guarded() && (store.Healthy() ==> SharedKeys(old(Now()), Tagger(), store.log, subject, late) != {})
        && result.keysRevoked == old(result.keysRevoked) && result.keysFailed == old(result.keysFailed) && result.errors == old(result.errors) + 1
        && vault.states == old(vault.states)
      ensures outcome == Revoking ==>
        && (Guarded() ==> forall k :: k in late ==> ExclusiveKey(old(Now()), Tagger(), store.log, subject, k))
        && result.keysRevoked == old(result.keysRevoked) + (late - vault.refuses)
        && result.keysFailed == old(result.keysFailed) + late * vault.refuses
        && result.errors == old(result.errors) + |late * vault.refuses| + 1
        && (forall k :: vault.State(k) == if k in late - vault.refuses then vault.Landing(k, old(vault.State(k))) else old(vault.State(k)))
      ensures Now() == if outcome == Revoking then Without(old(Now()), late - vault.refuses) else old(Now())
    {
      hide Attribute, ExclusiveKey, FewerKeys, Now, Tagger, Accepted, Refused, SharedKeys, Guarded, Without;
      result.partial := true;
      result.errors := result.errors + 1;
      var refused := RefusesLate(subject, late);
      if refused { return Refusing; }
      RevokeAll(late, result);
      FewerNow(late - vault.refuses);
      outcome := Revoking;
    }

    /** Resolves once more and revokes keys that appeared meanwhile, under the same guard. */
    method ReconcileAfterRevoke(subject: string, keys: set<string>, result: ErasureResult) returns (ghost outcome: Reconciliation)
      requires Valid() && resolver != null && subject != "" && result.keysRevoked <= keys
      modifies vault, result`keysRevoked, result`keysFailed, result`errors, result`partial
      ensures var late := resolver.Found(old(Now()), subject).keyIds - keys;
              && (outcome == Revoking || (result.keysRevoked == old(result.keysRevoked) && result.keysFailed == old(result.keysFailed)))
              && match outcome
                 case Unresolved => !store.Healthy() && result.errors == old(result.errors) + 1 && result.partial == old(result.partial)
                 case NothingLate => late == {} && result.errors == old(result.errors) && result.partial == old(result.partial)
                 case Refusing =>
                   && late != {} && Guarded() && (store.Healthy() ==> SharedKeys(old(Now()), Tagger(), store.log, subject, late) != {})
                   && result.errors == old(result.errors) + 1 && result.partial
                 case Revoking =>
                   && late != {} && (Guarded() ==> forall k :: k in late ==> ExclusiveKey(old(Now()), Tagger(), store.log, subject, k))
                   && result.keysRevoked == old(result.keysRevoked) + (late - vault.refuses)
                   && result.keysFailed == old(result.keysFailed) + late * vault.refuses
                   && result.errors == old(result.errors) + |late * vault.refuses| + 1 && result.partial
      ensures vault.Landed(old(vault.states), result.keysRevoked - old(result.keysRevoked))
      ensures Now() == Without(old(Now()), result.keysRevoked - old(result.keysRevoked))
    {
      hide Attribute, ScanFootprint, IndexFootprint, ExclusiveKey, FewerKeys, Now, Tagger, SharedKeys, Guarded, Without;
      NoneGone(Now());
      ghost var first := result.keysRevoked;
      assert first - first == {};
      var ok, fp, matched := resolver.Resolve(Now(), subject);
      if !ok {
        result.errors := result.errors + 1;
        outcome := Unresolved;
        return;
      }
      var newKeys := fp.keyIds - keys;
      if newKeys == {} { return NothingLate; }
      outcome := RevokeLate(subject, newKeys, result);
      assert first + (newKeys - vault.refuses) - first == newKeys - vault.refuses;
    }

    // ---- Propagation ----

    method RedactReadModels(result: ErasureResult)
      modifies result`errors, result`residualReadModels
      ensures result.errors == old(result.errors) + Failures(surroundings.redactions)
      ensures result.residualReadModels == old(result.residualReadModels) + Failures(surroundings.redactions)
    {
      for i := 0 to |surroundings.redactions|
        invariant result.errors == old(result.errors) + Failures(surroundings.redactions[..i])
        invariant result.residualReadModels == old(result.residualReadModels) + Failures(surroundings.redactions[..i])
      {
        assert surroundings.redactions[..i + 1][..i] == surroundings.redactions[..i];
        if !surroundings.redactions[i] {
          result.errors := result.errors + 1;
          result.residualReadModels := result.residualReadModels + 1;
        }
      }
      assert surroundings.redactions[..|surroundings.redactions|] == surroundings.redactions;
    }

    method EraseSubjectStores(result: ErasureResult)
      requires result.subjectStores == []
      modifies result`errors, result`subjectStores
      ensures result.errors == old(result.errors) + Failures(StoreFlags(surroundings.subjectStores))
      ensures |result.subjectStores| == |surroundings.subjectStores|
      ensures forall i :: 0 <= i < |result.subjectStores| ==> result.subjectStores[i] == surroundings.subjectStores[i].outcome
    {
      ghost var flags := StoreFlags(surroundings.subjectStores);
      for i := 0 to |surroundings.subjectStores|
        invariant result.errors == old(result.errors) + Failures(flags[..i]) && |result.subjectStores| == i
        invariant forall j :: 0 <= j < i ==> result.subjectStores[j] == surroundings.subjectStores[j].outcome
      {
        assert flags[..i + 1][..i] == flags[..i];
        var outcome := surroundings.subjectStores[i].outcome;
        if outcome.failed { result.errors := result.errors + 1; }
        result.subjectStores := result.subjectStores + [outcome];
      }
      assert flags[..|flags|] == flags;
    }

    method RunErasureHooks(result: ErasureResult)
      modifies result`errors
      ensures result.errors == old(result.errors) + Failures(surroundings.hooks)
    {
      for i := 0 to |surroundings.hooks|
        invariant result.errors == old(result.errors) + Failures(surroundings.hooks[..i])
      {
        assert surroundings.hooks[..i + 1][..i] == surroundings.hooks[..i];
        if !surroundings.hooks[i] { result.errors := result.errors + 1; }
      }
      assert surroundings.hooks[..|surroundings.hooks|] == surroundings.hooks;
    }

    // ---- Verification and the certificate ----

    ghost function CheckFor(s: string, attributed: set<Ref>): Check
      reads vault
    {
      var states := vault.states;
      Check(Now(), Tagger(), s, attributed, k => if k in states then states[k] else NotRevoked)
    }

    /** Checks one loaded stream's events. */
    method VerifyStream(s: string, stored: seq<StoredEvent>, attributed: set<Ref>, rep: VerificationReport, ghost done: set<StoredEvent>, ghost partial: bool)
      requires ValidLog(stored) && forall e :: e in stored ==> e !in done
      requires rep.View() == ReportOn(CheckFor(s, attributed), done, partial)
      modifies rep`eventsChecked, rep`redactedEvents, rep`residualEncrypted, rep`residualRecoverable, rep`residualCleartext,
               rep`unattributedRecoverable, rep`unattributedRedacted, rep`partial
      ensures rep.View() == ReportOn(CheckFor(s, attributed), done + EventSet(stored), partial)
    {
      hide Attribute, ReportOn, HasEncryptionEnvelope;
      assert done + EventSet(stored[..0]) == done;
      for i := 0 to |stored|
        invariant rep.View() == ReportOn(CheckFor(s, attributed), done + EventSet(stored[..i]), partial)
      {
        var e := stored[i];
        NextInStream(stored, i);
        EventSetStep(done, stored, i);
        FiledStep(CheckFor(s, attributed), done + EventSet(stored[..i]), partial, e);
        var state := vault.State(e.meta.keyId);
        if RefOf(e) in attributed {
          rep.RecordChecked(RefOf(e), e.meta, state);
        } else {
          var a := Attribute(Now(), Tagger(), e);
          if a.To(s) {
            rep.RecordChecked(RefOf(e), e.meta, state);
          } else if !a.Attributed() {
            rep.RecordUnattributed(RefOf(e), e.meta, state);
          }
        }
      }
      assert stored[..|stored|] == stored;
    }

    /** Checks every event of the given streams. */
    method VerifyStreams(s: string, streams: set<string>, attributed: set<Ref>, rep: VerificationReport) returns (completed: bool)
      requires ValidLog(store.log) && rep.View() == Report(0, 0, {}, {}, {}, {}, {}, rep.partial)
      modifies rep`eventsChecked, rep`redactedEvents, rep`residualEncrypted, rep`residualRecoverable, rep`residualCleartext,
               rep`unattributedRecoverable, rep`unattributedRedacted, rep`partial
      ensures !completed ==> !store.Healthy()
      ensures completed ==> rep.View() == ReportOn(CheckFor(s, attributed), OnStreams(store.log, streams), old(rep.partial))
    {
      hide Attribute, ReportOn, HasEncryptionEnvelope;
      completed := true;
      var todo := streams;
      ghost var partial := rep.partial;
      NothingReported(CheckFor(s, attributed), partial);
      assert OnStreams(store.log, streams - todo) == {};
      while todo != {}
        invariant todo <= streams
        invariant rep.View() == ReportOn(CheckFor(s, attributed), OnStreams(store.log, streams - todo), partial)
      {
        var stream :| stream in todo;
        var loaded, stored := store.LoadRaw(stream);
        if !loaded { return false; }
        ghost var done := OnStreams(store.log, streams - todo);
        OneMoreStream(store.log, streams - todo, stream);
        VerifyStream(s, stored, attributed, rep, done, partial);
        assert streams - todo + {stream} == streams - (todo - {stream});
        todo := todo - {stream};
      }
      assert streams - todo == streams;
    }

    /** Asks every sibling store what it still holds. */
    method CountSubjectResiduals(rep: VerificationReport) returns (ok: bool)
      requires rep.residualStores == 0
      modifies rep`residualStores
      ensures ok <==> AllCounted(surroundings.subjectStores)
      ensures ok ==> (rep.residualStores == 0 <==> NoneLeft(surroundings.subjectStores))
    {
      var stores := surroundings.subjectStores;
      for i := 0 to |stores|
        invariant forall j :: 0 <= j < i ==> stores[j].residual != CountFailed
        invariant rep.residualStores == 0 <==> forall j :: 0 <= j < i && stores[j].residual.Counted? ==> stores[j].residual.rows == 0
      {
        match stores[i].residual {
          case CountFailed => return false;
          case Uncountable =>
          case Counted(rows) =>
            if rows > 0 { rep.residualStores := rep.residualStores + 1; }
        }
      }
      ok := true;
    }

    /** The evidence is that of the subject's events on the result's streams. */
    ghost predicate EvidenceOf(evidence: Evidence, subject: string, res: ErasureResult)
      reads store, vault, res`streams, res`attributed, res`partial, res`keysRevoked, res`keysFailed, res`markerWritten, res`residualReadModels
    {
      && evidence == Evidence(evidence.report, evidence.completed, surroundings.subjectStores, res.keysRevoked, res.keysFailed,
                              res.streams, surroundings.marker.Some? && !res.markerWritten, res.residualReadModels)
      && (!evidence.completed ==> !store.Healthy())
      && (evidence.completed ==>
            evidence.report == ReportOn(CheckFor(subject, res.attributed), OnStreams(store.log, res.streams), res.partial))
    }

    /** Runs the verification behind the certificate and gives its verdict. */
    method BuildCertificate(s: string, result: ErasureResult) returns (verified: bool, ghost evidence: Evidence)
      requires ValidLog(store.log)
      requires |result.subjectStores| == |surroundings.subjectStores|
      requires forall i :: 0 <= i < |result.subjectStores| ==> result.subjectStores[i] == surroundings.subjectStores[i].outcome
      modifies result`errors
      ensures result.errors == old(result.errors) + (if evidence.completed then 0 else 1) + (if AllCounted(surroundings.subjectStores) then 0 else 1)
      ensures verified <==> Verified(evidence)
      ensures EvidenceOf(evidence, s, result)
    {
      hide ReportOn;
      verified := true;
      var vr := new VerificationReport(result.partial);
      var completed := VerifyStreams(s, result.streams, result.attributed, vr);
      if !completed {
        result.errors := result.errors + 1;
        verified := false;
      }
      ghost var report := vr.View();
      var counted := CountSubjectResiduals(vr);
      if !counted {
        result.errors := result.errors + 1;
        verified := false;
      }
      if !vr.IsClean() { verified := false; }
      // The certificate must attest something.
      if vr.eventsChecked == 0 && (result.keysRevoked != {} || result.keysFailed != {} || result.streams != {}) { verified := false; }
      if result.keysFailed != {} { verified := false; }
      if surroundings.marker.Some? && !result.markerWritten { verified := false; }
      var storesErased := GateSubjectStores(result.subjectStores);
      if !storesErased { verified := false; }
      if result.residualReadModels > 0 { verified := false; }
      evidence := Evidence(report, completed, surroundings.subjectStores, result.keysRevoked, result.keysFailed,
                           result.streams, surroundings.marker.Some? && !result.markerWritten, result.residualReadModels);
    }

    method GateSubjectStores(outcomes: seq<StoreOutcome>) returns (ok: bool)
      ensures ok <==> forall i :: 0 <= i < |outcomes| ==> StoreErased(outcomes[i])
    {
      for i := 0 to |outcomes|
        invariant forall j :: 0 <= j < i ==> StoreErased(outcomes[j])
      {
        if outcomes[i].failed || outcomes[i].skipped { return false; }
        if outcomes[i].sharedStreamsSkipped > 0 { return false; }
      }
      ok := true;
    }

    /** Nothing failed and nothing is left: the condition for giving up the index. */
    ghost predicate Complete(res: ErasureResult)
      reads res
    {
      && res.errors == 0 && !res.partial && res.residualReadModels == 0
      && forall i :: 0 <= i < |res.subjectStores| ==> !res.subjectStores[i].skipped
    }

    /** Deletes the subject's index entries, but only after a fully successful and verified erasure. A
        deletion that fails is an error and leaves the index as it is. */
    method PurgeSubjectIndex(s: string, result: ErasureResult, verified: bool)
      requires indexPurger != null && !result.subjectIndexPurged
      modifies indexPurger, result`subjectIndexPurged, result`errors
      ensures result.subjectIndexPurged <==> verified && old(Complete(result)) && s !in indexPurger.undeletable
      ensures result.errors == old(result.errors) + (if verified && old(Complete(result)) && s in indexPurger.undeletable then 1 else 0)
      ensures indexPurger.streams == if result.subjectIndexPurged then old(indexPurger.streams) - {s} else old(indexPurger.streams)
    {
      var failed := result.Failed();
      if failed || !verified { return; }
      var deleted := indexPurger.DeleteSubject(s);
      if !deleted {
        result.errors := result.errors + 1;
        return;
      }
      result.subjectIndexPurged := true;
    }

    /** Guard, then revoke: nothing is revoked when the guard refuses or revocation is unsupported. */
    method GuardAndRevoke(subject: string, keys: set<string>, result: ErasureResult) returns (err: Option<Error>)
      requires Valid() && result.keysRevoked == {} && result.keysFailed == {}
      modifies vault, result`keysRevoked, result`keysFailed, result`errors
      ensures err.Some? ==> vault.states == old(vault.states) && keys != {}
      ensures err.Some? ==> match err.value
                            case LoadFailed => Guarded() && !store.Healthy()
                            case SharedKeyRefused(shared) => sharedKeyGuard && !allowSharedKey && shared != {} && shared == SharedKeys(old(Now()), Tagger(), store.log, subject, keys)
                            case RevocationUnsupported => !vault.revocable
                            case _ => false
      ensures err == None ==>
        && result.keysRevoked == keys - vault.refuses && result.keysFailed == keys * vault.refuses
        && result.errors == old(result.errors) + |keys * vault.refuses|
        && vault.Landed(old(vault.states), keys - vault.refuses)
        && (keys != {} ==> vault.revocable) && Now() == Without(old(Now()), keys - vault.refuses)
        && (Guarded() ==> forall k :: k in keys ==> ExclusiveKey(old(Now()), Tagger(), store.log, subject, k))
      ensures FewerKeys(old(Now()), Now())
    {
      hide Attribute, ExclusiveKey, SharedKeys, FewerKeys, Now, Tagger, Accepted, Refused, KeyVault.State, KeyVault.Landing, KeyVault.Landed, Without;
      err := None;
      NoneGone(Now());
      if Guarded() && keys != {} {
        var scanned, shared := DetectSharedKeys(subject, keys);
        if !scanned { return Some(LoadFailed); }
        if shared != {} { return Some(SharedKeyRefused(shared)); }
        AllExclusive(Now(), Tagger(), store.log, subject, keys);
      }
      if keys != {} && !vault.revocable { return Some(RevocationUnsupported); }
      RevokeAll(keys, result);
      FewerNow(keys - vault.refuses);
    }

    /** The errors propagation records. */
    function PropagationErrors(): nat {
      Failures(surroundings.redactions) + Failures(StoreFlags(surroundings.subjectStores)) + Failures(surroundings.hooks)
      + (if surroundings.marker == Some(false) then 1 else 0)
    }

    ghost predicate Propagated(res: ErasureResult)
      reads res`residualReadModels, res`subjectStores, res`markerWritten
    {
      && res.residualReadModels == Failures(surroundings.redactions)
      && |res.subjectStores| == |surroundings.subjectStores|
      && (forall i :: 0 <= i < |res.subjectStores| ==> res.subjectStores[i] == surroundings.subjectStores[i].outcome)
      && (res.markerWritten <==> surroundings.marker == Some(true))
    }

    /** Read models, sibling stores, hooks and the marker; it fails only under strict accountability. */
    method Propagate(result: ErasureResult) returns (err: Option<Error>)
      requires result.subjectStores == [] && !result.markerWritten && result.residualReadModels == 0
      modifies result`errors, result`residualReadModels, result`subjectStores, result`markerWritten
      ensures result.errors == old(result.errors) + PropagationErrors()
      ensures Propagated(result)
      ensures err == if surroundings.marker == Some(false) && strictAccountability then Some(MarkerLost) else None
    {
      err := None;
      RedactReadModels(result);
      EraseSubjectStores(result);
      RunErasureHooks(result);
      if surroundings.marker == Some(true) {
        result.markerWritten := true;
      } else if surroundings.marker == Some(false) {
        result.errors := result.errors + 1;
        if strictAccountability { err := Some(MarkerLost); }
      }
    }

    /** Whether a verification runs at all: for a sink, or to gate the index purge. */
    predicate Attesting() {
      surroundings.sink.Some? || indexPurger != null
    }

    function Indexed(): map<string, set<string>>
      reads indexPurger
    {
      if indexPurger == null then map[] else indexPurger.streams
    }

    /** The subject's index entries are given up exactly when the erasure is verified and complete, and
        no other entry is touched. */
    ghost predicate PurgedExactly(subject: string, res: ErasureResult, verified: bool, indexed: map<string, set<string>>)
      reads res, indexPurger
    {
      && (res.subjectIndexPurged <==> indexPurger != null && verified && Complete(res))
      && (res.subjectIndexPurged ==> subject !in indexPurger.undeletable)
      && Indexed() == if res.subjectIndexPurged then indexed - {subject} else indexed
    }

    /** What a positive verdict attests: each event on the result's streams that was the subject's when
        the erasure began, or can be attributed to them now, is permanently unreadable. */
    ghost predicate Attested(subject: string, res: ErasureResult)
      reads store, vault, res`streams, res`attributed
    {
      forall e :: e in store.log && e.streamId in res.streams && (RefOf(e) in res.attributed || subject in Attribute(Now(), Tagger(), e).subjects) ==>
        HasEncryptionEnvelope(e.meta) && vault.State(e.meta.keyId) == Revoked
    }

    /** A positive verdict, said of the vault's key states. */
    lemma VerdictAttests(evidence: Evidence, subject: string, res: ErasureResult)
      requires Verified(evidence) && EvidenceOf(evidence, subject, res)
      ensures Attested(subject, res)
    {
      hide Attribute, ReportOn;
      var c, events := CheckFor(subject, res.attributed), OnStreams(store.log, res.streams);
      forall e | e in store.log && e.streamId in res.streams && (RefOf(e) in res.attributed || subject in Attribute(Now(), Tagger(), e).subjects)
        ensures HasEncryptionEnvelope(e.meta) && vault.State(e.meta.keyId) == Revoked
      {
        CleanReportMeans(c, events, res.partial, e);
        assert c.Owns(e) && c.Shredded(e);
      }
    }

    /** It was the subject's when the erasure began, or can be attributed to them now. */
    ghost predicate OfSubject(subject: string, attributed: set<Ref>, e: StoredEvent)
      reads vault
    {
      RefOf(e) in attributed || subject in Attribute(Now(), Tagger(), e).subjects
    }

    /** Each event on the result's streams that is the subject's, or nobody's, is under a permanently
        revoked key. */
    ghost predicate StreamsShredded(subject: string, res: ErasureResult)
      reads store, vault, res`streams, res`attributed
    {
      forall e :: e in store.log && e.streamId in res.streams && (OfSubject(subject, res.attributed, e) || Attribute(Now(), Tagger(), e).subjects == []) ==>
        HasEncryptionEnvelope(e.meta) && vault.State(e.meta.keyId) == Revoked
    }

    /** Some event on the result's streams is the subject's. */
    ghost predicate SomethingAttested(subject: string, res: ErasureResult)
      reads store, vault, res`streams, res`attributed
    {
      exists e :: e in store.log && e.streamId in res.streams && OfSubject(subject, res.attributed, e)
    }

    /** What a positive verdict takes: nothing unattributed or late, no key refused, every read model
        redacted, no configured marker lost, every sibling store erased, whole, with no row that can be
        counted left, and, unless there was nothing to erase, events that prove it. */
    ghost predicate NothingRemains(subject: string, res: ErasureResult)
      reads store, vault, res`partial, res`keysFailed, res`keysRevoked, res`streams, res`attributed
    {
      && !res.partial && res.keysFailed == {}
      && (forall i :: 0 <= i < |surroundings.redactions| ==> surroundings.redactions[i])
      && surroundings.marker != Some(false)
      && (forall store :: store in surroundings.subjectStores ==>
            var o := store.outcome;
            !o.failed && !o.skipped && o.sharedStreamsSkipped == 0 && (store.residual == Uncountable || store.residual == Counted(0)))
      && StreamsShredded(subject, res)
      && (res.keysRevoked != {} || res.streams != {} ==> SomethingAttested(subject, res))
    }

    lemma ReportMeans(subject: string, res: ErasureResult)
      ensures var report := ReportOn(CheckFor(subject, res.attributed), OnStreams(store.log, res.streams), res.partial);
              && (report.IsClean() <==> !res.partial && StreamsShredded(subject, res))
              && (report.eventsChecked > 0 <==> SomethingAttested(subject, res))
    {
      hide Attribute, ReportOn;
      var c, events := CheckFor(subject, res.attributed), OnStreams(store.log, res.streams);
      CleanExactlyWhen(c, events, res.partial);
      forall e
        ensures c.Owns(e) <==> OfSubject(subject, res.attributed, e)
        ensures c.Owns(e) || c.Nobodys(e) <==> OfSubject(subject, res.attributed, e) || Attribute(Now(), Tagger(), e).subjects == []
        ensures c.Shredded(e) <==> HasEncryptionEnvelope(e.meta) && vault.State(e.meta.keyId) == Revoked
      {
      }
    }

    /** The verdict is positive exactly then, unless the verification could not be completed. */
    lemma VerifiedExactlyWhen(evidence: Evidence, subject: string, res: ErasureResult)
      requires EvidenceOf(evidence, subject, res) && Propagated(res)
      ensures Verified(evidence) <==> evidence.completed && NothingRemains(subject, res)
    {
      hide Attribute, ReportOn, StreamsShredded, SomethingAttested, CheckFor, OnStreams, Failures;
      NoFailuresMeans(surroundings.redactions);
      ReportMeans(subject, res);
      StoresGate(surroundings.subjectStores);
      assert evidence.markerMissing <==> surroundings.marker.Some? && !surroundings.marker.value;
    }

    /** The verdict says exactly that, unless the verification could not be completed. */
    ghost predicate Judged(subject: string, res: ErasureResult, verified: bool, evidence: Evidence)
      reads store, vault, res`partial, res`keysFailed, res`keysRevoked, res`streams, res`attributed
    {
      (verified <==> evidence.completed && NothingRemains(subject, res)) && (!evidence.completed ==> !store.Healthy())
    }

    /** A key that is only scheduled for deletion counts as revoked, but denies the verdict: an event of the
        subject's under it is still recoverable. */
    lemma ScheduledKeyDeniesTheVerdict(subject: string, res: ErasureResult, verified: bool, evidence: Evidence, before: map<string, RevocationState>, e: StoredEvent)
      requires Judged(subject, res, verified, evidence) && vault.Landed(before, res.keysRevoked)
      requires e in store.log && e.streamId in res.streams && OfSubject(subject, res.attributed, e)
      requires HasEncryptionEnvelope(e.meta) && e.meta.keyId in res.keysRevoked && e.meta.keyId in vault.scheduled && vault.StateIn(before, e.meta.keyId) != Revoked
      ensures vault.State(e.meta.keyId) == SoftRevoked && !verified
    {
      hide OfSubject, SomethingAttested;
    }

    /** The verification and what its verdict means. */
    method Examine(subject: string, res: ErasureResult) returns (verified: bool, ghost evidence: Evidence)
      requires ValidLog(store.log) && Propagated(res)
      modifies res`errors
      ensures Propagated(res) && (verified <==> Verified(evidence)) && EvidenceOf(evidence, subject, res)
      ensures Judged(subject, res, verified, evidence) && (verified ==> Attested(subject, res))
      ensures res.errors == old(res.errors) + (if evidence.completed then 0 else 1) + (if AllCounted(surroundings.subjectStores) then 0 else 1)
    {
      hide Attribute, ReportOn, Verified, OnStreams, AllCounted, CheckFor, Attested, NothingRemains, Now, Tagger;
      verified, evidence := BuildCertificate(subject, res);
      VerifiedExactlyWhen(evidence, subject, res);
      if verified { VerdictAttests(evidence, subject, res); }
    }

    /** The verification, the certificate's delivery and the index purge. */
    method Attest(subject: string, res: ErasureResult) returns (err: Option<Error>, verified: bool, ghost evidence: Evidence)
      requires ValidLog(store.log) && !res.subjectIndexPurged && Propagated(res)
      modifies indexPurger, res`errors, res`subjectIndexPurged
      ensures Propagated(res) && (verified <==> Attesting() && Verified(evidence))
      ensures Attesting() ==> EvidenceOf(evidence, subject, res)
      ensures verified ==> Attested(subject, res)
      ensures Attesting() ==> Judged(subject, res, verified, evidence)
      ensures var found := old(res.errors) + (if surroundings.sink == Some(false) then 1 else 0)
                           + (if Attesting() && !evidence.completed then 1 else 0)
                           + (if Attesting() && !AllCounted(surroundings.subjectStores) then 1 else 0);
              res.errors == found || (res.errors == 1 && found == 0 && verified && indexPurger != null && subject in indexPurger.undeletable)
      ensures err == if surroundings.sink == Some(false) && strictAccountability then Some(CertificateLost) else None
      ensures PurgedExactly(subject, res, verified, old(Indexed()))
    {
      hide Attribute, ReportOn, Verified, OnStreams, AllCounted, CheckFor, Attested, NothingRemains, Now, Tagger, Propagated, EvidenceOf, Judged;
      err, verified := None, false;
      evidence := Evidence(Report(0, 0, {}, {}, {}, {}, {}, true), false, [], {}, {}, {}, true, 0);
      if surroundings.sink.Some? || indexPurger != null {
        verified, evidence := Examine(subject, res);
      }
      if surroundings.sink == Some(false) {
        res.errors := res.errors + 1;
        if strictAccountability {
          err := Some(CertificateLost);
          return;
        }
      }
      if indexPurger != null {
        PurgeSubjectIndex(subject, res, verified);
      }
    }

    /** Discovery, the guard and the first revocation. `meanwhile` is what others append between the two. */
    method Shred(req: Request, meanwhile: seq<StoredEvent>, res: ErasureResult) returns (err: Option<Error>, keys: set<string>)
      requires Valid() && ValidLog(store.log + meanwhile) && req.subject != "" && codec.encryption.Some?
      requires res.Discovered({}) == Discovery({}, {}, {}, {}, false)
      requires res.keysRevoked == {} && res.keysFailed == {}
      modifies vault, store`log, res`streams, res`sharedStreams, res`attributed, res`partial, res`keysRevoked, res`keysFailed, res`errors
      ensures Valid() && (store.log == old(store.log) + meanwhile || (err.Some? && store.log == old(store.log)))
      ensures err.Some? ==> vault.states == old(vault.states)
      ensures err.Some? ==> match err.value
                            case NoSources => !ByResolver(req) && !NamesSources(req)
                            case LoadFailed => !store.Healthy()
                            case SharedKeyRefused(shared) => sharedKeyGuard && !allowSharedKey && shared != {} && shared == SharedKeys(old(Now()), Tagger(), store.log, req.subject, old(Scope(req)).keys)
                            case RevocationUnsupported => !vault.revocable && old(Scope(req)).keys != {}
                            case _ => false
      ensures err == None ==>
        && (ByResolver(req) || NamesSources(req))
        && res.Discovered(keys) == old(Scope(req))
        && res.keysRevoked == keys - vault.refuses && res.keysFailed == keys * vault.refuses
        && res.errors == old(res.errors) + |keys * vault.refuses|
        && vault.Landed(old(vault.states), res.keysRevoked) && FewerKeys(old(Now()), Now()) && (keys != {} ==> vault.revocable)
        && Now() == Without(old(Now()), keys - vault.refuses)
        && (Guarded() ==> forall k :: k in keys ==> ExclusiveKey(old(Now()), Tagger(), store.log, req.subject, k))
    {
      hide Attribute, ExclusiveKey, SharedKeys, Scope, Now, Tagger, Guarded, ByResolver, NamesSources, FewerKeys, Without, KeyVault.Landed;
      err, keys := Discover(req, res);
      if err.Some? { return; }
      store.log := store.log + meanwhile;
      err := GuardAndRevoke(req.subject, keys, res);
    }

    /** What holds of every key the erasure has revoked so far. Under the guard a key was, when it was
        revoked, the target's alone in the whole log. */
    ghost predicate WellRevoked(revoked: set<string>, first: set<string>, before: Store, log: seq<StoredEvent>, subject: string)
      reads store, vault
    {
      && first <= revoked
      && (forall k :: k in revoked ==> vault.State(k) != NotRevoked)
      && (Guarded() ==> forall k :: k in revoked ==> ExclusiveKey(before, Tagger(), if k in first then log else store.log, subject, k))
    }

    /** Under the guard every key of the scope, revoked or not, was the target's alone in the whole log. */
    ghost predicate AllOwn(keys: set<string>, before: Store, log: seq<StoredEvent>, subject: string) {
      Guarded() ==> forall k :: k in keys ==> ExclusiveKey(before, Tagger(), log, subject, k)
    }

    /** Keys that appeared late are all revoked, or none of them is; either way they are an error. */
    ghost predicate LateHandled(res: ErasureResult, revoked: set<string>, failed: set<string>, partial: bool, errors: nat, late: set<string>)
      reads store, res
    {
      && (if late == {} then res.keysRevoked == revoked && res.keysFailed == failed && res.partial == partial
          else res.errors > errors && (store.Healthy() ==> res.partial))
      && (|| (res.keysRevoked == revoked && res.keysFailed == failed)
          || (res.keysRevoked == revoked + (late - vault.refuses) && res.keysFailed == failed + late * vault.refuses && res.partial))
    }

    /** Re-resolution, and what it may add. */
    method Reconcile(subject: string, keys: set<string>, res: ErasureResult, ghost before: Store, ghost log: seq<StoredEvent>)
      requires Valid() && resolver != null && subject != "" && res.keysRevoked <= keys
      requires WellRevoked(res.keysRevoked, res.keysRevoked, before, log, subject) && FewerKeys(before, Now())
      modifies vault, res`keysRevoked, res`keysFailed, res`errors, res`partial
      ensures WellRevoked(res.keysRevoked, old(res.keysRevoked), before, log, subject) && old(res.keysRevoked) <= res.keysRevoked
      ensures old(res.keysFailed) <= res.keysFailed && res.errors >= old(res.errors) && (old(res.partial) ==> res.partial)
      ensures Now() == Without(old(Now()), res.keysRevoked - old(res.keysRevoked)) && vault.Landed(old(vault.states), res.keysRevoked - old(res.keysRevoked))
      ensures LateHandled(res, old(res.keysRevoked), old(res.keysFailed), old(res.partial), old(res.errors), old(resolver.FoundIn(Now(), store.log, subject)).keyIds - keys)
    {
      hide Attribute, ScanFootprint, IndexFootprint, ExclusiveKey, Now, Tagger, Guarded;
      ghost var between, first := Now(), res.keysRevoked;
      ghost var outcome := ReconcileAfterRevoke(subject, keys, res);
      forall k | k in res.keysRevoked - first && Guarded()
        ensures ExclusiveKey(before, Tagger(), store.log, subject, k)
      {
        ExclusiveBefore(before, between, Tagger(), store.log, subject, k);
      }
    }

    /** Under strict accountability a lost marker or certificate is an error, and nothing else is. */
    function Accountability(): Option<Error> {
      if surroundings.marker == Some(false) && strictAccountability then Some(MarkerLost)
      else if surroundings.sink == Some(false) && strictAccountability then Some(CertificateLost)
      else None
    }

    /** So unless accountability is strict, losing the marker or the certificate is recorded and no more. A
        verification runs for a sink, and for the index. */
    lemma AccountabilityMeans()
      ensures Accountability() == None <==> !strictAccountability || (surroundings.marker != Some(false) && surroundings.sink != Some(false))
      ensures Accountability() == Some(MarkerLost) <==> strictAccountability && surroundings.marker == Some(false)
      ensures !Attesting() <==> surroundings.sink == None && indexPurger == null
    {
    }

    /** Late keys, if the resolver decides. `before` is the configuration the erasure began with, `log`
        the log as the first keys were revoked. */
    method Renew(req: Request, keys: set<string>, res: ErasureResult, ghost before: Store, ghost log: seq<StoredEvent>)
      requires Valid() && req.subject != "" && res.keysRevoked <= keys
      requires WellRevoked(res.keysRevoked, res.keysRevoked, before, log, req.subject) && FewerKeys(before, Now())
      modifies vault, res`keysRevoked, res`keysFailed, res`errors, res`partial
      ensures WellRevoked(res.keysRevoked, old(res.keysRevoked), before, log, req.subject) && old(res.keysRevoked) <= res.keysRevoked
      ensures old(res.keysFailed) <= res.keysFailed && res.errors >= old(res.errors) && (old(res.partial) ==> res.partial)
      ensures Now() == Without(old(Now()), res.keysRevoked - old(res.keysRevoked)) && vault.Landed(old(vault.states), res.keysRevoked - old(res.keysRevoked))
      ensures LateHandled(res, old(res.keysRevoked), old(res.keysFailed), old(res.partial), old(res.errors),
                          if ByResolver(req) then old(resolver.FoundIn(Now(), store.log, req.subject)).keyIds - keys else {})
    {
      hide Attribute, ExclusiveKey, ScanFootprint, IndexFootprint, Now, Tagger, Guarded, WellRevoked, FewerKeys, Without;
      NoneGone(Now());
      assert res.keysRevoked - res.keysRevoked == {};
      if ByResolver(req) { Reconcile(req.subject, keys, res, before, log); }
    }

    /** Propagation, and unless the marker was lost for good the attestation. */
    method Certify(subject: string, res: ErasureResult) returns (err: Option<Error>, verified: bool, ghost evidence: Evidence)
      requires Valid() && res.subjectStores == [] && !res.markerWritten && !res.subjectIndexPurged && res.residualReadModels == 0
      modifies res`errors, res`residualReadModels, res`subjectStores, res`markerWritten, res`subjectIndexPurged, indexPurger
      ensures res.errors >= old(res.errors) + PropagationErrors() && Propagated(res)
      ensures err == Accountability() && (verified <==> err != Some(MarkerLost) && Attesting() && Verified(evidence))
      ensures verified ==> EvidenceOf(evidence, subject, res) && Attested(subject, res)
      ensures err != Some(MarkerLost) && Attesting() ==> Judged(subject, res, verified, evidence)
      ensures PurgedExactly(subject, res, verified, old(Indexed()))
    {
      hide Attribute, ReportOn, Verified, OnStreams, CheckFor, Now, Tagger, Attested, AllCounted, EvidenceOf, Propagated, Complete, PropagationErrors, Judged;
      verified := false;
      evidence := Evidence(Report(0, 0, {}, {}, {}, {}, {}, true), false, [], {}, {}, {}, true, 0);
      err := Propagate(res);
      if err.Some? { return; }
      err, verified, evidence := Attest(subject, res);
    }

    /** Everything after the first revocation. */
    method Finish(req: Request, keys: set<string>, res: ErasureResult, ghost before: Store, ghost log: seq<StoredEvent>)
      returns (err: Option<Error>, verified: bool, ghost evidence: Evidence)
      requires Valid() && req.subject != "" && res.keysRevoked <= keys && res.subjectStores == [] && !res.markerWritten && !res.subjectIndexPurged && res.residualReadModels == 0
      requires WellRevoked(res.keysRevoked, res.keysRevoked, before, log, req.subject) && FewerKeys(before, Now())
      modifies vault, res, indexPurger
      ensures res.streams == old(res.streams) && res.sharedStreams == old(res.sharedStreams) && res.attributed == old(res.attributed)
      ensures WellRevoked(res.keysRevoked, old(res.keysRevoked), before, log, req.subject)
      ensures old(res.keysRevoked) <= res.keysRevoked && old(res.keysFailed) <= res.keysFailed
      ensures Now() == Without(old(Now()), res.keysRevoked - old(res.keysRevoked)) && vault.Landed(old(vault.states), res.keysRevoked - old(res.keysRevoked))
      ensures res.errors >= old(res.errors) + PropagationErrors() && (old(res.partial) ==> res.partial) && Propagated(res)
      ensures LateHandled(res, old(res.keysRevoked), old(res.keysFailed), old(res.partial), old(res.errors) + PropagationErrors(),
                          if ByResolver(req) then old(resolver.FoundIn(Now(), store.log, req.subject)).keyIds - keys else {})
      ensures err == Accountability() && (verified <==> err != Some(MarkerLost) && Attesting() && Verified(evidence))
      ensures verified ==> EvidenceOf(evidence, req.subject, res) && Attested(req.subject, res)
      ensures err != Some(MarkerLost) && Attesting() ==> Judged(req.subject, res, verified, evidence)
      ensures PurgedExactly(req.subject, res, verified, old(Indexed()))
    {
      hide Attribute, ExclusiveKey, ReportOn, Verified, ScanFootprint, IndexFootprint, Mine, OnStreams, AllAttributed, Judged,
           RefsOf, StreamsOf, CheckFor, Now, Tagger, Guarded, WellRevoked, FewerKeys, Attested, AllCounted, EvidenceOf, Propagated, Complete, Without,
           PropagationErrors, KeyVault.Landed, PurgedExactly, Attesting, Accountability;
      Renew(req, keys, res, before, log);
      err, verified, evidence := Certify(req.subject, res);
    }

    /** When the resolved streams are all of the subject's, a positive verdict speaks for the whole log
        the erasure began with. */
    lemma VerdictCoversTheLog(before: Store, log: seq<StoredEvent>, evidence: Evidence, subject: string, res: ErasureResult)
      requires Verified(evidence) && EvidenceOf(evidence, subject, res)
      requires res.attributed == RefsOf(Mine(before, Tagger(), log, subject)) && res.streams == StreamsOf(Mine(before, Tagger(), log, subject))
      requires forall e :: e in log ==> e in store.log
      ensures !res.partial
      ensures forall e :: e in log && subject in Attribute(before, Tagger(), e).subjects ==>
                HasEncryptionEnvelope(e.meta) && vault.State(e.meta.keyId) == Revoked
    {
      hide Attribute, ReportOn, Mine, StreamsOf, RefsOf, OnStreams, AllAttributed;
      CleanVerificationCoversTheLog(before, CheckFor(subject, res.attributed), log, store.log, res.partial);
    }

    /** The scope is what was revoked at first, and what the result records; nothing but late keys is
        revoked besides. */
    ghost predicate ScopeErased(req: Request, scope: Discovery, late: set<string>, res: ErasureResult, before: Store, log: seq<StoredEvent>)
      reads store, vault, res
    {
      && res.streams == scope.streams && res.sharedStreams == scope.shared && res.attributed == scope.attributed
      && (scope.partial ==> res.partial) && scope.keys * vault.refuses <= res.keysFailed
      && res.errors >= |scope.keys * vault.refuses| + PropagationErrors()
      && LateHandled(res, scope.keys - vault.refuses, scope.keys * vault.refuses, scope.partial, |scope.keys * vault.refuses| + PropagationErrors(), late)
      && Propagated(res)
      && AllOwn(scope.keys, before, log, req.subject) && (scope.keys != {} ==> vault.revocable)
      && WellRevoked(res.keysRevoked, scope.keys - vault.refuses, before, log, req.subject)
    }

    lemma ScopeSettled(req: Request, scope: Discovery, late: set<string>, res: ErasureResult, before: Store, log: seq<StoredEvent>)
      requires res.streams == scope.streams && res.sharedStreams == scope.shared && res.attributed == scope.attributed
      requires (scope.partial ==> res.partial) && scope.keys * vault.refuses <= res.keysFailed && (scope.keys != {} ==> vault.revocable)
      requires res.errors >= |scope.keys * vault.refuses| + PropagationErrors()
      requires LateHandled(res, scope.keys - vault.refuses, scope.keys * vault.refuses, scope.partial, |scope.keys * vault.refuses| + PropagationErrors(), late)
      requires Propagated(res) && AllOwn(scope.keys, before, log, req.subject) && WellRevoked(res.keysRevoked, scope.keys - vault.refuses, before, log, req.subject)
      ensures ScopeErased(req, scope, late, res, before, log)
    {
    }

    /** The resolver misses none of the subject's streams: it scans, or its index covers the subject. */
    ghost predicate Covered(req: Request)
      requires Valid()
      reads store, vault, resolver, if resolver != null then {resolver.index} else {}
    {
      ByResolver(req) && (resolver.index == null || Covers(resolver.index.streams, Now(), Tagger(), store.log, req.subject))
    }

    /** The verdict is that of the evidence. If the resolver missed none of the subject's streams it
        speaks for the whole log the erasure began with; if it scanned, the log held no event that
        nobody can be attributed. */
    ghost predicate Certified(req: Request, res: ErasureResult, verified: bool, evidence: Evidence, covered: bool, before: Store, log: seq<StoredEvent>)
      reads store, vault, res
    {
      && (verified <==> Accountability() != Some(MarkerLost) && Attesting() && Verified(evidence))
      && (verified ==> EvidenceOf(evidence, req.subject, res) && Attested(req.subject, res))
      && (Accountability() != Some(MarkerLost) && Attesting() ==> Judged(req.subject, res, verified, evidence))
      && (verified && covered ==> forall e :: e in log && req.subject in Attribute(before, Tagger(), e).subjects ==>
            HasEncryptionEnvelope(e.meta) && vault.State(e.meta.keyId) == Revoked)
      && (verified && ByResolver(req) && resolver.index == null ==> AllAttributed(before, Tagger(), log))
    }

    lemma SettleVerdict(req: Request, res: ErasureResult, verified: bool, evidence: Evidence, covered: bool, before: Store, log: seq<StoredEvent>)
      requires verified <==> Accountability() != Some(MarkerLost) && Attesting() && Verified(evidence)
      requires verified ==> EvidenceOf(evidence, req.subject, res) && Attested(req.subject, res)
      requires Accountability() != Some(MarkerLost) && Attesting() ==> Judged(req.subject, res, verified, evidence)
      requires forall e :: e in log ==> e in store.log
      requires ByResolver(req) && resolver.index == null ==> covered && (res.partial || AllAttributed(before, Tagger(), log))
      requires covered ==> res.attributed == RefsOf(Mine(before, Tagger(), log, req.subject)) && res.streams == StreamsOf(Mine(before, Tagger(), log, req.subject))
      ensures Certified(req, res, verified, evidence, covered, before, log)
    {
      hide Attribute, Mine, RefsOf, StreamsOf, AllAttributed, Attested, EvidenceOf, Verified, Accountability, Attesting, Judged;
      if verified && covered { VerdictCoversTheLog(before, log, evidence, req.subject, res); }
    }

    /** Every event that is not the target's alone loads and is attributed as before. */
    ghost predicate Spares(subject: string, before: Store, log: seq<StoredEvent>)
      reads vault
    {
      forall e :: e in log && Contested(before, Tagger(), e, subject) ==>
        Load(Now(), e) == Load(before, e) && Attribute(Now(), Tagger(), e) == Attribute(before, Tagger(), e)
    }

    /** Every event under a revoked key has the target for its only subject. */
    ghost predicate TheirsAlone(subject: string, revoked: set<string>, before: Store, log: seq<StoredEvent>) {
      forall e :: e in log && HasEncryptionEnvelope(e.meta) && e.meta.keyId in revoked ==>
        forall s :: s in Attribute(before, Tagger(), e).subjects <==> s == subject
    }

    lemma KeysAreNamed(req: Request, concurrent: seq<StoredEvent>)
      requires Valid()
      ensures "" !in Scope(req).keys && "" !in LateKeys(req, concurrent)
    {
      hide Attribute, Mine, MineOn, ListedEvents, MatchingIn, AttestableEvents, SkippedEvents;
    }

    lemma ErasureSparesOthers(req: Request, scope: Discovery, late: set<string>, res: ErasureResult, before: Store, log: seq<StoredEvent>)
      requires Guarded() && ScopeErased(req, scope, late, res, before, log) && Now() == Without(before, res.keysRevoked)
      requires "" !in scope.keys && "" !in late && forall e :: e in log ==> e in store.log
      ensures Spares(req.subject, before, log) && TheirsAlone(req.subject, res.keysRevoked, before, log)
    {
      hide Attribute, Load, Without, Now;
      forall k | k in res.keysRevoked
        ensures k != "" && ExclusiveKey(before, Tagger(), log, req.subject, k)
      {
        assert ExclusiveKey(before, Tagger(), if k in scope.keys - vault.refuses then log else store.log, req.subject, k);
      }
      assert TheirsAlone(req.subject, res.keysRevoked, before, log) by {
        forall e | e in log && HasEncryptionEnvelope(e.meta) && e.meta.keyId in res.keysRevoked
          ensures NamesOnly(Attribute(before, Tagger(), e), req.subject)
        {
          assert Under(e, e.meta.keyId);
        }
      }
      forall e | e in log && Contested(before, Tagger(), e, req.subject)
        ensures Load(Now(), e) == Load(before, e) && Attribute(Now(), Tagger(), e) == Attribute(before, Tagger(), e)
      {
        ExclusiveRevocationSparesOthers(before, Tagger(), log, req.subject, res.keysRevoked, e);
      }
    }

    lemma LandedMeans(before: map<string, RevocationState>, revoked: set<string>)
      requires vault.Landed(before, revoked)
      ensures forall k :: vault.StateIn(vault.states, k) == if k in revoked then vault.Landing(k, vault.StateIn(before, k)) else vault.StateIn(before, k)
    {
      forall k
        ensures vault.StateIn(vault.states, k) == if k in revoked then vault.Landing(k, vault.StateIn(before, k)) else vault.StateIn(before, k)
      {
        assert vault.State(k) == vault.StateIn(vault.states, k);
      }
    }

    lemma NothingLateMeans(req: Request, scope: Discovery, res: ErasureResult, before: Store, log: seq<StoredEvent>)
      requires ScopeErased(req, scope, {}, res, before, log)
      ensures res.keysRevoked == scope.keys - vault.refuses && res.keysFailed == scope.keys * vault.refuses && res.partial == scope.partial
    {
    }

    lemma ErasureMeans(req: Request, scope: Discovery, late: set<string>, res: ErasureResult, before: Store, log: seq<StoredEvent>)
      requires ScopeErased(req, scope, late, res, before, log) && Now() == Without(before, res.keysRevoked)
      requires "" !in scope.keys && "" !in late && forall e :: e in log ==> e in store.log
      ensures sharedKeyGuard && !allowSharedKey ==> Spares(req.subject, before, log) && TheirsAlone(req.subject, res.keysRevoked, before, log)
      ensures late == {} ==> res.keysRevoked == scope.keys - vault.refuses && res.keysFailed == scope.keys * vault.refuses && res.partial == scope.partial
    {
      hide ScopeErased, Spares, TheirsAlone, Without, Now;
      if Guarded() { ErasureSparesOthers(req, scope, late, res, before, log); }
      if late == {} { NothingLateMeans(req, scope, res, before, log); }
    }

    /** The index is given up only when nothing whatever failed: every key of the scope was accepted and
        none appeared late, every read model was redacted, every sibling store erased, every hook ran,
        and no configured marker was lost. */
    lemma PurgeMeansNothingFailed(req: Request, scope: Discovery, late: set<string>, res: ErasureResult, verified: bool,
                                  before: Store, log: seq<StoredEvent>, indexed: map<string, set<string>>)
      requires ScopeErased(req, scope, late, res, before, log) && PurgedExactly(req.subject, res, verified, indexed) && res.subjectIndexPurged
      ensures verified && late == {} && scope.keys !! vault.refuses && res.keysRevoked == scope.keys
      ensures forall i :: 0 <= i < |surroundings.redactions| ==> surroundings.redactions[i]
      ensures forall i :: 0 <= i < |surroundings.hooks| ==> surroundings.hooks[i]
      ensures forall i :: 0 <= i < |surroundings.subjectStores| ==> !surroundings.subjectStores[i].outcome.failed && !surroundings.subjectStores[i].outcome.skipped
      ensures surroundings.marker != Some(false)
    {
      hide WellRevoked, Failures;
      NoFailuresMeans(surroundings.redactions);
      NoFailuresMeans(surroundings.hooks);
      var flags := StoreFlags(surroundings.subjectStores);
      NoFailuresMeans(flags);
      assert scope.keys * vault.refuses == {};
      assert scope.keys - vault.refuses == scope.keys by {
        forall k | k in scope.keys ensures k !in vault.refuses { assert k !in scope.keys * vault.refuses; }
      }
      forall i | 0 <= i < |surroundings.subjectStores|
        ensures !surroundings.subjectStores[i].outcome.failed && !surroundings.subjectStores[i].outcome.skipped
      {
        assert flags[i] && res.subjectStores[i] == surroundings.subjectStores[i].outcome;
      }
    }

    lemma ScopeMeans(req: Request)
      requires Valid()
      ensures var scope, mine := Scope(req), Mine(Now(), Tagger(), store.log, req.subject);
              && (Covered(req) ==> scope.attributed == RefsOf(mine) && scope.streams == StreamsOf(mine))
              && (ByResolver(req) && resolver.index == null ==> Covered(req) && scope.partial == !AllAttributed(Now(), Tagger(), store.log))
    {
      hide Attribute, AllAttributed, Mine, MineOn, SharedOf;
      ScanFootprintMeans(Now(), Tagger(), store.log, req.subject);
      if Covered(req) && resolver.index != null {
        CoveringIndexAgreesWithScan(resolver.index.streams, Now(), Tagger(), store.log, req.subject, resolver.authoritative);
      }
    }

    /** From discovery to the moment before the second resolve. */
    method Begin(req: Request, meanwhile: seq<StoredEvent>, concurrent: seq<StoredEvent>, res: ErasureResult) returns (err: Option<Error>, keys: set<string>)
      requires Valid() && ValidLog(store.log + (meanwhile + concurrent)) && req.subject != "" && codec.encryption.Some?
      requires res.Discovered({}) == Discovery({}, {}, {}, {}, false) && res.keysRevoked == {} && res.keysFailed == {} && res.errors == 0
      modifies vault, store`log, res`streams, res`sharedStreams, res`attributed, res`partial, res`keysRevoked, res`keysFailed, res`errors
      ensures err.Some? ==> vault.states == old(vault.states) && (store.log == old(store.log) || store.log == old(store.log) + meanwhile)
      ensures err.Some? ==> match err.value
                            case NoSources => !ByResolver(req) && !NamesSources(req)
                            case LoadFailed => !store.Healthy()
                            case SharedKeyRefused(shared) => sharedKeyGuard && !allowSharedKey && shared != {} && shared == SharedKeys(old(Now()), Tagger(), store.log, req.subject, old(Scope(req)).keys)
                            case RevocationUnsupported => !vault.revocable && old(Scope(req)).keys != {}
                            case _ => false
      ensures err == None ==>
        && Valid() && store.log == old(store.log) + (meanwhile + concurrent) && (ByResolver(req) || NamesSources(req))
        && res.Discovered(keys) == old(Scope(req))
        && res.keysRevoked == keys - vault.refuses && res.keysFailed == keys * vault.refuses && res.errors == |keys * vault.refuses|
        && Now() == Without(old(Now()), res.keysRevoked) && vault.Landed(old(vault.states), res.keysRevoked) && FewerKeys(old(Now()), Now())
        && WellRevoked(res.keysRevoked, res.keysRevoked, old(Now()), old(store.log) + meanwhile, req.subject)
        && AllOwn(keys, old(Now()), old(store.log) + meanwhile, req.subject) && (keys != {} ==> vault.revocable)
        && old(LateKeys(req, meanwhile + concurrent)) == if ByResolver(req) then resolver.FoundIn(Now(), store.log, req.subject).keyIds - keys else {}
    {
      hide Attribute, ExclusiveKey, ScanFootprint, IndexFootprint, SharedKeys, FewerKeys, Now, Tagger, Guarded, Scope, LateKeys, NamesSources, Without;
      LateKeysAre(req, meanwhile + concurrent);
      assert store.log + (meanwhile + concurrent) == store.log + meanwhile + concurrent;
      ValidPrefix(store.log + (meanwhile + concurrent), store.log + meanwhile, concurrent);
      err, keys := Shred(req, meanwhile, res);
      if err.Some? { return; }
      store.log := store.log + concurrent;
    }

    /** From the second resolve on. `before`, `states` and `log` are the configuration, the key states and
        the log the erasure began with, `guarded` the log as the first keys were revoked. */
    method Conclude(req: Request, keys: set<string>, res: ErasureResult, ghost scope: Discovery, ghost late: set<string>, ghost covered: bool,
                    ghost before: Store, ghost states: map<string, RevocationState>, ghost log: seq<StoredEvent>, ghost guarded: seq<StoredEvent>)
      returns (err: Option<Error>, verified: bool, ghost evidence: Evidence)
      requires Valid() && req.subject != "" && res.subjectStores == [] && !res.markerWritten && !res.subjectIndexPurged && res.residualReadModels == 0
      requires res.Discovered(keys) == scope
      requires res.keysRevoked == keys - vault.refuses && res.keysFailed == keys * vault.refuses && res.errors == |keys * vault.refuses|
      requires Now() == Without(before, res.keysRevoked) && vault.Landed(states, res.keysRevoked) && FewerKeys(before, Now())
      requires WellRevoked(res.keysRevoked, res.keysRevoked, before, guarded, req.subject)
      requires AllOwn(keys, before, guarded, req.subject) && (keys != {} ==> vault.revocable)
      requires late == if ByResolver(req) then resolver.FoundIn(Now(), store.log, req.subject).keyIds - keys else {}
      requires forall e :: e in log ==> e in store.log
      requires ByResolver(req) && resolver.index == null ==> covered && scope.partial == !AllAttributed(before, Tagger(), log)
      requires covered ==> scope.attributed == RefsOf(Mine(before, Tagger(), log, req.subject)) && scope.streams == StreamsOf(Mine(before, Tagger(), log, req.subject))
      modifies vault, indexPurger, res
      ensures err == Accountability()
      ensures ScopeErased(req, scope, late, res, before, guarded)
      ensures Certified(req, res, verified, evidence, covered, before, log)
      ensures PurgedExactly(req.subject, res, verified, old(Indexed()))
      ensures Now() == Without(before, res.keysRevoked) && vault.Landed(states, res.keysRevoked)
    {
      hide Attribute, ExclusiveKey, ReportOn, Verified, ScanFootprint, IndexFootprint, Mine, OnStreams, AllAttributed, FewerKeys,
           RefsOf, StreamsOf, CheckFor, Now, Tagger, Guarded, Attested, EvidenceOf, Complete, Attesting, PurgedExactly, Accountability, Propagated,
           Judged, LateHandled, PropagationErrors, Certified, ScopeErased, Without, WellRevoked, AllOwn, KeyVault.Landed, KeyVault.State, KeyVault.Landing, KeyVault.StateIn;
      ghost var first, between := res.keysRevoked, vault.states;
      LandedMeans(states, first);
      err, verified, evidence := Finish(req, keys, res, before, guarded);
      GoneInTwoSteps(before, first, res.keysRevoked);
      assert first + (res.keysRevoked - first) == res.keysRevoked;
      vault.LandedTwice(states, between, first, res.keysRevoked - first);
      ScopeSettled(req, scope, late, res, before, guarded);
      SettleVerdict(req, res, verified, evidence, covered, before, log);
    }

    /** Crypto-shreds a data subject. Others may append `meanwhile` between discovery and the first
        revocation, and `concurrent` between that and its reconciliation; with the subject's writes
        quiesced there is nothing. An error without a result leaves keys and index as they were. */
    method Erase(req: Request, meanwhile: seq<StoredEvent>, concurrent: seq<StoredEvent>)
      returns (err: Option<Error>, result: ErasureResult?, verified: bool, ghost evidence: Evidence)
      requires Valid() && ValidLog(store.log + (meanwhile + concurrent))
      modifies vault, store`log, indexPurger
      ensures result == null ==> err.Some? && !verified && vault.states == old(vault.states) && Indexed() == old(Indexed())
      ensures result == null ==> store.log == old(store.log) || store.log == old(store.log) + meanwhile
      ensures result == null ==> match err.value
                                 case SubjectRequired => req.subject == ""
                                 case NotConfigured => codec.encryption.None?
                                 case NoSources => !ByResolver(req) && !NamesSources(req)
                                 case LoadFailed => !store.Healthy()
                                 case SharedKeyRefused(shared) => sharedKeyGuard && !allowSharedKey && shared != {} && shared == SharedKeys(old(Now()), Tagger(), store.log, req.subject, old(Scope(req)).keys)
                                 case RevocationUnsupported => !vault.revocable && old(Scope(req)).keys != {}
                                 case _ => false
      ensures result != null ==>
        && fresh(result) && store.log == old(store.log) + (meanwhile + concurrent) && err == Accountability()
        && req.subject != "" && codec.encryption.Some? && (ByResolver(req) || NamesSources(req))
        && ScopeErased(req, old(Scope(req)), old(LateKeys(req, meanwhile + concurrent)), result, old(Now()), old(store.log) + meanwhile)
        && Certified(req, result, verified, evidence, old(Covered(req)), old(Now()), old(store.log))
        && PurgedExactly(req.subject, result, verified, old(Indexed()))
      // The guard: no reader of an event that is not the target's alone notices anything.
      ensures result != null ==> Now() == Without(old(Now()), result.keysRevoked) && vault.Landed(old(vault.states), result.keysRevoked)
      ensures result != null && sharedKeyGuard && !allowSharedKey ==> Spares(req.subject, old(Now()), old(store.log) + meanwhile)
      ensures result != null && sharedKeyGuard && !allowSharedKey ==> TheirsAlone(req.subject, result.keysRevoked, old(Now()), old(store.log) + meanwhile)
      // With the subject's writes quiesced nothing but the scope is ever revoked.
      ensures result != null && meanwhile + concurrent == [] ==>
        var scope := old(Scope(req));
        result.keysRevoked == scope.keys - vault.refuses && result.keysFailed == scope.keys * vault.refuses && result.partial == scope.partial
    {
      hide Attribute, ExclusiveKey, ReportOn, Verified, ScanFootprint, IndexFootprint, AllAttributed, SharedKeys, Now, Tagger, Guarded, Scope,
           NamesSources, ByResolver, Certified, ScopeErased, PurgedExactly, Accountability, LateKeys, Spares, TheirsAlone, Without, KeyVault.Landed, FewerKeys, WellRevoked, AllOwn, Covered, Mine, RefsOf, StreamsOf;
      err, result, verified := None, null, false;
      evidence := Evidence(Report(0, 0, {}, {}, {}, {}, {}, true), false, [], {}, {}, {}, true, 0);
      if req.subject == "" { return Some(SubjectRequired), null, false, evidence; }
      if codec.encryption.None? { return Some(NotConfigured), null, false, evidence; }
      ghost var scope, late, covered := Scope(req), LateKeys(req, meanwhile + concurrent), Covered(req);
      ghost var before, states, log := Now(), vault.states, store.log;
      QuiescedAddsNothing(req);
      KeysAreNamed(req, meanwhile + concurrent);
      ScopeMeans(req);
      var res := new ErasureResult();
      var keys;
      err, keys := Begin(req, meanwhile, concurrent, res);
      if err.Some? { return; }
      result := res;
      err, verified, evidence := Conclude(req, keys, res, scope, late, covered, before, states, log, log + meanwhile);
      ErasureMeans(req, scope, late, res, before, log + meanwhile);
    }

    /** One erasure with the subject's writes quiesced, in short. */
    method EraseQuiesced(req: Request) returns (result: ErasureResult?)
      requires Valid() && ByResolver(req) && req.subject != "" && codec.encryption.Some?
      modifies vault, store`log, indexPurger
      ensures Valid() && store.log == old(store.log)
      ensures ListedNow(req.subject) <= old(ListedNow(req.subject))
      ensures result == null ==> vault.states == old(vault.states)
      ensures result == null && store.Healthy() ==>
                (Guarded() && SharedKeys(old(Now()), Tagger(), store.log, req.subject, old(Scope(req)).keys) != {}) || (old(Scope(req)).keys != {} && !vault.revocable)
      ensures result != null ==>
        var keys := old(Scope(req)).keys;
        && result.keysRevoked == keys - vault.refuses && (keys != {} ==> vault.revocable)
        && Now() == Without(old(Now()), keys - vault.refuses) && vault.Landed(old(vault.states), keys - vault.refuses)
        && AllOwn(keys, old(Now()), store.log, req.subject)
    {
      hide Attribute, ExclusiveKey, ScanFootprint, IndexFootprint, SharedKeys, Now, Tagger, Guarded, Scope, Certified, Accountability, LateKeys, Spares, TheirsAlone, Without,
           KeyVault.Landed, KeyVault.Landing, KeyVault.State, KeyVault.StateIn, FewerKeys, WellRevoked, AllOwn, Covered, ProtectsUntagged, LateHandled,
           Propagated, PropagationErrors, Complete, PurgedExactly, ScopeErased;
      var none: seq<StoredEvent> := [];
      assert none + none == none && store.log + none == store.log;
      GuardedMeans();
      ghost var indexed, listed := Indexed(), ListedNow(req.subject);
      var err, verified;
      ghost var evidence;
      err, result, verified, evidence := Erase(req, none, none);
      if result != null {
        ScopeErasedMeans(req, old(Scope(req)), old(LateKeys(req, none + none)), result, old(Now()), old(store.log) + none);
        PurgeMeans(req.subject, result, verified, indexed);
      }
      PurgeOnlyShrinks(req, indexed, listed);
    }

    lemma PurgeMeans(subject: string, res: ErasureResult, verified: bool, indexed: map<string, set<string>>)
      requires PurgedExactly(subject, res, verified, indexed)
      ensures Indexed() == indexed || Indexed() == indexed - {subject}
    {
    }

    lemma ScopeErasedMeans(req: Request, scope: Discovery, late: set<string>, res: ErasureResult, before: Store, log: seq<StoredEvent>)
      requires ScopeErased(req, scope, late, res, before, log)
      ensures AllOwn(scope.keys, before, log, req.subject) && (scope.keys != {} ==> vault.revocable)
    {
    }

    /** Erases a subject again, with its writes quiesced. The second time no new key is found and no key
        changes. With a store that can be read it is refused exactly when the guard is on and one of the
        keys it finds protects an event that carries no tags, and so can no longer be attributed. */
    method EraseTwice(req: Request) returns (first: ErasureResult?, second: ErasureResult?, ghost again: set<string>)
      requires Valid() && ByResolver(req) && req.subject != "" && codec.encryption.Some?
      modifies vault, store`log, indexPurger
      ensures first == null ==> second == null && vault.states == old(vault.states)
      ensures first != null ==> again <= old(Scope(req)).keys && vault.Landed(old(vault.states), first.keysRevoked)
      ensures first != null && second != null ==> second.keysRevoked == again - vault.refuses && second.keysRevoked <= first.keysRevoked
      ensures first != null && store.Healthy() ==>
                (second == null <==> Guarded() && exists k :: k in again && k !in vault.refuses && ProtectsUntagged(store.log, k))
    {
      hide Attribute, ExclusiveKey, ScanFootprint, IndexFootprint, SharedKeys, Now, Tagger, Guarded, Scope, Without,
           KeyVault.Landed, KeyVault.Landing, KeyVault.State, KeyVault.StateIn, AllOwn, ProtectsUntagged;
      second, again := null, {};
      ghost var before, states, scope, log := Now(), vault.states, Scope(req).keys, store.log;
      ghost var listed := ListedNow(req.subject);
      ScopeIsFound(req);
      first := EraseQuiesced(req);
      if first == null { return; }
      ghost var gone, now, between := first.keysRevoked, Now(), vault.states;
      again := Scope(req).keys;
      RescopingShrinks(req, before, gone, listed);
      LandedMeans(states, gone);
      RerunShares(req, scope, again, gone, before, log);
      second := EraseQuiesced(req);
      if second != null {
        assert gone + second.keysRevoked == gone;
        vault.LandedTwice(states, between, gone, second.keysRevoked);
        if Guarded() { OwnAreNotShared(req, again, now, log); }
      } else {
        LandedStays(states, between, gone);
      }
    }

    /** What the resolver's index lists for the subject. */
    function ListedNow(subject: string): set<string>
      reads resolver, if resolver != null then {resolver.index} else {}
    {
      if resolver == null || resolver.index == null then {} else resolver.index.StreamsBySubject(subject)
    }

    /** An erasure lists no stream more than before. */
    lemma PurgeOnlyShrinks(req: Request, indexed: map<string, set<string>>, listed: set<string>)
      requires Indexed() == indexed || Indexed() == indexed - {req.subject}
      requires if indexPurger != null && resolver != null && resolver.index == indexPurger then listed == ListedFor(indexed, req.subject) else ListedNow(req.subject) == listed
      ensures ListedNow(req.subject) <= listed
    {
    }

    /** The keys a resolve finds. */
    ghost function KeysFound(x: Store, log: seq<StoredEvent>, listed: set<string>, subject: string): set<string>
      requires resolver != null
    {
      if resolver.index == null then ScanFootprint(x, resolver.tagger, log, subject).keyIds
      else IndexFootprint(x, resolver.tagger, log, subject, listed, resolver.authoritative).keyIds
    }

    lemma ScopeIsFound(req: Request)
      requires Valid() && ByResolver(req)
      ensures Scope(req).keys == KeysFound(Now(), store.log, ListedNow(req.subject), req.subject)
    {
      hide ScanFootprint, IndexFootprint;
    }

    lemma RescopingShrinks(req: Request, before: Store, gone: set<string>, listed: set<string>)
      requires Valid() && ByResolver(req) && Now() == Without(before, gone) && ListedNow(req.subject) <= listed
      ensures Scope(req).keys <= KeysFound(before, store.log, listed, req.subject)
    {
      hide Attribute, Without, FewerKeys, ScanFootprint, IndexFootprint, Now;
      WithoutHasFewer(before, gone);
      ScopeIsFound(req);
      RevocationAddsNoKeys(before, Now(), Tagger(), store.log, req.subject, listed, ListedNow(req.subject), resolver.authoritative);
    }

    lemma RerunShares(req: Request, scope: set<string>, again: set<string>, gone: set<string>, before: Store, log: seq<StoredEvent>)
      requires AllOwn(scope, before, log, req.subject) && again <= scope && gone == scope - vault.refuses
      ensures Guarded() ==>
                (SharedKeys(Without(before, gone), Tagger(), log, req.subject, again) != {} <==>
                 exists k :: k in again && k !in vault.refuses && ProtectsUntagged(log, k))
      ensures again != {} ==> scope != {}
    {
      hide Attribute, ExclusiveKey, SharedKeys, Without, ProtectsUntagged;
      if Guarded() {
        RerunIsRefusedExactlyWhen(before, gone, Tagger(), log, req.subject, again);
        var shared := SharedKeys(Without(before, gone), Tagger(), log, req.subject, again);
        if k :| k in again && k !in vault.refuses && ProtectsUntagged(log, k) { assert k in shared; }
        if k :| k in shared { assert k in again && k !in vault.refuses && ProtectsUntagged(log, k); }
      }
      if k :| k in again { assert k in scope; }
    }

    lemma OwnAreNotShared(req: Request, keys: set<string>, x: Store, log: seq<StoredEvent>)
      requires Guarded() && AllOwn(keys, x, log, req.subject)
      ensures SharedKeys(x, Tagger(), log, req.subject, keys) == {}
    {
      hide ExclusiveKey;
    }

    lemma LandedStays(before: map<string, RevocationState>, between: map<string, RevocationState>, gone: set<string>)
      requires vault.states == between
      requires forall k :: vault.StateIn(between, k) == if k in gone then vault.Landing(k, vault.StateIn(before, k)) else vault.StateIn(before, k)
      ensures vault.Landed(before, gone)
    {
    }
  }

  ghost function Accepted<T>(done: set<T>, refuses: set<T>): set<T> {
    done - refuses
  }

  ghost function Refused<T>(done: set<T>, refuses: set<T>): set<T> {
    done * refuses
  }

  ghost predicate SplitInto<T>(done: set<T>, todo: set<T>, keys: set<T>) {
    done + todo == keys && done !! todo
  }

  lemma NothingDone<T>(keys: set<T>, refuses: set<T>)
    ensures SplitInto({}, keys, keys) && Accepted({}, refuses) == {} && Refused({}, refuses) == {}
  {
  }

  lemma AllDone<T>(done: set<T>, keys: set<T>, refuses: set<T>)
    requires SplitInto(done, {}, keys)
    ensures done == keys && Accepted(keys, refuses) == keys - refuses && Refused(keys, refuses) == keys * refuses
  {
    assert done + {} == done;
  }

  lemma OneMoreDone<T>(done: set<T>, todo: set<T>, keys: set<T>, k: T, refuses: set<T>, gone: set<T>, kept: set<T>)
    requires SplitInto(done, todo, keys) && k in todo
    ensures k !in done && SplitInto(done + {k}, todo - {k}, keys)
    ensures gone + Accepted(done + {k}, refuses) == gone + Accepted(done, refuses) + (if k in refuses then {} else {k})
    ensures kept + Refused(done + {k}, refuses) == kept + Refused(done, refuses) + (if k in refuses then {k} else {})
    ensures |Refused(done + {k}, refuses)| == |Refused(done, refuses)| + (if k in refuses then 1 else 0)
  {
    assert Refused(done + {k}, refuses) == Refused(done, refuses) + (if k in refuses then {k} else {});
  }

  lemma ChosenStep(chosen: set<StoredEvent>, e: StoredEvent)
    ensures StreamsOf(chosen + {e}) == StreamsOf(chosen) + {e.streamId}
    ensures KeysOf(chosen + {e}) == KeysOf(chosen) + (if HasEncryptionEnvelope(e.meta) then {e.meta.keyId} else {})
    ensures RefsOf(chosen + {e}) == RefsOf(chosen) + {RefOf(e)}
  {
  }

  lemma NoneGone(x: Store)
    ensures FewerKeys(x, x) && Without(x, {}) == x
  {
    if x.encryption.Some? && x.encryption.value.provider.Some? {
      var unusable := x.encryption.value.provider.value.unusable;
      assert unusable + {} == unusable;
    }
  }

  lemma GoneInTwoSteps(x: Store, first: set<string>, all: set<string>)
    requires first <= all
    ensures Without(Without(x, first), all - first) == Without(x, all)
  {
    if x.encryption.Some? && x.encryption.value.provider.Some? {
      var unusable := x.encryption.value.provider.value.unusable;
      assert unusable + first + (all - first) == unusable + all;
    }
  }

  /** A key found exclusive once some keys are gone was exclusive before: attributions only get lost. */
  lemma ExclusiveBefore(before: Store, after: Store, tagger: Option<Tagger>, log: seq<StoredEvent>, target: string, key: string)
    requires FewerKeys(before, after) && ExclusiveKey(after, tagger, log, target, key)
    ensures ExclusiveKey(before, tagger, log, target, key)
  {
    hide Attribute;
    forall e | e in log && Under(e, key)
      ensures NamesOnly(Attribute(before, tagger, e), target)
    {
      RevocationOnlyHides(before, after, tagger, e);
      assert target in Attribute(after, tagger, e).subjects;
    }
  }

  lemma ScanFootprintMeans(x: Store, tagger: Option<Tagger>, log: seq<StoredEvent>, s: string)
    ensures var fp := ScanFootprint(x, tagger, log, s);
            && fp.streams == StreamsOf(Mine(x, tagger, log, s)) && fp.keyIds == KeysOf(Mine(x, tagger, log, s))
            && fp.partial == !AllAttributed(x, tagger, log)
  {
  }

  lemma NothingMatches(x: Store, tagger: Option<Tagger>, req: Request)
    ensures KeysOf(MatchingIn(req, [])) == {} && StreamsOf(MatchingIn(req, [])) == {} && RefsOf(MatchingOf(x, tagger, req, [])) == {}
  {
    assert MatchingIn(req, []) == {} && MatchingOf(x, tagger, req, []) == {};
  }

  lemma NothingSelected(selected: set<StoredEvent>)
    ensures StreamsOf(selected) == {} <==> selected == {}
  {
    if e :| e in selected { assert e.streamId in StreamsOf(selected); }
  }

  lemma MatchingStep(x: Store, tagger: Option<Tagger>, req: Request, events: seq<StoredEvent>, e: StoredEvent)
    ensures MatchingIn(req, events + [e]) == if Matches(req, e) then MatchingIn(req, events) + {e} else MatchingIn(req, events)
    ensures MatchingOf(x, tagger, req, events + [e])
         == if Matches(req, e) && req.subject in Attribute(x, tagger, e).subjects then MatchingOf(x, tagger, req, events) + {e} else MatchingOf(x, tagger, req, events)
  {
    hide Attribute, Matches;
  }

  lemma AllExclusive(x: Store, tagger: Option<Tagger>, log: seq<StoredEvent>, target: string, keys: set<string>)
    requires SharedKeys(x, tagger, log, target, keys) == {}
    ensures forall k :: k in keys ==> ExclusiveKey(x, tagger, log, target, k)
  {
    forall k | k in keys
      ensures ExclusiveKey(x, tagger, log, target, k)
    {
      assert k !in SharedKeys(x, tagger, log, target, keys);
    }
  }

  lemma NothingShared(x: Store, tagger: Option<Tagger>, target: string, keys: set<string>)
    ensures SharedKeys(x, tagger, [], target, keys) == {}
  {
  }

  lemma EventSetStep(done: set<StoredEvent>, stored: seq<StoredEvent>, i: nat)
    requires i < |stored| && stored[i] !in stored[..i] && stored[i] !in done
    ensures done + EventSet(stored[..i]) + {stored[i]} == done + EventSet(stored[..i + 1])
    ensures stored[i] !in done + EventSet(stored[..i])
  {
    assert stored[..i + 1] == stored[..i] + [stored[i]];
  }

  lemma NothingReported(c: Check, partial: bool)
    ensures ReportOn(c, {}, partial) == Report(0, 0, {}, {}, {}, {}, {}, partial)
  {
    assert OwnedEvents(c, {}) == {} && ShreddedOwned(c, {}) == {} && NobodysEvents(c, {}, false) == {};
  }

  lemma OneMoreStream(log: seq<StoredEvent>, done: set<string>, stream: string)
    requires ValidLog(log) && stream !in done
    ensures ValidLog(OnStream(log, stream))
    ensures forall e :: e in OnStream(log, stream) ==> e !in OnStreams(log, done)
    ensures OnStreams(log, done) + EventSet(OnStream(log, stream)) == OnStreams(log, done + {stream})
  {
    OnStreamMembers(log, stream);
  }
}
