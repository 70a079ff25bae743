/** Whose event is it: the one attribution rule, and a data subject's footprint in the log. */
module SubjectSpec {
  import opened Events
  import opened FieldEncryption
  import opened SubjectTags
  import opened EventCodec
  import Sealing
  import FieldPaths

  datatype Attribution = Attribution(subjects: seq<string>, undecryptable: bool)
  {
    predicate Attributed() {
      subjects != []
    }

    predicate To(s: string) {
      s in subjects
    }

    predicate ToOther(s: string)
      ensures ToOther(s) <==> exists t :: t in subjects && t != s
    {
      assert forall i :: 0 <= i < |subjects| ==> subjects[i] in subjects;
      exists i | 0 <= i < |subjects| :: subjects[i] != s
    }
  }

  /** The payload and metadata as a tagger expects them: decrypted, the envelope stripped. */
  function TaggerPlaintext(x: Store, e: StoredEvent): Option<(Json, Metadata)> {
    if !IsEncrypted(e.meta) then Some((e.data, e.meta))
    else if x.encryption.None? then None
    else
      match DecryptStoredEvent(x, e)
      case Err(_) => None
      case Ok(d) => if IsEncrypted(d.meta) then None else Some((d.data, d.meta))
  }

  /** Persisted tags win; an untagged event is attributed by the tagger from its plaintext, and one
      that cannot be decrypted is attributed to nobody. Without a tagger of its own the caller
      uses the store's. */
  function Attribute(x: Store, tagger: Option<Tagger>, e: StoredEvent): Attribution {
    var t := if tagger.Some? then tagger else x.tagger;
    if TagsOf(e.meta) != [] then Attribution(TagsOf(e.meta), false)
    else if t.None? then Attribution([], false)
    else
      match TaggerPlaintext(x, e)
      case None => Attribution([], true)
      case Some((data, m)) => Attribution(Clean(t.value(e.eventType, data, m)), false)
  }

  /** An appended event belongs to those the tagger named, for every later reader, whatever has become
      of the keys and whatever tags its caller supplied. */
  lemma AppendedIsAttributed(x: Store, reader: Store, tagger: Option<Tagger>, e: StoredEvent, data: Json, m: Metadata, trusted: bool, dek: nat, id: string)
    requires Prepare(x, e.streamId, e.eventType, data, m, trusted, dek) == Success((e.data, e.meta))
    requires x.tagger.Some? && !x.callerSubjectTags
    requires id != "" && id in x.tagger.value(e.eventType, data, Shown(x, e.eventType, m, trusted))
    ensures forall s :: s in Attribute(reader, tagger, e).subjects <==> s != "" && s in x.tagger.value(e.eventType, data, Shown(x, e.eventType, m, trusted))
  {
    hide Prepare, Shown;
    StoredTagsAre(x, e.streamId, e.eventType, data, m, trusted, dek);
    assert id in TagsOf(e.meta);
  }

  /** An untagged event is attributed as an append would have attributed it: while its key is usable,
      sealed or not, by what the tagger makes of the payload and the metadata it was sealed with. */
  lemma SealedIsAttributedAsPlaintext(x: Store, tagger: Option<Tagger>, e: StoredEvent, data: Json, m: Metadata, dek: nat)
    requires x.encryption.Some? && m == SanitizeReservedMetadata(m) && CanRead(x, e.meta)
    requires Encrypt(x.encryption.value, e.streamId, e.eventType, data, m, dek) == Ok((e.data, e.meta))
    ensures Attribute(x, tagger, e) == Attribute(x, tagger, e.(data := data, meta := m)) && !Attribute(x, tagger, e).undecryptable
    ensures var t := if tagger.Some? then tagger else x.tagger;
            TagsOf(m) == [] && t.Some? ==> forall s :: s in Attribute(x, tagger, e).subjects <==> s != "" && s in t.value(e.eventType, data, m)
  {
    hide Encrypt, Decrypt, Clean;
    var o := x.encryption.value;
    EncryptKeepsTheRest(o, e.streamId, e.eventType, data, m, dek);
    DecryptUndoesEncrypt(o, e, data, m, dek);
    if IsEncrypted(e.meta) {
      EncryptionShows(o, e.streamId, e.eventType, data, m, dek);
      assert SanitizeReservedMetadata(e.meta) == m;
    } else {
      UnsealedIsUnchanged(o, e, data, m, dek);
    }
    var t := if tagger.Some? then tagger else x.tagger;
    if t.Some? { CleanMeans(t.value(e.eventType, data, m)); }
  }

  // ---- Footprints ----

  datatype Footprint = Footprint(
    streams: set<string>,
    counts: map<string, nat>,
    eventCount: nat,
    keyIds: set<string>,
    cleartext: nat,
    sharedStreams: set<string>,
    partial: bool)

  ghost function EventSet(events: seq<StoredEvent>): set<StoredEvent> {
    set e | e in events
  }

  ghost function StreamsOf(events: set<StoredEvent>): set<string> {
    set e | e in events :: e.streamId
  }

  ghost function KeysOf(events: set<StoredEvent>): set<string> {
    set e | e in events && HasEncryptionEnvelope(e.meta) :: e.meta.keyId
  }

  ghost function OnOneStream(events: set<StoredEvent>, stream: string): set<StoredEvent> {
    set e | e in events && e.streamId == stream
  }

  ghost function Cleartext(events: set<StoredEvent>): set<StoredEvent> {
    set e | e in events && !HasEncryptionEnvelope(e.meta)
  }

  ghost function CountsOf(events: set<StoredEvent>): map<string, nat> {
    map stream | stream in StreamsOf(events) :: |OnOneStream(events, stream)|
  }

  /** The footprint that consists of exactly these events. */
  ghost function FootprintOf(events: set<StoredEvent>, shared: set<string>, partial: bool): Footprint {
    Footprint(StreamsOf(events), CountsOf(events), |events|, KeysOf(events), |Cleartext(events)|, shared, partial)
  }

  /** The subject's events in the log. */
  ghost function Mine(x: Store, tagger: Option<Tagger>, log: seq<StoredEvent>, s: string): set<StoredEvent> {
    set e | e in log && s in Attribute(x, tagger, e).subjects
  }

  ghost predicate SharedIn(x: Store, tagger: Option<Tagger>, log: seq<StoredEvent>, s: string, stream: string) {
    exists e, t :: e in log && e.streamId == stream && t in Attribute(x, tagger, e).subjects && t != s
  }

  /** The subject's events on some streams. */
  ghost function MineOn(x: Store, tagger: Option<Tagger>, log: seq<StoredEvent>, s: string, streams: set<string>): set<StoredEvent> {
    set e | e in Mine(x, tagger, log, s) && e.streamId in streams
  }

  ghost function SharedOf(x: Store, tagger: Option<Tagger>, log: seq<StoredEvent>, s: string, events: set<StoredEvent>): set<string> {
    set stream | stream in StreamsOf(events) && SharedIn(x, tagger, log, s, stream)
  }

  ghost function Shared(x: Store, tagger: Option<Tagger>, log: seq<StoredEvent>, s: string): set<string> {
    SharedOf(x, tagger, log, s, Mine(x, tagger, log, s))
  }

  ghost predicate AllAttributed(x: Store, tagger: Option<Tagger>, log: seq<StoredEvent>) {
    forall e :: e in log ==> Attribute(x, tagger, e).subjects != []
  }

  /** What a scan of the whole log finds. */
  ghost function ScanFootprint(x: Store, tagger: Option<Tagger>, log: seq<StoredEvent>, s: string): Footprint {
    FootprintOf(Mine(x, tagger, log, s), Shared(x, tagger, log, s), !AllAttributed(x, tagger, log))
  }

  lemma RecordSets(events: set<StoredEvent>, e: StoredEvent)
    requires e !in events
    ensures var after := events + {e};
            && StreamsOf(after) == StreamsOf(events) + {e.streamId}
            && |after| == |events| + 1
            && KeysOf(after) == KeysOf(events) + (if HasEncryptionEnvelope(e.meta) then {e.meta.keyId} else {})
            && |Cleartext(after)| == |Cleartext(events)| + (if HasEncryptionEnvelope(e.meta) then 0 else 1)
  {
    assert Cleartext(events + {e}) == if HasEncryptionEnvelope(e.meta) then Cleartext(events) else Cleartext(events) + {e};
  }

  lemma RecordOnStream(events: set<StoredEvent>, e: StoredEvent, stream: string)
    requires e !in events
    ensures |OnOneStream(events + {e}, stream)| == |OnOneStream(events, stream)| + (if stream == e.streamId then 1 else 0)
    ensures stream !in StreamsOf(events) ==> |OnOneStream(events, stream)| == 0
  {
    assert OnOneStream(events + {e}, stream) == if stream == e.streamId then OnOneStream(events, stream) + {e} else OnOneStream(events, stream);
    if stream !in StreamsOf(events) { assert OnOneStream(events, stream) == {}; }
  }

  lemma RecordCounts(events: set<StoredEvent>, e: StoredEvent)
    requires e !in events
    ensures var before := CountsOf(events);
            CountsOf(events + {e}) == before[e.streamId := if e.streamId in before then before[e.streamId] + 1 else 1]
  {
    hide OnOneStream;
    assert StreamsOf(events + {e}) == StreamsOf(events) + {e.streamId};
    forall stream
      ensures |OnOneStream(events + {e}, stream)| == |OnOneStream(events, stream)| + (if stream == e.streamId then 1 else 0)
      ensures stream !in StreamsOf(events) ==> |OnOneStream(events, stream)| == 0
    {
      RecordOnStream(events, e, stream);
    }
  }

  // ---- Attribution only ever shrinks as keys go ----

  /** `after` is the same store with fewer usable keys. */
  ghost predicate FewerKeys(before: Store, after: Store) {
    && after == before.(encryption := after.encryption)
    && (before.encryption.Some? <==> after.encryption.Some?)
    && (before.encryption.Some? ==>
          var o, o' := before.encryption.value, after.encryption.value;
          && o' == o.(provider := o'.provider)
          && (o.provider.Some? <==> o'.provider.Some?)
          && (o.provider.Some? ==> o.provider.value.unusable <= o'.provider.value.unusable))
  }

  /** The same store once some keys are gone. */
  function Without(x: Store, gone: set<string>): Store {
    if x.encryption.Some? && x.encryption.value.provider.Some? then
      var o := x.encryption.value;
      x.(encryption := Some(o.(provider := Some(Provider(o.provider.value.unusable + gone)))))
    else x
  }

  /** Revoking keys can only take attributions away: what is attributed afterwards was attributed
      before, to the same subjects. */
  lemma RevocationOnlyHides(before: Store, after: Store, tagger: Option<Tagger>, e: StoredEvent)
    requires FewerKeys(before, after)
    ensures Attribute(after, tagger, e).Attributed() ==> Attribute(after, tagger, e) == Attribute(before, tagger, e)
  {
    hide Clean, Sealing.UnsealAll, FieldPaths.OrderByDepth;
    if TagsOf(e.meta) == [] && IsEncrypted(e.meta) && before.encryption.Some? {
      PlaintextOnlyHides(before, after, e);
    }
  }

  lemma PlaintextOnlyHides(before: Store, after: Store, e: StoredEvent)
    requires FewerKeys(before, after) && IsEncrypted(e.meta) && before.encryption.Some?
    ensures TaggerPlaintext(after, e).Some? ==> TaggerPlaintext(after, e) == TaggerPlaintext(before, e)
  {
    var o, o' := before.encryption.value, after.encryption.value;
    if o.provider.Some? && o'.provider.value.Unwraps(e.meta.keyId, e.meta.dek) {
      assert o.provider.value.Unwraps(e.meta.keyId, e.meta.dek);
    }
  }

  // ---- The index agrees with the scan ----

  function ListedFor(index: map<string, set<string>>, s: string): set<string> {
    if s in index then index[s] else {}
  }

  /** The index lists every stream that holds an event of the subject; it may list more. */
  ghost predicate Covers(index: map<string, set<string>>, x: Store, tagger: Option<Tagger>, log: seq<StoredEvent>, s: string) {
    StreamsOf(Mine(x, tagger, log, s)) <= ListedFor(index, s)
  }

  /** What an index-backed resolve finds: the subject's events on the listed streams. */
  ghost function IndexFootprint(x: Store, tagger: Option<Tagger>, log: seq<StoredEvent>, s: string, listed: set<string>, authoritative: bool): Footprint {
    var mine := MineOn(x, tagger, log, s, listed);
    FootprintOf(mine, SharedOf(x, tagger, log, s, mine), !authoritative)
  }

  /** With an index that covers the subject the two footprints agree in everything but `partial`. */
  lemma CoveringIndexAgreesWithScan(index: map<string, set<string>>, x: Store, tagger: Option<Tagger>, log: seq<StoredEvent>, s: string, authoritative: bool)
    requires Covers(index, x, tagger, log, s)
    ensures var listed := ListedFor(index, s);
            var scan := ScanFootprint(x, tagger, log, s);
            && IndexFootprint(x, tagger, log, s, listed, authoritative) == scan.(partial := !authoritative)
            && MineOn(x, tagger, log, s, listed) == Mine(x, tagger, log, s)
  {
    var listed := ListedFor(index, s);
    var mine := Mine(x, tagger, log, s);
    forall e | e in mine
      ensures e.streamId in listed
    {
      assert e.streamId in StreamsOf(mine);
    }
    assert MineOn(x, tagger, log, s, listed) == mine;
  }

  /** What a complete backfill leaves: under each subject what was there before and the streams of the
      subject's events, and nothing else. */
  ghost predicate Backfilled(before: map<string, set<string>>, index: map<string, set<string>>, x: Store, tagger: Option<Tagger>, log: seq<StoredEvent>) {
    forall s :: ListedFor(index, s) == ListedFor(before, s) + (if s == "" then {} else StreamsOf(Mine(x, tagger, log, s)))
  }

  /** So after a backfill with the resolver's own tagger, index and scan resolve alike, for every
      subject. */
  lemma BackfilledIndexAgreesWithScan(before: map<string, set<string>>, index: map<string, set<string>>, x: Store, tagger: Option<Tagger>,
                                      log: seq<StoredEvent>, s: string, authoritative: bool)
    requires Backfilled(before, index, x, tagger, log) && s != ""
    ensures var listed := ListedFor(index, s);
            var scan := ScanFootprint(x, tagger, log, s);
            IndexFootprint(x, tagger, log, s, listed, authoritative) == scan.(partial := !authoritative)
  {
    CoveringIndexAgreesWithScan(index, x, tagger, log, s, authoritative);
  }

  // ---- The backfill's report ----

  datatype BackfillReport = BackfillReport(scanned: nat, indexed: nat, untagged: nat, undecryptable: nat)

  function Tallied(x: Store, tagger: Option<Tagger>, events: seq<StoredEvent>): BackfillReport {
    if events == [] then BackfillReport(0, 0, 0, 0)
    else
      var r := Tallied(x, tagger, events[..|events| - 1]);
      var a := Attribute(x, tagger, events[|events| - 1]);
      BackfillReport(r.scanned + 1,
                     if a.Attributed() then r.indexed + 1 else r.indexed,
                     if a.Attributed() then r.untagged else r.untagged + 1,
                     if a.undecryptable then r.undecryptable + 1 else r.undecryptable)
  }

  lemma AllAttributedStep(x: Store, tagger: Option<Tagger>, events: seq<StoredEvent>, e: StoredEvent)
    ensures AllAttributed(x, tagger, events + [e]) <==> AllAttributed(x, tagger, events) && Attribute(x, tagger, e).Attributed()
  {
    hide Attribute;
    assert forall f :: f in events + [e] <==> f in events || f == e;
  }

  lemma UndecryptableIsNobodys(x: Store, tagger: Option<Tagger>, e: StoredEvent)
    ensures Attribute(x, tagger, e).undecryptable ==> !Attribute(x, tagger, e).Attributed()
  {
  }

  lemma TalliedLast(x: Store, tagger: Option<Tagger>, events: seq<StoredEvent>, e: StoredEvent)
    ensures var r, a := Tallied(x, tagger, events), Attribute(x, tagger, e);
            Tallied(x, tagger, events + [e])
            == BackfillReport(r.scanned + 1, if a.Attributed() then r.indexed + 1 else r.indexed,
                              if a.Attributed() then r.untagged else r.untagged + 1,
                              if a.undecryptable then r.undecryptable + 1 else r.undecryptable)
  {
    hide Attribute;
    assert (events + [e])[..|events|] == events;
  }

  lemma {:induction false} TallyMeans(x: Store, tagger: Option<Tagger>, events: seq<StoredEvent>)
    ensures var r := Tallied(x, tagger, events);
            && r.scanned == |events| == r.indexed + r.untagged && r.undecryptable <= r.untagged
            && (r.untagged == 0 <==> AllAttributed(x, tagger, events))
  {
    if events == [] {
      assert AllAttributed(x, tagger, events);
    } else {
      hide Attribute, AllAttributed, Tallied;
      var front, last := events[..|events| - 1], events[|events| - 1];
      TallyMeans(x, tagger, front);
      AllAttributedStep(x, tagger, front, last);
      TalliedLast(x, tagger, front, last);
      assert events == front + [last];
      UndecryptableIsNobodys(x, tagger, last);
    }
  }

  /** The report adds up, and it has untagged events exactly when a scan would be partial. */
  lemma ReportMeans(x: Store, tagger: Option<Tagger>, events: seq<StoredEvent>, s: string)
    ensures var r := Tallied(x, tagger, events);
            && r.scanned == |events| == r.indexed + r.untagged && r.undecryptable <= r.untagged
            && (r.untagged != 0 <==> ScanFootprint(x, tagger, events, s).partial)
  {
    hide Attribute, AllAttributed, Tallied, Mine, Shared, StreamsOf, CountsOf, KeysOf, Cleartext;
    TallyMeans(x, tagger, events);
  }
}
