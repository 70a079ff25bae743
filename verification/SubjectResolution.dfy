/** Resolving a data subject's footprint, by scan or through an index, and backfilling the index. */
module SubjectResolution {
  import opened Events
  import opened Stores
  import opened SubjectTags
  import opened EventCodec
  import opened SubjectSpec

  /** Events are remembered by stream and version. */
  type Ref = (string, nat)

  function RefOf(e: StoredEvent): Ref {
    (e.streamId, e.version)
  }

  ghost function RefsOf(events: set<StoredEvent>): set<Ref> {
    set e | e in events :: RefOf(e)
  }

  /** What a builder holds once exactly these events have been recorded. */
  ghost predicate Built(streamSet: set<string>, keySet: set<string>, counts: map<string, nat>, eventCount: nat, cleartext: nat,
                        matched: set<Ref>, events: set<StoredEvent>)
  {
    && streamSet == StreamsOf(events) && keySet == KeysOf(events) && counts == CountsOf(events)
    && eventCount == |events| && cleartext == |Cleartext(events)| && matched == RefsOf(events)
  }

  lemma NothingBuilt()
    ensures Built({}, {}, map[], 0, 0, {}, {})
  {
    assert StreamsOf({}) == {} && Cleartext({}) == {};
  }

  /** Recording one more event. */
  lemma RecordBuilds(streamSet: set<string>, keySet: set<string>, counts: map<string, nat>, eventCount: nat, cleartext: nat,
                     matched: set<Ref>, events: set<StoredEvent>, e: StoredEvent)
    requires Built(streamSet, keySet, counts, eventCount, cleartext, matched, events) && e !in events
    ensures Built(streamSet + {e.streamId},
                  if HasEncryptionEnvelope(e.meta) then keySet + {e.meta.keyId} else keySet,
                  counts[e.streamId := if e.streamId in counts then counts[e.streamId] + 1 else 1],
                  eventCount + 1,
                  if HasEncryptionEnvelope(e.meta) then cleartext else cleartext + 1,
                  matched + {RefOf(e)}, events + {e})
  {
    hide CountsOf, Cleartext, KeysOf, StreamsOf, HasEncryptionEnvelope;
    RecordSets(events, e);
    RecordCounts(events, e);
    assert RefsOf(events + {e}) == RefsOf(events) + {RefOf(e)};
  }

  class FootprintBuilder {
    var streamSet: set<string>
    var sharedSet: set<string>
    var keySet: set<string>
    var counts: map<string, nat>
    var eventCount: nat
    var cleartext: nat
    var partial: bool
    var matched: set<Ref>
    ghost var events: set<StoredEvent>   // everything recorded

    constructor ()
      ensures Valid() && events == {} && sharedSet == {} && !partial
    {
      streamSet, sharedSet, keySet, counts, eventCount, cleartext, partial := {}, {}, {}, map[], 0, 0, false;
      matched, events := {}, {};
      NothingBuilt();
    }

    ghost predicate Valid()
      reads this
    {
      Built(streamSet, keySet, counts, eventCount, cleartext, matched, events)
    }

    method Record(e: StoredEvent)
      requires Valid() && e !in events
      modifies this`streamSet, this`keySet, this`counts, this`eventCount, this`cleartext, this`matched, this`events
      ensures Valid() && events == old(events) + {e}
    {
      hide Built, HasEncryptionEnvelope;
      RecordBuilds(streamSet, keySet, counts, eventCount, cleartext, matched, events, e);
      matched := matched + {RefOf(e)};
      eventCount := eventCount + 1;
      counts := counts[e.streamId := if e.streamId in counts then counts[e.streamId] + 1 else 1];
      streamSet := streamSet + {e.streamId};
      if HasEncryptionEnvelope(e.meta) {
        keySet := keySet + {e.meta.keyId};
      } else {
        cleartext := cleartext + 1;
      }
      events := events + {e};
    }

    method Finalize() returns (fp: Footprint)
      requires Valid()
      ensures fp == FootprintOf(events, sharedSet, partial)
    {
      fp := Footprint(streamSet, counts, eventCount, keySet, cleartext, sharedSet, partial);
    }
  }

  class MemorySubjectIndex {
    var streams: map<string, set<string>>
    const unwritable: set<string>    // streams whose index writes fail
    const undeletable: set<string>   // subjects whose entries cannot be deleted

    constructor (unwritable: set<string>, undeletable: set<string>)
      ensures streams == map[] && this.unwritable == unwritable && this.undeletable == undeletable
    {
      streams, this.unwritable, this.undeletable := map[], unwritable, undeletable;
    }

    method IndexSubjects(streamId: string, subjects: seq<string>) returns (ok: bool)
      modifies this`streams
      ensures ok <==> streamId !in unwritable
      ensures !ok || streamId == "" ==> streams == old(streams)
      ensures forall s :: s in old(streams) ==> s in streams && old(streams[s]) <= streams[s]
      ensures ok && streamId != "" ==> forall s :: s in streams <==> s in old(streams) || (s in subjects && s != "")
      ensures ok && streamId != "" ==> forall s :: StreamsBySubject(s) == old(StreamsBySubject(s)) + (if s in subjects && s != "" then {streamId} else {})
    {
      if streamId in unwritable { return false; }
      ok := true;
      if streamId == "" || |subjects| == 0 { return; }
      for i := 0 to |subjects|
        invariant forall s :: s in old(streams) ==> s in streams && old(streams[s]) <= streams[s]
        invariant forall s :: s in streams <==> s in old(streams) || (s in subjects[..i] && s != "")
        invariant forall s :: StreamsBySubject(s) == old(StreamsBySubject(s)) + (if s in subjects[..i] && s != "" then {streamId} else {})
      {
        var s := subjects[i];
        assert subjects[..i + 1] == subjects[..i] + [s];
        if s != "" {
          streams := streams[s := (if s in streams then streams[s] else {}) + {streamId}];
        }
      }
      assert subjects[..|subjects|] == subjects;
    }

    function StreamsBySubject(s: string): set<string>
      reads this
    {
      ListedFor(streams, s)
    }

    method DeleteSubject(s: string) returns (ok: bool)
      modifies this`streams
      ensures ok <==> s !in undeletable
      ensures streams == if ok then old(streams) - {s} else old(streams)
    {
      ok := s !in undeletable;
      if ok { streams := streams - {s}; }
    }
  }

  class SubjectResolver {
    const store: EventStore
    const batchSize: nat
    const index: MemorySubjectIndex?
    const authoritative: bool
    const tagger: Option<Tagger>

    constructor (store: EventStore, batchSize: nat, index: MemorySubjectIndex?, authoritative: bool, tagger: Option<Tagger>)
      requires batchSize > 0
      ensures this.store == store && this.batchSize == batchSize && this.index == index
      ensures this.authoritative == authoritative && this.tagger == tagger
    {
      this.store, this.batchSize, this.index, this.authoritative, this.tagger := store, batchSize, index, authoritative, tagger;
    }

    /** The footprint a resolve of `s` finds while keys are as in `x`. */
    ghost function FoundIn(x: Store, log: seq<StoredEvent>, s: string): Footprint
      reads index
    {
      if index == null then ScanFootprint(x, tagger, log, s)
      else IndexFootprint(x, tagger, log, s, index.StreamsBySubject(s), authoritative)
    }

    ghost function Found(x: Store, s: string): Footprint
      reads store, index
    {
      FoundIn(x, store.log, s)
    }

    ghost function FoundEvents(x: Store, s: string): set<StoredEvent>
      reads store, index
    {
      if index == null then Mine(x, tagger, store.log, s) else MineOn(x, tagger, store.log, s, index.StreamsBySubject(s))
    }

    /** Read-only, and so also a preview of an erasure. An empty subject or a failing load is an error. */
    method Resolve(x: Store, s: string) returns (ok: bool, fp: Footprint, matched: set<Ref>)
      requires ValidLog(store.log) && batchSize > 0
      ensures !ok ==> s == "" || !store.Healthy()
      ensures ok ==> s != "" && fp == Found(x, s) && matched == RefsOf(FoundEvents(x, s))
    {
      fp, matched := Footprint({}, map[], 0, {}, 0, {}, true), {};
      if s == "" { return false, fp, matched; }
      if index != null {
        ok, fp, matched := ResolveByIndex(x, s);
      } else {
        ok, fp, matched := ResolveByScan(x, s);
      }
    }

    method ResolveByScan(x: Store, s: string) returns (ok: bool, fp: Footprint, matched: set<Ref>)
      requires ValidLog(store.log) && batchSize > 0
      ensures !ok ==> !store.Healthy()
      ensures ok ==> fp == ScanFootprint(x, tagger, store.log, s) && matched == RefsOf(Mine(x, tagger, store.log, s))
    {
      hide Attribute, Built, Mine, AllAttributed, Shared;
      fp, matched := Footprint({}, map[], 0, {}, 0, {}, true), {};
      var b := new FootprintBuilder();
      ok := ScanStore(x, s, b);
      if !ok { return; }
      ok := DetectSharedStreams(x, s, b);
      if !ok { return; }
      BuilderStreams(b);
      fp := b.Finalize();
      matched := b.matched;
    }

    /** Walks the whole store in batches. */
    method ScanStore(x: Store, s: string, b: FootprintBuilder) returns (ok: bool)
      requires ValidLog(store.log) && batchSize > 0 && b.Valid() && b.events == {} && !b.partial
      modifies b`streamSet, b`keySet, b`counts, b`eventCount, b`cleartext, b`matched, b`events, b`partial
      ensures !ok ==> !store.Healthy()
      ensures ok ==> b.Valid() && b.events == Mine(x, tagger, store.log, s) && (b.partial <==> !AllAttributed(x, tagger, store.log))
    {
      hide Attribute, Built, Mine, AllAttributed, LoadFrom;
      ok := true;
      var position, more := 0, true;
      ghost var seen: seq<StoredEvent> := [];
      AfterZero(store.log);
      NothingIsMine(x, tagger, s);
      while more
        invariant b.Valid()
        invariant seen + After(store.log, position) == store.log
        invariant b.events == Mine(x, tagger, seen, s)
        invariant b.partial <==> !AllAttributed(x, tagger, seen)
        invariant !more ==> After(store.log, position) == []
        decreases more, |After(store.log, position)|
      {
        var loaded, batch := store.LoadEventsFromPosition(position, batchSize);
        if !loaded { return false; }
        if |batch| == 0 {
          NothingLoaded(store.log, position, batchSize);
          more := false;
        } else {
          BatchLoaded(store.log, position, batchSize, seen, store.log);
          ValidPrefix(store.log, seen + batch, After(store.log, batch[|batch| - 1].position));
          AttributeBatch(x, s, batch, b, seen);
          seen := seen + batch;
          position := batch[|batch| - 1].position;
        }
      }
      assert seen == store.log;
    }

    /** Records the subject's events of a batch; one that nobody can be attributed makes the
        footprint partial. */
    method AttributeBatch(x: Store, s: string, batch: seq<StoredEvent>, b: FootprintBuilder, ghost seen: seq<StoredEvent>)
      requires b.Valid() && ValidLog(seen + batch)
      requires b.events == Mine(x, tagger, seen, s) && (b.partial <==> !AllAttributed(x, tagger, seen))
      modifies b`streamSet, b`keySet, b`counts, b`eventCount, b`cleartext, b`matched, b`events, b`partial
      ensures b.Valid()
      ensures b.events == Mine(x, tagger, seen + batch, s) && (b.partial <==> !AllAttributed(x, tagger, seen + batch))
    {
      hide Attribute, Built, Mine, AllAttributed;
      assert seen + batch[..0] == seen;
      for i := 0 to |batch|
        invariant b.Valid()
        invariant b.events == Mine(x, tagger, seen + batch[..i], s)
        invariant b.partial <==> !AllAttributed(x, tagger, seen + batch[..i])
      {
        var e := batch[i];
        var a := Attribute(x, tagger, e);
        NextIsNew(seen, batch, i);
        MineIsSeen(x, tagger, seen + batch[..i], s);
        MineStep(x, tagger, seen + batch[..i], e, s);
        assert seen + batch[..i] + [e] == seen + batch[..i + 1];
        if a.To(s) {
          b.Record(e);
        } else if !a.Attributed() {
          b.partial := true;
        }
      }
      assert batch[..|batch|] == batch;
    }

    /** Re-reads the footprint's streams and notes the ones another subject shares. */
    method DetectSharedStreams(x: Store, s: string, b: FootprintBuilder) returns (ok: bool)
      requires ValidLog(store.log) && b.sharedSet == {} && b.Valid() && b.events == Mine(x, tagger, store.log, s)
      modifies b`sharedSet
      ensures !ok ==> !store.Healthy()
      ensures ok ==> b.sharedSet == Shared(x, tagger, store.log, s)
    {
      hide Attribute, KeysOf, CountsOf, Cleartext;
      ok := true;
      var todo := b.streamSet;
      while todo != {}
        invariant todo <= b.streamSet
        invariant b.sharedSet == set stream | stream in b.streamSet - todo && SharedIn(x, tagger, store.log, s, stream)
      {
        var stream :| stream in todo;
        var loaded, stored := store.LoadRaw(stream);
        if !loaded { return false; }
        var shared := StreamSharedWithOthers(x, s, stored);
        StreamShared(x, tagger, store.log, s, stream);
        if shared { b.sharedSet := b.sharedSet + {stream}; }
        todo := todo - {stream};
      }
    }

    method StreamSharedWithOthers(x: Store, s: string, stored: seq<StoredEvent>) returns (shared: bool)
      ensures shared <==> exists e :: e in stored && Attribute(x, tagger, e).ToOther(s)
    {
      hide Attribute;
      for i := 0 to |stored|
        invariant forall j :: 0 <= j < i ==> !Attribute(x, tagger, stored[j]).ToOther(s)
      {
        if Attribute(x, tagger, stored[i]).ToOther(s) { return true; }
      }
      shared := false;
    }

    method ResolveByIndex(x: Store, s: string) returns (ok: bool, fp: Footprint, matched: set<Ref>)
      requires ValidLog(store.log) && index != null
      ensures !ok ==> !store.Healthy()
      ensures ok ==> fp == IndexFootprint(x, tagger, store.log, s, index.StreamsBySubject(s), authoritative)
      ensures ok ==> matched == RefsOf(MineOn(x, tagger, store.log, s, index.StreamsBySubject(s)))
    {
      hide Attribute, KeysOf, CountsOf, Cleartext;
      fp, matched, ok := Footprint({}, map[], 0, {}, 0, {}, true), {}, true;
      var b := new FootprintBuilder();
      var listed := index.StreamsBySubject(s);
      var todo := listed;
      while todo != {}
        invariant todo <= listed
        invariant b.Valid() && fresh(b)
        invariant b.events == MineOn(x, tagger, store.log, s, listed - todo)
        invariant b.sharedSet == SharedOf(x, tagger, store.log, s, b.events)
      {
        var stream :| stream in todo;
        var loaded, stored := store.LoadRaw(stream);
        if !loaded { return false, fp, matched; }
        CollectIndexedStream(x, s, stream, stored, b, listed - todo);
        todo := todo - {stream};
        assert listed - todo == listed - todo - {stream} + {stream};
      }
      assert listed - todo == listed;
      b.partial := !authoritative;
      fp := b.Finalize();
      matched := b.matched;
    }

    /** Handles one listed stream, which is in hand whole. It is shared only if it is also the
        subject's: the index may list a stream that is the subject's no longer. */
    method CollectIndexedStream(x: Store, s: string, stream: string, stored: seq<StoredEvent>, b: FootprintBuilder,
                                ghost done: set<string>)
      requires ValidLog(store.log) && stored == OnStream(store.log, stream) && b.Valid() && stream !in done
      requires b.events == MineOn(x, tagger, store.log, s, done) && b.sharedSet == SharedOf(x, tagger, store.log, s, b.events)
      modifies b`streamSet, b`keySet, b`counts, b`eventCount, b`cleartext, b`matched, b`events, b`sharedSet
      ensures b.Valid()
      ensures b.events == MineOn(x, tagger, store.log, s, done + {stream})
      ensures b.sharedSet == SharedOf(x, tagger, store.log, s, b.events)
    {
      hide Attribute, Built, StreamsOf, SharedIn, Mine;
      ghost var before, sharedBefore := b.events, b.sharedSet;
      StreamIsNew(x, tagger, store.log, s, stream, done, before);
      var shared := CollectEvents(x, s, stored, b);
      CollectedStream(x, tagger, store.log, s, stream, done, before, sharedBefore);
      BuilderStreams(b);
      if shared && stream in b.streamSet { b.sharedSet := b.sharedSet + {stream}; }
    }

    lemma BuilderStreams(b: FootprintBuilder)
      requires b.Valid()
      ensures b.streamSet == StreamsOf(b.events) && b.matched == RefsOf(b.events)
    {
    }

    /** Attributes each event once, recording the subject's own and noting a co-tenant's. */
    method CollectEvents(x: Store, s: string, stored: seq<StoredEvent>, b: FootprintBuilder) returns (shared: bool)
      requires b.Valid() && ValidLog(stored) && forall e :: e in stored ==> e !in b.events
      modifies b`streamSet, b`keySet, b`counts, b`eventCount, b`cleartext, b`matched, b`events
      ensures b.Valid() && b.events == old(b.events) + Mine(x, tagger, stored, s)
      ensures shared <==> exists e :: e in stored && Attribute(x, tagger, e).ToOther(s)
    {
      hide Attribute, Built, Mine;
      shared := false;
      NothingIsMine(x, tagger, s);
      for i := 0 to |stored|
        invariant b.Valid() && b.events == old(b.events) + Mine(x, tagger, stored[..i], s)
        invariant forall e :: e in b.events ==> e in old(b.events) || e in stored[..i]
        invariant shared <==> exists j :: 0 <= j < i && Attribute(x, tagger, stored[j]).ToOther(s)
      {
        var e := stored[i];
        var a := Attribute(x, tagger, e);
        NextInStream(stored, i);
        MineStep(x, tagger, stored[..i], e, s);
        assert stored[..i] + [e] == stored[..i + 1];
        if a.To(s) { b.Record(e); }
        if a.ToOther(s) { shared := true; }
      }
      assert stored[..|stored|] == stored;
    }
  }

  lemma NothingIsMine(x: Store, tagger: Option<Tagger>, s: string)
    ensures Mine(x, tagger, [], s) == {} && AllAttributed(x, tagger, [])
  {
  }

  lemma MineIsSeen(x: Store, tagger: Option<Tagger>, seen: seq<StoredEvent>, s: string)
    ensures forall e :: e in Mine(x, tagger, seen, s) ==> e in seen
  {
  }

  lemma NextInStream(stored: seq<StoredEvent>, i: nat)
    requires ValidLog(stored) && i < |stored|
    ensures stored[i] !in stored[..i]
  {
    assert [] + stored == stored;
    NextIsNew([], stored, i);
    assert [] + stored[..i] == stored[..i];
  }

  lemma StreamIsNew(x: Store, tagger: Option<Tagger>, log: seq<StoredEvent>, s: string, stream: string, done: set<string>, before: set<StoredEvent>)
    requires ValidLog(log) && stream !in done && before == MineOn(x, tagger, log, s, done)
    ensures ValidLog(OnStream(log, stream)) && forall e :: e in OnStream(log, stream) ==> e !in before
  {
    OnStreamMembers(log, stream);
  }

  /** Handling one more stream. */
  lemma CollectedStream(x: Store, tagger: Option<Tagger>, log: seq<StoredEvent>, s: string, stream: string, done: set<string>,
                        before: set<StoredEvent>, shared: set<string>)
    requires ValidLog(log) && before == MineOn(x, tagger, log, s, done) && shared == SharedOf(x, tagger, log, s, before)
    ensures var after := before + Mine(x, tagger, OnStream(log, stream), s);
            var sharedHere := exists e :: e in OnStream(log, stream) && Attribute(x, tagger, e).ToOther(s);
            && after == MineOn(x, tagger, log, s, done + {stream})
            && SharedOf(x, tagger, log, s, after) == shared + (if sharedHere && stream in StreamsOf(after) then {stream} else {})
  {
    hide Attribute;
    OnStreamMembers(log, stream);
    var after := before + Mine(x, tagger, OnStream(log, stream), s);
    assert after == MineOn(x, tagger, log, s, done + {stream});
    StreamShared(x, tagger, log, s, stream);
    StreamsGrow(before, after, stream);
  }

  lemma ValidPrefix(log: seq<StoredEvent>, front: seq<StoredEvent>, rest: seq<StoredEvent>)
    requires ValidLog(log) && front + rest == log
    ensures ValidLog(front)
  {
    IncreasingPrefix(0, log, |front|);
    assert log[..|front|] == front;
  }

  lemma NextIsNew(seen: seq<StoredEvent>, batch: seq<StoredEvent>, i: nat)
    requires ValidLog(seen + batch) && i < |batch|
    ensures batch[i] !in seen + batch[..i]
  {
    var all := seen + batch;
    IncreasingMeans(0, all);
    var n := |seen| + i;
    assert all[n] == batch[i] && all[..n] == seen + batch[..i];
    assert forall j :: 0 <= j < n ==> all[j].position < all[n].position;
  }

  lemma MineStep(x: Store, tagger: Option<Tagger>, seen: seq<StoredEvent>, e: StoredEvent, s: string)
    ensures Mine(x, tagger, seen + [e], s) == Mine(x, tagger, seen, s) + (if s in Attribute(x, tagger, e).subjects then {e} else {})
    ensures AllAttributed(x, tagger, seen + [e]) <==> AllAttributed(x, tagger, seen) && Attribute(x, tagger, e).subjects != []
  {
    assert forall f :: f in seen + [e] <==> f in seen || f == e;
  }

  lemma StreamShared(x: Store, tagger: Option<Tagger>, log: seq<StoredEvent>, s: string, stream: string)
    requires ValidLog(log)
    ensures SharedIn(x, tagger, log, s, stream) <==>
            exists e :: e in OnStream(log, stream) && Attribute(x, tagger, e).ToOther(s)
  {
    OnStreamMembers(log, stream);
  }

  lemma StreamsGrow(before: set<StoredEvent>, after: set<StoredEvent>, stream: string)
    requires before <= after && forall e :: e in after - before ==> e.streamId == stream
    ensures StreamsOf(after) == StreamsOf(before) + (if stream in StreamsOf(after) then {stream} else {})
  {
  }

  // ---- Backfilling an index ----

  /** Scans the log and records every attributed event's stream under each of its subjects. */
  method BackfillSubjectIndex(store: EventStore, x: Store, tagger: Tagger, writer: MemorySubjectIndex, batchSize: nat)
    returns (ok: bool, rep: BackfillReport)
    requires ValidLog(store.log) && batchSize > 0 && forall e :: e in store.log ==> e.streamId != ""
    modifies writer`streams
    ensures !ok ==> !store.Healthy() || exists e :: e in store.log && Attribute(x, Some(tagger), e).subjects != [] && e.streamId in writer.unwritable
    ensures ok ==> rep == Tallied(x, Some(tagger), store.log) && Backfilled(old(writer.streams), writer.streams, x, Some(tagger), store.log)
    ensures forall s :: old(writer.StreamsBySubject(s)) <= writer.StreamsBySubject(s)
  {
    hide Attribute, LoadFrom, Tallied;
    ok, rep := true, BackfillReport(0, 0, 0, 0);
    var position, more := 0, true;
    ghost var seen: seq<StoredEvent> := [];
    AfterZero(store.log);
    NothingTallied(x, Some(tagger), writer.streams);
    while more
      invariant seen + After(store.log, position) == store.log
      invariant rep == Tallied(x, Some(tagger), seen) && Backfilled(old(writer.streams), writer.streams, x, Some(tagger), seen)
      invariant !more ==> After(store.log, position) == []
      decreases more, |After(store.log, position)|
    {
      var loaded, batch := store.LoadEventsFromPosition(position, batchSize);
      if !loaded { return false, rep; }
      if |batch| == 0 {
        NothingLoaded(store.log, position, batchSize);
        more := false;
      } else {
        BatchLoaded(store.log, position, batchSize, seen, store.log);
        assert forall e :: e in batch ==> e in (seen + batch) + After(store.log, batch[|batch| - 1].position);
        ok, rep := IndexBatch(x, tagger, writer, batch, rep, seen, old(writer.streams));
        if !ok { return; }
        seen := seen + batch;
        position := batch[|batch| - 1].position;
      }
    }
    assert seen == store.log;
  }

  method IndexBatch(x: Store, tagger: Tagger, writer: MemorySubjectIndex, batch: seq<StoredEvent>, rep0: BackfillReport,
                    ghost seen: seq<StoredEvent>, ghost before: map<string, set<string>>)
    returns (ok: bool, rep: BackfillReport)
    requires rep0 == Tallied(x, Some(tagger), seen) && Backfilled(before, writer.streams, x, Some(tagger), seen)
    requires forall e :: e in batch ==> e.streamId != ""
    modifies writer`streams
    ensures !ok ==> exists e :: e in batch && Attribute(x, Some(tagger), e).subjects != [] && e.streamId in writer.unwritable
    ensures ok ==> rep == Tallied(x, Some(tagger), seen + batch) && Backfilled(before, writer.streams, x, Some(tagger), seen + batch)
    ensures forall s :: old(writer.StreamsBySubject(s)) <= writer.StreamsBySubject(s)
  {
    hide Attribute, Tallied, Backfilled, ListedFor;
    ok, rep := true, rep0;
    assert seen + batch[..0] == seen;
    for i := 0 to |batch|
      invariant rep == Tallied(x, Some(tagger), seen + batch[..i])
      invariant Backfilled(before, writer.streams, x, Some(tagger), seen + batch[..i])
      invariant forall s :: old(writer.StreamsBySubject(s)) <= writer.StreamsBySubject(s)
    {
      var e := batch[i];
      var a := Attribute(x, Some(tagger), e);
      TalliedLast(x, Some(tagger), seen + batch[..i], e);
      assert seen + batch[..i] + [e] == seen + batch[..i + 1];
      ghost var index := writer.streams;
      rep := rep.(scanned := rep.scanned + 1);
      if a.undecryptable { rep := rep.(undecryptable := rep.undecryptable + 1); }
      if a.subjects == [] {
        rep := rep.(untagged := rep.untagged + 1);
      } else {
        ok := writer.IndexSubjects(e.streamId, a.subjects);
        if !ok { return; }
        rep := rep.(indexed := rep.indexed + 1);
      }
      BackfilledStep(before, index, writer.streams, x, Some(tagger), seen + batch[..i], e);
    }
    assert batch[..|batch|] == batch;
  }

  lemma NothingTallied(x: Store, tagger: Option<Tagger>, index: map<string, set<string>>)
    ensures Tallied(x, tagger, []) == BackfillReport(0, 0, 0, 0) && Backfilled(index, index, x, tagger, [])
  {
    assert forall s :: Mine(x, tagger, [], s) == {};
  }

  lemma BackfilledStep(before: map<string, set<string>>, index: map<string, set<string>>, index': map<string, set<string>>,
                       x: Store, tagger: Option<Tagger>, seen: seq<StoredEvent>, e: StoredEvent)
    requires Backfilled(before, index, x, tagger, seen)
    requires forall s :: ListedFor(index', s) == ListedFor(index, s) + (if s in Attribute(x, tagger, e).subjects && s != "" then {e.streamId} else {})
    ensures Backfilled(before, index', x, tagger, seen + [e])
  {
    hide Attribute, ListedFor;
    forall s
      ensures ListedFor(index', s) == ListedFor(before, s) + (if s == "" then {} else StreamsOf(Mine(x, tagger, seen + [e], s)))
    {
      var on := s in Attribute(x, tagger, e).subjects;
      var mine, more := Mine(x, tagger, seen, s), if on then {e} else {};
      assert Mine(x, tagger, seen + [e], s) == mine + more;
      assert StreamsOf(mine + more) == StreamsOf(mine) + (if on then {e.streamId} else {});
    }
  }
}
