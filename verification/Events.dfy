/** The values every part of the toolkit shares: JSON payloads, event metadata,
    stored events and the append-only, position-ordered event log. */
module Events {

  datatype Option<+T> = None | Some(value: T)

  /** A JSON string is either ordinary text or the base64 form of an AEAD box.
      The AEAD is ideal: a box opens only under the data key and the additional
      authenticated data it was sealed with, and then yields the sealed value. */
  datatype Text = Plain(text: string) | Box(dek: nat, aad: string, sealed: Json)

  /** Numbers keep their literal, as the json.Number decoding does. */
  datatype Json =
    | Null
    | Bool(b: bool)
    | Num(literal: string)
    | Str(str: Text)
    | Arr(items: seq<Json>)
    | Obj(members: map<string, Json>)

  /** A metadata value that holds a JSON array of names: missing, not such an array, or one. */
  datatype Names = NoNames | BadNames | NameList(names: seq<string>)

  /** The wrapped data key: missing or empty, undecodable, or a key wrapped under a master key. */
  datatype WrappedKey = NoKey | BadKey | Wrapped(master: string, dek: nat)

  /** The "$schema_version" value: missing, not an integer, or an integer. */
  datatype VersionTag = NoVersion | BadVersion | Version(v: int)

  /** Event metadata. Every library-owned custom key has its own slot (a caller may put
      anything in any of them); `other` holds the remaining custom keys. An empty `keyId`
      or `algorithm` stands for a missing or an empty value, which the code never tells apart. */
  datatype Metadata = Metadata(
    tenantId: string,
    encryptedFields: Names,
    keyId: string,
    dek: WrappedKey,
    algorithm: string,
    schemaVersion: VersionTag,
    subjects: Names,
    other: map<string, string>)

  datatype StoredEvent = StoredEvent(
    streamId: string,
    eventType: string,
    data: Json,
    meta: Metadata,
    version: nat,
    position: nat,
    time: int)

  /** "Must this event go through decryption?": the weakest signal, used on the read path. */
  predicate IsEncrypted(m: Metadata) {
    m.encryptedFields != NoNames
  }

  /** "Would revoking this event's key erase it?": the complete envelope. */
  predicate HasEncryptionEnvelope(m: Metadata) {
    IsEncrypted(m) && m.keyId != "" && m.dek != NoKey
  }

  /** Where a character first occurs in a text; the text's length if it does not. */
  function IndexOf(s: string, c: char): (i: nat)
    ensures i <= |s| && (forall j :: 0 <= j < i ==> s[j] != c) && (i < |s| ==> s[i] == c)
  {
    if s == "" || s[0] == c then 0 else IndexOf(s[1..], c) + 1
  }

  /** Positions are strictly increasing along the sequence, and all above p. */
  ghost predicate Increasing(p: nat, log: seq<StoredEvent>)
    decreases |log|
  {
    log == [] || (log[0].position > p && Increasing(log[0].position, log[1..]))
  }

  /** The log's invariant: positive, strictly increasing positions. */
  ghost predicate ValidLog(log: seq<StoredEvent>) {
    Increasing(0, log)
  }

  lemma {:induction false} IncreasingMeans(p: nat, log: seq<StoredEvent>)
    requires Increasing(p, log)
    ensures forall i :: 0 <= i < |log| ==> log[i].position > p
    ensures forall i, j :: 0 <= i < j < |log| ==> log[i].position < log[j].position
    decreases |log|
  {
    if log != [] { IncreasingMeans(log[0].position, log[1..]); }
  }

  lemma {:induction false} IncreasingPrefix(p: nat, log: seq<StoredEvent>, n: nat)
    requires Increasing(p, log) && n <= |log|
    ensures Increasing(p, log[..n])
    decreases n
  {
    if n > 0 {
      IncreasingPrefix(log[0].position, log[1..], n - 1);
      assert log[..n][1..] == log[1..][..n - 1];
    }
  }

  /** The last event lies above all the others. */
  lemma {:induction false} IncreasingLast(p: nat, log: seq<StoredEvent>)
    requires Increasing(p, log) && log != []
    ensures Increasing(p, log[..|log| - 1])
    ensures p < log[|log| - 1].position
    ensures forall e :: e in log[..|log| - 1] ==> p < e.position < log[|log| - 1].position
    ensures forall e :: e in log <==> e in log[..|log| - 1] || e == log[|log| - 1]
  {
    IncreasingMeans(p, log);
    IncreasingPrefix(p, log, |log| - 1);
  }

  /** The events strictly after a position, in order. */
  function After(log: seq<StoredEvent>, p: nat): seq<StoredEvent> {
    if log == [] || log[0].position > p then log else After(log[1..], p)
  }

  function Take(events: seq<StoredEvent>, limit: nat): seq<StoredEvent> {
    if |events| <= limit then events else events[..limit]
  }

  /** One stream's events, in order. */
  function OnStream(log: seq<StoredEvent>, streamId: string): seq<StoredEvent> {
    if log == [] then []
    else if log[0].streamId == streamId then [log[0]] + OnStream(log[1..], streamId)
    else OnStream(log[1..], streamId)
  }

  lemma {:induction false} OnStreamMembers(log: seq<StoredEvent>, streamId: string, p: nat := 0)
    requires Increasing(p, log)
    ensures Increasing(p, OnStream(log, streamId))
    ensures forall e :: e in OnStream(log, streamId) <==> e in log && e.streamId == streamId
    decreases |log|
  {
    if log != [] {
      OnStreamMembers(log[1..], streamId, log[0].position);
      var rest := OnStream(log[1..], streamId);
      assert ([log[0]] + rest)[1..] == rest;
      assert forall e :: e in log <==> e == log[0] || e in log[1..];
      IncreasingMeans(log[0].position, rest);
    }
  }

  /** The load contract: the next `limit` events strictly after a position. */
  function LoadFrom(log: seq<StoredEvent>, p: nat, limit: nat): seq<StoredEvent> {
    Take(After(log, p), limit)
  }

  lemma {:induction false} AfterMembers(log: seq<StoredEvent>, p: nat, q: nat := 0)
    requires Increasing(q, log)
    ensures Increasing(p, After(log, p))
    ensures forall e :: e in After(log, p) <==> e in log && e.position > p
  {
    if log != [] && log[0].position <= p {
      AfterMembers(log[1..], p, log[0].position);
      assert forall e :: e in log <==> e == log[0] || e in log[1..];
    } else if log != [] {
      IncreasingMeans(log[0].position, log[1..]);
    }
  }

  /** Consuming the first n events after p leaves exactly the events after the n-th one. */
  lemma {:induction false} AfterConsumed(log: seq<StoredEvent>, p: nat, n: nat, q: nat := 0)
    requires Increasing(q, log) && 0 < n <= |After(log, p)|
    ensures After(log, After(log, p)[n - 1].position) == After(log, p)[n..]
  {
    if log[0].position > p {
      SkipPrefix(log, n, q);
    } else {
      AfterConsumed(log[1..], p, n, log[0].position);
      AfterMembers(log[1..], p, log[0].position);
      assert After(log, p)[n - 1] in After(log, p);
    }
  }

  lemma {:induction false} SkipPrefix(log: seq<StoredEvent>, n: nat, q: nat)
    requires Increasing(q, log) && 0 < n <= |log|
    ensures After(log, log[n - 1].position) == log[n..]
  {
    IncreasingMeans(q, log);
    if n > 1 {
      SkipPrefix(log[1..], n - 1, log[0].position);
      assert log[1..][n - 1..] == log[n..];
    }
  }

  lemma AfterZero(log: seq<StoredEvent>)
    requires ValidLog(log)
    ensures After(log, 0) == log
  {
  }

  /** An empty batch means nothing is left. */
  lemma NothingLoaded(log: seq<StoredEvent>, p: nat, limit: nat)
    requires limit > 0 && LoadFrom(log, p, limit) == []
    ensures After(log, p) == []
  {
  }

  /** A non-empty batch is the next stretch of what is left to read; what is then left follows
      the batch's last event, and nothing is left after a short batch. */
  lemma BatchLoaded(log: seq<StoredEvent>, p: nat, limit: nat, seen: seq<StoredEvent>, all: seq<StoredEvent>)
    requires ValidLog(log) && seen + After(log, p) == all
    requires LoadFrom(log, p, limit) != []
    ensures var batch := LoadFrom(log, p, limit);
            var next := batch[|batch| - 1].position;
            && (seen + batch) + After(log, next) == all
            && |After(log, next)| < |After(log, p)| && |batch| <= limit
            && (|batch| < limit ==> After(log, next) == [])
  {
    var batch, left := LoadFrom(log, p, limit), After(log, p);
    AfterConsumed(log, p, |batch|);
    assert left == batch + left[|batch|..];
    assert batch[|batch| - 1] == left[|batch| - 1];
    assert (seen + batch) + left[|batch|..] == seen + left;
  }
}
