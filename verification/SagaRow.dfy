/** A saga's persisted row, its bounded list of processed events, and what one save may do to it. */
module SagaRow {
  import opened Events

  type Key = string

  const MAX_PROCESSED_EVENTS := 100

  datatype Status = Running | Completed | Failed | Compensated | CompensationFailed
  {
    predicate Terminal() {
      this != Running
    }

    predicate Retryable() {
      this == Failed || this == Compensated || this == CompensationFailed
    }
  }

  /** `captured` is the trigger event kept for a re-drive. `history` is not stored by the original:
      it records every event folded into the saga, less those an operator's re-drive cleared. */
  datatype Row = Row(version: nat, status: Status, processed: seq<Key>, captured: Option<Key>, history: seq<Key>)

  // ---- The list ----

  /** Keeps the most recent entries. */
  function Window(keys: seq<Key>): (r: seq<Key>)
    ensures |r| <= MAX_PROCESSED_EVENTS
  {
    if |keys| > MAX_PROCESSED_EVENTS then keys[|keys| - MAX_PROCESSED_EVENTS..] else keys
  }

  /** Every occurrence of a key removed, the order kept. */
  function Without(keys: seq<Key>, k: Key): seq<Key> {
    if keys == [] then []
    else if keys[0] == k then Without(keys[1..], k)
    else [keys[0]] + Without(keys[1..], k)
  }

  ghost predicate Distinct(keys: seq<Key>) {
    keys == [] || (keys[0] !in keys[1..] && Distinct(keys[1..]))
  }

  ghost predicate SuffixOf(keys: seq<Key>, all: seq<Key>) {
    |keys| <= |all| && all[|all| - |keys|..] == keys
  }

  method RemoveProcessedEventKey(events: seq<Key>, k: Key) returns (out: seq<Key>)
    ensures out == Without(events, k)
  {
    if |events| == 0 { return events; }
    out := [];
    for i := 0 to |events|
      invariant Without(events, k) == out + Without(events[i..], k)
    {
      assert events[i..][0] == events[i] && events[i..][1..] == events[i + 1..];
      if events[i] != k { out := out + [events[i]]; }
    }
  }

  lemma {:induction false} WithoutMeans(keys: seq<Key>, k: Key)
    ensures forall x :: x in Without(keys, k) <==> x in keys && x != k
    ensures |Without(keys, k)| <= |keys|
    ensures Distinct(keys) ==> Distinct(Without(keys, k))
    ensures k !in keys ==> Without(keys, k) == keys
  {
    if keys != [] {
      WithoutMeans(keys[1..], k);
      var rest := Without(keys[1..], k);
      assert ([keys[0]] + rest)[1..] == rest;
      assert keys == [keys[0]] + keys[1..];
    }
  }

  lemma WithoutCons(x: Key, keys: seq<Key>, k: Key)
    ensures Without([x] + keys, k) == (if x == k then [] else [x]) + Without(keys, k)
  {
    assert ([x] + keys)[1..] == keys;
  }

  lemma Regroup(a: seq<Key>, b: seq<Key>, c: seq<Key>)
    ensures a + (b + c) == a + b + c
  {
  }

  lemma {:induction false} WithoutAppend(a: seq<Key>, b: seq<Key>, k: Key)
    ensures Without(a + b, k) == Without(a, k) + Without(b, k)
  {
    if a == [] {
      assert a + b == b;
    } else {
      var x, more := a[0], a[1..];
      WithoutAppend(more, b, k);
      assert a == [x] + more && a + b == [x] + (more + b);
      WithoutCons(x, more, k);
      WithoutCons(x, more + b, k);
      hide Without;
      Regroup(if x == k then [] else [x], Without(more, k), Without(b, k));
    }
  }

  lemma {:induction false} DistinctSuffix(keys: seq<Key>, n: nat)
    requires Distinct(keys) && n <= |keys|
    ensures Distinct(keys[n..])
  {
    if n > 0 {
      DistinctSuffix(keys[1..], n - 1);
      assert keys[1..][n - 1..] == keys[n..];
    } else {
      assert keys[n..] == keys;
    }
  }

  lemma {:induction false} DistinctSnoc(keys: seq<Key>, k: Key)
    ensures Distinct(keys + [k]) <==> Distinct(keys) && k !in keys
  {
    if keys == [] {
      assert (keys + [k])[1..] == [];
    } else {
      DistinctSnoc(keys[1..], k);
      assert (keys + [k])[1..] == keys[1..] + [k];
    }
  }

  lemma WindowKeeps(keys: seq<Key>, all: seq<Key>)
    requires SuffixOf(keys, all)
    ensures SuffixOf(Window(keys), all)
    ensures Distinct(keys) ==> Distinct(Window(keys))
    ensures keys != [] ==> Window(keys) != []
    ensures forall x :: x in Window(keys) ==> x in keys
  {
    if |keys| > MAX_PROCESSED_EVENTS {
      var n := |keys| - MAX_PROCESSED_EVENTS;
      if Distinct(keys) { DistinctSuffix(keys, n); }
      assert all[|all| - MAX_PROCESSED_EVENTS..] == keys[n..];
    }
  }

  lemma WithoutKeepsSuffix(keys: seq<Key>, all: seq<Key>, k: Key)
    requires SuffixOf(keys, all)
    ensures SuffixOf(Without(keys, k), Without(all, k))
  {
    var front := all[..|all| - |keys|];
    assert all == front + keys;
    WithoutAppend(front, keys, k);
  }

  /** Saving an event onto a distinct list keeps it distinct exactly when the event is not among
      the entries that stay. */
  lemma FoldKeepsDistinctExactlyWhen(keys: seq<Key>, k: Key)
    requires Distinct(keys) && |keys| <= MAX_PROCESSED_EVENTS
    ensures Distinct(Window(keys + [k])) <==> k !in if |keys| < MAX_PROCESSED_EVENTS then keys else keys[1..]
  {
    if |keys| < MAX_PROCESSED_EVENTS {
      DistinctSnoc(keys, k);
    } else {
      assert Window(keys + [k]) == keys[1..] + [k];
      DistinctSnoc(keys[1..], k);
    }
  }

  // ---- The row ----

  ghost predicate RowOk(r: Row) {
    && r.version > 0
    && Distinct(r.processed) && |r.processed| <= MAX_PROCESSED_EVENTS
    && SuffixOf(r.processed, r.history)
    && (!r.status.Terminal() ==> r.processed != [])
  }

  /** What drives a save: a live event, an operator's retry or resume of the captured event, or
      the timeout sweep. */
  datatype Job = Live(key: Key) | Retry | Resume | Timeout

  predicate Redrives(job: Job) {
    job.Retry? || job.Resume?
  }

  function Adjusted(job: Job, r: Row): seq<Key> {
    if Redrives(job) && r.captured.Some? then Without(r.processed, r.captured.value) else r.processed
  }

  function AdjustedHistory(job: Job, r: Row): seq<Key> {
    if Redrives(job) && r.captured.Some? then Without(r.history, r.captured.value) else r.history
  }

  /** The only changes a save makes to a row: a terminal row is changed by a retry alone, a
      re-drive clears the captured event's key and nothing else, an event is folded only when it is
      not listed, and a failure folds nothing and is terminal. */
  ghost predicate RowStep(job: Job, r: Row, r': Row) {
    var base, all := Adjusted(job, r), AdjustedHistory(job, r);
    && r'.version == r.version + 1
    && (r.status.Terminal() ==> job.Retry? && r.status.Retryable())
    && (job.Resume? ==> r.status == Running)
    && (Redrives(job) ==> r.captured.Some?)
    && ((r'.status.Retryable() && r'.processed == base && r'.history == all)
        || (!job.Timeout? && (r'.status == Running || r'.status == Completed)
            && var k := if job.Live? then job.key else r.captured.value;
               k !in base && r'.processed == Window(base + [k]) && r'.history == all + [k]))
  }

  /** The first save of a saga. */
  ghost predicate FirstRow(job: Job, r': Row) {
    && job.Live? && r'.version == 1
    && ((r'.status.Retryable() && r'.processed == [] && r'.history == [])
        || ((r'.status == Running || r'.status == Completed) && r'.processed == [job.key] && r'.history == [job.key]))
  }

  lemma FirstRowIsOk(job: Job, r': Row)
    requires FirstRow(job, r')
    ensures RowOk(r')
  {
    DistinctSnoc([], if r'.processed == [] then "" else r'.processed[0]);
    assert r'.processed == [] || r'.processed == [] + [r'.processed[0]];
  }

  /** Such a save keeps the row's invariant: the list stays distinct, bounded, and equal to the
      latest events folded. */
  lemma RowStepKeepsOk(job: Job, r: Row, r': Row)
    requires RowOk(r) && RowStep(job, r, r')
    ensures RowOk(r')
  {
    hide Without, Distinct, Window, SuffixOf, Adjusted, AdjustedHistory;
    var base, all := Adjusted(job, r), AdjustedHistory(job, r);
    AdjustingKeepsOk(job, r);
    if r'.history != all {
      FoldingKeepsOk(base, all, if job.Live? then job.key else r.captured.value);
    }
  }

  lemma AdjustingKeepsOk(job: Job, r: Row)
    requires Distinct(r.processed) && SuffixOf(r.processed, r.history)
    ensures Distinct(Adjusted(job, r)) && SuffixOf(Adjusted(job, r), AdjustedHistory(job, r)) && |Adjusted(job, r)| <= |r.processed|
  {
    hide Without, Distinct, SuffixOf;
    if r.captured.Some? {
      WithoutMeans(r.processed, r.captured.value);
      WithoutKeepsSuffix(r.processed, r.history, r.captured.value);
    }
  }

  lemma FoldingKeepsOk(base: seq<Key>, all: seq<Key>, k: Key)
    requires Distinct(base) && SuffixOf(base, all) && k !in base
    ensures Distinct(Window(base + [k])) && SuffixOf(Window(base + [k]), all + [k]) && Window(base + [k]) != []
  {
    hide Distinct, Window;
    DistinctSnoc(base, k);
    assert (all + [k])[|all| - |base|..] == all[|all| - |base|..] + [k];
    WindowKeeps(base + [k], all + [k]);
  }
}
