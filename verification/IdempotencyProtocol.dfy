/** The idempotency middleware as a protocol: unboundedly many callers of one key, each a
    sequence of atomic store operations, interleaved in any way. */
module IdempotencyProtocol {
  import opened Events
  import opened IdempotencyKeys

  const MAX_FIELD_LENGTH := 255
  const PROCESSING_MARKER := "mink:processing"

  const UNKNOWN_ERROR := "unknown error"

  /** A handler's result. `error` is the text of the result's own error, if it has one. */
  datatype CommandResult = CommandResult(success: bool, aggregateId: Bytes, version: int, data: Option<string>, error: Option<string>)
  {
    predicate IsSuccess() {
      success && error == None
    }
  }

  datatype Record = Record(aggregateId: Bytes, version: int, success: bool, error: string)

  const RESERVATION := Record([], 0, false, PROCESSING_MARKER)

  /** What is stored of a result: an over-long id is truncated, the data is dropped. */
  function RecordOf(r: CommandResult): Record {
    Record(Truncated(r.aggregateId, MAX_FIELD_LENGTH), r.version, r.IsSuccess(), if r.error.Some? then r.error.value else "")
  }

  /** What a stored record is replayed as. */
  function ResultOf(r: Record): CommandResult {
    if r.success then CommandResult(true, r.aggregateId, r.version, None, None)
    else CommandResult(false, [], 0, None, Some(if r.error != "" then r.error else UNKNOWN_ERROR))
  }

  predicate IsProcessing(r: Record) {
    !r.success && r.error == PROCESSING_MARKER
  }

  datatype Config = Config(storeErrors: bool, failClosed: bool)

  datatype Outcome =
    | Handled(result: CommandResult)
    | Replayed(result: CommandResult)
    | InProgress
    | StoreUnavailable

  /** Where a caller is between two store operations. `reserved` is whether it holds the key; a caller
      whose first lookup failed open runs its handler unprotected and never touches the store again. */
  datatype Phase =
    | Arriving
    | Unprotected
    | Deleting
    | Reserving
    | LostRace
    | Running(reserved: bool)
    | Returned(reserved: bool, result: CommandResult, failed: bool)
    | Releasing(result: CommandResult)
    | Finished(outcome: Outcome)

  /** The record under the key, whether it has expired, and every caller that has begun. */
  datatype State = State(record: Option<Record>, expired: bool, phases: map<nat, Phase>)

  const INITIAL := State(None, false, map[])

  function At(s: State, c: nat): Phase {
    if c in s.phases then s.phases[c] else Arriving
  }

  function Go(s: State, c: nat, p: Phase): State {
    s.(phases := s.phases[c := p])
  }

  predicate ShouldStore(x: Config, r: CommandResult, failed: bool) {
    r.IsSuccess() || (x.storeErrors && failed)
  }

  // ---- The steps of one caller; `ok` is whether the store operation succeeds ----

  /** The first lookup. */
  function Lookup(x: Config, s: State, c: nat, ok: bool): State {
    if !ok then Go(s, c, if x.failClosed then Finished(StoreUnavailable) else Unprotected)
    else if s.record == None then Go(s, c, Reserving)
    else if s.expired then Go(s, c, Deleting)
    else if IsProcessing(s.record.value) then Go(s, c, Finished(InProgress))
    else Go(s, c, Finished(Replayed(ResultOf(s.record.value))))
  }

  /** Removes the stale record it saw, without looking again. */
  function RemoveStale(s: State, c: nat, ok: bool): State {
    Go(if ok then s.(record := None, expired := false) else s, c, Reserving)
  }

  /** StoreIfAbsent of the reservation. */
  function Reserve(x: Config, s: State, c: nat, ok: bool): State {
    if !ok then Go(s, c, if x.failClosed then Finished(StoreUnavailable) else Running(false))
    else if s.record == None || s.expired then Go(s.(record := Some(RESERVATION), expired := false), c, Running(true))
    else Go(s, c, LostRace)
  }

  /** The second lookup, after losing the reservation race. */
  function LookupAgain(s: State, c: nat, ok: bool): State {
    if ok && s.record.Some? && !s.expired && !IsProcessing(s.record.value)
    then Go(s, c, Finished(Replayed(ResultOf(s.record.value))))
    else Go(s, c, Finished(InProgress))
  }

  /** Stores the result, or releases the reservation. */
  function Settle(x: Config, s: State, c: nat, ok: bool): State
    requires At(s, c).Returned?
  {
    var p := At(s, c);
    if ShouldStore(x, p.result, p.failed) then
      if ok then Go(s.(record := Some(RecordOf(p.result)), expired := false), c, Finished(Handled(p.result)))
      else Go(s, c, if p.reserved then Releasing(p.result) else Finished(Handled(p.result)))
    else Go(if p.reserved && ok then s.(record := None, expired := false) else s, c, Finished(Handled(p.result)))
  }

  /** Releases the reservation after the result could not be stored. */
  function Release(s: State, c: nat, ok: bool): State
    requires At(s, c).Releasing?
  {
    Go(if ok then s.(record := None, expired := false) else s, c, Finished(Handled(At(s, c).result)))
  }

  ghost predicate CallerStep(x: Config, s: State, s': State, c: nat, ok: bool) {
    match At(s, c)
    case Arriving => s' == Lookup(x, s, c, ok)
    case Unprotected => exists r :: s' == Go(s, c, Finished(Handled(r)))
    case Deleting => s' == RemoveStale(s, c, ok)
    case Reserving => s' == Reserve(x, s, c, ok)
    case LostRace => s' == LookupAgain(s, c, ok)
    case Running(reserved) => exists r, failed :: s' == Go(s, c, Returned(reserved, r, failed))
    case Returned(_, _, _) => s' == Settle(x, s, c, ok)
    case Releasing(_) => s' == Release(s, c, ok)
    case Finished(_) => false
  }

  /** One step when no store operation fails and no record expires. */
  ghost predicate Step(x: Config, s: State, s': State) {
    exists c :: CallerStep(x, s, s', c, true)
  }

  /** One step of the whole protocol, store failures and expiry included. */
  ghost predicate AnyStep(x: Config, s: State, s': State) {
    || (exists c, ok :: CallerStep(x, s, s', c, ok))
    || (s.record.Some? && s' == s.(expired := true))
  }

  ghost predicate Run(x: Config, run: seq<State>) {
    run != [] && forall i :: 0 < i < |run| ==> Step(x, run[i - 1], run[i])
  }

  // ---- Safety over every run ----

  /** The caller holds the key: its handler is running or its result is not settled yet. */
  predicate Owns(p: Phase) {
    (p.Running? && p.reserved) || (p.Returned? && p.reserved)
  }

  /** A result that, once stored, cannot be told from a reservation. */
  predicate LooksInFlight(r: CommandResult) {
    !r.IsSuccess() && r.error == Some(PROCESSING_MARKER)
  }

  /** No caller is about to store a result that looks like a reservation. */
  ghost predicate Clean(x: Config, s: State) {
    forall c :: At(s, c).Returned? && ShouldStore(x, At(s, c).result, At(s, c).failed) ==> !LooksInFlight(At(s, c).result)
  }

  ghost predicate Exclusive(s: State) {
    && !s.expired
    && (forall c :: !At(s, c).Deleting? && !At(s, c).Releasing? && !At(s, c).Unprotected?)
    && (forall c :: At(s, c).Running? || At(s, c).Returned? ==> Owns(At(s, c)))
    && (forall c, d :: Owns(At(s, c)) && Owns(At(s, d)) ==> c == d)
    && (forall c :: Owns(At(s, c)) ==> s.record == Some(RESERVATION))
  }

  /** What a step does to one caller, the record and the expiry while `Exclusive` holds: the record
      changes only as the key is acquired or as its owner settles. */
  ghost predicate Effect(s: State, s': State, c: nat) {
    var p, q := At(s, c), At(s', c);
    && (forall d :: d != c ==> At(s', d) == At(s, d))
    && !s'.expired && !q.Deleting? && !q.Releasing? && !q.Unprotected?
    && (q.Running? || q.Returned? ==> Owns(q))
    && (Owns(q) && !Owns(p) ==> s.record == None && s'.record == Some(RESERVATION))
    && (Owns(q) && Owns(p) ==> s'.record == s.record)
    && (!Owns(q) && !Owns(p) ==> s'.record == s.record)
  }

  lemma StepHasEffect(x: Config, s: State, s': State, c: nat)
    requires Exclusive(s) && CallerStep(x, s, s', c, true)
    ensures Effect(s, s', c)
  {
    assert !At(s, c).Deleting? && !At(s, c).Releasing? && !At(s, c).Unprotected?;
    assert At(s, c).Running? || At(s, c).Returned? ==> Owns(At(s, c));
    assert forall d :: d != c ==> At(s', d) == At(s, d);
  }

  lemma EffectKeepsExclusive(s: State, s': State, c: nat)
    requires Exclusive(s) && Effect(s, s', c)
    ensures Exclusive(s')
  {
    forall d | Owns(At(s', d))
      ensures s'.record == Some(RESERVATION) && (Owns(At(s', c)) ==> d == c)
    {
      if d != c { assert Owns(At(s, d)); }
    }
  }

  lemma StepKeepsExclusive(x: Config, s: State, s': State)
    requires Exclusive(s) && Step(x, s, s')
    ensures Exclusive(s')
  {
    hide Exclusive, Effect, CallerStep;
    var c :| CallerStep(x, s, s', c, true);
    StepHasEffect(x, s, s', c);
    EffectKeepsExclusive(s, s', c);
  }

  /** An in-flight record with nobody behind it appears only by storing a result that looks like one. */
  ghost predicate InFlightIsOwned(s: State) {
    s.record.Some? && IsProcessing(s.record.value) ==> exists c :: Owns(At(s, c))
  }

  lemma StepKeepsInFlightOwned(x: Config, s: State, s': State)
    requires Exclusive(s) && Clean(x, s) && InFlightIsOwned(s) && Step(x, s, s')
    ensures InFlightIsOwned(s')
  {
    var c :| CallerStep(x, s, s', c, true);
    assert forall d :: d != c ==> At(s', d) == At(s, d);
    if s.record.Some? && IsProcessing(s.record.value) {
      var d :| Owns(At(s, d));
      assert At(s', d) == At(s, d) || c == d;
    }
    assert Owns(At(s', c)) || !Owns(At(s', c));
  }

  /** In every run from the empty store: at most one caller owns the key, so at most one handler
      runs at a time; and an in-flight record is there if and only if exactly one caller owns the
      key, unless a handler's own error text is the reservation marker. */
  lemma {:induction false} OneOwnerAtATime(x: Config, run: seq<State>)
    requires Run(x, run) && run[0] == INITIAL
    ensures forall i :: 0 <= i < |run| ==> Exclusive(run[i])
    ensures (forall i :: 0 <= i < |run| ==> Clean(x, run[i])) ==>
            forall i :: 0 <= i < |run| ==> InFlightIsOwned(run[i])
  {
    if |run| > 1 {
      var front := run[..|run| - 1];
      OneOwnerAtATime(x, front);
      var s, s' := run[|run| - 2], run[|run| - 1];
      assert s == front[|front| - 1] && Step(x, s, s');
      StepKeepsExclusive(x, s, s');
      assert forall i :: 0 <= i < |front| ==> front[i] == run[i];
      if forall i :: 0 <= i < |run| ==> Clean(x, run[i]) {
        StepKeepsInFlightOwned(x, s, s');
      }
    }
  }

  lemma InFlightIffOwned(x: Config, run: seq<State>, i: nat)
    requires Run(x, run) && run[0] == INITIAL && i < |run|
    requires forall j :: 0 <= j < |run| ==> Clean(x, run[j])
    ensures var s := run[i];
            (s.record.Some? && IsProcessing(s.record.value)) <==> exists c :: Owns(At(s, c)) && forall d :: Owns(At(s, d)) ==> d == c
  {
    OneOwnerAtATime(x, run);
    assert Exclusive(run[i]) && InFlightIsOwned(run[i]);
  }

  /** Storing a result that looks like a reservation does leave an in-flight record nobody owns:
      exactly then. */
  lemma UnownedInFlightExactlyWhen(x: Config, s: State, c: nat)
    requires Exclusive(s) && At(s, c).Returned?
    ensures InFlightIsOwned(Settle(x, s, c, true)) <==>
            !(ShouldStore(x, At(s, c).result, At(s, c).failed) && LooksInFlight(At(s, c).result))
  {
    var s' := Settle(x, s, c, true);
    forall d
      ensures !Owns(At(s', d))
    {
      if d != c { assert At(s', d) == At(s, d); }
    }
  }

  // ---- Replay ----

  /** A result is stored: there is a record and nobody owns the key. */
  ghost predicate Stored(s: State, r: Record) {
    Exclusive(s) && s.record == Some(r) && forall c :: !Owns(At(s, c))
  }

  /** What every caller that was not finished before gets once a result is stored. */
  function Answer(r: Record): Outcome {
    if IsProcessing(r) then InProgress else Replayed(ResultOf(r))
  }

  lemma StepKeepsStored(x: Config, s: State, s': State, r: Record)
    requires Stored(s, r) && Step(x, s, s')
    ensures Stored(s', r)
    ensures forall c :: At(s', c).Finished? ==> At(s, c) == At(s', c) || At(s', c) == Finished(Answer(r))
  {
    StepKeepsExclusive(x, s, s');
    var c :| CallerStep(x, s, s', c, true);
    assert forall d :: d != c ==> At(s', d) == At(s, d);
    assert !Owns(At(s, c));
  }

  /** Settling a result worth keeping stores it. */
  lemma SettlingStores(x: Config, s: State, c: nat)
    requires Exclusive(s) && At(s, c).Returned? && (At(s, c).result.IsSuccess() || (x.storeErrors && At(s, c).failed))
    ensures Stored(Settle(x, s, c, true), RecordOf(At(s, c).result))
  {
    var s' := Settle(x, s, c, true);
    assert forall d :: d != c ==> At(s', d) == At(s, d);
    assert CallerStep(x, s, s', c, true);
    StepKeepsExclusive(x, s, s');
  }

  /** Settling any other result leaves the key free for a retry. */
  lemma SettlingFrees(x: Config, s: State, c: nat)
    requires Exclusive(s) && At(s, c).Returned? && !At(s, c).result.IsSuccess() && !(x.storeErrors && At(s, c).failed)
    ensures var s' := Settle(x, s, c, true);
            Exclusive(s') && s'.record == None && (forall d :: !Owns(At(s', d)))
            && forall d :: At(s', d).Arriving? ==> At(Reserve(x, Lookup(x, s', d, true), d, true), d) == Running(true)
  {
    var s' := Settle(x, s, c, true);
    assert forall d :: d != c ==> At(s', d) == At(s, d);
    assert CallerStep(x, s, s', c, true);
    StepKeepsExclusive(x, s, s');
  }

  /** A result that cannot be stored still goes back to its caller, and once the reservation is released
      the next caller runs. */
  lemma ReleasingFrees(x: Config, s: State, c: nat, later: State, d: nat)
    requires At(s, c).Returned? && At(s, c).reserved && (At(s, c).result.IsSuccess() || (x.storeErrors && At(s, c).failed))
    requires At(later, c) == At(Settle(x, s, c, false), c) && At(later, d).Arriving? && d != c
    ensures Settle(x, s, c, false).record == s.record
    ensures forall ok :: At(Release(later, c, ok), c) == Finished(Handled(At(s, c).result))
    ensures Release(later, c, false).record == later.record
    ensures var free := Release(later, c, true);
            free.record == None && At(Reserve(x, Lookup(x, free, d, true), d, true), d) == Running(true)
  {
  }

  /** Once a result is stored, no handler runs again and every call that finishes from then on
      returns that record's result. */
  lemma {:induction false} OnceStoredAlwaysReplayed(x: Config, run: seq<State>, r: Record)
    requires Run(x, run) && Stored(run[0], r)
    ensures forall i :: 0 <= i < |run| ==> Stored(run[i], r)
    ensures forall i, c :: 0 <= i < |run| ==> !At(run[i], c).Running? && !At(run[i], c).Unprotected?
    ensures forall i, c :: 0 <= i < |run| && At(run[i], c).Finished? ==>
              At(run[0], c) == At(run[i], c) || At(run[i], c) == Finished(Answer(r))
  {
    if |run| > 1 {
      var front := run[..|run| - 1];
      OnceStoredAlwaysReplayed(x, front, r);
      var s, s' := run[|run| - 2], run[|run| - 1];
      assert s == front[|front| - 1] && Step(x, s, s');
      StepKeepsStored(x, s, s', r);
      assert forall i :: 0 <= i < |front| ==> front[i] == run[i];
    }
  }

  /** A replay gives back the very result that was stored exactly when that was a success without data
      whose aggregate id was not too long; a failure comes back as a failure that says the same. */
  lemma ReplayIsTheResultExactlyWhen(r: CommandResult)
    ensures r.IsSuccess() ==> (ResultOf(RecordOf(r)) == r <==> r.data == None && |r.aggregateId| <= MAX_FIELD_LENGTH)
    ensures r.IsSuccess() ==> ResultOf(RecordOf(r)).IsSuccess() && ResultOf(RecordOf(r)).version == r.version && ResultOf(RecordOf(r)).aggregateId <= r.aggregateId
    ensures !r.IsSuccess() ==> !ResultOf(RecordOf(r)).IsSuccess()
    ensures !r.IsSuccess() && r.error.Some? && r.error.value != "" ==> ResultOf(RecordOf(r)).error == r.error
  {
    if |r.aggregateId| > MAX_FIELD_LENGTH { assert |Truncated(r.aggregateId, MAX_FIELD_LENGTH)| <= MAX_FIELD_LENGTH; }
  }

  /** So once a caller's success is stored, every call that finishes from then on and had not before
      answers with it. */
  lemma SuccessIsReplayed(x: Config, s: State, c: nat, run: seq<State>, i: nat, d: nat)
    requires Exclusive(s) && At(s, c).Returned? && At(s, c).result.IsSuccess()
    requires Run(x, run) && run[0] == Settle(x, s, c, true) && i < |run| && At(run[i], d).Finished? && !At(run[0], d).Finished?
    requires At(s, c).result.data == None && |At(s, c).result.aggregateId| <= MAX_FIELD_LENGTH
    ensures At(run[i], d) == Finished(Replayed(At(s, c).result))
  {
    var r := At(s, c).result;
    SettlingStores(x, s, c);
    OnceStoredAlwaysReplayed(x, run, RecordOf(r));
    ReplayIsTheResultExactlyWhen(r);
  }

  // ---- Expiry and failing stores ----

  /** The caller answers for the record under the key until it has stored a result or let go. */
  predicate Holds(p: Phase) {
    Owns(p) || p.Releasing?
  }

  ghost predicate NobodyHolds(s: State) {
    forall c :: !Holds(At(s, c))
  }

  ghost predicate AtMostOneHolder(s: State) {
    forall c, d :: Holds(At(s, c)) && Holds(At(s, d)) ==> c == d
  }

  /** And while somebody holds the key there is a live record, so nobody else can reserve it. */
  ghost predicate Guarded(s: State) {
    AtMostOneHolder(s) && (NobodyHolds(s) || (s.record.Some? && !s.expired))
  }

  /** The record expires, or a caller removes the stale record it saw earlier. */
  ghost predicate Disturbs(s: State, s': State) {
    (s'.expired && !s.expired) || exists c :: At(s, c).Deleting? && s' == RemoveStale(s, c, true)
  }

  ghost predicate AnyRun(x: Config, run: seq<State>) {
    run != [] && forall i :: 0 < i < |run| ==> AnyStep(x, run[i - 1], run[i])
  }

  ghost predicate NeverDisturbedWhileHeld(run: seq<State>) {
    forall i :: 0 < i < |run| && Disturbs(run[i - 1], run[i]) ==> NobodyHolds(run[i - 1])
  }

  /** What a caller's step does to its hold on the key and to the record. */
  ghost predicate HoldEffect(s: State, s': State, c: nat) {
    var p, q := At(s, c), At(s', c);
    && (forall d :: d != c ==> At(s', d) == At(s, d))
    && (Holds(q) && !Holds(p) ==> (s.record == None || s.expired) && s'.record.Some? && !s'.expired)
    && (Holds(q) && Holds(p) ==> s'.record == s.record && s'.expired == s.expired)
    && (!Holds(p) && !Holds(q) ==> (s'.record == s.record && s'.expired == s.expired) || (s'.record.Some? && !s'.expired) || Disturbs(s, s'))
  }

  lemma CallerHasHoldEffect(x: Config, s: State, s': State, c: nat, ok: bool)
    requires CallerStep(x, s, s', c, ok)
    ensures HoldEffect(s, s', c)
  {
    assert At(s, c).Deleting? && ok ==> Disturbs(s, s');
  }

  lemma HoldEffectKeepsGuarded(s: State, s': State, c: nat)
    requires Guarded(s) && HoldEffect(s, s', c) && (Disturbs(s, s') ==> NobodyHolds(s))
    ensures Guarded(s')
  {
    hide Disturbs;
    if Holds(At(s, c)) {
      assert forall d :: d != c ==> !Holds(At(s', d));
    } else if Holds(At(s', c)) {
      assert forall d :: d != c ==> !Holds(At(s', d));
    } else if NobodyHolds(s) {
      assert NobodyHolds(s');
    }
  }

  lemma CallerKeepsGuarded(x: Config, s: State, s': State, c: nat, ok: bool)
    requires Guarded(s) && CallerStep(x, s, s', c, ok) && (Disturbs(s, s') ==> NobodyHolds(s))
    ensures Guarded(s')
  {
    hide CallerStep, Guarded, HoldEffect, Disturbs;
    CallerHasHoldEffect(x, s, s', c, ok);
    HoldEffectKeepsGuarded(s, s', c);
  }

  lemma AnyStepKeepsGuarded(x: Config, s: State, s': State)
    requires Guarded(s) && AnyStep(x, s, s') && (Disturbs(s, s') ==> NobodyHolds(s))
    ensures Guarded(s')
  {
    hide CallerStep;
    if c, ok :| CallerStep(x, s, s', c, ok) {
      CallerKeepsGuarded(x, s, s', c, ok);
    } else {
      assert forall c :: At(s', c) == At(s, c);
    }
  }

  /** With failing store operations, with stored results and abandoned reservations expiring, and with
      stale records removed late: at most one caller holds the key as long as no record expires or is
      removed while somebody does. */
  lemma {:induction false} OneHolderUnlessDisturbed(x: Config, run: seq<State>)
    requires AnyRun(x, run) && run[0] == INITIAL && NeverDisturbedWhileHeld(run)
    ensures forall i :: 0 <= i < |run| ==> Guarded(run[i])
  {
    hide AnyStep, Guarded, Disturbs, NobodyHolds;
    if |run| == 1 {
      NobodyHoldsAtFirst();
    } else {
      var front := run[..|run| - 1];
      assert forall i :: 0 <= i < |front| ==> front[i] == run[i];
      OneHolderUnlessDisturbed(x, front);
      assert Guarded(run[|run| - 2]) && AnyStep(x, run[|run| - 2], run[|run| - 1]);
      AnyStepKeepsGuarded(x, run[|run| - 2], run[|run| - 1]);
    }
  }

  lemma NobodyHoldsAtFirst()
    ensures Guarded(INITIAL)
  {
  }

  // ---- When the store is unavailable ----

  /** A caller runs its handler, or is about to, without having reserved the key. */
  predicate Unreserved(p: Phase) {
    p.Unprotected? || (p.Running? && !p.reserved) || (p.Returned? && !p.reserved)
  }

  /** What a store failure may do to a caller: a fail-closed middleware never lets it on without a
      reservation, a fail-open one never turns it away. */
  ghost predicate PolicyHolds(x: Config, s: State) {
    if x.failClosed then forall c :: !Unreserved(At(s, c)) else forall c :: At(s, c) != Finished(StoreUnavailable)
  }

  /** A handler starts only as the key is taken: there was no live record, and now there is the
      reservation. */
  ghost predicate StartsReserved(s: State, s': State) {
    forall c :: At(s', c).Running? && !At(s, c).Running? ==>
      (s.record == None || s.expired) && s'.record == Some(RESERVATION) && !s'.expired
  }

  lemma CallerKeepsThePolicy(x: Config, s: State, s': State, c: nat, ok: bool)
    requires PolicyHolds(x, s) && CallerStep(x, s, s', c, ok)
    ensures x.failClosed ==> !Unreserved(At(s', c))
    ensures !x.failClosed ==> At(s', c) != Finished(StoreUnavailable)
    ensures x.failClosed && At(s', c).Running? && !At(s, c).Running? ==>
              (s.record == None || s.expired) && s'.record == Some(RESERVATION) && !s'.expired
    ensures forall d :: d != c ==> At(s', d) == At(s, d)
  {
    assert x.failClosed ==> !Unreserved(At(s, c));
  }

  lemma StepKeepsThePolicy(x: Config, s: State, s': State)
    requires PolicyHolds(x, s) && AnyStep(x, s, s')
    ensures PolicyHolds(x, s') && (x.failClosed ==> StartsReserved(s, s'))
  {
    hide CallerStep;
    if c, ok :| CallerStep(x, s, s', c, ok) {
      CallerKeepsThePolicy(x, s, s', c, ok);
    } else {
      assert forall d :: At(s', d) == At(s, d);
    }
  }

  /** Over every run, failures and expiry included: a fail-closed middleware runs no handler without
      having reserved the key for it, and a fail-open one refuses no command for want of its store. */
  lemma {:induction false} FailurePolicyIsKept(x: Config, run: seq<State>)
    requires AnyRun(x, run) && run[0] == INITIAL
    ensures forall i :: 0 <= i < |run| ==> PolicyHolds(x, run[i])
    ensures x.failClosed ==> forall i :: 0 < i < |run| ==> StartsReserved(run[i - 1], run[i])
  {
    hide AnyStep, StartsReserved;
    if |run| > 1 {
      var front := run[..|run| - 1];
      assert forall i :: 0 <= i < |front| ==> front[i] == run[i];
      FailurePolicyIsKept(x, front);
      assert PolicyHolds(x, front[|front| - 1]) && AnyStep(x, run[|run| - 2], run[|run| - 1]);
      StepKeepsThePolicy(x, run[|run| - 2], run[|run| - 1]);
    }
  }

  /** Reserving the key after its record is gone or expired. */
  lemma ReservingAddsAHolder(x: Config, s: State, c: nat)
    requires !Holds(At(s, c)) && AtMostOneHolder(s) && (s.record == None || s.expired)
    ensures AtMostOneHolder(Reserve(x, s, c, true)) <==> NobodyHolds(s)
  {
    var s' := Reserve(x, s, c, true);
    assert forall d :: d != c ==> At(s', d) == At(s, d);
    if d :| Holds(At(s, d)) { assert Holds(At(s', d)) && Holds(At(s', c)); }
  }

  /** Removing a stale record it saw earlier lets a caller in exactly safely when nobody holds the key
      at the time it removes it. */
  lemma RemovalIsSafeExactlyWhen(x: Config, s: State, c: nat)
    requires Guarded(s) && At(s, c).Deleting?
    ensures Guarded(RemoveStale(s, c, true)) <==> NobodyHolds(s)
    ensures AtMostOneHolder(Reserve(x, RemoveStale(s, c, true), c, true)) <==> NobodyHolds(s)
  {
    var s' := RemoveStale(s, c, true);
    assert forall d :: d != c ==> At(s', d) == At(s, d);
    if d :| Holds(At(s, d)) { assert Holds(At(s', d)); }
    ReservingAddsAHolder(x, s', c);
  }

  /** And expiry is harmless exactly when nobody holds the key as the record expires: otherwise the
      next caller gets in beside the holder. */
  lemma ExpiryIsSafeExactlyWhen(x: Config, s: State, c: nat)
    requires Guarded(s) && s.record.Some? && At(s, c).Arriving?
    ensures Guarded(s.(expired := true)) <==> NobodyHolds(s)
    ensures var seen := Lookup(x, s.(expired := true), c, true);
            At(seen, c).Deleting? && (AtMostOneHolder(Reserve(x, RemoveStale(seen, c, true), c, true)) <==> NobodyHolds(s))
  {
    var e := s.(expired := true);
    assert forall d :: At(e, d) == At(s, d);
    var seen := Lookup(x, e, c, true);
    var s' := RemoveStale(seen, c, true);
    assert forall d :: d != c ==> At(s', d) == At(s, d);
    if d :| Holds(At(s, d)) { assert Holds(At(e, d)) && Holds(At(s', d)); }
    ReservingAddsAHolder(x, s', c);
  }

  const SUCCESS := CommandResult(true, [], 0, None, None)

  /** A first caller stores a result, which then expires. */
  lemma ResultExpires(x: Config) returns (run: seq<State>)
    ensures AnyRun(x, run) && run[0] == INITIAL
    ensures run[|run| - 1] == State(Some(RecordOf(SUCCESS)), true, map[0 := Finished(Handled(SUCCESS))])
  {
    var s0 := INITIAL;
    var s1 := Lookup(x, s0, 0, true);
    var s2 := Reserve(x, s1, 0, true);
    var s3 := Go(s2, 0, Returned(true, SUCCESS, false));
    var s4 := Settle(x, s3, 0, true);
    var s5 := s4.(expired := true);
    assert CallerStep(x, s0, s1, 0, true) && CallerStep(x, s1, s2, 0, true) && CallerStep(x, s2, s3, 0, true) && CallerStep(x, s3, s4, 0, true);
    run := [s0, s1, s2, s3, s4, s5];
  }

  /** Removing a stale record is not atomic with having seen it: two callers that both see the expired
      result can end up running their handlers at the same time. */
  lemma ExpiryBreaksExclusion(x: Config) returns (run: seq<State>)
    ensures AnyRun(x, run) && run[0] == INITIAL
    ensures var last := run[|run| - 1]; At(last, 1) == Running(true) && At(last, 2) == Running(true)
  {
    var before := ResultExpires(x);
    var s0 := before[|before| - 1];
    var s1 := Lookup(x, s0, 1, true);
    var s2 := Lookup(x, s1, 2, true);
    var s3 := RemoveStale(s2, 1, true);
    var s4 := Reserve(x, s3, 1, true);
    var s5 := RemoveStale(s4, 2, true);
    var s6 := Reserve(x, s5, 2, true);
    assert CallerStep(x, s0, s1, 1, true) && CallerStep(x, s1, s2, 2, true) && CallerStep(x, s2, s3, 1, true);
    assert CallerStep(x, s3, s4, 1, true) && CallerStep(x, s4, s5, 2, true) && CallerStep(x, s5, s6, 2, true);
    run := before + [s1, s2, s3, s4, s5, s6];
  }
}
