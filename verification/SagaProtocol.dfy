/** Several saga managers working on one saga over a version-checked store: live deliveries,
    operator re-drives and timeout sweeps, interleaved in any way. */
module SagaProtocol {
  import opened Events
  import opened SagaRow

  /** How driving the saga with an event ends. */
  datatype Outcome = ShutDown | Succeeded(complete: bool) | FailedWith(status: Status)

  /** The outcomes one step may meet: whether the event starts a saga, whether a re-drive's other
      conditions hold, how the drive ends, whether the save reaches the store, and whether a
      conflicting delivery is tried again. */
  datatype Choice = Choice(starting: bool, accept: bool, outcome: Outcome, saved: bool, again: bool)

  /** Where a call stands. `lock` is the mutex object it obtained for the saga. */
  datatype Phase =
    | Waiting(lock: nat)
    | Entered(lock: nat)
    | Loaded(lock: nat, snap: Option<Row>)
    | Hydrated(lock: nat, snap: Option<Row>)
    | Driving(lock: nat, snap: Option<Row>)
    | Saving(lock: nat, snap: Option<Row>, next: Row)
    | Saved(lock: nat, processed: seq<Key>, terminal: bool)
    | Evicting(lock: nat)
    | Leaving(lock: nat)
    | Gone

  datatype Call = Call(manager: nat, job: Job, phase: Phase)

  /** The row, each manager's cache of its processed events, each manager's current mutex for the
      saga, the mutexes held, and every call made so far. `capture` is whether managers keep the
      trigger event for re-drives. */
  datatype State = State(
    row: Option<Row>,
    caches: map<nat, seq<Key>>,
    locks: map<nat, nat>,
    nextLock: nat,
    held: set<nat>,
    calls: map<nat, Call>,
    capture: bool)

  function Initial(capture: bool): State {
    State(None, map[], map[], 0, {}, map[], capture)
  }

  function Cached(caches: map<nat, seq<Key>>, m: nat): seq<Key> {
    if m in caches then caches[m] else []
  }

  function Go(s: State, t: nat, p: Phase): State
    requires t in s.calls
  {
    s.(calls := s.calls[t := s.calls[t].(phase := p)])
  }

  function EventOf(job: Job, snap: Option<Row>): Key {
    if job.Live? then job.key
    else if snap.Some? && snap.value.captured.Some? then snap.value.captured.value
    else ""
  }

  // ---- The steps ----

  /** A call arrives and obtains the manager's mutex for the saga, creating one if there is none. */
  function Arrive(s: State, t: nat, m: nat, job: Job): State {
    if m in s.locks then s.(calls := s.calls[t := Call(m, job, Waiting(s.locks[m]))])
    else s.(locks := s.locks[m := s.nextLock], nextLock := s.nextLock + 1, calls := s.calls[t := Call(m, job, Waiting(s.nextLock))])
  }

  /** Hydrating: the cache takes over the row's list, except that a live delivery or a sweep leaves
      it alone when that list is empty. */
  function Hydrate(s: State, t: nat, c: Choice): State
    requires t in s.calls && s.calls[t].phase.Loaded?
  {
    var Call(m, job, p) := s.calls[t];
    var stop := Go(s, t, Leaving(p.lock));
    if p.snap == None then
      if job.Live? && c.starting then Go(s, t, Hydrated(p.lock, None)) else stop
    else
      var r := p.snap.value;
      var list := Adjusted(job, r);
      if job.Retry? && !(r.status.Retryable() && c.accept && r.captured.Some?) then stop
      else if job.Resume? && !(r.status == Running && c.accept && r.captured.Some?) then stop
      else if job.Timeout? && r.status.Terminal() then stop
      else if Redrives(job) || list != [] then Go(s.(caches := s.caches[m := list]), t, Hydrated(p.lock, p.snap))
      else Go(s, t, Hydrated(p.lock, p.snap))
  }

  /** A live delivery skips a terminal saga and an event it finds in the cache. */
  function Check(s: State, t: nat): State
    requires t in s.calls && s.calls[t].phase.Hydrated?
  {
    var Call(m, job, p) := s.calls[t];
    if job.Live? && ((p.snap.Some? && p.snap.value.status.Terminal()) || job.key in Cached(s.caches, m)) then Go(s, t, Leaving(p.lock))
    else Go(s, t, Driving(p.lock, p.snap))
  }

  /** The row a save would write: the cached list, with the event if it was folded. */
  function NextRow(cached: seq<Key>, capture: bool, job: Job, snap: Option<Row>, outcome: Outcome): Row
    requires !outcome.ShutDown?
  {
    var k := EventOf(job, snap);
    var version := if snap.Some? then snap.value.version + 1 else 1;
    var base := if snap.Some? then AdjustedHistory(job, snap.value) else [];
    var before := if snap.Some? then snap.value.captured else None;
    var captured := if !capture then None else if job.Live? then Some(k) else before;
    match outcome
    case Succeeded(complete) =>
      Row(version, if complete then Completed else Running, Window(cached + [k]), captured, base + [k])
    case FailedWith(status) =>
      Row(version, status, Window(cached), captured, base)
  }

  /** Driving the saga: nothing is saved on shutdown; a sweep only ever compensates. */
  function Drive(s: State, t: nat, outcome: Outcome): State
    requires t in s.calls && s.calls[t].phase.Driving?
  {
    var Call(m, job, p) := s.calls[t];
    if outcome.ShutDown? then Go(s, t, Leaving(p.lock))
    else if outcome.FailedWith? && !outcome.status.Retryable() then s
    else if job.Timeout? && !outcome.FailedWith? then s
    else Go(s, t, Saving(p.lock, p.snap, NextRow(Cached(s.caches, m), s.capture, job, p.snap, outcome)))
  }

  predicate VersionMatches(row: Option<Row>, snap: Option<Row>) {
    match snap
    case None => row == None
    case Some(r) => row.Some? && row.value.version == r.version
  }

  /** The version-checked save. A conflicting live delivery may start over under the same mutex. */
  function Save(s: State, t: nat, c: Choice): State
    requires t in s.calls && s.calls[t].phase.Saving?
  {
    var Call(m, job, p) := s.calls[t];
    if c.saved && VersionMatches(s.row, p.snap) then
      Go(s.(row := Some(p.next)), t, Saved(p.lock, p.next.processed, p.next.status.Terminal()))
    else if job.Live? && c.again then Go(s, t, Entered(p.lock))
    else Go(s, t, Leaving(p.lock))
  }

  /** The cache follows a successful save; a terminal save evicts the cache and the mutex. */
  function Publish(s: State, t: nat): State
    requires t in s.calls && s.calls[t].phase.Saved?
  {
    var Call(m, job, p) := s.calls[t];
    Go(s.(caches := s.caches[m := p.processed]), t, if p.terminal then Evicting(p.lock) else Leaving(p.lock))
  }

  function Evict(s: State, t: nat): State
    requires t in s.calls && s.calls[t].phase.Evicting?
  {
    var Call(m, job, p) := s.calls[t];
    Go(s.(caches := s.caches - {m}, locks := s.locks - {m}), t, Leaving(p.lock))
  }

  function Advance(s: State, t: nat, c: Choice): State
    requires t in s.calls
  {
    match s.calls[t].phase
    case Waiting(l) => if l in s.held then s else Go(s.(held := s.held + {l}), t, Entered(l))
    case Entered(l) => Go(s, t, Loaded(l, s.row))
    case Loaded(_, _) => Hydrate(s, t, c)
    case Hydrated(_, _) => Check(s, t)
    case Driving(_, _) => Drive(s, t, c.outcome)
    case Saving(_, _, _) => Save(s, t, c)
    case Saved(_, _, _) => Publish(s, t)
    case Evicting(_) => Evict(s, t)
    case Leaving(l) => Go(s.(held := s.held - {l}), t, Gone)
    case Gone => s
  }

  ghost predicate Step(s: State, s': State) {
    || (exists t, m, job :: t !in s.calls && s' == Arrive(s, t, m, job))
    || (exists t, c :: t in s.calls && s' == Advance(s, t, c))
  }

  ghost predicate Run(run: seq<State>) {
    run != [] && forall i :: 0 < i < |run| ==> Step(run[i - 1], run[i])
  }

  // ---- When a manager really is exclusive ----

  /** The call reads or writes the cache or the row. */
  predicate Works(p: Phase) {
    !p.Waiting? && !p.Leaving? && !p.Gone?
  }

  /** No manager works on the saga in two calls at once. */
  ghost predicate Exclusive(s: State) {
    forall t, u :: t in s.calls && u in s.calls && t != u && s.calls[t].manager == s.calls[u].manager
      ==> !Works(s.calls[t].phase) || !Works(s.calls[u].phase)
  }

  /** No call of the manager is blocked on the mutex that a call is about to evict. */
  ghost predicate EvictsAlone(s: State) {
    forall t, u :: t in s.calls && u in s.calls && s.calls[t].phase.Evicting? && s.calls[u].phase.Waiting?
      ==> s.calls[t].manager != s.calls[u].manager
  }

  /** It is enough that no manager gets two calls for the saga at once. */
  lemma OneCallAtATimeEvictsAlone(s: State)
    requires forall t, u :: t in s.calls && u in s.calls && t != u && s.calls[t].manager == s.calls[u].manager
               ==> s.calls[t].phase.Gone? || s.calls[u].phase.Gone?
    ensures EvictsAlone(s)
  {
  }

  /** The call holds the mutex it obtained. */
  predicate Holds(p: Phase) {
    Works(p) || p.Leaving?
  }

  /** Calls that work or wait obtained the manager's current mutex. */
  ghost predicate Current(s: State) {
    forall t :: t in s.calls && (Works(s.calls[t].phase) || s.calls[t].phase.Waiting?) ==>
      s.calls[t].manager in s.locks && s.locks[s.calls[t].manager] == s.calls[t].phase.lock
  }

  /** A mutex has at most one holder. */
  ghost predicate OneHolder(s: State) {
    && (forall t :: t in s.calls && Holds(s.calls[t].phase) ==> s.calls[t].phase.lock in s.held)
    && (forall t, u :: t in s.calls && u in s.calls && t != u && Holds(s.calls[t].phase) && Holds(s.calls[u].phase)
          ==> s.calls[t].phase.lock != s.calls[u].phase.lock)
  }

  /** Mutexes are never reused. */
  ghost predicate Fresh(s: State) {
    && (forall t :: t in s.calls && !s.calls[t].phase.Gone? ==> s.calls[t].phase.lock < s.nextLock)
    && (forall m :: m in s.locks ==> s.locks[m] < s.nextLock)
  }

  ghost predicate LocksOk(s: State) {
    Current(s) && OneHolder(s) && Fresh(s)
  }

  lemma LocksMeanExclusive(s: State)
    requires LocksOk(s)
    ensures Exclusive(s)
  {
  }

  lemma ArriveKeepsLocks(s: State, t: nat, m: nat, job: Job)
    requires LocksOk(s) && t !in s.calls
    ensures LocksOk(Arrive(s, t, m, job))
  {
    var s' := Arrive(s, t, m, job);
    ArriveEffect(s, t, m, job);
    assert forall u :: u in s'.calls && u != t ==> u in s.calls && s'.calls[u] == s.calls[u];
    assert Current(s') by { hide OneHolder, Fresh; }
    assert OneHolder(s') by { hide Current, Fresh; }
    assert Fresh(s') by { hide Current, OneHolder; }
  }

  lemma ArriveEffect(s: State, t: nat, m: nat, job: Job)
    requires t !in s.calls
    ensures var s' := Arrive(s, t, m, job);
            && m in s'.locks && s'.locks == s.locks[m := s'.locks[m]] && s'.held == s.held && s.nextLock <= s'.nextLock
            && s'.calls == s.calls[t := Call(m, job, Waiting(s'.locks[m]))]
            && (if m in s.locks then s'.locks == s.locks else s'.locks[m] == s.nextLock < s'.nextLock)
  {
    if m in s.locks { assert s.locks[m := s.locks[m]] == s.locks; }
  }

  /** The mutex side of a step. */
  ghost predicate LockEffect(s: State, s': State, t: nat)
    requires t in s.calls
  {
    var Call(m, job, p) := s.calls[t];
    && t in s'.calls && s'.calls == s.calls[t := s'.calls[t]] && s'.calls[t].manager == m && s'.nextLock == s.nextLock
    && var q := s'.calls[t].phase;
    && (p.Gone? ==> q.Gone?)
    && (!q.Gone? ==> !p.Gone? && q.lock == p.lock)
    && s'.locks == (if p.Evicting? then s.locks - {m} else s.locks)
    && (p.Waiting? && !q.Waiting? ==> q.Entered? && p.lock !in s.held)
    && (p.Evicting? ==> q.Leaving?)
    && (Works(p) ==> Holds(q))
    && (p.Leaving? ==> q.Gone?)
    && s'.held == (if p.Waiting? && q.Entered? then s.held + {p.lock} else if p.Leaving? then s.held - {p.lock} else s.held)
  }

  lemma AdvanceLockEffect(s: State, t: nat, c: Choice)
    requires t in s.calls
    ensures LockEffect(s, Advance(s, t, c), t)
  {
    hide NextRow, Adjusted, Cached, Window, Hydrate, Drive, Save;
    match s.calls[t].phase
    case Loaded(_, _) => HydrateLockEffect(s, t, c);
    case Driving(_, _) => DriveLockEffect(s, t, c.outcome);
    case Saving(_, _, _) => SaveLockEffect(s, t, c);
    case _ =>
  }

  lemma HydrateLockEffect(s: State, t: nat, c: Choice)
    requires t in s.calls && s.calls[t].phase.Loaded?
    ensures LockEffect(s, Hydrate(s, t, c), t)
  {
    hide Adjusted, Cached;
  }

  lemma DriveLockEffect(s: State, t: nat, outcome: Outcome)
    requires t in s.calls && s.calls[t].phase.Driving?
    ensures LockEffect(s, Drive(s, t, outcome), t)
  {
    hide NextRow, Cached;
  }

  lemma SaveLockEffect(s: State, t: nat, c: Choice)
    requires t in s.calls && s.calls[t].phase.Saving?
    ensures LockEffect(s, Save(s, t, c), t)
  {
  }

  lemma EffectKeepsOneHolder(s: State, s': State, t: nat)
    requires OneHolder(s) && t in s.calls && LockEffect(s, s', t)
    ensures OneHolder(s')
  {
    assert forall u :: u in s'.calls && u != t ==> u in s.calls && s'.calls[u] == s.calls[u];
  }

  lemma EffectKeepsCurrent(s: State, s': State, t: nat)
    requires LocksOk(s) && EvictsAlone(s) && t in s.calls && LockEffect(s, s', t)
    ensures Current(s') && Fresh(s')
  {
    LocksMeanExclusive(s);
    forall u | u in s'.calls && (Works(s'.calls[u].phase) || s'.calls[u].phase.Waiting?)
      ensures s'.calls[u].manager in s'.locks && s'.locks[s'.calls[u].manager] == s'.calls[u].phase.lock
    {
      if u != t { assert s'.calls[u] == s.calls[u]; }
    }
  }

  lemma AdvanceKeepsLocks(s: State, t: nat, c: Choice)
    requires LocksOk(s) && EvictsAlone(s) && t in s.calls
    ensures LocksOk(Advance(s, t, c))
  {
    hide Advance, LockEffect;
    AdvanceLockEffect(s, t, c);
    EffectKeepsOneHolder(s, Advance(s, t, c), t);
    EffectKeepsCurrent(s, Advance(s, t, c), t);
  }

  // ---- The invariant ----

  /** What a call read is the row, or an older version of it. */
  ghost predicate SnapOk(row: Option<Row>, snap: Option<Row>) {
    snap.Some? ==>
      && RowOk(snap.value) && row.Some? && snap.value.version <= row.value.version
      && (snap.value.version == row.value.version ==> row == snap)
  }

  /** The re-drive or sweep was accepted on what it read. */
  ghost predicate Accepted(job: Job, r: Row) {
    && (job.Retry? ==> r.status.Retryable())
    && (job.Resume? ==> r.status == Running)
    && (Redrives(job) ==> r.captured.Some?)
    && (job.Timeout? ==> !r.status.Terminal())
  }

  /** What is known at each stage of a call, given the row and its manager's cache. */
  ghost predicate CallOk(row: Option<Row>, cached: seq<Key>, job: Job, p: Phase) {
    match p
    case Loaded(_, snap) => SnapOk(row, snap)
    case Hydrated(_, snap) => SnapOk(row, snap) && HydratedOk(cached, job, snap)
    case Driving(_, snap) => SnapOk(row, snap) && DrivingOk(row, cached, job, snap)
    case Saving(_, snap, next) =>
      && SnapOk(row, snap)
      && (snap.Some? ==> RowStep(job, snap.value, next))
      && (snap == None && row == None ==> FirstRow(job, next))
    case Saved(_, _, _) => row.Some?
    case _ => true
  }

  ghost predicate HydratedOk(cached: seq<Key>, job: Job, snap: Option<Row>) {
    && (snap == None ==> job.Live?)
    && (snap.Some? ==> Accepted(job, snap.value)
                       && (Redrives(job) || snap.value.processed != [] ==> cached == Adjusted(job, snap.value)))
  }

  ghost predicate DrivingOk(row: Option<Row>, cached: seq<Key>, job: Job, snap: Option<Row>) {
    && (snap == None ==> job.Live? && (row == None ==> cached == []))
    && (snap.Some? ==> Accepted(job, snap.value) && cached == Adjusted(job, snap.value)
                       && (job.Live? ==> !snap.value.status.Terminal() && job.key !in snap.value.processed))
  }

  ghost predicate Inv(s: State) {
    && (s.row.Some? ==> RowOk(s.row.value))
    && (s.row == None ==> NothingCached(s.caches))
    && (forall t :: t in s.calls ==> CallOk(s.row, Cached(s.caches, s.calls[t].manager), s.calls[t].job, s.calls[t].phase))
  }

  ghost predicate NothingCached(caches: map<nat, seq<Key>>) {
    forall m :: m in caches ==> caches[m] == []
  }

  ghost predicate MovesOn(row: Option<Row>, row': Option<Row>) {
    row' == row || (row'.Some? && (row.Some? ==> row'.value.version > row.value.version))
  }

  /** A call is indifferent to the row moving on, as long as its manager's cache stays. */
  lemma OthersStayOk(row: Option<Row>, row': Option<Row>, cached: seq<Key>, cached': seq<Key>, job: Job, p: Phase)
    requires CallOk(row, cached, job, p) && MovesOn(row, row') && (Works(p) ==> cached' == cached)
    ensures CallOk(row', cached', job, p)
  {
  }

  /** What a call writes is a lawful change of what it read: the event it folds is not in the list
      it builds on. */
  lemma NextRowIsLawful(row: Option<Row>, cached: seq<Key>, capture: bool, job: Job, snap: Option<Row>, outcome: Outcome)
    requires SnapOk(row, snap) && DrivingOk(row, cached, job, snap) && !outcome.ShutDown?
    requires outcome.FailedWith? ==> outcome.status.Retryable()
    requires job.Timeout? ==> outcome.FailedWith?
    ensures var next := NextRow(cached, capture, job, snap, outcome);
            && (snap.Some? ==> RowStep(job, snap.value, next))
            && (snap == None && row == None ==> FirstRow(job, next))
  {
    if snap.Some? && snap.value.captured.Some? { WithoutMeans(snap.value.processed, snap.value.captured.value); }
    assert snap.Some? ==> |Adjusted(job, snap.value)| <= MAX_PROCESSED_EVENTS;
    assert [] + [EventOf(job, snap)] == [EventOf(job, snap)];
  }

  /** The row and cache side of a step. */
  ghost predicate DataEffect(s: State, s': State, t: nat)
    requires t in s.calls
  {
    var Call(m, job, p) := s.calls[t];
    && t in s'.calls && s'.calls == s.calls[t := s'.calls[t]] && s'.calls[t].manager == m && s'.calls[t].job == job
    && MovesOn(s.row, s'.row)
    && (s'.row.Some? ==> RowOk(s'.row.value))
    && (s'.caches == s.caches || (Works(p) && forall n :: n != m ==> Cached(s'.caches, n) == Cached(s.caches, n)))
    && (s'.row == None ==> NothingCached(s'.caches))
    && CallOk(s'.row, Cached(s'.caches, m), job, s'.calls[t].phase)
  }

  lemma HydrateEffect(s: State, t: nat, c: Choice)
    requires Inv(s) && t in s.calls && s.calls[t].phase.Loaded?
    ensures DataEffect(s, Hydrate(s, t, c), t)
  {
    hide RowOk, Without;
    assert CallOk(s.row, Cached(s.caches, s.calls[t].manager), s.calls[t].job, s.calls[t].phase);
  }

  lemma CheckEffect(s: State, t: nat)
    requires Inv(s) && t in s.calls && s.calls[t].phase.Hydrated?
    ensures DataEffect(s, Check(s, t), t)
  {
    assert CallOk(s.row, Cached(s.caches, s.calls[t].manager), s.calls[t].job, s.calls[t].phase);
  }

  lemma DriveEffect(s: State, t: nat, outcome: Outcome)
    requires Inv(s) && t in s.calls && s.calls[t].phase.Driving?
    ensures DataEffect(s, Drive(s, t, outcome), t)
  {
    hide RowStep, FirstRow, NextRow, RowOk;
    var Call(m, job, p) := s.calls[t];
    assert CallOk(s.row, Cached(s.caches, m), job, p);
    if !outcome.ShutDown? && (outcome.FailedWith? ==> outcome.status.Retryable()) && (job.Timeout? ==> outcome.FailedWith?) {
      NextRowIsLawful(s.row, Cached(s.caches, m), s.capture, job, p.snap, outcome);
    }
  }

  lemma SaveEffect(s: State, t: nat, c: Choice)
    requires Inv(s) && t in s.calls && s.calls[t].phase.Saving?
    ensures DataEffect(s, Save(s, t, c), t)
  {
    hide RowOk, FirstRow;
    var Call(m, job, p) := s.calls[t];
    assert CallOk(s.row, Cached(s.caches, m), job, p);
    if c.saved && VersionMatches(s.row, p.snap) {
      if p.snap.Some? { RowStepKeepsOk(job, p.snap.value, p.next); } else { FirstRowIsOk(job, p.next); }
    }
  }

  lemma AdvanceEffect(s: State, t: nat, c: Choice)
    requires Inv(s) && t in s.calls
    ensures DataEffect(s, Advance(s, t, c), t)
  {
    hide RowOk, RowStep, FirstRow, Hydrate, Check, Drive, Save;
    match s.calls[t].phase
    case Loaded(_, _) => HydrateEffect(s, t, c);
    case Hydrated(_, _) => CheckEffect(s, t);
    case Driving(_, _) => DriveEffect(s, t, c.outcome);
    case Saving(_, _, _) => SaveEffect(s, t, c);
    case _ =>
      assert CallOk(s.row, Cached(s.caches, s.calls[t].manager), s.calls[t].job, s.calls[t].phase);
  }

  lemma AdvanceKeepsInv(s: State, t: nat, c: Choice)
    requires Inv(s) && Exclusive(s) && t in s.calls
    ensures Inv(Advance(s, t, c))
  {
    hide Advance, CallOk, RowOk, Cached, NothingCached;
    var s' := Advance(s, t, c);
    AdvanceEffect(s, t, c);
    forall u | u in s.calls && u != t
      ensures CallOk(s'.row, Cached(s'.caches, s.calls[u].manager), s.calls[u].job, s.calls[u].phase)
    {
      OthersStayOk(s.row, s'.row, Cached(s.caches, s.calls[u].manager), Cached(s'.caches, s.calls[u].manager),
                   s.calls[u].job, s.calls[u].phase);
    }
  }

  lemma ArriveKeepsInv(s: State, t: nat, m: nat, job: Job)
    requires Inv(s) && t !in s.calls
    ensures Inv(Arrive(s, t, m, job))
  {
    var s' := Arrive(s, t, m, job);
    assert forall u :: u in s'.calls && u != t ==> u in s.calls && s'.calls[u] == s.calls[u];
  }

  lemma StepKeepsBoth(s: State, s': State)
    requires Inv(s) && LocksOk(s) && EvictsAlone(s) && Step(s, s')
    ensures Inv(s') && LocksOk(s')
  {
    hide Inv, LocksOk, Advance, Arrive;
    LocksMeanExclusive(s);
    if t, m, job :| t !in s.calls && s' == Arrive(s, t, m, job) {
      ArriveKeepsInv(s, t, m, job);
      ArriveKeepsLocks(s, t, m, job);
    } else {
      var t, c :| t in s.calls && s' == Advance(s, t, c);
      AdvanceKeepsInv(s, t, c);
      AdvanceKeepsLocks(s, t, c);
    }
  }

  // ---- Safety over every run ----

  ghost predicate AlwaysEvictsAlone(run: seq<State>) {
    forall i :: 0 <= i < |run| ==> EvictsAlone(run[i])
  }

  lemma InitialIsSound(capture: bool)
    ensures Inv(Initial(capture)) && LocksOk(Initial(capture))
  {
  }

  lemma {:induction false} EveryStateIsSound(run: seq<State>, capture: bool)
    requires Run(run) && run[0] == Initial(capture) && AlwaysEvictsAlone(run)
    ensures forall i :: 0 <= i < |run| ==> Inv(run[i]) && LocksOk(run[i])
  {
    hide Inv, LocksOk, Step;
    if |run| == 1 {
      InitialIsSound(capture);
    } else {
      var front := run[..|run| - 1];
      assert forall i :: 0 <= i < |front| ==> front[i] == run[i];
      EveryStateIsSound(front, capture);
      assert EvictsAlone(run[|run| - 2]) && Step(run[|run| - 2], run[|run| - 1]);
      StepKeepsBoth(run[|run| - 2], run[|run| - 1]);
    }
  }

  /** In every run in which no call is blocked on a mutex as it is evicted: no manager works on the
      saga twice at once, and the persisted list is duplicate-free, at most 100 long and equal to
      the latest events folded, and not empty unless the saga is terminal. */
  lemma PersistedListIsSound(run: seq<State>, capture: bool, i: nat)
    requires Run(run) && run[0] == Initial(capture) && AlwaysEvictsAlone(run) && i < |run|
    ensures Exclusive(run[i])
    ensures run[i].row.Some? ==>
              var r := run[i].row.value;
              && Distinct(r.processed) && |r.processed| <= MAX_PROCESSED_EVENTS
              && SuffixOf(r.processed, r.history)
              && (!r.status.Terminal() ==> r.processed != [])
  {
    EveryStateIsSound(run, capture);
    assert Inv(run[i]) && LocksOk(run[i]);
    LocksMeanExclusive(run[i]);
  }

  /** Which jobs go on with what they read: a new saga is created only by a live delivery of a starting
      event; a retry wants a settled saga that did not complete, a resume a running one, both with a
      captured event; a timeout sweep wants one that has not ended. */
  lemma OnlyTheseAreAdmitted(s: State, t: nat, c: Choice)
    requires t in s.calls && s.calls[t].phase.Loaded?
    ensures var Call(m, job, p) := s.calls[t];
            Advance(s, t, c).calls[t].phase.Hydrated? <==>
              match p.snap
              case None => job.Live? && c.starting
              case Some(r) =>
                match job
                case Live(_) => true
                case Retry => r.status != Running && r.status != Completed && c.accept && r.captured.Some?
                case Resume => r.status == Running && c.accept && r.captured.Some?
                case Timeout => r.status == Running
    ensures Advance(s, t, c).row == s.row && Advance(s, t, c).calls[t].phase in {Leaving(s.calls[t].phase.lock), Hydrated(s.calls[t].phase.lock, s.calls[t].phase.snap)}
  {
    hide Adjusted;
  }

  /** A save that the store refuses changes nothing, and only a live delivery may start over. */
  lemma OnlyDeliveriesStartOver(s: State, t: nat, c: Choice)
    requires t in s.calls && s.calls[t].phase.Saving? && !(c.saved && VersionMatches(s.row, s.calls[t].phase.snap))
    ensures var Call(m, job, p) := s.calls[t];
            Advance(s, t, c) == s.(calls := s.calls[t := Call(m, job, if job.Live? && c.again then Entered(p.lock) else Leaving(p.lock))])
    ensures VersionMatches(s.row, s.calls[t].phase.snap) <==>
            (s.row == None && s.calls[t].phase.snap == None)
            || (s.row.Some? && s.calls[t].phase.snap.Some? && s.row.value.version == s.calls[t].phase.snap.value.version)
  {
  }

  /** What a saved row says of the drive behind it, whatever other calls did between the drive and the
      save: a drive that completed the saga is saved as completed, one that did not as running, and a
      failed one under its own status; only a drive that went well lists its event, and the trigger
      event is kept exactly if managers capture it. */
  lemma SavedRowTells(s: State, t: nat, outcome: Outcome, later: State, c: Choice)
    requires t in s.calls && s.calls[t].phase.Driving? && Drive(s, t, outcome).calls[t].phase.Saving?
    requires t in later.calls && later.calls[t] == Drive(s, t, outcome).calls[t] && Save(later, t, c).row != later.row
    ensures var Call(m, job, p) := s.calls[t];
            var trigger := if job.Live? then job.key else if p.snap.Some? && p.snap.value.captured.Some? then p.snap.value.captured.value else "";
            Save(later, t, c).row.Some?
            && var r := Save(later, t, c).row.value;
               && r.version == (if p.snap == None then 1 else p.snap.value.version + 1)
               && (if later.row == None then r.version == 1 else r.version == later.row.value.version + 1)
               && (match outcome
                   case Succeeded(complete) =>
                     !job.Timeout? && r.status == (if complete then Completed else Running) && r.processed == Window(Cached(s.caches, m) + [trigger])
                   case FailedWith(status) =>
                     r.status == status && r.status.Retryable() && r.processed == Window(Cached(s.caches, m))
                   case ShutDown => false)
               && (!s.capture ==> r.captured == None)
               && (s.capture ==> r.captured == if job.Live? then Some(job.key) else if p.snap.Some? then p.snap.value.captured else None)
  {
    hide Window;
  }

  ghost predicate Lawful(job: Job, row: Option<Row>, next: Row) {
    if row.Some? then RowStep(job, row.value, next) else FirstRow(job, next)
  }

  /** The change of the row is one that some job may make. */
  ghost predicate LawfulChange(row: Option<Row>, next: Row) {
    exists job :: Lawful(job, row, next)
  }

  /** In the same runs every change of the row is a lawful one: a terminal row changes only by an
      operator's retry, which clears only the retried event's key, and an event still listed is
      never folded again. */
  lemma EveryChangeIsLawful(run: seq<State>, capture: bool, i: nat)
    requires Run(run) && run[0] == Initial(capture) && AlwaysEvictsAlone(run)
    requires 0 < i < |run| && run[i].row != run[i - 1].row
    ensures run[i].row.Some?
    ensures LawfulChange(run[i - 1].row, run[i].row.value)
  {
    EveryStateIsSound(run, capture);
    assert Inv(run[i - 1]) && Step(run[i - 1], run[i]);
    ChangeIsLawful(run[i - 1], run[i]);
  }

  lemma ChangeIsLawful(s: State, s': State)
    requires Inv(s) && Step(s, s') && s'.row != s.row
    ensures s'.row.Some?
    ensures LawfulChange(s.row, s'.row.value)
  {
    hide RowOk, RowStep, FirstRow, Hydrate, Check, Drive;
    var t, c :| t in s.calls && s' == Advance(s, t, c);
    var Call(m, job, p) := s.calls[t];
    OnlySavesChangeTheRow(s, t, c);
    assert CallOk(s.row, Cached(s.caches, m), job, p);
    assert Lawful(job, s.row, s'.row.value);
  }

  lemma OnlySavesChangeTheRow(s: State, t: nat, c: Choice)
    requires t in s.calls && Advance(s, t, c).row != s.row
    ensures s.calls[t].phase.Saving?
  {
  }

  // ---- Without retry capture nothing is needed ----

  /** No trigger event has been kept anywhere. */
  ghost predicate NothingCaptured(s: State) {
    && !s.capture && (s.row.Some? ==> s.row.value.captured == None)
    && forall t :: t in s.calls ==> Bare(s.calls[t].phase)
  }

  predicate Bare(p: Phase) {
    match p
    case Loaded(_, snap) => snap.Some? ==> snap.value.captured == None
    case Hydrated(_, snap) => snap.Some? ==> snap.value.captured == None
    case Driving(_, snap) => snap.Some? ==> snap.value.captured == None
    case Saving(_, snap, next) => (snap.Some? ==> snap.value.captured == None) && next.captured == None
    case _ => true
  }

  /** The saga is still running: no mutex has been evicted, so every call is exclusive. */
  ghost predicate Open(s: State) {
    && Inv(s) && LocksOk(s) && NothingCaptured(s)
    && (s.row.Some? ==> !s.row.value.status.Terminal())
    && forall t :: t in s.calls ==> !s.calls[t].phase.Evicting? && (s.calls[t].phase.Saved? ==> !s.calls[t].phase.terminal)
  }

  /** What a call read before the saga ended is out of date. */
  predicate Overtaken(r: Row, job: Job, p: Phase) {
    match p
    case Loaded(_, snap) => snap.Some? ==> snap.value.version < r.version || snap.value == r
    case Hydrated(_, snap) => snap.Some? ==> snap.value.version < r.version || (snap.value == r && job.Live?)
    case Driving(_, snap) => snap.Some? ==> snap.value.version < r.version
    case Saving(_, snap, _) => snap.Some? ==> snap.value.version < r.version
    case _ => true
  }

  /** The saga has ended, and no call can change its row any more, however the calls interleave. */
  ghost predicate Frozen(s: State) {
    && NothingCaptured(s) && s.row.Some? && RowOk(s.row.value) && s.row.value.status.Terminal()
    && forall t :: t in s.calls ==> Overtaken(s.row.value, s.calls[t].job, s.calls[t].phase)
  }

  /** What a step does to the call that takes it, when nothing has been captured: the call gets to
      evict only after a terminal save. */
  ghost predicate BareEffect(s: State, s': State, t: nat)
    requires t in s.calls
  {
    var p := s.calls[t].phase;
    && t in s'.calls && s'.calls == s.calls[t := s'.calls[t]] && s'.calls[t].job == s.calls[t].job && s'.capture == s.capture
    && var q := s'.calls[t].phase;
    && Bare(q)
    && (s'.row.Some? ==> s'.row.value.captured == None)
    && (q.Evicting? ==> p.Evicting? || (p.Saved? && p.terminal))
    && (q.Saved? && q.terminal ==> (p.Saved? && p.terminal) || (s'.row.Some? && s'.row.value.status.Terminal()))
  }

  ghost predicate BareAt(s: State, t: nat) {
    && !s.capture && (s.row.Some? ==> s.row.value.captured == None)
    && t in s.calls && Bare(s.calls[t].phase)
  }

  lemma HydrateIsBare(s: State, t: nat, c: Choice)
    requires BareAt(s, t) && s.calls[t].phase.Loaded?
    ensures BareEffect(s, Hydrate(s, t, c), t)
  {
    hide Adjusted;
  }

  lemma CheckIsBare(s: State, t: nat)
    requires BareAt(s, t) && s.calls[t].phase.Hydrated?
    ensures BareEffect(s, Check(s, t), t)
  {
    hide Cached;
  }

  lemma DriveIsBare(s: State, t: nat, outcome: Outcome)
    requires BareAt(s, t) && s.calls[t].phase.Driving?
    ensures BareEffect(s, Drive(s, t, outcome), t)
  {
    hide Cached, Window, AdjustedHistory;
  }

  lemma SaveIsBare(s: State, t: nat, c: Choice)
    requires BareAt(s, t) && s.calls[t].phase.Saving?
    ensures BareEffect(s, Save(s, t, c), t)
  {
  }

  lemma AdvanceIsBare(s: State, t: nat, c: Choice)
    requires BareAt(s, t)
    ensures BareEffect(s, Advance(s, t, c), t)
  {
    hide Hydrate, Check, Drive, Save;
    match s.calls[t].phase
    case Loaded(_, _) => HydrateIsBare(s, t, c);
    case Hydrated(_, _) => CheckIsBare(s, t);
    case Driving(_, _) => DriveIsBare(s, t, c.outcome);
    case Saving(_, _, _) => SaveIsBare(s, t, c);
    case _ =>
  }

  lemma AdvanceCapturesNothing(s: State, t: nat, c: Choice)
    requires NothingCaptured(s) && t in s.calls
    ensures NothingCaptured(Advance(s, t, c)) && BareEffect(s, Advance(s, t, c), t)
  {
    hide Advance, Bare;
    AdvanceIsBare(s, t, c);
  }

  /** The call that takes a step cannot change the row of a saga that has ended. */
  ghost predicate Harmless(s: State, s': State, t: nat)
    requires s.row.Some?
  {
    s'.row == s.row && t in s'.calls && Overtaken(s.row.value, s'.calls[t].job, s'.calls[t].phase)
  }

  ghost predicate FrozenAt(s: State, t: nat) {
    BareAt(s, t) && s.row.Some? && s.row.value.status.Terminal() && Overtaken(s.row.value, s.calls[t].job, s.calls[t].phase)
  }

  lemma HydrateIsHarmless(s: State, t: nat, c: Choice)
    requires FrozenAt(s, t) && s.calls[t].phase.Loaded?
    ensures Harmless(s, Hydrate(s, t, c), t)
  {
    hide Adjusted;
  }

  lemma SaveIsHarmless(s: State, t: nat, c: Choice)
    requires FrozenAt(s, t) && s.calls[t].phase.Saving?
    ensures Harmless(s, Save(s, t, c), t)
  {
  }

  lemma FrozenCallIsHarmless(s: State, t: nat, c: Choice)
    requires FrozenAt(s, t)
    ensures Harmless(s, Advance(s, t, c), t)
  {
    hide NextRow, Cached, Hydrate, Save;
    match s.calls[t].phase
    case Loaded(_, _) => HydrateIsHarmless(s, t, c);
    case Saving(_, _, _) => SaveIsHarmless(s, t, c);
    case _ =>
  }

  lemma FrozenStays(s: State, t: nat, c: Choice)
    requires Frozen(s) && t in s.calls
    ensures Frozen(Advance(s, t, c)) && Advance(s, t, c).row == s.row
  {
    hide RowOk, Advance, Overtaken, Bare;
    AdvanceCapturesNothing(s, t, c);
    FrozenCallIsHarmless(s, t, c);
  }

  lemma OpenMovesOn(s: State, t: nat, c: Choice)
    requires Open(s) && t in s.calls
    ensures Open(Advance(s, t, c)) || Frozen(Advance(s, t, c))
  {
    var s' := Advance(s, t, c);
    hide CallOk, RowOk, Advance, Arrive, LocksOk, Bare, Overtaken, Inv;
    assert EvictsAlone(s);
    StepKeepsBoth(s, s');
    InvMeans(s');
    AdvanceCapturesNothing(s, t, c);
    if s'.row.Some? && s'.row.value.status.Terminal() { EndIsFrozen(s, t, c); }
  }

  lemma InvMeans(s: State)
    requires Inv(s)
    ensures s.row.Some? ==> RowOk(s.row.value)
  {
  }

  /** As the saga ends, everything the other calls have read becomes out of date. */
  lemma EndIsFrozen(s: State, t: nat, c: Choice)
    requires Inv(s) && (s.row.Some? ==> !s.row.value.status.Terminal()) && t in s.calls
    requires var row := Advance(s, t, c).row; row.Some? && row.value.status.Terminal()
    ensures var s' := Advance(s, t, c); forall u :: u in s'.calls ==> Overtaken(s'.row.value, s'.calls[u].job, s'.calls[u].phase)
  {
    hide Overtaken, CallOk, RowOk, Advance, Cached;
    var s' := Advance(s, t, c);
    OnlySavesChangeTheRow(s, t, c);
    AdvanceEffect(s, t, c);
    SavedIsOvertaken(s, t, c);
    forall u | u in s'.calls
      ensures Overtaken(s'.row.value, s'.calls[u].job, s'.calls[u].phase)
    {
      if u != t { SnapshotIsOvertaken(s.row, s'.row, Cached(s.caches, s.calls[u].manager), s.calls[u].job, s.calls[u].phase); }
    }
  }

  lemma SavedIsOvertaken(s: State, t: nat, c: Choice)
    requires t in s.calls && Advance(s, t, c).row != s.row
    ensures var s' := Advance(s, t, c); s'.row.Some? && t in s'.calls && Overtaken(s'.row.value, s'.calls[t].job, s'.calls[t].phase)
  {
    OnlySavesChangeTheRow(s, t, c);
    hide Hydrate, Check, Drive;
  }

  lemma OpenMeans(s: State)
    requires Open(s)
    ensures Inv(s) && LocksOk(s) && NothingCaptured(s) && forall t :: t in s.calls ==> !s.calls[t].phase.Evicting?
  {
  }

  lemma SnapshotIsOvertaken(row: Option<Row>, row': Option<Row>, cached: seq<Key>, job: Job, p: Phase)
    requires CallOk(row, cached, job, p) && MovesOn(row, row') && row' != row
    ensures Overtaken(row'.value, job, p)
  {
  }

  lemma ArriveStays(s: State, t: nat, m: nat, job: Job)
    requires (Open(s) || Frozen(s)) && t !in s.calls
    ensures Open(Arrive(s, t, m, job)) || Frozen(Arrive(s, t, m, job))
  {
    hide Inv, LocksOk;
    var s' := Arrive(s, t, m, job);
    ArriveEffect(s, t, m, job);
    assert forall u :: u in s'.calls && u != t ==> u in s.calls && s'.calls[u] == s.calls[u];
    if Open(s) {
      ArriveKeepsInv(s, t, m, job);
      ArriveKeepsLocks(s, t, m, job);
    }
  }

  lemma StepStays(s: State, s': State)
    requires (Open(s) || Frozen(s)) && Step(s, s')
    ensures Open(s') || Frozen(s')
    ensures s'.row != s.row ==> s'.row.Some? && LawfulChange(s.row, s'.row.value)
  {
    hide Open, Frozen, Inv, Advance, Arrive, Lawful;
    if t, m, job :| t !in s.calls && s' == Arrive(s, t, m, job) {
      ArriveStays(s, t, m, job);
      ArriveLeavesRow(s, t, m, job);
    } else {
      var t, c :| t in s.calls && s' == Advance(s, t, c);
      if Frozen(s) {
        FrozenStays(s, t, c);
      } else {
        OpenMovesOn(s, t, c);
        OpenMeans(s);
        if s'.row != s.row { ChangeIsLawful(s, s'); }
      }
    }
  }

  lemma ArriveLeavesRow(s: State, t: nat, m: nat, job: Job)
    ensures Arrive(s, t, m, job).row == s.row
  {
  }

  lemma {:induction false} EveryStateIsOpenOrFrozen(run: seq<State>)
    requires Run(run) && run[0] == Initial(false)
    ensures forall i :: 0 <= i < |run| ==> Open(run[i]) || Frozen(run[i])
  {
    hide Open, Frozen, Step;
    if |run| == 1 {
      InitialIsOpen();
    } else {
      var front := run[..|run| - 1];
      assert forall i :: 0 <= i < |front| ==> front[i] == run[i];
      EveryStateIsOpenOrFrozen(front);
      assert Open(run[|run| - 2]) || Frozen(run[|run| - 2]);
      assert Step(run[|run| - 2], run[|run| - 1]);
      StepStays(run[|run| - 2], run[|run| - 1]);
    }
  }

  lemma InitialIsOpen()
    ensures Open(Initial(false))
  {
    InitialIsSound(false);
  }

  // ---- Exactly then ----

  /** In every run the row is sound. */
  ghost predicate AlwaysSound(capture: bool) {
    forall run: seq<State>, i: int :: Run(run) && run[0] == Initial(capture) && 0 <= i < |run| && run[i].row.Some? ==> RowOk(run[i].row.value)
  }

  /** In every run each change of the row is a lawful one. */
  ghost predicate AlwaysLawful(capture: bool) {
    forall run: seq<State>, i: int :: Run(run) && run[0] == Initial(capture) && 0 < i < |run| && run[i].row != run[i - 1].row
      ==> run[i].row.Some? && LawfulChange(run[i - 1].row, run[i].row.value)
  }

  lemma SoundWithoutCapture()
    ensures AlwaysSound(false) && AlwaysLawful(false)
  {
    hide Step, Lawful, RowOk;
    forall run: seq<State>, i: int | Run(run) && run[0] == Initial(false) && 0 <= i < |run|
      ensures run[i].row.Some? ==> RowOk(run[i].row.value)
      ensures i > 0 && run[i].row != run[i - 1].row ==> run[i].row.Some? && LawfulChange(run[i - 1].row, run[i].row.value)
    {
      EveryStateIsOpenOrFrozen(run);
      assert Open(run[i]) || Frozen(run[i]);
      if i > 0 {
        assert Open(run[i - 1]) || Frozen(run[i - 1]);
        assert Step(run[i - 1], run[i]);
        StepStays(run[i - 1], run[i]);
      }
    }
  }

  /** However deliveries, sweeps and operators' calls of any number of managers interleave, the
      persisted list is sound in every run, and changes lawfully in every run, exactly when managers
      do not capture trigger events for retries. */
  lemma SoundExactlyWithoutCapture(capture: bool)
    ensures AlwaysSound(capture) <==> !capture
    ensures AlwaysLawful(capture) <==> !capture
  {
    hide Run, RowOk, LawfulChange;
    if capture {
      var run := EvictionUnderAWaiterDuplicates("k");
      assert run[|run| - 1].row.Some? && run[|run| - 1].row != run[|run| - 2].row;
    } else {
      SoundWithoutCapture();
    }
  }

  // ---- Why capture needs the condition ----

  const ACCEPT := Choice(true, true, FailedWith(Compensated), true, true)
  const FOLD := Choice(true, true, Succeeded(false), true, true)

  function Started(k: Key): Row {
    Row(1, Running, [k], Some(k), [k])
  }

  function Swept(k: Key): Row {
    Row(2, Compensated, [k], Some(k), [k])
  }

  /** A first delivery finds no saga. */
  lemma DeliveryArrives(k: Key) returns (run: seq<State>)
    ensures Run(run) && run[0] == Initial(true)
    ensures run[|run| - 1] == State(None, map[], map[0 := 0], 1, {0}, map[0 := Call(0, Live(k), Driving(0, None))], true)
  {
    var s0 := Initial(true);
    var s1 := Arrive(s0, 0, 0, Live(k));
    var s2 := Advance(s1, 0, FOLD);
    var s3 := Advance(s2, 0, FOLD);
    var s4 := Advance(s3, 0, FOLD);
    var s5 := Advance(s4, 0, FOLD);
    run := [s0, s1, s2, s3, s4, s5];
  }

  /** And starts one. */
  lemma DeliveryFolds(s0: State, k: Key) returns (run: seq<State>)
    requires s0 == State(None, map[], map[0 := 0], 1, {0}, map[0 := Call(0, Live(k), Driving(0, None))], true)
    ensures Run(run) && run[0] == s0
    ensures run[|run| - 1] == State(Some(Started(k)), map[0 := [k]], map[0 := 0], 1, {}, map[0 := Call(0, Live(k), Gone)], true)
  {
    var s1 := Advance(s0, 0, FOLD);
    assert [] + [k] == [k];
    assert s1.calls[0].phase == Saving(0, None, Started(k));
    var s2 := Advance(s1, 0, FOLD);
    var s3 := Advance(s2, 0, FOLD);
    assert s3.calls[0].phase == Leaving(0);
    var s4 := Advance(s3, 0, FOLD);
    run := [s0, s1, s2, s3, s4];
  }

  /** A redelivery blocks behind the timeout sweep. */
  lemma RedeliveryWaits(s0: State, k: Key) returns (run: seq<State>)
    requires s0 == State(Some(Started(k)), map[0 := [k]], map[0 := 0], 1, {}, map[0 := Call(0, Live(k), Gone)], true)
    ensures Run(run) && run[0] == s0
    ensures run[|run| - 1] ==
      State(s0.row, map[0 := [k]], map[0 := 0], 1, {0},
            map[0 := Call(0, Live(k), Gone), 1 := Call(0, Timeout, Driving(0, s0.row)), 2 := Call(0, Live(k), Waiting(0))], true)
  {
    var s1 := Arrive(s0, 1, 0, Timeout);
    var s2 := Arrive(s1, 2, 0, Live(k));
    var s3 := Advance(s2, 1, ACCEPT);
    var s4 := Advance(s3, 1, ACCEPT);
    var s5 := Advance(s4, 1, ACCEPT);
    assert s5.calls[1].phase == Hydrated(0, s0.row) && s5.caches == map[0 := [k]];
    var s6 := Advance(s5, 1, ACCEPT);
    run := [s0, s1, s2, s3, s4, s5, s6];
  }

  /** The sweep's terminal save evicts the very mutex the redelivery blocks on. */
  lemma SweepEvictsUnderAWaiter(s0: State, k: Key) returns (run: seq<State>)
    requires s0 == State(Some(Started(k)), map[0 := [k]], map[0 := 0], 1, {0},
                         map[0 := Call(0, Live(k), Gone), 1 := Call(0, Timeout, Driving(0, s0.row)), 2 := Call(0, Live(k), Waiting(0))], true)
    ensures Run(run) && run[0] == s0
    ensures run[|run| - 1] ==
      State(Some(Swept(k)), map[], map[], 1, {0},
            map[0 := Call(0, Live(k), Gone), 1 := Call(0, Timeout, Leaving(0)), 2 := Call(0, Live(k), Waiting(0))], true)
    ensures !EvictsAlone(run[|run| - 2])
  {
    var s1 := Advance(s0, 1, ACCEPT);
    assert s1.calls[1].phase == Saving(0, s0.row, Swept(k));
    var s2 := Advance(s1, 1, ACCEPT);
    var s3 := Advance(s2, 1, ACCEPT);
    assert s3.calls[1].phase.Evicting? && s3.calls[2].phase.Waiting?;
    var s4 := Advance(s3, 1, ACCEPT);
    run := [s0, s1, s2, s3, s4];
  }

  /** A retry takes a new mutex and clears the event from the list it caches. */
  lemma RetryHydrates(s0: State, k: Key) returns (run: seq<State>)
    requires s0 == State(Some(Swept(k)), map[], map[], 1, {0},
                         map[0 := Call(0, Live(k), Gone), 1 := Call(0, Timeout, Leaving(0)), 2 := Call(0, Live(k), Waiting(0))], true)
    ensures Run(run) && run[0] == s0
    ensures var last := run[|run| - 1];
            && last.row == s0.row && last.capture && last.held == {0, 1}
            && last.calls == s0.calls[3 := Call(0, Retry, Hydrated(1, s0.row))]
  {
    var s1 := Arrive(s0, 3, 0, Retry);
    var s2 := Advance(s1, 3, ACCEPT);
    var s3 := Advance(s2, 3, ACCEPT);
    assert s3.calls[3].phase == Loaded(1, s0.row);
    var s4 := Advance(s3, 3, ACCEPT);
    assert s4.calls[3].phase == Hydrated(1, s0.row);
    run := [s0, s1, s2, s3, s4];
  }

  /** The redelivery, released, works beside it on the old mutex: it reads the row again and
      rewrites the cache the retry had adjusted. */
  lemma RedeliveryRehydrates(s0: State, k: Key) returns (run: seq<State>)
    requires s0.row == Some(Swept(k)) && s0.held == {0, 1}
    requires s0.calls == map[0 := Call(0, Live(k), Gone), 1 := Call(0, Timeout, Leaving(0)), 2 := Call(0, Live(k), Waiting(0)),
                             3 := Call(0, Retry, Hydrated(1, s0.row))]
    ensures Run(run) && run[0] == s0
    ensures var last := run[|run| - 1];
            && last.row == s0.row && Cached(last.caches, 0) == [k] && last.capture == s0.capture
            && 3 in last.calls && last.calls[3] == Call(0, Retry, Hydrated(1, s0.row))
  {
    var s1 := Advance(s0, 1, ACCEPT);
    var s2 := Advance(s1, 2, ACCEPT);
    var s3 := Advance(s2, 2, ACCEPT);
    assert s3.calls[2].phase == Loaded(0, s0.row);
    var s4 := Advance(s3, 2, ACCEPT);
    run := [s0, s1, s2, s3, s4];
  }

  /** The retry then folds the event into the rewritten list. */
  lemma RetryFoldsTwice(s0: State, k: Key) returns (run: seq<State>)
    requires s0.row == Some(Swept(k)) && Cached(s0.caches, 0) == [k] && 3 in s0.calls && s0.calls[3] == Call(0, Retry, Hydrated(1, s0.row))
    ensures Run(run) && run[0] == s0 && |run| > 1 && run[|run| - 2].row == s0.row
    ensures var last := run[|run| - 1]; last.row.Some? && last.row.value.processed == [k, k]
  {
    var s1 := Advance(s0, 3, ACCEPT);
    var s2 := Advance(s1, 3, FOLD);
    assert s2.calls[3].phase.Saving? && s2.calls[3].phase.next.processed == [k] + [k];
    var s3 := Advance(s2, 3, ACCEPT);
    run := [s0, s1, s2, s3];
  }

  /** With retry capture on, evicting a mutex a call is blocked on defeats the per-saga exclusion:
      from the empty store a run leads to a persisted list that holds an event twice, by a change no
      job may make. */
  lemma EvictionUnderAWaiterDuplicates(k: Key) returns (run: seq<State>)
    ensures Run(run) && run[0] == Initial(true) && |run| > 1 && !AlwaysEvictsAlone(run)
    ensures var before, after := run[|run| - 2].row, run[|run| - 1].row;
            after.Some? && after != before && !Distinct(after.value.processed) && !RowOk(after.value) && !LawfulChange(before, after.value)
  {
    hide Step, Distinct, EvictsAlone, LawfulChange, RowOk;
    var started := DeliveryArrives(k);
    var folded := DeliveryFolds(started[|started| - 1], k);
    var a := Joined(started, folded);
    var b := RedeliveryWaits(a[|a| - 1], k);
    var c := SweepEvictsUnderAWaiter(b[|b| - 1], k);
    var d := RetryHydrates(c[|c| - 1], k);
    var e := RedeliveryRehydrates(d[|d| - 1], k);
    var f := RetryFoldsTwice(e[|e| - 1], k);
    var ab := Joined(a, b);
    var abc := Joined(ab, c);
    var abcd := Joined(abc, d);
    var ef := Joined(e, f);
    run := Joined(abcd, ef);
    assert run[|ab| + |c| - 3] == c[|c| - 2];
    assert ef[|ef| - 2] == f[|f| - 2] && run[|run| - 2] == ef[|ef| - 2];
    DoubledIsUnlawful(k, run[|run| - 1].row.value);
  }

  lemma Joined(a: seq<State>, b: seq<State>) returns (run: seq<State>)
    requires Run(a) && Run(b) && a[|a| - 1] == b[0]
    ensures Run(run) && run == a + b[1..] && run[0] == a[0] && run[|run| - 1] == b[|b| - 1]
  {
    hide Step;
    run := a + b[1..];
    forall i | 0 < i < |run|
      ensures Step(run[i - 1], run[i])
    {
      if i < |a| {
        assert run[i - 1] == a[i - 1] && run[i] == a[i];
      } else {
        assert run[i - 1] == b[i - |a|] && run[i] == b[i - |a| + 1];
      }
    }
  }

  /** No job turns a list that holds one event into one that holds it twice. */
  lemma DoubledIsUnlawful(k: Key, next: Row)
    requires next.processed == [k, k]
    ensures !Distinct(next.processed) && !RowOk(next) && !LawfulChange(Some(Swept(k)), next)
  {
    DistinctSnoc([k], k);
    assert [k] + [k] == [k, k];
    WithoutMeans([k], k);
    forall job
      ensures !Lawful(job, Some(Swept(k)), next)
    {
      assert Without([k], k) == [];
      assert |Window([] + [k])| == 1;
    }
  }
}
