/** What an asynchronous projection worker does, as functions of what it meets: one batch, one
    poison decision, one polling turn, one lifetime, one supervised life. */
module ProjectionSpec {
  import opened Events

  datatype ApplyOutcome = Done | Errored | Panicked

  /** What the projection's own batch handler answers; NotImplemented sends the worker to Apply. */
  datatype BatchOutcome = NotImplemented | BatchDone | BatchErrored | BatchPanicked

  /** What one cycle meets: whether loading (or anything else before the events are handled)
      fails, which events cannot be decrypted, what the handlers answer, and whether the
      checkpoint can be written. */
  datatype Cycle = Cycle(
    loadFails: bool,
    undecryptable: set<nat>,
    batch: BatchOutcome,
    outcome: nat -> ApplyOutcome,
    writeFails: bool)

  datatype ProjectionState = Idle | CatchingUp | Running | Paused | Restarting | Faulted | Stopped

  /** The worker with its persisted checkpoint and its history: the positions it applied
      successfully at least once, and those the poison handler accepted to skip. */
  datatype Worker = Worker(
    state: ProjectionState,
    lastPosition: nat,
    failedEvent: Option<StoredEvent>,
    checkpoint: nat,
    applied: set<nat>,
    accepted: set<nat>)

  datatype Options = Options(
    handles: string -> bool,
    batchSize: nat,
    shouldRetry: nat -> bool,
    onPoison: Option<StoredEvent -> bool>,     // whether the handler accepts the skip
    restart: Option<nat -> bool>,              // whether the policy permits the n-th restart
    startFromBeginning: bool)

  function Handled(x: Options, events: seq<StoredEvent>): seq<StoredEvent> {
    if events == [] then []
    else if x.handles(events[0].eventType) then [events[0]] + Handled(x, events[1..])
    else Handled(x, events[1..])
  }

  /** How many events precede the first handled one that cannot be decrypted. */
  function Readable(x: Options, events: seq<StoredEvent>, undecryptable: set<nat>): (n: nat)
    ensures n <= |events|
  {
    if events == [] || (x.handles(events[0].eventType) && events[0].position in undecryptable) then 0
    else Readable(x, events[1..], undecryptable) + 1
  }

  /** How many events Apply accepts before the first that fails. */
  function Successes(events: seq<StoredEvent>, outcome: nat -> ApplyOutcome): (n: nat)
    ensures n <= |events|
  {
    if events == [] || outcome(events[0].position) != Done then 0 else Successes(events[1..], outcome) + 1
  }

  function Positions(events: seq<StoredEvent>): set<nat> {
    set e | e in events :: e.position
  }

  function MoveTo(w: Worker, position: nat, writeFails: bool): Worker {
    w.(lastPosition := position, checkpoint := if writeFails then w.checkpoint else position)
  }

  /** Hands the events to the projection; the boolean is whether all went well. */
  function Apply(w: Worker, events: seq<StoredEvent>, c: Cycle): (Worker, bool)
    requires events != []
  {
    match c.batch
    case BatchDone => (w.(applied := w.applied + Positions(events)), true)
    case BatchErrored => (w.(failedEvent := Some(events[|events| - 1])), false)
    case BatchPanicked => (w, false)
    case NotImplemented =>
      var n := Successes(events, c.outcome);
      var u := w.(applied := w.applied + Positions(events[..n]));
      if n == |events| then (u, true)
      else if c.outcome(events[n].position) == Errored then (u.(failedEvent := Some(events[n])), false)
      else (u, false)
  }

  /** One batch. A failure leaves the position where it was; an undecryptable event in the middle
      cuts the batch before it, at the front it is the failed event. */
  function ProcessBatch(x: Options, w: Worker, log: seq<StoredEvent>, c: Cycle): (Worker, bool) {
    var loaded := LoadFrom(log, w.lastPosition, x.batchSize);
    var n := Readable(x, loaded, c.undecryptable);
    if c.loadFails then (w, false)
    else if loaded == [] then (w, true)
    else if n == 0 then (w.(failedEvent := Some(loaded[0])), false)
    else
      var kept := loaded[..n];
      var events := Handled(x, kept);
      if events == [] then (MoveTo(w, kept[n - 1].position, c.writeFails), true)
      else
        var (u, ok) := Apply(w, events, c);
        if ok then (MoveTo(u.(failedEvent := None), kept[n - 1].position, c.writeFails), true) else (u, false)
  }

  /** Skips the failed event if the poison handler accepts that. */
  function HandlePoison(x: Options, w: Worker, writeFails: bool): (Worker, bool) {
    if x.onPoison == None || w.failedEvent == None || !x.onPoison.value(w.failedEvent.value) then (w, false)
    else
      var p := w.failedEvent.value.position;
      (MoveTo(w.(failedEvent := None, accepted := w.accepted + {p}), p, writeFails), true)
  }

  // ---- A lifetime ----

  datatype Exit = Alive | ExitStopped | ExitFaulted

  /** What one polling turn meets: the log as it then is, a stop request, a pause, the cycle, how
      an error is classified, and whether a skip's checkpoint can be written. */
  datatype Turn = Turn(
    log: seq<StoredEvent>,
    stop: bool,
    paused: bool,
    cycle: Cycle,
    canceled: bool,
    transient: bool,
    stopInBackoff: bool,
    skipWriteFails: bool)

  datatype Loop = Loop(w: Worker, poisonErrors: nat, backoffErrors: nat, exit: Exit)

  /** The failing branch of a turn. A poison error shows as a fault at once, a transient one never. */
  function OnError(x: Options, s: Loop, t: Turn): Loop {
    if t.canceled then s.(w := s.w.(state := Stopped), exit := ExitStopped)
    else
      var poisonErrors := if t.transient then s.poisonErrors else s.poisonErrors + 1;
      var failing := if t.transient then s.w else s.w.(state := Faulted);
      if !t.transient && !x.shouldRetry(poisonErrors) then
        var (w, skipped) := HandlePoison(x, failing, t.skipWriteFails);
        if skipped then Loop(w.(state := Running), 0, 0, Alive) else Loop(w, poisonErrors, s.backoffErrors + 1, ExitFaulted)
      else if t.stopInBackoff then Loop(failing.(state := Stopped), poisonErrors, s.backoffErrors + 1, ExitStopped)
      else Loop(failing, poisonErrors, s.backoffErrors + 1, Alive)
  }

  /** Whoever ends a pause also sets the state back. */
  function Resumed(w: Worker): Worker {
    if w.state == Paused then w.(state := Running) else w
  }

  function TakeTurn(x: Options, s: Loop, t: Turn): Loop {
    if s.exit != Alive then s
    else if t.stop then s.(w := s.w.(state := Stopped), exit := ExitStopped)
    else if t.paused then s.(w := s.w.(state := Paused))
    else
      var (w, ok) := ProcessBatch(x, Resumed(s.w), t.log, t.cycle);
      if ok then Loop(if s.backoffErrors > 0 then w.(state := Running) else w, 0, 0, Alive) else OnError(x, s.(w := w), t)
  }

  function Poll(x: Options, s: Loop, turns: seq<Turn>): Loop {
    if turns == [] then s else TakeTurn(x, Poll(x, s, turns[..|turns| - 1]), turns[|turns| - 1])
  }

  datatype Read = ReadOk | ReadShutdown | ReadFailed

  const CHECKPOINT_READ_RETRIES := 3

  /** Reading the checkpoint is retried unless the engine is shutting down. */
  function ReadWithRetry(attempts: nat -> Read, attempt: nat): Read
    decreases CHECKPOINT_READ_RETRIES - attempt
  {
    if attempt >= CHECKPOINT_READ_RETRIES then ReadFailed
    else if attempts(attempt) != ReadFailed then attempts(attempt)
    else ReadWithRetry(attempts, attempt + 1)
  }

  datatype Lifetime = Lifetime(attempts: nat -> Read, turns: seq<Turn>, stopInRestart: bool)

  /** Where a lifetime starts. */
  function Boot(x: Options, w: Worker, resume: bool, attempts: nat -> Read): (Worker, Exit) {
    if !resume && x.startFromBeginning then (w.(state := Running, lastPosition := 0), Alive)
    else
      match ReadWithRetry(attempts, 0)
      case ReadOk => (w.(state := Running, lastPosition := w.checkpoint), Alive)
      case ReadShutdown => (w.(state := Stopped), ExitStopped)
      case ReadFailed => (w.(state := Faulted), ExitFaulted)
  }

  function RunOnce(x: Options, w: Worker, resume: bool, life: Lifetime): (Worker, Exit) {
    var (u, exit) := Boot(x, w, resume, life.attempts);
    if exit != Alive then (u, exit)
    else
      var s := Poll(x, Loop(u, 0, 0, Alive), life.turns);
      (s.w, s.exit)
  }

  /** The supervising loop: a faulted worker is run again, always from its checkpoint, for as long
      as the policy permits. A lifetime that ends alive is one the observation stops in. */
  function Supervise(x: Options, w: Worker, resumeFirst: bool, restarts: nat, lives: seq<Lifetime>): (Worker, Exit)
    decreases |lives|
  {
    if lives == [] then (w, Alive)
    else
      var (u, exit) := RunOnce(x, w, resumeFirst || restarts > 0, lives[0]);
      if exit != ExitFaulted || x.restart == None || !x.restart.value(restarts + 1) then (u, exit)
      else if lives[0].stopInRestart then (u.(state := Stopped), ExitStopped)
      else Supervise(x, u.(state := Restarting), resumeFirst, restarts + 1, lives[1..])
  }

  // ---- No event is lost ----

  /** Every handled event up to `p` was applied, or skipped with the poison handler's consent. */
  ghost predicate AccountedUpTo(x: Options, w: Worker, log: seq<StoredEvent>, p: int) {
    forall e :: e in log && x.handles(e.eventType) && e.position <= p ==> e.position in w.applied + w.accepted
  }

  /** A position a worker may stand at: the beginning, or one of an event of the log. */
  ghost predicate Reached(log: seq<StoredEvent>, p: nat) {
    p == 0 || exists e :: e in log && e.position == p
  }

  /** Nothing at or below the position or the checkpoint is lost. */
  ghost predicate NonePassed(x: Options, w: Worker, log: seq<StoredEvent>) {
    && ValidLog(log)
    && Reached(log, w.lastPosition) && AccountedUpTo(x, w, log, w.lastPosition)
    && Reached(log, w.checkpoint) && AccountedUpTo(x, w, log, w.checkpoint)
    && (w.failedEvent.Some? ==> w.failedEvent.value in log && x.handles(w.failedEvent.value.eventType))
    && (forall p :: p in w.accepted ==> exists e :: e in log && x.handles(e.eventType) && e.position == p)
  }

  /** Nothing before the failing event is lost. */
  ghost predicate FailingIsNext(x: Options, w: Worker, log: seq<StoredEvent>) {
    w.failedEvent.Some? ==> AccountedUpTo(x, w, log, w.failedEvent.value.position - 1)
  }

  ghost predicate NoLoss(x: Options, w: Worker, log: seq<StoredEvent>) {
    NonePassed(x, w, log) && FailingIsNext(x, w, log)
  }

  lemma {:induction false} HandledAreIn(x: Options, p: nat, events: seq<StoredEvent>)
    requires Increasing(p, events)
    ensures Increasing(p, Handled(x, events))
    ensures forall e :: e in Handled(x, events) <==> e in events && x.handles(e.eventType)
    decreases |events|
  {
    if events != [] {
      HandledAreIn(x, events[0].position, events[1..]);
      var rest := Handled(x, events[1..]);
      IncreasingMeans(events[0].position, rest);
      assert ([events[0]] + rest)[1..] == rest;
      assert forall e :: e in events <==> e == events[0] || e in events[1..];
      if !x.handles(events[0].eventType) && rest != [] { assert rest[0].position > p; }
    }
  }

  /** The cut is at the first handled event that cannot be decrypted. */
  lemma {:induction false} ReadableMeans(x: Options, events: seq<StoredEvent>, bad: set<nat>)
    ensures var n := Readable(x, events, bad);
            && (forall i :: 0 <= i < n ==> !(x.handles(events[i].eventType) && events[i].position in bad))
            && (n < |events| ==> x.handles(events[n].eventType) && events[n].position in bad)
  {
    if events != [] && !(x.handles(events[0].eventType) && events[0].position in bad) {
      ReadableMeans(x, events[1..], bad);
      assert forall i :: 0 < i < |events| ==> events[i] == events[1..][i - 1];
    }
  }

  /** Applying one by one stops at the first event that is not accepted. */
  lemma {:induction false} SuccessesMeans(events: seq<StoredEvent>, outcome: nat -> ApplyOutcome)
    ensures var n := Successes(events, outcome);
            && (forall i :: 0 <= i < n ==> outcome(events[i].position) == Done)
            && (n < |events| ==> outcome(events[n].position) != Done)
  {
    if events != [] && outcome(events[0].position) == Done { SuccessesMeans(events[1..], outcome); }
  }

  /** Each event of the log in the stretch a batch covers is in the batch. */
  lemma BatchCovers(log: seq<StoredEvent>, p: nat, limit: nat, n: nat)
    requires ValidLog(log) && 0 < n <= |LoadFrom(log, p, limit)|
    ensures var kept := LoadFrom(log, p, limit)[..n];
            && Increasing(p, kept)
            && (forall e :: e in kept ==> e in log)
            && forall e :: e in log && p < e.position <= kept[n - 1].position ==> e in kept
  {
    var left := After(log, p);
    var kept := LoadFrom(log, p, limit)[..n];
    AfterMembers(log, p);
    assert kept == left[..n];
    IncreasingPrefix(p, left, n);
    IncreasingMeans(p, left);
    forall e | e in log && p < e.position <= kept[n - 1].position
      ensures e in kept
    {
      var i :| 0 <= i < |left| && left[i] == e;
      assert i < n;
      assert kept[i] == e;
    }
  }

  /** A handler that says all went well has applied everything. One by one, everything before the
      event an error names has been applied. */
  lemma ApplyFacts(w: Worker, events: seq<StoredEvent>, c: Cycle)
    requires events != [] && Increasing(w.lastPosition, events)
    ensures var (u, ok) := Apply(w, events, c);
            && u == w.(applied := u.applied, failedEvent := u.failedEvent) && w.applied <= u.applied
            && (ok ==> forall e :: e in events ==> e.position in u.applied)
            && (u.failedEvent == w.failedEvent || (u.failedEvent.Some? && u.failedEvent.value in events))
            && (u.failedEvent == w.failedEvent || c.batch == BatchErrored
                || forall e :: e in events && e.position < u.failedEvent.value.position ==> e.position in u.applied)
  {
    if c.batch == NotImplemented {
      var n := Successes(events, c.outcome);
      IncreasingMeans(w.lastPosition, events);
      forall e | e in events && (n < |events| ==> e.position < events[n].position)
        ensures e.position in Positions(events[..n])
      {
        var i :| 0 <= i < |events| && events[i] == e;
        assert i < n;
        assert events[..n][i] == e;
      }
    }
  }

  /** The batch's stretch of the log, as far as it is accounted for. */
  lemma StretchAccounts(x: Options, u: Worker, log: seq<StoredEvent>, from: nat, kept: seq<StoredEvent>, upTo: int)
    requires AccountedUpTo(x, u, log, from) && Increasing(from, kept) && kept != [] && upTo <= kept[|kept| - 1].position
    requires forall e :: e in log && from < e.position <= kept[|kept| - 1].position ==> e in kept
    requires forall e :: e in Handled(x, kept) && e.position <= upTo ==> e.position in u.applied
    ensures AccountedUpTo(x, u, log, upTo)
  {
    HandledAreIn(x, from, kept);
  }

  /** What a batch leaves accounted for. */
  lemma ApplyAccounts(x: Options, w: Worker, log: seq<StoredEvent>, kept: seq<StoredEvent>, c: Cycle)
    requires AccountedUpTo(x, w, log, w.lastPosition) && Increasing(w.lastPosition, kept) && kept != []
    requires forall e :: e in log && w.lastPosition < e.position <= kept[|kept| - 1].position ==> e in kept
    requires Handled(x, kept) != []
    ensures var (u, ok) := Apply(w, Handled(x, kept), c);
            && u == w.(applied := u.applied, failedEvent := u.failedEvent) && w.applied <= u.applied
            && (ok ==> AccountedUpTo(x, u, log, kept[|kept| - 1].position))
            && (u.failedEvent == w.failedEvent
                || (u.failedEvent.Some? && u.failedEvent.value in kept && x.handles(u.failedEvent.value.eventType)
                    && (c.batch != BatchErrored ==> AccountedUpTo(x, u, log, u.failedEvent.value.position - 1))))
  {
    hide Apply, Handled;
    var events := Handled(x, kept);
    var (u, ok) := Apply(w, events, c);
    HandledAreIn(x, w.lastPosition, kept);
    IncreasingMeans(w.lastPosition, kept);
    ApplyFacts(w, events, c);
    MoreHistoryKeeps(x, w, u, log, w.lastPosition);
    if ok { StretchAccounts(x, u, log, w.lastPosition, kept, kept[|kept| - 1].position); }
    if u.failedEvent != w.failedEvent && c.batch != BatchErrored {
      var f := u.failedEvent.value;
      assert f in kept && f.position <= kept[|kept| - 1].position;
      StretchAccounts(x, u, log, w.lastPosition, kept, f.position - 1);
    }
  }

  lemma MoreHistoryKeeps(x: Options, w: Worker, u: Worker, log: seq<StoredEvent>, p: int)
    requires AccountedUpTo(x, w, log, p) && w.applied <= u.applied && w.accepted <= u.accepted
    ensures AccountedUpTo(x, u, log, p)
  {
  }

  lemma LastIsAnEvent(log: seq<StoredEvent>, kept: seq<StoredEvent>)
    requires kept != [] && forall e :: e in kept ==> e in log
    ensures Reached(log, kept[|kept| - 1].position)
  {
    assert kept[|kept| - 1] in kept;
  }

  /** Having handled a stretch, or skipped one without handled events, the worker may move there. */
  lemma MoveKeepsNonePassed(x: Options, u: Worker, log: seq<StoredEvent>, p: nat, writeFails: bool)
    requires NonePassed(x, u, log) && Reached(log, p) && AccountedUpTo(x, u, log, p)
    ensures NonePassed(x, MoveTo(u, p, writeFails), log)
    ensures NonePassed(x, MoveTo(u.(failedEvent := None), p, writeFails), log)
    ensures FailingIsNext(x, u, log) ==> FailingIsNext(x, MoveTo(u, p, writeFails), log)
  {
    var a, b := MoveTo(u, p, writeFails), MoveTo(u.(failedEvent := None), p, writeFails);
    forall q | AccountedUpTo(x, u, log, q)
      ensures AccountedUpTo(x, a, log, q) && AccountedUpTo(x, b, log, q)
    {
    }
  }

  lemma ApplyKeepsNonePassed(x: Options, w: Worker, log: seq<StoredEvent>, kept: seq<StoredEvent>, c: Cycle)
    requires NonePassed(x, w, log) && Increasing(w.lastPosition, kept) && kept != [] && forall e :: e in kept ==> e in log
    requires forall e :: e in log && w.lastPosition < e.position <= kept[|kept| - 1].position ==> e in kept
    requires Handled(x, kept) != []
    ensures var (u, ok) := Apply(w, Handled(x, kept), c);
            && NonePassed(x, u, log) && (ok ==> AccountedUpTo(x, u, log, kept[|kept| - 1].position))
            && (FailingIsNext(x, w, log) && c.batch != BatchErrored ==> FailingIsNext(x, u, log))
  {
    hide Apply, Handled;
    var u := Apply(w, Handled(x, kept), c).0;
    ApplyAccounts(x, w, log, kept, c);
    MoreHistoryKeeps(x, w, u, log, w.lastPosition);
    MoreHistoryKeeps(x, w, u, log, w.checkpoint);
    if w.failedEvent.Some? && FailingIsNext(x, w, log) { MoreHistoryKeeps(x, w, u, log, w.failedEvent.value.position - 1); }
  }

  /** One batch passes over nothing, whatever fails in it; and unless its handler answers with an
      error, nothing before the failing event is lost either. */
  lemma BatchKeepsNonePassed(x: Options, w: Worker, log: seq<StoredEvent>, c: Cycle)
    requires NonePassed(x, w, log)
    ensures NonePassed(x, ProcessBatch(x, w, log, c).0, log)
    ensures FailingIsNext(x, w, log) && c.batch != BatchErrored ==> FailingIsNext(x, ProcessBatch(x, w, log, c).0, log)
  {
    hide Apply, Handled, Readable, NonePassed, MoveTo, AccountedUpTo;
    var loaded := LoadFrom(log, w.lastPosition, x.batchSize);
    var n := Readable(x, loaded, c.undecryptable);
    if c.loadFails || loaded == [] {
    } else if n == 0 {
      FailingAtTheFront(x, w, log, c.undecryptable);
    } else {
      var kept := loaded[..n];
      NonePassedMeans(x, w, log);
      BatchCovers(log, w.lastPosition, x.batchSize, n);
      LastIsAnEvent(log, kept);
      if Handled(x, kept) == [] {
        StretchAccounts(x, w, log, w.lastPosition, kept, kept[n - 1].position);
        MoveKeepsNonePassed(x, w, log, kept[n - 1].position, c.writeFails);
      } else {
        ApplyKeepsNonePassed(x, w, log, kept, c);
        var (u, ok) := Apply(w, Handled(x, kept), c);
        if ok {
          MoveKeepsNonePassed(x, u, log, kept[n - 1].position, c.writeFails);
          MovedIsNotFailing(x, u, log, kept[n - 1].position, c.writeFails);
        }
      }
    }
  }

  lemma MovedIsNotFailing(x: Options, u: Worker, log: seq<StoredEvent>, p: nat, writeFails: bool)
    ensures FailingIsNext(x, MoveTo(u.(failedEvent := None), p, writeFails), log)
  {
  }

  /** One batch loses nothing, whatever fails in it short of a batch handler's own error. */
  lemma BatchKeepsNoLoss(x: Options, w: Worker, log: seq<StoredEvent>, c: Cycle)
    requires NoLoss(x, w, log) && c.batch != BatchErrored
    ensures NoLoss(x, ProcessBatch(x, w, log, c).0, log)
  {
    hide NonePassed, FailingIsNext, ProcessBatch;
    BatchKeepsNonePassed(x, w, log, c);
  }

  lemma NonePassedMeans(x: Options, w: Worker, log: seq<StoredEvent>)
    requires NonePassed(x, w, log)
    ensures ValidLog(log) && AccountedUpTo(x, w, log, w.lastPosition)
  {
  }

  /** The next event is handled and cannot be decrypted: everything before it is accounted for. */
  lemma FailingAtTheFront(x: Options, w: Worker, log: seq<StoredEvent>, undecryptable: set<nat>)
    requires NonePassed(x, w, log)
    requires var loaded := LoadFrom(log, w.lastPosition, x.batchSize); loaded != [] && Readable(x, loaded, undecryptable) == 0
    ensures NoLoss(x, w.(failedEvent := Some(LoadFrom(log, w.lastPosition, x.batchSize)[0])), log)
  {
    var loaded := LoadFrom(log, w.lastPosition, x.batchSize);
    var u := w.(failedEvent := Some(loaded[0]));
    BatchCovers(log, w.lastPosition, x.batchSize, 1);
    ReadableMeans(x, loaded, undecryptable);
    assert loaded[..1] == [loaded[0]];
    assert forall e :: e in log && w.lastPosition < e.position <= loaded[0].position ==> e == loaded[0];
    assert AccountedUpTo(x, u, log, w.lastPosition) && AccountedUpTo(x, u, log, w.checkpoint);
  }

  /** A skip loses nothing exactly when nothing before the skipped event was lost. */
  lemma SkipLosesNothingExactlyWhen(x: Options, w: Worker, log: seq<StoredEvent>, writeFails: bool)
    requires NonePassed(x, w, log) && HandlePoison(x, w, writeFails).1
    ensures NonePassed(x, HandlePoison(x, w, writeFails).0, log) <==> FailingIsNext(x, w, log)
    ensures FailingIsNext(x, HandlePoison(x, w, writeFails).0, log)
  {
    var u := HandlePoison(x, w, writeFails).0;
    var f := w.failedEvent.value;
    IncreasingMeans(0, log);
    MoreHistoryKeeps(x, w, u, log, w.checkpoint);
    if FailingIsNext(x, w, log) {
      MoreHistoryKeeps(x, w, u, log, f.position - 1);
      assert f.position in u.accepted;
      assert AccountedUpTo(x, u, log, f.position);
    }
    if AccountedUpTo(x, u, log, f.position) {
      assert AccountedUpTo(x, w, log, f.position - 1);
    }
  }

  lemma PoisonKeepsNoLoss(x: Options, w: Worker, log: seq<StoredEvent>, writeFails: bool)
    requires NoLoss(x, w, log)
    ensures NoLoss(x, HandlePoison(x, w, writeFails).0, log)
  {
    if HandlePoison(x, w, writeFails).1 {
      hide NonePassed, FailingIsNext;
      SkipLosesNothingExactlyWhen(x, w, log, writeFails);
    }
  }

  lemma GrowthPassesNone(x: Options, w: Worker, log: seq<StoredEvent>, log': seq<StoredEvent>)
    requires NonePassed(x, w, log) && log <= log' && ValidLog(log')
    ensures NonePassed(x, w, log') && (FailingIsNext(x, w, log) ==> FailingIsNext(x, w, log'))
  {
    assert forall e :: e in log ==> e in log';
    NewEventsLieAbove(log, log', w.lastPosition);
    NewEventsLieAbove(log, log', w.checkpoint);
    if w.failedEvent.Some? { NewEventsLieAbove(log, log', w.failedEvent.value.position); }
  }

  lemma NewEventsLieAbove(log: seq<StoredEvent>, log': seq<StoredEvent>, p: nat)
    requires ValidLog(log') && log <= log' && Reached(log, p)
    ensures forall e :: e in log' && e.position <= p ==> e in log
  {
    IncreasingMeans(0, log');
    if p != 0 {
      var i :| 0 <= i < |log| && log[i].position == p;
      assert log'[i] == log[i];
      forall e | e in log' && e.position <= p
        ensures e in log
      {
        var j :| 0 <= j < |log'| && log'[j] == e;
        assert j <= i;
        assert log[j] == e;
      }
    }
  }

  lemma StateIsNoHistory(x: Options, w: Worker, log: seq<StoredEvent>)
    ensures forall st :: NonePassed(x, w, log) <==> NonePassed(x, w.(state := st), log)
    ensures forall st :: FailingIsNext(x, w, log) <==> FailingIsNext(x, w.(state := st), log)
  {
    forall st, p
      ensures AccountedUpTo(x, w, log, p) <==> AccountedUpTo(x, w.(state := st), log, p)
    {
    }
  }

  /** The worker once the turn's batch is over. */
  function AfterBatch(x: Options, s: Loop, t: Turn): Worker {
    ProcessBatch(x, Resumed(s.w), t.log, t.cycle).0
  }

  /** The turn's batch is tried, and goes well. */
  predicate Succeeds(x: Options, s: Loop, t: Turn) {
    s.exit == Alive && !t.stop && !t.paused && ProcessBatch(x, Resumed(s.w), t.log, t.cycle).1
  }

  /** The turn's batch is tried, and its failure is a poison error. */
  predicate Poisoned(x: Options, s: Loop, t: Turn) {
    s.exit == Alive && !t.stop && !t.paused && !ProcessBatch(x, Resumed(s.w), t.log, t.cycle).1 && !t.canceled && !t.transient
  }

  /** The turn ends in skipping the failed event. */
  predicate Skips(x: Options, s: Loop, t: Turn) {
    && Poisoned(x, s, t) && !x.shouldRetry(s.poisonErrors + 1)
    && HandlePoison(x, AfterBatch(x, s, t).(state := Faulted), t.skipWriteFails).1
  }

  /** With any batch handler, a turn loses something exactly when it skips an event before which
      something was lost already. */
  lemma TurnLosesNothingExactlyWhen(x: Options, s: Loop, log: seq<StoredEvent>, t: Turn)
    requires NonePassed(x, s.w, log) && log <= t.log && ValidLog(t.log)
    ensures NonePassed(x, TakeTurn(x, s, t).w, t.log) <==> (Skips(x, s, t) ==> FailingIsNext(x, AfterBatch(x, s, t), t.log))
    ensures FailingIsNext(x, s.w, log) && t.cycle.batch != BatchErrored ==> FailingIsNext(x, TakeTurn(x, s, t).w, t.log)
  {
    hide NonePassed, FailingIsNext, ProcessBatch, HandlePoison;
    var w := AfterBatch(x, s, t);
    var failing := w.(state := Faulted);
    var (u, skipped) := HandlePoison(x, failing, t.skipWriteFails);
    GrowthPassesNone(x, s.w, log, t.log);
    StateIsNoHistory(x, s.w, t.log);
    BatchKeepsNonePassed(x, Resumed(s.w), t.log, t.cycle);
    StateIsNoHistory(x, w, t.log);
    if skipped {
      SkipLosesNothingExactlyWhen(x, failing, t.log, t.skipWriteFails);
    } else {
      UnskippedIsUnchanged(x, failing, t.skipWriteFails);
    }
    StateIsNoHistory(x, u, t.log);
  }

  lemma UnskippedIsUnchanged(x: Options, w: Worker, writeFails: bool)
    ensures !HandlePoison(x, w, writeFails).1 ==> HandlePoison(x, w, writeFails).0 == w
  {
  }

  lemma TurnKeepsNoLoss(x: Options, s: Loop, log: seq<StoredEvent>, t: Turn)
    requires NoLoss(x, s.w, log) && log <= t.log && ValidLog(t.log) && t.cycle.batch != BatchErrored
    ensures NoLoss(x, TakeTurn(x, s, t).w, t.log)
  {
    hide NonePassed, FailingIsNext, ProcessBatch, TakeTurn;
    TurnLosesNothingExactlyWhen(x, s, log, t);
    GrowthPassesNone(x, s.w, log, t.log);
    StateIsNoHistory(x, s.w, t.log);
    BatchKeepsNonePassed(x, Resumed(s.w), t.log, t.cycle);
  }

  /** The log only grows from turn to turn. */
  ghost predicate Growing(log: seq<StoredEvent>, turns: seq<Turn>)
    decreases |turns|
  {
    turns == [] || (log <= turns[0].log && ValidLog(turns[0].log) && Growing(turns[0].log, turns[1..]))
  }

  /** And a batch handler, if the projection has one, answers with no error. */
  ghost predicate Orderly(log: seq<StoredEvent>, turns: seq<Turn>) {
    Growing(log, turns) && forall i :: 0 <= i < |turns| ==> turns[i].cycle.batch != BatchErrored
  }

  function LogAfter(log: seq<StoredEvent>, turns: seq<Turn>): seq<StoredEvent> {
    if turns == [] then log else turns[|turns| - 1].log
  }

  lemma {:induction false} GrowingSplit(log: seq<StoredEvent>, turns: seq<Turn>)
    requires Growing(log, turns) && turns != []
    decreases |turns|
    ensures var front, last := turns[..|turns| - 1], turns[|turns| - 1];
            Growing(log, front) && LogAfter(log, front) <= last.log && ValidLog(last.log)
  {
    if |turns| > 1 {
      GrowingSplit(turns[0].log, turns[1..]);
      var front := turns[..|turns| - 1];
      assert front[1..] == turns[1..][..|turns[1..]| - 1];
    }
  }

  lemma {:induction false} PollKeepsNoLoss(x: Options, s: Loop, log: seq<StoredEvent>, turns: seq<Turn>)
    requires NoLoss(x, s.w, log) && Orderly(log, turns)
    ensures NoLoss(x, Poll(x, s, turns).w, LogAfter(log, turns))
  {
    hide NoLoss, TakeTurn;
    if turns != [] {
      var front, last := turns[..|turns| - 1], turns[|turns| - 1];
      GrowingSplit(log, turns);
      PollKeepsNoLoss(x, s, log, front);
      TurnKeepsNoLoss(x, Poll(x, s, front), LogAfter(log, front), last);
    }
  }

  /** No turn skips an event before which something was lost. */
  ghost predicate SkipsSighted(x: Options, s: Loop, turns: seq<Turn>) {
    forall i :: 0 <= i < |turns| ==>
      var at := Poll(x, s, turns[..i]);
      Skips(x, at, turns[i]) ==> FailingIsNext(x, AfterBatch(x, at, turns[i]), turns[i].log)
  }

  /** So over every stretch of polling, whatever a batch handler answers, nothing is lost as long as
      no skip is blind. */
  lemma {:induction false} SightedSkipsLoseNothing(x: Options, s: Loop, log: seq<StoredEvent>, turns: seq<Turn>)
    requires NonePassed(x, s.w, log) && Growing(log, turns) && SkipsSighted(x, s, turns)
    ensures NonePassed(x, Poll(x, s, turns).w, LogAfter(log, turns))
  {
    hide NonePassed, FailingIsNext, TakeTurn, Skips, AfterBatch;
    if turns != [] {
      var n := |turns| - 1;
      var front, last := turns[..n], turns[n];
      GrowingSplit(log, turns);
      forall i | 0 <= i < n
        ensures front[..i] == turns[..i] && front[i] == turns[i]
      {
      }
      SightedSkipsLoseNothing(x, s, log, front);
      TurnLosesNothingExactlyWhen(x, Poll(x, s, front), LogAfter(log, front), last);
    }
  }

  ghost predicate OrderlyLives(log: seq<StoredEvent>, lives: seq<Lifetime>)
    decreases |lives|
  {
    lives == [] || (Orderly(log, lives[0].turns) && OrderlyLives(LogAfter(log, lives[0].turns), lives[1..]))
  }

  function FinalLog(log: seq<StoredEvent>, lives: seq<Lifetime>): seq<StoredEvent>
    decreases |lives|
  {
    if lives == [] then log else FinalLog(LogAfter(log, lives[0].turns), lives[1..])
  }

  lemma {:induction false} FinalLogGrows(log: seq<StoredEvent>, lives: seq<Lifetime>)
    requires OrderlyLives(log, lives) && ValidLog(log)
    ensures log <= FinalLog(log, lives) && ValidLog(FinalLog(log, lives))
    decreases |lives|
  {
    if lives != [] {
      LogsGrow(log, lives[0].turns);
      FinalLogGrows(LogAfter(log, lives[0].turns), lives[1..]);
    }
  }

  /** One lifetime loses nothing. */
  lemma RunKeepsNoLoss(x: Options, w: Worker, log: seq<StoredEvent>, resume: bool, life: Lifetime)
    requires NoLoss(x, w, log) && Orderly(log, life.turns)
    ensures NoLoss(x, RunOnce(x, w, resume, life).0, LogAfter(log, life.turns))
  {
    var (u, exit) := Boot(x, w, resume, life.attempts);
    LogsGrow(log, life.turns);
    BootKeepsNoLoss(x, w, log, resume, life.attempts);
    if exit == Alive {
      PollKeepsNoLoss(x, Loop(u, 0, 0, Alive), log, life.turns);
    } else {
      GrowthPassesNone(x, u, log, LogAfter(log, life.turns));
    }
  }

  /** Over every supervised life, with any mix of load errors, Apply errors, panics, undecryptable
      events, pauses, failed checkpoint writes, poison skips, faults and restarts: whenever the
      observation stops, every handled event at or below the worker's position or its persisted
      checkpoint was applied successfully or accepted as poison, and so was everything strictly
      before the event it is failing on. */
  lemma {:induction false} NoEventIsEverLost(x: Options, w: Worker, log: seq<StoredEvent>, resumeFirst: bool, restarts: nat, lives: seq<Lifetime>)
    requires NoLoss(x, w, log) && OrderlyLives(log, lives)
    ensures NoLoss(x, Supervise(x, w, resumeFirst, restarts, lives).0, FinalLog(log, lives))
    decreases |lives|
  {
    hide NonePassed, FailingIsNext, RunOnce;
    if lives != [] {
      var log1 := LogAfter(log, lives[0].turns);
      var u := RunOnce(x, w, resumeFirst || restarts > 0, lives[0]).0;
      RunKeepsNoLoss(x, w, log, resumeFirst || restarts > 0, lives[0]);
      NonePassedMeans(x, u, log1);
      FinalLogGrows(log1, lives[1..]);
      GrowthPassesNone(x, u, log1, FinalLog(log, lives));
      StateIsNoHistory(x, u, log1);
      StateIsNoHistory(x, u, FinalLog(log, lives));
      NoEventIsEverLost(x, u.(state := Restarting), log1, resumeFirst, restarts + 1, lives[1..]);
    }
  }

  lemma BootKeepsNoLoss(x: Options, w: Worker, log: seq<StoredEvent>, resume: bool, attempts: nat -> Read)
    requires NoLoss(x, w, log)
    ensures NoLoss(x, Boot(x, w, resume, attempts).0, log)
  {
    IncreasingMeans(0, log);
  }

  lemma {:induction false} LogsGrow(log: seq<StoredEvent>, turns: seq<Turn>)
    requires Growing(log, turns) && ValidLog(log)
    ensures log <= LogAfter(log, turns) && ValidLog(LogAfter(log, turns))
    decreases |turns|
  {
    if turns != [] { LogsGrow(turns[0].log, turns[1..]); }
  }

  /** One by one, the worker stops at the first event that is not accepted, having applied exactly those
      before it. If that was an error the event is now the failing one; a panic names nothing new. */
  lemma FirstFailureStops(x: Options, w: Worker, log: seq<StoredEvent>, c: Cycle, i: nat)
    requires ValidLog(log) && !c.loadFails && c.batch == NotImplemented && c.undecryptable == {}
    requires var events := Handled(x, LoadFrom(log, w.lastPosition, x.batchSize));
             i < |events| && c.outcome(events[i].position) != Done && forall j :: 0 <= j < i ==> c.outcome(events[j].position) == Done
    ensures var events := Handled(x, LoadFrom(log, w.lastPosition, x.batchSize));
            ProcessBatch(x, w, log, c) == (w.(applied := w.applied + Positions(events[..i]),
                                              failedEvent := if c.outcome(events[i].position) == Errored then Some(events[i]) else w.failedEvent), false)
  {
    hide LoadFrom, Handled, Readable, Successes;
    var loaded := LoadFrom(log, w.lastPosition, x.batchSize);
    var events := Handled(x, loaded);
    AllReadable(x, loaded);
    assert loaded[..|loaded|] == loaded;
    SuccessesMeans(events, c.outcome);
    assert Successes(events, c.outcome) == i;
    NoneHandled(x);
  }

  lemma NoneHandled(x: Options)
    ensures Handled(x, []) == []
  {
  }

  // ---- Progress ----

  /** Nothing goes wrong in the turn: it loads, decrypts, handles and writes, and nobody stops or pauses it. */
  ghost predicate Smooth(t: Turn, log: seq<StoredEvent>) {
    && t.log == log && !t.stop && !t.paused && !t.cycle.loadFails && t.cycle.undecryptable == {} && !t.cycle.writeFails
    && (t.cycle.batch == BatchDone || (t.cycle.batch == NotImplemented && forall p :: t.cycle.outcome(p) == Done))
  }

  lemma {:induction false} AllReadable(x: Options, events: seq<StoredEvent>)
    ensures Readable(x, events, {}) == |events|
  {
    if events != [] { AllReadable(x, events[1..]); }
  }

  lemma {:induction false} AllSucceed(events: seq<StoredEvent>, outcome: nat -> ApplyOutcome)
    requires forall p :: outcome(p) == Done
    ensures Successes(events, outcome) == |events|
  {
    if events != [] { AllSucceed(events[1..], outcome); }
  }

  lemma SmoothBatchMovesOn(x: Options, w: Worker, c: Cycle, log: seq<StoredEvent>)
    requires x.batchSize > 0 && ValidLog(log) && !c.loadFails && c.undecryptable == {} && !c.writeFails
    requires c.batch == BatchDone || (c.batch == NotImplemented && forall p :: c.outcome(p) == Done)
    ensures var (u, ok) := ProcessBatch(x, w, log, c);
            && ok
            && (if After(log, w.lastPosition) == [] then u == w
                else |After(log, u.lastPosition)| < |After(log, w.lastPosition)| && u.checkpoint == u.lastPosition)
  {
    hide After, Handled, Readable, Successes, Positions;
    var loaded := LoadFrom(log, w.lastPosition, x.batchSize);
    AllReadable(x, loaded);
    if loaded != [] {
      if c.batch == NotImplemented { AllSucceed(Handled(x, loaded), c.outcome); }
      assert loaded[..|loaded|] == loaded;
      assert [] + After(log, w.lastPosition) == After(log, w.lastPosition);
      BatchLoaded(log, w.lastPosition, x.batchSize, [], After(log, w.lastPosition));
    } else {
      NothingLoaded(log, w.lastPosition, x.batchSize);
    }
  }

  /** A smooth turn takes the worker past the events it loaded, and its checkpoint with it; the end of an
      outage or of a pause shows. */
  lemma SmoothTurnMovesOn(x: Options, s: Loop, t: Turn, log: seq<StoredEvent>)
    requires s.exit == Alive && x.batchSize > 0 && ValidLog(log) && Smooth(t, log)
    ensures var r := TakeTurn(x, s, t);
            && r.exit == Alive && r.poisonErrors == 0 && r.backoffErrors == 0
            && r.w.state == (if s.backoffErrors > 0 || s.w.state == Paused then Running else s.w.state)
            && (if After(log, s.w.lastPosition) == [] then r.w.lastPosition == s.w.lastPosition && r.w.checkpoint == s.w.checkpoint
                else |After(log, r.w.lastPosition)| < |After(log, s.w.lastPosition)| && r.w.checkpoint == r.w.lastPosition)
  {
    hide After, ProcessBatch;
    SmoothBatchMovesOn(x, Resumed(s.w), t.cycle, log);
    BatchLeavesStateAlone(x, Resumed(s.w), log, t.cycle);
  }

  /** So a worker that loses nothing catches up: after no more smooth turns than there are events left,
      it has reached the head of the log with its checkpoint, and every handled event of the log was
      applied or accepted as poison. */
  lemma {:induction false} CatchesUp(x: Options, s: Loop, turns: seq<Turn>, log: seq<StoredEvent>)
    requires s.exit == Alive && x.batchSize > 0 && NoLoss(x, s.w, log) && forall i :: 0 <= i < |turns| ==> Smooth(turns[i], log)
    ensures var r := Poll(x, s, turns);
            && r.exit == Alive && NoLoss(x, r.w, log)
            && (After(log, r.w.lastPosition) == [] || |After(log, r.w.lastPosition)| + |turns| <= |After(log, s.w.lastPosition)|)
            && (r.w.checkpoint == r.w.lastPosition || (r.w.checkpoint == s.w.checkpoint && r.w.lastPosition == s.w.lastPosition))
            && (|turns| >= |After(log, s.w.lastPosition)| ==> forall e :: e in log && x.handles(e.eventType) ==> e.position in r.w.applied + r.w.accepted)
  {
    hide TakeTurn, NonePassed, FailingIsNext, After;
    NonePassedMeans(x, s.w, log);
    if turns != [] {
      var front, last := turns[..|turns| - 1], turns[|turns| - 1];
      var at := Poll(x, s, front);
      CatchesUp(x, s, front, log);
      NonePassedMeans(x, at.w, log);
      SmoothTurnMovesOn(x, at, last, log);
      SmoothIsOrderly(log, last);
      TurnKeepsNoLoss(x, at, log, last);
    }
    if |turns| >= |After(log, s.w.lastPosition)| { HeadIsAccounted(x, Poll(x, s, turns).w, log); }
  }

  lemma SmoothIsOrderly(log: seq<StoredEvent>, t: Turn)
    requires Smooth(t, log)
    ensures t.log == log && t.cycle.batch != BatchErrored
  {
  }

  lemma HeadIsAccounted(x: Options, w: Worker, log: seq<StoredEvent>)
    requires NoLoss(x, w, log) && After(log, w.lastPosition) == []
    ensures forall e :: e in log && x.handles(e.eventType) ==> e.position in w.applied + w.accepted
  {
    AfterMembers(log, w.lastPosition);
    forall e | e in log && x.handles(e.eventType)
      ensures e.position in w.applied + w.accepted
    {
      assert e !in After(log, w.lastPosition);
    }
  }

  /** A paused worker does nothing but show it. */
  lemma {:induction false} PausedTurnsDoNothing(x: Options, s: Loop, turns: seq<Turn>)
    requires s.exit == Alive && forall i :: 0 <= i < |turns| ==> turns[i].paused && !turns[i].stop
    ensures Poll(x, s, turns) == s.(w := s.w.(state := if turns == [] then s.w.state else Paused))
  {
    if turns != [] { PausedTurnsDoNothing(x, s, turns[..|turns| - 1]); }
  }

  // ---- No restart replays ----

  /** Where a lifetime starts: at 0 only if it need not resume and is to start from the beginning, and
      otherwise at the checkpoint, once that has been read. */
  lemma BootStartsAt(x: Options, w: Worker, resume: bool, attempts: nat -> Read)
    ensures var (u, exit) := Boot(x, w, resume, attempts);
            && u == w.(state := u.state, lastPosition := u.lastPosition)
            && (resume || !x.startFromBeginning ==>
                  && (exit == Alive <==> exists i :: 0 <= i < 3 && attempts(i) == ReadOk && forall j :: 0 <= j < i ==> attempts(j) == ReadFailed)
                  && (exit == ExitFaulted <==> forall i :: 0 <= i < 3 ==> attempts(i) == ReadFailed)
                  && u.lastPosition == if exit == Alive then w.checkpoint else w.lastPosition)
            && (!resume && x.startFromBeginning ==> exit == Alive && u.lastPosition == 0)
  {
    if attempts(0) == ReadFailed && attempts(1) == ReadFailed {
      assert ReadWithRetry(attempts, 0) == ReadWithRetry(attempts, 1) == ReadWithRetry(attempts, 2);
    }
  }

  /** The poison handler would let the worker skip the event it failed on. */
  ghost predicate WouldSkip(x: Options, w: Worker) {
    w.failedEvent.Some? && x.onPoison.Some? && x.onPoison.value(w.failedEvent.value)
  }

  /** Neither the position nor an event that may yet be skipped lies below `p`. */
  ghost predicate StaysAbove(x: Options, w: Worker, p: nat) {
    w.lastPosition >= p && (WouldSkip(x, w) ==> w.failedEvent.value.position >= p)
  }

  ghost predicate ValidTurns(turns: seq<Turn>) {
    forall i :: 0 <= i < |turns| ==> ValidLog(turns[i].log)
  }

  lemma BatchStaysAbove(x: Options, w: Worker, log: seq<StoredEvent>, c: Cycle)
    requires ValidLog(log)
    ensures var u := ProcessBatch(x, w, log, c).0;
            && u.lastPosition >= w.lastPosition
            && (u.failedEvent.Some? ==> u.failedEvent == w.failedEvent || u.failedEvent.value.position > w.lastPosition)
  {
    var loaded := LoadFrom(log, w.lastPosition, x.batchSize);
    var n := Readable(x, loaded, c.undecryptable);
    AfterMembers(log, w.lastPosition);
    IncreasingPrefix(w.lastPosition, After(log, w.lastPosition), |loaded|);
    assert loaded == After(log, w.lastPosition)[..|loaded|];
    IncreasingMeans(w.lastPosition, loaded);
    var events := Handled(x, loaded[..n]);
    IncreasingPrefix(w.lastPosition, loaded, n);
    HandledAreIn(x, w.lastPosition, loaded[..n]);
    if events != [] { ApplyFacts(w, events, c); }
  }

  lemma TurnStaysAbove(x: Options, s: Loop, t: Turn, p: nat)
    requires StaysAbove(x, s.w, p) && ValidLog(t.log)
    ensures StaysAbove(x, TakeTurn(x, s, t).w, p)
  {
    hide ProcessBatch;
    BatchStaysAbove(x, Resumed(s.w), t.log, t.cycle);
  }

  lemma {:induction false} PollStaysAbove(x: Options, s: Loop, turns: seq<Turn>, p: nat)
    requires StaysAbove(x, s.w, p) && ValidTurns(turns)
    ensures StaysAbove(x, Poll(x, s, turns).w, p)
  {
    hide StaysAbove, TakeTurn;
    if turns != [] {
      PollStaysAbove(x, s, turns[..|turns| - 1], p);
      TurnStaysAbove(x, Poll(x, s, turns[..|turns| - 1]), turns[|turns| - 1], p);
    }
  }

  /** A worker that resumed never falls back behind its checkpoint, whatever it meets. */
  ghost predicate NeverFallsBack(x: Options, w: Worker) {
    forall turns :: ValidTurns(turns) ==>
      Poll(x, Loop(w.(state := Running, lastPosition := w.checkpoint), 0, 0, Alive), turns).w.lastPosition >= w.checkpoint
  }

  /** A turn that cannot load anything. */
  const OUTAGE := Turn([], false, false, Cycle(true, {}, NotImplemented, p => Done, false), false, false, false, false)

  lemma {:induction false} OutageCounts(x: Options, w: Worker, n: nat) returns (turns: seq<Turn>)
    requires w.state != Paused && forall k :: 1 <= k <= n ==> x.shouldRetry(k)
    ensures ValidTurns(turns)
    ensures Poll(x, Loop(w, 0, 0, Alive), turns) == Loop(if n == 0 then w else w.(state := Faulted), n, n, Alive)
  {
    turns := [];
    if n > 0 {
      turns := OutageCounts(x, w, n - 1);
      turns := turns + [OUTAGE];
      assert turns[..|turns| - 1] + [OUTAGE] == turns;
    }
  }

  lemma {:induction false} FirstRefusal(x: Options, n: nat) returns (first: nat)
    requires n >= 1 && !x.shouldRetry(n)
    ensures 1 <= first <= n && !x.shouldRetry(first) && forall k :: 1 <= k < first ==> x.shouldRetry(k)
  {
    first := n;
    if k :| 1 <= k < n && !x.shouldRetry(k) { first := FirstRefusal(x, k); }
  }

  lemma {:induction false} PatiencePollsOn(x: Options, s: Loop, turns: seq<Turn>, p: nat)
    requires s.w.lastPosition >= p && ValidTurns(turns) && forall n :: n >= 1 ==> x.shouldRetry(n)
    ensures Poll(x, s, turns).w.lastPosition >= p
  {
    hide ProcessBatch;
    if turns != [] {
      var at := Poll(x, s, turns[..|turns| - 1]);
      PatiencePollsOn(x, s, turns[..|turns| - 1], p);
      BatchStaysAbove(x, Resumed(at.w), turns[|turns| - 1].log, turns[|turns| - 1].cycle);
    }
  }

  /** That is so exactly when it carries no event over from before, behind the checkpoint, that the
      poison handler would skip once the retry budget is spent. */
  lemma NeverFallsBackExactlyWhen(x: Options, w: Worker)
    ensures NeverFallsBack(x, w) <==>
            !(WouldSkip(x, w) && w.failedEvent.value.position < w.checkpoint && exists n :: n >= 1 && !x.shouldRetry(n))
  {
    hide TakeTurn;
    var s := Loop(w.(state := Running, lastPosition := w.checkpoint), 0, 0, Alive);
    if WouldSkip(x, w) && w.failedEvent.value.position < w.checkpoint {
      if n :| n >= 1 && !x.shouldRetry(n) {
        var first := FirstRefusal(x, n);
        var turns := OutageCounts(x, s.w, first - 1);
        SkipsInAnOutage(x, Poll(x, s, turns));
        var all := turns + [OUTAGE];
        assert all[..|all| - 1] == turns && ValidTurns(all);
        assert Poll(x, s, all).w.lastPosition < w.checkpoint;
      } else {
        forall turns | ValidTurns(turns)
          ensures Poll(x, s, turns).w.lastPosition >= w.checkpoint
        {
          PatiencePollsOn(x, s, turns, w.checkpoint);
        }
      }
    } else {
      forall turns | ValidTurns(turns)
        ensures Poll(x, s, turns).w.lastPosition >= w.checkpoint
      {
        PollStaysAbove(x, s, turns, w.checkpoint);
      }
    }
  }

  lemma SkipsInAnOutage(x: Options, s: Loop)
    requires s.exit == Alive && WouldSkip(x, s.w) && !x.shouldRetry(s.poisonErrors + 1)
    ensures TakeTurn(x, s, OUTAGE).w.lastPosition == s.w.failedEvent.value.position
  {
  }

  // ---- Over a supervised life ----

  /** The worker as the i-th lifetime from here begins, if it comes to that. */
  function LifeStart(x: Options, w: Worker, resumeFirst: bool, restarts: nat, lives: seq<Lifetime>, i: nat): Option<Worker>
    decreases |lives|
  {
    if lives == [] then None
    else if i == 0 then Some(w)
    else
      var (u, exit) := RunOnce(x, w, resumeFirst || restarts > 0, lives[0]);
      if exit != ExitFaulted || x.restart == None || !x.restart.value(restarts + 1) || lives[0].stopInRestart then None
      else LifeStart(x, u.(state := Restarting), resumeFirst, restarts + 1, lives[1..], i - 1)
  }

  /** From there on the supervised life is the one that starts with it, as a restart; every restart up to
      it was one the policy permits. */
  lemma {:induction false} SupervisedFrom(x: Options, w: Worker, resumeFirst: bool, restarts: nat, lives: seq<Lifetime>, i: nat)
    requires LifeStart(x, w, resumeFirst, restarts, lives, i).Some?
    ensures i < |lives|
    ensures Supervise(x, w, resumeFirst, restarts, lives)
         == Supervise(x, LifeStart(x, w, resumeFirst, restarts, lives, i).value, resumeFirst, restarts + i, lives[i..])
    ensures forall n :: restarts < n <= restarts + i ==> x.restart.Some? && x.restart.value(n)
    decreases i
  {
    hide RunOnce;
    if i > 0 {
      var u := RunOnce(x, w, resumeFirst || restarts > 0, lives[0]).0;
      SupervisedFrom(x, u.(state := Restarting), resumeFirst, restarts + 1, lives[1..], i - 1);
      assert lives[1..][i - 1..] == lives[i..];
    } else {
      assert lives[0..] == lives;
    }
  }

  /** A worker that faults has an event the handler will not skip, or none. */
  lemma {:induction false} FaultMeansNoSkip(x: Options, s: Loop, turns: seq<Turn>)
    requires s.exit == Alive
    ensures var r := Poll(x, s, turns); r.exit == ExitFaulted ==> !WouldSkip(x, r.w)
  {
    hide ProcessBatch;
    if turns != [] { FaultMeansNoSkip(x, s, turns[..|turns| - 1]); }
  }

  lemma LifeFaultsWithoutSkip(x: Options, w: Worker, resume: bool, life: Lifetime)
    requires !WouldSkip(x, w)
    ensures var (u, exit) := RunOnce(x, w, resume, life); exit == ExitFaulted ==> !WouldSkip(x, u)
  {
    var (u, exit) := Boot(x, w, resume, life.attempts);
    if exit == Alive { FaultMeansNoSkip(x, Loop(u, 0, 0, Alive), life.turns); }
  }

  lemma {:induction false} RestartsWithoutSkip(x: Options, w: Worker, resumeFirst: bool, restarts: nat, lives: seq<Lifetime>, i: nat)
    requires !WouldSkip(x, w) && LifeStart(x, w, resumeFirst, restarts, lives, i).Some?
    ensures !WouldSkip(x, LifeStart(x, w, resumeFirst, restarts, lives, i).value)
    decreases i
  {
    hide RunOnce, WouldSkip;
    if i > 0 {
      var u := RunOnce(x, w, resumeFirst || restarts > 0, lives[0]).0;
      LifeFaultsWithoutSkip(x, w, resumeFirst || restarts > 0, lives[0]);
      assert WouldSkip(x, u) <==> WouldSkip(x, u.(state := Restarting)) by { SkipIgnoresState(x, u); }
      RestartsWithoutSkip(x, u.(state := Restarting), resumeFirst, restarts + 1, lives[1..], i - 1);
    }
  }

  lemma SkipIgnoresState(x: Options, w: Worker)
    ensures WouldSkip(x, w) <==> WouldSkip(x, w.(state := Restarting))
  {
  }

  /** No restart replays what is behind its checkpoint. A worker that starts without an event to skip
      begins every lifetime but a first one that need not resume at its checkpoint, wherever its first
      one began, and never falls back behind it: nothing at or below it is loaded again. */
  lemma NoRestartReplays(x: Options, w: Worker, resumeFirst: bool, lives: seq<Lifetime>, i: nat, k: nat)
    requires !WouldSkip(x, w) && LifeStart(x, w, resumeFirst, 0, lives, i).Some? && (resumeFirst || i > 0)
    requires i < |lives| && ValidTurns(lives[i].turns) && k < |lives[i].turns|
    ensures var v := LifeStart(x, w, resumeFirst, 0, lives, i).value;
            var (u, exit) := Boot(x, v, resumeFirst || i > 0, lives[i].attempts);
            exit == Alive ==>
              var at := Poll(x, Loop(u, 0, 0, Alive), lives[i].turns[..k]).w;
              && u.lastPosition == v.checkpoint <= at.lastPosition
              && forall e :: e in LoadFrom(lives[i].turns[k].log, at.lastPosition, x.batchSize) ==> e.position > v.checkpoint
  {
    hide Poll, WouldSkip, LoadFrom, LifeStart;
    var v, t := LifeStart(x, w, resumeFirst, 0, lives, i).value, lives[i].turns[k];
    RestartsWithoutSkip(x, w, resumeFirst, 0, lives, i);
    NeverFallsBackExactlyWhen(x, v);
    assert ValidTurns(lives[i].turns[..k]);
    BootStartsAt(x, v, true, lives[i].attempts);
    LoadedLieAbove(t.log, Poll(x, Loop(Boot(x, v, true, lives[i].attempts).0, 0, 0, Alive), lives[i].turns[..k]).w.lastPosition, x.batchSize);
  }

  lemma LoadedLieAbove(log: seq<StoredEvent>, p: nat, limit: nat)
    requires ValidLog(log)
    ensures forall e :: e in LoadFrom(log, p, limit) ==> e.position > p
  {
    AfterMembers(log, p);
  }

  // ---- The retry budget ----

  lemma BatchLeavesStateAlone(x: Options, w: Worker, log: seq<StoredEvent>, c: Cycle)
    ensures var u := ProcessBatch(x, w, log, c).0; u.accepted == w.accepted && u.state == w.state
  {
    hide Readable, Handled, Successes, Positions, LoadFrom;
  }

  lemma TransientTurn(x: Options, s: Loop, t: Turn)
    requires t.transient && s.exit != ExitFaulted
    ensures var r := TakeTurn(x, s, t);
            && r.exit != ExitFaulted && r.poisonErrors <= s.poisonErrors && r.w.accepted == s.w.accepted
            && (s.w.state != Faulted ==> r.w.state != Faulted)
  {
    hide ProcessBatch, HandlePoison;
    BatchLeavesStateAlone(x, Resumed(s.w), t.log, t.cycle);
  }

  /** Errors classified as transient never fault the worker, never reach the poison handler and
      never use up the budget, however many there are. */
  lemma {:induction false} TransientErrorsNeverFault(x: Options, s: Loop, turns: seq<Turn>)
    requires s.exit != ExitFaulted && forall i :: 0 <= i < |turns| ==> turns[i].transient
    ensures var r := Poll(x, s, turns);
            && r.exit != ExitFaulted && r.poisonErrors <= s.poisonErrors && r.w.accepted == s.w.accepted
            && (s.w.state != Faulted ==> r.w.state != Faulted)
  {
    hide TakeTurn;
    if turns != [] {
      var front := turns[..|turns| - 1];
      TransientErrorsNeverFault(x, s, front);
      TransientTurn(x, Poll(x, s, front), turns[|turns| - 1]);
    }
  }

  /** How a worker ended shows in its state. */
  lemma {:induction false} ExitShowsInState(x: Options, s: Loop, turns: seq<Turn>)
    requires s.exit == Alive
    ensures var r := Poll(x, s, turns);
            && (r.exit == ExitStopped ==> r.w.state == Stopped)
            && (r.exit == ExitFaulted ==> r.w.state == Faulted && turns != [])
  {
    if turns != [] {
      ExitShowsInState(x, s, turns[..|turns| - 1]);
    }
  }

  lemma {:induction false} SupervisedExitShowsInState(x: Options, w: Worker, resumeFirst: bool, restarts: nat, lives: seq<Lifetime>)
    ensures var (u, exit) := Supervise(x, w, resumeFirst, restarts, lives);
            && (exit == ExitStopped ==> u.state == Stopped)
            && (exit == ExitFaulted ==> u.state == Faulted && (x.restart == None || exists n :: !x.restart.value(n)))
    decreases |lives|
  {
    if lives != [] {
      var (booted, _) := Boot(x, w, resumeFirst || restarts > 0, lives[0].attempts);
      var (u, _) := RunOnce(x, w, resumeFirst || restarts > 0, lives[0]);
      ExitShowsInState(x, Loop(booted, 0, 0, Alive), lives[0].turns);
      SupervisedExitShowsInState(x, u.(state := Restarting), resumeFirst, restarts + 1, lives[1..]);
    }
  }

  /** The poison errors since a batch last went well or an event was skipped. */
  function Streak(x: Options, s: Loop, turns: seq<Turn>): nat {
    if turns == [] then 0
    else
      var front, last := turns[..|turns| - 1], turns[|turns| - 1];
      var at := Poll(x, s, front);
      if Succeeds(x, at, last) || Skips(x, at, last) then 0
      else Streak(x, s, front) + if Poisoned(x, at, last) then 1 else 0
  }

  lemma TurnExtendsTheStreak(x: Options, s: Loop, t: Turn)
    ensures TakeTurn(x, s, t).poisonErrors ==
              if Succeeds(x, s, t) || Skips(x, s, t) then 0 else s.poisonErrors + if Poisoned(x, s, t) then 1 else 0
    ensures Skips(x, s, t) ==> TakeTurn(x, s, t).w == HandlePoison(x, AfterBatch(x, s, t).(state := Faulted), t.skipWriteFails).0.(state := Running)
    ensures !Skips(x, s, t) ==> TakeTurn(x, s, t).w.accepted == s.w.accepted
  {
    hide ProcessBatch;
    BatchLeavesStateAlone(x, Resumed(s.w), t.log, t.cycle);
  }

  /** An event is skipped only after as many poison errors in a row as the budget has, whatever
      transient errors and pauses lie between. */
  lemma {:induction false} SkipsFollowTheBudget(x: Options, s: Loop, turns: seq<Turn>, t: Turn, budget: nat)
    requires s.poisonErrors == 0 && forall n: nat :: n < budget ==> x.shouldRetry(n)
    ensures Poll(x, s, turns).poisonErrors == Streak(x, s, turns)
    ensures TakeTurn(x, Poll(x, s, turns), t).w.accepted != Poll(x, s, turns).w.accepted ==>
              && Streak(x, s, turns) + 1 >= budget && !t.transient
              && var failing := AfterBatch(x, Poll(x, s, turns), t).failedEvent;
                 && failing.Some? && x.onPoison.Some? && x.onPoison.value(failing.value)
                 && TakeTurn(x, Poll(x, s, turns), t).w.lastPosition == failing.value.position
  {
    hide TakeTurn, ProcessBatch, AfterBatch;
    if turns != [] {
      var front, last := turns[..|turns| - 1], turns[|turns| - 1];
      SkipsFollowTheBudget(x, s, front, last, budget);
      TurnExtendsTheStreak(x, Poll(x, s, front), last);
    }
    TurnExtendsTheStreak(x, Poll(x, s, turns), t);
  }

  // ---- Why a failing batch handler is excluded ----

  /** A batch handler does not say which event failed, so a skip passes over the whole batch: that
      loses nothing exactly when every event but the last was accounted for already. */
  lemma SkippingAFailedBatch(x: Options, w: Worker, log: seq<StoredEvent>, c: Cycle)
    requires NoLoss(x, w, log) && !c.loadFails && c.batch == BatchErrored
    requires var loaded := LoadFrom(log, w.lastPosition, x.batchSize);
             Handled(x, loaded[..Readable(x, loaded, c.undecryptable)]) != []
    requires var loaded := LoadFrom(log, w.lastPosition, x.batchSize);
             var events := Handled(x, loaded[..Readable(x, loaded, c.undecryptable)]);
             x.onPoison.Some? && x.onPoison.value(events[|events| - 1])
    ensures var loaded := LoadFrom(log, w.lastPosition, x.batchSize);
            var events := Handled(x, loaded[..Readable(x, loaded, c.undecryptable)]);
            var skipped := HandlePoison(x, ProcessBatch(x, w, log, c).0, c.writeFails).0;
            && skipped.lastPosition == events[|events| - 1].position
            && (NoLoss(x, skipped, log) <==> forall i :: 0 <= i < |events| - 1 ==> events[i].position in w.applied + w.accepted)
  {
    hide Handled, Readable;
    var loaded := LoadFrom(log, w.lastPosition, x.batchSize);
    var n := Readable(x, loaded, c.undecryptable);
    NothingHandledInNothing(x);
    assert loaded[..0] == [];
    BatchCovers(log, w.lastPosition, x.batchSize, n);
    BatchSkipAccounts(x, w, log, loaded[..n], c);
  }

  lemma NothingHandledInNothing(x: Options)
    ensures Handled(x, []) == []
  {
  }

  lemma BatchSkipAccounts(x: Options, w: Worker, log: seq<StoredEvent>, kept: seq<StoredEvent>, c: Cycle)
    requires NoLoss(x, w, log) && Increasing(w.lastPosition, kept) && kept != [] && forall e :: e in kept ==> e in log
    requires forall e :: e in log && w.lastPosition < e.position <= kept[|kept| - 1].position ==> e in kept
    requires Handled(x, kept) != [] && c.batch == BatchErrored
    requires var events := Handled(x, kept); x.onPoison.Some? && x.onPoison.value(events[|events| - 1])
    ensures var events := Handled(x, kept);
            var last := events[|events| - 1];
            var skipped := HandlePoison(x, Apply(w, events, c).0, c.writeFails).0;
            && skipped.lastPosition == last.position
            && (NoLoss(x, skipped, log) <==> forall i :: 0 <= i < |events| - 1 ==> events[i].position in w.applied + w.accepted)
  {
    hide Handled, AccountedUpTo;
    var events := Handled(x, kept);
    var last := events[|events| - 1];
    var skipped := HandlePoison(x, Apply(w, events, c).0, c.writeFails).0;
    HandledAreIn(x, w.lastPosition, kept);
    IncreasingMeans(w.lastPosition, kept);
    assert last in events && last in kept && Reached(log, last.position);
    SkipAccountsForTheBatch(x, w, skipped, log, events);
    MoreHistoryKeeps(x, w, skipped, log, w.checkpoint);
  }

  lemma SkipAccountsForTheBatch(x: Options, w: Worker, skipped: Worker, log: seq<StoredEvent>, events: seq<StoredEvent>)
    requires AccountedUpTo(x, w, log, w.lastPosition) && Increasing(w.lastPosition, events) && events != []
    requires forall e :: e in events ==> e in log && x.handles(e.eventType)
    requires forall e :: e in log && x.handles(e.eventType) && w.lastPosition < e.position <= events[|events| - 1].position ==> e in events
    requires skipped.applied == w.applied && skipped.accepted == w.accepted + {events[|events| - 1].position}
    ensures AccountedUpTo(x, skipped, log, events[|events| - 1].position)
            <==> forall i :: 0 <= i < |events| - 1 ==> events[i].position in w.applied + w.accepted
  {
    var last := events[|events| - 1];
    IncreasingMeans(w.lastPosition, events);
    if AccountedUpTo(x, skipped, log, last.position) {
      forall i | 0 <= i < |events| - 1
        ensures events[i].position in w.applied + w.accepted
      {
        assert events[i] in events;
      }
    }
  }
}
