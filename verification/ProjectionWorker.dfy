/** The asynchronous projection worker itself, proved to do what ProjectionSpec says. */
module ProjectionWorker {
  import opened Events
  import opened Stores
  import Spec = ProjectionSpec

  class AsyncWorker {
    const options: Spec.Options
    const store: EventStore
    const checkpoints: CheckpointStore
    const name: string
    var lastPosition: nat
    var failedEvent: Option<StoredEvent>
    var state: Spec.ProjectionState
    ghost var applied: set<nat>    // positions applied successfully at least once
    ghost var accepted: set<nat>   // positions the poison handler accepted to skip

    constructor (options: Spec.Options, store: EventStore, checkpoints: CheckpointStore, name: string)
      ensures this.options == options && this.store == store && this.checkpoints == checkpoints && this.name == name
      ensures View() == Spec.Worker(Spec.Idle, 0, None, checkpoints.Position(name), {}, {})
    {
      this.options, this.store, this.checkpoints, this.name := options, store, checkpoints, name;
      lastPosition, failedEvent, state, applied, accepted := 0, None, Spec.Idle, {}, {};
    }

    ghost function View(): Spec.Worker
      reads this, checkpoints
    {
      Spec.Worker(state, lastPosition, failedEvent, checkpoints.Position(name), applied, accepted)
    }

    /** What the worker meets now: whether loading fails here and whether the checkpoint can be written. */
    ghost predicate Meets(loadFails: bool, writeFails: bool)
      reads this, store, checkpoints
    {
      (loadFails <==> lastPosition in store.unreadable) && (writeFails <==> checkpoints.writeFails)
    }

    /** Splits off the events that can be processed now: `n` events up to the first handled one
        that cannot be decrypted, and the handled ones among them. */
    method SelectEvents(events: seq<StoredEvent>, undecryptable: set<nat>) returns (n: nat, handled: seq<StoredEvent>)
      ensures n == Spec.Readable(options, events, undecryptable)
      ensures handled == Spec.Handled(options, events[..n])
      ensures forall i :: 0 <= i < n ==> !(options.handles(events[i].eventType) && events[i].position in undecryptable)
      ensures n < |events| ==> options.handles(events[n].eventType) && events[n].position in undecryptable
    {
      Spec.ReadableMeans(options, events, undecryptable);
      n, handled := 0, [];
      while n < |events|
        invariant n <= |events|
        invariant Spec.Readable(options, events, undecryptable) == n + Spec.Readable(options, events[n..], undecryptable)
        invariant handled == Spec.Handled(options, events[..n])
      {
        var event := events[n];
        assert events[n..][0] == event && events[n..][1..] == events[n + 1..];
        if options.handles(event.eventType) && event.position in undecryptable { return; }
        HandledSnoc(options, events[..n], event);
        assert events[..n] + [event] == events[..n + 1];
        if options.handles(event.eventType) { handled := handled + [event]; }
        n := n + 1;
      }
    }

    /** Falls back to one event at a time. An error names the failed event, a panic does not. */
    method ApplySequentially(events: seq<StoredEvent>, outcome: nat -> Spec.ApplyOutcome) returns (ok: bool)
      modifies this`failedEvent, this`applied
      ensures var n := Spec.Successes(events, outcome);
              && ok == (n == |events|)
              && (forall i :: 0 <= i < n ==> outcome(events[i].position) == Spec.Done)
              && (n < |events| ==> outcome(events[n].position) != Spec.Done)
              && applied == old(applied) + Spec.Positions(events[..n])
              && failedEvent == if n < |events| && outcome(events[n].position) == Spec.Errored then Some(events[n]) else old(failedEvent)
    {
      Spec.SuccessesMeans(events, outcome);
      var i := 0;
      while i < |events|
        invariant 0 <= i <= |events|
        invariant Spec.Successes(events, outcome) == i + Spec.Successes(events[i..], outcome)
        invariant applied == old(applied) + Spec.Positions(events[..i])
        invariant failedEvent == old(failedEvent)
      {
        assert events[i..][0] == events[i] && events[i..][1..] == events[i + 1..];
        match outcome(events[i].position) {
          case Done =>
            applied := applied + {events[i].position};
            assert events[..i + 1] == events[..i] + [events[i]];
          case Errored =>
            failedEvent := Some(events[i]);
            return false;
          case Panicked =>
            return false;
        }
        i := i + 1;
      }
      ok := true;
    }

    /** Tries the projection's batch handler first. */
    method ApplyEvents(events: seq<StoredEvent>, c: Spec.Cycle) returns (ok: bool)
      requires events != []
      modifies this`failedEvent, this`applied
      ensures (View(), ok) == Spec.Apply(old(View()), events, c)
    {
      match c.batch {
        case NotImplemented =>
          ok := ApplySequentially(events, c.outcome);
        case BatchErrored =>
          failedEvent := Some(events[|events| - 1]);
          ok := false;
        case BatchPanicked =>
          ok := false;
        case BatchDone =>
          applied := applied + Spec.Positions(events);
          ok := true;
      }
    }

    /** Persists a position, if that works, and moves there in any case. */
    method MoveTo(position: nat)
      modifies this`lastPosition, checkpoints`positions
      ensures View() == Spec.MoveTo(old(View()), position, checkpoints.writeFails)
    {
      var saved := checkpoints.SetCheckpoint(name, position);
      lastPosition := position;
    }

    method ProcessAsyncBatch(c: Spec.Cycle) returns (ok: bool)
      requires Meets(c.loadFails, c.writeFails)
      modifies this`lastPosition, this`failedEvent, this`applied, checkpoints`positions
      ensures (View(), ok) == Spec.ProcessBatch(options, old(View()), store.log, c)
    {
      hide Spec.Readable, Spec.Handled, Spec.Apply;
      var loaded, events := store.LoadEventsFromPosition(lastPosition, options.batchSize);
      if !loaded { return false; }
      if |events| == 0 { return true; }
      var n, handled := SelectEvents(events, c.undecryptable);
      if n == 0 {
        failedEvent := Some(events[0]);
        return false;
      }
      var kept := events[..n];
      if |handled| > 0 {
        ok := ApplyEvents(handled, c);
        if !ok { return false; }
        failedEvent := None;
      }
      MoveTo(kept[n - 1].position);
      ok := true;
    }

    /** Asks the poison handler; an accepted event is skipped and the position persisted. */
    method HandlePoisonEvent() returns (skipped: bool)
      modifies this`lastPosition, this`failedEvent, this`accepted, checkpoints`positions
      ensures (View(), skipped) == Spec.HandlePoison(options, old(View()), checkpoints.writeFails)
    {
      if options.onPoison == None || failedEvent == None { return false; }
      var failed := failedEvent.value;
      if !options.onPoison.value(failed) { return false; }
      accepted := accepted + {failed.position};
      failedEvent := None;
      MoveTo(failed.position);
      skipped := true;
    }

    /** What others do to the stores, and to a paused worker, until a turn is due. */
    method Await(t: Spec.Turn)
      modifies this`state, checkpoints`writeFails, store`log, store`unreadable
      ensures store.log == t.log && Meets(t.cycle.loadFails, t.cycle.writeFails)
      ensures View() == if t.stop || t.paused then old(View()) else Spec.Resumed(old(View()))
    {
      store.Become(t.log, if t.cycle.loadFails then {lastPosition} else {});
      checkpoints.FailWrites(t.cycle.writeFails);
      if !t.stop && !t.paused && state == Spec.Paused { state := Spec.Running; }
    }

    /** One polling turn. */
    method TakeTurn(t: Spec.Turn, poisonErrors0: nat, backoffErrors0: nat)
      returns (poisonErrors: nat, backoffErrors: nat, exit: Spec.Exit)
      modifies this, checkpoints`positions, checkpoints`writeFails, store`log, store`unreadable
      ensures Spec.Loop(View(), poisonErrors, backoffErrors, exit)
           == Spec.TakeTurn(options, Spec.Loop(old(View()), poisonErrors0, backoffErrors0, Spec.Alive), t)
    {
      hide Spec.ProcessBatch, Spec.HandlePoison;
      poisonErrors, backoffErrors, exit := poisonErrors0, backoffErrors0, Spec.Alive;
      Await(t);
      if t.stop {
        state, exit := Spec.Stopped, Spec.ExitStopped;
        return;
      }
      if t.paused {
        state := Spec.Paused;
        return;
      }
      var ok := ProcessAsyncBatch(t.cycle);
      if ok {
        if backoffErrors > 0 { state := Spec.Running; }
        poisonErrors, backoffErrors := 0, 0;
        return;
      }
      if t.canceled {
        state, exit := Spec.Stopped, Spec.ExitStopped;
        return;
      }
      backoffErrors := backoffErrors + 1;
      if !t.transient {
        poisonErrors := poisonErrors + 1;
        state := Spec.Faulted;
        if !options.shouldRetry(poisonErrors) {
          checkpoints.FailWrites(t.skipWriteFails);
          var skipped := HandlePoisonEvent();
          if !skipped { return poisonErrors, backoffErrors, Spec.ExitFaulted; }
          state := Spec.Running;
          return 0, 0, Spec.Alive;
        }
      }
      if t.stopInBackoff { state, exit := Spec.Stopped, Spec.ExitStopped; }
    }

    method ReadCheckpoint(attempts: nat -> Spec.Read) returns (r: Spec.Read)
      ensures r == Spec.ReadWithRetry(attempts, 0)
    {
      for attempt := 0 to Spec.CHECKPOINT_READ_RETRIES
        invariant Spec.ReadWithRetry(attempts, 0) == Spec.ReadWithRetry(attempts, attempt)
      {
        if attempts(attempt) != Spec.ReadFailed { return attempts(attempt); }
      }
      r := Spec.ReadFailed;
    }

    /** One lifetime: boot from the checkpoint, then poll until stopped, faulted or observed. */
    method RunOnce(resume: bool, life: Spec.Lifetime) returns (exit: Spec.Exit)
      modifies this, checkpoints`positions, checkpoints`writeFails, store`log, store`unreadable
      ensures (View(), exit) == Spec.RunOnce(options, old(View()), resume, life)
    {
      hide Spec.TakeTurn;
      state := Spec.CatchingUp;
      var startPosition := 0;
      if resume || !options.startFromBeginning {
        var read := ReadCheckpoint(life.attempts);
        match read {
          case ReadShutdown =>
            state := Spec.Stopped;
            return Spec.ExitStopped;
          case ReadFailed =>
            state := Spec.Faulted;
            return Spec.ExitFaulted;
          case ReadOk =>
            startPosition := checkpoints.Position(name);
        }
      }
      lastPosition := startPosition;
      state := Spec.Running;
      ghost var booted := View();
      var poisonErrors, backoffErrors := 0, 0;
      exit := Spec.Alive;
      var i := 0;
      while i < |life.turns| && exit == Spec.Alive
        invariant 0 <= i <= |life.turns|
        invariant Spec.Loop(View(), poisonErrors, backoffErrors, exit)
               == Spec.Poll(options, Spec.Loop(booted, 0, 0, Spec.Alive), life.turns[..i])
      {
        assert life.turns[..i + 1][..i] == life.turns[..i];
        poisonErrors, backoffErrors, exit := TakeTurn(life.turns[i], poisonErrors, backoffErrors);
        i := i + 1;
      }
      StoppedStays(options, Spec.Loop(booted, 0, 0, Spec.Alive), life.turns, i);
      assert life.turns[..|life.turns|] == life.turns;
    }

    /** The supervising loop. */
    method Supervise(resumeFirst: bool, lives: seq<Spec.Lifetime>) returns (exit: Spec.Exit)
      modifies this, checkpoints`positions, checkpoints`writeFails, store`log, store`unreadable
      ensures (View(), exit) == Spec.Supervise(options, old(View()), resumeFirst, 0, lives)
    {
      hide Spec.RunOnce;
      var restarts := 0;
      exit := Spec.Alive;
      while restarts < |lives|
        invariant 0 <= restarts <= |lives|
        invariant exit == Spec.Alive
        invariant Spec.Supervise(options, old(View()), resumeFirst, 0, lives)
               == Spec.Supervise(options, View(), resumeFirst, restarts, lives[restarts..])
      {
        ghost var before := View();
        var life := lives[restarts];
        assert lives[restarts..][0] == life && lives[restarts..][1..] == lives[restarts + 1..];
        exit := RunOnce(resumeFirst || restarts > 0, life);
        if exit != Spec.ExitFaulted { return; }
        if options.restart == None { return; }
        restarts := restarts + 1;
        if !options.restart.value(restarts) { return; }
        state := Spec.Restarting;
        if life.stopInRestart {
          state, exit := Spec.Stopped, Spec.ExitStopped;
          return;
        }
        exit := Spec.Alive;
      }
    }
  }

  lemma {:induction false} HandledSnoc(x: Spec.Options, events: seq<StoredEvent>, e: StoredEvent)
    ensures Spec.Handled(x, events + [e]) == Spec.Handled(x, events) + if x.handles(e.eventType) then [e] else []
  {
    if events != [] {
      HandledSnoc(x, events[1..], e);
      assert (events + [e])[1..] == events[1..] + [e];
    }
  }

  /** Once the loop has ended, further turns change nothing. */
  lemma {:induction false} StoppedStays(x: Spec.Options, s: Spec.Loop, turns: seq<Spec.Turn>, i: nat)
    requires i <= |turns| && (i < |turns| ==> Spec.Poll(x, s, turns[..i]).exit != Spec.Alive)
    ensures Spec.Poll(x, s, turns) == Spec.Poll(x, s, turns[..i])
    decreases |turns|
  {
    if i < |turns| {
      assert turns[..|turns| - 1][..i] == turns[..i];
      StoppedStays(x, s, turns[..|turns| - 1], i);
    } else {
      assert turns[..i] == turns;
    }
  }
}
