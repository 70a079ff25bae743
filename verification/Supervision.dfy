/** The lifecycle of worker supervisors: any number of concurrent launches (Start, Restart) of any
    workers, the supervisors they spawn, and one Stop, interleaved in any way. */
module Supervision {

  type WorkerId = nat

  /** Where one launch, and the supervisor goroutine it may spawn, stands. */
  datatype Phase =
    | Ready(w: WorkerId)         // about to compare-and-swap the worker's guard
    | Claimed(w: WorkerId)       // won the guard, about to take the lifecycle mutex
    | Holding(w: WorkerId)       // holds the mutex, about to look at `stopping`
    | Cleared(w: WorkerId)       // saw `stopping` false, about to add to the wait group
    | Added(w: WorkerId)         // added, about to release the mutex
    | Refused(w: WorkerId)       // saw `stopping` true, about to release the mutex
    | BackingOut(w: WorkerId)    // released it, about to reset the guard
    | Spawning(w: WorkerId)      // about to start the goroutine
    | Supervising(w: WorkerId)   // the supervisor lives: it runs, faults and restarts the worker
    | Exiting(w: WorkerId)       // it returned; its deferred reset of the guard comes first
    | Leaving(w: WorkerId)       // guard reset, about to leave the wait group
    | Gone

  datatype StopPhase = NotStopping | StopHolding | StopSet | Joining | Joined

  datatype Owner = Nobody | Launch(id: nat) | TheStop

  datatype Engine = Engine(
    launches: map<nat, Phase>,
    supervising: set<WorkerId>,   // the workers whose guard is set
    stopping: bool,
    lock: Owner,
    waitGroup: int,
    stop: StopPhase)

  const STARTED := Engine(map[], {}, false, Nobody, 0, NotStopping)

  function Go(s: Engine, l: nat, p: Phase): Engine {
    s.(launches := s.launches[l := p])
  }

  /** The next step of one launch or of the supervisor it spawned. A supervisor may return at any
      time: its worker stopped, faulted for good, or was told to stop. */
  ghost predicate LaunchStep(s: Engine, s': Engine, l: nat)
    requires l in s.launches
  {
    match s.launches[l]
    case Ready(w) =>
      if w in s.supervising then s' == Go(s, l, Gone)
      else s' == Go(s.(supervising := s.supervising + {w}), l, Claimed(w))
    case Claimed(w) => s.lock == Nobody && s' == Go(s.(lock := Launch(l)), l, Holding(w))
    case Holding(w) => s' == Go(s, l, if s.stopping then Refused(w) else Cleared(w))
    case Cleared(w) => s' == Go(s.(waitGroup := s.waitGroup + 1), l, Added(w))
    case Added(w) => s' == Go(s.(lock := Nobody), l, Spawning(w))
    case Refused(w) => s' == Go(s.(lock := Nobody), l, BackingOut(w))
    case BackingOut(w) => s' == Go(s.(supervising := s.supervising - {w}), l, Gone)
    case Spawning(w) => s' == Go(s, l, Supervising(w))
    case Supervising(w) => s' == Go(s, l, Exiting(w))
    case Exiting(w) => s' == Go(s.(supervising := s.supervising - {w}), l, Leaving(w))
    case Leaving(w) => s' == Go(s.(waitGroup := s.waitGroup - 1), l, Gone)
    case Gone => false
  }

  ghost predicate StopStep(s: Engine, s': Engine) {
    match s.stop
    case NotStopping => s.lock == Nobody && s' == s.(lock := TheStop, stop := StopHolding)
    case StopHolding => s' == s.(stopping := true, stop := StopSet)
    case StopSet => s' == s.(lock := Nobody, stop := Joining)
    case Joining => s.waitGroup == 0 && s' == s.(stop := Joined)
    case Joined => false
  }

  /** A new launch may begin at any time, also while the engine is stopping: a Restart may have
      passed its own check just before. */
  ghost predicate Begin(s: Engine, s': Engine, l: nat, w: WorkerId) {
    l !in s.launches && s' == Go(s, l, Ready(w))
  }

  ghost predicate Step(s: Engine, s': Engine) {
    || (exists l, w :: Begin(s, s', l, w))
    || (exists l :: l in s.launches && LaunchStep(s, s', l))
    || StopStep(s, s')
  }

  ghost predicate Run(run: seq<Engine>) {
    run != [] && run[0] == STARTED && forall i :: 0 < i < |run| ==> Step(run[i - 1], run[i])
  }

  // ---- The invariant ----

  /** The worker whose guard this launch has set and not reset. */
  function GuardOf(p: Phase): set<WorkerId> {
    if p.Ready? || p.Leaving? || p.Gone? then {} else {p.w}
  }

  predicate HoldsLock(p: Phase) {
    p.Holding? || p.Cleared? || p.Added? || p.Refused?
  }

  predicate Counted(p: Phase) {
    p.Added? || p.Spawning? || p.Supervising? || p.Exiting? || p.Leaving?
  }

  function CountedLaunches(launches: map<nat, Phase>): set<nat> {
    set l | l in launches && Counted(launches[l])
  }

  /** Every set guard belongs to one launch, and that launch is the only one to own it. */
  ghost predicate Guarded(launches: map<nat, Phase>, supervising: set<WorkerId>) {
    && (forall l :: l in launches ==> GuardOf(launches[l]) <= supervising)
    && (forall w :: w in supervising ==> exists l :: l in launches && w in GuardOf(launches[l]))
    && (forall l, m :: l in launches && m in launches && l != m ==> GuardOf(launches[l]) !! GuardOf(launches[m]))
  }

  ghost predicate GuardsOwned(s: Engine) {
    Guarded(s.launches, s.supervising)
  }

  ghost predicate LockHeld(s: Engine) {
    && (forall l :: l in s.launches && HoldsLock(s.launches[l]) ==> s.lock == Launch(l))
    && (s.lock.Launch? ==> s.lock.id in s.launches && HoldsLock(s.launches[s.lock.id]))
    && (s.lock == TheStop <==> s.stop == StopHolding || s.stop == StopSet)
    && (forall l :: l in s.launches && s.launches[l].Cleared? ==> !s.stopping)
    && (s.stopping <==> s.stop != NotStopping && s.stop != StopHolding)
  }

  ghost predicate GroupCounts(s: Engine) {
    && s.waitGroup == |CountedLaunches(s.launches)|
    && (s.stop == Joined ==> s.waitGroup == 0)
  }

  ghost predicate Inv(s: Engine) {
    GuardsOwned(s) && LockHeld(s) && GroupCounts(s)
  }

  /** A launch may trade what it owns for guards nobody has set. */
  lemma GuardsAfter(launches: map<nat, Phase>, supervising: set<WorkerId>, l: nat, p: Phase, mine: set<WorkerId>)
    requires Guarded(launches, supervising) && mine == if l in launches then GuardOf(launches[l]) else {}
    requires GuardOf(p) - mine !! supervising
    ensures Guarded(launches[l := p], supervising - mine + GuardOf(p))
  {
    hide GuardOf;
    var after := launches[l := p];
    forall m | m in launches && m != l
      ensures GuardOf(launches[m]) <= supervising - mine && GuardOf(launches[m]) !! GuardOf(p)
    {
    }
    forall w | w in supervising - mine + GuardOf(p)
      ensures exists m :: m in after && w in GuardOf(after[m])
    {
      if w in GuardOf(p) {
        assert l in after && w in GuardOf(after[l]);
      } else {
        var m :| m in launches && w in GuardOf(launches[m]);
        assert m in after && after[m] == launches[m];
      }
    }
  }

  lemma StepKeepsGuards(s: Engine, s': Engine, l: nat)
    requires GuardsOwned(s) && l in s.launches && LaunchStep(s, s', l)
    ensures GuardsOwned(s')
  {
    hide Guarded;
    GuardStep(s, s', l);
    GuardsAfter(s.launches, s.supervising, l, s'.launches[l], GuardOf(s.launches[l]));
  }

  /** What one step trades. */
  lemma GuardStep(s: Engine, s': Engine, l: nat)
    requires GuardsOwned(s) && l in s.launches && LaunchStep(s, s', l)
    ensures l in s'.launches && s'.launches == s.launches[l := s'.launches[l]]
    ensures GuardOf(s'.launches[l]) - GuardOf(s.launches[l]) !! s.supervising
    ensures s'.supervising == s.supervising - GuardOf(s.launches[l]) + GuardOf(s'.launches[l])
  {
    assert GuardOf(s.launches[l]) <= s.supervising;
  }

  lemma StepKeepsLock(s: Engine, s': Engine, l: nat)
    requires LockHeld(s) && l in s.launches && LaunchStep(s, s', l)
    ensures LockHeld(s')
  {
    assert forall m :: m != l ==> (m in s.launches <==> m in s'.launches) && (m in s.launches ==> s'.launches[m] == s.launches[m]);
  }

  lemma CountAfter(launches: map<nat, Phase>, l: nat, p: Phase)
    requires l in launches
    ensures |CountedLaunches(launches[l := p])|
         == |CountedLaunches(launches)| + (if Counted(p) then 1 else 0) - (if Counted(launches[l]) then 1 else 0)
  {
    var others := CountedLaunches(launches) - {l};
    assert CountedLaunches(launches) == if Counted(launches[l]) then others + {l} else others;
    assert CountedLaunches(launches[l := p]) == if Counted(p) then others + {l} else others;
  }

  lemma StepKeepsCount(s: Engine, s': Engine, l: nat)
    requires LockHeld(s) && GroupCounts(s) && l in s.launches && LaunchStep(s, s', l)
    ensures GroupCounts(s')
  {
    hide CountedLaunches;
    assert s'.launches == s.launches[l := s'.launches[l]];
    CountAfter(s.launches, l, s'.launches[l]);
  }

  lemma StopStepKeepsInv(s: Engine, s': Engine)
    requires Inv(s) && StopStep(s, s')
    ensures Inv(s')
  {
    assert s'.launches == s.launches && s'.supervising == s.supervising;
  }

  lemma BeginKeepsInv(s: Engine, s': Engine, l: nat, w: WorkerId)
    requires Inv(s) && Begin(s, s', l, w)
    ensures Inv(s')
  {
    hide Guarded, LockHeld, CountedLaunches;
    BeginKeepsLock(s, s', l, w);
    NewLaunchIsFree(s.launches, s.supervising, l, w);
  }

  lemma NewLaunchIsFree(launches: map<nat, Phase>, supervising: set<WorkerId>, l: nat, w: WorkerId)
    requires Guarded(launches, supervising) && l !in launches
    ensures Guarded(launches[l := Ready(w)], supervising)
    ensures CountedLaunches(launches[l := Ready(w)]) == CountedLaunches(launches)
  {
    hide Guarded;
    GuardsAfter(launches, supervising, l, Ready(w), {});
    assert supervising - {} + {} == supervising;
  }

  lemma BeginKeepsLock(s: Engine, s': Engine, l: nat, w: WorkerId)
    requires LockHeld(s) && Begin(s, s', l, w)
    ensures LockHeld(s')
  {
    assert forall m :: m != l && m in s'.launches ==> m in s.launches && s'.launches[m] == s.launches[m];
  }

  lemma StepKeepsInv(s: Engine, s': Engine)
    requires Inv(s) && Step(s, s')
    ensures Inv(s')
  {
    if l, w :| Begin(s, s', l, w) {
      BeginKeepsInv(s, s', l, w);
    } else if l :| l in s.launches && LaunchStep(s, s', l) {
      StepKeepsGuards(s, s', l);
      StepKeepsLock(s, s', l);
      StepKeepsCount(s, s', l);
    } else {
      StopStepKeepsInv(s, s');
    }
  }

  lemma StartedHolds()
    ensures Inv(STARTED)
  {
    assert CountedLaunches(STARTED.launches) == {};
  }

  lemma {:induction false} EveryRunKeepsInv(run: seq<Engine>)
    requires Run(run)
    ensures forall i :: 0 <= i < |run| ==> Inv(run[i])
  {
    hide GuardsOwned, LockHeld, Step;
    if |run| == 1 {
      StartedHolds();
    } else {
      var front := run[..|run| - 1];
      EveryRunKeepsInv(front);
      assert forall i :: 0 <= i < |front| ==> front[i] == run[i];
      StepKeepsInv(run[|run| - 2], run[|run| - 1]);
    }
  }

  // ---- What the lifecycle promises ----

  ghost predicate Lives(s: Engine, l: nat, w: WorkerId) {
    l in s.launches && (s.launches[l] == Spawning(w) || s.launches[l] == Supervising(w) || s.launches[l] == Exiting(w))
  }

  /** Each worker has at most one live supervisor, in every state of every run. */
  lemma AtMostOneSupervisor(run: seq<Engine>, i: nat, w: WorkerId, l: nat, m: nat)
    requires Run(run) && i < |run| && Lives(run[i], l, w) && Lives(run[i], m, w)
    ensures l == m
  {
    EveryRunKeepsInv(run);
    assert Inv(run[i]);
    assert w in GuardOf(run[i].launches[l]) && w in GuardOf(run[i].launches[m]);
  }

  /** Once Stop has set `stopping`, the wait group is never incremented again. */
  lemma NeverAddedAfterStop(run: seq<Engine>, i: nat)
    requires Run(run) && 0 < i < |run| && run[i - 1].stopping
    ensures run[i].waitGroup <= run[i - 1].waitGroup && run[i].stopping
  {
    EveryRunKeepsInv(run);
    assert Inv(run[i - 1]) && Step(run[i - 1], run[i]);
    StoppingStepNeverAdds(run[i - 1], run[i]);
  }

  lemma StoppingStepNeverAdds(s: Engine, s': Engine)
    requires LockHeld(s) && Step(s, s') && s.stopping
    ensures s'.waitGroup <= s.waitGroup && s'.stopping
  {
  }

  /** When Stop's join has returned no supervisor lives, now or later, and a guard can be set only
      by a launch that is on its way to being refused: each set guard belongs to one. */
  lemma JoinedMeansNoneLive(run: seq<Engine>, i: nat, l: nat, w: WorkerId)
    requires Run(run) && i < |run| && run[i].stop == Joined
    ensures !Lives(run[i], l, w)
    ensures w in run[i].supervising <==>
            exists m :: m in run[i].launches
              && run[i].launches[m] in {Claimed(w), Holding(w), Refused(w), BackingOut(w)}
  {
    EveryRunKeepsInv(run);
    assert Inv(run[i]);
    NoneCounted(run[i]);
    if w in run[i].supervising {
      var m :| m in run[i].launches && w in GuardOf(run[i].launches[m]);
      assert run[i].launches[m] in {Claimed(w), Holding(w), Refused(w), BackingOut(w)};
    }
  }

  /** After the join nobody is in the wait group any more, nor about to enter it. */
  lemma NoneCounted(s: Engine)
    requires LockHeld(s) && GroupCounts(s) && s.stop == Joined
    ensures forall m :: m in s.launches ==> !Counted(s.launches[m]) && !s.launches[m].Cleared?
  {
    assert forall m :: m in s.launches && Counted(s.launches[m]) ==> m in CountedLaunches(s.launches);
    assert CountedLaunches(s.launches) == {};
  }

  /** So when no launch is under way, every guard is clear and every worker can be launched anew. */
  lemma QuietJoinClearsEveryGuard(run: seq<Engine>, i: nat)
    requires Run(run) && i < |run| && run[i].stop == Joined
    requires forall l :: l in run[i].launches ==> run[i].launches[l].Gone? || run[i].launches[l].Ready?
    ensures run[i].supervising == {}
  {
    forall w
      ensures w !in run[i].supervising
    {
      JoinedMeansNoneLive(run, i, 0, w);
    }
  }

  /** The condition is needed: a Restart that passed its check before Stop may set the guard while
      Stop joins, and the join returns with the guard still set. */
  lemma RacingRestartLeavesAGuard(w: WorkerId) returns (run: seq<Engine>)
    ensures Run(run)
    ensures var last := run[|run| - 1]; last.stop == Joined && w in last.supervising
  {
    var s0 := STARTED;
    var s1 := Go(s0, 0, Ready(w));
    var s2 := s1.(lock := TheStop, stop := StopHolding);
    var s3 := s2.(stopping := true, stop := StopSet);
    var s4 := s3.(lock := Nobody, stop := Joining);
    var s5 := Go(s4.(supervising := s4.supervising + {w}), 0, Claimed(w));
    var s6 := s5.(stop := Joined);
    assert Begin(s0, s1, 0, w) && StopStep(s1, s2) && StopStep(s2, s3) && StopStep(s3, s4);
    assert LaunchStep(s4, s5, 0) && StopStep(s5, s6);
    run := [s0, s1, s2, s3, s4, s5, s6];
  }
}
