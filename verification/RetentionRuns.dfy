/** What retention sweeps guarantee: one sweep, and every sequence of sweeps over a growing log. */
module RetentionRuns {
  import opened Events
  import opened RetentionSpec
  import opened RetentionScan

  // ---- One sweep ----

  /** The events a sweep visited. */
  function Seen(log: seq<StoredEvent>, start: nat, r: Report): seq<StoredEvent>
    requires r.scanned <= |After(log, start)|
  {
    After(log, start)[..r.scanned]
  }

  lemma SweepFacts(x: Setup, log: seq<StoredEvent>, now: int, start: nat, r: Report, resume: nat, writeFailed: bool)
    requires ValidLog(log) && SweepResult(x, log, now, start, r, resume, writeFailed)
    ensures r.scanned <= |After(log, start)|
    ensures Increasing(start, Seen(log, start, r))
    ensures forall e :: e in Seen(log, start, r) ==> e in log && start < e.position
    ensures var s := SweepOf(x, log, now, r.dryRun, start, r.scanned);
            Consistent(s.cands) && start <= s.frontier
  {
    AfterMembers(log, start);
    IncreasingPrefix(start, After(log, start), r.scanned);
    FrontierIsSettled(Active(x.policies), now, r.dryRun, start, Seen(log, start, r));
  }

  /** Everything at or below the frontier of a sweep was visited by it or lies behind its start. */
  lemma BelowTheFrontier(x: Setup, log: seq<StoredEvent>, now: int, start: nat, r: Report, resume: nat, writeFailed: bool, e: StoredEvent)
    requires ValidLog(log) && SweepResult(x, log, now, start, r, resume, writeFailed)
    requires e in log && start < e.position <= SweepOf(x, log, now, r.dryRun, start, r.scanned).frontier
    ensures e in Seen(log, start, r)
  {
    var tail, seen := After(log, start), Seen(log, start, r);
    SweepFacts(x, log, now, start, r, resume, writeFailed);
    AfterMembers(log, start);
    FrontierIsSettled(Active(x.policies), now, r.dryRun, start, seen);
    IncreasingMeans(start, tail);
    var i :| 0 <= i < |tail| && tail[i] == e;
    assert seen != [] && seen[|seen| - 1] == tail[r.scanned - 1];
    assert i < r.scanned;
    assert seen[i] == e;
  }

  /** The guard lets a key through: it is off, or every enveloped event of the whole store under
      the key is covered by an age-eligible Shred policy. */
  ghost predicate GuardPasses(x: Setup, log: seq<StoredEvent>, now: int, k: string) {
    x.allowSharedKey
    || forall e :: e in log && HasEncryptionEnvelope(e.meta) && e.meta.keyId == k ==> CoveredByShred(Active(x.policies), e, now)
  }

  /** A key is to be revoked exactly when the sweep saw a shreddable event under it and the guard
      lets it through; a real run then revokes it unless the provider cannot. */
  lemma KeysToRevokeAreExactly(x: Setup, log: seq<StoredEvent>, now: int, start: nat, r: Report, resume: nat, writeFailed: bool, k: string)
    requires ValidLog(log) && SweepResult(x, log, now, start, r, resume, writeFailed)
    ensures k in r.keysToRevoke <==> Witnessed(Active(x.policies), now, Seen(log, start, r), k) && GuardPasses(x, log, now, k)
    ensures k in r.keysRevoked <==> k in r.keysToRevoke && !r.dryRun && x.configured && k !in x.refuses
  {
    var active := Active(x.policies);
    SweepFacts(x, log, now, start, r, resume, writeFailed);
    ShreddableAreCandidates(active, now, r.dryRun, start, Seen(log, start, r));
    CandidatesAreShreddable(active, now, r.dryRun, start, Seen(log, start, r));
    OutOfScopeIff(active, now, k, log);
  }

  /** Which keys a sweep condemns, said of the policies as they are written: those of the enveloped
      events it saw that meet every matcher of some Shred policy. It revokes no other, so policies that
      name one category cost no key without an event on that category's streams. */
  lemma CondemnedKeysAre(x: Setup, log: seq<StoredEvent>, now: int, start: nat, r: Report, resume: nat, writeFailed: bool, k: string)
    requires ValidLog(log) && SweepResult(x, log, now, start, r, resume, writeFailed)
    ensures k in r.keysToRevoke + r.sharedKeysSkipped <==>
            exists e :: e in Seen(log, start, r) && HasEncryptionEnvelope(e.meta) && e.meta.keyId == k && Condemned(x.policies, e, now)
    ensures k in r.keysToRevoke && !x.allowSharedKey ==>
              forall e :: e in log && HasEncryptionEnvelope(e.meta) && e.meta.keyId == k ==> Condemned(x.policies, e, now)
    ensures k in r.sharedKeysSkipped ==>
              !x.allowSharedKey && exists e :: e in log && HasEncryptionEnvelope(e.meta) && e.meta.keyId == k && !Condemned(x.policies, e, now)
  {
    hide Condemned, CoveredByShred, Active, Scan;
    var active, seen := Active(x.policies), Seen(log, start, r);
    SweepFacts(x, log, now, start, r, resume, writeFailed);
    ShreddableAreCandidates(active, now, r.dryRun, start, seen);
    CandidatesAreShreddable(active, now, r.dryRun, start, seen);
    KeysToRevokeAreExactly(x, log, now, start, r, resume, writeFailed, k);
    OutOfScopeIff(active, now, k, log);
    forall e
      ensures CoveredByShred(active, e, now) <==> Condemned(x.policies, e, now)
    {
      CoveredMeans(x.policies, e, now);
    }
  }

  lemma CategoryBounds(x: Setup, log: seq<StoredEvent>, now: int, start: nat, r: Report, resume: nat, writeFailed: bool, k: string, category: string)
    returns (e: StoredEvent)
    requires ValidLog(log) && SweepResult(x, log, now, start, r, resume, writeFailed) && k in r.keysRevoked
    requires category != "" && forall p :: p in x.policies && p.action == Shred ==> p.category == category
    ensures e in log && HasEncryptionEnvelope(e.meta) && e.meta.keyId == k && InCategory(e.streamId, category)
  {
    CondemnedKeysAre(x, log, now, start, r, resume, writeFailed, k);
    SweepFacts(x, log, now, start, r, resume, writeFailed);
    e :| e in Seen(log, start, r) && HasEncryptionEnvelope(e.meta) && e.meta.keyId == k && Condemned(x.policies, e, now);
  }

  /** The guard is sound: with it on, a revocation reaches only events a Shred policy covers, so
      every other event is exactly as decryptable as before. */
  lemma RevocationStaysInScope(x: Setup, log: seq<StoredEvent>, now: int, start: nat, r: Report, resume: nat, writeFailed: bool,
                               revoked: set<string>, e: StoredEvent)
    requires ValidLog(log) && SweepResult(x, log, now, start, r, resume, writeFailed) && !x.allowSharedKey
    requires e in log && HasEncryptionEnvelope(e.meta) && !CoveredByShred(Active(x.policies), e, now)
    ensures e.meta.keyId in revoked + r.keysRevoked <==> e.meta.keyId in revoked
  {
    if e.meta.keyId in r.keysRevoked {
      KeysToRevokeAreExactly(x, log, now, start, r, resume, writeFailed, e.meta.keyId);
    }
  }

  /** A real sweep accounts for every match: acted on, skipped, or its hook failed. */
  lemma MatchesAreConserved(x: Setup, log: seq<StoredEvent>, now: int, start: nat, r: Report, resume: nat, writeFailed: bool)
    requires SweepResult(x, log, now, start, r, resume, writeFailed) && !r.dryRun
    ensures r.matched == r.acted + r.skipped + r.applyFailures
  {
    var s := SweepOf(x, log, now, false, start, r.scanned);
    ScanConserves(Active(x.policies), now, start, After(log, start)[..r.scanned]);
    TotalSplit(s.cands.matches, r.keysRevoked);
  }

  lemma {:induction false} UncappedPrefix(active: seq<Policy>, now: int, dryRun: bool, start: nat, maxScan: nat, seen: seq<StoredEvent>, j: nat)
    requires Uncapped(active, now, dryRun, start, maxScan, seen) && 0 < j <= |seen|
    ensures !CapReached(maxScan, start, Scan(active, now, dryRun, start, seen[..j]), j)
  {
    if j < |seen| {
      UncappedPrefix(active, now, dryRun, start, maxScan, seen[..|seen| - 1], j);
      assert seen[..|seen| - 1][..j] == seen[..j];
    } else {
      assert seen[..j] == seen;
    }
  }

  /** A dry run and a real run from the same place visit the same events. */
  lemma SameReach(active: seq<Policy>, now: int, start: nat, cap: nat, tail: seq<StoredEvent>, dryA: bool, dryB: bool, a: nat, b: nat, cutA: bool, cutB: bool)
    requires a <= |tail| && VisitsSoFar(active, now, dryA, start, cap, tail[..a], cutA)
    requires b <= |tail| && VisitsSoFar(active, now, dryB, start, cap, tail[..b], cutB) && (!cutB ==> b == |tail|)
    ensures a <= b
  {
    if 0 < b < a {
      var seen := tail[..a];
      UncappedPrefix(active, now, dryA, start, cap, seen[..a - 1], b);
      assert seen[..a - 1][..b] == tail[..b];
      DryScan(active, now, start, tail[..b]);
    }
  }

  /** DryRun previews Apply: the same events, matches, plaintext matches, keys to revoke and keys
      refused, while nothing is counted as acted on or skipped and nothing is revoked. */
  lemma DryRunPreviewsApply(x: Setup, log: seq<StoredEvent>, now: int, start: nat, wet: Report, dry: Report,
                            wetResume: nat, dryResume: nat, writeFailed: bool)
    requires SweepResult(x, log, now, start, wet, wetResume, writeFailed) && !wet.dryRun
    requires SweepResult(x, log, now, start, dry, dryResume, false) && dry.dryRun
    ensures (dry.scanned, dry.matched, dry.unencryptedMatches) == (wet.scanned, wet.matched, wet.unencryptedMatches)
    ensures (dry.keysToRevoke, dry.sharedKeysSkipped) == (wet.keysToRevoke, wet.sharedKeysSkipped)
    ensures dry.truncated == wet.truncated
    ensures dry.acted == 0 && dry.skipped == 0 && dry.applyFailures == 0 && dry.keysRevoked == {}
  {
    hide Scan, SharedKeys, HeldBack, SweepErrors;
    var active, tail := Active(x.policies), After(log, start);
    SameReach(active, now, start, EffectiveCap(x), tail, false, true, wet.scanned, dry.scanned, wet.truncated, dry.truncated);
    SameReach(active, now, start, EffectiveCap(x), tail, true, false, dry.scanned, wet.scanned, dry.truncated, wet.truncated);
    DryScan(Active(x.policies), now, start, After(log, start)[..dry.scanned]);
  }

  // ---- Sequences of sweeps ----

  /** What a sweep finds and leaves behind. */
  datatype World = World(log: seq<StoredEvent>, now: int, revoked: set<string>, checkpoint: nat)

  /** Nothing at or below the checkpoint is pending, and every enveloped event there that a Shred
      policy statically matches has its key revoked. */
  ghost predicate Settled(policies: seq<Policy>, w: World) {
    var active := Active(policies);
    && ValidLog(w.log)
    && (w.checkpoint == 0 || exists e :: e in w.log && e.position == w.checkpoint)
    && (forall e :: e in w.log && e.position <= w.checkpoint ==> !Pending(active, e, w.now))
    && (forall e :: e in w.log && e.position <= w.checkpoint && HasEncryptionEnvelope(e.meta) && ShredMatchesStatic(active, e)
          ==> e.meta.keyId in w.revoked)
  }

  /** Between sweeps the log is appended to, time passes, and anyone may revoke keys. */
  ghost predicate Environment(w: World, w': World) {
    && w.log <= w'.log && ValidLog(w'.log)
    && w.now <= w'.now
    && w.revoked <= w'.revoked
    && w'.checkpoint == w.checkpoint
  }

  /** One checkpointed Apply: any options, guard and provider behaviour, any outcome of the
      checkpoint write. */
  ghost predicate Apply(policies: seq<Policy>, x: Setup, r: Report, resume: nat, writeFailed: bool, w: World, w': World) {
    && x.policies == policies && x.checkpointed && !r.dryRun
    && SweepResult(x, w.log, w.now, w.checkpoint, r, resume, writeFailed)
    && w' == w.(revoked := w.revoked + r.keysRevoked,
                checkpoint := if resume > w.checkpoint && !writeFailed then resume else w.checkpoint)
  }

  ghost predicate Step(policies: seq<Policy>, w: World, w': World) {
    || Environment(w, w')
    || exists x, r, resume, writeFailed :: Apply(policies, x, r, resume, writeFailed, w, w')
  }

  lemma AppendedEventsLieAbove(log: seq<StoredEvent>, log': seq<StoredEvent>, checkpoint: nat)
    requires ValidLog(log') && log <= log'
    requires checkpoint == 0 || exists e :: e in log && e.position == checkpoint
    ensures forall e :: e in log' && e.position <= checkpoint ==> e in log
  {
    IncreasingMeans(0, log');
    if checkpoint != 0 {
      var i :| 0 <= i < |log| && log[i].position == checkpoint;
      assert log'[i] == log[i];
      forall e | e in log' && e.position <= checkpoint
        ensures e in log
      {
        var j :| 0 <= j < |log'| && log'[j] == e;
        assert j <= i;
        assert log[j] == e;
      }
    }
  }

  lemma EnvironmentKeepsSettled(policies: seq<Policy>, w: World, w': World)
    requires Settled(policies, w) && Environment(w, w')
    ensures Settled(policies, w')
  {
    AppendedEventsLieAbove(w.log, w'.log, w.checkpoint);
    forall e | e in w'.log && e.position <= w'.checkpoint
      ensures !Pending(Active(policies), e, w'.now)
    {
      assert !Pending(Active(policies), e, w.now);
    }
  }

  /** An event at or below the final frontier is settled by this very sweep. */
  lemma VisitedEventIsSettled(policies: seq<Policy>, x: Setup, r: Report, resume: nat, writeFailed: bool, w: World, w': World, e: StoredEvent)
    requires ValidLog(w.log) && Apply(policies, x, r, resume, writeFailed, w, w')
    requires e in w.log && w.checkpoint < e.position <= resume
    ensures !Pending(Active(policies), e, w.now)
    ensures HasEncryptionEnvelope(e.meta) && ShredMatchesStatic(Active(policies), e) ==> e.meta.keyId in r.keysRevoked
  {
    var active, seen := Active(policies), After(w.log, w.checkpoint)[..r.scanned];
    var s := SweepOf(x, w.log, w.now, false, w.checkpoint, r.scanned);
    SweepFacts(x, w.log, w.now, w.checkpoint, r, resume, writeFailed);
    BelowTheFrontier(x, w.log, w.now, w.checkpoint, r, resume, writeFailed, e);
    FrontierIsSettled(active, w.now, false, w.checkpoint, seen);
    ShreddableAreCandidates(active, w.now, false, w.checkpoint, seen);
    if HasEncryptionEnvelope(e.meta) && ShredMatchesStatic(active, e) {
      NotPendingIsCovered(active, e, w.now);
      assert Shreddable(active, e, w.now);
      assert s.cands.frontier[e.meta.keyId] < e.position;
    }
  }

  lemma NotPendingIsCovered(active: seq<Policy>, e: StoredEvent, now: int)
    requires !Pending(active, e, now) && ShredMatchesStatic(active, e)
    ensures CoveredByShred(active, e, now)
  {
    var i :| 0 <= i < |active| && active[i].action == Shred && active[i].MatchesStatic(e);
    assert active[i].AgeEligible(e, now);
  }

  lemma ResumeIsAnEventOrTheStart(policies: seq<Policy>, x: Setup, r: Report, resume: nat, writeFailed: bool, w: World, w': World)
    requires ValidLog(w.log) && Apply(policies, x, r, resume, writeFailed, w, w')
    ensures resume <= w.checkpoint || exists e :: e in w.log && e.position == resume
  {
    var seen := Seen(w.log, w.checkpoint, r);
    var s := SweepOf(x, w.log, w.now, false, w.checkpoint, r.scanned);
    SweepFacts(x, w.log, w.now, w.checkpoint, r, resume, writeFailed);
    FrontierIsSettled(Active(policies), w.now, false, w.checkpoint, seen);
    RecordedFrontiersAreEvents(Active(policies), w.now, w.checkpoint, seen);
  }

  lemma {:induction false} RecordedFrontiersAreEvents(active: seq<Policy>, now: int, start: nat, es: seq<StoredEvent>)
    requires Increasing(start, es)
    ensures var c := Scan(active, now, false, start, es).cands;
            forall k :: k in c.frontier ==> c.frontier[k] == start || exists e :: e in es && e.position == c.frontier[k]
  {
    if es != [] {
      var front := es[..|es| - 1];
      IncreasingLast(start, es);
      RecordedFrontiersAreEvents(active, now, start, front);
      LastVisit(active, now, false, start, es);
      FrontierIsSettled(active, now, false, start, front);
    }
  }

  lemma ApplyKeepsSettled(policies: seq<Policy>, x: Setup, r: Report, resume: nat, writeFailed: bool, w: World, w': World)
    requires Settled(policies, w) && Apply(policies, x, r, resume, writeFailed, w, w')
    ensures Settled(policies, w')
  {
    ResumeIsAnEventOrTheStart(policies, x, r, resume, writeFailed, w, w');
    forall e | e in w.log && w.checkpoint < e.position <= w'.checkpoint
      ensures !Pending(Active(policies), e, w.now)
      ensures HasEncryptionEnvelope(e.meta) && ShredMatchesStatic(Active(policies), e) ==> e.meta.keyId in w'.revoked
    {
      VisitedEventIsSettled(policies, x, r, resume, writeFailed, w, w', e);
    }
  }

  /** Safety over whole runs: from a fresh checkpoint, whatever sequence of appends, clock
      advances, foreign revocations and Apply runs follows, nothing unsettled is ever behind the
      persisted checkpoint. */
  lemma {:induction false} EveryRunStaysSettled(policies: seq<Policy>, run: seq<World>)
    requires run != [] && ValidLog(run[0].log) && run[0].checkpoint == 0
    requires forall i :: 0 < i < |run| ==> Step(policies, run[i - 1], run[i])
    ensures forall i :: 0 <= i < |run| ==> Settled(policies, run[i])
  {
    IncreasingMeans(0, run[0].log);
    if |run| > 1 {
      var front := run[..|run| - 1];
      EveryRunStaysSettled(policies, front);
      var w, w' := run[|run| - 2], run[|run| - 1];
      assert w == front[|front| - 1];
      if Environment(w, w') {
        EnvironmentKeepsSettled(policies, w, w');
      } else {
        var x, r, resume, writeFailed :| Apply(policies, x, r, resume, writeFailed, w, w');
        ApplyKeepsSettled(policies, x, r, resume, writeFailed, w, w');
      }
      forall i | 0 <= i < |run|
        ensures Settled(policies, run[i])
      {
        if i < |front| { assert run[i] == front[i]; }
      }
    }
  }

  /** A real sweep that starts at `start` and reaches the head of the log turns `before` into `after`. */
  ghost predicate CompleteApply(x: Setup, log: seq<StoredEvent>, now: int, start: nat, before: set<string>, after: set<string>) {
    exists r, resume, writeFailed ::
      && SweepResult(x, log, now, start, r, resume, writeFailed)
      && !r.dryRun && !r.truncated && after == before + r.keysRevoked
  }

  /** A complete sweep from `start` would revoke this key, whatever was revoked before. */
  ghost predicate Revocable(x: Setup, log: seq<StoredEvent>, now: int, start: nat, k: string) {
    && Witnessed(Active(x.policies), now, After(log, start), k) && GuardPasses(x, log, now, k)
    && x.configured && k !in x.refuses
  }

  /** In a settled state, resuming at the checkpoint leaves the same keys revoked as starting over. */
  lemma ResumingRevokesTheSame(policies: seq<Policy>, x: Setup, w: World, k: string)
    requires Settled(policies, w) && x.policies == policies
    ensures k in w.revoked || Revocable(x, w.log, w.now, w.checkpoint, k) <==> k in w.revoked || Revocable(x, w.log, w.now, 0, k)
  {
    AfterZero(w.log);
    WitnessIsAheadOrRevoked(policies, w, k);
  }

  /** Resuming is as good as rescanning: from any settled state, a resumed sweep that reaches the
      head of the log leaves exactly the revoked keys that a sweep of the whole store would. */
  lemma ResumedSweepEqualsRescan(policies: seq<Policy>, x: Setup, w: World, resumed: set<string>, rescanned: set<string>)
    requires Settled(policies, w) && x.policies == policies && x.checkpointed
    requires CompleteApply(x, w.log, w.now, w.checkpoint, w.revoked, resumed)
    requires CompleteApply(x.(checkpointed := false), w.log, w.now, 0, w.revoked, rescanned)
    ensures resumed == rescanned
  {
    hide CompleteApply, Settled, Revocable;
    var y := x.(checkpointed := false);
    SettledLogIsValid(policies, w);
    forall k
      ensures k in resumed <==> k in rescanned
    {
      CompleteApplyRevokes(x, w.log, w.now, w.checkpoint, w.revoked, resumed, k);
      CompleteApplyRevokes(y, w.log, w.now, 0, w.revoked, rescanned, k);
      ResumingRevokesTheSame(policies, x, w, k);
      SameRevocable(x, w.log, w.now, k);
    }
  }

  lemma SettledLogIsValid(policies: seq<Policy>, w: World)
    requires Settled(policies, w)
    ensures ValidLog(w.log)
  {
  }

  lemma SameRevocable(x: Setup, log: seq<StoredEvent>, now: int, k: string)
    ensures Revocable(x.(checkpointed := false), log, now, 0, k) == Revocable(x, log, now, 0, k)
  {
  }

  /** Which keys a complete Apply adds, read off the log alone. */
  lemma CompleteApplyRevokes(x: Setup, log: seq<StoredEvent>, now: int, start: nat, before: set<string>, after: set<string>, k: string)
    requires ValidLog(log) && CompleteApply(x, log, now, start, before, after)
    ensures k in after <==> k in before || Revocable(x, log, now, start, k)
  {
    var r, resume, writeFailed :|
      && SweepResult(x, log, now, start, r, resume, writeFailed)
      && !r.dryRun && !r.truncated && after == before + r.keysRevoked;
    KeysToRevokeAreExactly(x, log, now, start, r, resume, writeFailed, k);
    assert Seen(log, start, r) == After(log, start);
  }

  /** A scan that does not resume is never cut short, so it is complete. */
  lemma RescanIsComplete(x: Setup, log: seq<StoredEvent>, now: int, r: Report, resume: nat, writeFailed: bool, before: set<string>)
    requires SweepResult(x, log, now, 0, r, resume, writeFailed) && !x.checkpointed && !r.dryRun
    ensures CompleteApply(x, log, now, 0, before, before + r.keysRevoked)
  {
    assert !r.truncated;
  }

  /** In a settled state a key some shreddable event of the log wants gone is revoked already, or
      such an event lies ahead of the checkpoint. */
  lemma WitnessIsAheadOrRevoked(policies: seq<Policy>, w: World, k: string)
    requires Settled(policies, w)
    ensures var active, tail := Active(policies), After(w.log, w.checkpoint);
            && (Witnessed(active, w.now, tail, k) ==> Witnessed(active, w.now, w.log, k))
            && (Witnessed(active, w.now, w.log, k) ==> k in w.revoked || Witnessed(active, w.now, tail, k))
  {
    var active, tail := Active(policies), After(w.log, w.checkpoint);
    AfterMembers(w.log, w.checkpoint);
    forall e | e in w.log && Shreddable(active, e, w.now) && e.meta.keyId == k
      ensures k in w.revoked || e in tail
    {
      CoveredMatchesStatic(active, e, w.now);
    }
  }

  lemma CoveredMatchesStatic(active: seq<Policy>, e: StoredEvent, now: int)
    requires CoveredByShred(active, e, now)
    ensures ShredMatchesStatic(active, e)
  {
  }

  // ---- Progress under a scan cap ----

  /** The events seen allow a resume point above the start that is safe whatever the guard decides. */
  ghost predicate MayMoveOn(s: Sweep, start: nat) {
    exists q: nat :: q > start && SafeResume(s.cands, s.frontier, q)
  }

  lemma CapMeans(maxScan: nat, start: nat, s: Sweep, n: nat)
    requires Consistent(s.cands)
    ensures CapReached(maxScan, start, s, n) <==> 0 < maxScan <= n && MayMoveOn(s, start)
  {
    GuaranteedIsALowerBound(s.cands, s.frontier);
    if GuaranteedResume(s.cands, s.frontier) > start { assert SafeResume(s.cands, s.frontier, GuaranteedResume(s.cands, s.frontier)); }
  }

  /** The cap ends a checkpointed sweep at the first event, from the cap on, after which its resume point
      can move; without a checkpoint, or before such an event, nothing ends it. */
  lemma CapEndsTheSweep(x: Setup, log: seq<StoredEvent>, now: int, start: nat, r: Report, resume: nat, writeFailed: bool)
    requires ValidLog(log) && SweepResult(x, log, now, start, r, resume, writeFailed)
    ensures r.truncated <==> x.checkpointed && 0 < x.maxScan <= r.scanned && MayMoveOn(SweepOf(x, log, now, r.dryRun, start, r.scanned), start)
    ensures x.checkpointed ==> forall n :: 0 < x.maxScan <= n < r.scanned ==> !MayMoveOn(SweepOf(x, log, now, r.dryRun, start, n), start)
  {
    hide Scan, MayMoveOn;
    var active, tail := Active(x.policies), After(log, start);
    SweepFacts(x, log, now, start, r, resume, writeFailed);
    CapMeans(x.maxScan, start, SweepOf(x, log, now, r.dryRun, start, r.scanned), r.scanned);
    forall n | 0 < x.maxScan <= n < r.scanned && x.checkpointed
      ensures !MayMoveOn(SweepOf(x, log, now, r.dryRun, start, n), start)
    {
      var front := tail[..r.scanned][..r.scanned - 1];
      UncappedPrefix(active, now, r.dryRun, start, x.maxScan, front, n);
      assert front[..n] == tail[..n];
      IncreasingPrefix(start, tail[..r.scanned], n);
      assert tail[..r.scanned][..n] == tail[..n];
      FrontierIsSettled(active, now, r.dryRun, start, tail[..n]);
      CapMeans(x.maxScan, start, SweepOf(x, log, now, r.dryRun, start, n), n);
    }
  }

  /** A truncated Apply always moves the resume point forward, whatever the guard refused and
      the provider failed on. */
  lemma TruncatedSweepProgresses(x: Setup, log: seq<StoredEvent>, now: int, start: nat, r: Report, resume: nat, writeFailed: bool)
    requires ValidLog(log) && SweepResult(x, log, now, start, r, resume, writeFailed) && !r.dryRun && r.truncated
    ensures resume > start
    ensures |After(log, resume)| < |After(log, start)|
  {
    var s := SweepOf(x, log, now, false, start, r.scanned);
    SweepFacts(x, log, now, start, r, resume, writeFailed);
    GuaranteedIsALowerBound(s.cands, s.frontier);
    FrontierIsSettled(Active(x.policies), now, false, start, Seen(log, start, r));
    var first := After(log, start)[0];
    assert first == Seen(log, start, r)[0] && first in Seen(log, start, r);
    assert resume >= GuaranteedResume(s.cands, s.frontier) > start;
    FirstAtOrBelow(x, log, now, start, r, resume, writeFailed);
    FewerAfter(log, start, resume, first);
  }

  /** Every resume point above the start has consumed at least the first visited event. */
  lemma FirstAtOrBelow(x: Setup, log: seq<StoredEvent>, now: int, start: nat, r: Report, resume: nat, writeFailed: bool)
    requires ValidLog(log) && SweepResult(x, log, now, start, r, resume, writeFailed) && !r.dryRun
    requires resume > start && r.scanned > 0
    ensures After(log, start)[0].position <= resume
  {
    var seen := Seen(log, start, r);
    var s := SweepOf(x, log, now, false, start, r.scanned);
    SweepFacts(x, log, now, start, r, resume, writeFailed);
    FrontierIsSettled(Active(x.policies), now, false, start, seen);
    RecordedFrontiersAreEvents(Active(x.policies), now, start, seen);
    IncreasingMeans(start, seen);
    var e :| e in seen && e.position == resume;
    assert seen[0].position <= e.position;
    assert seen[0] == After(log, start)[0];
  }

  lemma {:induction false} FewerAfter(log: seq<StoredEvent>, p: nat, q: nat, e: StoredEvent, above: nat := 0)
    requires Increasing(above, log) && p < e.position <= q && e in log
    ensures |After(log, q)| < |After(log, p)|
    decreases |log|
  {
    AfterShrinks(log, q);
    if log[0].position <= p {
      FewerAfter(log[1..], p, q, e, log[0].position);
    } else {
      IncreasingMeans(above, log);
      assert log[0].position <= e.position;
      AfterShrinks(log[1..], q);
    }
  }

  lemma {:induction false} AfterShrinks(log: seq<StoredEvent>, q: nat)
    ensures |After(log, q)| <= |log|
  {
    if log != [] && log[0].position <= q { AfterShrinks(log[1..], q); }
  }

  /** An Apply that the cap cut short and whose checkpoint was persisted. */
  ghost predicate CutShort(log: seq<StoredEvent>, checkpoint: nat, sweep: (Setup, int, Report), checkpoint': nat) {
    var (x, now, r) := sweep;
    SweepResult(x, log, now, checkpoint, r, checkpoint', false) && !r.dryRun && r.truncated
  }

  /** On a fixed log, sweeps that keep being cut short by the cap persist strictly growing
      checkpoints, so there are at most as many of them as events above the first checkpoint. */
  lemma {:induction false} CappedSweepsReachTheHead(log: seq<StoredEvent>, checkpoints: seq<nat>, sweeps: seq<(Setup, int, Report)>)
    requires ValidLog(log) && |checkpoints| == |sweeps| + 1
    requires forall i :: 0 <= i < |sweeps| ==> CutShort(log, checkpoints[i], sweeps[i], checkpoints[i + 1])
    ensures |sweeps| <= |After(log, checkpoints[0])|
  {
    if |sweeps| > 0 {
      var (x, now, r) := sweeps[0];
      assert CutShort(log, checkpoints[0], sweeps[0], checkpoints[1]);
      TruncatedSweepProgresses(x, log, now, checkpoints[0], r, checkpoints[1], false);
      CappedSweepsReachTheHead(log, checkpoints[1..], sweeps[1..]);
    }
  }

  // ---- A clean report means everything was handled ----

  ghost predicate NoMissingHook(ps: seq<Policy>) {
    forall i :: 0 <= i < |ps| ==> !ps[i].MissingHook()
  }

  lemma {:induction false} CleanPolicies(policies: seq<Policy>)
    requires PolicyErrors(policies) == {}
    ensures NoMissingHook(Active(policies))
  {
    if policies != [] {
      CleanPolicies(policies[..|policies| - 1]);
    }
  }

  /** With every hook in place, only plaintext matches are skipped during the scan and every
      hook failure is reported. */
  ghost predicate Accounted(t: Tally) {
    t.skipped == t.unencrypted && (t.applyFailures > 0 ==> t.errors != {})
  }

  lemma {:induction false} VisitAccounted(active: seq<Policy>, se: StoredEvent, now: int, frontier: nat, v: Visit)
    requires NoMissingHook(active) && Accounted(v.tally)
    ensures Accounted(VisitAll(active, se, now, false, frontier, v).tally)
  {
    if active != [] {
      var last := active[|active| - 1];
      VisitAccounted(active[..|active| - 1], se, now, frontier, v);
      assert !last.MissingHook();
      if ActErrors(last, se, false) != {} { assert ApplyFailed(last.name) in ActErrors(last, se, false); }
    }
  }

  lemma {:induction false} ScanAccounted(active: seq<Policy>, now: int, start: nat, es: seq<StoredEvent>)
    requires NoMissingHook(active)
    ensures Accounted(Scan(active, now, false, start, es).tally)
  {
    if es != [] {
      var s := Scan(active, now, false, start, es[..|es| - 1]);
      ScanAccounted(active, now, start, es[..|es| - 1]);
      VisitAccounted(active, es[|es| - 1], now, s.frontier, Visit(s.cands, s.tally, false));
    }
  }

  /** Nothing is silently left behind: an Apply that reports no error acted on every match. */
  lemma UnfailedSweepHandledEverything(x: Setup, log: seq<StoredEvent>, now: int, start: nat, r: Report, resume: nat, writeFailed: bool)
    requires ValidLog(log) && SweepResult(x, log, now, start, r, resume, writeFailed) && !r.dryRun && r.errors == {}
    ensures r.acted == r.matched && r.skipped == 0 && r.unencryptedMatches == 0 && r.sharedKeysSkipped == {}
    ensures r.keysRevoked == r.keysToRevoke
  {
    var s := SweepOf(x, log, now, false, start, r.scanned);
    MatchesAreConserved(x, log, now, start, r, resume, writeFailed);
    CleanPolicies(x.policies);
    ScanAccounted(Active(x.policies), now, start, Seen(log, start, r));
    NoSharedErrors(Active(x.policies), now, log, r.sharedKeysSkipped);
    NoRevokeErrors(r.keysToRevoke * x.refuses);
    assert s.cands.matches.Keys - r.keysRevoked == {};
    assert Part(s.cands.matches, {}) == map[];
  }

  lemma NoSharedErrors(active: seq<Policy>, now: int, log: seq<StoredEvent>, keys: set<string>)
    ensures SharedErrors(active, now, log, keys) == {} ==> keys == {}
  {
    forall k | k in keys
      ensures SharedErrors(active, now, log, keys) != {}
    {
      assert SharedKey(k, OutOfScope(active, now, k, log)) in SharedErrors(active, now, log, keys);
    }
  }

  lemma NoRevokeErrors(keys: set<string>)
    ensures RevokeErrors(keys) == {} ==> keys == {}
  {
    forall k | k in keys
      ensures RevokeErrors(keys) != {}
    {
      assert RevokeFailed(k) in RevokeErrors(keys);
    }
  }
}
