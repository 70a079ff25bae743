/** The retention manager: policies applied over the event store in one sweep. */
module Retention {
  import opened Events
  import opened Stores
  import Spec = RetentionSpec
  import Facts = RetentionScan

  class KeyProvider {
    var revoked: set<string>
    const refuses: set<string>

    constructor (refuses: set<string>)
      ensures this.refuses == refuses && revoked == {}
    {
      this.refuses, revoked := refuses, {};
    }

    method RevokeKey(key: string) returns (ok: bool)
      modifies this
      ensures ok <==> key !in refuses
      ensures revoked == if ok then old(revoked) + {key} else old(revoked)
    {
      ok := key !in refuses;
      if ok { revoked := revoked + {key}; }
    }
  }

  class ShredCandidates {
    var matches: map<string, nat>
    var frontier: map<string, nat>
    var floor: nat
    var any: bool

    constructor ()
      ensures View() == Spec.NO_CANDIDATES
    {
      matches, frontier, floor, any := map[], map[], 0, false;
    }

    ghost function View(): Spec.Candidates
      reads this
    {
      Spec.Candidates(matches, frontier, floor, any)
    }

    method Add(keyId: string, at: nat)
      modifies this
      ensures View() == Spec.AddCandidate(old(View()), keyId, at)
    {
      if keyId !in frontier {
        frontier := frontier[keyId := at];
        if !any || at < floor { floor := at; }
        any := true;
      }
      matches := matches[keyId := if keyId in matches then matches[keyId] + 1 else 1];
    }

    /** The furthest point that no recorded frontier lies before, so that it is safe to resume from it
        whichever keys end up unrevoked. */
    method Settled(at: nat) returns (resume: nat)
      ensures resume == Spec.GuaranteedResume(View(), at)
      ensures Spec.Consistent(View()) ==> Spec.SafeResume(View(), at, resume)
      ensures Spec.Consistent(View()) ==> forall p :: Spec.SafeResume(View(), at, p) ==> p <= resume
    {
      resume := if any && floor < at then floor else at;
    }
  }

  class RetentionReport {
    const dryRun: bool
    var scanned: nat
    var truncated: bool
    var matched: nat
    var acted: nat
    var skipped: nat
    var unencryptedMatches: nat
    var applyFailures: nat
    var keysToRevoke: set<string>
    var sharedKeysSkipped: set<string>
    var keysRevoked: set<string>
    var errors: set<Spec.Error>

    constructor (dryRun: bool)
      ensures View() == Spec.Report(dryRun, 0, false, 0, 0, 0, 0, 0, {}, {}, {}, {})
    {
      this.dryRun := dryRun;
      scanned, truncated, matched, acted, skipped, unencryptedMatches, applyFailures := 0, false, 0, 0, 0, 0, 0;
      keysToRevoke, sharedKeysSkipped, keysRevoked, errors := {}, {}, {}, {};
    }

    ghost function View(): Spec.Report
      reads this
    {
      Spec.Report(dryRun, scanned, truncated, matched, acted, skipped, unencryptedMatches, applyFailures,
                  keysToRevoke, sharedKeysSkipped, keysRevoked, errors)
    }

    /** The counters a visit updates; `hookErrors` is the part of `errors` the hooks caused. */
    ghost function Tally(hookErrors: set<Spec.Error>): Spec.Tally
      reads this
    {
      Spec.Tally(matched, acted, skipped, unencryptedMatches, applyFailures, hookErrors)
    }
  }

  lemma SweepIsConsistent(log: seq<StoredEvent>, active: seq<Spec.Policy>, now: int, dryRun: bool, start: nat,
                          seen: seq<StoredEvent>, rest: seq<StoredEvent>)
    requires ValidLog(log) && seen + rest == After(log, start)
    ensures Spec.Consistent(Spec.Scan(active, now, dryRun, start, seen).cands)
  {
    AfterMembers(log, start);
    IncreasingPrefix(start, seen + rest, |seen|);
    assert (seen + rest)[..|seen|] == seen;
    Facts.FrontierIsSettled(active, now, dryRun, start, seen);
  }

  class RetentionManager {
    const store: EventStore
    const policies: seq<Spec.Policy>
    const batchSize: nat
    const maxScan: nat
    const allowSharedKey: bool
    const provider: KeyProvider?          // null: no encryption configured
    const checkpoint: CheckpointStore?    // null: every sweep scans the whole store
    const checkpointName: string

    constructor (store: EventStore, policies: seq<Spec.Policy>, batchSize: nat, maxScan: nat, allowSharedKey: bool,
                 provider: KeyProvider?, checkpoint: CheckpointStore?, checkpointName: string)
      requires batchSize > 0
      ensures this.store == store && this.policies == policies && this.batchSize == batchSize && this.maxScan == maxScan
      ensures this.allowSharedKey == allowSharedKey && this.provider == provider
      ensures this.checkpoint == checkpoint && this.checkpointName == checkpointName
    {
      this.store, this.policies, this.batchSize, this.maxScan := store, policies, batchSize, maxScan;
      this.allowSharedKey, this.provider := allowSharedKey, provider;
      this.checkpoint, this.checkpointName := checkpoint, checkpointName;
    }

    ghost function Setup(): Spec.Setup {
      Spec.Setup(policies, maxScan, allowSharedKey, checkpoint != null, provider != null,
                 if provider == null then {} else provider.refuses)
    }

    ghost function Revoked(): set<string>
      reads provider
    {
      if provider == null then {} else provider.revoked
    }

    ghost function Start(): nat
      reads checkpoint
    {
      if checkpoint == null then 0 else checkpoint.Position(checkpointName)
    }

    method ActivePolicies(report: RetentionReport) returns (active: seq<Spec.Policy>)
      modifies report`errors
      ensures active == Spec.Active(policies)
      ensures report.errors == old(report.errors) + Spec.PolicyErrors(policies)
    {
      active := [];
      var i := 0;
      while i < |policies|
        invariant 0 <= i <= |policies|
        invariant active == Spec.Active(policies[..i])
        invariant report.errors == old(report.errors) + Spec.PolicyErrors(policies[..i])
      {
        var p := policies[i];
        assert policies[..i + 1][..i] == policies[..i];
        if p.Unscoped() {
          report.errors := report.errors + {Spec.UnscopedPolicy(p.name)};
        } else {
          if p.MissingHook() { report.errors := report.errors + {Spec.NoApplyHook(p.name)}; }
          active := active + [p];
        }
        i := i + 1;
      }
      assert policies[..i] == policies;
    }

    method Act(p: Spec.Policy, se: StoredEvent, shred: ShredCandidates, frontier: nat, report: RetentionReport,
               dryRun: bool, ghost hookErrors: set<Spec.Error>)
      modifies shred, report`matched, report`acted, report`skipped, report`unencryptedMatches, report`applyFailures, report`errors
      ensures (shred.View(), report.Tally(hookErrors + Spec.ActErrors(p, se, dryRun)))
           == Spec.Act(p, se, frontier, dryRun, old(shred.View()), old(report.Tally(hookErrors)))
      ensures report.errors == old(report.errors) + Spec.ActErrors(p, se, dryRun)
    {
      match p.action {
        case Shred =>
          if !HasEncryptionEnvelope(se.meta) {
            report.unencryptedMatches := report.unencryptedMatches + 1;
            if !dryRun { report.skipped := report.skipped + 1; }
          } else {
            shred.Add(se.meta.keyId, frontier);
          }
        case _ =>
          if dryRun {
          } else if p.apply == None {
            report.skipped := report.skipped + 1;
          } else if !p.apply.value(se) {
            report.applyFailures := report.applyFailures + 1;
            report.errors := report.errors + {Spec.ApplyFailed(p.name)};
          } else {
            report.acted := report.acted + 1;
          }
      }
      assert Spec.ActErrors(p, se, dryRun) == {} ==> hookErrors + Spec.ActErrors(p, se, dryRun) == hookErrors;
    }

    /** Applies every active policy to one event. */
    method VisitEvent(active: seq<Spec.Policy>, se: StoredEvent, now: int, shred: ShredCandidates, frontier: nat,
                      report: RetentionReport, dryRun: bool, ghost hookErrors: set<Spec.Error>, ghost base: set<Spec.Error>)
      returns (pending: bool, ghost after: set<Spec.Error>)
      requires report.errors == base + hookErrors
      modifies shred, report`matched, report`acted, report`skipped, report`unencryptedMatches, report`applyFailures, report`errors
      ensures Spec.Visit(shred.View(), report.Tally(after), pending)
           == Spec.VisitAll(active, se, now, dryRun, frontier, Spec.Visit(old(shred.View()), old(report.Tally(hookErrors)), false))
      ensures report.errors == base + after
    {
      pending := false;
      after := hookErrors;
      ghost var from := Spec.Visit(shred.View(), report.Tally(hookErrors), false);
      var i := 0;
      while i < |active|
        invariant 0 <= i <= |active|
        invariant Spec.Visit(shred.View(), report.Tally(after), pending)
               == Spec.VisitAll(active[..i], se, now, dryRun, frontier, from)
        invariant report.errors == base + after
      {
        var p := active[i];
        assert active[..i + 1][..i] == active[..i];
        if p.MatchesStatic(se) {
          if p.AgeEligible(se, now) {
            report.matched := report.matched + 1;
            Act(p, se, shred, frontier, report, dryRun, after);
            after := after + Spec.ActErrors(p, se, dryRun);
          } else {
            pending := true;
          }
        }
        i := i + 1;
      }
      assert active[..i] == active;
    }

    /** The scan has visited exactly the events in `seen`. */
    ghost predicate Scanned(active: seq<Spec.Policy>, now: int, startPos: nat, cap: nat, seen: seq<StoredEvent>,
                            frontier: nat, frozen: bool, shred: ShredCandidates, report: RetentionReport, hookErrors: set<Spec.Error>)
      reads shred, report
    {
      && report.scanned == |seen|
      && Spec.VisitsSoFar(active, now, report.dryRun, startPos, cap, seen, report.truncated)
      && Spec.Sweep(frontier, frozen, shred.View(), report.Tally(hookErrors))
         == Spec.Scan(active, now, report.dryRun, startPos, seen)
    }

    /** Visits one event: its policies, the frontier, and the cap. */
    method ScanEvent(active: seq<Spec.Policy>, now: int, startPos: nat, cap: nat, se: StoredEvent, shred: ShredCandidates,
                     report: RetentionReport, frontier0: nat, frozen0: bool, ghost seen: seq<StoredEvent>,
                     ghost hookErrors0: set<Spec.Error>, ghost base: set<Spec.Error>)
      returns (frontier: nat, frozen: bool, ghost hookErrors: set<Spec.Error>)
      requires report.errors == base + hookErrors0 && !report.truncated
      requires Scanned(active, now, startPos, cap, seen, frontier0, frozen0, shred, report, hookErrors0)
      modifies shred, report`scanned, report`truncated, report`matched, report`acted, report`skipped, report`unencryptedMatches, report`applyFailures, report`errors
      ensures Scanned(active, now, startPos, cap, seen + [se], frontier, frozen, shred, report, hookErrors)
      ensures report.errors == base + hookErrors
    {
      frontier, frozen := frontier0, frozen0;
      assert (seen + [se])[..|seen|] == seen;
      report.scanned := report.scanned + 1;
      var pending;
      pending, hookErrors := VisitEvent(active, se, now, shred, frontier, report, report.dryRun, hookErrors0, base);
      if !frozen {
        if pending { frozen := true; } else { frontier := se.position; }
      }
      if cap > 0 && report.scanned >= cap {
        var settled := shred.Settled(frontier);
        if settled > startPos { report.truncated := true; }
      }
    }

    /** Visits the events of one batch in order until the cap ends the sweep; `n` of them were visited. */
    method ScanBatch(active: seq<Spec.Policy>, now: int, startPos: nat, cap: nat, batch: seq<StoredEvent>,
                     shred: ShredCandidates, report: RetentionReport, frontier0: nat, frozen0: bool,
                     ghost seen: seq<StoredEvent>, ghost hookErrors0: set<Spec.Error>, ghost base: set<Spec.Error>)
      returns (frontier: nat, frozen: bool, position: nat, ghost n: nat, ghost hookErrors: set<Spec.Error>)
      requires report.errors == base + hookErrors0 && !report.truncated && batch != []
      requires Scanned(active, now, startPos, cap, seen, frontier0, frozen0, shred, report, hookErrors0)
      modifies shred, report`scanned, report`truncated, report`matched, report`acted, report`skipped, report`unencryptedMatches, report`applyFailures, report`errors
      ensures n <= |batch| && (!report.truncated ==> n == |batch| && position == batch[|batch| - 1].position)
      ensures Scanned(active, now, startPos, cap, seen + batch[..n], frontier, frozen, shred, report, hookErrors)
      ensures report.errors == base + hookErrors
    {
      frontier, frozen, position, hookErrors := frontier0, frozen0, 0, hookErrors0;
      var i := 0;
      assert seen + batch[..0] == seen;
      while i < |batch| && !report.truncated
        invariant 0 <= i <= |batch|
        invariant Scanned(active, now, startPos, cap, seen + batch[..i], frontier, frozen, shred, report, hookErrors)
        invariant i > 0 ==> position == batch[i - 1].position
        invariant report.errors == base + hookErrors
      {
        frontier, frozen, hookErrors :=
          ScanEvent(active, now, startPos, cap, batch[i], shred, report, frontier, frozen, seen + batch[..i], hookErrors, base);
        assert seen + batch[..i] + [batch[i]] == seen + batch[..i + 1];
        position := batch[i].position;
        i := i + 1;
      }
      n := i;
    }

    /** The single pass: visits the events after `startPos` in batches until the head of the
        log or the scan cap. `seen` and `rest` are what it visited and what it left. */
    method ScanStore(active: seq<Spec.Policy>, now: int, startPos: nat, cap: nat, shred: ShredCandidates,
                     report: RetentionReport)
      returns (ok: bool, frontier: nat, ghost frozen: bool, ghost hookErrors: set<Spec.Error>,
               ghost seen: seq<StoredEvent>, ghost rest: seq<StoredEvent>)
      requires ValidLog(store.log) && batchSize > 0
      requires shred.View() == Spec.NO_CANDIDATES
      requires report.scanned == 0 && !report.truncated && report.Tally({}) == Spec.Tally(0, 0, 0, 0, 0, {})
      modifies shred, report`scanned, report`truncated, report`matched, report`acted, report`skipped, report`unencryptedMatches, report`applyFailures, report`errors
      ensures !ok ==> !store.Healthy()
      ensures ok ==> Scanned(active, now, startPos, cap, seen, frontier, frozen, shred, report, hookErrors)
      ensures ok ==> seen + rest == After(store.log, startPos) && (!report.truncated ==> rest == [])
      ensures report.errors == old(report.errors) + hookErrors
    {
      hide Spec.VisitsSoFar, Spec.Scan;
      ok, frontier, frozen, hookErrors, seen, rest := true, startPos, false, {}, [], After(store.log, startPos);
      var froze, more := false, true;
      var position := startPos;
      ghost var base := report.errors;
      EmptyScan(active, now, startPos, cap, shred, report);
      while more
        invariant more ==> !report.truncated
        invariant Scanned(active, now, startPos, cap, seen, frontier, froze, shred, report, hookErrors)
        invariant seen + rest == After(store.log, startPos)
        invariant !report.truncated ==> rest == After(store.log, position)
        invariant !more && !report.truncated ==> rest == []
        invariant report.errors == base + hookErrors
        decreases more, |rest|
      {
        var loaded, batch := store.LoadEventsFromPosition(position, batchSize);
        if !loaded {
          ok := false;
          return;
        }
        if |batch| == 0 {
          more := false;
        } else {
          BatchLoaded(store.log, position, batchSize, seen, seen + rest);
          ghost var n;
          frontier, froze, position, n, hookErrors :=
            ScanBatch(active, now, startPos, cap, batch, shred, report, frontier, froze, seen, hookErrors, base);
          SplitBatch(seen, batch, n, After(store.log, batch[|batch| - 1].position));
          seen, rest := seen + batch[..n], batch[n..] + After(store.log, batch[|batch| - 1].position);
          more := !report.truncated && |batch| == batchSize;
        }
      }
      frozen := froze;
    }

    lemma EmptyScan(active: seq<Spec.Policy>, now: int, startPos: nat, cap: nat, shred: ShredCandidates, report: RetentionReport)
      requires shred.View() == Spec.NO_CANDIDATES
      requires report.scanned == 0 && !report.truncated && report.Tally({}) == Spec.Tally(0, 0, 0, 0, 0, {})
      ensures Scanned(active, now, startPos, cap, [], startPos, false, shred, report, {})
    {
    }

    lemma SplitBatch(seen: seq<StoredEvent>, batch: seq<StoredEvent>, n: nat, later: seq<StoredEvent>)
      requires n <= |batch|
      ensures (seen + batch[..n]) + (batch[n..] + later) == (seen + batch) + later
      ensures n == |batch| ==> batch[n..] + later == later
    {
      assert batch == batch[..n] + batch[n..];
    }

    /** For each candidate that also protects events no Shred policy covers, how many there are. */
    method DetectSharedShredKeys(candidates: set<string>, active: seq<Spec.Policy>, now: int)
      returns (ok: bool, outOfScope: map<string, nat>)
      requires ValidLog(store.log) && batchSize > 0
      ensures !ok ==> !store.Healthy()
      ensures ok ==> outOfScope == Spec.SharedTally(active, now, candidates, store.log)
    {
      hide Spec.SharedTally, LoadFrom, After, ValidLog;
      ok, outOfScope := true, map[];
      var position, more := 0, true;
      ghost var seen: seq<StoredEvent> := [];
      AfterZero(store.log);
      Spec.NothingTallied(active, now, candidates);
      while more
        invariant seen + After(store.log, position) == store.log
        invariant outOfScope == Spec.SharedTally(active, now, candidates, seen)
        invariant !more ==> After(store.log, position) == []
        decreases more, |After(store.log, position)|
      {
        var loaded, batch := store.LoadEventsFromPosition(position, batchSize);
        if !loaded {
          ok := false;
          return;
        }
        if |batch| == 0 {
          NothingLoaded(store.log, position, batchSize);
          more := false;
        } else {
          outOfScope := TallyOutOfScopeKeys(batch, candidates, active, now, outOfScope, seen);
          BatchLoaded(store.log, position, batchSize, seen, store.log);
          seen := seen + batch;
          position := batch[|batch| - 1].position;
          more := |batch| == batchSize;
        }
      }
      assert seen == store.log;
    }

    method TallyOutOfScopeKeys(batch: seq<StoredEvent>, candidates: set<string>, active: seq<Spec.Policy>, now: int,
                               tally: map<string, nat>, ghost seen: seq<StoredEvent>)
      returns (outOfScope: map<string, nat>)
      requires tally == Spec.SharedTally(active, now, candidates, seen)
      ensures outOfScope == Spec.SharedTally(active, now, candidates, seen + batch)
    {
      outOfScope := tally;
      assert seen + batch[..0] == seen;
      for i := 0 to |batch|
        invariant outOfScope == Spec.SharedTally(active, now, candidates, seen + batch[..i])
      {
        var se := batch[i];
        Spec.SharedTallyStep(active, now, candidates, seen + batch[..i], se);
        assert seen + batch[..i] + [se] == seen + batch[..i + 1];
        if HasEncryptionEnvelope(se.meta) {
          var keyId := se.meta.keyId;
          if keyId in candidates && !Spec.CoveredByShred(active, se, now) {
            outOfScope := outOfScope[keyId := if keyId in outOfScope then outOfScope[keyId] + 1 else 1];
          }
        }
      }
      assert batch[..|batch|] == batch;
    }

    /** Splits the candidates into the keys to revoke and the ones the guard refuses. */
    method GuardSharedKeys(candidates: set<string>, active: seq<Spec.Policy>, now: int, report: RetentionReport)
      returns (ok: bool)
      requires ValidLog(store.log) && batchSize > 0 && active == Spec.Active(policies)
      requires report.keysToRevoke == {} && report.sharedKeysSkipped == {}
      modifies report`keysToRevoke, report`sharedKeysSkipped, report`errors
      ensures !ok ==> !store.Healthy()
      ensures ok ==>
        && report.sharedKeysSkipped == Spec.SharedKeys(Setup(), store.log, now, candidates)
        && report.keysToRevoke == candidates - report.sharedKeysSkipped
        && report.errors == old(report.errors) + Spec.SharedErrors(active, now, store.log, report.sharedKeysSkipped)
    {
      var outOfScope: map<string, nat> := map[];
      if !allowSharedKey {
        ok, outOfScope := DetectSharedShredKeys(candidates, active, now);
        if !ok { return; }
      }
      ok := true;
      assert outOfScope.Keys == Spec.SharedKeys(Setup(), store.log, now, candidates);
      var todo := candidates;
      while todo != {}
        invariant todo <= candidates
        invariant report.sharedKeysSkipped == outOfScope.Keys - todo
        invariant report.keysToRevoke == candidates - outOfScope.Keys - todo
        invariant report.errors == old(report.errors) + Spec.SharedErrors(active, now, store.log, report.sharedKeysSkipped)
      {
        var k :| k in todo;
        todo := todo - {k};
        if k in outOfScope {
          Spec.SharedErrorsAdd(active, now, store.log, report.sharedKeysSkipped, k);
          report.sharedKeysSkipped := report.sharedKeysSkipped + {k};
          report.errors := report.errors + {Spec.SharedKey(k, outOfScope[k])};
        } else {
          report.keysToRevoke := report.keysToRevoke + {k};
        }
      }
    }

    /** Revokes every key the guard passed; a key the provider refuses stays unrevoked. */
    method Revoke(report: RetentionReport)
      requires report.keysRevoked == {}
      modifies report`keysRevoked, report`errors, provider
      ensures report.keysRevoked == (if provider == null then {} else report.keysToRevoke - provider.refuses)
      ensures report.errors == old(report.errors) + Spec.ProviderErrors(Setup(), report.keysToRevoke)
      ensures Revoked() == old(Revoked()) + report.keysRevoked
    {
      if report.keysToRevoke == {} {
      } else if provider == null {
        report.errors := report.errors + {Spec.ErasureNotConfigured};
      } else {
        var todo := report.keysToRevoke;
        ghost var refused := {};
        while todo != {}
          invariant todo <= report.keysToRevoke
          invariant report.keysRevoked == report.keysToRevoke - provider.refuses - todo
          invariant refused == report.keysToRevoke * provider.refuses - todo
          invariant report.errors == old(report.errors) + Spec.RevokeErrors(refused)
          invariant provider.revoked == old(provider.revoked) + report.keysRevoked
        {
          var k :| k in todo;
          todo := todo - {k};
          var ok := provider.RevokeKey(k);
          if ok {
            report.keysRevoked := report.keysRevoked + {k};
          } else {
            Spec.RevokeErrorsAdd(refused, k);
            refused := refused + {k};
            report.errors := report.errors + {Spec.RevokeFailed(k)};
          }
        }
        assert refused == report.keysToRevoke * provider.refuses;
      }
    }

    /** Settles the Shred matches once every key's fate is known, and holds the frontier back to
        just before the first match of each key that was not revoked. */
    method SettleMatches(shred: ShredCandidates, report: RetentionReport, scanned: nat) returns (frontier: nat)
      requires shred.matches.Keys == shred.frontier.Keys
      modifies report`acted, report`skipped
      ensures report.acted == old(report.acted) + Spec.Total(Spec.Part(shred.matches, report.keysRevoked))
      ensures report.skipped == old(report.skipped) + Spec.Total(Spec.Part(shred.matches, shred.matches.Keys - report.keysRevoked))
      ensures Spec.HeldBack(frontier, scanned, shred.matches.Keys - report.keysRevoked, shred.frontier)
    {
      frontier := scanned;
      var todo := shred.matches.Keys;
      ghost var m, done, kept: set<string> := shred.matches, {}, {};
      assert Spec.Part(m, done) == map[] && Spec.Part(m, kept) == map[];
      while todo != {}
        invariant todo <= m.Keys
        invariant done == m.Keys * report.keysRevoked - todo && kept == m.Keys - report.keysRevoked - todo
        invariant report.acted == old(report.acted) + Spec.Total(Spec.Part(m, done))
        invariant report.skipped == old(report.skipped) + Spec.Total(Spec.Part(m, kept))
        invariant Spec.HeldBack(frontier, scanned, kept, shred.frontier)
      {
        var k :| k in todo;
        todo := todo - {k};
        if k in report.keysRevoked {
          Spec.PartAdd(m, done, k);
          done := done + {k};
          report.acted := report.acted + shred.matches[k];
        } else {
          Spec.PartAdd(m, kept, k);
          Spec.HeldBackAdd(frontier, scanned, kept, shred.frontier, k);
          kept := kept + {k};
          report.skipped := report.skipped + shred.matches[k];
          if shred.frontier[k] < frontier { frontier := shred.frontier[k]; }
        }
      }
      assert Spec.Part(m, done) == Spec.Part(m, report.keysRevoked);
      assert kept == m.Keys - report.keysRevoked;
    }

    /** Guard, revoke and settle, once the scan is complete. */
    method DecideKeys(active: seq<Spec.Policy>, now: int, shred: ShredCandidates, report: RetentionReport, scanned: nat)
      returns (ok: bool, frontier: nat)
      requires ValidLog(store.log) && batchSize > 0 && active == Spec.Active(policies)
      requires shred.matches.Keys == shred.frontier.Keys && shred.matches != map[]
      requires report.keysToRevoke == {} && report.sharedKeysSkipped == {} && report.keysRevoked == {}
      modifies report`keysToRevoke, report`sharedKeysSkipped, report`keysRevoked, report`acted, report`skipped, report`errors
      modifies provider
      ensures !ok ==> !store.Healthy() && Revoked() == old(Revoked())
      ensures ok ==> Spec.KeysDecided(Setup(), store.log, now, shred.View(), report.View(),
                                      old(report.acted), old(report.skipped), scanned, frontier)
      ensures ok ==> Revoked() == old(Revoked()) + report.keysRevoked
      ensures ok ==> report.errors == old(report.errors) + Spec.KeyErrors(Setup(), store.log, now, report.dryRun, report.sharedKeysSkipped, report.keysToRevoke)
    {
      frontier := scanned;
      ok := GuardSharedKeys(shred.matches.Keys, active, now, report);
      if ok && !report.dryRun {
        Revoke(report);
        frontier := SettleMatches(shred, report, scanned);
      }
    }

    /** With no candidate key there is nothing to decide. */
    method DecideAnyKeys(active: seq<Spec.Policy>, now: int, shred: ShredCandidates, report: RetentionReport, scanned: nat)
      returns (ok: bool, frontier: nat)
      requires ValidLog(store.log) && batchSize > 0 && active == Spec.Active(policies)
      requires Spec.Consistent(shred.View())
      requires report.keysToRevoke == {} && report.sharedKeysSkipped == {} && report.keysRevoked == {}
      modifies report`keysToRevoke, report`sharedKeysSkipped, report`keysRevoked, report`acted, report`skipped, report`errors
      modifies provider
      ensures !ok ==> !store.Healthy() && Revoked() == old(Revoked())
      ensures ok ==> Spec.KeysDecided(Setup(), store.log, now, shred.View(), report.View(),
                                      old(report.acted), old(report.skipped), scanned, frontier)
      ensures ok ==> Revoked() == old(Revoked()) + report.keysRevoked
      ensures ok ==> report.errors == old(report.errors) + Spec.KeyErrors(Setup(), store.log, now, report.dryRun, report.sharedKeysSkipped, report.keysToRevoke)
    {
      hide Spec.KeysDecided, Spec.KeyErrors;
      ok, frontier := true, scanned;
      if shred.matches != map[] {
        ok, frontier := DecideKeys(active, now, shred, report, scanned);
      } else {
        Spec.NothingToDecide(Setup(), store.log, now, shred.View(), scanned, report.View());
      }
    }

    /** Decides the keys of a complete scan `s` and puts the result together. */
    method Conclude(active: seq<Spec.Policy>, now: int, ghost startPos: nat, shred: ShredCandidates, report: RetentionReport,
                    scanned: nat, ghost seen: seq<StoredEvent>, ghost rest: seq<StoredEvent>, ghost s: Spec.Sweep)
      returns (ok: bool, frontier: nat)
      requires ValidLog(store.log) && batchSize > 0 && active == Spec.Active(policies)
      requires seen + rest == After(store.log, startPos) && (!report.truncated ==> rest == []) && report.scanned == |seen|
      requires Spec.VisitsSoFar(active, now, report.dryRun, startPos, Spec.EffectiveCap(Setup()), seen, report.truncated)
      requires s == Spec.Scan(active, now, report.dryRun, startPos, seen) && Spec.Consistent(s.cands)
      requires report.Tally(s.tally.errors) == s.tally && shred.View() == s.cands && scanned == s.frontier
      requires report.keysToRevoke == {} && report.sharedKeysSkipped == {} && report.keysRevoked == {}
      requires report.errors == Spec.ScanErrors(Setup(), s)
      modifies report`keysToRevoke, report`sharedKeysSkipped, report`keysRevoked, report`acted, report`skipped, report`errors
      modifies provider
      ensures !ok ==> !store.Healthy() && Revoked() == old(Revoked())
      ensures ok ==> Spec.SweepResult(Setup(), store.log, now, startPos, report.View(), frontier, false)
      ensures ok ==> Revoked() == old(Revoked()) + report.keysRevoked
    {
      hide Spec.SweepResult, Spec.KeysDecided, Spec.VisitsSoFar, Spec.Scan, Spec.KeyErrors, Spec.ScanErrors;
      ok, frontier := DecideAnyKeys(active, now, shred, report, scanned);
      if ok {
        Spec.AssembleResult(Setup(), store.log, now, startPos, seen, rest, s, report.View(), frontier);
      }
    }

    /** The policies that take part and the scan cap in force, with the errors of the configuration. */
    method Prepare(report: RetentionReport) returns (active: seq<Spec.Policy>, cap: nat)
      requires report.errors == {}
      modifies report`errors
      ensures active == Spec.Active(policies) && cap == Spec.EffectiveCap(Setup())
      ensures report.errors == Spec.SetupErrors(Setup())
    {
      active := ActivePolicies(report);
      cap := maxScan;
      if cap > 0 && checkpoint == null {
        report.errors := report.errors + {Spec.MaxScanNeedsCheckpoint};
        cap := 0;
      }
    }

    /** Scans the store from `startPos`, decides the keys and settles the accounting. */
    method Sweep(now: int, startPos: nat, report: RetentionReport) returns (ok: bool, frontier: nat)
      requires ValidLog(store.log) && batchSize > 0
      requires report.View() == Spec.Report(report.dryRun, 0, false, 0, 0, 0, 0, 0, {}, {}, {}, {})
      modifies report, provider
      ensures !ok ==> !store.Healthy() && Revoked() == old(Revoked())
      ensures ok ==> Spec.SweepResult(Setup(), store.log, now, startPos, report.View(), frontier, false)
      ensures ok ==> Revoked() == old(Revoked()) + report.keysRevoked
    {
      hide Spec.SweepResult, Spec.VisitsSoFar, Spec.Scan, Spec.SetupErrors, Spec.Active, Spec.Consistent, Spec.EffectiveCap;
      var active, cap := Prepare(report);
      var shred := new ShredCandidates();
      ghost var frozen, hookErrors, seen, rest;
      ok, frontier, frozen, hookErrors, seen, rest := ScanStore(active, now, startPos, cap, shred, report);
      if ok {
        ghost var s := Spec.Sweep(frontier, frozen, shred.View(), report.Tally(hookErrors));
        SweepIsConsistent(store.log, active, now, report.dryRun, startPos, seen, rest);
        if report.unencryptedMatches > 0 {
          report.errors := report.errors + {Spec.UnencryptedMatches(report.unencryptedMatches)};
        }
        ok, frontier := Conclude(active, now, startPos, shred, report, frontier, seen, rest, s);
      }
    }

    /** One sweep. It fails (null report) only when the checkpoint or the log cannot be read, and
        then neither a key nor the checkpoint has changed. */
    method Run(now: int, dryRun: bool) returns (report: RetentionReport?, ghost resume: nat)
      requires ValidLog(store.log) && batchSize > 0
      modifies provider, checkpoint
      ensures report != null ==> fresh(report) && report.dryRun == dryRun
      ensures report == null ==> !store.Healthy() || (checkpoint != null && checkpoint.readFails)
      ensures checkpoint != null && checkpoint.readFails ==> report == null
      ensures report == null ==> Revoked() == old(Revoked()) && Start() == old(Start())
      ensures report != null ==>
        Spec.SweepResult(Setup(), store.log, now, old(Start()), report.View(), resume,
                         Writes(old(Start()), dryRun, resume) && checkpoint.writeFails)
      ensures report != null ==> Revoked() == old(Revoked()) + report.keysRevoked
      ensures report != null ==>
        Start() == if Writes(old(Start()), dryRun, resume) && !checkpoint.writeFails then resume else old(Start())
    {
      hide Spec.SweepResult;
      resume := 0;
      var rep := new RetentionReport(dryRun);
      var startPos := 0;
      if checkpoint != null {
        var read, cp := checkpoint.GetCheckpoint(checkpointName);
        if !read { return null, 0; }
        startPos := cp;
      }
      var swept, frontier := Sweep(now, startPos, rep);
      if !swept { return null, 0; }
      report, resume := rep, frontier;
      if checkpoint != null && !dryRun && frontier > startPos {
        var wrote := checkpoint.SetCheckpoint(checkpointName, frontier);
        if !wrote {
          Spec.WriteFailure(Setup(), store.log, now, startPos, rep.View(), frontier);
          rep.errors := rep.errors + {Spec.CheckpointWriteFailed};
        }
      }
    }

    /** The checkpoint is persisted by a real run whose frontier advanced. */
    ghost predicate Writes(start: nat, dryRun: bool, resume: nat) {
      checkpoint != null && !dryRun && resume > start
    }
  }
}
