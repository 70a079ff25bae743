/** What the sweep's single pass over the events establishes. */
module RetentionScan {
  import opened Events
  import opened RetentionSpec

  /** The candidates a visit may change are exactly the event's own key, and only when the
      event is shreddable; its first-match frontier is recorded once. */
  ghost predicate Collects(before: Candidates, after: Candidates, wants: bool, key: string, frontier: nat) {
    && Consistent(after)
    && after.frontier == (if wants && key !in before.frontier then before.frontier[key := frontier] else before.frontier)
    && Total(before.matches) <= Total(after.matches)
  }

  lemma AddCandidateCollects(c: Candidates, key: string, frontier: nat)
    requires Consistent(c)
    ensures Collects(c, AddCandidate(c, key, frontier), true, key, frontier)
    ensures Total(AddCandidate(c, key, frontier).matches) == Total(c.matches) + 1
  {
    var n := if key in c.matches then c.matches[key] else 0;
    var after := AddCandidate(c, key, frontier);
    TotalUpdate(c.matches, key, n + 1);
    if key !in c.matches { assert c.matches - {key} == c.matches; }
    assert key in after.frontier;
    if key in c.frontier || (c.any && c.floor <= frontier) {
      var k :| k in c.frontier && c.frontier[k] == c.floor;
      assert k in after.frontier && after.frontier[k] == after.floor;
    }
  }

  lemma {:induction false} VisitAllFacts(active: seq<Policy>, se: StoredEvent, now: int, dryRun: bool, frontier: nat, v: Visit)
    requires Consistent(v.cands)
    ensures var u := VisitAll(active, se, now, dryRun, frontier, v);
            && u.pending == (v.pending || Pending(active, se, now))
            && Collects(v.cands, u.cands, Shreddable(active, se, now), se.meta.keyId, frontier)
  {
    hide Total, Pending, Consistent, CoveredByShred, AddCandidate;
    if active == [] {
      NoPolicyMatches(se, now);
    } else {
      var front, last := active[..|active| - 1], active[|active| - 1];
      VisitAllFacts(front, se, now, dryRun, frontier, v);
      var u := VisitAll(front, se, now, dryRun, frontier, v);
      PendingSnoc(front, last, se, now);
      assert front + [last] == active;
      if last.MatchesStatic(se) && last.AgeEligible(se, now) && last.action == Shred && HasEncryptionEnvelope(se.meta) {
        AddCandidateCollects(u.cands, se.meta.keyId, frontier);
      }
    }
  }

  lemma NoPolicyMatches(se: StoredEvent, now: int)
    ensures !Pending([], se, now) && !CoveredByShred([], se, now)
  {
  }

  lemma PendingSnoc(front: seq<Policy>, last: Policy, se: StoredEvent, now: int)
    ensures Pending(front + [last], se, now) <==>
            Pending(front, se, now) || (last.MatchesStatic(se) && !last.AgeEligible(se, now))
    ensures CoveredByShred(front + [last], se, now) <==>
            CoveredByShred(front, se, now) || (last.action == Shred && last.MatchesStatic(se) && last.AgeEligible(se, now))
  {
    var ps := front + [last];
    assert ps[|front|] == last;
    assert forall i :: 0 <= i < |front| ==> ps[i] == front[i];
  }

  /** The frontier is settled territory: no visited event at or below it is pending. */
  lemma {:induction false} FrontierIsSettled(active: seq<Policy>, now: int, dryRun: bool, start: nat, es: seq<StoredEvent>)
    requires Increasing(start, es)
    ensures var s := Scan(active, now, dryRun, start, es);
            && start <= s.frontier
            && Consistent(s.cands)
            && (!s.frozen ==> s.frontier == if es == [] then start else es[|es| - 1].position)
            && (es == [] || s.frontier <= es[|es| - 1].position)
            && (s.frontier == start || exists e :: e in es && e.position == s.frontier)
            && (s.frozen <==> exists e :: e in es && Pending(active, e, now))
            && (forall e :: e in es && e.position <= s.frontier ==> !Pending(active, e, now))
  {
    if es != [] {
      var front, last := es[..|es| - 1], es[|es| - 1];
      IncreasingLast(start, es);
      FrontierIsSettled(active, now, dryRun, start, front);
      var s := Scan(active, now, dryRun, start, front);
      VisitAllFacts(active, last, now, dryRun, s.frontier, Visit(s.cands, s.tally, false));
    }
  }

  /** The last event's effect on the candidates and the frontier. */
  lemma LastVisit(active: seq<Policy>, now: int, dryRun: bool, start: nat, es: seq<StoredEvent>)
    requires Increasing(start, es) && es != []
    ensures var last := es[|es| - 1];
            var s := Scan(active, now, dryRun, start, es[..|es| - 1]);
            var t := Scan(active, now, dryRun, start, es);
            && Collects(s.cands, t.cands, Shreddable(active, last, now), last.meta.keyId, s.frontier)
            && start <= s.frontier <= t.frontier && s.frontier < last.position
  {
    var front, last := es[..|es| - 1], es[|es| - 1];
    IncreasingLast(start, es);
    FrontierIsSettled(active, now, dryRun, start, front);
    var s := Scan(active, now, dryRun, start, front);
    VisitAllFacts(active, last, now, dryRun, s.frontier, Visit(s.cands, s.tally, false));
  }

  ghost predicate Witnessed(active: seq<Policy>, now: int, es: seq<StoredEvent>, k: string) {
    exists e :: e in es && Shreddable(active, e, now) && e.meta.keyId == k
  }

  /** Every shreddable event visited has its key among the candidates, and the frontier recorded
      for that key lies strictly before the event. */
  lemma {:induction false} ShreddableAreCandidates(active: seq<Policy>, now: int, dryRun: bool, start: nat, es: seq<StoredEvent>)
    requires Increasing(start, es)
    ensures var s := Scan(active, now, dryRun, start, es);
            forall e :: e in es && Shreddable(active, e, now) ==>
              e.meta.keyId in s.cands.frontier && s.cands.frontier[e.meta.keyId] < e.position
  {
    if es != [] {
      var front := es[..|es| - 1];
      IncreasingLast(start, es);
      ShreddableAreCandidates(active, now, dryRun, start, front);
      LastVisit(active, now, dryRun, start, es);
      FrontierIsSettled(active, now, dryRun, start, front);
      CandidatesAreShreddable(active, now, dryRun, start, front);
    }
  }

  /** Every candidate comes from a shreddable event visited, and its recorded frontier lies
      between the start and the final frontier. */
  lemma {:induction false} CandidatesAreShreddable(active: seq<Policy>, now: int, dryRun: bool, start: nat, es: seq<StoredEvent>)
    requires Increasing(start, es)
    ensures var s := Scan(active, now, dryRun, start, es);
            forall k :: k in s.cands.frontier ==>
              start <= s.cands.frontier[k] <= s.frontier && Witnessed(active, now, es, k)
  {
    if es != [] {
      var front, last := es[..|es| - 1], es[|es| - 1];
      IncreasingLast(start, es);
      CandidatesAreShreddable(active, now, dryRun, start, front);
      LastVisit(active, now, dryRun, start, es);
      var s := Scan(active, now, dryRun, start, front);
      var t := Scan(active, now, dryRun, start, es);
      forall k | k in t.cands.frontier
        ensures start <= t.cands.frontier[k] <= t.frontier && Witnessed(active, now, es, k)
      {
        if k in s.cands.frontier {
          assert Witnessed(active, now, front, k);
        } else {
          assert last in es;
        }
      }
    }
  }

  /** Matched = Acted + Skipped + failed hooks + the Shred matches still waiting for their key. */
  ghost predicate Conserved(t: Tally, c: Candidates) {
    t.matched == t.acted + t.skipped + t.applyFailures + Total(c.matches)
  }

  lemma {:induction false} VisitConserves(active: seq<Policy>, se: StoredEvent, now: int, frontier: nat, v: Visit)
    requires Consistent(v.cands) && Conserved(v.tally, v.cands)
    ensures var u := VisitAll(active, se, now, false, frontier, v);
            Consistent(u.cands) && Conserved(u.tally, u.cands)
  {
    if active != [] {
      var front, last := active[..|active| - 1], active[|active| - 1];
      VisitConserves(front, se, now, frontier, v);
      var u := VisitAll(front, se, now, false, frontier, v);
      if last.MatchesStatic(se) && last.AgeEligible(se, now) && last.action == Shred && HasEncryptionEnvelope(se.meta) {
        AddCandidateCollects(u.cands, se.meta.keyId, frontier);
      }
    }
  }

  lemma {:induction false} ScanConserves(active: seq<Policy>, now: int, start: nat, es: seq<StoredEvent>)
    ensures var s := Scan(active, now, false, start, es);
            Consistent(s.cands) && Conserved(s.tally, s.cands)
  {
    if es != [] {
      ScanConserves(active, now, start, es[..|es| - 1]);
      var s := Scan(active, now, false, start, es[..|es| - 1]);
      VisitConserves(active, es[|es| - 1], now, s.frontier, Visit(s.cands, s.tally, false));
    }
  }

  /** A dry run sees what a real run sees; it only never counts anything as acted on or skipped. */
  ghost predicate SameView(wet: Sweep, dry: Sweep) {
    && dry.frontier == wet.frontier && dry.frozen == wet.frozen && dry.cands == wet.cands
    && dry.tally.matched == wet.tally.matched && dry.tally.unencrypted == wet.tally.unencrypted
    && dry.tally.acted == 0 && dry.tally.skipped == 0 && dry.tally.applyFailures == 0 && dry.tally.errors == {}
  }

  lemma {:induction false} DryVisit(active: seq<Policy>, se: StoredEvent, now: int, frontier: nat, wet: Visit, dry: Visit)
    requires SameView(Sweep(0, wet.pending, wet.cands, wet.tally), Sweep(0, dry.pending, dry.cands, dry.tally))
    ensures var w := VisitAll(active, se, now, false, frontier, wet);
            var d := VisitAll(active, se, now, true, frontier, dry);
            SameView(Sweep(0, w.pending, w.cands, w.tally), Sweep(0, d.pending, d.cands, d.tally))
  {
    if active != [] {
      DryVisit(active[..|active| - 1], se, now, frontier, wet, dry);
    }
  }

  lemma {:induction false} DryScan(active: seq<Policy>, now: int, start: nat, es: seq<StoredEvent>)
    ensures SameView(Scan(active, now, false, start, es), Scan(active, now, true, start, es))
  {
    if es != [] {
      DryScan(active, now, start, es[..|es| - 1]);
      var w := Scan(active, now, false, start, es[..|es| - 1]);
      var d := Scan(active, now, true, start, es[..|es| - 1]);
      DryVisit(active, es[|es| - 1], now, w.frontier, Visit(w.cands, w.tally, false), Visit(d.cands, d.tally, false));
    }
  }

  /** The recorded frontiers never go below what the cap check relies on. */
  lemma GuaranteedIsALowerBound(c: Candidates, frontier: nat)
    requires Consistent(c)
    ensures GuaranteedResume(c, frontier) <= frontier
    ensures forall k :: k in c.frontier ==> GuaranteedResume(c, frontier) <= c.frontier[k]
  {
    if c.any {
    } else {
      assert c.frontier == map[];
    }
  }
}
