/** What one retention sweep computes, as functions of the events it visits: the resume
    frontier, the candidate keys and the tallies. RetentionManager.Run is proved against this. */
module RetentionSpec {
  import opened Events

  datatype Action = Shred | RedactFields | Anonymize

  /** `apply` is the caller's hook; its boolean is whether the hook succeeded on the event. */
  datatype Policy = Policy(
    name: string,
    category: string,
    streamPrefix: string,
    eventTypes: seq<string>,
    tenantId: string,
    maxAge: int,
    action: Action,
    apply: Option<StoredEvent -> bool>)
  {
    /** No matcher at all: such a policy would match every event in the store. */
    predicate Unscoped() {
      category == "" && streamPrefix == "" && eventTypes == [] && tenantId == "" && maxAge <= 0
    }

    predicate MissingHook() {
      (action == RedactFields || action == Anonymize) && apply == None
    }

    predicate MatchesStatic(se: StoredEvent) {
      && (category != "" ==> StreamCategory(se.streamId) == category)
      && streamPrefix <= se.streamId
      && (tenantId != "" ==> se.meta.tenantId == tenantId)
      && (eventTypes != [] ==> se.eventType in eventTypes)
    }

    predicate AgeEligible(se: StoredEvent, now: int) {
      maxAge <= 0 || now - se.time >= maxAge
    }
  }

  /** The text before the first '-' unless the id starts with one. */
  function StreamCategory(id: string): string {
    var i := IndexOf(id, '-');
    if 0 < i < |id| then id[..i] else id
  }

  datatype Error =
    | UnscopedPolicy(policy: string)
    | NoApplyHook(policy: string)
    | MaxScanNeedsCheckpoint
    | ApplyFailed(policy: string)
    | UnencryptedMatches(count: nat)
    | SharedKey(key: string, outOfScope: nat)
    | ErasureNotConfigured
    | RevokeFailed(key: string)
    | CheckpointWriteFailed

  predicate Pending(active: seq<Policy>, se: StoredEvent, now: int) {
    exists i | 0 <= i < |active| :: active[i].MatchesStatic(se) && !active[i].AgeEligible(se, now)
  }

  predicate CoveredByShred(active: seq<Policy>, se: StoredEvent, now: int) {
    exists i | 0 <= i < |active| ::
      active[i].action == Shred && active[i].MatchesStatic(se) && active[i].AgeEligible(se, now)
  }

  predicate ShredMatchesStatic(active: seq<Policy>, se: StoredEvent) {
    exists i | 0 <= i < |active| :: active[i].action == Shred && active[i].MatchesStatic(se)
  }

  /** A match whose key this sweep wants revoked. */
  predicate Shreddable(active: seq<Policy>, se: StoredEvent, now: int) {
    HasEncryptionEnvelope(se.meta) && CoveredByShred(active, se, now)
  }

  function Active(policies: seq<Policy>): seq<Policy> {
    if policies == [] then []
    else
      var front := Active(policies[..|policies| - 1]);
      var last := policies[|policies| - 1];
      if last.Unscoped() then front else front + [last]
  }

  function PolicyErrors(policies: seq<Policy>): set<Error> {
    if policies == [] then {}
    else
      var front := PolicyErrors(policies[..|policies| - 1]);
      var last := policies[|policies| - 1];
      if last.Unscoped() then front + {UnscopedPolicy(last.name)}
      else if last.MissingHook() then front + {NoApplyHook(last.name)}
      else front
  }

  // ---- What a policy asks for ----

  /** A stream belongs to a category if it is named after it, alone or with a '-' and more behind it. An
      id that starts with a '-' is a category of its own. */
  ghost predicate InCategory(id: string, category: string) {
    if '-' in category then category[0] == '-' && id == category
    else id == category || category + "-" <= id
  }

  lemma CategoryIs(id: string, category: string)
    requires category != ""
    ensures StreamCategory(id) == category <==> InCategory(id, category)
  {
    var i := IndexOf(id, '-');
    if '-' in category {
      if 0 < i < |id| { assert forall j :: 0 <= j < i ==> id[j] != '-'; }
    } else {
      if 0 < i < |id| && id[..i] == category { assert (category + "-") == id[..i + 1]; }
      if category + "-" <= id {
        assert id[|category|] == (category + "-")[|category|];
        assert forall j :: 0 <= j < |category| ==> id[j] == (category + "-")[j];
        assert i == |category|;
      }
      assert i < |id| ==> id[i] in id;
    }
  }

  /** Some matcher is set. */
  ghost predicate Narrowed(p: Policy) {
    p.category != "" || p.streamPrefix != "" || p.eventTypes != [] || p.tenantId != "" || p.maxAge > 0
  }

  /** The event meets every matcher that is set. */
  ghost predicate Meets(p: Policy, e: StoredEvent, now: int) {
    && (p.category != "" ==> InCategory(e.streamId, p.category))
    && (p.streamPrefix != "" ==> p.streamPrefix <= e.streamId)
    && (p.tenantId != "" ==> e.meta.tenantId == p.tenantId)
    && (p.eventTypes != [] ==> e.eventType in p.eventTypes)
    && (p.maxAge > 0 ==> e.time + p.maxAge <= now)
  }

  lemma MatchMeans(p: Policy, e: StoredEvent, now: int)
    ensures p.MatchesStatic(e) && p.AgeEligible(e, now) <==> Meets(p, e, now)
    ensures p.Unscoped() <==> !Narrowed(p)
  {
    if p.category != "" { CategoryIs(e.streamId, p.category); }
    assert p.streamPrefix == "" ==> e.streamId[..0] == p.streamPrefix;
  }

  lemma {:induction false} ActiveMeans(policies: seq<Policy>)
    ensures forall p :: p in Active(policies) <==> p in policies && !p.Unscoped()
  {
    if policies != [] {
      ActiveMeans(policies[..|policies| - 1]);
      assert forall p :: p in policies <==> p in policies[..|policies| - 1] || p == policies[|policies| - 1];
    }
  }

  /** Exactly the policies that match everything and the ones that could not act are reported. */
  lemma {:induction false} PolicyErrorsMean(policies: seq<Policy>, name: string)
    ensures UnscopedPolicy(name) in PolicyErrors(policies) <==> exists p :: p in policies && p.name == name && !Narrowed(p)
    ensures NoApplyHook(name) in PolicyErrors(policies) <==>
            exists p :: p in policies && p.name == name && Narrowed(p) && p.action != Shred && p.apply == None
    ensures forall e :: e in PolicyErrors(policies) ==> e.UnscopedPolicy? || e.NoApplyHook?
  {
    if policies != [] {
      var front, last := policies[..|policies| - 1], policies[|policies| - 1];
      PolicyErrorsMean(front, name);
      assert forall p :: p in policies <==> p in front || p == last;
    }
  }

  /** The event is too young for a policy whose other matchers it meets, whatever that policy would do. */
  ghost predicate TooYoung(p: Policy, e: StoredEvent, now: int) {
    p.maxAge > 0 && now < e.time + p.maxAge && Meets(p.(maxAge := 0), e, now)
  }

  lemma TooYoungMeans(p: Policy, e: StoredEvent, now: int)
    ensures p.MatchesStatic(e) && !p.AgeEligible(e, now) <==> TooYoung(p, e, now)
  {
    MatchMeans(p.(maxAge := 0), e, now);
  }

  lemma PendingMeans(policies: seq<Policy>, e: StoredEvent, now: int)
    ensures Pending(Active(policies), e, now) <==> exists p :: p in policies && TooYoung(p, e, now)
  {
    hide TooYoung, Active;
    var active := Active(policies);
    ActiveMeans(policies);
    forall p: Policy
      ensures p.MatchesStatic(e) && !p.AgeEligible(e, now) <==> TooYoung(p, e, now)
    {
      TooYoungMeans(p, e, now);
    }
    if Pending(active, e, now) {
      var i :| 0 <= i < |active| && active[i].MatchesStatic(e) && !active[i].AgeEligible(e, now);
      assert active[i] in active;
    }
    if p :| p in policies && TooYoung(p, e, now) {
      assert p in active;
      var i :| 0 <= i < |active| && active[i] == p;
    }
  }

  /** The event is to be shredded: it meets some Shred policy that is narrowed at all. */
  ghost predicate Condemned(policies: seq<Policy>, e: StoredEvent, now: int) {
    exists p :: p in policies && p.action == Shred && Narrowed(p) && Meets(p, e, now)
  }

  lemma CoveredMeans(policies: seq<Policy>, e: StoredEvent, now: int)
    ensures CoveredByShred(Active(policies), e, now) <==> Condemned(policies, e, now)
  {
    hide Narrowed, Meets, Active;
    var active := Active(policies);
    ActiveMeans(policies);
    forall p: Policy
      ensures p.MatchesStatic(e) && p.AgeEligible(e, now) <==> Meets(p, e, now)
      ensures p.Unscoped() <==> !Narrowed(p)
    {
      MatchMeans(p, e, now);
    }
    if CoveredByShred(active, e, now) {
      var i :| 0 <= i < |active| && active[i].action == Shred && active[i].MatchesStatic(e) && active[i].AgeEligible(e, now);
      assert active[i] in active;
    }
    if p :| p in policies && p.action == Shred && Narrowed(p) && Meets(p, e, now) {
      assert p in active;
      var i :| 0 <= i < |active| && active[i] == p;
    }
  }

  // ---- The keys a sweep collects ----

  /** Per candidate key: how many enveloped matches it covers, and the resume frontier just
      before its first match; `floor` is the least of those frontiers. */
  datatype Candidates = Candidates(matches: map<string, nat>, frontier: map<string, nat>, floor: nat, any: bool)

  const NO_CANDIDATES := Candidates(map[], map[], 0, false)

  function AddCandidate(c: Candidates, key: string, frontier: nat): Candidates {
    var n := if key in c.matches then c.matches[key] else 0;
    if key in c.frontier then
      c.(matches := c.matches[key := n + 1])
    else
      Candidates(c.matches[key := n + 1], c.frontier[key := frontier],
                 if !c.any || frontier < c.floor then frontier else c.floor, true)
  }

  /** The resume point that is safe whatever the guard decides later. */
  function GuaranteedResume(c: Candidates, frontier: nat): nat {
    if c.any && c.floor < frontier then c.floor else frontier
  }

  /** Not beyond `frontier`, nor beyond the frontier before any candidate's first match. */
  ghost predicate SafeResume(c: Candidates, frontier: nat, resume: int) {
    resume <= frontier && forall k :: k in c.frontier ==> resume <= c.frontier[k]
  }

  ghost predicate Consistent(c: Candidates) {
    && c.matches.Keys == c.frontier.Keys
    && (c.any <==> c.frontier != map[])
    && (forall k :: k in c.frontier ==> c.floor <= c.frontier[k])
    && (c.any ==> exists k :: k in c.frontier && c.frontier[k] == c.floor)
  }

  // ---- The fold over the events ----

  datatype Tally = Tally(matched: nat, acted: nat, skipped: nat, unencrypted: nat, applyFailures: nat, errors: set<Error>)

  datatype Visit = Visit(cands: Candidates, tally: Tally, pending: bool)

  datatype Sweep = Sweep(frontier: nat, frozen: bool, cands: Candidates, tally: Tally)

  /** The error, if any, that one eligible match reports. */
  function ActErrors(p: Policy, se: StoredEvent, dryRun: bool): set<Error> {
    if p.action != Shred && !dryRun && p.apply.Some? && !p.apply.value(se) then {ApplyFailed(p.name)} else {}
  }

  /** What one eligible (policy, event) match does. */
  function Act(p: Policy, se: StoredEvent, frontier: nat, dryRun: bool, c: Candidates, t: Tally): (Candidates, Tally) {
    match p.action
    case Shred =>
      if HasEncryptionEnvelope(se.meta) then (AddCandidate(c, se.meta.keyId, frontier), t)
      else (c, t.(unencrypted := t.unencrypted + 1, skipped := if dryRun then t.skipped else t.skipped + 1))
    case _ =>
      if dryRun then (c, t)
      else if p.apply == None then (c, t.(skipped := t.skipped + 1))
      else if p.apply.value(se) then (c, t.(acted := t.acted + 1))
      else (c, t.(applyFailures := t.applyFailures + 1, errors := t.errors + ActErrors(p, se, dryRun)))
  }

  function VisitOne(p: Policy, se: StoredEvent, now: int, dryRun: bool, frontier: nat, v: Visit): Visit {
    if !p.MatchesStatic(se) then v
    else if p.AgeEligible(se, now) then
      var (c, t) := Act(p, se, frontier, dryRun, v.cands, v.tally.(matched := v.tally.matched + 1));
      Visit(c, t, v.pending)
    else v.(pending := true)
  }

  function VisitAll(active: seq<Policy>, se: StoredEvent, now: int, dryRun: bool, frontier: nat, v: Visit): Visit {
    if active == [] then v
    else
      var u := VisitAll(active[..|active| - 1], se, now, dryRun, frontier, v);
      VisitOne(active[|active| - 1], se, now, dryRun, frontier, u)
  }

  function Advance(active: seq<Policy>, now: int, dryRun: bool, s: Sweep, se: StoredEvent): Sweep {
    var v := VisitAll(active, se, now, dryRun, s.frontier, Visit(s.cands, s.tally, false));
    var frozen := s.frozen || v.pending;
    Sweep(if frozen then s.frontier else se.position, frozen, v.cands, v.tally)
  }

  function Scan(active: seq<Policy>, now: int, dryRun: bool, start: nat, events: seq<StoredEvent>): Sweep {
    if events == [] then Sweep(start, false, NO_CANDIDATES, Tally(0, 0, 0, 0, 0, {}))
    else
      var s := Scan(active, now, dryRun, start, events[..|events| - 1]);
      Advance(active, now, dryRun, s, events[|events| - 1])
  }

  /** Whether the scan cap ends the sweep after n events. */
  predicate CapReached(maxScan: nat, start: nat, s: Sweep, n: nat) {
    maxScan > 0 && n >= maxScan && GuaranteedResume(s.cands, s.frontier) > start
  }

  /** The cap would not have ended the sweep at any of these events. */
  ghost predicate Uncapped(active: seq<Policy>, now: int, dryRun: bool, start: nat, maxScan: nat, seen: seq<StoredEvent>) {
    seen == []
    || (Uncapped(active, now, dryRun, start, maxScan, seen[..|seen| - 1])
        && !CapReached(maxScan, start, Scan(active, now, dryRun, start, seen), |seen|))
  }

  /** The sweep has visited exactly `seen`: the cap ended it at none of the earlier events, and
      `truncated` says whether it ends it now. */
  ghost predicate VisitsSoFar(active: seq<Policy>, now: int, dryRun: bool, start: nat, maxScan: nat,
                              seen: seq<StoredEvent>, truncated: bool)
  {
    if seen == [] then !truncated
    else
      && Uncapped(active, now, dryRun, start, maxScan, seen[..|seen| - 1])
      && (truncated <==> CapReached(maxScan, start, Scan(active, now, dryRun, start, seen), |seen|))
  }

  // ---- The guard, the revocation and the final frontier ----

  /** Events under `key` in the whole log that no Shred policy of the sweep covers. */
  function OutOfScope(active: seq<Policy>, now: int, key: string, log: seq<StoredEvent>): nat {
    if log == [] then 0
    else
      var front := OutOfScope(active, now, key, log[..|log| - 1]);
      var se := log[|log| - 1];
      if HasEncryptionEnvelope(se.meta) && se.meta.keyId == key && !CoveredByShred(active, se, now) then front + 1
      else front
  }

  /** `f` is `frontier` held back to just before the first match of every key in `keys`. */
  ghost predicate HeldBack(f: nat, frontier: nat, keys: set<string>, before: map<string, nat>)
    requires keys <= before.Keys
  {
    && f <= frontier
    && (forall k :: k in keys ==> f <= before[k])
    && (f == frontier || exists k :: k in keys && f == before[k])
  }

  ghost function Total(m: map<string, nat>): nat {
    if m == map[] then 0
    else
      var k :| k in m;
      m[k] + Total(m - {k})
  }

  function Part(m: map<string, nat>, keys: set<string>): map<string, nat> {
    map k | k in m && k in keys :: m[k]
  }

  lemma {:induction false} TotalPick(m: map<string, nat>, k: string)
    requires k in m
    ensures Total(m) == m[k] + Total(m - {k})
    decreases |m|
  {
    var p :| p in m && Total(m) == m[p] + Total(m - {p});
    if p != k {
      TotalPick(m - {p}, k);
      TotalPick(m - {k}, p);
      assert m - {p} - {k} == m - {k} - {p};
    }
  }

  lemma TotalUpdate(m: map<string, nat>, k: string, v: nat)
    ensures Total(m[k := v]) == v + Total(m - {k})
    ensures k in m ==> Total(m[k := v]) == Total(m) - m[k] + v
  {
    var u := m[k := v];
    TotalPick(u, k);
    assert u - {k} == m - {k};
    if k in m { TotalPick(m, k); }
  }

  lemma {:induction false} OutOfScopeIff(active: seq<Policy>, now: int, key: string, log: seq<StoredEvent>)
    ensures OutOfScope(active, now, key, log) > 0 <==>
            exists se :: se in log && HasEncryptionEnvelope(se.meta) && se.meta.keyId == key && !CoveredByShred(active, se, now)
  {
    if log != [] {
      OutOfScopeIff(active, now, key, log[..|log| - 1]);
      assert log == log[..|log| - 1] + [log[|log| - 1]];
      assert forall e :: e in log <==> e in log[..|log| - 1] || e == log[|log| - 1];
    }
  }

  /** What is fixed about a manager: its policies and options, and the provider's behaviour
      (`configured` is false when the store has no encryption; `refuses` are the keys whose
      revocation fails). */
  datatype Setup = Setup(policies: seq<Policy>, maxScan: nat, allowSharedKey: bool, checkpointed: bool,
                         configured: bool, refuses: set<string>)

  datatype Report = Report(
    dryRun: bool, scanned: nat, truncated: bool, matched: nat, acted: nat, skipped: nat, unencryptedMatches: nat,
    applyFailures: nat, keysToRevoke: set<string>, sharedKeysSkipped: set<string>, keysRevoked: set<string>,
    errors: set<Error>)

  function EffectiveCap(x: Setup): nat {
    if x.checkpointed then x.maxScan else 0
  }

  /** The sweep over the first n events after `start`. */
  function SweepOf(x: Setup, log: seq<StoredEvent>, now: int, dryRun: bool, start: nat, n: nat): Sweep
    requires n <= |After(log, start)|
  {
    Scan(Active(x.policies), now, dryRun, start, After(log, start)[..n])
  }

  function SharedKeys(x: Setup, log: seq<StoredEvent>, now: int, keys: set<string>): set<string> {
    if x.allowSharedKey then {} else SharedTally(Active(x.policies), now, keys, log).Keys
  }

  /** Which keys the guard passes and the provider revokes, the accounting of their matches, and
      the frontier held back for the keys that stay unrevoked. `acted` and `skipped` are the
      counts before, `scanned` is the frontier before. */
  ghost predicate KeysDecided(x: Setup, log: seq<StoredEvent>, now: int, c: Candidates, r: Report,
                              acted: nat, skipped: nat, scanned: nat, resume: nat)
  {
    var keys := c.matches.Keys;
    && keys <= c.frontier.Keys
    && r.sharedKeysSkipped == SharedKeys(x, log, now, keys)
    && r.keysToRevoke == keys - r.sharedKeysSkipped
    && r.keysRevoked == (if r.dryRun || !x.configured then {} else r.keysToRevoke - x.refuses)
    && r.acted == acted + (if r.dryRun then 0 else Total(Part(c.matches, r.keysRevoked)))
    && r.skipped == skipped + (if r.dryRun then 0 else Total(Part(c.matches, keys - r.keysRevoked)))
    && (if r.dryRun then resume == scanned else HeldBack(resume, scanned, keys - r.keysRevoked, c.frontier))
  }

  /** The errors of the configuration itself, reported by every sweep. */
  function SetupErrors(x: Setup): set<Error> {
    PolicyErrors(x.policies) + if x.maxScan > 0 && !x.checkpointed then {MaxScanNeedsCheckpoint} else {}
  }

  /** The errors known once the scan is complete. */
  function ScanErrors(x: Setup, s: Sweep): set<Error> {
    SetupErrors(x) + s.tally.errors + if s.tally.unencrypted > 0 then {UnencryptedMatches(s.tally.unencrypted)} else {}
  }

  /** Everything a sweep reports as an error, up to and including the revocations. */
  ghost function SweepErrors(x: Setup, log: seq<StoredEvent>, now: int, s: Sweep, r: Report): set<Error> {
    ScanErrors(x, s) + KeyErrors(x, log, now, r.dryRun, r.sharedKeysSkipped, r.keysToRevoke)
  }

  /** Everything a sweep does and counts; `resume` is the final frontier. */
  ghost predicate SweepCore(x: Setup, log: seq<StoredEvent>, now: int, start: nat, r: Report, resume: nat) {
    && r.scanned <= |After(log, start)|
    && (!r.truncated ==> r.scanned == |After(log, start)|)
    && VisitsSoFar(Active(x.policies), now, r.dryRun, start, EffectiveCap(x), After(log, start)[..r.scanned], r.truncated)
    && var s := SweepOf(x, log, now, r.dryRun, start, r.scanned);
    && (r.matched, r.unencryptedMatches, r.applyFailures) == (s.tally.matched, s.tally.unencrypted, s.tally.applyFailures)
    && KeysDecided(x, log, now, s.cands, r, s.tally.acted, s.tally.skipped, s.frontier, resume)
  }

  /** The complete result of a sweep that did not fail: what it did, and exactly the errors it
      reports; `writeFailed` is whether persisting the frontier was attempted and failed. */
  ghost predicate SweepResult(x: Setup, log: seq<StoredEvent>, now: int, start: nat, r: Report, resume: nat, writeFailed: bool) {
    var silent := r.(errors := {});
    && SweepCore(x, log, now, start, silent, resume)
    && r.errors == SweepErrors(x, log, now, SweepOf(x, log, now, r.dryRun, start, r.scanned), silent)
                   + (if writeFailed then {CheckpointWriteFailed} else {})
  }

  /** With no candidate key there is nothing to guard, revoke or hold back. */
  lemma NothingToDecide(x: Setup, log: seq<StoredEvent>, now: int, c: Candidates, scanned: nat, r: Report)
    requires Consistent(c) && c.matches == map[]
    requires r.keysToRevoke == {} && r.sharedKeysSkipped == {} && r.keysRevoked == {}
    ensures KeysDecided(x, log, now, c, r, r.acted, r.skipped, scanned, scanned)
    ensures KeyErrors(x, log, now, r.dryRun, r.sharedKeysSkipped, r.keysToRevoke) == {}
  {
    assert c.matches.Keys == {};
    assert Part(c.matches, {}) == map[];
  }

  /** The scan saw `seen` and left `rest` unread; with the keys decided the result is complete. */
  lemma AssembleResult(x: Setup, log: seq<StoredEvent>, now: int, start: nat, seen: seq<StoredEvent>, rest: seq<StoredEvent>,
                       s: Sweep, r: Report, resume: nat)
    requires seen + rest == After(log, start) && (!r.truncated ==> rest == []) && r.scanned == |seen|
    requires VisitsSoFar(Active(x.policies), now, r.dryRun, start, EffectiveCap(x), seen, r.truncated)
    requires s == Scan(Active(x.policies), now, r.dryRun, start, seen)
    requires (r.matched, r.unencryptedMatches, r.applyFailures) == (s.tally.matched, s.tally.unencrypted, s.tally.applyFailures)
    requires KeysDecided(x, log, now, s.cands, r, s.tally.acted, s.tally.skipped, s.frontier, resume)
    requires r.errors == ScanErrors(x, s) + KeyErrors(x, log, now, r.dryRun, r.sharedKeysSkipped, r.keysToRevoke)
    ensures SweepResult(x, log, now, start, r, resume, false)
  {
    hide Scan, VisitsSoFar, ScanErrors, KeyErrors;
    assert After(log, start)[..r.scanned] == seen;
  }

  // ---- Steps of the accounting loops ----

  /** The candidates with at least one event out of scope, with how many. */
  function SharedTally(active: seq<Policy>, now: int, candidates: set<string>, log: seq<StoredEvent>): map<string, nat> {
    map k | k in candidates && OutOfScope(active, now, k, log) > 0 :: OutOfScope(active, now, k, log)
  }

  lemma NothingTallied(active: seq<Policy>, now: int, candidates: set<string>)
    ensures SharedTally(active, now, candidates, []) == map[]
  {
  }

  lemma SharedTallyStep(active: seq<Policy>, now: int, candidates: set<string>, seen: seq<StoredEvent>, se: StoredEvent)
    ensures var before := SharedTally(active, now, candidates, seen);
            var k := se.meta.keyId;
            SharedTally(active, now, candidates, seen + [se])
            == if HasEncryptionEnvelope(se.meta) && k in candidates && !CoveredByShred(active, se, now)
               then before[k := if k in before then before[k] + 1 else 1] else before
  {
    var log := seen + [se];
    assert log[..|log| - 1] == seen && log[|log| - 1] == se;
    forall k | k in candidates
      ensures OutOfScope(active, now, k, log)
           == OutOfScope(active, now, k, seen) + (if HasEncryptionEnvelope(se.meta) && se.meta.keyId == k && !CoveredByShred(active, se, now) then 1 else 0)
    {
    }
  }

  ghost function SharedErrors(active: seq<Policy>, now: int, log: seq<StoredEvent>, keys: set<string>): set<Error> {
    set k | k in keys :: SharedKey(k, OutOfScope(active, now, k, log))
  }

  lemma SharedErrorsAdd(active: seq<Policy>, now: int, log: seq<StoredEvent>, keys: set<string>, k: string)
    ensures SharedErrors(active, now, log, keys + {k})
         == SharedErrors(active, now, log, keys) + {SharedKey(k, OutOfScope(active, now, k, log))}
  {
  }

  /** The errors the key decisions give rise to. */
  ghost function KeyErrors(x: Setup, log: seq<StoredEvent>, now: int, dryRun: bool,
                           shared: set<string>, toRevoke: set<string>): set<Error> {
    SharedErrors(Active(x.policies), now, log, shared) + if dryRun then {} else ProviderErrors(x, toRevoke)
  }

  /** What the provider has to say about the keys the guard passed. */
  ghost function ProviderErrors(x: Setup, keys: set<string>): set<Error> {
    if keys == {} then {} else if !x.configured then {ErasureNotConfigured} else RevokeErrors(keys * x.refuses)
  }

  ghost function RevokeErrors(keys: set<string>): set<Error> {
    set k | k in keys :: RevokeFailed(k)
  }

  lemma RevokeErrorsAdd(keys: set<string>, k: string)
    ensures RevokeErrors(keys + {k}) == RevokeErrors(keys) + {RevokeFailed(k)}
  {
  }

  /** Moving one more key into a part of the matches adds its matches. */
  lemma PartAdd(m: map<string, nat>, keys: set<string>, k: string)
    requires k in m && k !in keys
    ensures Total(Part(m, keys + {k})) == Total(Part(m, keys)) + m[k]
  {
    assert Part(m, keys + {k}) - {k} == Part(m, keys);
    TotalPick(Part(m, keys + {k}), k);
  }

  lemma {:induction false} TotalSplit(m: map<string, nat>, keys: set<string>)
    requires keys <= m.Keys
    ensures Total(m) == Total(Part(m, keys)) + Total(Part(m, m.Keys - keys))
    decreases keys
  {
    if keys == {} {
      assert Part(m, m.Keys - keys) == m && Part(m, keys) == map[];
    } else {
      var k :| k in keys;
      var fewer := keys - {k};
      TotalSplit(m, fewer);
      PartAdd(m, fewer, k);
      PartAdd(m, m.Keys - keys, k);
      assert fewer + {k} == keys && m.Keys - keys + {k} == m.Keys - fewer;
    }
  }

  lemma HeldBackAdd(f: nat, frontier: nat, keys: set<string>, before: map<string, nat>, k: string)
    requires keys <= before.Keys && k in before && HeldBack(f, frontier, keys, before)
    ensures HeldBack(if before[k] < f then before[k] else f, frontier, keys + {k}, before)
  {
    assert k in keys + {k};
    if f != frontier {
      var w :| w in keys && f == before[w];
      assert w in keys + {k};
    }
  }

  /** Persisting the checkpoint failed: one more error, nothing else differs. */
  lemma WriteFailure(x: Setup, log: seq<StoredEvent>, now: int, start: nat, r: Report, resume: nat)
    requires SweepResult(x, log, now, start, r, resume, false)
    ensures SweepResult(x, log, now, start, r.(errors := r.errors + {CheckpointWriteFailed}), resume, true)
  {
  }
}
