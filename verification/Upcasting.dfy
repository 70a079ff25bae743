/** The upcaster chain: registration in any order, validation, and gap-checked composition. */
module Upcasting {
  import opened Events

  const DEFAULT_SCHEMA_VERSION := 1

  /** One transition. `step` yields nothing when the upcaster fails or panics. */
  datatype Upcaster = Upcaster(eventType: string, from: int, to: int, step: (Json, Metadata) -> Option<Json>)
  {
    predicate WellFormed() {
      to == from + 1 && from >= 1
    }
  }

  datatype Upcasted = Done(data: Json, version: int) | Gap(expected: int, actual: int) | StepFailed(from: int)

  /** Strictly ascending well-formed transitions of one event type. */
  ghost predicate Chain(steps: seq<Upcaster>, eventType: string)
    decreases |steps|
  {
    steps == []
    || (&& steps[0].WellFormed() && steps[0].eventType == eventType
        && (|steps| > 1 ==> steps[0].from < steps[1].from)
        && Chain(steps[1..], eventType))
  }

  function Latest(steps: seq<Upcaster>): int {
    if steps == [] then DEFAULT_SCHEMA_VERSION else steps[|steps| - 1].to
  }

  /** What one pass over the ordered transitions does from version `v`. */
  function UpcastFrom(steps: seq<Upcaster>, v: int, data: Json, m: Metadata): Upcasted {
    if steps == [] then Done(data, v)
    else if steps[0].from < v then UpcastFrom(steps[1..], v, data, m)
    else if steps[0].from > v then Gap(v, steps[0].from)
    else
      match steps[0].step(data, m)
      case None => StepFailed(steps[0].from)
      case Some(d) => UpcastFrom(steps[1..], steps[0].to, d, m)
  }

  function GetSchemaVersion(m: Metadata): int {
    if m.schemaVersion.Version? && m.schemaVersion.v >= DEFAULT_SCHEMA_VERSION then m.schemaVersion.v
    else DEFAULT_SCHEMA_VERSION
  }

  // ---- The chain object ----

  datatype Registration = Registered | BadTransition | BadStart | Duplicate

  type Registry = map<string, seq<Upcaster>>

  function StepsOf(registry: Registry, eventType: string): seq<Upcaster> {
    if eventType in registry then registry[eventType] else []
  }

  predicate Has(steps: seq<Upcaster>, from: int) {
    exists i | 0 <= i < |steps| :: steps[i].from == from
  }

  /** Puts a transition behind every one with a lower start. */
  function Insert(steps: seq<Upcaster>, u: Upcaster): seq<Upcaster> {
    if steps == [] || u.from < steps[0].from then [u] + steps else [steps[0]] + Insert(steps[1..], u)
  }

  function Outcome(registry: Registry, u: Upcaster): Registration {
    if u.to != u.from + 1 then BadTransition
    else if u.from < 1 then BadStart
    else if Has(StepsOf(registry, u.eventType), u.from) then Duplicate
    else Registered
  }

  function WithUpcaster(registry: Registry, u: Upcaster): Registry {
    if Outcome(registry, u) == Registered
    then registry[u.eventType := Insert(StepsOf(registry, u.eventType), u)] else registry
  }

  ghost predicate Wellformed(registry: Registry) {
    forall t :: t in registry ==> Chain(registry[t], t) && registry[t] != []
  }

  lemma {:induction false} InsertKeepsChain(steps: seq<Upcaster>, u: Upcaster, eventType: string)
    requires Chain(steps, eventType) && u.WellFormed() && u.eventType == eventType && !Has(steps, u.from)
    ensures Chain(Insert(steps, u), eventType)
    ensures Latest(Insert(steps, u)) == if steps != [] && u.to < Latest(steps) then Latest(steps) else u.to
    ensures forall w :: w in Insert(steps, u) <==> w == u || w in steps
    ensures Insert(steps, u) != []
  {
    if steps != [] && u.from > steps[0].from {
      forall i | 0 <= i < |steps[1..]|
        ensures steps[1..][i].from != u.from
      {
        assert steps[i + 1].from != u.from;
      }
      InsertKeepsChain(steps[1..], u, eventType);
    } else if steps != [] {
      assert steps[0].from != u.from;
      LatestIsAbove(steps, eventType);
    }
  }

  lemma {:induction false} LatestIsAbove(steps: seq<Upcaster>, eventType: string)
    requires Chain(steps, eventType) && steps != []
    ensures steps[0].to <= Latest(steps)
  {
    if |steps| > 1 { LatestIsAbove(steps[1..], eventType); }
  }

  lemma RegisterKeepsWellformed(registry: Registry, u: Upcaster)
    requires Wellformed(registry)
    ensures Wellformed(WithUpcaster(registry, u))
  {
    if Outcome(registry, u) == Registered {
      InsertKeepsChain(StepsOf(registry, u.eventType), u, u.eventType);
    }
  }

  datatype VersionGap = VersionGap(eventType: string, expected: int, actual: int)

  ghost predicate Contiguous(steps: seq<Upcaster>) {
    forall i :: 0 < i < |steps| ==> steps[i].from == steps[i - 1].to
  }

  class UpcasterChain {
    var upcasters: Registry
    var latest: map<string, int>

    ghost predicate Valid()
      reads this
    {
      Wellformed(upcasters) && latest.Keys == upcasters.Keys
      && forall t :: t in latest ==> latest[t] == Latest(upcasters[t])
    }

    constructor ()
      ensures Valid() && upcasters == map[]
    {
      upcasters, latest := map[], map[];
    }

    method Register(u: Upcaster) returns (r: Registration)
      requires Valid()
      modifies this
      ensures Valid()
      ensures r == Outcome(old(upcasters), u)
      ensures upcasters == WithUpcaster(old(upcasters), u)
    {
      hide Insert, Chain, Latest;
      if u.to != u.from + 1 { return BadTransition; }
      if u.from < 1 { return BadStart; }
      var existing := StepsOf(upcasters, u.eventType);
      for i := 0 to |existing|
        invariant forall j :: 0 <= j < i ==> existing[j].from != u.from
      {
        if existing[i].from == u.from { return Duplicate; }
      }
      InsertKeepsChain(existing, u, u.eventType);
      upcasters := upcasters[u.eventType := Insert(existing, u)];
      if u.eventType !in latest || u.to > latest[u.eventType] {
        latest := latest[u.eventType := u.to];
      }
      r := Registered;
    }

    /** Finds a gap in some chain, if there is one. */
    method Validate() returns (gap: Option<VersionGap>)
      requires Valid()
      ensures gap == None <==> forall t :: t in upcasters ==> Contiguous(upcasters[t])
      ensures gap.Some? ==>
        var g := gap.value;
        g.eventType in upcasters && g.expected < g.actual
        && Has(upcasters[g.eventType], g.expected - 1) && !Has(upcasters[g.eventType], g.expected) && Has(upcasters[g.eventType], g.actual)
    {
      var todo := upcasters.Keys;
      while todo != {}
        invariant todo <= upcasters.Keys
        invariant forall t :: t in upcasters.Keys - todo ==> Contiguous(upcasters[t])
      {
        var t :| t in todo;
        todo := todo - {t};
        var steps := upcasters[t];
        var i := 1;
        while i < |steps|
          invariant 1 <= i <= |steps|
          invariant forall j :: 0 < j < i ==> steps[j].from == steps[j - 1].to
        {
          if steps[i].from != steps[i - 1].to {
            GapIsReal(steps, t, i);
            return Some(VersionGap(t, steps[i - 1].to, steps[i].from));
          }
          i := i + 1;
        }
      }
      gap := None;
    }

    method Upcast(eventType: string, fromVersion: int, data: Json, m: Metadata) returns (r: Upcasted)
      ensures r == UpcastFrom(StepsOf(upcasters, eventType), fromVersion, data, m)
    {
      var steps := StepsOf(upcasters, eventType);
      if |steps| == 0 { return Done(data, fromVersion); }
      var currentVersion, currentData := fromVersion, data;
      var i := 0;
      while i < |steps|
        invariant 0 <= i <= |steps|
        invariant UpcastFrom(steps, fromVersion, data, m) == UpcastFrom(steps[i..], currentVersion, currentData, m)
      {
        var u := steps[i];
        assert steps[i..][1..] == steps[i + 1..];
        i := i + 1;
        if u.from >= currentVersion {
          if u.from > currentVersion { return Gap(currentVersion, u.from); }
          var result := u.step(currentData, m);
          if result.None? { return StepFailed(u.from); }
          currentData, currentVersion := result.value, u.to;
        }
      }
      r := Done(currentData, currentVersion);
    }

    method LatestVersion(eventType: string) returns (v: int)
      requires Valid()
      ensures v == Latest(StepsOf(upcasters, eventType))
    {
      v := if eventType in latest then latest[eventType] else DEFAULT_SCHEMA_VERSION;
    }
  }

  lemma {:induction false} ChainMeans(steps: seq<Upcaster>, eventType: string)
    requires Chain(steps, eventType)
    ensures forall i :: 0 <= i < |steps| ==> steps[i].WellFormed() && steps[i].eventType == eventType
    ensures forall i, j :: 0 <= i < j < |steps| ==> steps[i].from < steps[j].from
  {
    if |steps| > 1 {
      ChainMeans(steps[1..], eventType);
      forall i, j | 0 <= i < j < |steps|
        ensures steps[i].from < steps[j].from
      {
        assert steps[j] == steps[1..][j - 1];
        if i > 0 { assert steps[i] == steps[1..][i - 1]; } else { assert steps[1] == steps[1..][0]; }
      }
    }
  }

  lemma GapIsReal(steps: seq<Upcaster>, eventType: string, i: nat)
    requires Chain(steps, eventType) && 0 < i < |steps| && steps[i].from != steps[i - 1].to
    ensures steps[i - 1].to < steps[i].from && !Has(steps, steps[i - 1].to)
    ensures Has(steps, steps[i - 1].to - 1) && Has(steps, steps[i].from)
  {
    ChainMeans(steps, eventType);
  }

  // ---- Order of registration ----

  function RegisterAll(us: seq<Upcaster>): Registry {
    if us == [] then map[] else WithUpcaster(RegisterAll(us[..|us| - 1]), us[|us| - 1])
  }

  /** No two of these are for the same transition of the same event type. */
  ghost predicate Distinct(us: seq<Upcaster>) {
    forall i, j :: 0 <= i < j < |us| ==> us[i].eventType != us[j].eventType || us[i].from != us[j].from
  }

  lemma {:induction false} RegisteredAreTheWellFormed(us: seq<Upcaster>, t: string)
    requires Distinct(us)
    ensures Wellformed(RegisterAll(us))
    ensures forall u :: u in StepsOf(RegisterAll(us), t) <==> u in us && u.WellFormed() && u.eventType == t
  {
    if us != [] {
      var front, last := us[..|us| - 1], us[|us| - 1];
      RegisteredAreTheWellFormed(front, t);
      RegisteredAreTheWellFormed(front, last.eventType);
      RegisterKeepsWellformed(RegisterAll(front), last);
      var steps := StepsOf(RegisterAll(front), last.eventType);
      forall i | 0 <= i < |steps|
        ensures steps[i].from != last.from
      {
        assert steps[i] in steps;
      }
      if last.WellFormed() { InsertKeepsChain(steps, last, last.eventType); }
      assert forall u :: u in us <==> u in front || u == last;
    }
  }

  lemma {:induction false} OrderedChainIsUnique(a: seq<Upcaster>, b: seq<Upcaster>, eventType: string)
    requires Chain(a, eventType) && Chain(b, eventType)
    requires forall u :: u in a <==> u in b
    ensures a == b
  {
    assert forall i :: 0 <= i < |a| ==> a[i] in b;
    assert forall i :: 0 <= i < |b| ==> b[i] in a;
    if a != [] {
      ChainMeans(a, eventType);
      ChainMeans(b, eventType);
      assert a[0] == b[0];
      forall u
        ensures u in a[1..] <==> u in b[1..]
      {
        assert u in a[1..] <==> u in a && u.from > a[0].from;
        assert u in b[1..] <==> u in b && u.from > b[0].from;
      }
      OrderedChainIsUnique(a[1..], b[1..], eventType);
      assert a == [a[0]] + a[1..] && b == [b[0]] + b[1..];
    }
  }

  /** The same upcasters registered in any two orders make the same chain. */
  lemma RegistrationOrderIsIrrelevant(us: seq<Upcaster>, vs: seq<Upcaster>, t: string)
    requires Distinct(us) && Distinct(vs) && forall u :: u in us <==> u in vs
    ensures StepsOf(RegisterAll(us), t) == StepsOf(RegisterAll(vs), t)
  {
    RegisteredAreTheWellFormed(us, t);
    RegisteredAreTheWellFormed(vs, t);
    OrderedChainIsUnique(StepsOf(RegisterAll(us), t), StepsOf(RegisterAll(vs), t), t);
  }

  // ---- What upcasting promises ----

  /** The reference: from version v apply the step that starts there, then the one that starts at
      v + 1, and so on until `latest`; a version without a step is a gap. */
  ghost function StepByStep(steps: set<Upcaster>, v: int, latest: int, data: Json, m: Metadata): Upcasted
    decreases latest - v
  {
    if v >= latest then Done(data, v)
    else if exists u :: u in steps && u.from == v then
      var u :| u in steps && u.from == v;
      match u.step(data, m)
      case None => StepFailed(v)
      case Some(d) => StepByStep(steps, v + 1, latest, d, m)
    else Gap(v, NextStart(steps, v))
  }

  /** The least start above v. */
  ghost function NextStart(steps: set<Upcaster>, v: int): int {
    if w :| w in steps && w.from > v && forall u :: u in steps && u.from > v ==> w.from <= u.from then w.from else v
  }

  ghost function Members(steps: seq<Upcaster>): set<Upcaster> {
    set u | u in steps
  }

  /** From any version the chain does exactly what the reference does: every version from v up to
      the latest gets its own step once, in order, or the first missing one is reported. Steps
      below v are never applied. */
  lemma {:induction false} UpcastIsStepByStep(all: seq<Upcaster>, i: nat, v: int, data: Json, m: Metadata, t: string)
    requires Chain(all, t) && all != [] && i <= |all|
    requires forall j :: 0 <= j < i ==> all[j].from < v
    ensures UpcastFrom(all[i..], v, data, m) == StepByStep(Members(all), v, Latest(all), data, m)
    decreases |all| - i
  {
    if i == |all| {
      assert all[i - 1].from < v;
      ChainMeans(all, t);
    } else {
      assert all[i..][1..] == all[i + 1..];
      var u := all[i];
      if u.from < v {
        UpcastIsStepByStep(all, i + 1, v, data, m, t);
      } else if u.from == v {
        StepHere(all, i, data, m, t);
        match u.step(data, m)
        case None =>
        case Some(d) => UpcastIsStepByStep(all, i + 1, u.to, d, m, t);
      } else {
        NoStepHere(all, i, v, data, m, t);
      }
    }
  }

  lemma StepHere(all: seq<Upcaster>, i: nat, data: Json, m: Metadata, t: string)
    requires Chain(all, t) && i < |all|
    ensures all[i].to == all[i].from + 1
    ensures forall j :: 0 <= j <= i ==> all[j].from < all[i].to
    ensures StepByStep(Members(all), all[i].from, Latest(all), data, m)
         == match all[i].step(data, m)
            case None => StepFailed(all[i].from)
            case Some(d) => StepByStep(Members(all), all[i].to, Latest(all), d, m)
  {
    hide UpcastFrom, Chain;
    ChainMeans(all, t);
    assert all[i] in Members(all);
    forall u | u in Members(all) && u.from == all[i].from
      ensures u == all[i]
    {
      var j :| 0 <= j < |all| && all[j] == u;
    }
  }

  lemma NoStepHere(all: seq<Upcaster>, i: nat, v: int, data: Json, m: Metadata, t: string)
    requires Chain(all, t) && i < |all| && all[i].from > v
    requires forall j :: 0 <= j < i ==> all[j].from < v
    ensures StepByStep(Members(all), v, Latest(all), data, m) == Gap(v, all[i].from)
  {
    hide UpcastFrom, Chain;
    ChainMeans(all, t);
    assert all[i] in Members(all);
    forall u | u in Members(all)
      ensures u.from != v && (u.from > v ==> all[i].from <= u.from)
    {
      var j :| 0 <= j < |all| && all[j] == u;
    }
  }

  /** Data at or beyond the latest version is returned as it is. */
  lemma {:induction false} NothingToUpcast(steps: seq<Upcaster>, v: int, data: Json, m: Metadata, t: string)
    requires Chain(steps, t) && v >= Latest(steps)
    ensures UpcastFrom(steps, v, data, m) == Done(data, v)
  {
    if steps != [] {
      LatestIsAbove(steps, t);
      NothingToUpcast(steps[1..], v, data, m, t);
    }
  }

  lemma {:induction false} ContiguousChainHasNoGap(steps: seq<Upcaster>, v: int, data: Json, m: Metadata, t: string)
    requires Chain(steps, t) && Contiguous(steps) && (steps == [] || steps[0].from <= v)
    ensures !UpcastFrom(steps, v, data, m).Gap?
  {
    if steps != [] {
      var rest := steps[1..];
      assert forall i :: 0 < i < |rest| ==> rest[i] == steps[i + 1] && rest[i - 1] == steps[i];
      if rest != [] { assert rest[0].from == steps[0].to; }
      if steps[0].from < v {
        ContiguousChainHasNoGap(rest, v, data, m, t);
      } else {
        match steps[0].step(data, m)
        case None =>
        case Some(d) => ContiguousChainHasNoGap(rest, steps[0].to, d, m, t);
      }
    }
  }

  lemma {:induction false} BrokenChainHasAGap(steps: seq<Upcaster>, i: nat, v: int, data: Json, m: Metadata, t: string)
    requires Chain(steps, t) && i < |steps| && v < steps[i].from && forall j :: 0 <= j < i ==> steps[j].from < v
    ensures UpcastFrom(steps, v, data, m) == Gap(v, steps[i].from)
    decreases i
  {
    if i > 0 {
      assert steps[0].from < v;
      assert forall j :: 0 <= j < i - 1 ==> steps[1..][j] == steps[j + 1];
      BrokenChainHasAGap(steps[1..], i - 1, v, data, m, t);
    }
  }

  /** Validation is exact: a chain is contiguous if and only if no version from its lowest start on
      can run into a gap, whatever the data. */
  lemma ValidIffNoGap(steps: seq<Upcaster>, t: string, data: Json, m: Metadata)
    requires Chain(steps, t) && steps != []
    ensures Contiguous(steps) <==> forall v :: v >= steps[0].from ==> !UpcastFrom(steps, v, data, m).Gap?
  {
    if Contiguous(steps) {
      forall v | v >= steps[0].from
        ensures !UpcastFrom(steps, v, data, m).Gap?
      {
        ContiguousChainHasNoGap(steps, v, data, m, t);
      }
    } else {
      var i :| 0 < i < |steps| && steps[i].from != steps[i - 1].to;
      ChainMeans(steps, t);
      BrokenChainHasAGap(steps, i, steps[i - 1].to, data, m, t);
    }
  }

  /** Upcasting with an older chain and later with one that extends it gives what the extended
      chain gives in one go. */
  lemma {:induction false} TwoLegsAreOne(older: seq<Upcaster>, newer: seq<Upcaster>, v: int, data: Json, m: Metadata, t: string)
    requires Chain(newer, t) && older <= newer
    requires UpcastFrom(older, v, data, m).Done?
    ensures var leg := UpcastFrom(older, v, data, m);
            UpcastFrom(newer, leg.version, leg.data, m) == UpcastFrom(newer, v, data, m)
  {
    if older != [] {
      assert older[1..] <= newer[1..];
      if older[0].from < v {
        TwoLegsAreOne(older[1..], newer[1..], v, data, m, t);
        VersionsOnlyGrow(older[1..], v, data, m, newer[1..], t);
      } else {
        var d := older[0].step(data, m).value;
        TwoLegsAreOne(older[1..], newer[1..], older[0].to, d, m, t);
        VersionsOnlyGrow(older[1..], older[0].to, d, m, newer[1..], t);
      }
    }
  }

  lemma {:induction false} VersionsOnlyGrow(older: seq<Upcaster>, v: int, data: Json, m: Metadata, newer: seq<Upcaster>, t: string)
    requires Chain(newer, t) && older <= newer && UpcastFrom(older, v, data, m).Done?
    ensures UpcastFrom(older, v, data, m).version >= v
  {
    if older != [] {
      assert older[1..] <= newer[1..];
      if older[0].from < v {
        VersionsOnlyGrow(older[1..], v, data, m, newer[1..], t);
      } else {
        VersionsOnlyGrow(older[1..], older[0].to, older[0].step(data, m).value, m, newer[1..], t);
      }
    }
  }
}
