/** Sealing and unsealing fields of a JSON object: overlapping paths, deepest first and
    shallowest first, and why that round-trips. */
module Sealing {
  import opened Events
  import opened FieldPaths

  type Members = map<string, Json>

  // ---- One field ----

  datatype SealOutcome = Sealed(tree: Members) | NothingThere | ShapeMismatch

  /** Replaces the value at a path by its box. An absent field, or an absent or null parent, means
      there is nothing to seal; any other parent that is not an object is a mismatch. */
  function SealAt(tree: Members, path: seq<string>, dek: nat, aad: string): SealOutcome
    requires path != []
    decreases |path|
  {
    var head := path[0];
    if head !in tree then NothingThere
    else if |path| == 1 then Sealed(tree[head := Str(Box(dek, aad, tree[head]))])
    else if tree[head].Null? then NothingThere
    else if !tree[head].Obj? then ShapeMismatch
    else
      match SealAt(tree[head].members, path[1..], dek, aad)
      case Sealed(child) => Sealed(tree[head := Obj(child)])
      case outcome => outcome
  }

  datatype UnsealOutcome = Restored(tree: Members) | Tampered | NotOpened

  /** Replaces the box at a path by the value sealed in it. A path that no longer leads to a
      string is tampering; a string that is no box, or a box sealed under another data key or
      other authenticated data, does not open. */
  function UnsealAt(tree: Members, path: seq<string>, dek: nat, aads: set<string>): UnsealOutcome
    requires path != []
    decreases |path|
  {
    var head := path[0];
    if head !in tree then Tampered
    else if |path| == 1 then
      if !tree[head].Str? then Tampered
      else if Opens(tree[head].str, dek, aads) then Restored(tree[head := tree[head].str.sealed])
      else NotOpened
    else if !tree[head].Obj? then Tampered
    else
      match UnsealAt(tree[head].members, path[1..], dek, aads)
      case Restored(child) => Restored(tree[head := Obj(child)])
      case outcome => outcome
  }

  predicate Opens(text: Text, dek: nat, aads: set<string>) {
    text.Box? && text.dek == dek && text.aad in aads
  }

  /** Binds a box to its stream and its full path. */
  function FieldAAD(stream: string, path: string): string {
    if stream == "" then path else stream + "\0" + path
  }

  /** The authenticated data a reader accepts: today's binding and the three earlier ones. */
  function AcceptedAADs(stream: string, path: string, leaf: string): set<string> {
    {FieldAAD(stream, path), FieldAAD(stream, leaf), path, leaf}
  }

  function SealField(tree: Members, path: string, dek: nat, stream: string): SealOutcome {
    SealAt(tree, Segments(path), dek, FieldAAD(stream, path))
  }

  function UnsealField(tree: Members, path: string, dek: nat, stream: string): UnsealOutcome {
    UnsealAt(tree, Segments(path), dek, AcceptedAADs(stream, path, Leaf(path)))
  }

  /** The bindings a reader accepts: the full path or its leaf, with the stream or, as boxes of old have
      it, without. */
  lemma AcceptedBindingsAre(stream: string, path: string, leaf: string, aad: string)
    ensures aad in AcceptedAADs(stream, path, leaf) <==>
            aad == path || aad == leaf || (stream != "" && (aad == stream + "\0" + path || aad == stream + "\0" + leaf))
  {
  }

  // ---- What one seal does, said by looking values up ----

  /** The value at a path, if every step leads through an object. */
  function Lookup(value: Json, path: seq<string>): Option<Json> {
    if path == [] then Some(value)
    else if value.Obj? && path[0] in value.members then Lookup(value.members[path[0]], path[1..])
    else None
  }

  ghost predicate Resolves(tree: Members, path: seq<string>) {
    Lookup(Obj(tree), path).Some?
  }

  /** Some parent on the path is there but is neither an object nor null. */
  ghost predicate Clashes(tree: Members, path: seq<string>) {
    exists k :: 0 < k < |path| && var v := Lookup(Obj(tree), path[..k]); v.Some? && !v.value.Obj? && !v.value.Null?
  }

  /** A clash is either at the first parent or further down. */
  lemma ClashStep(tree: Members, path: seq<string>)
    requires |path| > 1
    ensures path[0] !in tree ==> !Clashes(tree, path)
    ensures path[0] in tree && tree[path[0]].Null? ==> !Clashes(tree, path)
    ensures path[0] in tree && tree[path[0]].Obj? ==> (Clashes(tree, path) <==> Clashes(tree[path[0]].members, path[1..]))
    ensures path[0] in tree && !tree[path[0]].Obj? && !tree[path[0]].Null? ==> Clashes(tree, path)
  {
    if path[0] in tree {
      var v := tree[path[0]];
      forall k | 0 < k < |path|
        ensures Lookup(Obj(tree), path[..k]) == Lookup(v, path[1..][..k - 1])
        ensures k > 1 && !v.Obj? ==> Lookup(Obj(tree), path[..k]) == None
      {
        assert path[..k][1..] == path[1..][..k - 1];
      }
      assert Lookup(Obj(tree), path[..1]) == Some(v);
      if v.Obj? && Clashes(v.members, path[1..]) {
        var k :| 0 < k < |path[1..]| && var u := Lookup(v, path[1..][..k]); u.Some? && !u.value.Obj? && !u.value.Null?;
        assert Lookup(Obj(tree), path[..k + 1]) == Lookup(v, path[1..][..k]);
      }
    }
  }

  /** Whether a field is sealed, skipped or refused is decided by what its path leads to. */
  lemma {:induction false} SealOutcomeIs(tree: Members, path: seq<string>, dek: nat, aad: string)
    requires path != []
    ensures var o := SealAt(tree, path, dek, aad);
            (o.Sealed? <==> Resolves(tree, path)) && (o.ShapeMismatch? <==> Clashes(tree, path))
    decreases |path|
  {
    if |path| > 1 {
      ClashStep(tree, path);
      if path[0] in tree {
        assert Lookup(Obj(tree), path) == Lookup(tree[path[0]], path[1..]);
        if tree[path[0]].Obj? { SealOutcomeIs(tree[path[0]].members, path[1..], dek, aad); }
      }
    } else if path[0] in tree {
      assert Lookup(Obj(tree), path) == Lookup(tree[path[0]], []);
    }
  }

  /** After sealing, the path holds the box of what was there, every path that leads elsewhere
      holds what it held, and nothing below the sealed field can be reached. */
  lemma {:induction false} SealedTree(tree: Members, path: seq<string>, dek: nat, aad: string, q: seq<string>)
    requires path != [] && SealAt(tree, path, dek, aad).Sealed?
    ensures var before, after := Obj(tree), Obj(SealAt(tree, path, dek, aad).tree);
            && Lookup(before, path).Some?
            && (q == path ==> Lookup(after, q) == Some(Str(Box(dek, aad, Lookup(before, path).value))))
            && (path < q ==> Lookup(after, q) == None)
            && (!(q <= path) && !(path <= q) ==> Lookup(after, q) == Lookup(before, q))
            && (q < path ==> Lookup(before, q).Some? && Lookup(before, q).value.Obj?
                             && Lookup(after, q).Some? && Lookup(after, q).value.Obj?)
    decreases |path|
  {
    SealOutcomeIs(tree, path, dek, aad);
    if q == [] {
    } else if |path| == 1 {
      assert path[1..] == [];
      if q[0] == path[0] { assert q[1..] == [] <==> q == path; }
    } else {
      SealedTree(tree[path[0]].members, path[1..], dek, aad, q[1..]);
      if q[0] == path[0] {
        assert q == [q[0]] + q[1..] && path == [path[0]] + path[1..];
        assert (q <= path <==> q[1..] <= path[1..]) && (path <= q <==> path[1..] <= q[1..]);
      }
    }
  }

  /** Unsealing undoes the seal exactly, whenever the reader accepts the sealer's binding. */
  lemma {:induction false} UnsealUndoesSeal(tree: Members, path: seq<string>, dek: nat, aad: string, aads: set<string>)
    requires path != [] && aad in aads && SealAt(tree, path, dek, aad).Sealed?
    ensures UnsealAt(SealAt(tree, path, dek, aad).tree, path, dek, aads) == Restored(tree)
    decreases |path|
  {
    var sealed := SealAt(tree, path, dek, aad).tree;
    if |path| == 1 {
      assert sealed[path[0] := tree[path[0]]] == tree;
    } else {
      UnsealUndoesSeal(tree[path[0]].members, path[1..], dek, aad, aads);
      assert sealed[path[0] := tree[path[0]]] == tree;
    }
  }

  // ---- All the fields of an event ----

  datatype SealedAll = AllSealed(tree: Members, names: seq<string>) | Refused(path: string)

  /** Seals the paths in the given order; the names are those that were sealed. */
  function SealAll(tree: Members, paths: seq<string>, dek: nat, stream: string): SealedAll {
    if paths == [] then AllSealed(tree, [])
    else
      match SealField(tree, paths[0], dek, stream)
      case Sealed(t) => Named([paths[0]], SealAll(t, paths[1..], dek, stream))
      case NothingThere => SealAll(tree, paths[1..], dek, stream)
      case ShapeMismatch => Refused(paths[0])
  }

  function Named(names: seq<string>, r: SealedAll): SealedAll {
    if r.AllSealed? then r.(names := names + r.names) else r
  }

  datatype UnsealedAll = AllRestored(tree: Members) | Failed(path: string, tampered: bool)

  /** Unseals the paths in the given order. */
  function UnsealAll(tree: Members, paths: seq<string>, dek: nat, stream: string): UnsealedAll {
    if paths == [] then AllRestored(tree)
    else
      match UnsealField(tree, paths[0], dek, stream)
      case Restored(t) => UnsealAll(t, paths[1..], dek, stream)
      case Tampered => Failed(paths[0], true)
      case NotOpened => Failed(paths[0], false)
  }

  lemma {:induction false} UnsealAllAppend(tree: Members, a: seq<string>, b: seq<string>, dek: nat, stream: string)
    ensures var first := UnsealAll(tree, a, dek, stream);
            first.AllRestored? ==> UnsealAll(tree, a + b, dek, stream) == UnsealAll(first.tree, b, dek, stream)
  {
    if a == [] {
      assert a + b == b;
    } else {
      assert (a + b)[1..] == a[1..] + b;
      match UnsealField(tree, a[0], dek, stream)
      case Restored(t) => UnsealAllAppend(t, a[1..], b, dek, stream);
      case _ =>
    }
  }

  /** Undoing the seals in the opposite order restores the tree. */
  lemma {:induction false} OppositeOrderRestores(tree: Members, paths: seq<string>, dek: nat, stream: string)
    requires SealAll(tree, paths, dek, stream).AllSealed?
    ensures var r := SealAll(tree, paths, dek, stream);
            UnsealAll(r.tree, Reverse(r.names), dek, stream) == AllRestored(tree)
  {
    if paths != [] {
      match SealField(tree, paths[0], dek, stream)
      case Sealed(t) =>
        OppositeOrderRestores(t, paths[1..], dek, stream);
        var rest := SealAll(t, paths[1..], dek, stream);
        UnsealAllAppend(rest.tree, Reverse(rest.names), [paths[0]], dek, stream);
        UnsealUndoesSeal(tree, Segments(paths[0]), dek, FieldAAD(stream, paths[0]), AcceptedAADs(stream, paths[0], Leaf(paths[0])));
        assert ([paths[0]] + rest.names)[1..] == rest.names;
      case NothingThere =>
        OppositeOrderRestores(tree, paths[1..], dek, stream);
    }
  }

  // ---- Which fields are sealed ----

  /** The paths that lead to a value, in order. */
  ghost function Resolving(tree: Members, paths: seq<string>): seq<string> {
    if paths == [] then []
    else (if Resolves(tree, Segments(paths[0])) then [paths[0]] else []) + Resolving(tree, paths[1..])
  }

  ghost predicate NoClash(tree: Members, paths: seq<string>) {
    forall i :: 0 <= i < |paths| ==> !Clashes(tree, Segments(paths[i]))
  }

  /** Sealing a path never changes the fate of one that is not deeper. */
  lemma SealKeepsFates(tree: Members, path: seq<string>, dek: nat, aad: string, q: seq<string>)
    requires path != [] && SealAt(tree, path, dek, aad).Sealed? && |q| <= |path|
    ensures var after := SealAt(tree, path, dek, aad).tree;
            (Resolves(after, q) <==> Resolves(tree, q)) && (Clashes(after, q) <==> Clashes(tree, q))
  {
    var after := SealAt(tree, path, dek, aad).tree;
    SealedTree(tree, path, dek, aad, q);
    assert path <= q ==> q == path;
    forall k | 0 < k < |q|
      ensures var v, u := Lookup(Obj(tree), q[..k]), Lookup(Obj(after), q[..k]);
              v == u || (v.Some? && v.value.Obj? && u.Some? && u.value.Obj?)
    {
      SealedTree(tree, path, dek, aad, q[..k]);
    }
    if Clashes(tree, q) {
      var k :| 0 < k < |q| && var v := Lookup(Obj(tree), q[..k]); v.Some? && !v.value.Obj? && !v.value.Null?;
      assert Lookup(Obj(after), q[..k]) == Lookup(Obj(tree), q[..k]);
    }
    if Clashes(after, q) {
      var k :| 0 < k < |q| && var v := Lookup(Obj(after), q[..k]); v.Some? && !v.value.Obj? && !v.value.Null?;
      assert Lookup(Obj(after), q[..k]) == Lookup(Obj(tree), q[..k]);
    }
  }

  ghost predicate NoDeeperThan(paths: seq<string>, depth: nat) {
    forall i :: 0 <= i < |paths| ==> FieldDepth(paths[i]) <= depth
  }

  lemma {:induction false} SealKeepsAllFates(tree: Members, path: string, dek: nat, stream: string, paths: seq<string>)
    requires SealField(tree, path, dek, stream).Sealed? && NoDeeperThan(paths, FieldDepth(path))
    ensures var after := SealField(tree, path, dek, stream).tree;
            Resolving(after, paths) == Resolving(tree, paths) && (NoClash(after, paths) <==> NoClash(tree, paths))
  {
    DepthCountsSegments(path);
    forall i | 0 <= i < |paths|
      ensures var q, after := Segments(paths[i]), SealField(tree, path, dek, stream).tree;
              (Resolves(after, q) <==> Resolves(tree, q)) && (Clashes(after, q) <==> Clashes(tree, q))
    {
      DepthCountsSegments(paths[i]);
      SealKeepsFates(tree, Segments(path), dek, FieldAAD(stream, path), Segments(paths[i]));
    }
    if paths != [] {
      SealKeepsAllFates(tree, path, dek, stream, paths[1..]);
    }
  }

  /** Sealing deepest first, the outcome is readable off the original tree: it succeeds exactly
      when no path runs into a parent of the wrong shape, and then seals exactly the paths that
      lead to a value there. */
  lemma {:induction false} SealedAreTheResolving(tree: Members, paths: seq<string>, dek: nat, stream: string)
    requires Ordered(paths, true)
    ensures var r := SealAll(tree, paths, dek, stream);
            && (r.AllSealed? <==> NoClash(tree, paths))
            && (r.AllSealed? ==> r.names == Resolving(tree, paths))
  {
    if paths != [] {
      var p, rest := paths[0], paths[1..];
      SealOutcomeIs(tree, Segments(p), dek, FieldAAD(stream, p));
      NoClashStep(tree, paths);
      forall i | 0 <= i < |rest|
        ensures FieldDepth(rest[i]) <= FieldDepth(p)
      {
        HeadComesFirst(paths, true, rest[i]);
      }
      match SealField(tree, p, dek, stream)
      case Sealed(t) =>
        SealKeepsAllFates(tree, p, dek, stream, rest);
        SealedAreTheResolving(t, rest, dek, stream);
      case NothingThere =>
        SealedAreTheResolving(tree, rest, dek, stream);
      case ShapeMismatch =>
    }
  }

  /** How many boxes a value is wrapped in. */
  function BoxDepth(v: Json): nat {
    if v.Str? && v.str.Box? then BoxDepth(v.str.sealed) + 1 else 0
  }

  lemma SealNeverUnwraps(tree: Members, path: seq<string>, dek: nat, aad: string, q: seq<string>)
    requires path != [] && SealAt(tree, path, dek, aad).Sealed? && |q| <= |path| && Resolves(SealAt(tree, path, dek, aad).tree, q)
    ensures Resolves(tree, q)
    ensures var before, after := Lookup(Obj(tree), q).value, Lookup(Obj(SealAt(tree, path, dek, aad).tree), q).value;
            BoxDepth(before) + (if q == path then 1 else 0) <= BoxDepth(after)
  {
    hide SealAt;
    SealedTree(tree, path, dek, aad, q);
    assert path <= q ==> q == path;
    if q == path { assert BoxDepth(Str(Box(dek, aad, Lookup(Obj(tree), q).value))) == BoxDepth(Lookup(Obj(tree), q).value) + 1; }
  }

  /** Sealing shows: the value at the last path sealed is wrapped deeper than before. */
  lemma {:induction false} SealingShows(tree: Members, paths: seq<string>, dek: nat, stream: string) returns (last: string)
    requires Ordered(paths, true) && SealAll(tree, paths, dek, stream).AllSealed? && SealAll(tree, paths, dek, stream).names != []
    ensures var r, q := SealAll(tree, paths, dek, stream), Segments(last);
            && last in paths && Resolves(tree, q) && Resolves(r.tree, q)
            && BoxDepth(Lookup(Obj(tree), q).value) < BoxDepth(Lookup(Obj(r.tree), q).value)
            && r.tree != tree
    decreases |paths|
  {
    hide SealAt, Lookup, BoxDepth;
    var p, rest := paths[0], paths[1..];
    match SealField(tree, p, dek, stream)
    case NothingThere => last := SealingShows(tree, rest, dek, stream);
    case Sealed(t) =>
      if SealAll(t, rest, dek, stream).names == [] {
        last := p;
        NothingSealed(t, rest, dek, stream);
        SealedTree(tree, Segments(p), dek, FieldAAD(stream, p), Segments(p));
        SealNeverUnwraps(tree, Segments(p), dek, FieldAAD(stream, p), Segments(p));
      } else {
        last := SealingShows(t, rest, dek, stream);
        HeadComesFirst(paths, true, last);
        DepthCountsSegments(p);
        DepthCountsSegments(last);
        SealNeverUnwraps(tree, Segments(p), dek, FieldAAD(stream, p), Segments(last));
      }
  }

  lemma {:induction false} NothingSealed(tree: Members, paths: seq<string>, dek: nat, stream: string)
    requires SealAll(tree, paths, dek, stream).AllSealed? && SealAll(tree, paths, dek, stream).names == []
    ensures SealAll(tree, paths, dek, stream).tree == tree
  {
    if paths != [] && SealField(tree, paths[0], dek, stream).NothingThere? { NothingSealed(tree, paths[1..], dek, stream); }
  }

  lemma NoClashStep(tree: Members, paths: seq<string>)
    requires paths != []
    ensures NoClash(tree, paths) <==> !Clashes(tree, Segments(paths[0])) && NoClash(tree, paths[1..])
  {
    assert forall i :: 0 < i < |paths| ==> paths[i] == paths[1..][i - 1];
  }

  // ---- The recorded order does not matter ----

  /** Two different paths of equal depth can be unsealed in either order. */
  lemma {:induction false} UnsealsCommute(tree: Members, p: seq<string>, q: seq<string>, dek: nat, a: set<string>, b: set<string>)
    requires p != [] && |p| == |q| && p != q
    requires UnsealAt(tree, p, dek, a).Restored? && UnsealAt(UnsealAt(tree, p, dek, a).tree, q, dek, b).Restored?
    ensures UnsealAt(tree, q, dek, b).Restored?
    ensures UnsealAt(UnsealAt(tree, q, dek, b).tree, p, dek, a) == UnsealAt(UnsealAt(tree, p, dek, a).tree, q, dek, b)
    decreases |p|
  {
    var t := UnsealAt(tree, p, dek, a).tree;
    if p[0] == q[0] {
      assert |p| > 1 && p[1..] != q[1..] by {
        assert p == [p[0]] + p[1..] && q == [q[0]] + q[1..];
      }
      UnsealsCommute(tree[p[0]].members, p[1..], q[1..], dek, a, b);
    } else {
      assert t[q[0]] == tree[q[0]];
      assert UnsealAt(UnsealAt(tree, q, dek, b).tree, p, dek, a).tree == UnsealAt(t, q, dek, b).tree;
    }
  }

  /** A path none of whose predecessors in the list is shallower may as well be unsealed first. */
  lemma {:induction false} UnsealFirst(tree: Members, paths: seq<string>, i: nat, dek: nat, stream: string)
    requires i < |paths| && forall j :: 0 <= j < i ==> FieldDepth(paths[j]) == FieldDepth(paths[i]) && paths[j] != paths[i]
    requires UnsealAll(tree, [paths[i]] + (paths[..i] + paths[i + 1..]), dek, stream).AllRestored?
    ensures UnsealAll(tree, paths, dek, stream) == UnsealAll(tree, [paths[i]] + (paths[..i] + paths[i + 1..]), dek, stream)
  {
    var p, others := paths[i], paths[..i] + paths[i + 1..];
    assert ([p] + others)[1..] == others;
    if i == 0 {
      assert [p] + others == paths;
    } else {
      var q := paths[0];
      DepthCountsSegments(p);
      DepthCountsSegments(q);
      SegmentsAreInjective(p, q);
      UnsealsCommute(tree, Segments(p), Segments(q), dek, AcceptedAADs(stream, p, Leaf(p)), AcceptedAADs(stream, q, Leaf(q)));
      var u := UnsealField(tree, q, dek, stream).tree;
      var rest := paths[1..];
      assert others[1..] == rest[..i - 1] + rest[i..];
      assert ([rest[i - 1]] + (rest[..i - 1] + rest[i..]))[1..] == rest[..i - 1] + rest[i..];
      UnsealFirst(u, rest, i - 1, dek, stream);
    }
  }

  lemma {:induction false} OrderedDropped(paths: seq<string>, i: nat)
    requires Ordered(paths, false) && i < |paths|
    ensures Ordered(paths[..i] + paths[i + 1..], false)
  {
    var others := paths[..i] + paths[i + 1..];
    if i == 0 {
      assert others == paths[1..];
    } else {
      OrderedDropped(paths[1..], i - 1);
      assert others[1..] == paths[1..][..i - 1] + paths[1..][i..];
      if |others| > 1 {
        assert others[1] in paths[1..];
        HeadComesFirst(paths, false, others[1]);
      }
    }
  }

  lemma FirstOccurrence(paths: seq<string>, p: string) returns (i: nat)
    requires p in paths
    ensures i < |paths| && paths[i] == p && forall j :: 0 <= j < i ==> paths[j] != p
  {
    i := 0;
    while paths[i] != p
      invariant i < |paths| && p !in paths[..i]
      decreases |paths| - i
    {
      i := i + 1;
    }
  }

  /** In a depth-ordered arrangement of the same paths, the other arrangement's head comes after
      paths of its own depth only. */
  lemma HeadIsAmongTheShallowest(a: seq<string>, b: seq<string>, i: nat)
    requires Ordered(a, false) && Ordered(b, false) && multiset(a) == multiset(b)
    requires a != [] && i < |b| && b[i] == a[0]
    ensures forall j :: 0 <= j < i ==> FieldDepth(b[j]) == FieldDepth(a[0])
  {
    forall j | 0 <= j < i
      ensures FieldDepth(b[j]) == FieldDepth(a[0])
    {
      assert b[j] in multiset(a);
      HeadComesFirst(a, false, b[j]);
      OrderedSuffix(b, j);
      assert b[j..][i - j] == a[0];
      HeadComesFirst(b[j..], false, a[0]);
    }
  }

  /** Any two depth-ordered arrangements of the same paths unseal to the same tree. */
  lemma {:induction false} AnyDepthOrderUnseals(tree: Members, a: seq<string>, b: seq<string>, dek: nat, stream: string)
    requires Ordered(a, false) && Ordered(b, false) && multiset(a) == multiset(b)
    requires UnsealAll(tree, a, dek, stream).AllRestored?
    ensures UnsealAll(tree, b, dek, stream) == UnsealAll(tree, a, dek, stream)
    decreases |a|
  {
    if a == [] {
      assert |multiset(b)| == 0;
    } else {
      assert a[0] in multiset(b);
      var i := FirstOccurrence(b, a[0]);
      var others := b[..i] + b[i + 1..];
      SameRest(a, b, i);
      OrderedDropped(b, i);
      AnyDepthOrderUnseals(UnsealField(tree, a[0], dek, stream).tree, a[1..], others, dek, stream);
      assert ([a[0]] + others)[1..] == others;
      HeadIsAmongTheShallowest(a, b, i);
      UnsealFirst(tree, b, i, dek, stream);
    }
  }

  lemma SameRest(a: seq<string>, b: seq<string>, i: nat)
    requires multiset(a) == multiset(b) && a != [] && i < |b| && b[i] == a[0]
    ensures multiset(a[1..]) == multiset(b[..i] + b[i + 1..])
  {
    assert a == [a[0]] + a[1..];
    assert b == b[..i] + [b[i]] + b[i + 1..];
    assert multiset(b) == multiset(b[..i]) + multiset{a[0]} + multiset(b[i + 1..]);
    assert multiset(a) == multiset{a[0]} + multiset(a[1..]);
    var rest := multiset(b[..i]) + multiset(b[i + 1..]);
    assert multiset(b) == multiset{a[0]} + rest;
    assert multiset(a[1..]) == multiset(a) - multiset{a[0]};
    assert rest == multiset(b) - multiset{a[0]};
  }

  lemma {:induction false} OrderedSuffix(paths: seq<string>, j: nat)
    requires Ordered(paths, false) && j <= |paths|
    ensures Ordered(paths[j..], false)
  {
    if j > 0 {
      OrderedSuffix(paths[1..], j - 1);
      assert paths[1..][j - 1..] == paths[j..];
    }
  }

  lemma {:induction false} SealedNamesAreOrdered(tree: Members, paths: seq<string>, dek: nat, stream: string)
    requires Ordered(paths, true) && SealAll(tree, paths, dek, stream).AllSealed?
    ensures var names := SealAll(tree, paths, dek, stream).names;
            Ordered(names, true) && forall n :: n in names ==> n in paths
  {
    if paths != [] {
      match SealField(tree, paths[0], dek, stream)
      case Sealed(t) =>
        SealedNamesAreOrdered(t, paths[1..], dek, stream);
        var rest := SealAll(t, paths[1..], dek, stream).names;
        if rest != [] {
          assert rest[0] in paths[1..];
          HeadComesFirst(paths, true, rest[0]);
        }
      case NothingThere =>
        SealedNamesAreOrdered(tree, paths[1..], dek, stream);
    }
  }

  /** The round trip. Seal any list of paths (nested, overlapping, even repeated) deepest first;
      then unsealing the recorded names shallowest first restores the tree, in whatever order
      the names were recorded. */
  lemma SealUnsealRoundTrip(tree: Members, paths: seq<string>, recorded: seq<string>, dek: nat, stream: string)
    requires SealAll(tree, OrderByDepth(paths, true), dek, stream).AllSealed?
    requires multiset(recorded) == multiset(SealAll(tree, OrderByDepth(paths, true), dek, stream).names)
    ensures UnsealAll(SealAll(tree, OrderByDepth(paths, true), dek, stream).tree, OrderByDepth(recorded, false), dek, stream)
         == AllRestored(tree)
  {
    var ordered := OrderByDepth(paths, true);
    var r := SealAll(tree, ordered, dek, stream);
    OrderByDepthOrders(paths, true);
    SealedNamesAreOrdered(tree, ordered, dek, stream);
    ReverseOrders(r.names);
    OrderByDepthOrders(recorded, false);
    OppositeOrderRestores(tree, ordered, dek, stream);
    AnyDepthOrderUnseals(r.tree, Reverse(r.names), OrderByDepth(recorded, false), dek, stream);
  }

  // ---- No sealed value stays readable ----

  /** Nothing but a box, or nothing at all, is found at the path. */
  ghost predicate Hidden(tree: Members, path: seq<string>) {
    var v := Lookup(Obj(tree), path);
    v == None || (v.value.Str? && v.value.str.Box?)
  }

  lemma SealKeepsHidden(tree: Members, path: seq<string>, dek: nat, aad: string, q: seq<string>)
    requires path != [] && SealAt(tree, path, dek, aad).Sealed? && Hidden(tree, q)
    ensures Hidden(SealAt(tree, path, dek, aad).tree, q)
  {
    SealedTree(tree, path, dek, aad, q);
  }

  lemma {:induction false} LaterSealsKeepHidden(tree: Members, paths: seq<string>, dek: nat, stream: string, q: seq<string>)
    requires SealAll(tree, paths, dek, stream).AllSealed? && Hidden(tree, q)
    ensures Hidden(SealAll(tree, paths, dek, stream).tree, q)
  {
    if paths != [] {
      match SealField(tree, paths[0], dek, stream)
      case Sealed(t) =>
        SealKeepsHidden(tree, Segments(paths[0]), dek, FieldAAD(stream, paths[0]), q);
        LaterSealsKeepHidden(t, paths[1..], dek, stream, q);
      case NothingThere =>
        LaterSealsKeepHidden(tree, paths[1..], dek, stream, q);
    }
  }

  /** In the stored tree no configured path shows a value: it leads to a box or to nothing. */
  lemma {:induction false} EveryConfiguredPathIsHidden(tree: Members, paths: seq<string>, dek: nat, stream: string, i: nat)
    requires SealAll(tree, paths, dek, stream).AllSealed? && i < |paths|
    ensures Hidden(SealAll(tree, paths, dek, stream).tree, Segments(paths[i]))
  {
    var p, rest := paths[0], paths[1..];
    SealOutcomeIs(tree, Segments(p), dek, FieldAAD(stream, p));
    var t := match SealField(tree, p, dek, stream) case Sealed(t) => t case _ => tree;
    if i > 0 {
      EveryConfiguredPathIsHidden(t, rest, dek, stream, i - 1);
    } else {
      if SealField(tree, p, dek, stream).Sealed? { SealedTree(tree, Segments(p), dek, FieldAAD(stream, p), Segments(p)); }
      LaterSealsKeepHidden(t, rest, dek, stream, Segments(p));
    }
  }
}
