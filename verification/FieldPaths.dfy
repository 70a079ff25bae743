/** Dotted field paths: their segments, their validity, and the depth order in which the
    fields of an event are sealed and unsealed. */
module FieldPaths {
  import opened Events

  /** A path split at its dots. A path without dots is its own single segment. */
  function Segments(path: string): (segments: seq<string>)
    ensures segments != []
    decreases |path|
  {
    var i := IndexOf(path, '.');
    if i == |path| then [path] else [path[..i]] + Segments(path[i + 1..])
  }

  function Join(segments: seq<string>): string
    requires segments != []
  {
    if |segments| == 1 then segments[0] else segments[0] + "." + Join(segments[1..])
  }

  function Leaf(path: string): string {
    Segments(path)[|Segments(path)| - 1]
  }

  /** Splitting loses nothing, so different paths have different segments. */
  lemma {:induction false} JoinSegments(path: string)
    ensures Join(Segments(path)) == path
    decreases |path|
  {
    var i := IndexOf(path, '.');
    if i < |path| {
      JoinSegments(path[i + 1..]);
      assert Segments(path)[1..] == Segments(path[i + 1..]);
      assert path == path[..i] + "." + path[i + 1..];
    }
  }

  lemma SegmentsAreInjective(p: string, q: string)
    ensures Segments(p) == Segments(q) ==> p == q
  {
    JoinSegments(p);
    JoinSegments(q);
  }

  function CountDots(s: string): nat {
    if s == "" then 0 else (if s[0] == '.' then 1 else 0) + CountDots(s[1..])
  }

  function FieldDepth(path: string): nat {
    CountDots(path) + 1
  }

  lemma {:induction false} FirstDot(s: string, i: nat)
    requires i < |s| && s[i] == '.' && forall j :: 0 <= j < i ==> s[j] != '.'
    ensures CountDots(s) == 1 + CountDots(s[i + 1..])
  {
    if i > 0 {
      FirstDot(s[1..], i - 1);
      assert s[1..][i..] == s[i + 1..];
    }
  }

  lemma {:induction false} NoDots(s: string)
    requires forall j :: 0 <= j < |s| ==> s[j] != '.'
    ensures CountDots(s) == 0
  {
    if s != "" { NoDots(s[1..]); }
  }

  /** Counting dots is counting segments. */
  lemma {:induction false} DepthCountsSegments(path: string)
    ensures FieldDepth(path) == |Segments(path)|
    decreases |path|
  {
    var i := IndexOf(path, '.');
    if i < |path| {
      FirstDot(path, i);
      DepthCountsSegments(path[i + 1..]);
    } else {
      NoDots(path);
    }
  }

  /** Well formed: not empty and without an empty segment. */
  predicate ValidFieldPath(path: string) {
    path != "" && forall i :: 0 <= i < |Segments(path)| ==> Segments(path)[i] != ""
  }

  /** No dot at either end, and no two in a row. */
  ghost predicate DotsApart(path: string) {
    && path != "" && path[0] != '.' && path[|path| - 1] != '.'
    && forall i :: 0 < i < |path| && path[i] == '.' ==> path[i - 1] != '.'
  }

  lemma DotsApartStep(path: string, i: nat)
    requires i < |path| && path[i] == '.' && forall j :: 0 <= j < i ==> path[j] != '.'
    ensures DotsApart(path) <==> i > 0 && DotsApart(path[i + 1..])
  {
    var rest := path[i + 1..];
    assert forall k :: 0 <= k < |rest| ==> rest[k] == path[i + 1 + k];
    if DotsApart(path) {
      assert path[|path| - 1] != '.';
      assert rest[|rest| - 1] == path[|path| - 1];
      assert path[i + 1] != '.';
      forall k | 0 < k < |rest| && rest[k] == '.'
        ensures rest[k - 1] != '.'
      {
        assert path[i + 1 + k] == '.';
      }
    }
    if i > 0 && DotsApart(rest) {
      assert rest[|rest| - 1] == path[|path| - 1];
      forall k | 0 < k < |path| && path[k] == '.'
        ensures path[k - 1] != '.'
      {
        if k > i { assert rest[k - i - 1] == '.'; }
      }
    }
  }

  /** So a path is well formed exactly if it is not empty and has no dot at an end or beside another. */
  lemma {:induction false} ValidPathMeans(path: string)
    ensures ValidFieldPath(path) <==> DotsApart(path)
    decreases |path|
  {
    hide DotsApart;
    var i := IndexOf(path, '.');
    if i < |path| {
      var rest := path[i + 1..];
      ValidPathMeans(rest);
      DotsApartStep(path, i);
      assert Segments(path) == [path[..i]] + Segments(rest);
      NoneEmptyStep(path[..i], Segments(rest));
      assert rest == "" ==> Segments(rest) == [""];
      assert rest == "" ==> Segments(rest)[0] == "";
      assert ValidFieldPath(path) <==> path[..i] != "" && ValidFieldPath(rest);
    } else {
      assert Segments(path) == [path];
      NoDotsApart(path);
    }
  }

  lemma NoneEmptyStep(head: string, tail: seq<string>)
    ensures (forall i :: 0 <= i < |[head] + tail| ==> ([head] + tail)[i] != "") <==> head != "" && forall i :: 0 <= i < |tail| ==> tail[i] != ""
  {
    var all := [head] + tail;
    if forall i :: 0 <= i < |all| ==> all[i] != "" {
      assert all[0] == head;
      forall i | 0 <= i < |tail| ensures tail[i] != "" { assert all[i + 1] == tail[i]; }
    }
  }

  lemma NoDotsApart(path: string)
    requires forall j :: 0 <= j < |path| ==> path[j] != '.'
    ensures DotsApart(path) <==> path != ""
  {
  }

  // ---- Depth order ----

  /** `p` must come strictly before `q`. */
  predicate Before(p: string, q: string, deepestFirst: bool) {
    if deepestFirst then FieldDepth(p) > FieldDepth(q) else FieldDepth(p) < FieldDepth(q)
  }

  predicate Ordered(paths: seq<string>, deepestFirst: bool) {
    |paths| < 2 || (!Before(paths[1], paths[0], deepestFirst) && Ordered(paths[1..], deepestFirst))
  }

  /** Puts a path in front of the first path it need not follow. */
  function Insert(p: string, paths: seq<string>, deepestFirst: bool): (r: seq<string>)
    ensures multiset(r) == multiset{p} + multiset(paths)
  {
    if paths == [] || !Before(paths[0], p, deepestFirst) then [p] + paths
    else
      assert paths == [paths[0]] + paths[1..];
      [paths[0]] + Insert(p, paths[1..], deepestFirst)
  }

  /** The stable sort by depth. */
  function OrderByDepth(paths: seq<string>, deepestFirst: bool): (r: seq<string>)
    ensures multiset(r) == multiset(paths)
  {
    if paths == [] then []
    else
      assert paths == [paths[0]] + paths[1..];
      Insert(paths[0], OrderByDepth(paths[1..], deepestFirst), deepestFirst)
  }

  lemma {:induction false} InsertOrders(p: string, paths: seq<string>, deepestFirst: bool)
    requires Ordered(paths, deepestFirst)
    ensures Ordered(Insert(p, paths, deepestFirst), deepestFirst)
  {
    if paths != [] && Before(paths[0], p, deepestFirst) {
      InsertOrders(p, paths[1..], deepestFirst);
    }
  }

  lemma {:induction false} OrderByDepthOrders(paths: seq<string>, deepestFirst: bool)
    ensures Ordered(OrderByDepth(paths, deepestFirst), deepestFirst)
  {
    if paths != [] {
      OrderByDepthOrders(paths[1..], deepestFirst);
      InsertOrders(paths[0], OrderByDepth(paths[1..], deepestFirst), deepestFirst);
    }
  }

  function AtDepth(paths: seq<string>, depth: nat): seq<string> {
    if paths == [] then []
    else (if FieldDepth(paths[0]) == depth then [paths[0]] else []) + AtDepth(paths[1..], depth)
  }

  /** The sort is stable: paths of one depth keep their given order. */
  lemma {:induction false} OrderByDepthIsStable(paths: seq<string>, deepestFirst: bool, depth: nat)
    ensures AtDepth(OrderByDepth(paths, deepestFirst), depth) == AtDepth(paths, depth)
  {
    if paths != [] {
      OrderByDepthIsStable(paths[1..], deepestFirst, depth);
      InsertAtDepth(paths[0], OrderByDepth(paths[1..], deepestFirst), deepestFirst, depth);
    }
  }

  function IfAtDepth(p: string, depth: nat): seq<string> {
    if FieldDepth(p) == depth then [p] else []
  }

  lemma AtDepthCons(p: string, paths: seq<string>, depth: nat)
    ensures AtDepth([p] + paths, depth) == IfAtDepth(p, depth) + AtDepth(paths, depth)
  {
    hide FieldDepth;
    assert ([p] + paths)[1..] == paths;
  }

  /** Paths of different depths never both show. */
  lemma DepthsApart(p: string, q: string, deepestFirst: bool, depth: nat)
    requires Before(q, p, deepestFirst)
    ensures IfAtDepth(p, depth) == [] || IfAtDepth(q, depth) == []
  {
    hide FieldDepth;
  }

  lemma {:induction false} InsertAtDepth(p: string, paths: seq<string>, deepestFirst: bool, depth: nat)
    ensures AtDepth(Insert(p, paths, deepestFirst), depth) == AtDepth([p] + paths, depth)
  {
    hide FieldDepth, AtDepth, IfAtDepth, Before;
    if paths != [] && Before(paths[0], p, deepestFirst) {
      var q, rest := paths[0], paths[1..];
      InsertAtDepth(p, rest, deepestFirst, depth);
      assert paths == [q] + rest;
      AtDepthCons(q, rest, depth);
      AtDepthCons(p, rest, depth);
      AtDepthCons(p, paths, depth);
      AtDepthCons(q, Insert(p, rest, deepestFirst), depth);
      DepthsApart(p, q, deepestFirst, depth);
      Swapped(IfAtDepth(p, depth), IfAtDepth(q, depth), AtDepth(rest, depth));
    }
  }

  lemma Swapped(a: seq<string>, b: seq<string>, rest: seq<string>)
    requires a == [] || b == []
    ensures a + (b + rest) == b + (a + rest)
  {
    if a == [] { assert a + (b + rest) == b + rest && a + rest == rest; } else { assert b + rest == rest && b + (a + rest) == a + rest; }
  }

  /** A list without nested paths is already in order, either way. */
  lemma {:induction false} FlatListsAreOrdered(paths: seq<string>, deepestFirst: bool)
    requires forall i :: 0 <= i < |paths| ==> IndexOf(paths[i], '.') == |paths[i]|
    ensures OrderByDepth(paths, deepestFirst) == paths
  {
    if paths != [] {
      FlatListsAreOrdered(paths[1..], deepestFirst);
      NoDots(paths[0]);
      if |paths| > 1 { NoDots(paths[1]); }
    }
  }

  /** Nothing in an ordered list has to come before its head. */
  lemma {:induction false} HeadComesFirst(paths: seq<string>, deepestFirst: bool, p: string)
    requires Ordered(paths, deepestFirst) && p in paths
    ensures !Before(p, paths[0], deepestFirst)
  {
    if p != paths[0] { HeadComesFirst(paths[1..], deepestFirst, p); }
  }

  function Reverse(paths: seq<string>): (r: seq<string>)
    ensures multiset(r) == multiset(paths)
  {
    if paths == [] then []
    else
      assert paths == [paths[0]] + paths[1..];
      Reverse(paths[1..]) + [paths[0]]
  }

  /** Sealing order reversed is unsealing order. */
  lemma {:induction false} ReverseOrders(paths: seq<string>)
    requires Ordered(paths, true)
    ensures Ordered(Reverse(paths), false)
  {
    if |paths| > 1 {
      ReverseOrders(paths[1..]);
      forall q | q in Reverse(paths[1..])
        ensures FieldDepth(q) <= FieldDepth(paths[0])
      {
        assert q in multiset(paths[1..]);
        assert q in paths;
        HeadComesFirst(paths, true, q);
      }
      OrderedSnoc(Reverse(paths[1..]), paths[0]);
    }
  }

  lemma {:induction false} OrderedSnoc(paths: seq<string>, p: string)
    requires Ordered(paths, false) && forall q :: q in paths ==> FieldDepth(q) <= FieldDepth(p)
    ensures Ordered(paths + [p], false)
  {
    if paths != [] {
      OrderedSnoc(paths[1..], p);
      assert (paths + [p])[1..] == paths[1..] + [p];
    }
  }
}
