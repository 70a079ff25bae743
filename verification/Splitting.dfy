/** Texts joined by a separator come apart again in one way only. */
module Splitting {
  lemma {:induction false} SplitAtSeparator<T>(s: seq<T>, p: seq<T>, t: seq<T>, q: seq<T>, separator: T)
    requires separator !in s && separator !in t
    requires s + [separator] + p == t + [separator] + q
    ensures s == t && p == q
  {
    var a, b := s + [separator] + p, t + [separator] + q;
    assert a[0] == if s == [] then separator else s[0];
    assert b[0] == if t == [] then separator else t[0];
    if s != [] && t != [] {
      assert a[1..] == s[1..] + [separator] + p && b[1..] == t[1..] + [separator] + q;
      SplitAtSeparator(s[1..], p, t[1..], q, separator);
      assert s == [s[0]] + s[1..] && t == [t[0]] + t[1..];
    } else {
      assert a[1..] == p && b[1..] == q;
    }
  }
}
