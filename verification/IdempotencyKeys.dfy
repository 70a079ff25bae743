/** The bounded, injective key the idempotency middleware hands to its store, and the
    UTF-8-safe truncation that bound rests on. */
module IdempotencyKeys {
  import opened Splitting

  type Byte = b: int | 0 <= b < 256

  type Bytes = seq<Byte>

  // ---- UTF-8 (sections 3 and 4 of RFC 3629) ----

  predicate RuneStart(b: Byte) {
    !(0x80 <= b <= 0xBF)
  }

  predicate Tail(s: Bytes, i: nat) {
    i < |s| && 0x80 <= s[i] <= 0xBF
  }

  /** The length of the well-formed character the bytes start with; 0 if there is none. */
  function RuneLength(s: Bytes): (n: nat)
    ensures n <= 4 && n <= |s|
  {
    if s == [] then 0
    else if s[0] <= 0x7F then 1
    else if 0xC2 <= s[0] <= 0xDF then if Tail(s, 1) then 2 else 0
    else if 0xE0 <= s[0] <= 0xEF then
      if Tail(s, 1) && Tail(s, 2) && (s[0] == 0xE0 ==> s[1] >= 0xA0) && (s[0] == 0xED ==> s[1] <= 0x9F) then 3 else 0
    else if 0xF0 <= s[0] <= 0xF4 then
      if Tail(s, 1) && Tail(s, 2) && Tail(s, 3) && (s[0] == 0xF0 ==> s[1] >= 0x90) && (s[0] == 0xF4 ==> s[1] <= 0x8F) then 4 else 0
    else 0
  }

  predicate ValidUTF8(s: Bytes) {
    s == [] || (RuneLength(s) > 0 && ValidUTF8(s[RuneLength(s)..]))
  }

  /** The first byte of a character starts a rune and the others do not. */
  lemma RuneShape(s: Bytes, i: nat)
    requires i < RuneLength(s)
    ensures RuneStart(s[i]) <==> i == 0
  {
  }

  /** Cutting valid text at a rune start leaves valid text. */
  lemma {:induction false} CutAtRuneStart(s: Bytes, i: nat)
    requires ValidUTF8(s) && i < |s| && RuneStart(s[i])
    ensures ValidUTF8(s[..i])
    decreases |s|
  {
    var n := RuneLength(s);
    if i < n {
      RuneShape(s, i);
    } else {
      CutAtRuneStart(s[n..], i - n);
      assert s[..i][n..] == s[n..][..i - n];
      assert RuneLength(s[..i]) == n;
    }
  }

  /** A rune starts at or at most three bytes before every position of valid text. */
  lemma {:induction false} RuneStartsNearby(s: Bytes, i: nat)
    requires ValidUTF8(s) && i < |s|
    ensures exists j :: 0 <= j <= i && i - j <= 3 && RuneStart(s[j])
    decreases |s|
  {
    var n := RuneLength(s);
    if i < n {
      RuneShape(s, 0);
      assert RuneStart(s[0]);
    } else {
      RuneStartsNearby(s[n..], i - n);
      var j :| 0 <= j <= i - n && i - n - j <= 3 && RuneStart(s[n..][j]);
      assert RuneStart(s[n + j]);
    }
  }

  /** `cut` is where truncation to `maxBytes` cuts: the last rune start at or before the limit. */
  ghost predicate CutPoint(s: Bytes, maxBytes: int, cut: nat) {
    if |s| <= maxBytes then cut == |s|
    else if maxBytes <= 0 then cut == 0
    else cut <= maxBytes && (cut > 0 ==> RuneStart(s[cut])) && forall j :: cut < j <= maxBytes ==> !RuneStart(s[j])
  }

  function Truncated(s: Bytes, maxBytes: int): (r: Bytes)
    ensures |r| <= |s| && r == s[..|r|] && CutPoint(s, maxBytes, |r|)
  {
    if |s| <= maxBytes then assert s[..|s|] == s; s
    else if maxBytes <= 0 then []
    else s[..LastRuneStart(s, maxBytes)]
  }

  function LastRuneStart(s: Bytes, cut: nat): (r: nat)
    requires cut < |s|
    ensures r <= cut && (r > 0 ==> RuneStart(s[r])) && forall j :: r < j <= cut ==> !RuneStart(s[j])
  {
    if cut > 0 && !RuneStart(s[cut]) then LastRuneStart(s, cut - 1) else cut
  }

  method TruncateUTF8Bytes(s: Bytes, maxBytes: int) returns (r: Bytes)
    ensures r == Truncated(s, maxBytes)
  {
    if |s| <= maxBytes { return s; }
    if maxBytes <= 0 { return []; }
    var cut := maxBytes;
    while cut > 0 && !RuneStart(s[cut])
      invariant 0 <= cut <= maxBytes
      invariant LastRuneStart(s, cut) == LastRuneStart(s, maxBytes)
    {
      cut := cut - 1;
    }
    r := s[..cut];
  }

  /** A Unicode scalar value: any code point but a surrogate. */
  predicate Scalar(c: nat) {
    c <= 0x10FFFF && !(0xD800 <= c <= 0xDFFF)
  }

  /** Its UTF-8 form (section 3 of RFC 3629). */
  function Encoded(c: nat): Bytes
    requires Scalar(c)
  {
    if c < 0x80 then [c]
    else if c < 0x800 then [0xC0 + c / 64, 0x80 + c % 64]
    else if c < 0x1_0000 then [0xE0 + c / 4096, 0x80 + c / 64 % 64, 0x80 + c % 64]
    else [0xF0 + c / 262144, 0x80 + c / 4096 % 64, 0x80 + c / 64 % 64, 0x80 + c % 64]
  }

  lemma TwoBytes(a: Byte, b: Byte) returns (n: nat)
    requires 0xC2 <= a <= 0xDF && 0x80 <= b <= 0xBF
    ensures Scalar(n) && Encoded(n) == [a, b]
  {
    var d: int, e: int := a, b;
    n := (d - 0xC0) * 64 + (e - 0x80);
  }

  lemma ThreeBytes(a: Byte, b: Byte, c: Byte) returns (n: nat)
    requires 0xE0 <= a <= 0xEF && 0x80 <= b <= 0xBF && 0x80 <= c <= 0xBF && (a == 0xE0 ==> b >= 0xA0) && (a == 0xED ==> b <= 0x9F)
    ensures Scalar(n) && Encoded(n) == [a, b, c]
  {
    var d: int, e: int, f: int := a, b, c;
    n := (d - 0xE0) * 4096 + (e - 0x80) * 64 + (f - 0x80);
    ThreeDigits(d - 0xE0, e - 0x80, f - 0x80);
  }

  lemma FourBytes(a: Byte, b: Byte, c: Byte, d: Byte) returns (n: nat)
    requires 0xF0 <= a <= 0xF4 && 0x80 <= b <= 0xBF && 0x80 <= c <= 0xBF && 0x80 <= d <= 0xBF && (a == 0xF0 ==> b >= 0x90) && (a == 0xF4 ==> b <= 0x8F)
    ensures Scalar(n) && Encoded(n) == [a, b, c, d]
  {
    var e: int, f: int, g: int, h: int := a, b, c, d;
    n := (e - 0xF0) * 262144 + (f - 0x80) * 4096 + (g - 0x80) * 64 + (h - 0x80);
    FourDigits(e - 0xF0, f - 0x80, g - 0x80, h - 0x80);
  }

  lemma RuneIsEncoded(s: Bytes) returns (c: nat)
    requires RuneLength(s) > 0
    ensures Scalar(c) && Encoded(c) == s[..RuneLength(s)]
  {
    hide Encoded;
    match RuneLength(s)
    case 1 => c := s[0]; OneByte(c);
    case 2 => c := TwoBytes(s[0], s[1]);
    case 3 => c := ThreeBytes(s[0], s[1], s[2]);
    case 4 => c := FourBytes(s[0], s[1], s[2], s[3]);
  }

  lemma OneByte(c: nat)
    requires c < 0x80
    ensures Scalar(c) && Encoded(c) == [c]
  {
  }

  lemma ThreeDigits(a: int, b: int, c: int)
    requires 0 <= a && 0 <= b < 64 && 0 <= c < 64
    ensures var n := a * 4096 + b * 64 + c;
            n % 64 == c && n / 64 == a * 64 + b && n / 64 % 64 == b && n / 4096 == a
  {
    assert (a * 64 + b) * 64 + c == a * 4096 + b * 64 + c;
  }

  lemma FourDigits(a: int, b: int, c: int, d: int)
    requires 0 <= a && 0 <= b < 64 && 0 <= c < 64 && 0 <= d < 64
    ensures var n := a * 262144 + b * 4096 + c * 64 + d;
            n % 64 == d && n / 64 % 64 == c && n / 4096 % 64 == b && n / 262144 == a
  {
    ThreeDigits(a, b, c);
    ThreeDigits(a * 64 + b, c, d);
  }

  lemma EncodedIsARune(c: nat, s: Bytes)
    requires Scalar(c) && Encoded(c) <= s
    ensures RuneLength(s) == |Encoded(c)|
  {
  }

  /** A well-formed character is exactly the form of a scalar value. */
  lemma RunesAreScalars(s: Bytes)
    ensures RuneLength(s) > 0 <==> exists c :: Scalar(c) && Encoded(c) <= s
    ensures forall c :: Scalar(c) && Encoded(c) <= s ==> RuneLength(s) == |Encoded(c)|
  {
    hide Encoded, RuneLength;
    if RuneLength(s) > 0 { var c := RuneIsEncoded(s); }
    forall c | Scalar(c) && Encoded(c) <= s
      ensures RuneLength(s) == |Encoded(c)| > 0
    {
      EncodedIsARune(c, s);
      EncodedLength(c);
    }
  }

  lemma EncodedLength(c: nat)
    requires Scalar(c)
    ensures 1 <= |Encoded(c)| <= 4
  {
  }

  /** Truncation fits the limit, keeps valid text valid, and gives up at most three bytes more
      than the limit forces. */
  lemma TruncationIsSafe(s: Bytes, maxBytes: nat)
    requires ValidUTF8(s)
    ensures var r := Truncated(s, maxBytes);
            && r <= s && |r| <= maxBytes
            && ValidUTF8(r)
            && (|s| <= maxBytes ==> r == s)
            && (|s| > maxBytes ==> |r| >= maxBytes - 3)
  {
    var r := Truncated(s, maxBytes);
    if |s| > maxBytes > 0 {
      RuneStartsNearby(s, maxBytes);
      if |r| > 0 { CutAtRuneStart(s, |r|); }
    }
  }

  // ---- Decimal lengths ----

  function Digits(n: nat): (d: Bytes)
    ensures d != [] && forall i :: 0 <= i < |d| ==> 48 <= d[i] <= 57
  {
    if n < 10 then [48 + n] else Digits(n / 10) + [48 + n % 10]
  }

  lemma {:induction false} DigitsAreInjective(m: nat, n: nat)
    requires Digits(m) == Digits(n)
    ensures m == n
  {
    var last := Digits(m)[|Digits(m)| - 1];
    if m >= 10 { assert Digits(m)[..|Digits(m)| - 1] == Digits(m / 10); }
    if n >= 10 { assert Digits(n)[..|Digits(n)| - 1] == Digits(n / 10); }
    if m >= 10 && n >= 10 { DigitsAreInjective(m / 10, n / 10); }
  }

  // ---- The key ----

  const MAX_KEY_LENGTH := 255
  const COLON: Byte := 58
  const BAR: Byte := 124
  const HASH_MARK: Bytes := [58, 115, 104, 97, 50, 53, 54, 58]   // ":sha256:"

  function ScopePrefix(scope: Bytes): Bytes {
    if scope == [] then [] else Digits(|scope|) + [COLON] + scope + [BAR]
  }

  function Scoped(scope: Bytes, key: Bytes): Bytes {
    ScopePrefix(scope) + key
  }

  function HexDigit(n: nat): Byte
    requires n < 16
  {
    if n < 10 then 48 + n else 87 + n
  }

  function Hex(s: Bytes): (h: Bytes)
    ensures |h| == 2 * |s|
  {
    if s == [] then [] else [HexDigit(s[0] / 16), HexDigit(s[0] % 16)] + Hex(s[1..])
  }

  /** `sha256` stands for the digest, of which only the length is used here. */
  function EffectiveKey(cmdType: Bytes, scope: Bytes, key: Bytes, sha256: Bytes -> Bytes): Bytes {
    if key == [] then []
    else if |Scoped(scope, key)| <= MAX_KEY_LENGTH then Scoped(scope, key)
    else
      var suffix := HASH_MARK + Hex(sha256(Scoped(scope, key)));
      Truncated(ScopePrefix(scope) + cmdType, MAX_KEY_LENGTH - |suffix|) + suffix
  }

  /** The key always fits the store's column, and is empty for the empty key only. */
  lemma KeyFits(cmdType: Bytes, scope: Bytes, key: Bytes, sha256: Bytes -> Bytes)
    requires |sha256(Scoped(scope, key))| == 32
    ensures |EffectiveKey(cmdType, scope, key, sha256)| <= MAX_KEY_LENGTH
    ensures EffectiveKey(cmdType, scope, key, sha256) == [] <==> key == []
    ensures scope == [] && |key| <= MAX_KEY_LENGTH ==> EffectiveKey(cmdType, scope, key, sha256) == key
  {
    assert [] + key == key;
    var suffix := HASH_MARK + Hex(sha256(Scoped(scope, key)));
    assert |suffix| == 72;
    var head := Truncated(ScopePrefix(scope) + cmdType, MAX_KEY_LENGTH - |suffix|);
    assert |head| <= MAX_KEY_LENGTH - |suffix|;
  }

  /** No two (scope, key) pairs with a scope share an encoding, whatever characters they hold. */
  lemma ScopedIsInjective(scope: Bytes, key: Bytes, scope': Bytes, key': Bytes)
    requires scope != [] && scope' != [] && Scoped(scope, key) == Scoped(scope', key')
    ensures scope == scope' && key == key'
  {
    hide Digits;
    var rest, rest' := scope + [BAR] + key, scope' + [BAR] + key';
    ScopedSplits(scope, key);
    ScopedSplits(scope', key');
    SplitAtSeparator(Digits(|scope|), rest, Digits(|scope'|), rest', COLON);
    DigitsAreInjective(|scope|, |scope'|);
    assert rest[..|scope|] == scope && rest'[..|scope|] == scope';
    assert rest[|scope| + 1..] == key && rest'[|scope| + 1..] == key';
  }

  lemma ScopedSplits(scope: Bytes, key: Bytes)
    requires scope != []
    ensures Scoped(scope, key) == Digits(|scope|) + [COLON] + (scope + [BAR] + key)
    ensures COLON !in Digits(|scope|)
  {
    Regroup(Digits(|scope|), [COLON], scope, [BAR], key);
  }

  lemma Regroup(a: Bytes, b: Bytes, c: Bytes, d: Bytes, e: Bytes)
    ensures a + b + c + d + e == a + b + (c + d + e)
  {
  }

  /** Two scoped keys that fit unhashed never meet: principals cannot replay or suppress each other. */
  lemma PrincipalsNeverCollide(type1: Bytes, scope1: Bytes, key1: Bytes, type2: Bytes, scope2: Bytes, key2: Bytes, sha256: Bytes -> Bytes)
    requires scope1 != [] && scope2 != [] && key1 != [] && key2 != []
    requires |Scoped(scope1, key1)| <= MAX_KEY_LENGTH && |Scoped(scope2, key2)| <= MAX_KEY_LENGTH
    ensures EffectiveKey(type1, scope1, key1, sha256) == EffectiveKey(type2, scope2, key2, sha256)
            <==> scope1 == scope2 && key1 == key2
  {
    if Scoped(scope1, key1) == Scoped(scope2, key2) { ScopedIsInjective(scope1, key1, scope2, key2); }
  }

  /** Commands without a scope are outside that: their key is stored verbatim, so one meets a scoped
      command exactly when its key spells out the other's encoding. */
  lemma UnscopedKeysMeetExactlyWhen(type1: Bytes, key1: Bytes, type2: Bytes, scope2: Bytes, key2: Bytes, sha256: Bytes -> Bytes)
    requires key1 != [] && key2 != [] && scope2 != []
    requires |key1| <= MAX_KEY_LENGTH && |Scoped(scope2, key2)| <= MAX_KEY_LENGTH
    ensures EffectiveKey(type1, [], key1, sha256) == EffectiveKey(type2, scope2, key2, sha256)
            <==> key1 == Digits(|scope2|) + [COLON] + scope2 + [BAR] + key2
  {
    assert [] + key1 == key1;
  }

  lemma {:induction false} HexIsInjective(s: Bytes, t: Bytes)
    requires Hex(s) == Hex(t)
    ensures s == t
  {
    assert |s| == |t|;
    if s != [] {
      assert Hex(s)[2..] == Hex(s[1..]) && Hex(t)[2..] == Hex(t[1..]);
      assert Hex(s)[0] == HexDigit(s[0] / 16) && Hex(s)[1] == HexDigit(s[0] % 16);
      HexIsInjective(s[1..], t[1..]);
      assert s == [s[0]] + s[1..] && t == [t[0]] + t[1..];
    }
  }

  /** Hashing does not lose the scope, even when the visible prefix had to be cut: two hashed keys
      meet only if the digests of the full scoped keys do. */
  lemma HashedKeysKeepTheScope(type1: Bytes, scope1: Bytes, key1: Bytes, type2: Bytes, scope2: Bytes, key2: Bytes, sha256: Bytes -> Bytes)
    requires |sha256(Scoped(scope1, key1))| == 32 && |sha256(Scoped(scope2, key2))| == 32
    requires scope1 != [] && scope2 != [] && key1 != [] && key2 != []
    requires |Scoped(scope1, key1)| > MAX_KEY_LENGTH && |Scoped(scope2, key2)| > MAX_KEY_LENGTH
    requires sha256(Scoped(scope1, key1)) == sha256(Scoped(scope2, key2)) ==> Scoped(scope1, key1) == Scoped(scope2, key2)
    requires EffectiveKey(type1, scope1, key1, sha256) == EffectiveKey(type2, scope2, key2, sha256)
    ensures scope1 == scope2 && key1 == key2
  {
    var h1, h2 := Hex(sha256(Scoped(scope1, key1))), Hex(sha256(Scoped(scope2, key2)));
    var k1, k2 := EffectiveKey(type1, scope1, key1, sha256), EffectiveKey(type2, scope2, key2, sha256);
    assert k1[|k1| - 64..] == h1 && k2[|k2| - 64..] == h2;
    HexIsInjective(sha256(Scoped(scope1, key1)), sha256(Scoped(scope2, key2)));
    ScopedIsInjective(scope1, key1, scope2, key2);
  }

  lemma {:induction false} HexHasNoBar(s: Bytes)
    ensures BAR !in Hex(s) && COLON !in Hex(s)
  {
    if s != [] {
      HexHasNoBar(s[1..]);
      assert Hex(s) == [HexDigit(s[0] / 16), HexDigit(s[0] % 16)] + Hex(s[1..]);
    }
  }

  /** A scope's encoding, and what follows it, up to where it may be cut. */
  lemma CutPrefixKeepsTheScope(scope: Bytes, rest: Bytes, scope2: Bytes, more: Bytes, n: nat, tail: Bytes)
    requires scope != [] && scope2 != [] && n <= |ScopePrefix(scope2) + more| && tail != [] && tail[0] == COLON && BAR !in tail
    requires ScopePrefix(scope) + rest == (ScopePrefix(scope2) + more)[..n] + tail
    ensures scope == scope2
  {
    hide Digits, ScopePrefix;
    ScopeLiesAt(scope, rest);
    TailHasNoBar(Scoped(scope, rest), Scoped(scope2, more), n, tail, |Digits(|scope|)| + 1 + |scope|);
    SameStartSameScope(scope, rest, scope2, more, n);
  }

  /** Where a scope and the separator behind it lie in a scoped key. */
  lemma ScopeLiesAt(scope: Bytes, rest: Bytes)
    requires scope != []
    ensures var whole, d := Scoped(scope, rest), |Digits(|scope|)|;
            && d + 1 + |scope| < |whole| && whole[d + 1 + |scope|] == BAR
            && forall i :: 0 <= i < |scope| ==> whole[d + 1 + i] == scope[i]
  {
    hide Digits;
    var d := Digits(|scope|);
    ScopedSplits(scope, rest);
    var after := scope + [BAR] + rest;
    assert forall i :: 0 <= i < |after| ==> (d + [COLON] + after)[|d| + 1 + i] == after[i];
    assert after[|scope|] == BAR;
  }

  lemma TailHasNoBar(whole: Bytes, front: Bytes, n: nat, tail: Bytes, bar: nat)
    requires n <= |front| && whole == front[..n] + tail && BAR !in tail && bar < |whole| && whole[bar] == BAR
    ensures bar < n && forall i :: 0 <= i < n ==> whole[i] == front[i]
  {
  }

  /** Scoped keys that agree up to the separator of one have its scope. */
  lemma SameStartSameScope(scope: Bytes, rest: Bytes, scope2: Bytes, more: Bytes, n: nat)
    requires scope != [] && scope2 != [] && |Digits(|scope|)| + 1 + |scope| < n <= |Scoped(scope, rest)| && n <= |Scoped(scope2, more)|
    requires forall i :: 0 <= i < n ==> Scoped(scope, rest)[i] == Scoped(scope2, more)[i]
    ensures scope == scope2
  {
    hide Digits, Scoped;
    var d, d2 := Digits(|scope|), Digits(|scope2|);
    ScopedSplits(scope, rest);
    ScopedSplits(scope2, more);
    SameFirstColon(d, scope + [BAR] + rest, d2, scope2 + [BAR] + more, n);
    DigitsAreInjective(|scope|, |scope2|);
    ScopeLiesAt(scope, rest);
    ScopeLiesAt(scope2, more);
    forall i | 0 <= i < |scope|
      ensures scope[i] == scope2[i]
    {
      assert Scoped(scope, rest)[|d| + 1 + i] == Scoped(scope2, more)[|d| + 1 + i];
    }
  }

  /** Two texts that agree up to and past the first colon of one have the same text before it. */
  lemma SameFirstColon(d: Bytes, a: Bytes, d2: Bytes, b: Bytes, n: nat)
    requires COLON !in d && COLON !in d2 && |d| < n <= |d + [COLON] + a| && n <= |d2 + [COLON] + b|
    requires forall i :: 0 <= i < n ==> (d + [COLON] + a)[i] == (d2 + [COLON] + b)[i]
    ensures d == d2
  {
    var u, v := d + [COLON] + a, d2 + [COLON] + b;
    assert u[|d|] == COLON && v[|d2|] == COLON;
    assert forall i :: 0 <= i < |d| ==> u[i] == d[i];
    assert forall i :: 0 <= i < |d2| ==> v[i] == d2[i];
    assert v[|d|] == COLON;
    assert |d2| <= |d|;
    assert u[|d2|] == COLON;
    assert |d| <= |d2|;
  }

  /** A key stored as it is never meets a hashed key of another scope: the separator that ends its
      scope cannot lie in the digest. */
  lemma MixedKeysKeepTheScope(scope1: Bytes, key1: Bytes, type2: Bytes, scope2: Bytes, key2: Bytes, sha256: Bytes -> Bytes)
    requires scope1 != [] && scope2 != [] && key2 != [] && |Scoped(scope2, key2)| > MAX_KEY_LENGTH
    requires Scoped(scope1, key1) == EffectiveKey(type2, scope2, key2, sha256)
    ensures scope1 == scope2
  {
    hide Digits, ScopePrefix, Hex, LastRuneStart;
    var digest := sha256(Scoped(scope2, key2));
    var suffix := HASH_MARK + Hex(digest);
    HexHasNoBar(digest);
    assert BAR !in HASH_MARK && suffix[0] == HASH_MARK[0];
    var head := Truncated(ScopePrefix(scope2) + type2, MAX_KEY_LENGTH - |suffix|);
    CutPrefixKeepsTheScope(scope1, key1, scope2, type2, |head|, suffix);
  }

  /** However long their scopes and keys are, two principals' commands meet in the store only if the
      digests of their full keys do. */
  lemma ScopesNeverMeet(type1: Bytes, scope1: Bytes, key1: Bytes, type2: Bytes, scope2: Bytes, key2: Bytes, sha256: Bytes -> Bytes)
    requires scope1 != [] && scope2 != [] && key1 != [] && key2 != []
    requires |sha256(Scoped(scope1, key1))| == 32 && |sha256(Scoped(scope2, key2))| == 32
    requires sha256(Scoped(scope1, key1)) == sha256(Scoped(scope2, key2)) ==> Scoped(scope1, key1) == Scoped(scope2, key2)
    requires EffectiveKey(type1, scope1, key1, sha256) == EffectiveKey(type2, scope2, key2, sha256)
    ensures scope1 == scope2
  {
    var fits1, fits2 := |Scoped(scope1, key1)| <= MAX_KEY_LENGTH, |Scoped(scope2, key2)| <= MAX_KEY_LENGTH;
    if fits1 && fits2 {
      ScopedIsInjective(scope1, key1, scope2, key2);
    } else if fits1 {
      MixedKeysKeepTheScope(scope1, key1, type2, scope2, key2, sha256);
    } else if fits2 {
      MixedKeysKeepTheScope(scope2, key2, type1, scope1, key1, sha256);
    } else {
      HashedKeysKeepTheScope(type1, scope1, key1, type2, scope2, key2, sha256);
    }
  }
}
