/** Exponential backoff in 64-bit wrapping arithmetic, as retries and restarts use it. */
module Backoff {

  const TWO_TO_63 := 0x8000_0000_0000_0000
  const TWO_TO_64 := 0x1_0000_0000_0000_0000

  /** The signed 64-bit integer a result wraps around to. */
  function Wrap64(n: int): int {
    (n + TWO_TO_63) % TWO_TO_64 - TWO_TO_63
  }

  function Pow2(n: nat): nat {
    if n == 0 then 1 else 2 * Pow2(n - 1)
  }

  function Min(a: int, b: int): int {
    if a < b then a else b
  }

  /** Durations are nanoseconds in a signed 64-bit integer. */
  function ExpBackoff(shift: int, baseDelay: int, maxDelay: int): int {
    var s := if shift < 0 then 0 else shift;
    if s > 62 then maxDelay
    else
      var delay := Wrap64(baseDelay * Pow2(s));
      if delay <= 0 || delay > maxDelay then maxDelay else delay
  }

  /** The delay before retry attempt `attempt`, and before the restart number `restartCount`. */
  function RetryDelay(attempt: int, baseDelay: int, maxDelay: int): int {
    ExpBackoff(attempt, baseDelay, maxDelay)
  }

  function RestartDelay(restartCount: int, baseDelay: int, maxDelay: int): int {
    ExpBackoff(restartCount - 1, baseDelay, maxDelay)
  }

  const MILLISECOND := 1_000_000
  const SECOND := 1_000_000_000

  /** The delay the worker computes itself when it has no retry policy. */
  function FallbackDelay(backoffErrors: int): int
    requires backoffErrors >= 1
  {
    var shift := if backoffErrors - 1 > 18 then 18 else backoffErrors - 1;
    var delay := Wrap64(100 * MILLISECOND * Pow2(shift));
    if delay > 30 * SECOND then 30 * SECOND else delay
  }

  lemma {:induction false} PowersAdd(a: nat, b: nat)
    ensures Pow2(a + b) == Pow2(a) * Pow2(b)
  {
    if a > 0 { PowersAdd(a - 1, b); }
  }

  lemma {:induction false} PowersGrow(a: nat, b: nat)
    requires a <= b
    ensures 1 <= Pow2(a) <= Pow2(b)
  {
    if b > 0 {
      if a == b { PowersGrow(a - 1, b - 1); } else { PowersGrow(a, b - 1); }
    }
  }

  lemma LargePowers()
    ensures Pow2(63) == TWO_TO_63 && Pow2(64) == TWO_TO_64
  {
    assert Pow2(8) == 256;
    PowersAdd(8, 8);
    PowersAdd(16, 16);
    PowersAdd(32, 32);
  }

  /** A wrapped multiple of 2^s stays a multiple of 2^s, for s up to 64. */
  lemma WrapKeepsMultiples(b: int, s: nat) returns (m: int)
    requires s <= 64
    ensures Wrap64(b * Pow2(s)) == m * Pow2(s)
  {
    var p := b * Pow2(s);
    var k := (p + TWO_TO_63) / TWO_TO_64;
    LargePowers();
    PowersAdd(64 - s, s);
    m := b - k * Pow2(64 - s);
    MultipleOfPower(b, k, Pow2(64 - s), Pow2(s));
    assert Wrap64(p) == p - k * TWO_TO_64;
  }

  lemma MultipleOfPower(b: int, k: int, high: nat, low: nat)
    ensures (b - k * high) * low == b * low - k * (high * low)
  {
  }

  lemma MulMonotone(a: nat, b: nat, c: nat)
    requires a <= b
    ensures a * c <= b * c
  {
  }

  /** An overflowing product is noticed: wrapped around it is either not positive or, being a
      multiple of 2^s, still above the cap. */
  lemma OverflowIsCaught(baseDelay: int, maxDelay: int, s: nat)
    requires s <= 62 && baseDelay > 0 && baseDelay * maxDelay < TWO_TO_63 <= baseDelay * Pow2(s)
    ensures Wrap64(baseDelay * Pow2(s)) <= 0 || Wrap64(baseDelay * Pow2(s)) > maxDelay
  {
    var m := WrapKeepsMultiples(baseDelay, s);
    if m * Pow2(s) > 0 {
      PositiveFactor(m, Pow2(s));
      MulMonotone(1, m, Pow2(s));
      CapIsBelow(baseDelay, maxDelay, Pow2(s));
    }
  }

  lemma CapIsBelow(a: int, b: int, c: int)
    requires a > 0 && a * b < a * c
    ensures b < c
  {
  }

  lemma NoOverflow(n: int)
    requires 0 <= n < TWO_TO_63
    ensures Wrap64(n) == n
  {
  }

  // ---- When the overflow goes unnoticed ----

  /** The least positive value that an overflowing delay, from shift s on, wraps around to. */
  function LeastWrap(baseDelay: int, s: nat): int
    requires s <= 63
    decreases 63 - s
  {
    if s == 63 then TWO_TO_63
    else
      var delay, rest := Wrap64(baseDelay * Pow2(s)), LeastWrap(baseDelay, s + 1);
      if baseDelay * Pow2(s) >= TWO_TO_63 && 0 < delay < rest then delay else rest
  }

  /** The delay at this shift overflows and wraps around to a positive value. */
  predicate WrapsUnnoticed(baseDelay: int, s: nat) {
    baseDelay * Pow2(s) >= TWO_TO_63 && Wrap64(baseDelay * Pow2(s)) > 0
  }

  lemma {:induction false} LeastWrapMeans(baseDelay: int, maxDelay: int, s: nat)
    requires s <= 63
    ensures maxDelay <= LeastWrap(baseDelay, s) <==>
            maxDelay <= TWO_TO_63 && forall i :: s <= i <= 62 && WrapsUnnoticed(baseDelay, i) ==> maxDelay <= Wrap64(baseDelay * Pow2(i))
    decreases 63 - s
  {
    hide Wrap64, Pow2;
    if s < 63 {
      LeastWrapMeans(baseDelay, maxDelay, s + 1);
      assert WrapsUnnoticed(baseDelay, s) || !WrapsUnnoticed(baseDelay, s);
    }
  }

  /** The capped doubling. */
  function Ideal(shift: int, baseDelay: int, maxDelay: int): int {
    Min(baseDelay * Pow2(if shift < 0 then 0 else shift), maxDelay)
  }

  /** One shift goes wrong exactly when it overflows to a positive value below the cap. */
  lemma OneShiftIsIdealExactlyWhen(shift: int, baseDelay: int, maxDelay: int)
    requires 0 < baseDelay < TWO_TO_63 && 0 < maxDelay < TWO_TO_63
    ensures var s := if shift < 0 then 0 else shift;
            ExpBackoff(shift, baseDelay, maxDelay) == Ideal(shift, baseDelay, maxDelay) <==>
            !(s <= 62 && WrapsUnnoticed(baseDelay, s) && Wrap64(baseDelay * Pow2(s)) < maxDelay)
  {
    hide Wrap64, Pow2;
    var s := if shift < 0 then 0 else shift;
    PowersGrow(0, s);
    MulMonotone(1, baseDelay, Pow2(s));
    if s > 62 {
      LargePowers();
      PowersGrow(63, s);
    } else if baseDelay * Pow2(s) < TWO_TO_63 {
      MulMonotone(1, Pow2(s), baseDelay);
      NoOverflow(baseDelay * Pow2(s));
    }
  }

  /** Every delay is the doubled base, capped, exactly when the cap is at most the least positive value
      an overflow wraps around to. */
  lemma BackoffIsIdealExactlyWhen(baseDelay: int, maxDelay: int)
    requires 0 < baseDelay < TWO_TO_63 && 0 < maxDelay < TWO_TO_63
    ensures (forall shift :: ExpBackoff(shift, baseDelay, maxDelay) == Ideal(shift, baseDelay, maxDelay)) <==> maxDelay <= LeastWrap(baseDelay, 0)
  {
    hide Wrap64, Pow2, ExpBackoff, Ideal, WrapsUnnoticed;
    forall shift
      ensures var s := if shift < 0 then 0 else shift;
              ExpBackoff(shift, baseDelay, maxDelay) == Ideal(shift, baseDelay, maxDelay) <==>
              !(s <= 62 && WrapsUnnoticed(baseDelay, s) && Wrap64(baseDelay * Pow2(s)) < maxDelay)
    {
      OneShiftIsIdealExactlyWhen(shift, baseDelay, maxDelay);
    }
    LeastWrapMeans(baseDelay, maxDelay, 0);
    if s: nat :| s <= 62 && WrapsUnnoticed(baseDelay, s) && Wrap64(baseDelay * Pow2(s)) < maxDelay {
      assert ExpBackoff(s, baseDelay, maxDelay) != Ideal(s, baseDelay, maxDelay);
    }
  }

  /** It is enough that base and cap multiply without overflow. */
  lemma BackoffIsCappedDoubling(shift: int, baseDelay: int, maxDelay: int)
    requires baseDelay > 0 && maxDelay > 0 && baseDelay * maxDelay < TWO_TO_63
    ensures ExpBackoff(shift, baseDelay, maxDelay) == Ideal(shift, baseDelay, maxDelay)
  {
    hide Wrap64, Pow2, ExpBackoff, Ideal;
    MulMonotone(1, baseDelay, maxDelay);
    MulMonotone(1, maxDelay, baseDelay);
    OneShiftIsIdealExactlyWhen(shift, baseDelay, maxDelay);
    var s := if shift < 0 then 0 else shift;
    if s <= 62 && baseDelay * Pow2(s) >= TWO_TO_63 { OverflowIsCaught(baseDelay, maxDelay, s); }
  }

  lemma PositiveFactor(m: int, p: nat)
    requires m * p > 0
    ensures m >= 1
  {
  }

  lemma IdealGrows(earlier: int, later: int, baseDelay: int, maxDelay: int)
    requires baseDelay > 0 && maxDelay > 0 && earlier <= later
    ensures 0 < Ideal(earlier, baseDelay, maxDelay) <= Ideal(later, baseDelay, maxDelay) <= maxDelay
  {
    hide Pow2;
    var a, b := if earlier < 0 then 0 else earlier, if later < 0 then 0 else later;
    PowersGrow(0, a);
    PowersGrow(a, b);
    MulMonotone(Pow2(a), Pow2(b), baseDelay);
    MulMonotone(1, Pow2(a), baseDelay);
  }

  /** Delays never shrink. */
  ghost predicate Monotone(baseDelay: int, maxDelay: int) {
    forall earlier, later :: earlier <= later ==> ExpBackoff(earlier, baseDelay, maxDelay) <= ExpBackoff(later, baseDelay, maxDelay)
  }

  /** The first overflow is always noticed: it is less than 2^64 and so wraps to a negative value. */
  lemma {:induction false} FirstOverflow(baseDelay: int, s: nat) returns (first: nat)
    requires 0 < baseDelay < TWO_TO_63 <= baseDelay * Pow2(s)
    ensures first <= s && TWO_TO_63 <= baseDelay * Pow2(first) && Wrap64(baseDelay * Pow2(first)) < 0
  {
    if s > 0 && baseDelay * Pow2(s - 1) >= TWO_TO_63 {
      first := FirstOverflow(baseDelay, s - 1);
    } else {
      first := s;
      assert s > 0;
      Doubles(baseDelay, s - 1);
    }
  }

  lemma Doubles(baseDelay: int, s: nat)
    ensures baseDelay * Pow2(s + 1) == 2 * (baseDelay * Pow2(s))
  {
  }

  /** So delays never shrink exactly under the same condition: an overflow that goes unnoticed comes
      after one that was noticed, and gives less than the cap given then. */
  lemma DelaysGrowExactlyWhen(baseDelay: int, maxDelay: int)
    requires 0 < baseDelay < TWO_TO_63 && 0 < maxDelay < TWO_TO_63
    ensures Monotone(baseDelay, maxDelay) <==> maxDelay <= LeastWrap(baseDelay, 0)
    ensures forall shift :: 0 < ExpBackoff(shift, baseDelay, maxDelay) <= maxDelay
  {
    hide Pow2, Ideal, WrapsUnnoticed;
    LeastWrapMeans(baseDelay, maxDelay, 0);
    BackoffIsIdealExactlyWhen(baseDelay, maxDelay);
    if maxDelay <= LeastWrap(baseDelay, 0) {
      forall earlier, later | earlier <= later
        ensures ExpBackoff(earlier, baseDelay, maxDelay) <= ExpBackoff(later, baseDelay, maxDelay)
      {
        IdealGrows(earlier, later, baseDelay, maxDelay);
      }
    } else {
      var s: nat :| s <= 62 && WrapsUnnoticed(baseDelay, s) && Wrap64(baseDelay * Pow2(s)) < maxDelay;
      DropsAfterOverflow(baseDelay, maxDelay, s);
    }
  }

  lemma DropsAfterOverflow(baseDelay: int, maxDelay: int, s: nat)
    requires 0 < baseDelay < TWO_TO_63 && 0 < maxDelay < TWO_TO_63
    requires s <= 62 && WrapsUnnoticed(baseDelay, s) && Wrap64(baseDelay * Pow2(s)) < maxDelay
    ensures !Monotone(baseDelay, maxDelay)
  {
    hide Pow2, Wrap64;
    var first := FirstOverflow(baseDelay, s);
    assert ExpBackoff(first, baseDelay, maxDelay) == maxDelay && ExpBackoff(s, baseDelay, maxDelay) < maxDelay;
  }

  /** So retries and restarts wait for the base delay at first, twice as long each time, and never longer
      than the cap. */
  lemma DelaysGrowAndAreCapped(earlier: int, later: int, baseDelay: int, maxDelay: int)
    requires 0 < baseDelay < TWO_TO_63 && 0 < maxDelay < TWO_TO_63 && maxDelay <= LeastWrap(baseDelay, 0) && earlier <= later
    ensures 0 < RetryDelay(earlier, baseDelay, maxDelay) <= RetryDelay(later, baseDelay, maxDelay) <= maxDelay
    ensures 0 < RestartDelay(earlier, baseDelay, maxDelay) <= RestartDelay(later, baseDelay, maxDelay) <= maxDelay
    ensures later >= 0 ==> RetryDelay(later, baseDelay, maxDelay) == Min(baseDelay * Pow2(later), maxDelay)
    ensures later >= 1 ==> RestartDelay(later, baseDelay, maxDelay) == Min(baseDelay * Pow2(later - 1), maxDelay)
  {
    hide ExpBackoff, LeastWrap, Pow2;
    BackoffIsIdealExactlyWhen(baseDelay, maxDelay);
    DelaysGrowExactlyWhen(baseDelay, maxDelay);
    assert earlier - 1 <= later - 1;
  }

  /** A base and a cap that multiply without overflow meet the condition. */
  lemma SmallBasesMeetIt(baseDelay: int, maxDelay: int)
    requires baseDelay > 0 && maxDelay > 0 && baseDelay * maxDelay < TWO_TO_63
    ensures baseDelay < TWO_TO_63 && maxDelay < TWO_TO_63 && maxDelay <= LeastWrap(baseDelay, 0)
  {
    hide ExpBackoff, LeastWrap, Ideal;
    MulMonotone(1, baseDelay, maxDelay);
    MulMonotone(1, maxDelay, baseDelay);
    forall shift
      ensures ExpBackoff(shift, baseDelay, maxDelay) == Ideal(shift, baseDelay, maxDelay)
    {
      BackoffIsCappedDoubling(shift, baseDelay, maxDelay);
    }
    BackoffIsIdealExactlyWhen(baseDelay, maxDelay);
  }

  /** The wrap-around can go unnoticed: base 5 and cap 2^63 - 1 at shift 62 give 2^62 instead of the
      cap. But base and cap may also multiply beyond 2^63 and still do: base 2 and cap 2^62. */
  lemma UnboundedBaseMayWrap()
    ensures ExpBackoff(62, 5, TWO_TO_63 - 1) == TWO_TO_63 / 2 < Ideal(62, 5, TWO_TO_63 - 1)
    ensures forall shift :: ExpBackoff(shift, 2, TWO_TO_63 / 2) == Ideal(shift, 2, TWO_TO_63 / 2)
  {
    LargePowers();
    assert Pow2(62) == TWO_TO_63 / 2;
    forall shift
      ensures ExpBackoff(shift, 2, TWO_TO_63 / 2) == Ideal(shift, 2, TWO_TO_63 / 2)
    {
      var s := if shift < 0 then 0 else shift;
      OneShiftIsIdealExactlyWhen(shift, 2, TWO_TO_63 / 2);
      if s <= 62 { PowersGrow(s, 62); }
    }
  }

  /** The built-in fallback is the same backoff from 100ms up to 30s. */
  lemma FallbackIsTheSameBackoff(backoffErrors: int)
    requires backoffErrors >= 1
    ensures FallbackDelay(backoffErrors) == ExpBackoff(backoffErrors - 1, 100 * MILLISECOND, 30 * SECOND)
  {
    var n := backoffErrors - 1;
    BackoffIsCappedDoubling(n, 100 * MILLISECOND, 30 * SECOND);
    assert Pow2(9) == 512;
    PowersAdd(9, 9);
    if n > 18 { PowersGrow(18, n); } else { PowersGrow(n, 18); }
  }
}
