/** Reconnect delays in wrapping 64-bit arithmetic; durations are nanoseconds. */
module Backoff {

  const TWO63: int := 0x8000_0000_0000_0000
  const TWO64: int := 0x1_0000_0000_0000_0000

  type int64 = x: int | -TWO63 <= x < TWO63

  const SECOND: int64 := 1_000_000_000

  /** What a 64-bit register keeps of `x`. */
  function Wrap(x: int): int64 {
    (x + TWO63) % TWO64 - TWO63
  }

  function Pow2(n: nat): nat {
    if n == 0 then 1 else 2 * Pow2(n - 1)
  }

  function Min(a: int, b: int): int { if a < b then a else b }

  function EffectiveBase(base: int64): int64 {
    if base <= 0 then SECOND else base
  }

  function EffectiveMax(base: int64, max: int64): int64 {
    if max <= 0 then EffectiveBase(base) else max
  }

  /** int64(1) << uint(shift), the shift capped at 20; a negative attempt shifts everything out. */
  function Factor(attempt: int): nat {
    if attempt < 0 then 0 else Pow2(Min(attempt, 20))
  }

  /**
   The capped exponential as the code computes it: a product that wraps past max, or to zero or below,
   becomes max.
   */
  function Raw(attempt: int, base: int64, max: int64): int64 {
    var raw := Wrap(EffectiveBase(base) * Factor(attempt));
    var m := EffectiveMax(base, max);
    if raw > m || raw <= 0 then m else raw
  }

  /** `draw` is what the generator returned for the bound half + 1. */
  function NextDelay(attempt: int, base: int64, max: int64, draw: nat): int
    requires draw <= Raw(attempt, base, max) / 2
  {
    var half := Raw(attempt, base, max) / 2;
    if half <= 0 then Raw(attempt, base, max) else half + draw
  }

  /** What the settings are meant as: a second where no base is given, the base where no cap is. */
  function MeantBase(base: int64): int {
    if base > 0 then base else 1_000_000_000
  }

  function Cap(base: int64, max: int64): int {
    if max > 0 then max else MeantBase(base)
  }

  /** The exponential over the mathematical integers, before and after the cap. */
  function Product(attempt: nat, base: int64): int {
    MeantBase(base) * Pow2(Min(attempt, 20))
  }

  function Ideal(attempt: nat, base: int64, max: int64): int {
    Min(Cap(base, max), Product(attempt, base))
  }

  lemma WrapFits(x: int)
    requires -TWO63 <= x < TWO63
    ensures Wrap(x) == x
  {
  }

  /**
   For all inputs: a positive delay within the cap, of at least half the raw delay, and a bound the
   generator accepts.
   */
  lemma {:induction false} DelayIsBounded(attempt: int, base: int64, max: int64, draw: nat)
    requires draw <= Raw(attempt, base, max) / 2
    ensures var delay := NextDelay(attempt, base, max, draw);
            0 < delay <= Cap(base, max)
            && Raw(attempt, base, max) / 2 <= delay <= Raw(attempt, base, max)
    ensures 0 < Raw(attempt, base, max) / 2 + 1 < TWO63
  {
    var raw := Raw(attempt, base, max);
    assert 0 < raw <= Cap(base, max);
    assert 2 * (raw / 2) <= raw;
  }

  lemma {:induction false} Pow2Positive(n: nat)
    ensures Pow2(n) >= 1
  {
    if n > 0 {
      Pow2Positive(n - 1);
    }
  }

  lemma {:induction false} Pow2Grows(m: nat, n: nat)
    requires m <= n
    ensures Pow2(m) <= Pow2(n)
  {
    if m < n {
      Pow2Grows(m, n - 1);
    }
  }

  lemma MulGrows(b: nat, x: nat, y: nat)
    requires x <= y
    ensures b * x <= b * y
  {
  }

  /**
   The code computes the true exponential exactly when the product fits, or wraps to something the
   guard replaces by the cap anyway; the guard does not catch every other wrap-around.
   */
  lemma {:induction false} RawIsExactIff(attempt: nat, base: int64, max: int64)
    ensures Raw(attempt, base, max) == Ideal(attempt, base, max)
       <==> Product(attempt, base) < TWO63
            || Wrap(Product(attempt, base)) <= 0
            || Wrap(Product(attempt, base)) >= Cap(base, max)
  {
    var b, f := MeantBase(base), Pow2(Min(attempt, 20));
    Pow2Positive(Min(attempt, 20));
    MulGrows(b, 1, f);
    if b * f < TWO63 {
      WrapFits(b * f);
    }
  }

  /** A wrap-around the guard misses: the delay is about a millisecond where the cap of an hour was meant. */
  lemma {:induction false} GuardMissesAWrap()
    ensures Raw(20, 0x1000_0000_0001, 3600 * SECOND) == 0x10_0000
    ensures Ideal(20, 0x1000_0000_0001, 3600 * SECOND) == 3600 * SECOND
  {
    assert Pow2(10) == 1024;
    assert Pow2(20) == 0x10_0000 by {
      assert Pow2(20) == 1024 * Pow2(10);
    }
  }

  /** Whenever the largest product fits, every attempt gets the true capped exponential, with equal jitter on top. */
  lemma {:induction false} DelayIsExponential(attempt: nat, base: int64, max: int64, draw: nat)
    requires MeantBase(base) * Pow2(20) < TWO63 && draw <= Raw(attempt, base, max) / 2
    ensures Ideal(attempt, base, max) / 2 <= NextDelay(attempt, base, max, draw) <= Ideal(attempt, base, max)
    ensures Ideal(attempt, base, max) <= Ideal(attempt + 1, base, max)
  {
    Pow2Grows(Min(attempt, 20), 20);
    MulGrows(MeantBase(base), Pow2(Min(attempt, 20)), Pow2(20));
    RawIsExactIff(attempt, base, max);
    DelayIsBounded(attempt, base, max, draw);
    Pow2Grows(Min(attempt, 20), Min(attempt + 1, 20));
    MulGrows(MeantBase(base), Pow2(Min(attempt, 20)), Pow2(Min(attempt + 1, 20)));
  }

  /** Equal jitter: every delay from half the raw one to twice that half comes from exactly one draw, and no other. */
  lemma {:induction false} JitterCoversTheHalf(attempt: int, base: int64, max: int64, delay: int)
    requires Raw(attempt, base, max) >= 2
    ensures var half := Raw(attempt, base, max) / 2;
      && (half <= delay <= 2 * half <==>
            exists draw: nat :: draw <= half && NextDelay(attempt, base, max, draw) == delay)
      && forall x: nat, y: nat :: x <= half && y <= half && x != y ==>
           NextDelay(attempt, base, max, x) != NextDelay(attempt, base, max, y)
  {
    hide Raw;
    var half := Raw(attempt, base, max) / 2;
    if half <= delay <= 2 * half {
      assert NextDelay(attempt, base, max, delay - half) == delay;
    }
  }
}
