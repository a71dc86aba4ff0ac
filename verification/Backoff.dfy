/**
 `backoff.rs`: the reconnect schedule in saturating u64 milliseconds. A `Duration` is a number of
 nanoseconds here.
 */
module Backoff {
  import opened Wrappers

  const U64_MAX: nat := 0xFFFF_FFFF_FFFF_FFFF
  const NANOS_PER_MS: nat := 1_000_000

  datatype Config = Config(initial: nat, max: nat, factor: nat)

  function Pow(base: nat, exponent: nat): nat {
    if exponent == 0 then 1 else base * Pow(base, exponent - 1)
  }

  function SaturatingU64(n: nat): nat {
    Min(n, U64_MAX)
  }

  /** Whole milliseconds, truncated to 64 bits as the cast does. */
  function InitialMs(c: Config): nat {
    (c.initial / NANOS_PER_MS) % (U64_MAX + 1)
  }

  function Delay(c: Config, failures: nat): nat {
    if failures == 0 then 0
    else
      var power := Pow(c.factor, failures - 1);
      var multiplier := if power <= U64_MAX then power else U64_MAX;
      Min(SaturatingU64(InitialMs(c) * multiplier) * NANOS_PER_MS, c.max)
  }

  /** The schedule in exact integers: initial * factor^(failures - 1), clamped to max. */
  function ExactMs(c: Config, failures: nat): nat
    requires failures > 0
  {
    (c.initial / NANOS_PER_MS) * Pow(c.factor, failures - 1)
  }

  lemma {:induction false} SaturationIsMin(initial: nat, power: nat)
    ensures SaturatingU64(initial * (if power <= U64_MAX then power else U64_MAX)) == SaturatingU64(initial * power)
  {
    if power > U64_MAX && initial > 0 {
      ProductAtLeast(initial, U64_MAX);
      ProductAtLeast(initial, power);
    }
  }

  lemma {:induction false} ProductAtLeast(a: nat, b: nat)
    requires a > 0
    ensures a * b >= b
  {
    assert a * b == (a - 1) * b + b;
  }

  /**
   Exact backoff, with its exact limit: for every initial delay that fits in u64 milliseconds, the
   saturating computation equals the exact one unless both the product and `max` outgrow u64
   milliseconds. So it is exact for every `max` that fits.
   */
  lemma {:induction false} ExactBackoff(c: Config, failures: nat)
    requires failures > 0 && c.initial / NANOS_PER_MS <= U64_MAX
    ensures Delay(c, failures) == Min(ExactMs(c, failures) * NANOS_PER_MS, c.max)
       <==> (ExactMs(c, failures) <= U64_MAX || c.max <= U64_MAX * NANOS_PER_MS)
  {
    SaturationIsMin(InitialMs(c), Pow(c.factor, failures - 1));
  }

  lemma {:induction false} ExactMultiplies(c: Config, failures: nat)
    requires failures > 0
    ensures ExactMs(c, 1) == c.initial / NANOS_PER_MS
    ensures ExactMs(c, failures + 1) == c.factor * ExactMs(c, failures)
  {
    assert Pow(c.factor, 0) == 1;
    var initial, power := c.initial / NANOS_PER_MS, Pow(c.factor, failures - 1);
    assert Pow(c.factor, failures) == c.factor * power;
    assert initial * (c.factor * power) == c.factor * (initial * power);
  }

  lemma {:induction false} CappedProduct(factor: nat, exact: nat, unit: nat, max: nat)
    ensures Min(factor * exact * unit, max) == Min(factor * Min(exact * unit, max), max)
  {
    var ns := exact * unit;
    assert factor * exact * unit == factor * ns;
    if factor > 0 && ns > max {
      assert factor * ns == (factor - 1) * ns + ns && factor * max == (factor - 1) * max + max;
    }
  }

  /**
   The schedule as the user sees it, where everything fits: no wait before a failure, the initial
   delay after the first, and each further one multiplies the wait, up to the maximum.
   */
  lemma {:induction false} EachFailureMultiplies(c: Config, failures: nat)
    requires c.initial / NANOS_PER_MS <= U64_MAX && c.max <= U64_MAX * NANOS_PER_MS
    ensures Delay(c, 0) == 0
    ensures Delay(c, 1) == Min(c.initial / NANOS_PER_MS * NANOS_PER_MS, c.max)
    ensures failures > 0 ==> Delay(c, failures + 1) == Min(c.factor * Delay(c, failures), c.max)
  {
    hide Delay, ExactMs;
    ExactBackoff(c, 1);
    ExactMultiplies(c, 1);
    NoDelay(c);
    if failures > 0 {
      ExactBackoff(c, failures);
      ExactBackoff(c, failures + 1);
      ExactMultiplies(c, failures);
      CappedProduct(c.factor, ExactMs(c, failures), NANOS_PER_MS, c.max);
    }
  }

  lemma NoDelay(c: Config)
    ensures Delay(c, 0) == 0
  {
  }

  /** An outage settles at the maximum: with a factor of 2 or more, after as many failures as it has milliseconds. */
  lemma {:induction false} SettlesAtMax(c: Config, failures: nat)
    requires c.factor >= 2 && NANOS_PER_MS <= c.initial && c.initial / NANOS_PER_MS <= U64_MAX
    requires c.max <= U64_MAX * NANOS_PER_MS && c.max <= failures * NANOS_PER_MS && failures > 0
    ensures Delay(c, failures) == c.max
  {
    ExactBackoff(c, failures);
    AtLeastFailures(c, failures);
  }

  lemma {:induction false} AtLeastFailures(c: Config, failures: nat)
    requires c.factor >= 2 && NANOS_PER_MS <= c.initial && failures > 0
    ensures ExactMs(c, failures) >= failures
  {
    hide ExactMs;
    ExactMultiplies(c, 1);
    if failures > 1 {
      AtLeastFailures(c, failures - 1);
      ExactMultiplies(c, failures - 1);
      ProductGrows(c.factor, ExactMs(c, failures - 1));
    }
  }

  lemma {:induction false} ProductGrows(factor: nat, n: nat)
    requires factor >= 2 && n >= 1
    ensures factor * n >= n + 1
  {
    assert factor * n == (factor - 2) * n + n + n;
  }

  /** A longer outage never waits less, whatever saturates on the way. */
  lemma {:induction false} DelayNeverShrinks(c: Config, failures: nat)
    requires c.factor >= 1
    ensures Delay(c, failures) <= Delay(c, failures + 1)
  {
    if failures > 0 {
      var power := Pow(c.factor, failures - 1);
      SaturationIsMin(InitialMs(c), power);
      SaturationIsMin(InitialMs(c), c.factor * power);
      ProductAtLeast(c.factor, power);
      Monotone(InitialMs(c), power, c.factor * power);
    }
  }

  lemma {:induction false} Monotone(a: nat, b: nat, c: nat)
    requires b <= c
    ensures a * b <= a * c
  {
  }
}
