/** util/conn/manager.go: exponential backoff with jitter, shared by the connection manager and the Consul loop.
    Durations are nanoseconds. */
module Backoff {
  const SECOND := 1_000_000_000
  const MINUTE := 60 * SECOND

  /** `rand.Float64() + 0.5`. */
  type Jitter = j: real | 0.5 <= j < 1.5 witness 1.0

  /** Conversion to an integer drops the fraction, towards zero. */
  function Truncated(x: real): int {
    if x >= 0.0 then x.Floor else -(-x).Floor
  }

  function Capped(longer: int): int {
    if longer > MINUTE then MINUTE else longer
  }

  function Next(d: int, jitter: Jitter): int {
    Capped(Truncated((d * 2) as real * jitter))
  }

  /** Twice the duration, stretched by the jitter: rounded down, or a minute if that is less. */
  predicate Doubled(duration: int, jitter: Jitter, d: int) {
    var longer := (duration * 2) as real * jitter;
    (d < MINUTE && d as real <= longer < (d + 1) as real) || (d == MINUTE && longer >= MINUTE as real)
  }

  method Exponential(duration: int, jitter: Jitter) returns (d: int)
    ensures d == Next(duration, jitter)
    ensures duration >= 0 ==> Doubled(duration, jitter, d)
  {
    NextDoubles(duration, jitter);
    d := duration * 2;
    d := Truncated(d as real * jitter);
    if d > MINUTE { d := MINUTE; }
  }

  lemma NextDoubles(duration: int, jitter: Jitter)
    ensures duration >= 0 ==> Doubled(duration, jitter, Next(duration, jitter))
  {
    if duration >= 0 { Nonnegative((duration * 2) as real, jitter); }
  }

  /** Only one duration is the doubled one. */
  lemma DoubledIsUnique(duration: int, jitter: Jitter, d: int, e: int)
    requires Doubled(duration, jitter, d) && Doubled(duration, jitter, e)
    ensures d == e
  {
  }

  /** A wait never shrinks, at most triples, and is never more than a minute. */
  lemma NextBounds(d: int, jitter: Jitter)
    requires 0 <= d <= MINUTE
    ensures d <= Next(d, jitter) <= MINUTE && Next(d, jitter) <= 3 * d
  {
    Scaled((d * 2) as real, d, jitter);
    CappedBounds(d, Truncated((d * 2) as real * jitter));
  }

  lemma CappedBounds(d: nat, longer: int)
    requires d <= MINUTE && d <= longer <= 3 * d
    ensures d <= Capped(longer) <= MINUTE && Capped(longer) <= 3 * d
  {
  }

  lemma Scaled(x: real, d: nat, jitter: Jitter)
    requires x == (d * 2) as real
    ensures d <= Truncated(x * jitter) <= 3 * d
  {
    var y := x * jitter;
    Nonnegative(x, jitter - 0.5);
    Nonnegative(x, 1.5 - jitter);
    assert y == 0.5 * x + x * (jitter - 0.5) && y == 1.5 * x - x * (1.5 - jitter);
    Between(y, d, 3 * d);
  }

  lemma Nonnegative(x: real, y: real)
    requires x >= 0.0 && y >= 0.0
    ensures x * y >= 0.0
  {
  }

  lemma Between(y: real, low: nat, high: nat)
    requires low as real <= y <= high as real
    ensures low <= Truncated(y) <= high
  {
  }

  function Power3(k: nat): (p: nat)
    ensures p >= 1
  {
    if k == 0 then 1 else 3 * Power3(k - 1)
  }

  /** The longest wait there can be after `k` failures in a row, starting from `least`. */
  function Cap(least: nat, k: nat): nat {
    if Power3(k) * least > MINUTE then MINUTE else Power3(k) * least
  }

  lemma NextUnderCap(least: nat, d: int, k: nat, jitter: Jitter)
    requires least <= d <= Cap(least, k) && least <= MINUTE
    ensures least <= d <= Next(d, jitter) <= Cap(least, k + 1)
  {
    NextBounds(d, jitter);
    assert Power3(k + 1) * least == 3 * (Power3(k) * least);
  }

  function Power2(k: nat): (p: nat)
    ensures p >= 1
  {
    if k == 0 then 1 else 2 * Power2(k - 1)
  }

  /** The shortest wait there can be after `k` failures in a row whose jitter did not shorten it. */
  function Floor(least: nat, k: nat): nat {
    if Power2(k) * least > MINUTE then MINUTE else Power2(k) * least
  }

  lemma NextOverFloor(least: nat, d: int, k: nat, jitter: Jitter)
    requires Floor(least, k) <= d <= MINUTE && jitter >= 1.0
    ensures Floor(least, k + 1) <= Next(d, jitter)
  {
    assert Power2(k + 1) * least == 2 * (Power2(k) * least);
    AtLeastTwice(d, jitter);
  }

  lemma AtLeastTwice(d: nat, jitter: Jitter)
    requires jitter >= 1.0
    ensures Next(d, jitter) >= if 2 * d > MINUTE then MINUTE else 2 * d
  {
    var x := (d * 2) as real;
    Nonnegative(x, jitter - 1.0);
    assert x * jitter == x + x * (jitter - 1.0);
    assert Truncated(x * jitter) >= 2 * d;
  }
}
