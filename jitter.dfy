/** The delay helpers of internal/auth/kiro/jitter.go. Every draw of the random number
    generator is a parameter: `Int63n(n)` is `r % n` for an arbitrary draw `r`, which
    reaches every value of [0, n), and `Float64()` is a real `u` in [0, 1). */
module Jitter {
  import opened GoTime

  const JitterPercent: real := 0.30

  const ShortDelayMin: int := 50 * Millisecond
  const ShortDelayMax: int := 200 * Millisecond
  const NormalDelayMin: int := 1 * Second
  const NormalDelayMax: int := 3 * Second
  const LongDelayMin: int := 5 * Second
  const LongDelayMax: int := 10 * Second

  const ShortDelayProbability: real := 0.20
  const LongDelayProbability: real := 0.05
  const NormalDelayProbability: real := 0.75

  /** A delay, or the panic `rand.Int63n` raises on a non-positive bound. */
  datatype DelayResult = Delay(duration: int) | Int63nPanic

  /** `rand.Int63n(n)` for the draw `r`. */
  function Int63n(n: int, r: nat): (v: int)
    requires n > 0
    ensures 0 <= v < n
  {
    r % n
  }

  /** Bounds of the truncating conversion to milliseconds. */
  lemma MillisecondsBounds(d: int)
    ensures d >= 0 ==> Milliseconds(d) * Millisecond <= d < Milliseconds(d) * Millisecond + Millisecond
    ensures d < 0 ==> Milliseconds(d) * Millisecond - Millisecond < d <= Milliseconds(d) * Millisecond
  {
    assert Millisecond == 1_000_000;
    if d < 0 {
      var q := (-d) / 1_000_000;
      assert q * 1_000_000 <= -d < q * 1_000_000 + 1_000_000;
    }
  }

  lemma MillisecondsMonotone(a: int, b: int)
    requires a <= b
    ensures Milliseconds(a) <= Milliseconds(b)
  {
    assert Millisecond == 1_000_000;
    if a < 0 && b < 0 {
      assert (-b) / 1_000_000 <= (-a) / 1_000_000;
    }
  }

  /** `RandomDelay(min, max)` as written, with the draw `r`. */
  function RandomDelay(min: int, max: int, r: nat): DelayResult {
    if min >= max then Delay(min)
    else
      var rangeMs := Milliseconds(max) - Milliseconds(min);
      if rangeMs <= 0 then Int63nPanic
      else Delay(min + Int63n(rangeMs, r) * Millisecond)
  }

  /** Where `RandomDelay` does not panic it returns `min` for an empty range and otherwise
      a whole number of milliseconds above `min`, below `max` and below
      `min + (max.ms - min.ms) ms`; every such value is the result of some draw. */
  lemma RandomDelayRange(min: int, max: int, r: nat)
    ensures min >= max ==> RandomDelay(min, max, r) == Delay(min)
    ensures min < max && RandomDelay(min, max, r).Delay? ==>
      var d := RandomDelay(min, max, r).duration;
      min <= d < max
      && d < min + (Milliseconds(max) - Milliseconds(min)) * Millisecond
      && (d - min) % Millisecond == 0
  {
    if min < max {
      var rangeMs := Milliseconds(max) - Milliseconds(min);
      if rangeMs > 0 {
        var k := Int63n(rangeMs, r);
        MillisecondsBounds(min);
        MillisecondsBounds(max);
        assert k * Millisecond <= (rangeMs - 1) * Millisecond by {
          ScaleMonotone(Millisecond, k, rangeMs - 1);
        }
        assert (rangeMs - 1) * Millisecond
               == Milliseconds(max) * Millisecond - Milliseconds(min) * Millisecond - Millisecond;
      }
    }
  }

  lemma ScaleMonotone(c: nat, a: int, b: int)
    requires a <= b
    ensures c * a <= c * b
  {
    assert c * b == c * a + c * (b - a);
  }

  lemma RandomDelayReachesEveryStep(min: int, max: int, k: nat)
    requires min < max && k < Milliseconds(max) - Milliseconds(min)
    ensures RandomDelay(min, max, k) == Delay(min + k * Millisecond)
  {
  }

  /** Bounds whose difference is under a millisecond truncate to the same millisecond,
      and `RandomDelay` then asks `Int63n` for a number below 0 and panics. */
  lemma RandomDelayPanicsOnSubMillisecondRange(r: nat)
    ensures RandomDelay(1, 2, r) == Int63nPanic
    ensures RandomDelay(1 * Millisecond, 1 * Millisecond + 999_999, r) == Int63nPanic
  {
    assert Milliseconds(1) == 0 && Milliseconds(2) == 0;
    assert Milliseconds(1 * Millisecond) == 1 && Milliseconds(1 * Millisecond + 999_999) == 1;
  }

  /** `RandomDelay` as evidently intended: the range is measured on `max - min`, and a
      range shorter than a millisecond yields `min` instead of a panic. */
  function RandomDelayChecked(min: int, max: int, r: nat): (d: int)
    ensures min >= max ==> d == min
    ensures min < max ==> min <= d < max && (d - min) % Millisecond == 0
  {
    if min >= max then min
    else
      var rangeMs := Milliseconds(max - min);
      MillisecondsBounds(max - min);
      if rangeMs <= 0 then min
      else
        var k := Int63n(rangeMs, r);
        ScaleMonotone(Millisecond, k, rangeMs - 1);
        min + k * Millisecond
  }

  /** Where the code as written does not panic, the corrected function agrees with it
      whenever both bounds are whole milliseconds. */
  lemma RandomDelayCheckedAgrees(min: int, max: int, r: nat)
    requires min % Millisecond == 0 && max % Millisecond == 0
    ensures RandomDelay(min, max, r).Delay? ==> RandomDelay(min, max, r).duration == RandomDelayChecked(min, max, r)
  {
    assert Millisecond == 1_000_000;
    if min < max {
      var a, b := min / 1_000_000, max / 1_000_000;
      assert min == a * 1_000_000 && max == b * 1_000_000;
      assert max - min == (b - a) * 1_000_000;
      assert Milliseconds(max - min) == b - a;
      if min >= 0 {
        assert Milliseconds(min) == a;
      } else {
        assert -min == (-a) * 1_000_000;
        assert Milliseconds(min) == a;
      }
      if max >= 0 {
        assert Milliseconds(max) == b;
      } else {
        assert -max == (-b) * 1_000_000;
        assert Milliseconds(max) == b;
      }
    }
  }

  /** The percent `JitterDelay` uses: 0.30 in place of one outside (0, 1]. */
  function EffectivePercent(jitterPercent: real): (p: real)
    ensures 0.0 < p <= 1.0
    ensures 0.0 < jitterPercent <= 1.0 ==> p == jitterPercent
    ensures !(0.0 < jitterPercent <= 1.0) ==> p == JitterPercent
  {
    if jitterPercent <= 0.0 || jitterPercent > 1.0 then JitterPercent else jitterPercent
  }

  /** `JitterDelay(baseDelay, jitterPercent)` with the draw `u` of `Float64()`. */
  function JitterDelay(baseDelay: int, jitterPercent: real, u: real): (d: int)
    requires 0.0 <= u < 1.0
    ensures d >= 0
  {
    var p := EffectivePercent(jitterPercent);
    var jitterRange := baseDelay as real * p;
    var result := TruncReal(Jittered(baseDelay as real, jitterRange, u));
    if result < 0 then 0 else result
  }

  /** `base + (u*2 - 1)*jitterRange`: a point of [base - jitterRange, base + jitterRange). */
  function Jittered(base: real, jitterRange: real, u: real): (x: real)
    requires 0.0 <= u < 1.0
    ensures jitterRange >= 0.0 ==> base - jitterRange <= x
    ensures jitterRange > 0.0 ==> x < base + jitterRange
    ensures jitterRange == 0.0 ==> x == base
  {
    var spread := u * 2.0 - 1.0;
    ScaleBounds(spread, jitterRange);
    base + spread * jitterRange
  }

  /** For a non-negative base the jittered delay lies in base·(1 ± p), up to the
      truncation of the fraction of a nanosecond. */
  lemma JitterDelayBounds(baseDelay: int, jitterPercent: real, u: real)
    requires 0.0 <= u < 1.0 && baseDelay >= 0
    ensures var p := EffectivePercent(jitterPercent);
      var d := JitterDelay(baseDelay, jitterPercent, u) as real;
      baseDelay as real * (1.0 - p) - 1.0 < d
      && (baseDelay > 0 ==> d < baseDelay as real * (1.0 + p))
      && (baseDelay == 0 ==> d == 0.0)
  {
    var p := EffectivePercent(jitterPercent);
    var b := baseDelay as real;
    FractionOf(b, p);
    if baseDelay > 0 {
      PositiveProduct(b, p);
    }
    Distributes(b, p);
  }

  lemma Distributes(b: real, p: real)
    ensures b * (1.0 - p) == b - b * p && b * (1.0 + p) == b + b * p
  {
  }

  lemma PositiveProduct(b: real, p: real)
    requires b > 0.0 && p > 0.0
    ensures b * p > 0.0
  {
  }

  lemma FractionOf(b: real, p: real)
    requires b >= 0.0 && 0.0 <= p <= 1.0
    ensures 0.0 <= b * p <= b
  {
    if b > 0.0 && p > 0.0 {
      assert b * p <= b * 1.0;
    }
  }

  /** s·c lies in [-c, c) for s in [-1, 1) and c > 0. */
  lemma ScaleBounds(s: real, c: real)
    requires -1.0 <= s < 1.0
    ensures c >= 0.0 ==> -c <= s * c
    ensures c > 0.0 ==> s * c < c
    ensures c == 0.0 ==> s * c == 0.0
  {
    if c > 0.0 {
      assert (s + 1.0) * c >= 0.0;
      assert (1.0 - s) * c > 0.0;
    }
  }

  /** One second at the default percent lands between 700ms and 1300ms. */
  lemma JitterDelayOfOneSecond(u: real)
    requires 0.0 <= u < 1.0
    ensures 700 * Millisecond <= JitterDelay(Second, JitterPercent, u) < 1300 * Millisecond
  {
    JitterDelayBounds(Second, JitterPercent, u);
    assert Jittered(Second as real, Second as real * JitterPercent, u) >= 700000000.0;
  }

  /** A negative base always gives 0: the jittered value is never positive. */
  lemma JitterDelayOfNegativeBase(baseDelay: int, jitterPercent: real, u: real)
    requires 0.0 <= u < 1.0 && baseDelay < 0
    ensures JitterDelay(baseDelay, jitterPercent, u) == 0
  {
    var p := EffectivePercent(jitterPercent);
    var b := baseDelay as real;
    var s := u * 2.0 - 1.0;
    ScaleBounds(s, p);
    assert b + s * (b * p) == b * (1.0 + s * p);
    NonPositiveProduct(b, 1.0 + s * p);
  }

  lemma NonPositiveProduct(b: real, c: real)
    requires b < 0.0 && c >= 0.0
    ensures b * c <= 0.0
  {
  }

  /** The bounds of `JitterDelay` at the default percent: within 30% of a positive base,
      and 0 for a base that is not positive. */
  lemma DefaultJitterBounds(baseDelay: int, u: real)
    requires 0.0 <= u < 1.0
    ensures var d := JitterDelay(baseDelay, JitterPercent, u);
      (baseDelay > 0 ==> baseDelay as real * 0.7 - 1.0 < d as real < baseDelay as real * 1.3)
      && (baseDelay <= 0 ==> d == 0)
  {
    if baseDelay >= 0 {
      JitterDelayBounds(baseDelay, JitterPercent, u);
    } else {
      JitterDelayOfNegativeBase(baseDelay, JitterPercent, u);
    }
  }

  /** `JitterDelayDefault`. */
  function JitterDelayDefault(baseDelay: int, u: real): (d: int)
    requires 0.0 <= u < 1.0
    ensures d == JitterDelay(baseDelay, 0.30, u)
    ensures baseDelay > 0 ==> baseDelay as real * 0.7 - 1.0 < d as real < baseDelay as real * 1.3
    ensures baseDelay <= 0 ==> d == 0
  {
    DefaultJitterBounds(baseDelay, u);
    JitterDelay(baseDelay, JitterPercent, u)
  }

  /** The delay before jitter: `baseDelay << attempt` for a non-negative attempt (a negative
      one counts as 0), capped at `maxDelay`. Attempts from 63 on and products beyond int64
      wrap around in Go and are excluded. */
  function Backoff(attempt: int, baseDelay: int, maxDelay: int): (b: int)
    requires attempt < 63
    requires -MaxInt64 - 1 <= baseDelay * Pow2(if attempt < 0 then 0 else attempt) <= MaxInt64
    ensures b <= maxDelay
    ensures b == maxDelay || b == baseDelay * Pow2(if attempt < 0 then 0 else attempt)
  {
    var a := if attempt < 0 then 0 else attempt;
    var backoff := baseDelay * Pow2(a);
    if backoff > maxDelay then maxDelay else backoff
  }

  /** `ExponentialBackoffWithJitter(attempt, baseDelay, maxDelay)` with the draw `u`. */
  function ExponentialBackoffWithJitter(attempt: int, baseDelay: int, maxDelay: int, u: real): (d: int)
    requires 0.0 <= u < 1.0
    requires attempt < 63
    requires -MaxInt64 - 1 <= baseDelay * Pow2(if attempt < 0 then 0 else attempt) <= MaxInt64
    ensures d == JitterDelay(Backoff(attempt, baseDelay, maxDelay), JitterPercent, u)
    ensures baseDelay >= 0 && maxDelay > 0 ==> d as real < maxDelay as real * 1.3
    ensures maxDelay <= 0 ==> d == 0
  {
    BackoffJitterBound(attempt, baseDelay, maxDelay, u);
    JitterDelay(Backoff(attempt, baseDelay, maxDelay), JitterPercent, u)
  }

  /** The backoff doubles per attempt until it reaches the cap. */
  lemma BackoffGrowsToCap(attempt: nat, baseDelay: nat, maxDelay: int)
    requires attempt < 62
    requires baseDelay * Pow2(attempt) <= baseDelay * Pow2(attempt + 1) <= MaxInt64
    ensures Backoff(attempt, baseDelay, maxDelay) <= Backoff(attempt + 1, baseDelay, maxDelay)
    ensures baseDelay * Pow2(attempt + 1) <= maxDelay ==>
      Backoff(attempt + 1, baseDelay, maxDelay) == 2 * Backoff(attempt, baseDelay, maxDelay)
  {
    var p := Pow2(attempt);
    assert Pow2(attempt + 1) == 2 * p;
    assert baseDelay * Pow2(attempt + 1) == 2 * (baseDelay * p);
  }

  /** A negative attempt is attempt 0. */
  lemma BackoffOfNegativeAttempt(attempt: int, baseDelay: int, maxDelay: int)
    requires attempt < 0 && -MaxInt64 - 1 <= baseDelay <= MaxInt64
    ensures Backoff(attempt, baseDelay, maxDelay) == Backoff(0, baseDelay, maxDelay)
            == (if baseDelay > maxDelay then maxDelay else baseDelay)
  {
  }

  /** The jitter is applied after the cap, so the result can exceed `maxDelay`, by at most
      30%. */
  lemma BackoffJitterExceedsCap()
    ensures ExponentialBackoffWithJitter(0, Second, Second, 0.9) > Second
  {
    assert Backoff(0, Second, Second) == Second;
  }

  /** The jittered backoff stays below 1.3 times a positive cap, and is 0 when the cap is
      not positive. */
  lemma BackoffJitterBound(attempt: int, baseDelay: int, maxDelay: int, u: real)
    requires 0.0 <= u < 1.0 && attempt < 63
    requires -MaxInt64 - 1 <= baseDelay * Pow2(if attempt < 0 then 0 else attempt) <= MaxInt64
    ensures var d := JitterDelay(Backoff(attempt, baseDelay, maxDelay), JitterPercent, u);
      (baseDelay >= 0 && maxDelay > 0 ==> d as real < maxDelay as real * 1.3)
      && (maxDelay <= 0 ==> d == 0)
  {
    var b := Backoff(attempt, baseDelay, maxDelay);
    DefaultJitterBounds(b, u);
    if b > 0 {
      assert b as real * 1.3 <= maxDelay as real * 1.3;
    }
  }

  /** The short, long or normal window a roll of `Float64()` selects. */
  function DelayBucket(roll: real): (w: (int, int))
    ensures roll < ShortDelayProbability ==> w == (ShortDelayMin, ShortDelayMax)
    ensures ShortDelayProbability <= roll < 0.25 ==> w == (LongDelayMin, LongDelayMax)
    ensures roll >= 0.25 ==> w == (NormalDelayMin, NormalDelayMax)
  {
    if roll < ShortDelayProbability then (ShortDelayMin, ShortDelayMax)
    else if roll < ShortDelayProbability + LongDelayProbability then (LongDelayMin, LongDelayMax)
    else (NormalDelayMin, NormalDelayMax)
  }

  /** The delay `HumanLikeDelay` returns when the previous call was at `last`: `r` is the
      draw of `Int63n`, `roll` that of `Float64()`. */
  function HumanLikeDelayOf(last: int, now: int, r: nat, roll: real): int {
    var gap := now - last;
    if gap < 500 * Millisecond && gap > 0 then
      ShortDelayMin + Int63n(Milliseconds(ShortDelayMax) - Milliseconds(ShortDelayMin), r) * Millisecond
    else
      var (lo, hi) := DelayBucket(roll);
      lo + Int63n(Milliseconds(hi) - Milliseconds(lo), r) * Millisecond
  }

  /** A call within half a second of the previous one waits 50-200ms; otherwise the roll
      picks the window and the delay lies in it. */
  lemma HumanLikeDelayRange(last: int, now: int, r: nat, roll: real)
    ensures var d := HumanLikeDelayOf(last, now, r, roll);
      var gap := now - last;
      (0 < gap < 500 * Millisecond ==> ShortDelayMin <= d < ShortDelayMax)
      && (!(0 < gap < 500 * Millisecond) ==> DelayBucket(roll).0 <= d < DelayBucket(roll).1)
  {
    var gap := now - last;
    if !(0 < gap < 500 * Millisecond) {
      var (lo, hi) := DelayBucket(roll);
      var k := Int63n(Milliseconds(hi) - Milliseconds(lo), r);
      ScaleMonotone(Millisecond, k, Milliseconds(hi) - Milliseconds(lo) - 1);
    } else {
      var k := Int63n(Milliseconds(ShortDelayMax) - Milliseconds(ShortDelayMin), r);
      ScaleMonotone(Millisecond, k, 149);
    }
  }

  /** `ShouldSkipDelay`: delays are skipped exactly for streaming responses. */
  function ShouldSkipDelay(isStreaming: bool): (skip: bool)
    ensures skip <==> isStreaming
  {
    isStreaming
  }

  /** The package-level `lastRequestTime` tracker. */
  class JitterState {
    var lastRequestTime: int

    constructor ()
      ensures lastRequestTime == ZeroTime
    {
      lastRequestTime := ZeroTime;
    }

    /** `HumanLikeDelay` at `now`: records the call and returns the delay. */
    method HumanLikeDelay(now: int, r: nat, roll: real) returns (d: int)
      modifies this
      ensures lastRequestTime == now
      ensures d == HumanLikeDelayOf(old(lastRequestTime), now, r, roll)
    {
      var timeSinceLastRequest := now - lastRequestTime;
      lastRequestTime := now;
      if timeSinceLastRequest < 500 * Millisecond && timeSinceLastRequest > 0 {
        var rangeMs := Milliseconds(ShortDelayMax) - Milliseconds(ShortDelayMin);
        var randomMs := Int63n(rangeMs, r);
        return ShortDelayMin + randomMs * Millisecond;
      }
      var min, max;
      if roll < ShortDelayProbability {
        min, max := ShortDelayMin, ShortDelayMax;
      } else if roll < ShortDelayProbability + LongDelayProbability {
        min, max := LongDelayMin, LongDelayMax;
      } else {
        min, max := NormalDelayMin, NormalDelayMax;
      }
      var rangeMs := Milliseconds(max) - Milliseconds(min);
      var randomMs := Int63n(rangeMs, r);
      d := min + randomMs * Millisecond;
    }

    method ResetLastRequestTime()
      modifies this
      ensures lastRequestTime == ZeroTime
    {
      lastRequestTime := ZeroTime;
    }
  }

  /** After a reset the next call, made half a second or more past the zero time, never
      takes the consecutive-call path: its delay depends on the roll alone. */
  lemma ResetForgetsLastRequest(now: int, r: nat, roll: real)
    requires now >= 500 * Millisecond
    ensures var d := HumanLikeDelayOf(ZeroTime, now, r, roll);
      DelayBucket(roll).0 <= d < DelayBucket(roll).1
  {
    HumanLikeDelayRange(ZeroTime, now, r, roll);
  }
}
