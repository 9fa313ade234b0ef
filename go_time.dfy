/** Go's `time` package as the modelled code uses it. A `time.Time` is an int number of
    nanoseconds on Go's absolute scale, whose origin is the zero Time (January 1, year 1,
    UTC), so `t.IsZero()` is `t == 0`; a `time.Duration` is an int number of nanoseconds. */
module GoTime {

  const Nanosecond: int := 1
  const Microsecond: int := 1000
  const Millisecond: int := 1_000_000
  const Second: int := 1_000_000_000
  const Minute: int := 60 * Second
  const Hour: int := 60 * Minute

  const MaxInt64: int := 0x7FFF_FFFF_FFFF_FFFF

  /** The zero `time.Time{}`. */
  const ZeroTime: int := 0

  predicate IsZero(t: int) {
    t == ZeroTime
  }

  /** Go's integer `/`, which truncates toward zero (Dafny's rounds toward negative infinity). */
  function TruncDiv(a: int, b: int): (q: int)
    requires b > 0
    ensures a >= 0 ==> q == a / b
    ensures a < 0 ==> q == -((-a) / b)
  {
    if a >= 0 then a / b else -((-a) / b)
  }

  /** `d.Milliseconds()`. */
  function Milliseconds(d: int): int {
    TruncDiv(d, Millisecond)
  }

  /** `d.Seconds()`: the duration as a float64 number of seconds. */
  function Seconds(d: int): (s: real)
    ensures d >= 0 ==> s >= 0.0
  {
    d as real / 1_000_000_000.0
  }

  /** Converting a float64 to an integer type: the fraction is dropped (truncation toward zero). */
  function TruncReal(x: real): (n: int)
    ensures x >= 0.0 ==> n as real <= x < n as real + 1.0
    ensures x < 0.0 ==> n as real - 1.0 < x <= n as real
  {
    if x >= 0.0 then x.Floor else -((-x).Floor)
  }

  /** An int64 result: the mathematical value reduced modulo 2^64 into the signed range. */
  function WrapInt64(x: int): (w: int)
    ensures -MaxInt64 - 1 <= w <= MaxInt64
    ensures (x - w) % 0x1_0000_0000_0000_0000 == 0
    ensures -MaxInt64 - 1 <= x <= MaxInt64 ==> w == x
  {
    var m := x % 0x1_0000_0000_0000_0000;
    if m > MaxInt64 then m - 0x1_0000_0000_0000_0000 else m
  }

  function Pow2(n: nat): (p: nat)
    ensures p >= 1
  {
    if n == 0 then 1 else 2 * Pow2(n - 1)
  }

  lemma {:induction false} Pow2Monotone(m: nat, n: nat)
    requires m <= n
    ensures Pow2(m) <= Pow2(n)
    decreases n
  {
    if m < n {
      Pow2Monotone(m, n - 1);
    }
  }
}
