/** The cooldown tracker of internal/auth/kiro/cooldown.go: per-credential suppression
    windows, each with an end time and a reason kept in two maps updated together. */
module Cooldown {
  import opened GoTime

  const CooldownReason429: string := "rate_limit_exceeded"
  const CooldownReasonSuspended: string := "account_suspended"
  const CooldownReasonQuotaExhausted: string := "quota_exhausted"

  const DefaultShortCooldown: int := 1 * Minute
  const MaxShortCooldown: int := 5 * Minute
  const LongCooldown: int := 24 * Hour

  /** An entry is active while `now` is strictly before its end (`now.Before(end)`). */
  predicate Active(cooldowns: map<string, int>, tokenKey: string, now: int) {
    tokenKey in cooldowns && now < cooldowns[tokenKey]
  }

  /** What `GetRemainingCooldown` reports: the time left, never negative. */
  function Remaining(cooldowns: map<string, int>, tokenKey: string, now: int): (r: int)
    ensures r >= 0
    ensures r > 0 <==> Active(cooldowns, tokenKey, now)
    ensures Active(cooldowns, tokenKey, now) ==> r == cooldowns[tokenKey] - now
  {
    if tokenKey !in cooldowns then 0
    else if cooldowns[tokenKey] - now < 0 then 0
    else cooldowns[tokenKey] - now
  }

  /** Reading a Go map at an absent key yields the zero value, "" for a string. */
  function ReasonOf(reasons: map<string, string>, tokenKey: string): (r: string)
    ensures tokenKey !in reasons ==> r == ""
    ensures tokenKey in reasons ==> r == reasons[tokenKey]
  {
    if tokenKey in reasons then reasons[tokenKey] else ""
  }

  /** The entries `CleanupExpired` keeps: those whose end is not strictly before `now`. */
  function Unexpired<V>(m: map<string, V>, cooldowns: map<string, int>, now: int): (r: map<string, V>)
    ensures forall k :: k in r <==> k in m && !(k in cooldowns && now > cooldowns[k])
    ensures forall k :: k in r ==> r[k] == m[k]
  {
    map k | k in m && !(k in cooldowns && now > cooldowns[k]) :: m[k]
  }

  class CooldownManager {
    var cooldowns: map<string, int>
    var reasons: map<string, string>

    /** The two maps always have the same keys. */
    ghost predicate Valid()
      reads this
    {
      cooldowns.Keys == reasons.Keys
    }

    constructor ()
      ensures Valid() && cooldowns == map[] && reasons == map[]
    {
      cooldowns := map[];
      reasons := map[];
    }

    method SetCooldown(tokenKey: string, duration: int, reason: string, now: int)
      requires Valid()
      modifies this
      ensures Valid()
      ensures cooldowns == old(cooldowns)[tokenKey := now + duration]
      ensures reasons == old(reasons)[tokenKey := reason]
    {
      cooldowns := cooldowns[tokenKey := now + duration];
      reasons := reasons[tokenKey := reason];
    }

    method IsInCooldown(tokenKey: string, now: int) returns (b: bool)
      ensures b == Active(cooldowns, tokenKey, now)
    {
      if tokenKey !in cooldowns {
        return false;
      }
      b := now < cooldowns[tokenKey];
    }

    method GetRemainingCooldown(tokenKey: string, now: int) returns (d: int)
      ensures d == Remaining(cooldowns, tokenKey, now)
    {
      if tokenKey !in cooldowns {
        return 0;
      }
      var remaining := cooldowns[tokenKey] - now;
      if remaining < 0 {
        return 0;
      }
      d := remaining;
    }

    method GetCooldownReason(tokenKey: string) returns (r: string)
      ensures r == ReasonOf(reasons, tokenKey)
    {
      r := if tokenKey in reasons then reasons[tokenKey] else "";
    }

    method ClearCooldown(tokenKey: string)
      requires Valid()
      modifies this
      ensures Valid()
      ensures cooldowns == old(cooldowns) - {tokenKey}
      ensures reasons == old(reasons) - {tokenKey}
    {
      cooldowns := cooldowns - {tokenKey};
      reasons := reasons - {tokenKey};
    }

    /** Deletes, inside a loop over the keys, every entry whose end is strictly before `now`. */
    method CleanupExpired(now: int)
      requires Valid()
      modifies this
      ensures Valid()
      ensures cooldowns == Unexpired(old(cooldowns), old(cooldowns), now)
      ensures reasons == Unexpired(old(reasons), old(cooldowns), now)
    {
      var todo := cooldowns.Keys;
      ghost var c0, r0 := cooldowns, reasons;
      while todo != {}
        invariant todo <= c0.Keys
        invariant cooldowns.Keys == reasons.Keys
        invariant forall k :: k in cooldowns <==> k in c0 && (k in todo || !(now > c0[k]))
        invariant forall k :: k in cooldowns ==> cooldowns[k] == c0[k] && reasons[k] == r0[k]
        decreases todo
      {
        var k :| k in todo;
        if now > cooldowns[k] {
          cooldowns := cooldowns - {k};
          reasons := reasons - {k};
        }
        todo := todo - {k};
      }
    }

    /** `StartCleanupRoutine`: one `CleanupExpired` per ticker tick until the stop channel
        fires; `ticks` are the clock readings at the ticks received before the stop. */
    method StartCleanupRoutine(ticks: seq<int>)
      requires Valid()
      requires forall i, j :: 0 <= i < j < |ticks| ==> ticks[i] <= ticks[j]
      modifies this
      ensures Valid()
      ensures ticks == [] ==> cooldowns == old(cooldowns) && reasons == old(reasons)
      ensures ticks != [] ==> cooldowns == Unexpired(old(cooldowns), old(cooldowns), ticks[|ticks| - 1])
      ensures ticks != [] ==> reasons == Unexpired(old(reasons), old(cooldowns), ticks[|ticks| - 1])
    {
      ghost var c0, r0 := cooldowns, reasons;
      var i := 0;
      while i < |ticks|
        invariant 0 <= i <= |ticks|
        invariant Valid()
        invariant i == 0 ==> cooldowns == c0 && reasons == r0
        invariant i > 0 ==> cooldowns == Unexpired(c0, c0, ticks[i - 1])
        invariant i > 0 ==> reasons == Unexpired(r0, c0, ticks[i - 1])
      {
        CleanupExpired(ticks[i]);
        if i > 0 {
          CleanupComposes(c0, c0, ticks[i - 1], ticks[i]);
          CleanupComposes(r0, c0, ticks[i - 1], ticks[i]);
        }
        i := i + 1;
      }
    }
  }

  /** Two sweeps at t1 <= t2 remove what one sweep at t2 removes. */
  lemma CleanupComposes<V>(m: map<string, V>, cooldowns: map<string, int>, t1: int, t2: int)
    requires t1 <= t2
    ensures Unexpired(Unexpired(m, cooldowns, t1), Unexpired(cooldowns, cooldowns, t1), t2)
            == Unexpired(m, cooldowns, t2)
  {
  }

  /** The sweep is invisible to `IsInCooldown` and `GetRemainingCooldown` at the same instant. */
  lemma CleanupPreservesObservations(cooldowns: map<string, int>, tokenKey: string, now: int)
    ensures var kept := Unexpired(cooldowns, cooldowns, now);
      Active(kept, tokenKey, now) == Active(cooldowns, tokenKey, now)
      && Remaining(kept, tokenKey, now) == Remaining(cooldowns, tokenKey, now)
  {
  }

  /** An entry ending exactly at `now` is already inactive, yet the sweep keeps it. */
  lemma CleanupKeepsEntryEndingNow(cooldowns: map<string, int>, tokenKey: string, now: int)
    requires tokenKey in cooldowns && cooldowns[tokenKey] == now
    ensures !Active(cooldowns, tokenKey, now)
    ensures tokenKey in Unexpired(cooldowns, cooldowns, now)
  {
  }

  /** After `SetCooldown(k, d, reason)` at `now`, k is active exactly when d > 0, has d
      left, reads back `reason`, and every other key reads as before. */
  lemma SetCooldownEffect(cooldowns: map<string, int>, reasons: map<string, string>,
                          tokenKey: string, duration: int, reason: string, now: int, other: string)
    requires other != tokenKey
    ensures var c := cooldowns[tokenKey := now + duration];
      (Active(c, tokenKey, now) <==> duration > 0)
      && Remaining(c, tokenKey, now) == (if duration > 0 then duration else 0)
      && ReasonOf(reasons[tokenKey := reason], tokenKey) == reason
      && Active(c, other, now) == Active(cooldowns, other, now)
      && Remaining(c, other, now) == Remaining(cooldowns, other, now)
      && ReasonOf(reasons[tokenKey := reason], other) == ReasonOf(reasons, other)
  {
  }

  /** After `ClearCooldown(k)` the key is inactive with reason "" and nothing else changed. */
  lemma ClearCooldownEffect(cooldowns: map<string, int>, reasons: map<string, string>,
                            tokenKey: string, now: int, other: string)
    requires other != tokenKey
    ensures !Active(cooldowns - {tokenKey}, tokenKey, now)
    ensures ReasonOf(reasons - {tokenKey}, tokenKey) == ""
    ensures Active(cooldowns - {tokenKey}, other, now) == Active(cooldowns, other, now)
    ensures ReasonOf(reasons - {tokenKey}, other) == ReasonOf(reasons, other)
  {
  }

  /** `CalculateCooldownFor429` as Go evaluates it: `1<<retryCount` is an int64, which
      is 0 once the count reaches 64, and the product with `DefaultShortCooldown` wraps
      around modulo 2^64. A negative shift count panics, so the count is a `nat`. */
  function CooldownFor429AsWritten(retryCount: nat): (d: int)
    ensures d <= MaxShortCooldown
  {
    var shifted := if retryCount >= 64 then 0 else WrapInt64(Pow2(retryCount));
    var duration := WrapInt64(DefaultShortCooldown * shifted);
    if duration > MaxShortCooldown then MaxShortCooldown else duration
  }

  /** From the 28th retry on the product leaves int64: at 28 it wraps to a negative
      duration, so the credential is not cooled down at all. */
  lemma CooldownFor429NegativeAt28()
    ensures CooldownFor429AsWritten(28) < 0
  {
    assert Pow2(28) == 268435456 by { Pow2Value28(); }
    assert WrapInt64(Pow2(28)) == 268435456;
  }

  lemma Pow2Value28()
    ensures Pow2(28) == 268435456
  {
    assert Pow2(4) == 16;
    assert Pow2(8) == 256;
    assert Pow2(12) == 4096;
    assert Pow2(16) == 65536;
    assert Pow2(20) == 1048576;
    assert Pow2(24) == 16777216;
  }

  /** `CalculateCooldownFor429` as intended: `DefaultShortCooldown · 2^retryCount` in
      unbounded arithmetic, capped at `MaxShortCooldown`. */
  function CalculateCooldownFor429(retryCount: nat): (d: int)
    ensures 0 < d <= MaxShortCooldown
  {
    var duration := DefaultShortCooldown * Pow2(retryCount);
    if duration > MaxShortCooldown then MaxShortCooldown else duration
  }

  /** Up to the 27th retry no int64 overflow happens and the code computes the intended
      cooldown. */
  lemma CooldownFor429AgreesBelow28(retryCount: nat)
    requires retryCount <= 27
    ensures CooldownFor429AsWritten(retryCount) == CalculateCooldownFor429(retryCount)
  {
    Pow2Monotone(retryCount, 27);
    assert Pow2(27) == 134217728 by { Pow2Value28(); }
    ScaleMonotone(DefaultShortCooldown, Pow2(retryCount), Pow2(27));
  }

  /** The cooldown for a 429 is 1, 2 and 4 minutes for the first three retries and the
      5-minute cap from then on. */
  lemma {:induction false} CooldownFor429Values(retryCount: nat)
    ensures retryCount == 0 ==> CalculateCooldownFor429(retryCount) == DefaultShortCooldown
    ensures retryCount == 1 ==> CalculateCooldownFor429(retryCount) == 2 * Minute
    ensures retryCount == 2 ==> CalculateCooldownFor429(retryCount) == 4 * Minute
    ensures retryCount >= 3 ==> CalculateCooldownFor429(retryCount) == MaxShortCooldown
  {
    if retryCount >= 3 {
      Pow2Monotone(3, retryCount);
    }
  }

  lemma CooldownFor429Monotone(r1: nat, r2: nat)
    requires r1 <= r2
    ensures CalculateCooldownFor429(r1) <= CalculateCooldownFor429(r2)
  {
    Pow2Monotone(r1, r2);
    ScaleMonotone(DefaultShortCooldown, Pow2(r1), Pow2(r2));
  }

  lemma ScaleMonotone(c: nat, a: nat, b: nat)
    requires a <= b
    ensures c * a <= c * b
  {
    assert c * b == c * a + c * (b - a);
  }
}
