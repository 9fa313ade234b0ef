/** The token scorer of internal/auth/kiro/metrics.go: per-credential request counters and
    a weighted score used to pick a credential. float64 quantities are reals; the two
    `math.Exp` terms go through the parameter `exp`. */
module Metrics {
  import opened Wrappers
  import opened GoTime

  /** `TokenMetrics`; the last two fields are the unexported `successCount` and `totalLatency`. */
  datatype TokenMetrics = TokenMetrics(
    successRate: real,
    avgLatency: real,
    quotaRemaining: real,
    lastUsed: int,
    failCount: nat,
    totalRequests: nat,
    successCount: nat,
    totalLatency: real)

  /** The weights `NewTokenScorer` installs; nothing changes them afterwards. */
  const SuccessRateWeight: real := 0.4
  const QuotaWeight: real := 0.25
  const LatencyWeight: real := 0.2
  const LastUsedWeight: real := 0.15
  const FailPenaltyMultiplier: real := 0.1

  /** The record `getOrCreateMetrics` inserts for an unknown key. */
  const Fresh: TokenMetrics := TokenMetrics(1.0, 0.0, 1.0, ZeroTime, 0, 0, 0, 0.0)

  /** The record `getOrCreateMetrics` works on. */
  function Lookup(metrics: map<string, TokenMetrics>, tokenKey: string): TokenMetrics {
    if tokenKey in metrics then metrics[tokenKey] else Fresh
  }

  /** What every stored record satisfies: the derived rates agree with the counters, the
      consecutive failures and the successes together never exceed the requests, and a
      record nobody has recorded into is the fresh one, up to its quota. */
  ghost predicate Consistent(m: TokenMetrics) {
    m.successCount + m.failCount <= m.totalRequests
    && (m.totalRequests > 0 ==>
          m.successRate == m.successCount as real / m.totalRequests as real
          && m.avgLatency == m.totalLatency / m.totalRequests as real)
    && (m.totalRequests == 0 ==> m == Fresh.(quotaRemaining := m.quotaRemaining))
  }

  /** The record after `RecordRequest(success, latency)` at `now`. */
  function Recorded(m: TokenMetrics, success: bool, latency: int, now: int): (r: TokenMetrics)
    ensures r.totalRequests == m.totalRequests + 1 && r.lastUsed == now
    ensures r.totalLatency == m.totalLatency + Milliseconds(latency) as real
    ensures success ==> r.successCount == m.successCount + 1 && r.failCount == 0
    ensures !success ==> r.successCount == m.successCount && r.failCount == m.failCount + 1
    ensures r.successRate == r.successCount as real / r.totalRequests as real
    ensures r.avgLatency == r.totalLatency / r.totalRequests as real
    ensures r.quotaRemaining == m.quotaRemaining
  {
    var total := m.totalRequests + 1;
    var latencySum := m.totalLatency + Milliseconds(latency) as real;
    var successes := if success then m.successCount + 1 else m.successCount;
    TokenMetrics(successes as real / total as real, latencySum / total as real, m.quotaRemaining,
                 now, if success then 0 else m.failCount + 1, total, successes, latencySum)
  }

  lemma FreshIsConsistent()
    ensures Consistent(Fresh)
    ensures Fresh.successRate == 1.0 && Fresh.quotaRemaining == 1.0
    ensures Fresh.failCount == 0 && Fresh.totalRequests == 0 && Fresh.successCount == 0
    ensures IsZero(Fresh.lastUsed)
  {
  }

  /** Recording keeps a record consistent, and the success rate stays within [0, 1]. */
  lemma RecordedConsistent(m: TokenMetrics, success: bool, latency: int, now: int)
    requires Consistent(m)
    ensures Consistent(Recorded(m, success, latency, now))
    ensures 0.0 <= Recorded(m, success, latency, now).successRate <= 1.0
  {
    var r := Recorded(m, success, latency, now);
    assert r.successCount <= r.totalRequests;
    SuccessRateBounded(r.successCount, r.totalRequests);
  }

  lemma SuccessRateBounded(successes: nat, total: nat)
    requires 0 < total && successes <= total
    ensures 0.0 <= successes as real / total as real <= 1.0
  {
    assert successes as real <= total as real;
  }

  /** `CalculateScore` at `now`. `exp` stands for `math.Exp`. */
  function Score(metrics: map<string, TokenMetrics>, tokenKey: string, now: int, exp: real -> real): real {
    if tokenKey !in metrics then 1.0
    else
      var m := metrics[tokenKey];
      var score := WeightedScore(m.successRate, m.quotaRemaining, LatencyScore(m, exp), LastUsedScore(m, now, exp));
      if m.failCount > 0 then score * FailPenalty(m.failCount)
      else score
  }

  /** `exp(-avgLatency/1000)`, or 1.0 before the first request. */
  function LatencyScore(m: TokenMetrics, exp: real -> real): (r: real)
    ensures m.totalRequests == 0 ==> r == 1.0
    ensures (forall x: real :: x <= 0.0 ==> 0.0 <= exp(x) <= 1.0) && m.avgLatency >= 0.0 ==> 0.0 <= r <= 1.0
  {
    if m.totalRequests == 0 then 1.0 else exp(-m.avgLatency / 1000.0)
  }

  /** `1 - exp(-secondsSinceUse/60)`, or 1.0 for a record never used. */
  function LastUsedScore(m: TokenMetrics, now: int, exp: real -> real): (r: real)
    ensures IsZero(m.lastUsed) ==> r == 1.0
    ensures (forall x: real :: x <= 0.0 ==> 0.0 <= exp(x) <= 1.0) && m.lastUsed <= now ==> 0.0 <= r <= 1.0
  {
    if IsZero(m.lastUsed) then 1.0 else 1.0 - exp(-Seconds(now - m.lastUsed) / 60.0)
  }

  /** The weighted sum of the four components; the weights sum to 1. */
  function WeightedScore(successRate: real, quota: real, latencyScore: real, lastUsedScore: real): (r: real)
    ensures (0.0 <= successRate <= 1.0 && 0.0 <= quota <= 1.0 && 0.0 <= latencyScore <= 1.0
             && 0.0 <= lastUsedScore <= 1.0) ==> 0.0 <= r <= 1.0
  {
    SuccessRateWeight * successRate + QuotaWeight * quota + LatencyWeight * latencyScore
    + LastUsedWeight * lastUsedScore
  }

  /** The factor `math.Max(0, 1 - failCount*FailPenaltyMultiplier)`. */
  function FailPenalty(failCount: nat): (f: real)
    ensures 0.0 <= f <= 1.0
    ensures failCount >= 10 ==> f == 0.0
  {
    Max(0.0, 1.0 - FailPenaltyMultiplier * failCount as real)
  }

  function Max(a: real, b: real): real {
    if a >= b then a else b
  }

  /** An unknown key scores 1.0, as a new credential should be tried. */
  lemma ScoreOfUnknown(metrics: map<string, TokenMetrics>, tokenKey: string, now: int, exp: real -> real)
    requires tokenKey !in metrics
    ensures Score(metrics, tokenKey, now, exp) == 1.0
  {
  }

  /** A record that took no request yet scores full marks on all but the quota term. */
  lemma ScoreOfUnused(metrics: map<string, TokenMetrics>, tokenKey: string, now: int, exp: real -> real)
    requires tokenKey in metrics && Consistent(metrics[tokenKey])
    requires metrics[tokenKey].totalRequests == 0
    ensures Score(metrics, tokenKey, now, exp) == 0.4 + 0.25 * metrics[tokenKey].quotaRemaining + 0.2 + 0.15
  {
  }

  /** Ten or more consecutive failures bring the score down to 0. */
  lemma ScoreAfterTenFailures(metrics: map<string, TokenMetrics>, tokenKey: string, now: int, exp: real -> real)
    requires tokenKey in metrics && metrics[tokenKey].failCount >= 10
    ensures Score(metrics, tokenKey, now, exp) == 0.0
  {
    var f := metrics[tokenKey].failCount as real;
    assert 1.0 - FailPenaltyMultiplier * f <= 0.0;
  }

  /** With both exp terms in [0, 1], a non-negative latency, a quota fraction and a clock
      not behind the last use, the score lies in [0, 1]. */
  lemma ScoreInUnitInterval(metrics: map<string, TokenMetrics>, tokenKey: string, now: int, exp: real -> real)
    requires forall x: real :: x <= 0.0 ==> 0.0 <= exp(x) <= 1.0
    requires tokenKey in metrics ==> Consistent(metrics[tokenKey])
    requires tokenKey in metrics ==> 0.0 <= metrics[tokenKey].avgLatency
    requires tokenKey in metrics ==> 0.0 <= metrics[tokenKey].quotaRemaining <= 1.0
    requires tokenKey in metrics ==> metrics[tokenKey].lastUsed <= now
    ensures 0.0 <= Score(metrics, tokenKey, now, exp) <= 1.0
  {
    if tokenKey in metrics {
      var m := metrics[tokenKey];
      assert 0.0 <= m.successRate <= 1.0 by {
        if m.totalRequests > 0 {
          SuccessRateBounded(m.successCount, m.totalRequests);
        }
      }
      var score := WeightedScore(m.successRate, m.quotaRemaining, LatencyScore(m, exp), LastUsedScore(m, now, exp));
      if m.failCount > 0 {
        ScaleByFraction(score, FailPenalty(m.failCount));
      }
    }
  }

  lemma ScaleByFraction(x: real, f: real)
    requires 0.0 <= x <= 1.0 && 0.0 <= f <= 1.0
    ensures 0.0 <= x * f <= 1.0
  {
    if x != 0.0 && f != 0.0 {
      assert 0.0 < x * f;
      assert x * f <= x;
    }
  }

  /** The scores `SelectBestToken` compares, one per token. */
  function Scores(metrics: map<string, TokenMetrics>, tokens: seq<string>, now: int, exp: real -> real): (ss: seq<real>)
    ensures |ss| == |tokens|
    ensures forall j :: 0 <= j < |tokens| ==> ss[j] == Score(metrics, tokens[j], now, exp)
  {
    seq(|tokens|, j requires 0 <= j < |tokens| => Score(metrics, tokens[j], now, exp))
  }

  /** Index `i` holds a maximal score and no earlier index reaches it. */
  predicate IsFirstArgmax(scores: seq<real>, i: int) {
    0 <= i < |scores|
    && (forall j :: 0 <= j < |scores| ==> scores[j] <= scores[i])
    && (forall j :: 0 <= j < i ==> scores[j] < scores[i])
  }

  class TokenScorer {
    var metrics: map<string, TokenMetrics>

    ghost predicate Valid()
      reads this
    {
      forall k :: k in metrics ==> Consistent(metrics[k])
    }

    /** `NewTokenScorer`. */
    constructor ()
      ensures Valid() && metrics == map[]
    {
      metrics := map[];
    }

    /** Updates the key's record field by field, creating the fresh record first. */
    method RecordRequest(tokenKey: string, success: bool, latency: int, now: int)
      requires Valid()
      modifies this
      ensures Valid()
      ensures metrics == old(metrics)[tokenKey := Recorded(Lookup(old(metrics), tokenKey), success, latency, now)]
    {
      var m := Lookup(metrics, tokenKey);
      ghost var m0 := m;
      m := m.(totalRequests := m.totalRequests + 1);
      m := m.(lastUsed := now);
      m := m.(totalLatency := m.totalLatency + Milliseconds(latency) as real);
      if success {
        m := m.(successCount := m.successCount + 1);
        m := m.(failCount := 0);
      } else {
        m := m.(failCount := m.failCount + 1);
      }
      if m.totalRequests > 0 {
        m := m.(successRate := m.successCount as real / m.totalRequests as real);
        m := m.(avgLatency := m.totalLatency / m.totalRequests as real);
      }
      FreshIsConsistent();
      RecordedConsistent(m0, success, latency, now);
      metrics := metrics[tokenKey := m];
    }

    method SetQuotaRemaining(tokenKey: string, quota: real)
      requires Valid()
      modifies this
      ensures Valid()
      ensures metrics == SetQuota(old(metrics), tokenKey, quota)
    {
      var m := Lookup(metrics, tokenKey);
      FreshIsConsistent();
      metrics := metrics[tokenKey := m.(quotaRemaining := quota)];
    }

    /** `GetMetrics`: a copy of the record, or nil (`None`) for an unknown key. */
    method GetMetrics(tokenKey: string) returns (r: Option<TokenMetrics>)
      ensures tokenKey in metrics ==> r == Some(metrics[tokenKey])
      ensures tokenKey !in metrics ==> r == None
    {
      if tokenKey in metrics {
        return Some(metrics[tokenKey]);
      }
      return None;
    }

    method CalculateScore(tokenKey: string, now: int, exp: real -> real) returns (score: real)
      ensures score == Score(metrics, tokenKey, now, exp)
    {
      if tokenKey !in metrics {
        return 1.0;
      }
      var m := metrics[tokenKey];
      var successScore := m.successRate;
      var quotaScore := m.quotaRemaining;
      var latencyScore := exp(-m.avgLatency / 1000.0);
      if m.totalRequests == 0 {
        latencyScore := 1.0;
      }
      var timeSinceUse := Seconds(now - m.lastUsed);
      var lastUsedScore := 1.0 - exp(-timeSinceUse / 60.0);
      if IsZero(m.lastUsed) {
        lastUsedScore := 1.0;
      }
      score := SuccessRateWeight * successScore + QuotaWeight * quotaScore
               + LatencyWeight * latencyScore + LastUsedWeight * lastUsedScore;
      if m.failCount > 0 {
        var penalty := FailPenaltyMultiplier * m.failCount as real;
        score := score * Max(0.0, 1.0 - penalty);
      }
    }

    /** "" for no tokens, the only token unscored, otherwise the first token of maximal score. */
    method SelectBestToken(tokens: seq<string>, now: int, exp: real -> real) returns (best: string)
      ensures tokens == [] ==> best == ""
      ensures |tokens| == 1 ==> best == tokens[0]
      ensures |tokens| >= 2 ==> exists i :: IsFirstArgmax(Scores(metrics, tokens, now, exp), i) && best == tokens[i]
    {
      if |tokens| == 0 {
        return "";
      }
      if |tokens| == 1 {
        return tokens[0];
      }
      ghost var scores := Scores(metrics, tokens, now, exp);
      var bestIndex := 0;
      best := tokens[0];
      var bestScore := CalculateScore(tokens[0], now, exp);
      var k := 1;
      while k < |tokens|
        invariant 1 <= k <= |tokens|
        invariant 0 <= bestIndex < k && best == tokens[bestIndex]
        invariant bestScore == scores[bestIndex]
        invariant forall j :: 0 <= j < k ==> scores[j] <= bestScore
        invariant forall j :: 0 <= j < bestIndex ==> scores[j] < bestScore
      {
        var score := CalculateScore(tokens[k], now, exp);
        assert score == scores[k];
        if score > bestScore {
          bestScore := score;
          best := tokens[k];
          bestIndex := k;
        }
        k := k + 1;
      }
      assert IsFirstArgmax(scores, bestIndex);
    }

    method ResetMetrics(tokenKey: string)
      requires Valid()
      modifies this
      ensures Valid()
      ensures metrics == old(metrics) - {tokenKey}
    {
      metrics := metrics - {tokenKey};
    }

    method ResetAllMetrics()
      modifies this
      ensures Valid()
      ensures metrics == map[]
    {
      metrics := map[];
    }
  }

  /** The scorer's records after `SetQuotaRemaining(tokenKey, quota)`: the key's record,
      created fresh when absent, takes the quota; every other field of it and every other
      record stay as they were. */
  function SetQuota(ms: map<string, TokenMetrics>, tokenKey: string, quota: real): (r: map<string, TokenMetrics>)
    ensures r.Keys == ms.Keys + {tokenKey}
    ensures r[tokenKey].quotaRemaining == quota
    ensures r[tokenKey].(quotaRemaining := 0.0) == Lookup(ms, tokenKey).(quotaRemaining := 0.0)
    ensures forall k :: k in ms && k != tokenKey ==> r[k] == ms[k]
  {
    ms[tokenKey := Lookup(ms, tokenKey).(quotaRemaining := quota)]
  }

  /** Setting the quota keeps the record consistent. */
  lemma SetQuotaKeepsCounters(ms: map<string, TokenMetrics>, tokenKey: string, quota: real)
    requires forall k :: k in ms ==> Consistent(ms[k])
    ensures forall k :: k in SetQuota(ms, tokenKey, quota) ==> Consistent(SetQuota(ms, tokenKey, quota)[k])
  {
    FreshIsConsistent();
  }

  /** Of two quota writes to the same key the second wins, and the counters are those
      from before the first. */
  lemma SetQuotaLastWriteWins(ms: map<string, TokenMetrics>, tokenKey: string, q1: real, q2: real)
    ensures SetQuota(SetQuota(ms, tokenKey, q1), tokenKey, q2) == SetQuota(ms, tokenKey, q2)
  {
  }
}
