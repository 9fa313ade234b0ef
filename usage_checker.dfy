/** Quota arithmetic of internal/auth/kiro/usage_checker.go over a `getUsageLimits`
    response. float64 quantities are reals; a nil response is `None`. */
module UsageChecker {
  import opened Wrappers
  import opened GoTime
  import opened KiroToken

  datatype FreeTrialInfo = FreeTrialInfo(freeTrialStatus: string, limit: real, usage: real)

  /** One `UsageBreakdownExtended`: `limit` and `usage` are the two `...WithPrecision` fields. */
  datatype UsageBreakdown = UsageBreakdown(resourceType: string, limit: real, usage: real,
                                           freeTrial: Option<FreeTrialInfo>)

  /** A `UsageQuotaResponse` without its subscription info, which nothing here reads. */
  datatype UsageQuotaResponse = UsageQuotaResponse(breakdowns: seq<UsageBreakdown>, nextDateReset: real)

  /** A `QuotaStatus`; `nextReset` is `None` for the zero time, else Unix seconds. */
  datatype QuotaStatus = QuotaStatus(totalLimit: real, currentUsage: real, remainingQuota: real,
                                     isExhausted: bool, resourceType: string, nextReset: Option<int>)

  /** The request `CheckUsage` would send: its JSON payload and its headers. */
  datatype UsageRequest = UsageRequest(payload: map<string, string>, headers: map<string, string>)

  function PositivePart(x: real): real {
    if x > 0.0 then x else 0.0
  }

  /** The breakdown, or its free trial, still has usage below its limit. */
  predicate HasHeadroom(b: UsageBreakdown) {
    b.usage < b.limit || (b.freeTrial.Some? && b.freeTrial.value.usage < b.freeTrial.value.limit)
  }

  /** What a breakdown contributes to the remaining quota: the positive part of limit
      minus usage, plus that of its free trial. */
  function FreeRemaining(b: UsageBreakdown): (r: real)
    ensures r >= 0.0
    ensures r > 0.0 <==> b.freeTrial.Some? && b.freeTrial.value.usage < b.freeTrial.value.limit
  {
    if b.freeTrial.Some? then PositivePart(b.freeTrial.value.limit - b.freeTrial.value.usage) else 0.0
  }

  function BreakdownRemaining(b: UsageBreakdown): (r: real)
    ensures r >= 0.0
    ensures r > 0.0 <==> HasHeadroom(b)
  {
    PositivePart(b.limit - b.usage) + FreeRemaining(b)
  }

  function SumRemaining(bs: seq<UsageBreakdown>): (r: real)
    ensures r >= 0.0
  {
    if bs == [] then 0.0 else SumRemaining(bs[..|bs| - 1]) + BreakdownRemaining(bs[|bs| - 1])
  }

  function TotalLimit(bs: seq<UsageBreakdown>): real {
    if bs == [] then 0.0
    else
      var b := bs[|bs| - 1];
      TotalLimit(bs[..|bs| - 1]) + b.limit + (if b.freeTrial.Some? then b.freeTrial.value.limit else 0.0)
  }

  function TotalUsage(bs: seq<UsageBreakdown>): real {
    if bs == [] then 0.0
    else
      var b := bs[|bs| - 1];
      TotalUsage(bs[..|bs| - 1]) + b.usage + (if b.freeTrial.Some? then b.freeTrial.value.usage else 0.0)
  }

  predicate NoBreakdowns(usage: Option<UsageQuotaResponse>) {
    usage.None? || |usage.value.breakdowns| == 0
  }

  /** `GetRemainingQuota`: 0 without breakdowns, else the summed contributions. */
  function RemainingQuota(usage: Option<UsageQuotaResponse>): (r: real)
    ensures r >= 0.0
    ensures NoBreakdowns(usage) ==> r == 0.0
  {
    if NoBreakdowns(usage) then 0.0 else SumRemaining(usage.value.breakdowns)
  }

  /** `IsQuotaExhausted`: no breakdowns, or none of them nor their free trials has headroom. */
  predicate Exhausted(usage: Option<UsageQuotaResponse>) {
    NoBreakdowns(usage) || forall i :: 0 <= i < |usage.value.breakdowns| ==> !HasHeadroom(usage.value.breakdowns[i])
  }

  /** `GetUsagePercentage`: 100 without breakdowns or with a zero total limit. */
  function UsagePercentage(usage: Option<UsageQuotaResponse>): real {
    if NoBreakdowns(usage) then 100.0
    else
      var bs := usage.value.breakdowns;
      if TotalLimit(bs) == 0.0 then 100.0 else TotalUsage(bs) / TotalLimit(bs) * 100.0
  }

  /** The total is positive exactly when some breakdown has headroom. */
  lemma {:induction false} SumRemainingPositive(bs: seq<UsageBreakdown>)
    ensures SumRemaining(bs) > 0.0 <==> exists i :: 0 <= i < |bs| && HasHeadroom(bs[i])
  {
    if bs != [] {
      var init := bs[..|bs| - 1];
      SumRemainingPositive(init);
      if exists i :: 0 <= i < |init| && HasHeadroom(init[i]) {
        var i :| 0 <= i < |init| && HasHeadroom(init[i]);
        assert bs[i] == init[i];
      }
      if exists i :: 0 <= i < |bs| && HasHeadroom(bs[i]) {
        var i :| 0 <= i < |bs| && HasHeadroom(bs[i]);
        if i < |init| {
          assert init[i] == bs[i];
        }
      }
    }
  }

  /** Quota remains exactly when the quota is not exhausted. */
  lemma RemainingPositiveIffNotExhausted(usage: Option<UsageQuotaResponse>)
    ensures RemainingQuota(usage) > 0.0 <==> !Exhausted(usage)
  {
    if !NoBreakdowns(usage) {
      SumRemainingPositive(usage.value.breakdowns);
    }
  }

  /** One breakdown never contributes more than the whole list. */
  lemma {:induction false} SumRemainingAtLeastTerm(bs: seq<UsageBreakdown>, i: int)
    requires 0 <= i < |bs|
    ensures BreakdownRemaining(bs[i]) <= SumRemaining(bs)
  {
    var init := bs[..|bs| - 1];
    if i < |init| {
      SumRemainingAtLeastTerm(init, i);
      assert init[i] == bs[i];
    }
  }

  /** Usage that stays within its limits everywhere. */
  predicate WithinLimits(bs: seq<UsageBreakdown>) {
    forall i :: 0 <= i < |bs| ==>
      0.0 <= bs[i].usage <= bs[i].limit
      && (bs[i].freeTrial.Some? ==> 0.0 <= bs[i].freeTrial.value.usage <= bs[i].freeTrial.value.limit)
  }

  /** Within limits, total usage is between 0 and the total limit, and equals it exactly
      when no breakdown has headroom. */
  lemma {:induction false} TotalsWithinLimits(bs: seq<UsageBreakdown>)
    requires WithinLimits(bs)
    ensures 0.0 <= TotalUsage(bs) <= TotalLimit(bs)
    ensures TotalUsage(bs) == TotalLimit(bs) <==> forall i :: 0 <= i < |bs| ==> !HasHeadroom(bs[i])
  {
    if bs != [] {
      var init := bs[..|bs| - 1];
      assert WithinLimits(init) by {
        forall i | 0 <= i < |init| ensures init[i] == bs[i] { }
      }
      TotalsWithinLimits(init);
      if forall i :: 0 <= i < |bs| ==> !HasHeadroom(bs[i]) {
        forall i | 0 <= i < |init| ensures !HasHeadroom(init[i]) {
          assert init[i] == bs[i];
        }
      }
      if exists i :: 0 <= i < |init| && HasHeadroom(init[i]) {
        var i :| 0 <= i < |init| && HasHeadroom(init[i]);
        assert bs[i] == init[i];
      }
    }
  }

  lemma QuotientAtMostOne(u: real, l: real)
    requires 0.0 <= u <= l && l != 0.0
    ensures 0.0 <= u / l * 100.0 <= 100.0
    ensures u / l * 100.0 == 100.0 <==> u == l
  {
    var d := l - u;
    assert l / l == 1.0;
    assert d / l == l / l - u / l;
    assert d / l >= 0.0 && u / l >= 0.0;
    assert d == 0.0 <==> d / l == 0.0;
  }

  /** With usage within its limits, the percentage lies in [0, 100] and reaches 100
      exactly when the quota is exhausted. */
  lemma UsagePercentageMeansExhausted(usage: Option<UsageQuotaResponse>)
    requires usage.Some? ==> WithinLimits(usage.value.breakdowns)
    ensures 0.0 <= UsagePercentage(usage) <= 100.0
    ensures UsagePercentage(usage) == 100.0 <==> Exhausted(usage)
  {
    if !NoBreakdowns(usage) {
      var bs := usage.value.breakdowns;
      TotalsWithinLimits(bs);
      if TotalLimit(bs) != 0.0 {
        QuotientAtMostOne(TotalUsage(bs), TotalLimit(bs));
      }
    }
  }

  /** The argument checks of `CheckUsage` and the request it then builds; `target` is the
      `x-amz-target` constant, declared outside this model. */
  function CheckUsageRequest(tokenData: Option<KiroTokenData>, target: string): (r: Result<UsageRequest>)
    ensures tokenData.None? ==> r == Failure("token data is nil")
    ensures tokenData.Some? && tokenData.value.accessToken == "" ==> r == Failure("access token is empty")
    ensures r.Success? <==> tokenData.Some? && tokenData.value.accessToken != ""
    ensures r.Success? ==>
      "profileArn" in r.value.payload && r.value.payload["profileArn"] == tokenData.value.profileArn
      && "Authorization" in r.value.headers && r.value.headers["Authorization"] == "Bearer " + tokenData.value.accessToken
  {
    if tokenData.None? then Failure("token data is nil")
    else if tokenData.value.accessToken == "" then Failure("access token is empty")
    else
      Success(UsageRequest(
        map["origin" := "AI_EDITOR", "profileArn" := tokenData.value.profileArn,
            "resourceType" := "AGENTIC_REQUEST"],
        map["Content-Type" := "application/x-amz-json-1.0", "x-amz-target" := target,
            "Authorization" := "Bearer " + tokenData.value.accessToken,
            "Accept" := "application/json"]))
  }

  method GetRemainingQuota(usage: Option<UsageQuotaResponse>) returns (totalRemaining: real)
    ensures totalRemaining == RemainingQuota(usage)
  {
    if usage.None? || |usage.value.breakdowns| == 0 {
      return 0.0;
    }
    var bs := usage.value.breakdowns;
    totalRemaining := 0.0;
    var i := 0;
    while i < |bs|
      invariant 0 <= i <= |bs|
      invariant totalRemaining == SumRemaining(bs[..i])
    {
      var b := bs[i];
      assert bs[..i + 1][..i] == bs[..i];
      var remaining := b.limit - b.usage;
      if remaining > 0.0 {
        totalRemaining := totalRemaining + remaining;
      }
      if b.freeTrial.Some? {
        var freeRemaining := b.freeTrial.value.limit - b.freeTrial.value.usage;
        if freeRemaining > 0.0 {
          totalRemaining := totalRemaining + freeRemaining;
        }
      }
      i := i + 1;
    }
    assert bs[..i] == bs;
  }

  method IsQuotaExhausted(usage: Option<UsageQuotaResponse>) returns (exhausted: bool)
    ensures exhausted == Exhausted(usage)
  {
    if usage.None? || |usage.value.breakdowns| == 0 {
      return true;
    }
    var bs := usage.value.breakdowns;
    var i := 0;
    while i < |bs|
      invariant 0 <= i <= |bs|
      invariant forall j :: 0 <= j < i ==> !HasHeadroom(bs[j])
    {
      if bs[i].usage < bs[i].limit {
        return false;
      }
      if bs[i].freeTrial.Some? {
        if bs[i].freeTrial.value.usage < bs[i].freeTrial.value.limit {
          return false;
        }
      }
      i := i + 1;
    }
    return true;
  }

  /** The same number as `GetRemainingQuota`. */
  method CalculateAvailableCount(usage: Option<UsageQuotaResponse>) returns (count: real)
    ensures count == RemainingQuota(usage)
    ensures count >= 0.0 && (count > 0.0 <==> !Exhausted(usage))
  {
    count := GetRemainingQuota(usage);
    RemainingPositiveIffNotExhausted(usage);
  }

  method GetUsagePercentage(usage: Option<UsageQuotaResponse>) returns (percentage: real)
    ensures percentage == UsagePercentage(usage)
  {
    if usage.None? || |usage.value.breakdowns| == 0 {
      return 100.0;
    }
    var bs := usage.value.breakdowns;
    var totalLimit, totalUsage := 0.0, 0.0;
    var i := 0;
    while i < |bs|
      invariant 0 <= i <= |bs|
      invariant totalLimit == TotalLimit(bs[..i]) && totalUsage == TotalUsage(bs[..i])
    {
      assert bs[..i + 1][..i] == bs[..i];
      totalLimit := totalLimit + bs[i].limit;
      totalUsage := totalUsage + bs[i].usage;
      if bs[i].freeTrial.Some? {
        totalLimit := totalLimit + bs[i].freeTrial.value.limit;
        totalUsage := totalUsage + bs[i].freeTrial.value.usage;
      }
      i := i + 1;
    }
    assert bs[..i] == bs;
    if totalLimit == 0.0 {
      return 100.0;
    }
    return totalUsage / totalLimit * 100.0;
  }

  /** `GetQuotaStatus` after its `CheckUsage` call, whose outcome is `checked`: errors
      pass through; otherwise only the first breakdown is reported, its free trial's
      remainder only when positive, and the reset time only when positive (milliseconds
      to whole seconds). */
  method GetQuotaStatus(checked: Result<UsageQuotaResponse>) returns (r: Result<QuotaStatus>)
    ensures checked.Failure? ==> r == Failure(checked.error)
    ensures checked.Success? ==> r.Success?
    ensures checked.Success? ==>
      var usage, status := checked.value, r.value;
      status.isExhausted == Exhausted(Some(usage))
      && status.remainingQuota <= RemainingQuota(Some(usage))
      && status.nextReset == (if usage.nextDateReset > 0.0 then Some(TruncReal(usage.nextDateReset / 1000.0)) else None)
      && (|usage.breakdowns| == 0 ==>
            status.totalLimit == 0.0 && status.currentUsage == 0.0 && status.remainingQuota == 0.0
            && status.resourceType == "")
      && (|usage.breakdowns| > 0 ==>
            var b := usage.breakdowns[0];
            status.resourceType == b.resourceType
            && status.totalLimit == b.limit + (if b.freeTrial.Some? then b.freeTrial.value.limit else 0.0)
            && status.currentUsage == b.usage + (if b.freeTrial.Some? then b.freeTrial.value.usage else 0.0)
            && status.remainingQuota == b.limit - b.usage + FreeRemaining(b))
  {
    if checked.Failure? {
      return Failure(checked.error);
    }
    var usage := checked.value;
    var isExhausted := IsQuotaExhausted(Some(usage));
    var status := QuotaStatus(0.0, 0.0, 0.0, isExhausted, "", None);
    if |usage.breakdowns| > 0 {
      var b := usage.breakdowns[0];
      status := status.(totalLimit := b.limit, currentUsage := b.usage,
                        remainingQuota := b.limit - b.usage, resourceType := b.resourceType);
      if b.freeTrial.Some? {
        var ft := b.freeTrial.value;
        status := status.(totalLimit := status.totalLimit + ft.limit,
                          currentUsage := status.currentUsage + ft.usage);
        var freeRemaining := ft.limit - ft.usage;
        if freeRemaining > 0.0 {
          status := status.(remainingQuota := status.remainingQuota + freeRemaining);
        }
      }
      SumRemainingAtLeastTerm(usage.breakdowns, 0);
    }
    if usage.nextDateReset > 0.0 {
      status := status.(nextReset := Some(TruncReal(usage.nextDateReset / 1000.0)));
    }
    return Success(status);
  }
}
