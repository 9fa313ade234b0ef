# Kiro credential pool: a verified model

This project models, in Dafny, the logic with which the Kiro provider of CLIProxyAPIPlus
manages its pool of credentials and adapts Kiro replies to OpenAI clients:

- **Cooldown** (`cooldown.dfy`, internal/auth/kiro/cooldown.go) is the cooldown tracker.
  It holds two maps, key to end time and key to reason, and every mutator updates both.
  It also computes the capped exponential cooldown after a 429.
- **Metrics** (`metrics.dfy`, internal/auth/kiro/metrics.go) is the token scorer.
  It keeps per-credential counters, derives the success rate and average latency, scores
  each credential and picks the first one with the best score.
- **Fingerprint** (`fingerprint.dfy`, internal/auth/kiro/fingerprint.go) holds one device
  fingerprint per credential, drawn from fixed catalogs. It also models the headers a
  fingerprint sets and its two user-agent strings.
- **TokenRepository** (`token_repository.dfy`, internal/auth/kiro/token_repository.go) is
  the file-backed credential store. It covers:
  - decoding a credential file;
  - the filter, sort and limit pipeline of `FindOldestUnverified`;
  - the field-preserving update of `UpdateToken`;
  - the listing of `ListKiroTokens`.
- **Jitter** (`jitter.dfy`, internal/auth/kiro/jitter.go) covers the random delays, the
  jitter clamp, the human-like delay windows and the capped exponential backoff.
- **RefreshManager** (`refresh_manager.dfy`, internal/auth/kiro/refresh_manager.go) is the
  lifecycle of the background refresher: `Initialize`, an idempotent `Start` and `Stop`,
  and `UpdateBaseDir`.
- **UsageChecker** (`usage_checker.dfy`, internal/auth/kiro/usage_checker.go) covers the
  quota arithmetic over a usage-limits reply and the argument checks of `CheckUsage`.
- **OAuthWeb** (`oauth_web.dfy`, internal/auth/kiro/oauth_web.go) covers the decision
  rules and the session bookkeeping of the browser login:
  - credential file names;
  - the refresh-method dispatch;
  - token import;
  - device-code polling;
  - the session-expiry sweep;
  - the status reply.
- **ModelConverter** (`model_converter.dfy`, internal/registry/kiro_model_converter.go)
  covers the normalisation of Kiro model IDs, the `-agentic` variants, and the merge
  with the static catalogue.
- **KiroOpenAI** (`kiro_openai.dfy`, internal/translator/kiro/openai/kiro_openai.go)
  covers:
  - the extraction of thinking blocks;
  - the parsing of one Claude server-sent event;
  - the event framing of the stream conversion;
  - the tool-list filter.
- **EndpointCompat** (`endpoint_compat.dfy`, sdk/api/handlers/openai/endpoint_compat.go)
  is the chat/responses endpoint fallback.
- Helper modules:
  - `GoStrings` is the behaviour of Go's `strings` and `bytes` functions as used here.
  - `GoTime` holds nanosecond times and durations, Go's truncating division and int64
    wrap-around.
  - `Wrappers` holds `Option` and `Result`.
  - `KiroToken` holds the credential record.

How the model is built:

- **Mutable state becomes classes.** Objects whose fields the code updates in place are
  classes: the cooldown manager, the scorer, the fingerprint manager, the repository,
  the refresh manager, the web handler and its sessions. Their methods are proved equal
  to specification functions on the old state, and the properties are lemmas about
  those functions.
- **Loops become methods.** Each loop in the code is a `while` loop proved against a
  recursive specification function.
- **Side inputs are parameters.** The following come in from the caller:
  - the clock (`now`, in nanoseconds);
  - every random draw;
  - SHA-256;
  - `math.Exp`;
  - RFC 3339 formatting and parsing;
  - `filepath.Join`;
  - file contents;
  - the replies of the OIDC, social and usage services.

## Model

| member | source | states |
|---|---|---|
| Cooldown.Remaining | internal/auth/kiro/cooldown.go:48-60 | never negative; positive exactly while the key is cooling down, and then the end time minus `now` |
| Cooldown.ReasonOf | internal/auth/kiro/cooldown.go:62-66 | the map's zero value `""` for an absent key, the stored reason otherwise |
| Cooldown.Unexpired | internal/auth/kiro/cooldown.go:75-85 | keeps exactly the keys whose end is not strictly before `now`, with their values unchanged |
| Cooldown.CooldownManager.constructor | internal/auth/kiro/cooldown.go:24-29 | both maps start empty, so they have the same key set |
| Cooldown.CooldownManager.SetCooldown | internal/auth/kiro/cooldown.go:31-36 | overwrites the key's end with `now + duration` and its reason, in both maps, keeping their key sets equal |
| Cooldown.CooldownManager.IsInCooldown | internal/auth/kiro/cooldown.go:38-46 | true exactly when the key is present and `now` is strictly before its end |
| Cooldown.CooldownManager.GetRemainingCooldown | internal/auth/kiro/cooldown.go:48-60 | returns `Remaining`: 0 for an absent or expired key, otherwise end minus `now` |
| Cooldown.CooldownManager.GetCooldownReason | internal/auth/kiro/cooldown.go:62-66 | returns `ReasonOf` the reasons map, `""` for an absent key |
| Cooldown.CooldownManager.ClearCooldown | internal/auth/kiro/cooldown.go:68-73 | removes the key from both maps and nothing else; a no-op on an absent key |
| Cooldown.CooldownManager.CleanupExpired | internal/auth/kiro/cooldown.go:75-85 | the sweep loop leaves both maps equal to `Unexpired` of the old maps at `now` |
| Cooldown.CooldownManager.StartCleanupRoutine | internal/auth/kiro/cooldown.go:87-98 | after a sequence of non-decreasing ticks the maps are those one sweep at the last tick leaves |
| Cooldown.CleanupComposes | internal/auth/kiro/cooldown.go:75-85 | a sweep at t1 followed by one at t2 >= t1 removes what one sweep at t2 removes |
| Cooldown.CleanupPreservesObservations | internal/auth/kiro/cooldown.go:38-85 | a sweep changes neither `IsInCooldown` nor `GetRemainingCooldown` at the same instant |
| Cooldown.CleanupKeepsEntryEndingNow | internal/auth/kiro/cooldown.go:75-85 | an entry ending exactly at `now` is inactive yet survives the sweep, since both comparisons are strict |
| Cooldown.SetCooldownEffect | internal/auth/kiro/cooldown.go:31-36 | after `SetCooldown` the key is active iff the duration is positive, has that duration left, reads back the reason, and other keys read as before |
| Cooldown.ClearCooldownEffect | internal/auth/kiro/cooldown.go:68-73 | after `ClearCooldown` the key is inactive with reason `""`, and other keys read as before |
| Cooldown.CalculateCooldownFor429 | internal/auth/kiro/cooldown.go:100-106 | the intended cooldown, the default doubled per retry and capped at the maximum, is always positive and never above 5 minutes, for every retry count |
| Cooldown.CooldownFor429AsWritten | internal/auth/kiro/cooldown.go:100-106 | with int64 wrap-around, the result is still never above 5 minutes |
| Cooldown.CooldownFor429NegativeAt28 | internal/auth/kiro/cooldown.go:101 | at retry count 28 the product overflows int64 and the returned cooldown is negative |
| Cooldown.CooldownFor429AgreesBelow28 | internal/auth/kiro/cooldown.go:100-106 | for retry counts up to 27 the code computes the intended cooldown |
| Cooldown.CooldownFor429Values | internal/auth/kiro/cooldown.go:100-106 | 1, 2 and 4 minutes for retry counts 0, 1 and 2, and the 5-minute cap from 3 on |
| Cooldown.CooldownFor429Monotone | internal/auth/kiro/cooldown.go:100-106 | more retries never give a shorter cooldown |
| Metrics.Recorded | internal/auth/kiro/metrics.go:60-81 | one more request at `now`; success increments successes and resets consecutive failures, failure increments failures; the rates are recomputed and the quota kept |
| Metrics.Lookup | internal/auth/kiro/metrics.go:47-57 | definition of the record `getOrCreateMetrics` yields: the stored one, or the fresh one; its properties are `FreshIsConsistent` and the contracts of `TokenScorer.RecordRequest` and `SetQuota` |
| Metrics.FreshIsConsistent | internal/auth/kiro/metrics.go:47-57 | the record created for an unknown key has success rate 1, quota 1 and zero counters and time, and its derived rates agree with its counters |
| Metrics.RecordedConsistent | internal/auth/kiro/metrics.go:60-81 | recording keeps the derived rates in agreement with the counters, and the success rate in [0, 1] |
| Metrics.Score | internal/auth/kiro/metrics.go:105-150 | definition of `CalculateScore`; its properties are `ScoreOfUnknown`, `ScoreOfUnused`, `ScoreAfterTenFailures`, `ScoreInUnitInterval` and `TokenScorer.CalculateScore` |
| Metrics.LatencyScore | internal/auth/kiro/metrics.go:105-150 | 1.0 before the first request, and in [0, 1] when exp maps non-positive arguments into [0, 1] |
| Metrics.LastUsedScore | internal/auth/kiro/metrics.go:105-150 | 1.0 for a record never used, and in [0, 1] otherwise under the same assumption on exp |
| Metrics.WeightedScore | internal/auth/kiro/metrics.go:105-150 | the weights sum to 1, so components in [0, 1] give a score in [0, 1] |
| Metrics.FailPenalty | internal/auth/kiro/metrics.go:105-150 | the failure factor lies in [0, 1] and is 0 from ten consecutive failures on |
| Metrics.ScoreOfUnknown | internal/auth/kiro/metrics.go:105-150 | an unknown key scores 1.0 |
| Metrics.ScoreOfUnused | internal/auth/kiro/metrics.go:105-150 | a record without requests scores full marks on every term but the quota |
| Metrics.ScoreAfterTenFailures | internal/auth/kiro/metrics.go:105-150 | ten or more consecutive failures bring the score to 0 |
| Metrics.ScoreInUnitInterval | internal/auth/kiro/metrics.go:105-150 | every score lies in [0, 1] for consistent records with a quota fraction and no future last use |
| Metrics.Scores | internal/auth/kiro/metrics.go:153-173 | one score per token, in token order |
| Metrics.TokenScorer.constructor | internal/auth/kiro/metrics.go:35-44 | starts with an empty record map |
| Metrics.TokenScorer.RecordRequest | internal/auth/kiro/metrics.go:60-81 | the key's record (fresh if absent) becomes `Recorded`, other keys unchanged, all records consistent |
| Metrics.TokenScorer.SetQuotaRemaining | internal/auth/kiro/metrics.go:84-90 | the records become `SetQuota` of the old ones, and stay consistent |
| Metrics.TokenScorer.GetMetrics | internal/auth/kiro/metrics.go:93-102 | a copy of the key's record, or nil for an unknown key |
| Metrics.TokenScorer.CalculateScore | internal/auth/kiro/metrics.go:105-150 | returns the score function of the current records |
| Metrics.TokenScorer.SelectBestToken | internal/auth/kiro/metrics.go:153-173 | `""` for no tokens, the only token without scoring, otherwise the first token of maximal score |
| Metrics.TokenScorer.ResetMetrics | internal/auth/kiro/metrics.go:176-180 | removes the key's record and nothing else |
| Metrics.TokenScorer.ResetAllMetrics | internal/auth/kiro/metrics.go:183-187 | leaves no records |
| Metrics.SetQuota | internal/auth/kiro/metrics.go:84-90 | the key is present afterwards with the new quota; its other fields are those of the old record, or of a fresh one when the key was absent; every other record is unchanged |
| Metrics.SetQuotaKeepsCounters | internal/auth/kiro/metrics.go:84-90 | setting the quota keeps every record consistent |
| Metrics.SetQuotaLastWriteWins | internal/auth/kiro/metrics.go:84-90 | two quota writes to one key equal the second alone: the second quota wins and the counters are those from before the first |
| Fingerprint.GenerateKiroHash | internal/auth/kiro/fingerprint.go:128-132 | 64 lowercase hex digits, whatever the 32 digest bytes |
| Fingerprint.GenerateFingerprint | internal/auth/kiro/fingerprint.go:105-125 | every field comes from its catalog, the OS version from the list of the chosen OS type, and the hash is the one `generateKiroHash` gives |
| Fingerprint.GetOrCreate | internal/auth/kiro/fingerprint.go:84-102 | a known key returns its stored fingerprint and leaves the map alone; an unknown key stores the generated one and grows the map by one; other keys keep their fingerprints |
| Fingerprint.GetFingerprintIdempotent | internal/auth/kiro/fingerprint.go:84-102 | a second call for the same key returns the first call's fingerprint and changes nothing, whatever it would have generated |
| Fingerprint.FingerprintManager.constructor | internal/auth/kiro/fingerprint.go:76-81 | starts with no fingerprints |
| Fingerprint.FingerprintManager.GetFingerprint | internal/auth/kiro/fingerprint.go:84-102 | the new map and result are `GetOrCreate` with a freshly generated fingerprint, which is well formed |
| Fingerprint.FingerprintManager.RemoveFingerprint | internal/auth/kiro/fingerprint.go:160-164 | removes exactly that key |
| Fingerprint.FingerprintManager.Count | internal/auth/kiro/fingerprint.go:167-171 | the number of stored fingerprints |
| Fingerprint.RemoveFingerprintEffect | internal/auth/kiro/fingerprint.go:160-164 | removing an absent key changes nothing, removing a present one shrinks the map by one, and other keys keep their fingerprints |
| Fingerprint.HeaderValues | internal/auth/kiro/fingerprint.go:145-157 | one value per header name that `ApplyToRequest` sets |
| Fingerprint.ApplyToRequest | internal/auth/kiro/fingerprint.go:145-157 | the header map after the eleven `Set` calls, in the source's order |
| Fingerprint.HeaderNamesCanonicallyDistinct | internal/auth/kiro/fingerprint.go:145-157 | no two of the eleven header names share a canonical key, so no `Set` overwrites another |
| Fingerprint.SetAllReadsBack | internal/auth/kiro/fingerprint.go:145-157 | with pairwise distinct keys, each name reads back exactly the one value set for it |
| Fingerprint.ApplyToRequestReadsBack | internal/auth/kiro/fingerprint.go:145-157 | after `ApplyToRequest`, each of the eleven headers reads back its fingerprint value |
| Fingerprint.BuildUserAgent | internal/auth/kiro/fingerprint.go:175-187 | definition of the `User-Agent` header; its property is `UserAgentProducts` |
| Fingerprint.BuildAmzUserAgent | internal/auth/kiro/fingerprint.go:190-197 | definition of the `x-amz-user-agent` header; its property is `UserAgentProducts` |
| Fingerprint.UserAgentProducts | internal/auth/kiro/fingerprint.go:175-197 | both user agents split at spaces into exactly their templates' products, and they share the SDK product and the Kiro IDE product |
| Fingerprint.CatalogsHaveNoSpaces | internal/auth/kiro/fingerprint.go:35-73 | no catalog entry holds a space |
| Fingerprint.WellFormedHasNoSpaces | internal/auth/kiro/fingerprint.go:105-125 | generated fingerprints have no spaces in their fields, so the user-agent property applies to them |
| Jitter.Int63n | internal/auth/kiro/jitter.go:55 | `rand.Int63n(n)` for a draw: a value in `[0, n)`; the draw is a parameter |
| Jitter.RandomDelay | internal/auth/kiro/jitter.go:45-57 | definition of `RandomDelay` as written, panic included; its properties are `RandomDelayRange`, `RandomDelayReachesEveryStep`, `RandomDelayPanicsOnSubMillisecondRange` and `RandomDelayCheckedAgrees` |
| Jitter.RandomDelayRange | internal/auth/kiro/jitter.go:45-57 | `min` for an empty range; otherwise, where it does not panic, a whole number of milliseconds past `min`, below `max` and below `min` plus the millisecond difference |
| Jitter.RandomDelayReachesEveryStep | internal/auth/kiro/jitter.go:45-57 | every millisecond step of the range is the result of some draw |
| Jitter.RandomDelayPanicsOnSubMillisecondRange | internal/auth/kiro/jitter.go:45-57 | bounds less than a millisecond apart make `Int63n(0)` panic |
| Jitter.RandomDelayChecked | internal/auth/kiro/jitter.go:45-57 | the corrected delay: `min` for an empty range, otherwise a whole number of milliseconds past `min` and below `max`, with no panic |
| Jitter.RandomDelayCheckedAgrees | internal/auth/kiro/jitter.go:45-57 | on whole-millisecond bounds, wherever the code as written returns, the corrected function returns the same delay |
| Jitter.EffectivePercent | internal/auth/kiro/jitter.go:62-82 | a percent outside (0, 1] is replaced by the default 0.30, so the percent used always lies in (0, 1] |
| Jitter.JitterDelay | internal/auth/kiro/jitter.go:62-82 | never negative: a negative jittered value is clamped to 0 |
| Jitter.Jittered | internal/auth/kiro/jitter.go:62-82 | `base + (2u - 1)·range` lies in [base - range, base + range) |
| Jitter.JitterDelayBounds | internal/auth/kiro/jitter.go:62-82 | for a non-negative base the delay lies within base·(1 ± p), up to the truncated nanosecond fraction, and a zero base gives 0 |
| Jitter.JitterDelayOfOneSecond | internal/auth/kiro/jitter.go:62-82 | one second at the default percent gives between 700 ms and 1300 ms |
| Jitter.JitterDelayOfNegativeBase | internal/auth/kiro/jitter.go:62-82 | a negative base delay gives 0 |
| Jitter.DefaultJitterBounds | internal/auth/kiro/jitter.go:62-87 | at the default percent, a positive base gives a delay above 70% of it (less the truncated fraction) and below 130% of it; a base that is not positive gives 0 |
| Jitter.JitterDelayDefault | internal/auth/kiro/jitter.go:85-87 | the jitter at the default percent 0.30: within 30% of a positive base up to truncation, and 0 for a base that is not positive |
| Jitter.Backoff | internal/auth/kiro/jitter.go:146-159 | the shifted base delay, never above the cap, and the cap where the shift goes over it |
| Jitter.ExponentialBackoffWithJitter | internal/auth/kiro/jitter.go:146-159 | the jitter at the default percent is applied to the capped backoff; for a non-negative base and a positive cap the result is below 1.3 times the cap, and a cap that is not positive gives 0 |
| Jitter.BackoffGrowsToCap | internal/auth/kiro/jitter.go:146-159 | the backoff never shrinks from one attempt to the next, and it doubles while under the cap |
| Jitter.BackoffOfNegativeAttempt | internal/auth/kiro/jitter.go:146-159 | a negative attempt counts as attempt 0 |
| Jitter.BackoffJitterExceedsCap | internal/auth/kiro/jitter.go:146-159 | since the jitter comes after the cap, a result can exceed `maxDelay` |
| Jitter.BackoffJitterBound | internal/auth/kiro/jitter.go:146-159 | jittering the capped backoff stays below 1.3 times a positive `maxDelay`, and gives 0 for a cap that is not positive |
| Jitter.DelayBucket | internal/auth/kiro/jitter.go:96-132 | a roll below 0.20 selects the short window, one below 0.25 the long window, and any other roll the normal window |
| Jitter.HumanLikeDelayOf | internal/auth/kiro/jitter.go:96-132 | definition of the delay for a given previous call, draw and roll; its properties are `HumanLikeDelayRange`, `JitterState.HumanLikeDelay` and `ResetForgetsLastRequest` |
| Jitter.HumanLikeDelayRange | internal/auth/kiro/jitter.go:96-132 | a call within half a second of the previous one waits 50-200 ms; otherwise the delay lies in the window that the roll selects |
| Jitter.ShouldSkipDelay | internal/auth/kiro/jitter.go:164-166 | delays are skipped exactly for streaming responses |
| Jitter.JitterState.constructor | internal/auth/kiro/jitter.go:28-33 | the last request time starts at the zero time |
| Jitter.JitterState.HumanLikeDelay | internal/auth/kiro/jitter.go:96-132 | records `now` as the last request time and returns the delay for the previous one |
| Jitter.JitterState.ResetLastRequestTime | internal/auth/kiro/jitter.go:170-174 | the last request time is the zero time again |
| Jitter.ResetForgetsLastRequest | internal/auth/kiro/jitter.go:170-174 | after a reset, a call at least half a second past the zero time gets a delay from the roll's window alone |
| GoTime.TruncDiv | internal/auth/kiro/jitter.go:45-57 | Go's integer division truncates toward zero, for negative numerators too |
| GoTime.TruncReal | internal/auth/kiro/jitter.go:62-82 | the float-to-integer conversion drops the fraction, toward zero |
| RefreshManager.InitializeStep | internal/auth/kiro/refresh_manager.go:39-81 | ignored while running or for an empty directory; otherwise the refresher is rebuilt on the resolved directory, or on the given one when resolution yields nothing |
| RefreshManager.StartStep | internal/auth/kiro/refresh_manager.go:84-103 | the manager runs afterwards exactly when it ran before or has a refresher |
| RefreshManager.StopStep | internal/auth/kiro/refresh_manager.go:106-124 | afterwards the manager is not running, and nothing else changes |
| RefreshManager.UpdateBaseDirStep | internal/auth/kiro/refresh_manager.go:134-144 | only an existing refresher is redirected, to the trimmed directory |
| RefreshManager.StepsPreserveCoherence | internal/auth/kiro/refresh_manager.go:39-163 | no operation leaves a running manager without a refresher |
| RefreshManager.StartStopIdempotent | internal/auth/kiro/refresh_manager.go:84-124 | a second `Start` or a second `Stop` changes nothing further |
| RefreshManager.StartThenStop | internal/auth/kiro/refresh_manager.go:84-124 | starting then stopping an initialized, stopped manager restores its state, after which `Initialize` is accepted again |
| RefreshManager.InitializeWhileStartedIgnored | internal/auth/kiro/refresh_manager.go:39-81 | a running manager ignores `Initialize` |
| RefreshManager.InitializeAndStartRuns | internal/auth/kiro/refresh_manager.go:166-173 | initializing with a non-empty directory and starting leaves the manager running, on the new directory if it was stopped |
| RefreshManager.RefreshManager.constructor | internal/auth/kiro/refresh_manager.go:29-34 | the zero manager: no refresher, no context, not started, no callback |
| RefreshManager.RefreshManager.Initialize | internal/auth/kiro/refresh_manager.go:39-81 | returns nil and moves the state as `InitializeStep` says, building a fresh refresher on a fresh repository and passing on the stored callback |
| RefreshManager.RefreshManager.Start | internal/auth/kiro/refresh_manager.go:84-103 | moves the state as `StartStep` says, with a fresh context when it starts the refresher |
| RefreshManager.RefreshManager.Stop | internal/auth/kiro/refresh_manager.go:106-124 | moves the state as `StopStep` says, cancelling the context of a running manager |
| RefreshManager.RefreshManager.IsRunning | internal/auth/kiro/refresh_manager.go:127-131 | whether the manager is started |
| RefreshManager.RefreshManager.UpdateBaseDir | internal/auth/kiro/refresh_manager.go:134-144 | moves the state as `UpdateBaseDirStep` says |
| RefreshManager.RefreshManager.SetOnTokenRefreshed | internal/auth/kiro/refresh_manager.go:149-163 | stores the callback and hands it to an existing refresher, with nothing else changed |
| TokenRepository.StringField | internal/auth/kiro/token_repository.go:173-237 | the string stored under the key, and `""` when the key is absent or holds no string |
| TokenRepository.TimeField | internal/auth/kiro/token_repository.go:173-237 | the parsed time when the key holds a string that parses, and the zero time otherwise |
| TokenRepository.DecodeToken | internal/auth/kiro/token_repository.go:173-237 | a nil token unless the record is of type `kiro` with an IDC or Builder ID auth method; otherwise the token is named after the file and carries the record's fields |
| TokenRepository.ReadTokenFile | internal/auth/kiro/token_repository.go:173-237 | an error for an unreadable or malformed file or a non-object value; nil for JSON `null`; otherwise the decoded token |
| TokenRepository.NeedsRefresh | internal/auth/kiro/token_repository.go:75 | definition of a due token: no expiry, or less than five minutes left; its properties are `Selected` and `CandidatesAreDue` |
| TokenRepository.Selected | internal/auth/kiro/token_repository.go:51-81 | only a file with a `kiro-` name and a `.json` suffix in any case contributes a token |
| TokenRepository.CandidatesAreDue | internal/auth/kiro/token_repository.go:51-81 | every collected token has a refresh token and has no expiry or expires within five minutes |
| TokenRepository.Candidates | internal/auth/kiro/token_repository.go:51-81 | definition of the tokens the walk collects, in walk order; its properties are `CandidatesAreDue`, `SkipsUnreadableFiles` and `FileTokenRepository.FindOldestUnverified` |
| TokenRepository.SkipsUnreadableFiles | internal/auth/kiro/token_repository.go:67-71 | a file that cannot be read or decoded is skipped, and the walk goes on |
| TokenRepository.Limited | internal/auth/kiro/token_repository.go:93-95 | the kept length is at most the limit when the limit is positive, and everything is kept otherwise |
| TokenRepository.OldestFirst | internal/auth/kiro/token_repository.go:87-95 | definition of a sorted, limited prefix of the candidates; its properties are `OldestFirstKeepsOldest` and `FileTokenRepository.FindOldestUnverified` |
| TokenRepository.OldestFirstKeepsOldest | internal/auth/kiro/token_repository.go:87-95 | the kept tokens are sorted, a sub-multiset of the candidates, and none of them was verified later than a dropped one |
| TokenRepository.SortByLastVerified | internal/auth/kiro/token_repository.go:87-90 | the array ends sorted by last verification and is a permutation of its old contents |
| TokenRepository.InsertInto | internal/auth/kiro/token_repository.go:87-90 | one insertion step extends the sorted prefix by one element and permutes the array |
| TokenRepository.InsertingStep | internal/auth/kiro/token_repository.go:87-90 | swapping the inserted element down keeps the insertion invariant and the multiset |
| TokenRepository.InsertingDone | internal/auth/kiro/token_repository.go:87-90 | once the inserted element is in place the prefix is sorted one further |
| TokenRepository.TargetPath | internal/auth/kiro/token_repository.go:114-118 | the path always ends in `.json`: left alone when it already does, suffixed otherwise |
| TokenRepository.UnmarshalExisting | internal/auth/kiro/token_repository.go:120-124 | the existing map is lost, left nil, exactly when the file holds JSON `null` |
| TokenRepository.Writes | internal/auth/kiro/token_repository.go:126-150 | the nine key writes of the update, in order |
| TokenRepository.NonEmpty | internal/auth/kiro/token_repository.go:136-150 | an optional field is written exactly when it is non-empty, as a string |
| TokenRepository.ApplyWritesAt | internal/auth/kiro/token_repository.go:126-150 | after the writes a key holds its last written value, or its old value when it was never written |
| TokenRepository.MergeFields | internal/auth/kiro/token_repository.go:126-150 | definition of the fields `UpdateToken` writes; its properties are `MergeFieldsEffect`, `MergeKeepsOptionalField`, `UpdateThenRead` and `MergeInto` |
| TokenRepository.MergeFieldsEffect | internal/auth/kiro/token_repository.go:126-150 | both tokens and the write time are always written, the expiry only when set, and every other key keeps its old value |
| TokenRepository.NoWriteOutsideWrittenKeys | internal/auth/kiro/token_repository.go:126-150 | the update writes no key outside its nine |
| TokenRepository.LastWriteOfUniqueKey | internal/auth/kiro/token_repository.go:126-150 | a key written exactly once holds that write's value |
| TokenRepository.WritesKeysDistinct | internal/auth/kiro/token_repository.go:126-150 | the nine keys are distinct |
| TokenRepository.MergeKeepsOptionalField | internal/auth/kiro/token_repository.go:135-150 | an optional field reads back as the token's value when that is non-empty, and as before otherwise |
| TokenRepository.UpdateThenRead | internal/auth/kiro/token_repository.go:101-237 | a token written over a Kiro record reads back with the new tokens; the client fields and the auth method as `UpdateToken` leaves them (the token's when non-empty, the file's otherwise); its expiry when set and kept exactly by formatting, or the file's when unset; and the write time |
| TokenRepository.UpdateResult | internal/auth/kiro/token_repository.go:101-170 | definition of the outcome of `UpdateToken` as written; its properties are `NullFileMakesUpdateTokenPanic`, `UpdateResultNullSafe` and `FileTokenRepository.UpdateToken` |
| TokenRepository.NullFileMakesUpdateTokenPanic | internal/auth/kiro/token_repository.go:120-127 | a credential file holding JSON `null` makes the update write into a nil map and panic |
| TokenRepository.UpdateResultNullSafe | internal/auth/kiro/token_repository.go:101-170 | the corrected update never panics, writes the target path with both tokens and the time on the success path, and agrees with the code wherever that does not panic |
| TokenRepository.Listed | internal/auth/kiro/token_repository.go:251-270 | definition of the tokens `ListKiroTokens` collects, in walk order; its properties are `ListedComeFromWalk`, `ListedNamesAreScanned` and `FileTokenRepository.ListKiroTokens` |
| TokenRepository.ListedComeFromWalk | internal/auth/kiro/token_repository.go:251-270 | every listed token was read from a walked file with a `kiro-` name and a `.json` suffix, and there are no more tokens than walk entries |
| TokenRepository.ListedNamesAreScanned | internal/auth/kiro/token_repository.go:58-65 | every file name the listing accepts is also accepted by the refresh scan |
| TokenRepository.MergeInto | internal/auth/kiro/token_repository.go:126-150 | the in-place updates leave the map equal to the merge of the writes |
| TokenRepository.FileTokenRepository.constructor | internal/auth/kiro/token_repository.go:25-29 | the directory is kept as given |
| TokenRepository.FileTokenRepository.SetBaseDir | internal/auth/kiro/token_repository.go:32-36 | the directory becomes the trimmed argument |
| TokenRepository.FileTokenRepository.FindOldestUnverified | internal/auth/kiro/token_repository.go:39-98 | nothing without a directory; otherwise the due Kiro tokens, least recently verified first, cut to the limit |
| TokenRepository.FileTokenRepository.UpdateToken | internal/auth/kiro/token_repository.go:101-170 | the outcome of the code as written: the nil-token and missing-directory errors, the write and rename errors, the written fields, or the panic on a `null` file; where it does not panic it is the corrected `UpdateResultNullSafe` |
| TokenRepository.FileTokenRepository.ListKiroTokens | internal/auth/kiro/token_repository.go:240-273 | an error without a directory, otherwise every Kiro token file in walk order |
| UsageChecker.FreeRemaining | internal/auth/kiro/usage_checker.go:137-158 | never negative, and positive exactly when a free trial has usage below its limit |
| UsageChecker.BreakdownRemaining | internal/auth/kiro/usage_checker.go:137-158 | never negative, and positive exactly when the breakdown or its free trial has headroom |
| UsageChecker.SumRemaining | internal/auth/kiro/usage_checker.go:137-158 | the summed contributions are never negative |
| UsageChecker.RemainingQuota | internal/auth/kiro/usage_checker.go:137-158 | never negative, and 0 for a nil response or one without breakdowns |
| UsageChecker.SumRemainingPositive | internal/auth/kiro/usage_checker.go:137-158 | the total is positive exactly when some breakdown has headroom |
| UsageChecker.Exhausted | internal/auth/kiro/usage_checker.go:161-179 | definition of `IsQuotaExhausted` on a usage record; its properties are `RemainingPositiveIffNotExhausted`, `UsagePercentageMeansExhausted`, `IsQuotaExhausted` and `CalculateAvailableCount` |
| UsageChecker.RemainingPositiveIffNotExhausted | internal/auth/kiro/usage_checker.go:137-179 | quota remains exactly when `IsQuotaExhausted` says it is not exhausted |
| UsageChecker.SumRemainingAtLeastTerm | internal/auth/kiro/usage_checker.go:137-158 | no single breakdown contributes more than the total |
| UsageChecker.UsagePercentage | internal/auth/kiro/usage_checker.go:222-243 | definition of `GetUsagePercentage`; its properties are `TotalsWithinLimits`, `UsagePercentageMeansExhausted` and `GetUsagePercentage` |
| UsageChecker.TotalsWithinLimits | internal/auth/kiro/usage_checker.go:222-243 | within limits, total usage lies between 0 and the total limit, and equals it exactly when nothing has headroom |
| UsageChecker.UsagePercentageMeansExhausted | internal/auth/kiro/usage_checker.go:222-243 | with usage within its limits, the percentage lies in [0, 100] and is 100 exactly when the quota is exhausted |
| UsageChecker.CheckUsageRequest | internal/auth/kiro/usage_checker.go:74-125 | the nil-token and empty-access-token errors, and otherwise a request carrying the profile ARN and the bearer token |
| UsageChecker.GetRemainingQuota | internal/auth/kiro/usage_checker.go:137-158 | the loop returns `RemainingQuota` |
| UsageChecker.IsQuotaExhausted | internal/auth/kiro/usage_checker.go:161-179 | the loop returns `Exhausted`: true without breakdowns, and otherwise true unless some breakdown or free trial has headroom |
| UsageChecker.CalculateAvailableCount | internal/auth/kiro/usage_checker.go:217-219 | the remaining quota: never negative, and positive exactly when not exhausted |
| UsageChecker.GetUsagePercentage | internal/auth/kiro/usage_checker.go:222-243 | the loop returns `UsagePercentage`: 100 without breakdowns or for a zero total limit, usage over limit otherwise |
| UsageChecker.GetQuotaStatus | internal/auth/kiro/usage_checker.go:182-214 | errors pass through; otherwise the exhaustion flag, the first breakdown's figures with a positive free-trial remainder, and the reset time in whole seconds when positive |
| OAuthWeb.SanitizeEmail | internal/auth/kiro/oauth_web.go:445-448 | same length, no `@` or `.` left, and every other character kept in place |
| OAuthWeb.CredentialFileName | internal/auth/kiro/oauth_web.go:443-450 | `kiro-<method>.json` without an e-mail, and otherwise `kiro-<method>-<sanitized e-mail>.json` |
| OAuthWeb.CredentialFilesAreListed | internal/auth/kiro/oauth_web.go:443-450 | every file name the web login writes is one the token repository lists and scans |
| OAuthWeb.SanitizedEmailsCollide | internal/auth/kiro/oauth_web.go:443-450 | two different e-mails of the same method can map to the same file |
| OAuthWeb.StorageFields | internal/auth/kiro/oauth_web.go:455-469 | definition of the record `saveTokenToFile` writes; its properties are `RequiredStorageFields`, `StorageFieldsRead`, `SavedCredentialReadBack` and `ImportedTokenIsSavedAsReported` |
| OAuthWeb.RequiredStorageFields | internal/auth/kiro/oauth_web.go:455-469 | the storage record always carries the type `kiro`, the method, both tokens, the provider and the write time |
| OAuthWeb.StorageFieldsRead | internal/auth/kiro/oauth_web.go:455-469 | the repository's field reader gets back the saved type, method, tokens and provider |
| OAuthWeb.OmitEmpty | internal/auth/kiro/oauth_web.go:455-469 | an `omitempty` field is absent when empty and reads back as its value |
| OAuthWeb.SavedCredentialReadBack | internal/auth/kiro/oauth_web.go:414-477 | a saved credential reads back exactly when its method is IDC or Builder ID, with the saved name, method, tokens and provider |
| OAuthWeb.RefreshCallFor | internal/auth/kiro/oauth_web.go:962-982 | IDC refresh for a client with method `idc` and a region, Builder ID refresh for a client with method `builder-id`, social refresh otherwise, each with the stored arguments |
| OAuthWeb.IDCWithoutRegionRefreshesAsSocial | internal/auth/kiro/oauth_web.go:962-982 | an IDC credential without a region takes the social refresh path |
| OAuthWeb.ImportToken | internal/auth/kiro/oauth_web.go:757-828 | the 400 rejections for a bad body, an empty token, a wrong prefix or a failed validation; on success a social, imported token that keeps a refresh token, under its credential file name |
| OAuthWeb.ImportedTokenIsSavedAsReported | internal/auth/kiro/oauth_web.go:757-828 | the reported file name is where the token is saved; the repository lists that file but never decodes it as a refreshable credential |
| OAuthWeb.StartActionFor | internal/auth/kiro/oauth_web.go:105-125 | a redirect to the selection page without a method, the refusal page for Google and GitHub, the two device flows, and an error for any other method |
| OAuthWeb.IDCParameters | internal/auth/kiro/oauth_web.go:254-265 | fails exactly without a start URL; the region defaults when empty |
| OAuthWeb.FirstInterval | internal/auth/kiro/oauth_web.go:327-330 | the session's interval when it is at least five seconds, and exactly five seconds otherwise |
| OAuthWeb.TimedOut | internal/auth/kiro/oauth_web.go:336-344 | a pending session fails with the timeout error; a finished one is left alone |
| OAuthWeb.GrantedToken | internal/auth/kiro/oauth_web.go:379-391 | definition of the credential a granted poll yields; its properties are `PollSettles` (provider `AWS`, the session's method) and `SavedCredentialReadBack` |
| OAuthWeb.PollStep | internal/auth/kiro/oauth_web.go:335-410 | definition of one wake-up of the polling loop; its properties are `PendingAndSlowDownContinue` and `TimeoutKeepsFinishedSession` |
| OAuthWeb.Poll | internal/auth/kiro/oauth_web.go:324-411 | definition of polling through a sequence of wake-ups; its properties are `PollIntervalNeverShrinks`, `PollSettles` and `WebAuthSession.PollForToken` |
| OAuthWeb.PollIntervalNeverShrinks | internal/auth/kiro/oauth_web.go:324-411 | polling never lowers the interval |
| OAuthWeb.PollSettles | internal/auth/kiro/oauth_web.go:324-411 | polling from pending has returned exactly when the session is no longer pending, and a success carries an AWS credential of the session's method |
| OAuthWeb.PendingAndSlowDownContinue | internal/auth/kiro/oauth_web.go:353-363 | `authorization_pending` changes nothing and `slow_down` adds five seconds to the interval; both keep polling |
| OAuthWeb.TimeoutKeepsFinishedSession | internal/auth/kiro/oauth_web.go:336-344 | a timeout after the session finished keeps its status, error, credential and completion time |
| OAuthWeb.WebAuthSession.constructor | internal/auth/kiro/oauth_web.go:228-246 | a new device-code session is pending, with no credential, error or completion time |
| OAuthWeb.WebAuthSession.TimeOut | internal/auth/kiro/oauth_web.go:336-344 | the session becomes `TimedOut` of its old state |
| OAuthWeb.WebAuthSession.PollForToken | internal/auth/kiro/oauth_web.go:324-411 | the loop leaves the session as `Poll` from the first interval says, with an interval of at least five seconds |
| OAuthWeb.RemainingSeconds | internal/auth/kiro/oauth_web.go:640-645 | never negative: the truncated time left while some remains, 0 once the lifetime is over, and never more than the session's lifetime |
| OAuthWeb.OAuthWebHandler.constructor | internal/auth/kiro/oauth_web.go:69-74 | no sessions |
| OAuthWeb.OAuthWebHandler.CleanupExpiredSessions | internal/auth/kiro/oauth_web.go:729-742 | drops exactly the finished sessions completed over half an hour ago and the pending ones started over ten minutes ago, and cancels exactly the latter |
| OAuthWeb.OAuthWebHandler.HandleStatus | internal/auth/kiro/oauth_web.go:618-655 | the missing-state and not-found replies, and otherwise the reply for the session's status with its clamped remaining seconds or times |
| ModelConverter.NormalizeKiroModelID | internal/registry/kiro_model_converter.go:228-245 | `""` stays `""`; any other ID becomes trimmed, free of dots and `kiro-` prefixed |
| ModelConverter.DotsReplacedInTrimmed | internal/registry/kiro_model_converter.go:234-237 | trimming and then replacing dots leaves a trimmed, dot-free string |
| ModelConverter.PrefixedShape | internal/registry/kiro_model_converter.go:240-242 | prefixing `kiro-` keeps the string trimmed and dot-free |
| ModelConverter.NormalizeIdempotent | internal/registry/kiro_model_converter.go:228-245 | normalising a normalised ID changes nothing |
| ModelConverter.BlankIDBecomesBarePrefix | internal/registry/kiro_model_converter.go:228-245 | an ID of blanks is not dropped but becomes the bare `kiro-` |
| ModelConverter.Capitalize | internal/registry/kiro_model_converter.go:259-261 | a non-empty word gets its first letter upper-cased and keeps the rest |
| ModelConverter.CapitalizeAll | internal/registry/kiro_model_converter.go:258-262 | every word capitalised, in place |
| ModelConverter.DisplayName | internal/registry/kiro_model_converter.go:249-264 | definition of `generateKiroDisplayName`; its properties are `DisplayNameWords`, `DisplayNameExample` and `GenerateKiroDisplayName` |
| ModelConverter.DisplayNameWords | internal/registry/kiro_model_converter.go:249-264 | for a blank-free ID without a model name, the name is `Kiro ` and words that split back into the capitalised `-`-separated parts of the ID |
| ModelConverter.DisplayNameExample | internal/registry/kiro_model_converter.go:249-264 | `kiro-claude-sonnet-4-5` is shown as `Kiro Claude Sonnet 4 5` |
| ModelConverter.GenerateKiroDisplayName | internal/registry/kiro_model_converter.go:249-264 | the in-place loop over the words yields `DisplayName`: `Kiro ` plus the model name when there is one, else the capitalised words of the ID |
| ModelConverter.AgenticDescription | internal/registry/kiro_model_converter.go:267-272 | the default agentic description for an empty one, otherwise the description followed by the agentic suffix |
| ModelConverter.ContextLength | internal/registry/kiro_model_converter.go:275-280 | the API's limit when positive, else 200000; always positive |
| ModelConverter.CloneThinkingSupport | internal/registry/kiro_model_converter.go:284-303 | the copy equals its source, nil included |
| ModelConverter.ConvertModel | internal/registry/kiro_model_converter.go:75-91 | the entry has the normalised ID, a positive context length, 64000 completion tokens, the default thinking budget and the API's description |
| ModelConverter.Converted | internal/registry/kiro_model_converter.go:55-104 | definition of `ConvertKiroAPIModels`; its properties are `ConvertedShape` and the method `ConvertKiroAPIModels` |
| ModelConverter.ConvertedShape | internal/registry/kiro_model_converter.go:55-97 | the output is no longer than the input, and every entry has a `kiro-` ID and the defaults |
| ModelConverter.ConvertKiroAPIModels | internal/registry/kiro_model_converter.go:55-97 | the loop yields `Converted`: nil and ID-less models skipped, order kept |
| ModelConverter.AgenticVariant | internal/registry/kiro_model_converter.go:134-145 | the twin's ID is the model's plus `-agentic`, it has no twin of its own, its display name gets the ` (Agentic)` suffix, it gets the agentic description, and it copies the other fields written by the literal: object, creation time, owner, type, context length, completion limit and thinking support |
| ModelConverter.WithVariants | internal/registry/kiro_model_converter.go:107-151 | definition of `GenerateAgenticVariants`; its properties are `VariantsShape`, `TwinFollowsModel` and the method `GenerateAgenticVariants` |
| ModelConverter.VariantsShape | internal/registry/kiro_model_converter.go:107-151 | the output holds the present models plus one twin per model that has one, at most twice the input, and every entry is a model or a model's twin |
| ModelConverter.TwinFollowsModel | internal/registry/kiro_model_converter.go:121-147 | a model's twin comes right after it |
| ModelConverter.GenerateAgenticVariants | internal/registry/kiro_model_converter.go:107-151 | the loop yields `WithVariants` |
| ModelConverter.IDsOfSnoc | internal/registry/kiro_model_converter.go:181-212 | the ID set grows by the last model's ID when it has one |
| ModelConverter.StaticIndex | internal/registry/kiro_model_converter.go:169-174 | static models keyed by their own, non-empty IDs, exactly the IDs present |
| ModelConverter.AdmitTracks | internal/registry/kiro_model_converter.go:181-212 | admitting one model keeps the IDs distinct and equal to the seen set |
| ModelConverter.MergeDynamic | internal/registry/kiro_model_converter.go:181-200 | definition of the dynamic pass; its properties are `MergeDynamicTracks`, `MergeOnce` and `MergedPrefersStatic` |
| ModelConverter.MergeStatic | internal/registry/kiro_model_converter.go:203-212 | definition of the static pass; its properties are `MergeStaticTracks`, `MergeStaticExtends` and `MergeRest` |
| ModelConverter.Merged | internal/registry/kiro_model_converter.go:163-215 | definition of `MergeWithStaticMetadata`; its properties are `MergedIDs`, `MergedPrefersStatic`, `DuplicateStaticIDs` and the method `MergeWithStaticMetadata` |
| ModelConverter.MergeDynamicTracks | internal/registry/kiro_model_converter.go:181-200 | after the dynamic pass the seen IDs are the dynamic IDs, each once |
| ModelConverter.MergeStaticTracks | internal/registry/kiro_model_converter.go:203-212 | the static pass adds the static IDs, keeping them distinct |
| ModelConverter.MergedIDs | internal/registry/kiro_model_converter.go:163-215 | no ID occurs twice, and the IDs are exactly those of all dynamic and static models |
| ModelConverter.DynamicPrefersStatic | internal/registry/kiro_model_converter.go:181-200 | each model the dynamic pass admits is the static entry for its ID when there is one, else a dynamic model |
| ModelConverter.MergeStaticExtends | internal/registry/kiro_model_converter.go:203-212 | the static pass only appends |
| ModelConverter.MergedPrefersStatic | internal/registry/kiro_model_converter.go:163-215 | in the result, the dynamic models come first, with the static entry in place of a dynamic model that has one |
| ModelConverter.DuplicateStaticIDs | internal/registry/kiro_model_converter.go:169-212 | with a duplicate static ID, the later entry wins where a dynamic model has that ID, and the earlier one otherwise |
| ModelConverter.MergeWithStaticMetadata | internal/registry/kiro_model_converter.go:163-215 | the three loops yield `Merged` |
| ModelConverter.MergeOnce | internal/registry/kiro_model_converter.go:181-200 | the dynamic loop yields `MergeDynamic` |
| ModelConverter.MergeRest | internal/registry/kiro_model_converter.go:203-212 | the static loop yields `MergeStatic` |
| KiroOpenAI.IndexOfFirst | internal/translator/kiro/openai/kiro_openai.go:270 | the first occurrence of a character is found right after a prefix that does not contain it |
| KiroOpenAI.Scan | internal/translator/kiro/openai/kiro_openai.go:269-295 | the cleaned text, the thinking text and the consumed start tag together are no longer than the text scanned |
| KiroOpenAI.ExtractThinking | internal/translator/kiro/openai/kiro_openai.go:259-298 | content without the start tag is returned unchanged with no thinking; otherwise thinking is reported and both outputs are whitespace-trimmed |
| KiroOpenAI.ScanBlockStep | internal/translator/kiro/openai/kiro_openai.go:276-294 | one closed block contributes the text before it to the cleaned output and its inside to the thinking output, and the scan goes on after the end tag |
| KiroOpenAI.SingleBlock | internal/translator/kiro/openai/kiro_openai.go:259-298 | for text `a`, one block holding `b`, then text `c` without a start tag, the result is trim(a + c), trim(b), true |
| KiroOpenAI.UnclosedBlock | internal/translator/kiro/openai/kiro_openai.go:283-288 | with no end tag after the first start tag, everything after it is thinking and everything before it is cleaned content |
| KiroOpenAI.ScanClosed | internal/translator/kiro/openai/kiro_openai.go:270-294 | a scan that finds a start tag and then an end tag is the closed block followed by the scan of what follows the end tag |
| KiroOpenAI.ScanNoStartTag | internal/translator/kiro/openai/kiro_openai.go:270-273 | text without a start tag is all cleaned content and no thinking |
| KiroOpenAI.ScanUnclosed | internal/translator/kiro/openai/kiro_openai.go:283-288 | a start tag without an end tag after it makes the rest thinking |
| KiroOpenAI.ThenAssoc | internal/translator/kiro/openai/kiro_openai.go:263-295 | appending extractions to the two builders is associative, so the loop's builders are the scan of the consumed prefix followed by the scan of the rest |
| KiroOpenAI.ExtractThinkingFromContent | internal/translator/kiro/openai/kiro_openai.go:259-298 | the builder loop returns exactly `ExtractThinking` of the content |
| KiroOpenAI.LastEventLineWins | internal/translator/kiro/openai/kiro_openai.go:244-255 | the event type is the value of the last `event:` line, or empty when there is none |
| KiroOpenAI.LastDataLineWins | internal/translator/kiro/openai/kiro_openai.go:244-255 | the event data is the value of the last `data:` line that is not an `event:` line, or empty when there is none |
| KiroOpenAI.ParseLines | internal/translator/kiro/openai/kiro_openai.go:244-255 | definition of the line loop of `ParseClaudeEvent`; its properties are `OtherLinesIgnored`, `LastEventLineWins`, `LastDataLineWins`, `ParseTwoLines`, `ParseRoundTrip` and the method `ParseClaudeEvent` |
| KiroOpenAI.OtherLinesIgnored | internal/translator/kiro/openai/kiro_openai.go:247-253 | a line that is neither an event nor a data line changes nothing |
| KiroOpenAI.ParseClaudeEvent | internal/translator/kiro/openai/kiro_openai.go:244-255 | the loop over the lines yields `ParseLines` of the lines of the raw event |
| KiroOpenAI.NoNewline | internal/translator/kiro/openai/kiro_openai.go:51 | text in which no newline is found contains none |
| KiroOpenAI.FirstNewline | internal/translator/kiro/openai/kiro_openai.go:51 | the first newline found splits the text into a newline-free first line, the newline, and the rest |
| KiroOpenAI.SplitFirstLine | internal/translator/kiro/openai/kiro_openai.go:51 | splitting into at most two pieces yields one piece exactly when there is no newline, the first piece has no newline, and rejoining the pieces gives the text back |
| KiroOpenAI.FrameStreamEvent | internal/translator/kiro/openai/kiro_openai.go:43-68 | no chunk comes from empty data; an `event:` chunk takes its type from the trimmed first line and its data from a second line starting with `data:`; other chunks have no event type |
| KiroOpenAI.PrefixedValue | internal/translator/kiro/openai/kiro_openai.go:53-56 | stripping the prefix from a prefixed trimmed value and trimming gives the value back |
| KiroOpenAI.PrefixedLineTrimmed | internal/translator/kiro/openai/kiro_openai.go:249 | a line made of a prefix that neither starts nor ends with whitespace and a trimmed value is left alone by trimming |
| KiroOpenAI.SplitFirstLineAt | internal/translator/kiro/openai/kiro_openai.go:51 | a newline-free line, a newline and a rest split into exactly that line and that rest |
| KiroOpenAI.NoNewlineAfterPrefix | internal/translator/kiro/openai/kiro_openai.go:51 | a newline-free prefix followed by a newline-free value has no newline |
| KiroOpenAI.FrameOfTwoLines | internal/translator/kiro/openai/kiro_openai.go:49-57 | an `event:` chunk whose second line is a non-empty `data:` line frames to the trimmed values of the two lines |
| KiroOpenAI.FrameRoundTrip | internal/translator/kiro/openai/kiro_openai.go:49-68 | an event written as an `event:` line and a non-empty `data:` line is framed back to the same type and data |
| KiroOpenAI.ParseTwoLines | internal/translator/kiro/openai/kiro_openai.go:244-255 | an event line followed by a data line parses to their two values |
| KiroOpenAI.FieldLineValue | internal/translator/kiro/openai/kiro_openai.go:248-252 | the value read from a prefixed line is the value written after the prefix |
| KiroOpenAI.EventLineValue | internal/translator/kiro/openai/kiro_openai.go:249-250 | an `event:` line written from a field value is recognised and read back as that value |
| KiroOpenAI.DataLineValue | internal/translator/kiro/openai/kiro_openai.go:251-252 | a `data:` line written from a field value is recognised as a data line and not as an event line, and is read back as that value |
| KiroOpenAI.ParseRoundTrip | internal/translator/kiro/openai/kiro_openai.go:244-255 | an event written as an `event:` line and a `data:` line is parsed back to the same type and data |
| KiroOpenAI.ToKiroTool | internal/translator/kiro/openai/kiro_openai.go:310-333 | the specification keeps the tool's name, always has a description (the default one when it is empty), and has the schema that `ensureKiroInputSchema` makes of the parameters |
| KiroOpenAI.KiroTools | internal/translator/kiro/openai/kiro_openai.go:301-337 | definition of `ConvertOpenAIToolsToKiroFormat`; its properties are `KiroToolsConcat`, `KiroToolsCount`, `KiroToolsNamed`, `OneTool` and the method `ConvertOpenAIToolsToKiroFormat` |
| KiroOpenAI.KiroToolsConcat | internal/translator/kiro/openai/kiro_openai.go:301-337 | converting a concatenation is converting each part, in order |
| KiroOpenAI.OneTool | internal/translator/kiro/openai/kiro_openai.go:304-333 | a single tool is converted exactly when it is of type `function` with a `function` object and a non-empty name, and skipped otherwise |
| KiroOpenAI.KiroToolsCount | internal/translator/kiro/openai/kiro_openai.go:301-337 | there are exactly as many specifications as convertible tools |
| KiroOpenAI.KiroToolsNamed | internal/translator/kiro/openai/kiro_openai.go:315-325 | every specification has a non-empty name and description |
| KiroOpenAI.ConvertOpenAIToolsToKiroFormat | internal/translator/kiro/openai/kiro_openai.go:301-337 | the loop yields `KiroTools` of the tools |
| EndpointCompat.EndpointListContains | sdk/api/handlers/openai/endpoint_compat.go:30-37 | the scan is true exactly when the value is in the list |
| EndpointCompat.ResolveEndpointOverride | sdk/api/handlers/openai/endpoint_compat.go:10-28 | no override for an empty model name, an unknown model, a model without endpoints, or a supported requested endpoint; an override exactly when chat is requested and only responses is supported, or the reverse, and then it names the other endpoint |
| EndpointCompat.OverrideIsSupported | sdk/api/handlers/openai/endpoint_compat.go:18-27 | an override names an endpoint the model supports, different from the one requested, for which no further override is made |
| Metrics.SuccessRateBounded | internal/auth/kiro/metrics.go:76-78 | a success count no larger than a positive total gives a rate between 0 and 1 |
| GoStrings.TrimSpaceIsInfix | internal/registry/kiro_model_converter.go:234 | trimming yields a trimmed infix of the text with only whitespace cut on either side |
| GoStrings.TrimSpaceIdempotent | internal/translator/kiro/openai/kiro_openai.go:297 | trimming twice is trimming once |
| GoStrings.IndexOfIsFirst | internal/translator/kiro/openai/kiro_openai.go:270 | a found index is an occurrence with none before it, and -1 means there is no occurrence |
| GoStrings.JoinSplit | internal/translator/kiro/openai/kiro_openai.go:245 | joining the pieces of a split with the separator gives the text back |
| GoStrings.SplitJoin | internal/translator/kiro/openai/kiro_openai.go:245 | splitting a join of separator-free pieces gives the pieces back |

## Left out

- **Concurrency.** Mutexes, goroutines and tickers are not modelled. Each locked method
  is one atomic step. The cleanup routine and the polling goroutine are loops over a
  given sequence of ticks or replies.
- **Side effects.** I/O, the network, `time.Now`, `math/rand`, SHA-256, `math.Exp` and
  RFC 3339 formatting and parsing are parameters. Their results are not modelled.
- **One clock reading per call.** A single `now` stands for several `time.Now()` calls.
  `TokenScorer.SelectBestToken` scores every token at the same `now`, while Go reads the
  clock again in each `CalculateScore`. The poll step of `WebAuthSession.PollForToken`
  uses one `now` for both the token's expiry time and the completion time
  (internal/auth/kiro/oauth_web.go:375 and 395).
- TokenRepository.UpdateThenRead: the expiry is read back only when parsing the
  formatted time gives it back. `time.RFC3339` drops fractions of a second, so the code
  keeps the same expiry only for whole-second times.
- **Pointer sharing.** Fingerprint.FingerprintManager.GetFingerprint returns the stored
  fingerprint as a value. In Go every caller gets the same `*Fingerprint`, so a change
  made through one caller would be seen by all; no modelled code makes such a change.
- **Floating point.** float64 quantities are exact reals, so rounding is not modelled.
- **Slices and maps.** nil and empty slices are both the empty sequence. A nil
  `*ModelInfo` in a list is `None`.
- **Strings.** Go strings and byte slices are sequences of characters. Bytes and code
  points are not told apart.
- ModelConverter.AgenticVariant: `ModelInfo` holds only the ten fields the conversion
  literals write, because the declaration of `ModelInfo` is not part of this model.
  Every other Go `ModelInfo` field is zero on a twin. Among them is
  `SupportedEndpoints`, which the endpoint fallback reads, so a twin never gets an
  endpoint override. The model does not show this.
- **Case.** For `strings.ToUpper` on the first byte of a display-name word, the model
  upper-cases only an ASCII letter.
- **Thinking tags.** The start and end tags come from a package that is not part of this
  model. Here they are parameters, and the start tag must not be empty.
- **`rate_limiter.go`** is not part of this model: its implementation is not available.
- **Cooldown.CalculateCooldownUntilNextDay** is not modelled. It depends on the local
  calendar and time zone of `time.Now`.
- Cooldown.CalculateCooldownFor429: a negative retry count is a negative shift count,
  on which Go panics. Both the as-written and the corrected member take a `nat`, so
  that panic is not modelled.
- Jitter.Backoff: requires an attempt below 63 and a product `baseDelay · 2^attempt`
  within int64. The int64 wrap-around beyond that is not modelled.
- Jitter.ExponentialBackoffWithJitter: has the same bounds as `Backoff`, for the same
  reason.
- **Jitter.JitterState.HumanLikeDelay** returns the delay without sleeping.
  `ApplyHumanLikeDelay` and `initJitterRand` are not modelled: they only sleep and seed
  the generator.
- **Fingerprint.** `randomChoice` and `randomIntChoice` are the index draws passed in.
  `ApplyToRequest` is modelled on a header map, not on an `*http.Request`.
- **RefreshManager.** `GetRefreshManager` and `StopGlobalRefreshManager` are the global
  singleton around the modelled class, so they are not modelled separately. The
  refresher's own refresh loop is not part of this model.
- **UsageChecker.** The HTTP exchange of `CheckUsage` is the parameter of
  `GetQuotaStatus`. `CheckUsageByAccessToken`, `NewUsageChecker` and
  `NewUsageCheckerWithClient` only build arguments and clients.
- **OAuthWeb, not modelled.** Route registration, `generateStateID`, the HTML rendering,
  `GetSession`, `SetTokenCallback` and `ssoClient` are not modelled. Neither are
  `startSocialAuth`, `getSocialCallbackURL`, `handleCallback`, `handleSocialCallback`
  and `handleManualRefresh`: they are network round trips and page rendering around the
  modelled dispatch, validation, file-naming and refresh-method rules.
- **OAuthWeb, handler entry points.** Of `startBuilderIDAuth` and `startIDCAuth`, only the
  session they create and the IDC parameter checks are modelled.
- **KiroOpenAI, not modelled.** Most of `ConvertKiroStreamToOpenAI` and all of
  `ConvertKiroNonStreamToOpenAI` are left out: they rebuild JSON documents with gjson and
  sjson. Only the event framing of the stream conversion is modelled.
  `NewOpenAIStreamParams`, `ConvertClaudeToolUseToOpenAI` and `LogStreamEvent` are not
  modelled either.
- **KiroOpenAI, parameters.** `ensureKiroInputSchema` is the parameter `ensureSchema`.
  The JSON type assertions on a tool are its optional fields.
- KiroOpenAI.Scan: has only a length bound as its own ensures. Its meaning is stated
  by `ScanClosed`, `ScanNoStartTag` and `ScanUnclosed` and by the contract of
  `ExtractThinkingFromContent`.

## Findings

| source | as written | input that shows it | evidently intended | confidence | as-written member | corrected member |
|---|---|---|---|---|---|---|
| internal/auth/kiro/jitter.go:45-57 | the range is the difference of the two bounds each truncated to milliseconds, and `Int63n` panics when that range is 0 | `RandomDelay(1ms, 1ms + 999999ns)`, or `RandomDelay(1ns, 2ns)` | a delay in `[min, max)` for every `min < max` | not executed | Jitter.RandomDelayPanicsOnSubMillisecondRange | Jitter.RandomDelayChecked |
| internal/auth/kiro/token_repository.go:120-127 | a file holding JSON `null` makes `json.Unmarshal` set the map to nil, and the next map assignment panics | an existing credential file whose content is `null` | the file counts as empty and the token fields are written | not executed | TokenRepository.NullFileMakesUpdateTokenPanic | TokenRepository.UpdateResultNullSafe |
| internal/auth/kiro/cooldown.go:100-106 | `DefaultShortCooldown * (1 << retryCount)` wraps around in int64 from retry count 28 on | `CalculateCooldownFor429(28)` returns a negative duration | the 5-minute cap for every retry count from 3 on | not executed | Cooldown.CooldownFor429NegativeAt28 | Cooldown.CalculateCooldownFor429 |
