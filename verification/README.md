# Verified model of domain_watcher

The repository watches domain expirations, sends alerts before they expire, and can learn WHOIS parsing
rules at run time under safety rails. This project models its stateful core in Dafny and proves what the
parts keep over whole runs. `dafny verify dfyconfig.toml` checks everything.

| files | subject |
|---|---|
| `Monitoring`, `NotificationPolicies`, `RetryPolicies`, `CheckDomain`, `Delivery`, `WatchRuns`, `Watching`, `LateAlerts`, `ExactlyOnce`, `DomainWatcher` | the alert lifecycle, from a check to the interleaved delivery tasks |
| `TokenBucket`, `SuggesterBreaker` | the rate limiters and the circuit breaker |
| `Whois`, `LearnedRules`, `ValidationPipeline`, `ParsingService`, `Revalidation`, `CacheRuns` | learning, validating and revalidating parse rules |
| `EventBus` | the two-tier event bus |
| `ConfigWatcher`, `ReloadConfig`, `Scheduling` | hot reload, plugin registry and scheduler reconciliation |
| `Text`, `Durations`, `Names`, `RowCodec` | text forms: durations, domain names (RFC 1035, sections 2.3.1 and 2.3.4), database rows |
| `Common` | options, results, instants, counting, event logs |

**Shape.** Where the source updates objects in place there is a class with the same fields and loops. Its
methods are proved against state functions (`Replay`, `After`, `Run`, `Step`, `AfterPass`, ...) of the whole
history, and the theorems are about those functions, for all histories. Concurrency is a step function whose
schedules are arbitrary sequences of steps, one step per stretch between two awaits. What clocks, checkers,
notifiers, suggesters, servers, factories and file changes answer is a parameter, so every theorem holds for
all their behaviours. Instants, tokens and backoff factors are reals, durations whole seconds.

**Assumptions of the run theorems**, as they appear in the `requires` clauses.

- Alert lifecycle (`WatchRuns.LegalCheck`): checks of one domain are serialized, start after its delivery tasks have
  ended, and see a clock that does not step back; checks of different domains may overlap. A checker answers for the
  domain it was asked about, and no two resolved channels with a known notifier share an id.
- Breaker: calls are serialized on a monotone clock.
- Gate-5 cache: the clock is monotone and, for transparency only, each text that a run stores is what its server
  answers until the entry expires (`ValidationPipeline.StoredTextsLast`). Nothing is asked of other texts or times.
- Renewals and exactly-once delivery: the hash tells the expiry from the others its own domain reported
  (`WatchRuns.Separated`).
- Learning: a suggested rule has the domain's TLD, which the LLM suggester guarantees
  (`src/domain_watcher/infrastructure/parsers/llm_suggester.py:193`).
- Hot reload: every change of the file while the observer runs posts at least one callback.
- The token bucket needs no assumption on the clock.

**Where code and documentation differ.** The model follows the code; each of these has an exact condition.

- A watched domain may list one channel id twice. Then two delivery tasks share an idempotency key and both can
  send. At-most-once holds if and only if no two usable channels share an id (`Delivery.DispatchAtMostOnceIff`).
- A threshold added to a domain after it was crossed is suppressed by the last check although it never fired
  (`LateAlerts.LateThresholdIsLost`), and stays so until another expiry is reported or the domain is removed
  (`LateAlerts.LateThresholdStaysSilent`, `LateAlerts.AnotherExpiryReleases`).
- An alert whose delivery failed is not in the store, so nothing holds it back; but the policy brings it up again
  only if the last check was of another expiry, or the threshold was crossed after it was stored
  (`LateAlerts.FailedDeliveryIsRetriedIff`; `LateAlerts.FailedAlertIsLost` is such a run).
- The six gates do not look at the TLD of a suggested rule. One for another TLD that passes them is stored and
  announced, after which the parse fails, or it raises as a duplicate (`ParsingService.RepliesIff`).
- The drain of the event bus requeues a standard event "to preserve ordering", but at the back of the queue
  (`EventBus.RequeueKeepsOrderIff`, and over runs `EventBus.OrderIsKeptIff`).
- An overflow notice names the type of the incoming event, not of a dropped one, and stands for two drops; with a
  bound of one, the incoming event itself is lost (`EventBus.OwnOverflowSurvivedIff`).
- `stop` of the config watcher is documented to cancel any pending debounced reload. It cancels the timer behind its
  handle. A callback already posted, a timer whose handle a starting reload task forgot, or a task not yet at its
  read still reloads afterwards (`ConfigWatcher.StopSilencesIff`, `ConfigWatcher.TimerCanSurviveStop`).
- The label pattern of domain names ends in `$`, which lets a final newline through, so normalisation is
  idempotent exactly on texts that, stripped and encoded, do not end in one (`Names.NormaliseTwice`), and the row
  encoding inherits this (`RowCodec.DecodeEncodeIff`).
- A factory that raises while the registry is reconciled leaves the registry out of line with a configuration that
  is already installed (`ReloadConfig.RegistrySubscriber.OnConfigChanged`, `ReloadConfig.ConfigHolder.Update`), and
  later updates do not mend an id whose spec stays the same (`ReloadConfig.LastChangeDecides`,
  `ReloadConfig.FailureIsNotMended`).
- The in-memory scheduler keeps a stale callable under an unchanged cron where the real one replaces it
  (`Scheduling.SchedulersAgreeFullyIff`, `Scheduling.StaleCallableStays`).

## Model

| member | source | states |
|---|---|---|
| `TokenBucket.KeyAlone` | src/domain_watcher/infrastructure/parsers/safety.py:79-100 | In a limiter shared by many keys, the bucket of a key and every decision on it depend on that key's own clock readings only. |
| `TokenBucket.FitsIff` | src/domain_watcher/infrastructure/parsers/safety.py:93-95 | The rate in plain numbers: so many calls are within capacity plus inflow if and only if they fit into `capacity` calls at once and `capacity` more for every `window` of the time. |
| `TokenBucket.TokensWithinSlack` | src/domain_watcher/infrastructure/parsers/safety.py:93-100 | The tokens at hand never exceed what any window, starting at any earlier call on the key, still leaves open. |
| `TokenBucket.SomeSlackIsTight` | src/domain_watcher/infrastructure/parsers/safety.py:93-100 | Some window leaves exactly the tokens at hand open: together with the previous row, the incremental bucket has a closed form. |
| `TokenBucket.GrantedIffWithinEveryWindow` | src/domain_watcher/infrastructure/parsers/safety.py:79-100 | For any clock readings, a call is granted if and only if for every earlier call on the key the grants since then plus this one stay within capacity plus the inflow since then, measured on the running maximum of the clock. |
| `TokenBucket.LimiterIsExact` | src/domain_watcher/infrastructure/parsers/safety.py:79-100 | In a limiter shared by many keys, for any clock readings, a call is granted if and only if, counted from any earlier call on its key, it fits into `capacity` calls at once and `capacity` more for every `window`. |
| `TokenBucket.StretchBound` | src/domain_watcher/infrastructure/parsers/safety.py:93-100 | Over any stretch of calls on a key the grants are within the bound of that stretch. |
| `TokenBucket.IntervalBound` | src/domain_watcher/infrastructure/parsers/safety.py:79-100 | Over any interval of time a key of a shared limiter is granted at most `capacity` calls and `capacity` more for every `window` of the interval. |
| `TokenBucket.BucketIsMaximal` | src/domain_watcher/infrastructure/parsers/safety.py:79-100 | No other sequence of decisions on the same readings that fits the rate on every stretch has granted more calls than the bucket. |
| `TokenBucket.TokenBucketLimiter.Acquire` | src/domain_watcher/infrastructure/parsers/safety.py:79-100 | The imperative `acquire` on the table of buckets appends one call to the history and answers as the history demands. |
| `SuggesterBreaker.RemembersStreak` | src/domain_watcher/infrastructure/parsers/safety.py:143-151 | What the deque holds is the list of all failures since the latest success or reset, minus an oldest part that lay outside the window at the last failure. |
| `SuggesterBreaker.TripsIff` | src/domain_watcher/infrastructure/parsers/safety.py:143-151 | The breaker trips at a failing call if and only if the last `threshold` failures since the latest success or reset all lie within the failure window. |
| `SuggesterBreaker.TripsIffBurst` | src/domain_watcher/infrastructure/parsers/safety.py:128-151 | The same without the deque: a failing call trips the breaker if and only if with it at least `threshold` calls have failed within the window, and no call has succeeded or tripped since the first of them. |
| `SuggesterBreaker.HeldIff` | src/domain_watcher/infrastructure/parsers/safety.py:128-174 | A call is short-circuited if and only if an earlier call tripped the breaker less than the open duration ago; from then on the suggester is asked again. |
| `SuggesterBreaker.QuietAfterTrip` | src/domain_watcher/infrastructure/parsers/safety.py:128-137 | After a trip no inner call starts before the open period is over. |
| `SuggesterBreaker.FailuresAreSpread` | src/domain_watcher/infrastructure/parsers/safety.py:128-174 | Any `threshold + 1` failing inner calls with no successful inner call between them, short-circuited calls allowed, take at least the shorter of failure window and open period. |
| `SuggesterBreaker.CircuitBreaker.IsOpen` | src/domain_watcher/infrastructure/parsers/safety.py:128-137 | Answers whether the breaker short-circuits now; once the open period is over it forgets failures and opening instant. |
| `SuggesterBreaker.CircuitBreaker.RecordFailure` | src/domain_watcher/infrastructure/parsers/safety.py:143-151 | The trimming loop over the deque leaves exactly the failures within the window and opens at the threshold. |
| `SuggesterBreaker.SuggesterCircuitBreaker.Suggest` | src/domain_watcher/infrastructure/parsers/safety.py:165-174 | One call extends the run; it reaches the inner suggester exactly when the run says that the breaker does not hold it back. |
| `RetryPolicies.DelaysNeverShrink` | src/domain_watcher/core/checking/policies.py:31-40 | With a factor of at least one, later delays are never shorter. |
| `RetryPolicies.DelayIff` | src/domain_watcher/core/checking/policies.py:31-40 | There is a delay after an attempt if and only if it is a legal one and not the last, and it is the geometric one to within half a second. |
| `RetryPolicies.TotalIsGeometric` | src/domain_watcher/core/checking/policies.py:31-40 | With a factor above one the total wait before attempt n is the closed geometric sum, up to half a second of rounding per delay in either direction. |
| `NotificationPolicies.FiringIff` | src/domain_watcher/core/notification/policies.py:79-102 | A threshold fires if and only if it is listed, no more than so many seconds are left, and more were left when the same expiry was last checked. |
| `NotificationPolicies.AlertsIff` | src/domain_watcher/core/notification/policies.py:62-112 | The policy in plain terms: an alert is raised for an OK result, one for each listed threshold with no more than so many seconds left, unless the previous check was OK with the same expiry and had no more than so many left either; domain, expiry, severity and cycle are those of result and threshold. |
| `NotificationPolicies.SeverityGrows` | src/domain_watcher/core/notification/policies.py:33-43 | Closer thresholds are never less severe: the last day is critical, the last week a warning, anything farther informational. |
| `NotificationPolicies.FiringDescends` | src/domain_watcher/core/notification/policies.py:93-112 | Alerts come out strictly descending, so no threshold fires twice in one dispatch. |
| `NotificationPolicies.AlertsFor` | src/domain_watcher/core/notification/policies.py:62-112 | The loop over thresholds returns exactly the alerts of the firing thresholds, in order, with severity and cycle; none unless the result is OK with an expiry. |
| `CheckDomain.LastAttempt` | src/domain_watcher/application/use_cases/check_domain.py:78-108 | The deciding attempt is the first one that is not to be repeated, or the last allowed one. |
| `CheckDomain.Checked` | src/domain_watcher/application/use_cases/check_domain.py:65-136 | The whole check by its deciding attempt: which event it publishes, with the failure's transience, which row it stores and what it replies; a result that would move the last check back in time publishes and stores nothing. |
| `CheckDomain.CheckDomainUseCase.StoreResult` | src/domain_watcher/application/use_cases/check_domain.py:120-127 | An OK result is stored and announced together, or neither when the clock stepped back. |
| `CheckDomain.CheckDomainUseCase.RunAttempts` | src/domain_watcher/application/use_cases/check_domain.py:78-127 | The retry loop calls the checker up to and including the deciding attempt, waits the policy's total delay, and has exactly the effects that `Checked` describes. |
| `CheckDomain.CheckDomainUseCase.Execute` | src/domain_watcher/application/use_cases/check_domain.py:65-136 | Calls the checker again exactly after transient outcomes with attempts left, and has exactly the effects of the check of the stored row; an unmonitored name or unknown checker calls and changes nothing. |
| `Delivery.PotentialNeverGrows` | src/domain_watcher/application/use_cases/dispatch_notifications.py:93-158 | No step of any delivery task, with any answer of the notifier, raises the number of times a key has been or can still be sent. |
| `Delivery.BalanceKept` | src/domain_watcher/application/use_cases/dispatch_notifications.py:93-158 | Every step keeps the books: sends of a key equal tasks about to record, tasks about to announce, and announcements; the store holds the key when one of the latter two is positive. |
| `Delivery.QuietBalance` | src/domain_watcher/application/use_cases/dispatch_notifications.py:143-158 | When no task of a key is live, sends equal announcements and the store holds exactly the announced keys. |
| `Delivery.AtMostOnceIff` | src/domain_watcher/application/use_cases/dispatch_notifications.py:83-158 | Over all interleavings and all answers, a key is sent at most once if and only if no two tasks of the dispatch contend for it. |
| `Delivery.DispatchAtMostOnceIff` | src/domain_watcher/application/use_cases/dispatch_notifications.py:83-98 | A dispatch with distinct thresholds sends every key at most once, under all interleavings, if and only if no two channels with a known notifier share an id. |
| `Delivery.DispatchSettles` | src/domain_watcher/application/use_cases/dispatch_notifications.py:83-158 | A dispatch run to its end, in any order and with any answers, has sent every key exactly as often as it was announced, and the store holds exactly the announced keys, whatever the channel ids. |
| `Delivery.SameChannelTwiceSendsTwice` | src/domain_watcher/application/use_cases/dispatch_notifications.py:83-98 | The law fails for a repeated channel id, which the domain's constructor permits: a concrete schedule sends one key twice. |
| `Delivery.AttemptsAreBounded` | src/domain_watcher/application/use_cases/dispatch_notifications.py:112-130 | A task calls its notifier at most `max_attempts` times and never asks the policy for a delay it does not have. |
| `Delivery.AnswersDecide` | src/domain_watcher/application/use_cases/dispatch_notifications.py:93-158 | In every schedule the notifier's answers decide where a task is: it goes on after a transient failure while attempts are left, records a success, and gives up after a permanent failure or the last transient one, with the number of its calls. |
| `Delivery.DoneMeansTold` | src/domain_watcher/application/use_cases/dispatch_notifications.py:93-158 | A task that is done has told how it went: recorded and announced after a success, announced as failed when it gave up; without any answer its key was in the store or its notifier unknown and reported. |
| `Delivery.FailureHasCause` | src/domain_watcher/application/use_cases/dispatch_notifications.py:122-142 | Behind every announced failure is a task of its key that gave up after so many attempts, or one with an unknown notifier. |
| `Delivery.FailureAnnouncedIff` | src/domain_watcher/application/use_cases/dispatch_notifications.py:122-142 | At the end of a dispatch with known notifiers, a failure after `n` attempts is announced for a key if and only if a task of it gave up after `n` attempts. |
| `Delivery.IdempotencyStore.AlreadyFired` | src/domain_watcher/infrastructure/persistence/memory/idempotency.py:33-41 | True exactly for keys that have been recorded. |
| `Delivery.IdempotencyStore.Record` | src/domain_watcher/infrastructure/persistence/memory/idempotency.py:43-52 | Adds the key with its instant and changes no other key. |
| `Delivery.SendWithRetries` | src/domain_watcher/application/use_cases/dispatch_notifications.py:111-158 | The retry loop calls until the first answer that is no transient failure, or the last attempt: it ends in recording exactly after a success and in reporting exactly after a failure, with the policy's total delay, and is one task stepping alone. |
| `Delivery.Deliver` | src/domain_watcher/application/use_cases/dispatch_notifications.py:93-158 | The whole delivery in terms of the notifier's answers: how often it calls, when the key is stored, and which event it publishes; its effect is that of one task stepping alone from start to end. |
| `WatchRuns.CheckKeepsGuard` | src/domain_watcher/interfaces/library/api.py:249-262 | A check of an idle domain adds its tasks without letting any key be sent a second time, whatever expiry, thresholds and channels it finds. |
| `WatchRuns.RowsStayValid` | src/domain_watcher/interfaces/library/api.py:188-246 | Every row reachable in a run satisfies the aggregate's invariant and is stored under its own name. |
| `Watching.RowsAreAsked` | src/domain_watcher/interfaces/library/api.py:188-244 | Over any run a name is watched if and only if an acceptable order for it came after its last removal, and its row, save for the last check, says what the latest such order says. |
| `WatchRuns.SentAtMostOnce` | src/domain_watcher/application/use_cases/dispatch_notifications.py:83-158 | Over any run of checks, renewals, expiry flip-backs, removals and re-adds, and any interleaving of delivery tasks, each (domain, threshold, cycle, channel) is sent at most once and announced no more often than sent. |
| `WatchRuns.StoreMatchesEvents` | src/domain_watcher/infrastructure/persistence/memory/idempotency.py:33-52 | Whenever a domain has no live task, the store's keys for it are exactly its announced keys, each announced and sent once. |
| `WatchRuns.EmitsIsAlert` | src/domain_watcher/interfaces/library/api.py:249-262 | The policy emits for a threshold exactly when the dispatch receives that alert. |
| `Watching.ResponseIs` | src/domain_watcher/interfaces/library/api.py:249-262 | The channel resolver is asked, and can raise, exactly when the check emits an alert; otherwise the check's own reply comes back, or the reason why there was none. |
| `WatchRuns.RowIsAnchored` | src/domain_watcher/application/use_cases/check_domain.py:121-123 | The last check of a row is no later than the dispatch of the latest OK check that reported its expiry, through failing checks, other expiries, removals and re-adds. |
| `WatchRuns.EmittedIffCrossed` | src/domain_watcher/core/notification/policies.py:76-111 | With thresholds fixed, the alerts ever emitted for an expiry are exactly the thresholds crossed at the latest dispatch of an OK check that reported it: nothing is lost although suppression uses the earlier stamp. |
| `WatchRuns.RepeatsIffCrossedInBetween` | src/domain_watcher/interfaces/library/api.py:249-262 | A check right after one that reported the same expiry emits an alert again if and only if the threshold was crossed after that earlier check's stamp and no later than its dispatch. |
| `LateAlerts.LateThresholdFiresIff` | src/domain_watcher/interfaces/library/api.py:218-229 | Over any stretch of a run in which a threshold is listed, every OK check reports one expiry and the domain is not removed, the threshold is emitted if and only if it was not yet crossed at the last check stored before the stretch and is crossed at the latest check of the stretch. |
| `LateAlerts.LateThresholdStaysSilent` | src/domain_watcher/core/notification/policies.py:79-102 | A threshold that was crossed at the last stored check is emitted at no later check of the run, whenever it was added, while every OK check reports that expiry and the domain is not removed. |
| `LateAlerts.AnotherExpiryReleases` | src/domain_watcher/core/notification/policies.py:79-102 | After another expiry was reported, or the domain removed, the next check that reports the first expiry again emits exactly the listed thresholds crossed then. |
| `LateAlerts.LateThresholdIsLost` | src/domain_watcher/interfaces/library/api.py:218-262 | A concrete legal run with two checks ends with a threshold that is listed and crossed and that no check has emitted. |
| `LateAlerts.FailedDeliveryIsRetriedIff` | src/domain_watcher/application/use_cases/dispatch_notifications.py:111-142 | For an emitted alert whose key was never announced, the next check of the expiry creates exactly one contending task if the row's last check was of another expiry or the threshold was crossed after it was stored, and none otherwise. |
| `LateAlerts.FailedAlertIsLost` | src/domain_watcher/application/use_cases/dispatch_notifications.py:111-142 | A concrete legal run in which the only delivery of an alert fails for good: it is announced as failed, never as dispatched, and the next check of the same expiry creates no contending task for its key. |
| `WatchRuns.KeysOriginate` | src/domain_watcher/core/notification/policies.py:77-77 | Every key in the store or in a task belongs to an alert that some check of its domain emitted: same domain and threshold, and the cycle of the expiry that check reported. |
| `WatchRuns.RenewalIsNotHeldBack` | src/domain_watcher/core/notification/policies.py:77-77 | If the hash tells a never-reported expiry from those its domain did report, no key of it is in the store. |
| `ExactlyOnce.RenewalAlertsAgain` | src/domain_watcher/application/use_cases/dispatch_notifications.py:83-109 | A renewal alerts again: the first check that reports a new expiry creates exactly one contending task per usable channel for each listed threshold that is crossed, and none for the others. |
| `ExactlyOnce.DeliveredExactlyOnceIffCrossed` | src/domain_watcher/interfaces/library/api.py:249-262 | With a transport that delivers, fixed thresholds and channels, and an expiry whose hash is its own in its domain, a domain without live tasks has sent and announced a key exactly once if its threshold is listed and was crossed at the latest report of the expiry, and never otherwise. |
| `DomainWatcher.StepsAreFinite` | src/domain_watcher/application/use_cases/dispatch_notifications.py:112-158 | Every step of a live delivery task brings the dispatch nearer to its end. |
| `DomainWatcher.DomainWatcher.EnsureWatching` | src/domain_watcher/interfaces/library/api.py:188-234 | Upserts the row keeping its last check, if and only if the checker is known, there are channels and none is blank, the cron has five fields and the thresholds strictly descend; else it raises and changes nothing. |
| `DomainWatcher.DomainWatcher.RemoveWatching` | src/domain_watcher/interfaces/library/api.py:236-244 | Removes the row and keeps the idempotency keys. |
| `DomainWatcher.DomainWatcher.StartCheck` | src/domain_watcher/interfaces/library/api.py:249-262 | Check, then one task per alert and channel, the policy seeing the row as it was before the check; it raises when there are alerts and the resolver raises, after the check has been stored and announced. |
| `DomainWatcher.DomainWatcher.RunTask` | src/domain_watcher/application/use_cases/dispatch_notifications.py:93-158 | One task runs to its next await; the object's state is that of the extended run. |
| `DomainWatcher.DomainWatcher.CheckNow` | src/domain_watcher/interfaces/library/api.py:249-262 | The whole `check_now` under any scheduler: it ends as the check does, or raises as the resolver does, with no live task left, every recorded key sent and announced exactly once, and no key forgotten. |
| `Whois.ParseWithRules` | src/domain_watcher/infrastructure/parsers/regex.py:142-170 | The first-success loop with error carry-over computes the recursive outcome: first converted date, else a conversion error if some rule matched, else no match. |
| `Whois.NoMatchIff` | src/domain_watcher/infrastructure/parsers/regex.py:148-170 | `NoMatchingRuleError` is raised if and only if no rule of the TLD matches the text. |
| `Whois.FirstDateWins` | src/domain_watcher/infrastructure/parsers/regex.py:150-163 | The result is the date of the first matching rule whose text converts, whatever failed before it. |
| `Whois.DateIff` | src/domain_watcher/infrastructure/parsers/regex.py:142-165 | No date is invented: a parse gives a date if and only if some rule of the TLD matches and converts to it and no rule before that reads a date. |
| `Whois.ConversionFailedIff` | src/domain_watcher/infrastructure/parsers/regex.py:142-165 | A parse ends in the conversion error if and only if some rule matches and none that matches converts. |
| `LearnedRules.ForTldIff` | src/domain_watcher/infrastructure/persistence/memory/learned_rules.py:33-39 | A rule is offered for a TLD if and only if an enabled row holds it. |
| `LearnedRules.EnabledIff` | src/domain_watcher/infrastructure/persistence/memory/learned_rules.py:107-115 | The rules listed for revalidation are exactly the enabled rows. |
| `LearnedRules.OfferedParsesAlike` | src/domain_watcher/infrastructure/persistence/memory/learned_rules.py:33-39 | The rules offered for a TLD parse every text as all enabled rules do, oldest first. |
| `LearnedRules.MemoryLearnedRulesRepo.Add` | src/domain_watcher/infrastructure/persistence/memory/learned_rules.py:41-81 | Raises, changing nothing, if and only if an enabled row has the same TLD and pattern; otherwise appends a row with the next id. |
| `LearnedRules.MemoryLearnedRulesRepo.Disable` | src/domain_watcher/infrastructure/persistence/memory/learned_rules.py:83-105 | Disables the row of a known id and nothing else; raises for an unknown id. |
| `LearnedRules.MemoryLearnedRulesRepo.MarkRevalidated` | src/domain_watcher/infrastructure/persistence/memory/learned_rules.py:117-138 | Stamps the row of a known id and counts the revalidation; raises for an unknown id. |
| `ValidationPipeline.AcceptedDate` | src/domain_watcher/infrastructure/parsers/validation_pipeline.py:105-170 | An accepted rule reads from its own text a date after now, at most 365 days per year of the limit ahead, that is neither a registration date nor a sentinel. |
| `ValidationPipeline.VerdictIff` | src/domain_watcher/infrastructure/parsers/validation_pipeline.py:104-217 | The verdict is what the six gates, each taken by itself, make of the rule: accepted with the date it reads if and only if all hold, rejected by the first that does not hold, left open if and only if the first four hold and the known-good server has no answer. |
| `ValidationPipeline.FirstOtherIs` | src/domain_watcher/infrastructure/parsers/validation_pipeline.py:172-182 | The known-good domain used is the first candidate that is not the domain itself. |
| `ValidationPipeline.CacheIsHonest` | src/domain_watcher/infrastructure/parsers/validation_pipeline.py:192-211 | Every cache entry is what the server answered when it was fetched; failed and blank fetches never enter. |
| `ValidationPipeline.CacheIsTransparent` | src/domain_watcher/infrastructure/parsers/validation_pipeline.py:172-217 | If each text the run stored is what its server answers for the lifetime of its cache entry, every verdict of any run equals that of the pipeline without a cache. |
| `ValidationPipeline.FetchesAreSpaced` | src/domain_watcher/infrastructure/parsers/validation_pipeline.py:184-211 | Successful fetches under one key are at least the TTL apart. |
| `ValidationPipeline.OwnTextPlaysNoPart` | src/domain_watcher/infrastructure/parsers/validation_pipeline.py:172-182 | A domain is never cross-checked against itself: neither its server's answers nor what the cache holds of it has any influence on the verdict, or on what the cache holds of other domains. |
| `ValidationPipeline.Pipeline.Gate5` | src/domain_watcher/infrastructure/parsers/validation_pipeline.py:172-217 | The cross-check and its update of the cache are those of the specification functions. |
| `ValidationPipeline.Pipeline.Validate` | src/domain_watcher/infrastructure/parsers/validation_pipeline.py:105-217 | The six gates as a method on the cache: verdict and new cache are those of the specification functions. |
| `ParsingService.NoClash` | src/domain_watcher/application/services/parsing_service.py:81-87 | A rule that matches a text which no learned rule of its TLD matched cannot be a duplicate in the store. |
| `ParsingService.KnownIs` | src/domain_watcher/application/services/parsing_service.py:73-87 | The static rules are tried first, and only if none of them matches the enabled learned ones, oldest first; picking out the rules of the TLD beforehand makes no difference. |
| `ParsingService.KnownDateWasRead` | src/domain_watcher/application/services/parsing_service.py:73-87 | A known date was read from the text by a static or an enabled learned rule of the domain's TLD. |
| `ParsingService.AcceptedMeansParsed` | src/domain_watcher/application/services/parsing_service.py:114-161 | Once a suggested rule of the right TLD passes the pipeline, the parse cannot fail: `add` accepts it, exactly one event is published, and the reply is the date the gates saw. |
| `ParsingService.ParsedMeansLearned` | src/domain_watcher/application/services/parsing_service.py:114-161 | Conversely, a call that asked the suggester and returned a date has stored the suggested rule, accepted by the pipeline and reading that date. |
| `ParsingService.RepliesIff` | src/domain_watcher/application/services/parsing_service.py:71-170 | A parse replies or raises what fits its case, and the cases exclude each other; in particular an accepted rule fails to parse, or clashes, only if it is for another TLD. |
| `ParsingService.FailuresAreAnnounced` | src/domain_watcher/application/services/parsing_service.py:71-170 | Every failure but a conversion error and a duplicate is announced once, for its own reason, saying rightly whether the suggester was asked; nothing else announces a failure. |
| `ParsingService.LearnedOnceForGood` | src/domain_watcher/application/services/parsing_service.py:73-87 | After a text went through the fallback, any later store that extends the rows and keeps the learned row enabled parses it to the same date with no suggester call, token or event. |
| `ParsingService.ParsingService.ParseKnown` | src/domain_watcher/application/services/parsing_service.py:73-87 | Static rules first, then learned ones; a conversion error ends the parse. |
| `ParsingService.ParsingService.PassLimiters` | src/domain_watcher/application/services/parsing_service.py:98-112 | The host limiter is asked first, the TLD limiter only if it grants; each question leaves its mark on the limiter's history. |
| `ParsingService.ParsingService.PersistAndParse` | src/domain_watcher/application/services/parsing_service.py:140-166 | Stores the rule, announces it and parses with it alone; a duplicate raises with nothing announced. |
| `ParsingService.ParsingService.ParseText` | src/domain_watcher/application/services/parsing_service.py:71-166 | The whole parse acts on store, limiters, cache and publisher exactly as the state function says, in every branch. |
| `Revalidation.VisitKeepsLedger` | src/domain_watcher/application/services/revalidation_service.py:68-109 | A visit changes the visited row only, by one of its two operations, and publishes the matching event once. |
| `Revalidation.VisitIs` | src/domain_watcher/application/services/revalidation_service.py:69-109 | A visit disables the row if and only if the gates reject the fetched text, stamps and counts it if and only if they accept, leaves it alone when the fetch fails or gate 5 has no answer, and publishes the event that goes with it. |
| `Revalidation.PassIs` | src/domain_watcher/application/services/revalidation_service.py:54-109 | What becomes of every row in a pass: enabled rows whose stamp is missing or old enough get what their own visit's verdict says, whatever the other visits do; all other rows stay as they are. |
| `Revalidation.NotDueIsUntouched` | src/domain_watcher/application/services/revalidation_service.py:54-67 | A pass leaves every row alone that is disabled or not due. |
| `Revalidation.RunsKeepLedger` | src/domain_watcher/application/services/revalidation_service.py:54-109 | Over any run of parses and passes: ids count up, enabled (TLD, pattern) pairs are unique, each row has one learned event, its revalidation count is the number of its revalidated events, and it has one invalidated event exactly when disabled. |
| `Revalidation.DisabledIffRejected` | src/domain_watcher/application/services/revalidation_service.py:54-109 | Over any run, a rule is disabled if and only if a pass has rejected it, which happens at most once, and its count is the number of passes that have accepted it. |
| `Revalidation.RowsOnlyGrow` | src/domain_watcher/infrastructure/persistence/memory/learned_rules.py:83-138 | Rows are never forgotten, reordered or given another rule, and disabled ones never return. |
| `Revalidation.LearnOnceThenDeterministic` | src/domain_watcher/application/services/parsing_service.py:71-166 | In any run, after a text was parsed through the fallback, parsing it again while the learned rule is enabled gives the same date and changes nothing. |
| `Revalidation.HostTokensAreAccounted` | src/domain_watcher/application/services/parsing_service.py:98-116 | In any part of a run the host limiter's grants are exactly the suggester calls plus the calls that the TLD limiter refused, whose host token is spent all the same. |
| `Revalidation.TldTokensAreAccounted` | src/domain_watcher/application/services/parsing_service.py:106-116 | In any part of a run the TLD limiter's grants for a TLD are exactly the suggester calls for that TLD. |
| `Revalidation.HostBound` | src/domain_watcher/application/services/parsing_service.py:98-104 | With the host limiter wired, the suggester calls of any interval of a run fit into `capacity` at once and `capacity` more for every `window`. |
| `Revalidation.TldBound` | src/domain_watcher/application/services/parsing_service.py:106-112 | With the TLD limiter wired, those of one TLD fit its rate in the same way. |
| `Revalidation.LearnedWithinAsked` | src/domain_watcher/application/services/parsing_service.py:114-150 | No more rules are learned in any part of a run than the suggester was asked for; and, if suggestions are for the domain's TLD, no more of a TLD than it was asked for that TLD. |
| `Revalidation.LearnedWithinHostBound` | src/domain_watcher/application/services/parsing_service.py:98-150 | The rules learned in any interval of a run fit the host's rate. |
| `Revalidation.LearnedWithinTldBound` | src/domain_watcher/application/services/parsing_service.py:106-150 | The rules of a TLD learned in any interval of a run fit the TLD's rate. |
| `Revalidation.RevalidationService.Revalidate` | src/domain_watcher/application/services/revalidation_service.py:68-109 | Fetch failures and transient verdicts change no row; a rejection disables and a pass stamps, each with its event. |
| `Revalidation.RevalidationService.RunOnce` | src/domain_watcher/application/services/revalidation_service.py:54-61 | The loop over the listed rules has exactly the effect of the pass function. |
| `CacheRuns.RunsAreTransparent` | src/domain_watcher/infrastructure/parsers/validation_pipeline.py:172-217 | Over any run of parses and revalidation passes, under the same condition on stored texts, a service without the cross-check cache ends with the same rows, events and limiter histories. |
| `CacheRuns.RepliesAreTransparent` | src/domain_watcher/application/services/parsing_service.py:71-166 | So does every reply of such a run: a parse returns or raises the same without the cache. |
| `EventBus.QueueIsBounded` | src/domain_watcher/application/event_bus.py:181-201 | A bounded standard queue never exceeds its bound. |
| `EventBus.LossIff` | src/domain_watcher/application/event_bus.py:181-201 | Nothing is lost early: over any run a publication loses events if and only if it is a standard one and the queue is bounded and full to the bound; otherwise the event joins its own queue and the other stays. |
| `EventBus.CriticalsInOrder` | src/domain_watcher/application/event_bus.py:165-179 | Critical events delivered, followed by those queued, are all critical events published, in order, whatever the standard queue does. |
| `EventBus.Conservation` | src/domain_watcher/application/event_bus.py:181-201 | As multisets, published standard events and overflow notices are the delivered, queued and dropped ones, and every notice stands for exactly two drops. |
| `EventBus.OwnOverflowSurvivedIff` | src/domain_watcher/application/event_bus.py:181-201 | An overflow by an event that is not queued yet drops two events and its notice names the arriving one; that event stays queued, and so is not one of the two dropped, if and only if the bound is at least two. |
| `EventBus.NewestNoticeSurvives` | src/domain_watcher/application/event_bus.py:188-201 | The newest overflow notice is always still queued or already delivered, so loss is never silent. |
| `EventBus.RequeueKeepsOrderIff` | src/domain_watcher/application/event_bus.py:262-270 | A drain that finds both queues nonempty returns the oldest critical event and moves the oldest standard event to the back; for distinct events the order survives if and only if one standard event is queued. |
| `EventBus.StandardEventsInOrder` | src/domain_watcher/application/event_bus.py:181-201 | If every drain that finds a critical event finds at most one standard one, the standard queue always is the end of what entered it, and what was delivered is in the order of entry. |
| `EventBus.OrderIsKeptIff` | src/domain_watcher/application/event_bus.py:256-270 | For distinct events, the standard queue stays in the order of publication throughout a run if and only if every drain that finds a critical event finds at most one standard one. |
| `EventBus.StandardEventsCanSwap` | src/domain_watcher/application/event_bus.py:262-270 | A concrete run delivers a standard event after one that was published later. |
| `EventBus.Subscriber.Enqueue` | src/domain_watcher/application/event_bus.py:159-201 | The two-step overflow handling on the queues is the specified transition. |
| `EventBus.Subscriber.Next` | src/domain_watcher/application/event_bus.py:256-270 | Yields nothing exactly when both queues are empty, else the specified event. |
| `EventBus.InProcessEventBus.Publish` | src/domain_watcher/application/event_bus.py:143-155 | Every open subscriber gets the event, closed ones do not, and no subscriber affects another. |
| `ConfigWatcher.RunsKeepInvariant` | src/domain_watcher/infrastructure/config/watcher.py:131-170 | Over any interleaving at most one task is inside the lock, and an unread change always has a callback, timer or task on its way. |
| `ConfigWatcher.QuietMeansUpToDate` | src/domain_watcher/infrastructure/config/watcher.py:131-170 | No lost reload: with nothing outstanding, the last read saw the latest content and the holder has it, or the most recent content that loaded. |
| `ConfigWatcher.HolderIsLatestLoad` | src/domain_watcher/infrastructure/config/watcher.py:148-170 | Unless a load is on its way to the holder, the holder has the initial configuration or the most recent successful load. |
| `ConfigWatcher.OnlyInstallNotifies` | src/domain_watcher/infrastructure/config/watcher.py:148-170 | Subscribers are told of configurations that the holder has taken, and of nothing else: a load that fails tells nobody. |
| `ConfigWatcher.InternalStepsEnd` | src/domain_watcher/infrastructure/config/watcher.py:131-170 | Every step other than a new change or a stop brings the watcher nearer to rest. |
| `ConfigWatcher.NeverStuck` | src/domain_watcher/infrastructure/config/watcher.py:148-170 | Unless everything is quiet some step is possible, so the lock cannot deadlock the reloads. |
| `ConfigWatcher.ChangesAreAlwaysPickedUp` | src/domain_watcher/infrastructure/config/watcher.py:121-170 | Left alone, a running watcher comes to rest with the holder in line with the file. |
| `ConfigWatcher.StopLeavesForgotten` | src/domain_watcher/infrastructure/config/watcher.py:131-150 | Stopping any run leaves armed exactly the timers that starting reload tasks have forgotten and that have not fired. |
| `ConfigWatcher.StopSilencesIff` | src/domain_watcher/infrastructure/config/watcher.py:107-116 | After a stop no reload ever reads the file again, in any continuation, further changes of the file included, if and only if at the stop no callback is waiting, no timer was forgotten, and no reload task is on its way to its read. |
| `ConfigWatcher.TimerCanSurviveStop` | src/domain_watcher/infrastructure/config/watcher.py:131-150 | A concrete run in which a reload task forgets the handle of a newer timer, which then survives `stop`. |
| `ConfigWatcher.ConfigFileWatcher.ScheduleReload` | src/domain_watcher/infrastructure/config/watcher.py:131-146 | Cancel and re-arm is the callback step of the run. |
| `ConfigWatcher.ConfigFileWatcher.LoadFile` | src/domain_watcher/infrastructure/config/watcher.py:151-163 | A load that fails keeps the previous configuration; one that succeeds is the read step of the run. |
| `ConfigWatcher.ConfigFileWatcher.StopWatching` | src/domain_watcher/infrastructure/config/watcher.py:107-116 | Stopping cancels the timer behind the handle and is the stop step of the run. |
| `ReloadConfig.SyncedMatches` | src/domain_watcher/application/use_cases/reload_config.py:180-214 | A completed reconciliation takes a registry in line with the old specs to one in line with the new specs. |
| `ReloadConfig.SpecMapIff` | src/domain_watcher/application/use_cases/reload_config.py:180-184 | A configuration asks for a spec if and only if it lists it and no later one with the same id. |
| `ReloadConfig.InLineIff` | src/domain_watcher/application/use_cases/reload_config.py:180-214 | After a completed update an id is in line with the configuration if and only if its spec changed or it was in line before: an id left out by a failed update stays out until its spec changes. |
| `ReloadConfig.SameObjectIff` | src/domain_watcher/application/use_cases/reload_config.py:195-214 | A plugin that stays in the configuration stays the same object if and only if its spec is unchanged, or its kind is and the hook takes over the new settings; either way it embodies the new spec if that changed. |
| `ReloadConfig.UpdatesKeepMatch` | src/domain_watcher/application/use_cases/reload_config.py:70-90 | Over any series of updates that nothing stops, with factory and hook free to answer differently at each, a registry that matches at first matches the current specs throughout. |
| `ReloadConfig.SteadyIsUntouched` | src/domain_watcher/application/use_cases/reload_config.py:180-214 | Over any series of updates, complete or cut short, a plugin is the same object, and as much in line, as long as its spec stays the same. |
| `ReloadConfig.LastChangeDecides` | src/domain_watcher/application/use_cases/reload_config.py:180-214 | Over any such series an id is in line if and only if the last update that changed its spec was stopped neither by it nor by an id that the three sorted loops reach before it, or the object registered before already had the new spec. |
| `ReloadConfig.FailureIsNotMended` | src/domain_watcher/application/use_cases/reload_config.py:180-214 | A concrete failure: when the factory raises for the only plugin, a second update with the same configuration succeeds without registering it. |
| `ReloadConfig.RegistrySubscriber.UpdateOne` | src/domain_watcher/application/use_cases/reload_config.py:195-214 | An id that stays is kept, reloaded in place by its hook, or replaced; a hook that declines or raises leads to replacement. |
| `ReloadConfig.RegistrySubscriber.OnConfigChanged` | src/domain_watcher/application/use_cases/reload_config.py:180-214 | The three sorted loops succeed if and only if the factory delivers for every id that needs a new object and no added id is taken; else the ids before the first that fails are in line and all others as before; from a matching registry, success and a matching result are the same thing. |
| `ReloadConfig.ConfigHolder.Update` | src/domain_watcher/application/use_cases/reload_config.py:70-90 | Under the holder's lock the new configuration is installed first and stays, whatever the subscriber does; the ids before the first that fails are in line with it, all others as they were. |
| `Scheduling.ReconcileIsIdempotent` | src/domain_watcher/infrastructure/scheduling/apscheduler.py:167-203 | A reconciliation that finds its target reached leaves every library job, serial included, as it was. |
| `Scheduling.TargetIff` | src/domain_watcher/infrastructure/scheduling/apscheduler.py:173-176 | The target has an entry under an id if and only if the last row of some name asks for it, with that row's cron and its callable. |
| `Scheduling.SchedulersAgree` | src/domain_watcher/application/scheduling.py:106-123 | After reconciling with one target both schedulers have the same ids and crons. |
| `Scheduling.SchedulersAgreeFullyIff` | src/domain_watcher/application/scheduling.py:106-123 | They agree on callables too if and only if the in-memory one held no job of the target with the right cron and another callable. |
| `Scheduling.StaleCallableStays` | src/domain_watcher/application/scheduling.py:106-123 | A concrete case: with an unchanged cron and a new callable the in-memory scheduler keeps the old job where the other one installs the new. |
| `Scheduling.ApsScheduler.AddJob` | src/domain_watcher/infrastructure/scheduling/apscheduler.py:126-136 | Refuses a taken id or a bad cron with nothing changed; the mirror equals the job store either way. |
| `Scheduling.ApsScheduler.AddOrUpdateJob` | src/domain_watcher/infrastructure/scheduling/apscheduler.py:138-151 | A job already as asked is not touched, a bad cron changes nothing, and no other job is touched. |
| `Scheduling.ApsScheduler.RemoveJob` | src/domain_watcher/infrastructure/scheduling/apscheduler.py:153-159 | Removes the job from mirror and job store, or does nothing for an unknown id. |
| `Scheduling.ApsScheduler.Reconcile` | src/domain_watcher/infrastructure/scheduling/apscheduler.py:167-203 | Succeeds if and only if every job that has to change has a cron that parses; then exactly the target is scheduled next to an untouched revalidation job; jobs already right keep their library job. When it raises, jobs outside the target or already right are untouched, and mirror and job store agree. |
| `Scheduling.ApsScheduler.AddRevalidationJob` | src/domain_watcher/infrastructure/scheduling/apscheduler.py:208-227 | Replaces the revalidation job and touches no other; refuses an interval of zero. |
| `Scheduling.ApsScheduler.RemoveRevalidationJob` | src/domain_watcher/infrastructure/scheduling/apscheduler.py:229-233 | Removes the revalidation job from mirror and job store. |
| `Scheduling.MemoryScheduler.Reconcile` | src/domain_watcher/application/scheduling.py:106-123 | The two loops reach the target, keeping the entry of an unchanged cron, callable included. |
| `Text.SplitJoin` | src/domain_watcher/infrastructure/persistence/sql/repos/monitored.py:44-49 | Splitting a joined column gives the parts back when none contains the separator. |
| `Text.DecimalToNat` | src/domain_watcher/infrastructure/persistence/sql/repos/monitored.py:45-45 | Reading a printed number gives it back. |
| `Text.DecimalIsInt` | src/domain_watcher/infrastructure/persistence/sql/repos/monitored.py:45-45 | What `int` makes of a printed number is the number. |
| `Text.FieldsGrow` | src/domain_watcher/core/monitoring/value_objects.py:51-56 | What the five fields of a cron expression are: one begins with each character that is no space and follows a space or nothing. |
| `Durations.ParsePrint` | src/domain_watcher/core/shared/value_objects.py:172-194 | Parsing a printed duration gives it back, for every whole number of seconds. |
| `Durations.PrintForm` | src/domain_watcher/core/shared/value_objects.py:189-194 | A duration is printed in the largest unit that it is a positive multiple of, seconds if there is none. |
| `Durations.UnitsMean` | src/domain_watcher/core/shared/value_objects.py:172-187 | A number of seconds, minutes, hours or days parses to that many seconds. |
| `Durations.PrintIsInjective` | src/domain_watcher/core/shared/value_objects.py:189-194 | Durations that print alike are equal. |
| `Names.CleanNameIsNormal` | src/domain_watcher/core/shared/value_objects.py:61-97 | An accepted name that ends in no newline is its own normal form. |
| `Names.AcceptedIff` | src/domain_watcher/core/shared/value_objects.py:61-97 | What is accepted, and as what: the text, stripped and encoded, in small letters, if it is not empty, has at most 253 characters, and every label has at most 63 characters and the preferred syntax. |
| `Names.NormaliseTwice` | src/domain_watcher/core/shared/value_objects.py:61-97 | Normalising an accepted text twice changes nothing if and only if the text, stripped and encoded (for ASCII: just stripped), does not end in a newline. |
| `Names.NewlineSurvives` | src/domain_watcher/core/shared/value_objects.py:20-20 | Such normal forms exist: a newline in front of a trailing dot survives stripping, since `$` matches before it. |
| `Names.TldIs` | src/domain_watcher/core/shared/value_objects.py:99-107 | The effective top-level domain of a name is its last label, or its last two if they are a known pair. |
| `RowCodec.ThresholdColumn` | src/domain_watcher/infrastructure/persistence/sql/repos/monitored.py:44-48 | The threshold column decodes to the encoded thresholds. |
| `RowCodec.ChannelColumn` | src/domain_watcher/infrastructure/persistence/sql/repos/monitored.py:49-49 | The channel column decodes to the encoded channels when none holds a comma. |
| `RowCodec.ColumnsOf` | src/domain_watcher/infrastructure/persistence/sql/repos/monitored.py:69-84 | The columns of a concrete row: thresholds and channels joined by commas, the outcome as its text. |
| `RowCodec.DecodeEncodeIff` | src/domain_watcher/infrastructure/persistence/sql/repos/monitored.py:43-84 | Decoding an encoded domain gives it back if and only if no channel id holds a comma and the name ends in no newline. |
| `RowCodec.DecodedIsClean` | src/domain_watcher/infrastructure/persistence/sql/repos/monitored.py:43-67 | Whatever a row holds, `int`'s spaces, signs and underscores in thresholds included, a decoded domain has no comma in a channel id and a normalised name. |

## Left out

- Network and subprocess I/O: RDAP, WHOIS and script checkers, notifiers and LLM calls are arbitrary streams of outcomes.
- Regex search, date and time-zone conversion, IDNA and cron parsing are arbitrary total functions, conversion and cron parsing with a failure outcome; time zones are not modelled.
- sha256: a learned rule keeps its sample text itself; the cycle id is an arbitrary function of the expiry, assumed only where a theorem needs it to tell an expiry from the others its domain reported.
- JSON text of the metadata column: dumping and loading are taken as inverse, so metadata is a map in the row.
- SQLAlchemy sessions, units of work, migrations and the SQL learned-rule repository.
- Pydantic schema, YAML loading, CLI, composition, plugin discovery, log scrubbing and metrics, the gate-5 skip counter included.
- Floating-point rounding: tokens, inflow and backoff powers are exact reals, then rounded as the source rounds.
- Cancellation of awaits, and garbage collection of event iterators.
- Event bus callbacks and the put timeout of critical events; a drain is one atomic step, so no publisher runs between an iterator's pull and its requeue.
- A reload reads the file in one atomic step.
- A row that is removed or updated while a check of it runs: the check stores the row it read at its start, with the new result, over the update. A second check of a domain whose deliveries are still running.
- A run starts with an empty idempotency store and an empty repository.
- `DomainWatcher.start` and `stop`, and the scheduler call inside `ensure_watching` and `remove_watching`; the scheduler's operations are in `Scheduling`.
- Parses that interleave between reading the learned rules and adding one: parses are serialized, as are revalidation passes with them.
- `created_at` of learned rules, and operators disabling a rule by hand.
- Malformed entries of the known-good list, whose `DomainName` construction raises.
- `ApsScheduler.start` and `stop`, its pending-job list, and when jobs fire.
- Object identity is modelled by serial numbers (overflow notices, plugin instances, library jobs, callables).
- Sorting of plugin ids: any function that lists a set without repetition; the theorems hold for every such order, the source's included.
- Loops of the schedulers over dictionaries pick their elements in any order, so the result holds for the source's order too.
- `unregister` and `replace` callbacks of the registry subscriber that raise: in the model only a factory or the registration of a taken id stops an update.
- Config subscribers other than the registry's: the holder isolates them from each other.
- `DomainName.registrable` and `MonitoredDomain.is_due`: single expressions with no state.
- Digits outside ASCII in `Duration.parse` and in the threshold column, and `int`'s limit on the number of digits.
- A count of `ParseFailed` events per raised error: a conversion error in the static or learned step escapes without one, as in the source.
