# Trellis API: verified models

This project models the parts of the Trellis API backend whose correctness is not visible from
one function body, and proves what those parts are for.

- **Import-cycle finder** (`CycleFinder.dfy`). The depth-first search with its visited set, active
  set and stack. It reports only simple cycles, meets every closed walk, and reports nothing exactly
  when the graph is acyclic.
- **Canonical JSON and signing payloads** (`JsonText.dfy`, `CanonicalJson.dfy`, `CanonicalShape.dfy`,
  `CrossRepoSigning.dfy`). A printer over UTF-16 code units with the escapes of section 7 of RFC 8259,
  and an independent parser that recovers the value. Text and logical value determine each other; key
  order, escapes, number forms and punctuation are stated on the code units. The signing payload determines the envelope exactly when no header spans lines.
- **Trade lock** (`TradeLock.dfy`, `TradeLockSafety.dfy`, `TradeLockAnswers.dfy`,
  `TradeLockService.dfy`). A step system with one step between consecutive awaits, invariants over
  every run, the exact condition for mutual exclusion, what requests are answered with, and the
  service class proved to take those steps.
- **Public health** (`PublicHealth.dfy`, `PublicHealthProofs.dfy`, `PublicHealthVerdicts.dfy`,
  `PublicHealthInvalidation.dfy`, `PublicHealthService.dfy`). Single flight, cache and retry loop under any interleaving of callers,
  probes and invalidations, what each served view tells, and exactly when an invalidation sticks.
- **Billing** (`Calendar.dfy`, `Proration.dfy`, `BillingLedger.dfy`, `BillingRuns.dfy`,
  `BillingCharges.dfy`, `BillingService.dfy`, `UsageCsv.dfy`). Month stepping over the proleptic Gregorian calendar, exact
  proration, a ledger whose books balance over every run, and a CSV export that reads back by the
  quoting rules of section 2 of RFC 4180, with rows that end at line feeds.
- **Public status** (`StatusModel.dfy`, `StatusSnapshot.dfy`, `StatusTheorems.dfy`, `StatusTexts.dfy`).
  The section by section computation of the snapshot is proved against a closed form, and the two
  gates are proved to agree with the published capability flags and with the texts they are given.
- **Resumable backfill** (`Backfill.dfy`), **metrics history** (`MetricsHistory.dfy`), **log
  sanitiser** (`LogSanitizer.dfy`, `LogSanitizerKeys.dfy`) and **dependency health** (`DependencyHealth.dfy`).

Code that updates fields or loops is a class or a method with invariants; code that only computes is
functions and lemmas. Protocols are step systems on values, so that lemmas can range over whole runs,
and each class method is proved to take exactly one such step.

Where the code does less than its text says, the code is followed:

- The trade lock is described as a pessimistic per-user lock. It awaits the lock it finds once and
  does not look again, so two waiters of one lock both enter (`TradeLockSafety.ImpoliteRunOverlaps`).
  When one of them leaves, the lock map is empty while the other goes on, so even a request that finds
  nobody waiting walks in (`PoliteSubmissionOverlaps`). `SubmitSafeExact` says when a submission keeps a
  user's requests apart: they were apart, and the answer is cached, or nobody waits and every holder is
  in the lock map. `SafeExact` says what being apart means for all continuations.
- Results are cached by idempotency key alone, so a key used by two users hands one of them the other's
  trade (`TradeLockAnswers.AnotherUsersTrade`). Everybody is sure to get their own trades exactly when the
  requests that may be submitted give no key to two users (`OwnAnswersExactly`).
- `invalidate()` is for dropping a verdict after a repair, but it leaves the evaluation in flight alone. A
  caller who arrives later joins it and is told of the old outage, even if nothing is ever cached
  (`PublicHealthInvalidation.JoinerIsToldOldOutage`), and a verdict not yet reached is cached afterwards
  (`OutageOutlivesInvalidation`). For all later callers the call sticks exactly when nothing is in flight
  (`InvalidateExact`).
- A rejected write is told to come back at the earliest declared end of anything, related or not
  (`StatusTheorems.HintOfAnotherEnd`). It passes then exactly when every end that blocks it rounds up to
  that very number of seconds (`RetrySucceedsExactly`).
- A doc comment in `billing-proration.ts` (190-196) says an upgrade on the last day of a cycle costs a
  positive amount. `Proration.LastInstantUpgradeIsFree` is an upgrade that costs nothing.
  `UpgradeChargedExactly` says when an upgrade is charged for any prices, and
  `BillingRuns.PlanUpgradeCharged` for the plans there are: while twice the new price times the time left
  is at least the length of the cycle, which leaves free the last 12 minutes of 31 days for starter.
- The same file (35-37) says an activation charges the whole cycle. With an anchor in the past it
  charges the share that is left (`Proration.LateActivationIsProrated`);
  `BillingRuns.ActivationChargedInFull` says when the charge is full.
- `addBillingMonth` is documented to advance one month. `Date.UTC` reads years 0 to 99 as 1900 to 1999,
  so it does exactly when the target year is not one of those (`Calendar.AdvancesOneMonth`;
  `MisreadYear` is an instant where it does not).
- Repeated months drift: an anchor on the 31st stays on the shorter day once it has been clamped
  (`Calendar.DayDrifts`, `BoundaryExact`). It keeps its day exactly while no month passed is shorter
  (`KeepsDayExactly`).
- `prune` inspects only the first point. With a clock that steps back an expired point can stay in the
  buffer (`MetricsHistory.ClockStepBackKeepsOldPoint`); none does exactly when the first point has expired
  or none of the last `maxPoints` has (`PruneExact`). That is about the buffer: such a clock also loses
  points of the log that should be retained (`ClockStepBackLosesPoint`). Under all settings and any next
  capture the buffer is right exactly when the clock never stepped back (`OrderedExactly`, `BufferExact`).
- The sanitiser's budgets are said to cap its output whatever the input (`sanitize.util.ts` 98-102).
  Values and counts are capped, but keys are copied as they are (`LogSanitizer.LongKeySurvives`), so
  the bound on all text depends on the longest key that is reached (`TextsBoundedExactly`).
- The list of sensitive names holds names with an underscore, such as `db_password`. Keys lose their
  underscores before they are looked up, so those entries match nothing, and a key of that very name is
  logged (`LogSanitizerKeys.UnderscoredNameIsLogged`). A key is redacted exactly when it is a spelling of
  a listed or extra name without capitals and separators (`PropertyLogged`).

## Model

| member | source | states |
|---|---|---|
| CycleFinder.FindCycles | scripts/check-circular-dependencies.js:42-65 | Terminates on every finite graph. Every report is a simple directed cycle, every closed walk uses the closing edge of some report, and nothing is reported iff there is no closed walk |
| CycleFinder.Search.constructor | scripts/check-circular-dependencies.js:43-46 | The search starts with empty sets, stack and reports |
| CycleFinder.Search.Visit | scripts/check-circular-dependencies.js:48-61 | Restores stack and active set, only adds visited files and reports, and leaves the file either finished or on a reported closing edge |
| CycleFinder.Search.ReportCycle | scripts/check-circular-dependencies.js:49-53 | An active file yields a report that closes on the edge from the top of the stack |
| CycleFinder.Search.Enter | scripts/check-circular-dependencies.js:54-57 | The file joins visited, active and stack, and the set of files left to visit shrinks |
| CycleFinder.Search.VisitDependencies | scripts/check-circular-dependencies.js:58 | Every dependency ends up finished or behind a reported closing edge |
| CycleFinder.Search.Leave | scripts/check-circular-dependencies.js:59-60 | The file leaves stack and active set and takes the next place in the finish order |
| CycleFinder.IndexOf | scripts/check-circular-dependencies.js:50 | The first position of the file on the stack |
| CycleFinder.SliceIsSimpleCycle | scripts/check-circular-dependencies.js:50-51 | The stack from the file on, closed by it, is a simple cycle of the graph |
| CycleFinder.RankFalls | scripts/check-circular-dependencies.js:48-61 | Along any walk that avoids reported closing edges the finish order strictly falls |
| CycleFinder.FinishedSearchIsComplete | scripts/check-circular-dependencies.js:62-65 | Once all keys are finished the reports meet every closed walk |
| JsonText.QuoteRoundTrip | src/cross-repo/cross-repo.signing.ts:13 | A quoted string, whatever it holds and whatever follows, reads back as itself |
| JsonText.UnitRoundTrip | src/cross-repo/cross-repo.signing.ts:13 | Every code unit survives escaping, lone surrogates included |
| JsonText.NumberRoundTrip | src/cross-repo/cross-repo.signing.ts:13 | Plain, pointed, small and exponent number texts all read back as the number |
| JsonText.QuotePrintable | src/cross-repo/cross-repo.signing.ts:13 | A quoted string holds no control character |
| CanonicalJson.CanonicalExact | src/cross-repo/cross-repo.signing.ts:11-22 | Two values have the same canonical text iff they are the same JSON value: key order, undefined, NaN, infinities and negative zero are the only differences forgotten |
| CanonicalJson.CanonicalRoundTrip | src/cross-repo/cross-repo.signing.ts:11-22 | A parser recovers the JSON value from the canonical text, in any context |
| CanonicalJson.SameValueSameText | src/cross-repo/cross-repo.signing.ts:17-20 | Values that differ in key insertion order only, at any depth, print alike |
| CanonicalJson.SortKeysCanonical | src/cross-repo/cross-repo.signing.ts:18-19 | Sorting forgets insertion order |
| CanonicalJson.SortKeysAscending | src/cross-repo/cross-repo.signing.ts:18-19 | The sorted keys ascend by code units |
| CanonicalJson.SortKeys | src/cross-repo/cross-repo.signing.ts:18-19 | Sorting keeps the keys with their multiplicity |
| CanonicalJson.CanonicalPrintable | src/cross-repo/cross-repo.signing.ts:11-22 | Canonical text holds no control character, hence no newline |
| CanonicalShape.PrintedKeysAscend | src/cross-repo/cross-repo.signing.ts:17-20 | The keys of an object, read off its text as printed, are exactly its keys; of two, the one before is a prefix of the other or has the smaller code unit where they first differ |
| CanonicalShape.SortedSmallestFirst | src/cross-repo/cross-repo.signing.ts:18-19 | The same of the sorted keys |
| CanonicalShape.ScalarTexts | src/cross-repo/cross-repo.signing.ts:12-13 | null for null, undefined and non-finite numbers, true, false and 0, as code units |
| CanonicalShape.ArrayText | src/cross-repo/cross-repo.signing.ts:14-16 | Items in order, a comma between two, brackets around all |
| CanonicalShape.MemberText | src/cross-repo/cross-repo.signing.ts:18-21 | Quoted key, colon, value, braces around all |
| CanonicalShape.UnitText | src/cross-repo/cross-repo.signing.ts:13 | The escape of every code unit: the short ones, lower-case hexadecimal for other controls and lone surrogates, itself else |
| CanonicalShape.TextInPieces | src/cross-repo/cross-repo.signing.ts:13 | A text is written piece by piece unless a surrogate pair is cut |
| CanonicalShape.PairText | src/cross-repo/cross-repo.signing.ts:13 | A surrogate pair is copied |
| CanonicalShape.NumberForm | src/cross-repo/cross-repo.signing.ts:13 | Sign, exponent iff at least 10^21 or below 10^-6, point iff not whole, and the lengths |
| CanonicalShape.ExponentForm | src/cross-repo/cross-repo.signing.ts:13 | One digit, point and digits, e, a sign that is always written, and the exponent |
| CrossRepoSigning.SigningPayloadExact | src/cross-repo/cross-repo.signing.ts:25-33 | An envelope is the only one with its signing payload iff none of its four headers holds a newline |
| CrossRepoSigning.SingleLineDetermined | src/cross-repo/cross-repo.signing.ts:25-33 | Only one side needs single-line headers for payload equality to mean envelope equality |
| CrossRepoSigning.MultiLineAmbiguous | src/cross-repo/cross-repo.signing.ts:25-33 | For every envelope with a newline in a header, a different envelope with the same signing payload |
| CrossRepoSigning.PayloadAlwaysDetermined | src/cross-repo/cross-repo.signing.ts:25-33 | Whatever the headers hold, the signed text determines the JSON payload and the header block |
| CrossRepoSigning.PayloadLines | src/cross-repo/cross-repo.signing.ts:25-33 | Split at newlines, the payload of a single-line envelope is client, version, request type, time and canonical payload, in that order |
| TradeLock.EveryRunKeepsInv | src/defi/trade-lock.service.ts:45-127 | In every interleaving: lock entries name requests in their section, nobody waits on a request that is itself waiting, trade ids are distinct, and while a stored result should live the cache answers for its key |
| TradeLock.StepKeepsInv | src/defi/trade-lock.service.ts:45-127 | Each step of each request, the clock and the cleanup keep that invariant |
| TradeLock.DeletedByInstaller | src/defi/trade-lock.service.ts:98-104 | A lock entry disappears only by the release of the request that installed it |
| TradeLock.SubmitOutcome | src/defi/trade-lock.service.ts:45-68 | Answered at once with the cached result iff it has not expired, else waits iff the user has a lock entry, else trades with the next number |
| TradeLock.ResultsLiveADay | src/defi/trade-lock.service.ts:70-74 | A stored result expires after 24 * 60 * 60 * 1000 ms, and the cleanup removes exactly what has expired |
| TradeLockSafety.SubmitExact | src/defi/trade-lock.service.ts:45-105 | From a state whose holder is in the lock map a submission keeps that order, and keeps the user safe, iff its answer is cached or nobody waits for that user |
| TradeLockSafety.SubmitSafeExact | src/defi/trade-lock.service.ts:45-105 | From every state that keeps the invariant: after a submission the user is safe iff it was safe before and the submission was welcome: its answer is cached, or nobody waits and every holder is in the lock map |
| TradeLockSafety.PoliteSubmissionOverlaps | src/defi/trade-lock.service.ts:80-105 | A run to a safe state in which nobody waits and a new request still trades beside a holder that the lock map lost when a waiter left with a cached answer |
| TradeLockSafety.SafeExact | src/defi/trade-lock.service.ts:80-105 | A reachable state is safe for a user iff no continuation by the present requests lets two of the user's requests overlap |
| TradeLockSafety.PoliteRunsExclude | src/defi/trade-lock.service.ts:80-105 | In every run of such submissions at most one request per user is in the locked section |
| TradeLockSafety.PoliteRunsTradeOnce | src/defi/trade-lock.service.ts:45-76 | In those runs two trades for one user and key are at least 86400000 ms apart: the later starts after the earlier result expired |
| TradeLockSafety.ImpoliteRunOverlaps | src/defi/trade-lock.service.ts:80-105 | A run in which two requests with one key wait on one lock and then trade at the same time |
| TradeLockSafety.UnsafeOverlaps | src/defi/trade-lock.service.ts:80-105 | From every unsafe state that keeps the invariant, a continuation that overlaps |
| TradeLockSafety.EveryRequestCanFinish | src/defi/trade-lock.service.ts:80-109 | No deadlock: from every such state every request can finish within seven steps without new requests |
| TradeLockSafety.PoliteStepKeepsOrderly | src/defi/trade-lock.service.ts:80-105 | One step of any request keeps every user orderly |
| TradeLockAnswers.EveryAnswerIsATrade | src/defi/trade-lock.service.ts:45-78 | In every run a finished request was answered with a trade begun for its key, and for its user if nobody else used the key |
| TradeLockAnswers.OwnAnswersExactly | src/defi/trade-lock.service.ts:45-78 | For every set of requests: in every run of them all get trades begun for their own user and key iff no two of them share a key and differ in the user |
| TradeLockAnswers.RunKeepsAnswers | src/defi/trade-lock.service.ts:45-78 | Over every run the cache and all requests on their way out hold trades of their keys |
| TradeLockAnswers.AnotherUsersTrade | src/defi/trade-lock.service.ts:48-56 | A run in which a user is handed another user's trade for a shared key |
| TradeLockService.Service.constructor | src/defi/trade-lock.service.ts:33-41 | No locks, no cached results, counter zero |
| TradeLockService.Service.ExecuteTrade | src/defi/trade-lock.service.ts:45-68 | Cached answer, wait for the lock found, or entry: exactly the submit step |
| TradeLockService.Service.EnterLockedSection | src/defi/trade-lock.service.ts:61-68 | Installs the lock, checks the cache again and starts a trade with the next counter |
| TradeLockService.Service.ResumeAfterLock | src/defi/trade-lock.service.ts:84-97 | Entry after the awaited lock is released, without looking at the lock map again |
| TradeLockService.Service.PerformTradeReturns | src/defi/trade-lock.service.ts:107-127 | The trade result is handed on |
| TradeLockService.Service.StoreResult | src/defi/trade-lock.service.ts:70-76 | The result is cached for 24 hours |
| TradeLockService.Service.ReleaseLock | src/defi/trade-lock.service.ts:98-104 | The lock entry is deleted only if it is still this request's |
| TradeLockService.Service.CleanupExpiredCache | src/defi/trade-lock.service.ts:145-152 | The entry by entry loop removes exactly the expired entries |
| PublicHealthProofs.EveryRunKeepsInv | src/health/public-health.service.ts:104-182 | In every interleaving the single flight, cache, pacing and caller invariants hold |
| PublicHealthProofs.StepKeepsInv | src/health/public-health.service.ts:104-182 | Each call, probe result, delay, delivery, invalidation and clock step keeps them |
| PublicHealthProofs.OneEvaluationAtATime | src/health/public-health.service.ts:114-122 | At most one evaluation is unfinished at any time |
| PublicHealthProofs.DownOnlyAfterAllProbes | src/health/public-health.service.ts:140-150 | Core is reported down iff all probeRetries + 1 probes saw a core failure, and every probe but the last of an evaluation saw one |
| PublicHealthProofs.ServedViews | src/health/public-health.service.ts:104-123 | Every served view is that of a completed evaluation; a cached one is younger than the TTL and was not invalidated |
| PublicHealthProofs.AwaitedIsServed | src/health/public-health.service.ts:114-122 | A caller that waits is served by the evaluation it waited on, in every continuation |
| PublicHealthProofs.EvaluationsArePaced | src/health/public-health.service.ts:104-120 | Without an invalidation in between, the next evaluation starts no earlier than the TTL after the last finished |
| PublicHealthProofs.EvaluationsEnd | src/health/public-health.service.ts:140-175 | An unfinished evaluation always has a step, and ends within 2 * probeRetries + 4 of its own steps |
| PublicHealthVerdicts.ServedVerdicts | src/health/public-health.model.ts:92-139 | In every run a served view is down iff the core failed in its last probe or the summary is unavailable or misconfigured, ok iff nothing is down, slow, degraded or unknown, and each of its four checks is that of its own input |
| PublicHealthVerdicts.ViewTells | src/health/public-health.model.ts:64-139 | The same for every probe and summary |
| PublicHealthVerdicts.CompletesWith | src/health/public-health.service.ts:152-174 | An evaluation completes with its last probe and the summary it was given |
| PublicHealthInvalidation.InvalidateExact | src/health/public-health.service.ts:104-128 | After an invalidation every later caller, cached or made to wait, is served in every continuation by an evaluation begun after it iff nothing was in flight |
| PublicHealthInvalidation.CacheInvalidatedExact | src/health/public-health.service.ts:126-175 | Answers from the cache alone are all from later evaluations iff no evaluation lacked its verdict at the call or nothing is ever cached |
| PublicHealthInvalidation.JoinerGetsOldVerdict | src/health/public-health.service.ts:114-128 | From every state with a flight, a continuation that hands its verdict to a caller who arrives after the invalidation |
| PublicHealthInvalidation.JoinerIsToldOldOutage | src/health/public-health.service.ts:114-128 | A run without any caching in which a caller is told of an outage seen before the invalidation |
| PublicHealthInvalidation.StaleVerdictServed | src/health/public-health.service.ts:126-175 | From every state with an unfinished evaluation, a continuation that serves its verdict from the cache after the invalidation |
| PublicHealthInvalidation.OutageOutlivesInvalidation | src/health/public-health.service.ts:126-175 | A run that reports an outage from the cache that was seen before the invalidation |
| PublicHealthService.Service.constructor | src/health/public-health.service.ts:63-64 | No cached view, no flight |
| PublicHealthService.Service.GetHealth | src/health/public-health.service.ts:104-123 | Serves the cache, joins the flight or starts one: exactly the call step |
| PublicHealthService.Service.CoreProbed | src/health/public-health.service.ts:140-150 | Goes on iff the core is up or no retry is left, and sleeps before the next probe iff a delay is set |
| PublicHealthService.Service.DelayOver | src/health/public-health.service.ts:146-149 | The next attempt begins after the delay |
| PublicHealthService.Service.DependenciesProbed | src/health/public-health.service.ts:152-174 | Builds the view that tells what the last probe and the summary say, caches it for the TTL and completes the evaluation |
| PublicHealthService.Service.FlightOver | src/health/public-health.service.ts:117-119 | Ends the flight |
| PublicHealthService.Service.Deliver | src/health/public-health.service.ts:121-122 | Hands the awaited view to its caller |
| PublicHealthService.Service.InvalidateCache | src/health/public-health.service.ts:126-128 | Drops the cached view only |
| Calendar.AdvancesOneMonth | src/billing/billing-proration.ts:112-129 | The month advances by exactly one iff the target year is not in 0 to 99 |
| Calendar.MisreadYear | src/billing/billing-proration.ts:112-129 | A month after 1 June of the year 50 is 1 July 1950 |
| Calendar.AddBillingMonthFields | src/billing/billing-proration.ts:112-129 | For every instant: year, month, day clamped to a real day, and time of day of the result |
| Calendar.CycleLength | src/billing/billing-proration.ts:112-129 | The exact number of days of a cycle, between 28 and 31 |
| Calendar.AddBillingMonthLater | src/billing/billing-proration.ts:112-129 | Always at least 28 days later, also for misread years |
| Calendar.BoundaryMonths | src/billing/billing-proration.ts:112-129 | After k months the month index is k further iff no step targets a misread year, and never less |
| Calendar.BoundaryExact | src/billing/billing-proration.ts:112-129 | The day after k months is the start day clamped by every month passed, within 28 to 31 days a month |
| Calendar.KeepsDayExactly | src/billing/billing-proration.ts:112-129 | After k months the day is that of the start iff no month passed is too short for it |
| Calendar.DayDrifts | src/billing/billing-proration.ts:112-129 | 31 January 2023 turns over on 28 February and then on 28 March |
| Calendar.LastDay | src/billing/billing-proration.ts:112-129 | Day zero of the following month is the last day of the month |
| Calendar.DateRoundTrip | src/billing/billing-proration.ts:112-129 | Reading a day number gives back year, month and day it was made from |
| Calendar.DaysCounted | src/billing/billing-proration.ts:112-129 | Day zero is 1 January 1970, and a year has 366 days iff 4 divides it and 100 does not, or 400 does |
| Calendar.MonthTable | src/billing/billing-proration.ts:112-129 | The lengths of the months |
| Proration.FractionExact | src/billing/billing-proration.ts:139-174 | The fraction lies in 0 to 1, times the total it is the remaining time, and it is 1 or 0 exactly at the clamped ends |
| Proration.NetFollowsDirection | src/billing/billing-proration.ts:176-228 | Credit and charge lie between zero and the plan price, an upgrade never nets a credit, a downgrade never a charge, equal prices nothing |
| Proration.NetWithinACent | src/billing/billing-proration.ts:207-228 | The net is less than one cent from the exact amount |
| Proration.LineItemsSumToNet | src/billing/billing-proration.ts:231-254 | Line items sum to the net, none is zero, the credit is for the old plan and first, the charge for the new one |
| Proration.ShareBounds | src/billing/billing-proration.ts:207-214 | A rounded share lies between zero and the price and grows with the price |
| Proration.UpgradeChargedExactly | src/billing/billing-proration.ts:190-228 | An upgrade is charged iff a half cent lies between the exact shares of the two prices, in whole numbers of the inputs; one cent of difference always suffices |
| Proration.SteepUpgradeCharged | src/billing/billing-proration.ts:190-228 | An upgrade to at least three times the price is charged iff twice the new price times the time left is at least the length of the cycle |
| Proration.ShareReaches | src/billing/billing-proration.ts:207-214 | A share reaches k cents iff 2 * price * remaining >= (2 * k - 1) * total |
| Proration.FullShareExactly | src/billing/billing-proration.ts:207-214 | A price is charged in full iff the time gone is worth at most half a cent of it |
| Proration.LateActivationIsProrated | src/billing/billing-proration.ts:197-228 | An activation that is charged half the price |
| Proration.LastInstantUpgradeIsFree | src/billing/billing-proration.ts:190-228 | An upgrade inside the cycle that nets zero |
| Proration.NetIsShareDifference | src/billing/billing-proration.ts:197-228 | The net is the difference of two shares |
| BillingLedger.SetPlanKeepsBooks | src/billing/billing.service.ts:177-246 | Every plan change, rejected ones included, keeps the books of all accounts in order |
| BillingLedger.RolloverKeepsBooks | src/billing/billing.service.ts:274-300 | So does every rollover |
| BillingLedger.CommitKeepsAccount | src/billing/billing.service.ts:192-231 | A settled change leaves plan map, subscription, credit and trail of its account in agreement |
| BillingLedger.ProrationCredits | src/billing/billing.service.ts:480-500 | Banking a credit adds it to the credit of the live cycle and drops nothing |
| BillingLedger.TrailExtends | src/billing/billing.service.ts:518-545 | An entry from the current plan keeps the trail connected and priced right |
| BillingLedger.FindPlanExact | src/billing/billing.service.ts:444-448 | Every plan is found by its id and every other id is refused |
| BillingRuns.EveryRunKeepsBooks | src/billing/billing.service.ts:177-300 | Over every run the trail is a connected path from free to the current plan, the plan map agrees with the subscription, and the balance is the credit in the current cycle's entries |
| BillingRuns.CreditIsConserved | src/billing/billing.service.ts:177-300 | Over every run all credit ever issued equals the balance plus all credit written off at rollovers |
| BillingRuns.RunConserves | src/billing/billing.service.ts:177-300 | The same between any two states whose books are in order |
| BillingRuns.SetPlanOutcomes | src/billing/billing.service.ts:182-221 | Unknown plan iff no such id; a refused change leaves the books as they were and needs a balance near the safe-integer limit; a change sets the plan and never lowers the balance |
| BillingRuns.ResubmissionIsIdempotent | src/billing/billing.service.ts:222-231 | Re-submitting the current plan changes nothing |
| BillingRuns.TrailTelescopes | src/billing/billing.service.ts:222-231 | Entries made at one instant of one cycle sum to the net that `quotePlanChange` gives for the direct change |
| BillingRuns.PlanUpgradeCharged | src/billing/billing-proration.ts:190-228 | Between the service's plans an upgrade is charged iff twice the new price times the time left is at least the length of the cycle |
| BillingRuns.ActivationChargedInFull | src/billing/billing.service.ts:182-204 | A first subscription is accepted, credits nothing, and charges the whole price iff the time gone is worth at most half a cent; so always without an anchor |
| BillingCharges.FirstCycle | src/billing/billing.service.ts:186-190 | A new account's first cycle, answered and stored, starts at the anchor if given, else at the instant, and ends a billing month later |
| BillingCharges.ActivationCharge | src/billing/billing.service.ts:186-204 | The charge of a first subscription reaches k cents iff 2 * price * left >= (2 * k - 1) * length of the cycle it opens |
| BillingCharges.ChangeCharge | src/billing/billing.service.ts:182-231 | Credit and charge of a change, for the time left of the running cycle at the instant, recorded as such, with the cycle unchanged |
| BillingCharges.RefusedExactly | src/billing/billing.service.ts:205-221 | Refused iff the balance would exceed 9007199254740991 cents, without any change |
| BillingCharges.PlanTable | src/billing/billing.service.ts:113-135 | Prices, included units and unit prices of the three plans |
| BillingCharges.RolloverAnswer | src/billing/billing.service.ts:274-300 | Rolls over iff the cycle has ended, and answers with the closed and the next cycle and the credit written off |
| BillingRuns.RolloverTiles | src/billing/billing.service.ts:274-300 | k due rollovers stand at boundaries k and k + 1 of the start, without gap or overlap, and leave no credit |
| BillingRuns.RolloverCatchesUp | src/billing/billing.service.ts:274-300 | Finitely many rollovers reach a cycle that ends after the instant, and contains it if the first cycle began by then |
| BillingRuns.PreviewExact | src/billing/billing.service.ts:334-400 | In every run there is a preview, and its subtotal is the charge for the plan and the units of the period less the credit the trail shows, and never below zero |
| BillingCharges.PreviewLines | src/billing/billing.service.ts:348-384 | Plan, units beyond the included ones, credit up to what is owed, in that order |
| BillingCharges.RecordCounts | src/billing/billing.service.ts:340-347 | A record adds its quantity iff it falls into the period, ends included |
| BillingCharges.UnitCosts | src/billing/billing.service.ts:348-350 | One more unit is free while included and costs the unit price after that |
| BillingCharges.CreditCounts | src/billing/billing.service.ts:506-516 | Credit counts up to the end of its cycle |
| BillingService.Service.constructor | src/billing/billing.service.ts:156-158 | No plans, subscriptions or entries |
| BillingService.Service.SetPlan | src/billing/billing.service.ts:177-246 | Books and result are exactly those of the plan-change step, with the subscription rolled back on refusal |
| BillingService.Service.EnsureSub | src/billing/billing.service.ts:450-472 | Returns the subscription; a new one starts at the anchor or the instant, ends a billing month later and has no credit |
| BillingService.Service.RecordAuditEntry | src/billing/billing.service.ts:518-545 | The account's trail grows by one entry at its end |
| BillingService.Service.RolloverBillingCycle | src/billing/billing.service.ts:274-300 | Books and result are exactly those of the rollover step |
| UsageCsv.ExportRoundTrip | src/billing/billing.service.ts:427-441 | A reader with the quoting of section 2 of RFC 4180 and rows that end at line feeds returns the header and exactly one row per record, for all field texts |
| UsageCsv.ExportExact | src/billing/billing.service.ts:427-441 | Two exports are the same text iff they hold the same rows |
| UsageCsv.TableRoundTrip | src/billing/billing.service.ts:427-441 | Any table of non-empty rows reads back |
| UsageCsv.FieldRoundTrip | src/billing/billing.service.ts:554-557 | A written field reads back, quotes, commas and line feeds included |
| UsageCsv.ColumnsMatch | src/billing/billing.service.ts:427-441 | Read back, every field holds what its record has for the name at the head of its column |
| UsageCsv.QuotedOnlyIfNeeded | src/billing/billing.service.ts:554-557 | A field is written as it is iff it holds no quote, comma or line feed |
| StatusSnapshot.ComputeSystemStatusSnapshot | src/health/public-status.model.ts:700-1075 | The section by section computation gives overall state, component states, capabilities, paused scopes, HTTP code and retry hint of a closed form read off from the inputs |
| StatusSnapshot.AllOperational | src/health/public-status.model.ts:733-743 | Every component starts operational |
| StatusSnapshot.EvaluateReadiness | src/health/public-status.model.ts:748-775 | Which components readiness degrades |
| StatusSnapshot.EvaluateChecks | src/health/public-status.model.ts:794-853 | Which components the dependency report degrades |
| StatusSnapshot.EvaluateDegradations | src/health/public-status.model.ts:868-880 | Each declared degradation raises its component and the overall state |
| StatusSnapshot.EvaluatePause | src/health/public-status.model.ts:886-943 | A pause raises the overall state and exactly the components its scope covers |
| StatusSnapshot.EvaluatePauses | src/health/public-status.model.ts:886-943 | All active pauses together raise each state to the join of theirs |
| StatusSnapshot.RaiseAll | src/health/public-status.model.ts:927-934 | The mapped components rise, the others stay |
| StatusSnapshot.EnterMaintenance | src/health/public-status.model.ts:973-976 | Every component is in maintenance |
| StatusSnapshot.ComputeCapabilities | src/health/public-status.model.ts:979-998 | The flags computed scope by scope are the closed form |
| StatusSnapshot.SettleWorkers | src/health/public-status.model.ts:1000-1014 | The workers' final state is the closed form |
| StatusSnapshot.CollectRetryAfter | src/health/public-status.model.ts:1053-1060 | The hint is the least candidate, or the state's default if there is none |
| StatusSnapshot.ElevateLaws | src/health/public-status.model.ts:687-694 | Elevation is associative, commutative, idempotent and never lowers |
| StatusSnapshot.OverallFromParts | src/health/public-status.model.ts:700-976 | The elevations of all sections amount to the state read off from the inputs |
| StatusSnapshot.ComponentFromParts | src/health/public-status.model.ts:700-976 | The same for each component |
| StatusTheorems.ApiGateAgrees | src/health/public-status.model.ts:1301-1404 | For each of the six financial scopes the flag is true iff a non-admin write in that scope on a non-status path passes the gate |
| StatusTheorems.JobGateAgrees | src/health/public-status.model.ts:1410-1490 | And iff a non-recovery job that resolves to the scope is not deferred |
| StatusTheorems.HaltCoincides | src/health/public-status.model.ts:979-1063 | HTTP 503, readOnly, stopped background processing, all plain writes rejected and all ordinary jobs deferred are one condition |
| StatusTheorems.RejectionsCarryRetry | src/health/public-status.model.ts:1301-1404 | Every rejection is a 503 with a retry hint of at least a second |
| StatusTheorems.RetrySucceedsExactly | src/health/public-status.model.ts:1053-1060 | With inputs fixed, a rejected write passes after waiting its hint iff every window or pause end that blocks it rounds up to that number of seconds |
| StatusTheorems.RejectedExactly | src/health/public-status.model.ts:1301-1404 | A plain write is rejected iff an open window or an active pause of its scope or of all stands |
| StatusTheorems.HintOfAnotherEnd | src/health/public-status.model.ts:1053-1060 | A write told to retry after one second because of an unrelated end, and rejected again then |
| StatusTheorems.DeferralsCarryDelay | src/health/public-status.model.ts:1410-1490 | Every deferral delays at least a second; other delays are the backoff; backoff only when degraded |
| StatusTheorems.HintExact | src/health/public-status.model.ts:676-685 | The hint is the least whole number of seconds that reaches the declared end |
| StatusTheorems.JobScopeByPrefix | src/health/public-status.model.ts:646-662 | Without an explicit scope a job belongs to a financial scope iff its name up to the first dot is that scope |
| StatusTheorems.PauseMatchesExact | src/health/public-status.model.ts:1301-1490 | The gates' match on published scopes means an active pause of the scope or of all |
| StatusTheorems.NeverLowers | src/health/public-status.model.ts:687-1024 | More pauses, degradations or bad checks never lower a state |
| StatusTheorems.NeverReenables | src/health/public-status.model.ts:979-998 | Nor re-enable a capability |
| StatusTheorems.OrderIrrelevant | src/health/public-status.model.ts:687-1024 | States and capabilities do not depend on the order of pauses, degradations or checks |
| StatusTheorems.TimeOnlyEases | src/health/public-status.model.ts:700-1024 | With inputs fixed, states only step down and capabilities only return as time passes |
| StatusTexts.GateOnTexts | src/health/public-status.model.ts:1301-1404 | For every request: passes iff it is a status route, its verb is empty or spells GET, HEAD or OPTIONS, a role spells ADMIN, or no window or pause spelled all or like its scope is in force; and which bypass is given |
| StatusTexts.HaltedGateOnTexts | src/health/public-status.model.ts:1327-1369 | While the snapshot answers 503, passes off the status routes iff the verb reads or a role spells ADMIN |
| StatusTexts.FlagsOnTexts | src/health/public-status.model.ts:979-998 | 503, read-only, background work and each of the six flags by the windows and spelled pauses in force |
| StatusTexts.ScopeNamesSpelled | src/health/public-status.model.ts:886-943 | A scope text means a named scope iff it spells it letter by letter in either case |
| StatusTexts.HintIsEarliest | src/health/public-status.model.ts:1053-1060 | The published hint is the least whole number of seconds to a declared end, else 300 in maintenance, 60 when paused, none else |
| StatusTexts.DefaultHint | src/health/public-status.model.ts:1347-1397 | Without declared ends a rejection says 300 seconds in maintenance and 60 otherwise |
| StatusTexts.JobGateDelays | src/health/public-status.model.ts:1410-1490 | Recovery jobs run at once, deferred ones wait the hint, running ones two seconds iff degraded |
| StatusTexts.OtherJobScopes | src/health/public-status.model.ts:646-662 | The job types whose scope has another name |
| StatusTexts.ExplicitJobScope | src/health/public-status.model.ts:646-662 | A scope given with a job counts |
| StatusTexts.BackgroundJob | src/health/public-status.model.ts:646-662 | A job without entry or named prefix is background work |
| StatusTexts.OnePause | src/health/public-status.model.ts:886-943 | Overall state, every component and the published scope for a single pause, by the spelling of its scope |
| StatusTexts.OneCheck | src/health/public-status.model.ts:794-853 | Which components a single failed check of each mapped id degrades |
| StatusTexts.OneReadiness | src/health/public-status.model.ts:748-775 | What readiness alone degrades |
| StatusTexts.OneReport | src/health/public-status.model.ts:778-793 | Which report states alone degrade the system; an advisory of misconfigured does not |
| StatusTexts.OneDeclaration | src/health/public-status.model.ts:868-976 | What a single declared degradation and a single window do |
| Backfill.RunResumableBackfill | scripts/resumable-backfill.ts:3-23 | A run, crashed at any call, keeps progress sound, never undoes it, completes if enough calls succeed, and after completion applies nothing |
| Backfill.ApplyPage | scripts/resumable-backfill.ts:12-18 | One page, crashed inside any apply, keeps progress sound |
| Backfill.ResumeRepeatedly | scripts/resumable-backfill.ts:3-23 | The same over any sequence of crashed and resumed runs |
| Backfill.SoundPromises | scripts/resumable-backfill.ts:3-23 | Sound progress means: each key applied at most once, processed counts the applied, seen is what was seen before plus the applied, every page before the cursor is fully handled, and at the end exactly the unseen keys were applied |
| Backfill.FreshExact | scripts/resumable-backfill.ts:12-18 | Skipping seen keys applies each unseen key exactly once |
| Backfill.HandleRecord | scripts/resumable-backfill.ts:13-17 | A record not yet seen is always the next new one of the whole chain |
| Backfill.State.constructor | scripts/resumable-backfill.ts:1 | Nothing processed, no cursor |
| MetricsHistory.BufferExact | src/monitoring/metrics-history.service.ts:83-111 | For non-decreasing times the buffer is the last maxPoints of all captured points inside the window |
| MetricsHistory.CaptureOnRetained | src/monitoring/metrics-history.service.ts:83-111 | One capture turns the retained part of a log into that of the longer log |
| MetricsHistory.DropAged | src/monitoring/metrics-history.service.ts:103-107 | Looking at the first point only drops exactly the aged ones |
| MetricsHistory.AnswersExact | src/monitoring/metrics-history.service.ts:114-126 | The buffer answers a query like the whole log iff no discarded point is in range or it holds as many matches as wanted |
| MetricsHistory.AnswersLikeTheLog | src/monitoring/metrics-history.service.ts:114-126 | In particular if the range begins after the first retained point |
| MetricsHistory.AnswerHolds | src/monitoring/metrics-history.service.ts:114-126 | An answer is the end of the points not before since and not after until, at most limit of them |
| MetricsHistory.RangeGrows | src/monitoring/metrics-history.service.ts:114-121 | Points in range are kept in order and with repetition |
| MetricsHistory.ClockStepBackKeepsOldPoint | src/monitoring/metrics-history.service.ts:103-111 | A log with a clock step back after which an expired point stays |
| MetricsHistory.PruneExact | src/monitoring/metrics-history.service.ts:103-111 | For every clock: no expired point stays, and the result is the last maxPoints of the fresh ones, iff the first point has expired or none of the last maxPoints has |
| MetricsHistory.OrderedExactly | src/monitoring/metrics-history.service.ts:83-111 | The times never step back iff, for all settings, after every capture and any next one that is not earlier, the buffer is the retained part of the log |
| MetricsHistory.ClockStepBackLosesPoint | src/monitoring/metrics-history.service.ts:83-111 | A log of which a point inside the window is lost though each prune was complete |
| MetricsHistory.Service.constructor | src/monitoring/metrics-history.service.ts:45 | Starts with no points |
| MetricsHistory.Service.Capture | src/monitoring/metrics-history.service.ts:83-100 | Appends to the log, leaves the retained part of an ordered log, and says for every clock when an expired point stays; nothing without a snapshot |
| MetricsHistory.Service.Prune | src/monitoring/metrics-history.service.ts:103-111 | The pruned buffer, free of expired points iff the first had expired or none of the last maxPoints had |
| MetricsHistory.Service.Ask | src/monitoring/metrics-history.service.ts:114-126 | Over an ordered log: the answer of the whole log iff no discarded point is in range or the buffer holds as many matches as wanted |
| MetricsHistory.Service.Clear | src/monitoring/metrics-history.service.ts:139-141 | Forgets everything |
| LogSanitizer.HidesSecrets | src/logging/sanitize.util.ts:147-207 | On every object graph, cyclic ones included: inputs that differ under sensitive keys only have the same output |
| LogSanitizer.OutputIsClean | src/logging/sanitize.util.ts:147-207 | Under a sensitive key, at any depth, stands the redaction mark, or the count of dropped keys under its own field name |
| LogSanitizerKeys.PropertyLogged | src/logging/sanitize.util.ts:195-202 | A property is logged as [REDACTED] iff its key is a plain listed or extra name with letters in either case and hyphens, underscores or white space anywhere, and else with its sanitised value |
| LogSanitizerKeys.SensitiveExactly | src/logging/sanitize.util.ts:196-198 | The key test on texts, for listed and extra names |
| LogSanitizerKeys.SecretsListed | src/logging/sanitize.util.ts:17-64 | Every spelling of password, token, secret and others is redacted |
| LogSanitizerKeys.OtherNamesMatchNothing | src/logging/sanitize.util.ts:196-198 | A name with capitals or separators matches no key |
| LogSanitizerKeys.UnderscoredNameIsLogged | src/logging/sanitize.util.ts:58-64 | db_password is listed and a key of that name is logged |
| LogSanitizerKeys.ArrayLogged | src/logging/sanitize.util.ts:155-159 | The first fifty items in order |
| LogSanitizerKeys.ScalarLogged | src/logging/sanitize.util.ts:152-174 | Values without structure, text within 4096 characters, and the mark beyond depth eight |
| LogSanitizerKeys.LongTextLogged | src/logging/sanitize.util.ts:129-132 | A longer text is cut at its last white space, and the mark counts the rest |
| LogSanitizerKeys.ObjectLogged | src/logging/sanitize.util.ts:184-203 | Up to a hundred properties are logged one by one |
| LogSanitizerKeys.LargeObjectLogged | src/logging/sanitize.util.ts:184-206 | Of more, the first hundred in their places and the count of the others |
| LogSanitizerKeys.RootSize | src/logging/sanitize.util.ts:147-207 | The node bound as a number |
| LogSanitizer.OutputSize | src/logging/sanitize.util.ts:147-207 | The output's node count is bounded independently of the input |
| LogSanitizer.SizeBoundClosed | src/logging/sanitize.util.ts:147-207 | That bound in closed form |
| LogSanitizer.OutputTextsBounded | src/logging/sanitize.util.ts:147-207 | All text is within the limit for strings, the longest key of the graph and the truncation field |
| LogSanitizer.TextsBoundedExactly | src/logging/sanitize.util.ts:147-207 | On every graph each value text is bounded, but for the truncation mark, and all keys are within a length iff the keys that are reached are |
| LogSanitizer.OutputKeysExact | src/logging/sanitize.util.ts:179-207 | The output keys are exactly the first hundred input keys, unchanged, and the truncation field iff there are more |
| LogSanitizer.LongKeySurvives | src/logging/sanitize.util.ts:200 | A key of any length is logged as it is |
| LogSanitizer.RedactBoundedIsBounded | src/logging/sanitize.util.ts:118-133 | The same for one text, whatever the secret patterns do |
| LogSanitizer.CutTokenHidden | src/logging/sanitize.util.ts:126-133 | A token cut by the limit has no influence on what is logged |
| LogSanitizer.SanitizeObjectLoop | src/logging/sanitize.util.ts:179-207 | The loop with its kept and dropped counters yields the recursive form |
| LogSanitizer.LastBreak | src/logging/sanitize.util.ts:130 | The last white space of the head |
| DependencyHealth.RegistryNeverTrips | src/dependency-health/dependency-health.registry.ts:50-728 | For every environment and every probe outcome each of the twelve results satisfies the runner's state invariant |
| DependencyHealth.ProbesRespectConfiguration | src/dependency-health/dependency-health.registry.ts:50-728 | Healthy needs every required key; only optional dependencies are disabled |
| DependencyHealth.NetworkPolicyRespected | src/dependency-health/dependency-health.registry.ts:50-728 | With network probes off, no reply but that of database and Redis matters |
| DependencyHealth.UnavailableMeansThrown | src/dependency-health/dependency-health.runner.ts:36-73 | Reported unavailable only if the probe itself broke, or a call that the policy allows threw an error a retry may cure |
| DependencyHealth.ProbeUnavailable | src/dependency-health/dependency-health.registry.ts:50-728 | A probe ends as unavailable only after a call that threw such an error; configuration-only probes never do |
| DependencyHealth.CalledProbe | src/dependency-health/dependency-health.registry.ts:50-728 | A call that is made decides: by the kind of error, the HTTP status from 200 to 399, the chain id and the latency budget |
| DependencyHealth.UncalledProbe | src/dependency-health/dependency-health.registry.ts:50-728 | Without a call the configuration decides, probe by probe |
| DependencyHealth.RunnerReports | src/dependency-health/dependency-health.runner.ts:36-73 | A probe that breaks is unavailable, any other as it ends |
| DependencyHealth.CriticalDependencies | src/dependency-health/dependency-health.registry.ts:50-728 | Which dependencies are critical |
| DependencyHealth.RequiredTable | src/dependency-health/dependency-health.registry.ts:50-728 | Which keys are required |
| DependencyHealth.KeysReported | src/dependency-health/dependency-health.probe-kit.ts:222-229 | Each result lists exactly the keys of its dependency, as set or not |
| DependencyHealth.RequiredReported | src/dependency-health/dependency-health.probe-kit.ts:357-366 | A required key is reported as what it is |
| DependencyHealth.KeyReportsExact | src/dependency-health/dependency-health.probe-kit.ts:222-229 | Every listed key is reported configured iff it is |
| DependencyHealth.RunDependencyChecks | src/dependency-health/dependency-health.runner.ts:79-103 | Never throws; one result per definition in order; counts sum to twelve; status is not healthy iff there are critical findings |
| DependencyHealth.BuildDependencyReport | src/dependency-health/dependency-health.probe-kit.ts:304-337 | Counts sum to the checks; status and advisory are the worst of their kind and differ from healthy iff they have findings |
| DependencyHealth.WorstState | src/dependency-health/dependency-health.probe-kit.ts:283-291 | Misconfigured if there is one, else unavailable, else degraded, else healthy |
| DependencyHealth.CountStates | src/dependency-health/dependency-health.probe-kit.ts:310-311 | Each state is counted exactly |
| DependencyHealth.RollUp | src/dependency-health/dependency-health.probe-kit.ts:277-281 | Worst state and findings of one criticality agree, with the worst finding first |
| DependencyHealth.WorstFirstDescending | src/dependency-health/dependency-health.probe-kit.ts:313-337 | Findings descend in severity and ascend by id among equals |
| DependencyHealth.RanksAreAlphabetical | src/dependency-health/dependency-health.probe-kit.ts:316-318 | The order among equals is that of the ids, letter by letter |
| DependencyHealth.Findings | src/dependency-health/dependency-health.probe-kit.ts:313-337 | The findings are exactly the unhealthy, enabled checks of a criticality |

## Left out

- Controllers, modules, migrations, tracing, log transports, e-mail and the remaining scripts: plumbing over libraries that are not part of this model.
- Trade requests: validation, policy, asset, amount and side; a request is a user and an idempotency key that passed validation.
- Time: `Date.now()` is read once per uninterrupted stretch, and the clock does not run backwards in the two protocols.
- `Object.prototype` member names: an object key, scope or job name such as `__proto__` or `constructor` is treated like any other.
- Canonical JSON of functions, symbols, bigints, sparse arrays and objects with `toJSON`.
- Signatures: hashing and comparison of the signing payload; the model is about the text that is signed.
- Doubles: prices, fractions and instants are exact; a JSON number is its shortest decimal digits and exponent; the range limit of `Date` is not modelled.
- Text: lower-casing, trimming and white space are ASCII only.
- Public status texts: reasons, summaries, redaction, runbook guidance and the UI contract; the outcome of the maintenance pattern on a reason is an input.
- Billing: usage recording with its idempotency keys, the invoicing export and metric counters; the usage records of an invoice preview are an input.
- Log sanitiser: the secret patterns are an arbitrary function of the text; headers, query strings, URLs and error formatting are not modelled.
- Dependency health: details, targets and remediation texts; parsing of ports, URLs, chain ids and passphrases, and the replies of probes, are inputs.
- Backfill: `readPage` is a fixed finite chain of pages and a failing call is a run that has used up its calls.
- MetricsHistory.Service.Ask: does not model fractional limits, because retention and limits are whole numbers here.
- Proration.NetWithinACent: excludes a re-submission of the current plan, which nets zero by definition.
