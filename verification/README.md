# A verified model of the Maelstrom backend

Maelstrom collects Hyperliquid market data under a request budget and ranks markets by a research score. This
project models the two parts of its backend that carry the risk and proves properties of every run and every input:

- the request budget: the weighted limiter, the client's retry loop that spends its grants, the job lock, and the
  candle job that has to fit both a budget and a lease;
- the feature arithmetic: windowed statistics, indicators, scores, the in-place cross-section, flags, and the
  order-book snapshot.

`dafny verify dfyconfig.toml` checks everything.

## How it is modelled

Code that updates state keeps that form: the limiter, the client and the lock store are classes whose methods update
fields, the polling and retry loops are loops, the cross-section works in place on an array. Each such method is proved
equal to a transition or a function on values, and the properties are proved of those, over all runs.

- Concurrency. A run of the limiter is a sequence of critical sections in the order the mutex was taken, with clock
  readings that never go back (`LimiterHistory`, `Limiter`). `InfoSystem` adds any number of concurrent `info` calls,
  each with its own place in the code. `JobLock` does the same for processes and SQL statements. In the loop of `Wait`
  and in the retry loop, what other callers do between two steps is a parameter. A request may take any time, also none; a
  back-off sleep lasts at least as long as the client asks for.
- Specification. `LimiterHistory` says what a poll must be answered from the whole history of events, without tokens,
  refill times or a pause map; the bucket is proved to give exactly those answers.
- Numbers. Times are real seconds, `float64` is `real`. `sqrt`, `log` and `log10` are parameters: `sqrt` is the
  non-negative root, `log` turns products into sums and increases, nothing is asked of `log10`.
- The outside. The network, the database's reads, the clock and cancellation are parameters or steps of the environment.

## What was found

- The limiter's documentation (README.md:71) says it prevents uncontrolled usage. Grants obey the window bound
  C + C T / 60 exactly (`WindowBound`, `CanGrantIff`), but retries do not ask again and exceed it on the wire: C / w calls
  of weight w put four times their weight there within 1.05 seconds (`BurstReaches`), and no run gets 4 C there sooner
  (`FourfoldTakesTime`). The wire keeps the window bound in every run if and only if no call can be granted at all
  (`WireWithinWindowIff`), and in a given run as long as no first failure is retried (`NoRetryKeepsWindow`). When all calls
  have returned the wire carried exactly the granted weight if and only if that is so (`WireWeightIsGrantedIffNoRetry`).
- A 429 is documented to pause its endpoint class (docs/architecture.md:22). It pauses grants; the call that received it
  makes its next attempt during the pause if and only if it has one left and its sleep is not interrupted
  (`RetryIgnoresPause`, `RetriesInto429`).
- The 8% reserve is asked about and not kept. Alone, every granted non-critical call leaves it if and only if it takes a
  single token or none can be granted (`ReserveKeptAloneIff`); among others, only if none can be granted
  (`ReserveKeptAmongOthersIff`).
- The job lock excludes overlap of a job whose runs finish within ten minutes, however long other jobs take, and for no
  larger limit (`SafeExactlyUpToTtl`); after an overrun the late DELETE frees the successor's lock
  (`LateReleaseAdmitsThird`).
- A fully granted candle pass can finish within its lease if and only if it weighs at most eleven capacities, with the
  shipped settings up to 137 coins (`PassFitsLeaseIff`, `DefaultCoinLimit`); a heavier one can be overlapped by any other
  process that tries after the lease (`HeavyPassCanBeOverlapped`). One scheduler alone runs each job in sequence.
- A backfill of three or more days that reaches back to the epoch is charged nothing extra (`BackfillWeight`).
- In the features job open interest, funding and execution always score 50, 0 and 84, so the research score varies with
  three of its six parts only and lies between 18.4 and 78.4.
- The Hurst estimate of n values is at most log(2 n) / (2 log n) + 0.1, which is reached and below 0.725; the volume score
  can be full exactly from seventeen candles on.
- An order book with one side only reports a spread of 20000 basis points, negative when the asks are missing.

## Model

| member | source | states |
|---|---|---|
| LimiterHistory.FitsAppend | backend/internal/limiter/weighted.go:105-108 | a grant leaves room for more at a later time exactly if both together, less what accrues between, had room in the history before |
| LimiterHistory.CooledDownStep | backend/internal/limiter/weighted.go:128-141 | the history condition for an endpoint being unpaused grows by one clause per 429, counted per endpoint |
| LimiterHistory.CooldownBounds | backend/internal/limiter/weighted.go:130-138 | min(10 * 2^(n-1), 300) doubles up to the cap, never falls and stays between 10 and 300 seconds |
| Limiter.BucketInvariant | backend/internal/limiter/weighted.go:93-108 | in every run the tokens stay between 0 and the capacity and the refill time never goes back |
| Limiter.RefillAbsorbs | backend/internal/limiter/weighted.go:181-191 | refilling at two times equals refilling once at the later |
| Limiter.CooldownLaw | backend/internal/limiter/weighted.go:128-141 | after n 429s of an endpoint, whatever else is interleaved, its cooldown is the n-th of the law; before the first it has neither cooldown nor pause |
| Limiter.PauseExact | backend/internal/limiter/weighted.go:96-104 | an endpoint is paused exactly while some earlier 429 of it, first or latest, has not cooled down |
| Limiter.PausesBounded | backend/internal/limiter/weighted.go:139-140 | a pause ends no later than the current cooldown after the latest clock reading |
| Limiter.PauseNeverShrinks | backend/internal/limiter/weighted.go:140 | no event brings the end of a pause forward |
| Limiter.LevelExact | backend/internal/limiter/weighted.go:93-108 | after every run the bucket holds at least x exactly if x fits the full history of grants; and the bucket's log is the history's |
| Limiter.DecisionExact | backend/internal/limiter/weighted.go:93-109 | exact admission: a poll is granted if and only if every earlier 429 of its endpoint has cooled down and, for every earlier grant, the burst since then including this weight is within the capacity plus what accrued |
| Limiter.LogShape | backend/internal/limiter/weighted.go:105-108 | grants are logged in time order, within the run, with positive weight |
| Limiter.WindowBound | backend/internal/limiter/weighted.go:82-116 | in every run and every interval the weight granted over all endpoints is at most C + C * length / 60 |
| Limiter.ObserversChangeNothing | backend/internal/limiter/weighted.go:145-179 | a run and the same run without its Budget and Metrics reads and failed polls make the same grants and answer every later poll alike |
| Limiter.LevelWithoutGrants | backend/internal/limiter/weighted.go:181-191 | while nobody is granted anything the later level is that of the starting state |
| Limiter.ReadyExact | backend/internal/limiter/weighted.go:105 | the exact time from which a weight within the capacity is in the bucket |
| Limiter.ReadyWithin | backend/internal/limiter/weighted.go:182-190 | that time is at most 60 w / C seconds away, however empty the bucket |
| Limiter.CountersExact | backend/internal/limiter/weighted.go:122-127 | requests and failures of an endpoint count its records and its failed or status >= 400 records |
| Limiter.Count429IsSum | backend/internal/limiter/weighted.go:128-129 | count429 is the sum over the endpoints of their numbers of 429s |
| WeightedLimiter.Weighted.constructor | backend/internal/limiter/weighted.go:44-62 | a new limiter is full, unpaused and idle, with 1200 for a capacity that is not positive |
| WeightedLimiter.Weighted.Weight | backend/internal/limiter/weighted.go:64-73 | the weight of a call is positive, 20 replaces a missing base, a negative addition counts as none |
| WeightedLimiter.Weighted.RefillLocked | backend/internal/limiter/weighted.go:181-191 | the fields in place become those of the refill transition, whose laws are RefillAbsorbs and BucketInvariant |
| WeightedLimiter.Weighted.Poll | backend/internal/limiter/weighted.go:94-110 | one critical section of the loop performs the poll transition and reports its decision, the one DecisionExact characterises |
| WeightedLimiter.Weighted.Record | backend/internal/limiter/weighted.go:119-143 | the fields in place become those of the record transition, whose laws are CooldownLaw and CountersExact |
| WeightedLimiter.Weighted.Budget | backend/internal/limiter/weighted.go:145-150 | reads the whole tokens after a refill and changes nothing else |
| WeightedLimiter.Weighted.Metrics | backend/internal/limiter/weighted.go:152-179 | lists exactly the endpoints paused at the time of listing, with budget, queue depth and counters, and only refills |
| WeightedLimiter.Weighted.PollUntil | backend/internal/limiter/weighted.go:93-116 | the loop, with other callers running between its turns, ends as WaitLoop says |
| WeightedLimiter.Weighted.Wait | backend/internal/limiter/weighted.go:75-117 | the call is deferred on a low budget, or queues, polls and leaves the queue on every way out |
| WaitCalls.WeightLaw | backend/internal/limiter/weighted.go:64-73 | a configured positive weight is the base, 20 any other; an addition counts in full unless it is negative |
| WeightedLimiter.GrantedWhenFirstDue | backend/internal/limiter/weighted.go:93-116 | an undisturbed call within the capacity is granted at the first turn after its weight has accrued and its pause is over, and at no turn before |
| WeightedLimiter.BoundedWaiting | backend/internal/limiter/weighted.go:93-116 | it has been granted by the first turn that polls no earlier than 60 w / C seconds after the start and the end of its pause |
| WeightedLimiter.WaitEndsInTime | backend/internal/limiter/weighted.go:91-116 | with turns spaced by the ticker and the pause sleeps as the loop spaces them, such a call is granted no later than 0.18 seconds after 60 w / C seconds have passed and its pause is over |
| WeightedLimiter.QueueRestored | backend/internal/limiter/weighted.go:82-89 | on every way out the call has left the queue, and while it polls it is counted once |
| WeightedLimiter.LoopTakesOnlyItsWeight | backend/internal/limiter/weighted.go:93-116 | a call polling alone, after any number of failed polls, leaves at every later time what its granting poll alone would have left, or what no poll would have if it was not granted |
| WeightedLimiter.NeverGrantedAboveCapacity | backend/internal/limiter/weighted.go:105-109 | a weight above the capacity is never granted, whatever clock, other callers and turns |
| WeightedLimiter.GrantableIffWithinCapacity | backend/internal/limiter/weighted.go:93-116 | from every sound state some schedule grants the call if and only if its weight is within the capacity |
| WeightedLimiter.DeferredExact | backend/internal/limiter/weighted.go:79-81 | after every run a non-critical call is deferred if and only if one token more than the reserve does not fit the full history of grants |
| WeightedLimiter.ReserveKeptAloneIff | backend/internal/limiter/weighted.go:79-108 | over all runs and turns, a non-critical call polling alone leaves the reserve whenever it is granted if and only if its weight is 1 or above the capacity, or the reserve is the whole capacity |
| WeightedLimiter.ReserveKeptAmongOthersIff | backend/internal/limiter/weighted.go:79-108 | with other callers between the check and the taking, if and only if its weight is above the capacity or the reserve is the whole capacity |
| WaitCalls.CriticalCallExact | backend/internal/limiter/weighted.go:75-117 | a critical call is never deferred, whatever the budget; it is answered by the first turn that takes the tokens or is cancelled, taking first, and what it does is the run of its critical sections and those of others between them |
| WaitCalls.TakesExact | backend/internal/limiter/weighted.go:93-109 | a turn of a call takes the tokens if and only if the full history since the limiter started, the call's own failed polls and the other callers' sections included, admits it |
| WaitCalls.CriticalGrantedWhenDue | backend/internal/limiter/weighted.go:75-117 | an undisturbed critical call within the capacity is granted at the first turn after its weight has accrued and its pause is over, however low the budget |
| WaitCalls.CriticalWaitBounded | backend/internal/limiter/weighted.go:75-117 | and by the first turn that polls no earlier than 60 w / C seconds after the call and the end of its pause |
| WaitCalls.NoCallAboveCapacity | backend/internal/limiter/weighted.go:75-117 | no call above the capacity is granted, critical or not |
| WaitCalls.NonCriticalLikeCritical | backend/internal/limiter/weighted.go:79-81 | a non-critical call is deferred exactly below one token more than the reserve, and otherwise answered as a critical one, leaving a limiter with the same future |
| InfoClient.AttemptsExact | backend/internal/hyperliquid/client.go:203-222 | for every behaviour of the network the attempts end at the first that is the fourth, a success, a failure that is neither a 429 nor 500 or more nor a missed deadline, or one whose back-off is interrupted; and with its answer |
| InfoClient.AttemptsCounted | backend/internal/hyperliquid/client.go:205-207 | n attempts count as n requests, and as failures those that failed or had a status of 400 or more |
| InfoClient.RetryLaw | backend/internal/hyperliquid/client.go:203-222 | one to four attempts; success exactly if the last succeeded; only retryable failures are followed by an attempt; a retryable final failure means all four were used |
| InfoClient.Client.Attempt | backend/internal/hyperliquid/client.go:205-207 | every attempt makes exactly one record in the limiter |
| InfoClient.Client.Request | backend/internal/hyperliquid/client.go:203-222 | the attempts made are the least number after which the raw reply is the last, the answer is that of the reply, and there are as many records as attempts |
| InfoClient.Client.Info | backend/internal/hyperliquid/client.go:198-223 | attempts are made exactly when the limiter granted the call, otherwise its refusal is returned |
| InfoSystem.TriesAreExact | backend/internal/limiter/weighted.go:93-109 | exact admission over all concurrent calls: a poll about to run is granted if and only if the history of all calls admits it; otherwise the call leaves if it is cancelled and polls again if not |
| InfoSystem.QueueDepthCountsWaiters | backend/internal/limiter/weighted.go:82-89 | in every reachable system the queue depth is the number of calls inside the waiting section |
| InfoSystem.CallsKeepTheirLaw | backend/internal/hyperliquid/client.go:198-223 | every concurrent call at every point: at most four attempts, none without a grant, none after success, a final failure or an interrupted back-off; a returned call succeeded exactly if its last attempt did |
| InfoSystem.CallAttemptsExact | backend/internal/hyperliquid/client.go:203-222 | every concurrent call makes its attempts up to the first that is the last, judged by raw status, failure and interruption |
| InfoSystem.SendsExact | backend/internal/hyperliquid/client.go:208-219 | after an attempt a call sleeps if and only if it failed with a 429, a status of 500 or more or a missed deadline, and returns without an error exactly on success |
| InfoSystem.AsksAreExact | backend/internal/limiter/weighted.go:79-81 | a concurrent non-critical call is turned away if and only if the history of all calls has no room for one token above the reserve |
| InfoSystem.AttemptsTakeTime | backend/internal/hyperliquid/client.go:213-217 | attempt k of a call begins no earlier than its grant and the back-offs of 150, 300 and 600 milliseconds before it |
| InfoSystem.RequestsPerGrant | backend/internal/limiter/weighted.go:119-127 | requests of an endpoint are its calls' attempts and failures those that failed; requests are at most four times its grants, and at least their number once all calls have returned |
| InfoSystem.RetryIgnoresPause | backend/internal/hyperliquid/client.go:213-217 | in every reachable system a call that wakes up after a 429 goes on to its next attempt if and only if it has one left and was not interrupted, and its endpoint is still paused unless ten seconds have passed; the sleep before a further attempt is due within 0.7 |
| InfoSystem.RetriesInto429 | backend/internal/hyperliquid/client.go:213-217 | from every attempt answered with a 429 the call comes to its next attempt at the end of its back-off, while its endpoint is paused, if and only if the attempt was not its fourth and the sleep is not interrupted |
| WireWeight.WireWeightBound | backend/internal/hyperliquid/client.go:203-217 | at every moment the weight put on the wire is at most the sum over the four attempts of the window bound for the time left after the back-offs before the attempt |
| WireWeight.FourfoldTakesTime | backend/internal/hyperliquid/client.go:203-217 | it is at most four times the window bound, and below 4 C in the first 1.05 seconds |
| WireWeight.WireWindowBound | backend/internal/hyperliquid/client.go:203-217 | between any two moments a and b, when requests end within their timeout and sleeps when due, it is at most 4 (C + C (b - a) / 60) and what accrues in four hand-overs and six timeouts with their longest jitter |
| WireWeight.WireWeightIsGrantedIffNoRetry | backend/internal/hyperliquid/client.go:213-217 | when all calls have returned, the wire carried exactly the granted weight if and only if no call's first outcome was retryable with its back-off run to the end |
| WireWeight.NoRetryKeepsWindow | backend/internal/hyperliquid/client.go:213-217 | as long as that is so the wire keeps the limiter's own window bound at every moment |
| RetryBurst.BurstReaches | backend/internal/hyperliquid/client.go:203-217 | for every configuration and every configured weight w within C, C / w calls have four times their weight on the wire 1.05 seconds after the start |
| RetryBurst.WireWithinWindowIff | backend/internal/hyperliquid/client.go:198-221 | the wire stays within C + C T / 60 in every run if and only if every weight a call can have exceeds C |
| JobLock.Store.TryLock | backend/internal/store/store.go:240-249 | a statement that ran takes the row exactly if it is missing or expired; it is an error if it never ran or its answer is lost, in which case the row may be taken all the same |
| JobLock.Store.ReleaseLock | backend/internal/store/store.go:251-254 | a statement that ran removes the row of the key and no other; one that never ran removes nothing and is an error |
| JobLock.RunJob | backend/internal/ingest/scheduler.go:77-100 | on every path that acquired the row is gone at the end unless the DELETE never ran, whose error changes nothing in the result; no path that did not acquire touches a live row or does work |
| JobLock.RunIsSteps | backend/internal/ingest/scheduler.go:77-100 | one sequential run is the steps of the interleaving machine: its lock statement, then its DELETE or the loss of it, with the same table at the end and the process out again |
| JobLock.MutualExclusion | backend/internal/ingest/scheduler.go:77-86 | in every interleaving in which the holders of one job stay within their leases, whatever the holders of others do, at most one process is inside that job and its row carries its own lease |
| JobLock.ReleaseFreesOnlyItself | backend/internal/store/store.go:251-254 | the unconditional DELETE of any other process, late for its own job or not, leaves the row of a job whose holders are on time |
| JobLock.StolenIffOverrun | backend/internal/store/store.go:242-244 | an idle process can enter a running job whose holders were on time exactly when the lease of the run has passed |
| JobLock.SafeExactlyUpToTtl | backend/internal/ingest/scheduler.go:78 | for every job, all interleavings in which its runs take at most a given time exclude overlap of it if and only if that time is at most ten minutes |
| JobLock.LateReleaseAdmitsThird | backend/internal/store/store.go:251-254 | after any overrun a late DELETE can put two processes inside one job, both within their leases |
| JobLock.LeftLeaseExpires | backend/internal/store/store.go:242-244 | after any run, with holders late or not, an idle process acquires a job exactly if its row is missing or expired, which is so at the latest ten minutes after the last step; exclusion in other jobs is as before |
| CandlePass.BackfillWeight | backend/internal/hyperliquid/client.go:256-268 | d days of backfill cost min(max(d, 0), 30) / 3 extra if and only if d < 3 or the window begins after the epoch |
| CandlePass.WindowWeight | backend/internal/hyperliquid/client.go:256-268 | a window after the epoch costs a third of its whole days, at most ten, an empty or earlier one nothing |
| CandlePass.CandleWeightExact | backend/internal/hyperliquid/client.go:164-169 | a candle request weighs what is configured for candles and the extra of its window |
| CandlePass.IngestCandles | backend/internal/ingest/scheduler.go:142-169 | the requests are all coins times all intervals in order, cut only at the first failed store; failed fetches are skipped; the total counts what was stored |
| CandlePass.AllRequestsCount | backend/internal/ingest/scheduler.go:150-151 | a full pass over N coins and M intervals makes N * M requests |
| CandlePass.AllRequestsAt | backend/internal/ingest/scheduler.go:150-151 | request c M + i is that of coin c and interval i |
| CandlePass.StoredExact | backend/internal/ingest/scheduler.go:142-169 | the total is nothing when all fetches fail, and another answer changes it by its own rows |
| GrantWindows.GrantsNeedTime | backend/internal/limiter/weighted.go:93-108 | n grants of weight w between a and b weigh at most C + C (b - a) / 60, whoever else is served |
| GrantWindows.CanGrantIff | backend/internal/limiter/weighted.go:93-108 | some run grants n requests of weight w within T seconds if and only if n is 0, or w is at most C and n w at most C + C T / 60 |
| GrantWindows.WindowBoundReached | backend/internal/limiter/weighted.go:93-108 | for every total weight of at least C some run meets the window bound with equality |
| CandlePass.PassFitsLeaseIff | backend/internal/ingest/scheduler.go:78 | some run grants a whole pass of N coins and M intervals within its lease if and only if the pass is empty, or w is at most C and N * M * w at most 11 C |
| CandlePass.DefaultCoinLimit | backend/internal/config/config.go:36-41 | with the shipped settings, if and only if there are at most 137 coins |
| CandlePass.HeavyPassCanBeOverlapped | backend/internal/ingest/scheduler.go:77-86 | a fully granted pass above 11 C outlasts the lease it began under; another process that tries gets in beside its holder exactly if that lease has passed, so at the end of the pass at the latest |
| Series.ComputeAvg | backend/internal/features/calc.go:225-234 | the accumulating loop computes the mean |
| Series.ComputeStd | backend/internal/features/calc.go:236-246 | the loops compute the root of the population variance |
| Series.ComputeAutocorr | backend/internal/features/calc.go:191-207 | the two separate loops compute the ratio of the cross sum to the spread |
| Series.SumSquared | backend/internal/features/calc.go:225-246 | the squared sum of distances from any point is at most n times the spread |
| Series.Samuelson | backend/internal/features/calc.go:217-246 | n (x - m)^2 is at most (n - 1) times the spread, for the last value x of any window |
| Series.VarianceZeroIff | backend/internal/features/calc.go:236-246 | the variance is zero if and only if all values are the same |
| Series.ZscoreExact | backend/internal/features/calc.go:217-223 | the z-score times the deviation is the distance from the mean, positive exactly above it and negative exactly below; zero without variance |
| Series.LatestZscoreBounded | backend/internal/features/calc.go:217-223 | z^2 is at most n - 1 when the scored value is the last of its window |
| Series.LatestZscoreReached | backend/internal/features/calc.go:217-223 | for every window length that bound is reached with equality |
| Series.SpreadShift | backend/internal/features/calc.go:240-245 | the spread about any point is the spread about the mean plus n times the squared shift |
| Series.RangeAtLeast | backend/internal/features/calc.go:213 | four variances are at most the squared range |
| Series.RangeAtMost | backend/internal/features/calc.go:213 | the squared range is at most 2 n variances |
| Series.AutocorrExact | backend/internal/features/calc.go:191-207 | twice the autocorrelation times the spread is twice the spread less both ends and the squared steps of the series; zero below three values or without spread |
| Series.AutocorrBounded | backend/internal/features/calc.go:191-207 | the lag-one autocorrelation of every series is strictly between -1 and 1 |
| Indicators.ComputeReturns | backend/internal/features/calc.go:155-163 | the loop collects one return per step that does not start at zero |
| Indicators.ReturnsExact | backend/internal/features/calc.go:155-163 | the returns are the growths of exactly the steps that do not start at zero, in their order |
| Indicators.ReturnExact | backend/internal/features/calc.go:148-153 | the n-step return is the growth that takes the value n steps ago to the last, or zero if there is none or it is zero |
| Indicators.Compounding | backend/internal/features/calc.go:148-163 | 1 + the n-step return is the product of 1 + r over the last n step returns, if no step of the window starts at zero |
| Indicators.ComputeAdx | backend/internal/features/calc.go:176-189 | the loop computes the index of the move over the summed ranges |
| Indicators.MoveWithinRanges | backend/internal/features/calc.go:180-184 | on continuous candles the total move is at most the summed ranges after the first candle |
| Indicators.AtrExact | backend/internal/features/calc.go:165-174 | the average range times the number of candles is the sum of the highs less that of the lows |
| Indicators.AdxExact | backend/internal/features/calc.go:176-189 | the index is the share of the summed ranges that the move from the first to the last close makes, in percent, 100 when it makes all; zero below two candles or without ranges |
| Indicators.AdxNeedsNoClamp | backend/internal/features/calc.go:176-189 | on continuous candles the clamp never binds |
| Indicators.RescaledRange | backend/internal/features/calc.go:213 | the rescaled range is at most sqrt(2 n), and at least 2 when the deviation reaches its floor |
| Indicators.HurstEnvelope | backend/internal/features/calc.go:209-215 | the estimate of n >= 20 values is at most log(2 n) / (2 log n) + 0.1, below 0.725; with a deviation above its floor it is at least log 2 / log n + 0.1, above 0.24 up to 96 values |
| Indicators.HurstReached | backend/internal/features/calc.go:209-215 | for every n >= 20 some window has exactly the largest estimate |
| Indicators.HurstFloorReached | backend/internal/features/calc.go:209-215 | for every even n >= 20 some window has exactly the least |
| Features.Calculate | backend/internal/features/calc.go:19-67 | the loops and calls compute the feature whose every field MeasurementsExact, ScoresExact and CalculatedLabel tie to the input |
| FeatureMeaning.MeasurementsExact | backend/internal/features/calc.go:19-57 | every measurement of every feature as an equation with the input: growths over 1, 4 and 24, volume and funding against their 168, volatility, range and trend of 24, autocorrelation of 48, persistence of 96 |
| FeatureMeaning.ScoresExact | backend/internal/features/calc.go:58-64 | when each of the six scores is none and when full, in proportion between; the research score is their mean weighted 25, 20, 20, 15, 10, 10 |
| FeatureMeaning.VolumeScorePositiveIff | backend/internal/features/calc.go:45-60 | a market scores as a volume anomaly if and only if its last volume is above the mean of its week |
| FeatureMeaning.CalculatedLabel | backend/internal/features/calc.go:111-131 | the label is that of the first condition that holds |
| FeatureMeaning.VolumeFlagIff | backend/internal/features/calc.go:44-76 | the volume flag is raised if and only if the last of n candles carries two n-ths of the week's volume or more |
| Features.FeatureBounds | backend/internal/features/calc.go:41-66 | for every input: all scores are percentages, both z-scores obey their windows of at most 168, autocorrelation and Hurst estimate stay in their envelopes |
| Features.FullVolumeScoreNeeds17 | backend/internal/features/calc.go:45-60 | a full volume score needs at least seventeen candles |
| Features.FullVolumeScoreReached | backend/internal/features/calc.go:45-60 | for every number of candles from seventeen on some reach it |
| Features.GenerateFlags | backend/internal/features/calc.go:69-96 | the flags are exactly the triggered ones, each once, in the order of the conditions, with its severity and the market's time and name |
| CrossSection.Normalize | backend/internal/features/calc.go:133-146 | one pass in place writes every market's scaled value and nothing else |
| CrossSection.NormalizeCrossSection | backend/internal/features/calc.go:98-109 | the passes in place leave the slice as the cross-section that places all columns at once from the original slice |
| CrossSection.PassesAreIndependent | backend/internal/features/calc.go:98-108 | the four passes one after the other do what all columns at once, each read from the original slice, would do |
| CrossSection.CrossSectionExact | backend/internal/features/calc.go:98-109 | field by field: the strength rank places the day's returns, three scores place themselves, by their share of the way from lowest to highest; score and label are taken anew; nothing else changes |
| CrossSection.ColumnsAreRanks | backend/internal/features/calc.go:133-146 | every column is a percentage in the strict order of its source; 0 exactly at the lowest, 100 exactly at the highest, all 50 when constant |
| CrossSection.AffineInvariance | backend/internal/features/calc.go:143 | rescaling a source by a positive factor and shifting it changes nothing in its column |
| CrossSection.CommutesWithReordering | backend/internal/features/calc.go:98-109 | reordering the markets reorders the result and changes nothing else |
| CrossSection.Idempotent | backend/internal/features/calc.go:98-109 | running the whole cross-section twice is running it once, scores and labels included |
| CrossSection.ScoresStayInRange | backend/internal/features/calc.go:105 | research scores stay percentages |
| CrossSection.LeastLiquidIsIgnored | backend/internal/features/calc.go:100-113 | unless all are equally liquid the least liquid markets are labelled ignore_low_liquidity, whatever else holds of them |
| FeatureJob.ComputeFeatures | backend/internal/ingest/scheduler.go:171-196 | the features are those of exactly the coins with two candles or more, in their order, with their names, times and growths; the cross-section taken, and every feature flagged by exactly its conditions |
| FeatureJob.JobSelectsExactly | backend/internal/ingest/scheduler.go:180-188 | of distinct coins exactly those with two candles or more have a feature, one each, in the order of the coins |
| FeatureJob.JobEnvelope | backend/internal/ingest/scheduler.go:178-189 | in every run open interest scores 50, execution 84, funding 0, research lies between 18.4 and 78.4, and four kinds of flags never occur |
| OrderBook.DepthWithin | backend/internal/ingest/scheduler.go:270-286 | the loop sums the notional of the levels within the band |
| OrderBook.TakeSnapshot | backend/internal/ingest/scheduler.go:232-268 | of every book, best prices, spread, the six depths each of its own side and band, and the imbalance are those that Describes states as equations; of a two-sided uncrossed book it is consistent |
| OrderBook.InBandExact | backend/internal/ingest/scheduler.go:276-282 | a level is in the band if and only if its price is on its own side of the mid and no further from it than the given share |
| OrderBook.DepthExact | backend/internal/ingest/scheduler.go:270-286 | the depth of any levels is the notional of exactly those within the band |
| OrderBook.ImbalanceExact | backend/internal/ingest/scheduler.go:258-261 | the imbalance times both depths is the bids' less the asks', positive exactly when the bids outweigh |
| OrderBook.BandIsPrefix | backend/internal/ingest/scheduler.go:270-286 | on a sorted side the depth at any band is the notional of a prefix of the levels |
| OrderBook.DepthGrowsWithBand | backend/internal/ingest/scheduler.go:263-265 | wider bands hold longer prefixes and at least the depth |
| OrderBook.BandsOpenTogether | backend/internal/ingest/scheduler.go:251-256 | a band holds levels on both sides if the spread is at most twice its width and on neither side otherwise |
| OrderBook.ImbalanceBounded | backend/internal/ingest/scheduler.go:257-260 | the imbalance is between -1 and 1, changes sign with its sides, and is 1 exactly when only bids are in the band |
| OrderBook.SnapshotConsistent | backend/internal/ingest/scheduler.go:251-267 | the depths of a two-sided book are nested and the imbalance bounded; each band is empty, and at 50 basis points the imbalance zero, when the spread exceeds twice its width |
| OrderBook.SpreadInRangeIff | backend/internal/ingest/scheduler.go:251-255 | of sorted sides the spread is in [0, 20000) basis points if and only if both are there and uncrossed or both are missing |

## Left out

- Floating-point rounding, NaN and infinities, also the logarithm of a non-positive argument in the liquidity score; the
  logarithm of a zero range is treated as the minus infinity it is, which the clamp takes to zero.
- Latency sums and averages of the limiter, log lines, and the jitter and length of the sleeps in Wait: turns may come at
  any non-decreasing times. The back-off sleeps of the client have their lengths; a timer may fire late, not early.
- Fairness between waiters: the code provides none, and none is claimed.
- HTTP transport, JSON decoding and context plumbing: an attempt ends with any status and failure that doInfo can return.
- Postgres and Redis reads and the upserts of results; recording runs (StartRun, FinishRun) beyond whether a run started.
- The endless ticking of the scheduler's loop, the API router, configuration loading, migrations and the frontend.
- Trade snapshots and suggested directions: only easy totals and branches.
- Integer overflow of durations for backfills of centuries.
- Weighted.Wait: other callers run before each poll, not between the last poll and the queue's decrement; InfoSystem
  interleaves that step too.
- Weighted.PollUntil: turns come when they come; the ticker's period and the one-second cap on a pause's sleep are a
  hypothesis of WaitEndsInTime alone, which takes timers to fire on time.
- Weighted.Record: latency sums and counts are not kept.
- Weighted.Metrics: the average latencies and the formatting of the pauses' ends are not modelled.
- Client.Request: the lengths of the back-off sleeps are those of InfoSystem; the loop alone has no clock.
- ComputeFeatures: the error of listing the coins and the storing of the results are not modelled.
- RunJob: describes one run whose key nobody else touches meanwhile; interleavings are the subject of MutualExclusion.
- GenerateFlags: flag kinds and severities are enumerations, in the order of the conditions, and the message texts are not modelled.
- Normalize: the four closures that read and write a column are the cases of one enumeration, and the sorted copy that
  yields minimum and maximum is a function of the column.
- TakeSnapshot: coin, time and raw payload of the snapshot are not modelled.
