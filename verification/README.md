# Verified model of the SAPM control components

This project models ten stateful components of the Sovereign Agentic Prediction Market core in Dafny and proves what
they keep over whole runs. Each source class, or group of module-level variables, is a Dafny class whose methods are
proved against a pure reference function on an abstract state (`Abs()`). The lemmas are about that reference: they
quantify over every input, every run or every interleaving.

Check everything with `dafny verify dfyconfig.toml`.

## Components

- **Robust aggregation.** `QuickSelect`, `OrderStatistics` and `TrimmedMean` hold the in-place selection and the
  trimmed mean with its Byzantine bound. `Vectors`, `Ranking` and `MultiKrum` hold the two Multi-Krum variants.
  `Reputation` closes the loop: weights, selection, feedback, next weights.
- **Aggregator state.** `ReplayCache` is the bounded set of seen messages, `UpdateBuffer` the buffer of updates that is
  cleared after an await, `VotingRounds` the proposal and voting protocol cut at its awaits.
- **Three rate limiters.** `TokenBucket`, `SlidingWindow` (a log per user) and `RestartBudget` (a fixed window),
  the last one with the retry loop that spends it in `HybridProvider`.
- **Cache.** `TtlCache` is the LRU cache with time to live; `TtlCacheRuns` proves what it keeps over whole runs.
- **Breakers.** `AsyncBreaker` with any number of calls in flight; `Datapath` with ring, watermarks and latency breaker.
- **Orchestration.** `TaskManager` (assignment, its index, the scheduler) and `Discovery` (registry, load balancing).

## Modelling choices

- Clocks are parameters. Runs are required to be chronological where the source relies on it.
- Floating-point numbers are reals; counters and sizes are unbounded integers.
- Hashes, signatures, random ids and remote answers are parameters of the events that use them.
- A JavaScript `Map` whose order matters is a map plus the sequence of its keys in insertion order.
- Falsy values are kept where they decide: an empty key or agent id, a stored reputation of 0, a lifetime of 0, a limit
  below 2 in `slice(-0)`.
- An asynchronous handler is a sequence of atomic steps between its awaits. An event for a handler that is not waiting
  at that point does nothing, so that every sequence of events is a run.

## What the proofs found

- The restart budget admits at most `2*max - 1` restarts per window length, one fewer than two full windows suggest.
- The two numbers of the token bucket decide exactly like its full history.
- `RingFull` is unreachable exactly when the high watermark is at most 100 and the low one below 100.
- The update buffer can drop an accepted update when two clears are pending; with one at a time it cannot.
- A quorum is fixed when a vote is recorded, and choices are never looked at. A finalized round can be applied again,
  exactly as long as some request still waits to tally a vote on it whose quorum is met.
- The default voting quorum is a majority of the registry exactly for 1, 5 and from 7 keys on; for 2, 3, 4 and 6 keys
  there are disjoint quorums.
- A reputation of exactly 0 reads as 50, so fifty rejections in a row restore the weight of a newcomer.
- The comment in the cache says that an access extends the time to live
  (`market-data/cache/ttl-manager.js:68`). The code overwrites it, which shortens a long custom one; the model follows
  the code. The existence check and the lookup disagree at the instant of expiry.
- A user who calls himself "anonymous" shares the log of those who give no name.
- An empty cache key is never evicted. A store overflows exactly when it adds a key to a full cache in which the empty
  key is the least recently used; from then on the cache can grow without limit.
- A circuit breaker without half-open allowance gets stuck half-open for ever; with one it never does.
- The balance weights returned for a list that names a service twice add up to less than 1.

## Model

| member | source | states |
|---|---|---|
| `QuickSelect.Partition` | agents/aggregator/server.js:256-268 | permutes only cells left..right; the pivot value ends at the returned index with strictly smaller cells before it and no smaller ones after it |
| `QuickSelect.QuickSelect` | agents/aggregator/server.js:270-278 | terminates for every rank; permutes only its interval; a rank inside the interval ends in place, with nothing larger before it and nothing smaller after it |
| `OrderStatistics.SortedUnique` | agents/aggregator/server.js:222-244 | a multiset has exactly one sorted arrangement, so "the sorted column" is well defined |
| `TrimmedMean.SumMiddle` | agents/aggregator/server.js:229-235 | after the two successive selections cells lo..hi hold exactly the multiset of ranks lo..hi of the sorted column, and the whole column is only permuted |
| `TrimmedMean.TrimColumn` | agents/aggregator/server.js:228-241 | the in-place computation of one coordinate equals sort, drop toTrim at each end, average; the plain mean when nothing or too much would be trimmed |
| `TrimmedMean.TrimmedMean` | agents/aggregator/server.js:222-244 | every output coordinate is the sort-then-average reference of that column |
| `TrimmedMean.DefaultTrimsOneFifth` | agents/aggregator/server.js:222-225 | the default fraction trims floor(n/5) at each end, and trims at all exactly from five updates on |
| `OrderStatistics.MiddleRankIsBounded` | agents/aggregator/server.js:229-236 | counting argument: with at most t dishonest entries, ranks t..n-t-1 of the sorted column lie between any bounds of the honest entries |
| `TrimmedMean.ByzantineBound` | agents/aggregator/server.js:222-244 | with at most toTrim arbitrary entries and 2*toTrim below n, a coordinate stays between the bounds of the honest entries |
| `TrimmedMean.ByzantineResilience` | agents/aggregator/server.js:222-244 | for whole update vectors and the default fraction: floor(n/5) arbitrary vectors cannot push any coordinate out of the honest range |
| `TrimmedMean.OneMoreIsNotTolerated` | agents/aggregator/server.js:222-244 | the bound is tight: whatever the honest entries, toTrim + 1 dishonest ones can push the result above all of them |
| `TrimmedMean.OverTrimmingIsNotResilient` | agents/aggregator/server.js:229-241 | whenever 2*toTrim reaches n the code falls back to the plain mean, and for every such n and toTrim a single bad entry leaves the honest range |
| `TrimmedMean.TrimmedMeanIgnoresOrder` | agents/aggregator/server.js:222-244 | permuting the update vectors changes no output coordinate |
| `Vectors.SquaredEuclideanDistance` | agents/aggregator/server.js:250-254 | the loop computes the recursive squared distance |
| `MultiKrum.BuildPairwiseDistanceMatrix` | agents/aggregator/server.js:280-291 | every cell holds the squared distance of its two updates, although only half of them are computed |
| `MultiKrum.PlainScores` | agents/aggregator/server.js:299-306 | cell i holds the summed distance of update i to all others |
| `MultiKrum.ReputationScores` | agents/aggregator/server.js:338-346 | the same with every distance divided by the product of the two weights |
| `Ranking.RankIsTheStableSort` | agents/aggregator/server.js:307-310 | the index ranking is the stable ascending sort of the scores, and the only one |
| `Vectors.ParallelAxis` | agents/aggregator/server.js:250-306 | summed squared distances to n vectors are n times the squared distance to their mean, plus a part independent of the point |
| `MultiKrum.ScoreMeasuresDistanceToCentroid` | agents/aggregator/server.js:293-306 | score_i is n times the squared distance of update i to the mean of all updates, plus the same constant for every i |
| `MultiKrum.ChosenAreNearestToCentroid` | agents/aggregator/server.js:293-310 | every chosen update is at most as far from the mean as every update left out |
| `MultiKrum.SimpleMultiKrum` | agents/aggregator/server.js:295-318 | null for no update, the update itself for one, otherwise the mean of the chosen ones |
| `MultiKrum.AverageInHull` | agents/aggregator/server.js:311-317 | each coordinate of the plain result lies between the chosen updates |
| `MultiKrum.WeightedMultiKrum` | agents/aggregator/server.js:320-363 | scores, selection and weighted average for given weights; the denominator is positive |
| `MultiKrum.OwnWeightDividesScore` | agents/aggregator/server.js:338-346 | for arbitrary weights, the weight of an update divides its whole score |
| `MultiKrum.OtherWeightEntersOnce` | agents/aggregator/server.js:338-346 | changing the weight of another update from w to x changes a score by exactly distance / own weight * (1/w - 1/x) |
| `MultiKrum.ReputableNeighbourLowersScore` | agents/aggregator/server.js:338-346 | raising the weight of a different update lowers the score of every update that is not equal to it |
| `MultiKrum.PickCountClamps` | agents/aggregator/server.js:308-309 | n - f - 2 updates are picked, at least one and at most all |
| `MultiKrum.ToleranceLeavesTwiceAsMany` | agents/aggregator/server.js:326-327 | the derived tolerance f satisfies 3f+2 <= n and at least 2f updates are kept; an admissible override is used as it is, a negative one is 0, a larger one the largest admissible |
| `MultiKrum.WeightedAverageInHull` | agents/aggregator/server.js:352-361 | with positive weights each output coordinate lies between the selected updates |
| `MultiKrum.EqualWeightsSelectAlike` | agents/aggregator/server.js:295-350 | with all weights equal the two variants select the same indices in the same order if and only if n is not 4 |
| `MultiKrum.EqualWeightsAggregateAlike` | agents/aggregator/server.js:311-361 | with all weights equal the same selection gives the same aggregate |
| `MultiKrum.EqualWeightsRefinePlain` | agents/aggregator/server.js:295-363 | with all weights equal and any number of updates except four, selection and aggregate of the weighted variant are those of the plain one |
| `Reputation.ReputationTracker.RegisterAgent` | agents/aggregator/reputation-tracker.js:19-34 | sets the score and leaves all others |
| `Reputation.ReputationTracker.AdjustReputation` | agents/aggregator/reputation-tracker.js:39-47 | registers an unknown agent at 50 first; the new score is clamped to [0, 100] |
| `Reputation.ReputationTracker.AssignWeights` | agents/aggregator/server.js:328-336 | weights are max(0.2, reputation/100), 1 without a key; unknown keys get registered and that changes no weight |
| `Reputation.ReputationTracker.ReputationWeightedMultiKrum` | agents/aggregator/server.js:320-363 | the weighted selector under the weights of the tracker |
| `Reputation.ReputationTracker.ApplySelectionFeedback` | agents/aggregator/server.js:365-376 | the loop performs the reference feedback, in order, also when a key occurs twice |
| `Reputation.FeedbackPerKey` | agents/aggregator/server.js:365-376 | an agent that submits once gains 2 if selected and loses 1 if not, within [0, 100] |
| `Reputation.FeedbackSparesOthers` | agents/aggregator/server.js:365-376 | the score of an agent that does not submit is untouched |
| `Reputation.AggregateWithFeedback` | agents/aggregator/server.js:183-187 | one weighted round followed by its feedback |
| `Reputation.RunBounded` | agents/aggregator/server.js:320-376 | over every sequence of rounds and external adjustments scores stay in [0, 100] and weights in [0.2, 1] |
| `Reputation.RoundStaysInHull` | agents/aggregator/server.js:326-363 | whatever the scores, the denominator of a round is positive and each output coordinate lies between the selected updates |
| `Reputation.InfluenceIsBounded` | agents/aggregator/server.js:326-376 | after every run the share of each of the k selected updates in the average lies between 1/(5k-4) and 5/(k+4) |
| `Reputation.WeightMonotoneExceptAtZero` | agents/aggregator/reputation-tracker.js:128-130 | a higher score never has a smaller weight, except that a stored 0 reads as 50: the exact condition |
| `Reputation.WeightTracksScore` | agents/aggregator/server.js:328-336 | the weight is a hundredth of the score, at least 0.2; 0.5 for unknown agents and a score of 0; 1 without a key |
| `Reputation.EmptyKeyIsNobody` | agents/aggregator/server.js:328-376 | no round gives the empty key a score |
| `Reputation.RejectionEventuallyRestoresWeight` | agents/aggregator/server.js:320-376 | on every run in which an agent is rejected whenever it submits it loses one point a rejection and has the weight of a newcomer exactly from the fiftieth on |
| `ReplayCache.SeenCache.MarkSeen` | agents/aggregator/server.js:134-142 | ordered insertion; past the limit the older part is dropped; a limit below 2 never drops |
| `ReplayCache.SeenCache.Handle` | agents/aggregator/server.js:545-553 | replays and bad signatures are refused and leave the cache as it is; only accepted ids are marked |
| `ReplayCache.SeenIsRecentHistory` | agents/aggregator/server.js:134-142 | on every run the cache is a duplicate-free suffix of the history of loaded and accepted ids, of length at least min(total, floor(L/2)) and at most L once it has marked |
| `ReplayCache.RecentReplayIsRefused` | agents/aggregator/server.js:545-553 | a message repeated within the last floor(L/2) accepted ones is always refused |
| `ReplayCache.NoFalseReplay` | agents/aggregator/server.js:545-546 | only ids that were loaded or accepted before are refused as replays |
| `ReplayCache.VerdictIff` | agents/aggregator/server.js:545-551 | a message is accepted if and only if it is correctly signed and its id not remembered; a remembered id is a replay first |
| `ReplayCache.MarkRemembers` | agents/aggregator/server.js:134-142 | a newly accepted id is always remembered; marking a remembered one changes nothing within the limit |
| `ReplayCache.HistoryIsSigned` | agents/aggregator/server.js:545-553 | whatever was accepted was correctly signed |
| `ReplayCache.OlderReplayIsAccepted` | agents/aggregator/server.js:134-142 | the window is tight for every limit from 2 on: the next older message is accepted again |
| `UpdateBuffer.Buffer.PushUpdate` | agents/aggregator/server.js:555-565 | appends; a full buffer becomes a round and schedules a clear |
| `UpdateBuffer.Buffer.ResumeAfterPersist` | agents/aggregator/server.js:566-570 | the clear after the await empties whatever is buffered by then |
| `UpdateBuffer.StepLosesIff` | agents/aggregator/server.js:555-570 | on every run a step drops an accepted update if and only if it clears a buffer that is neither empty nor full |
| `UpdateBuffer.AnUpdateCanBeDropped` | agents/aggregator/server.js:555-570 | a reachable interleaving on which an accepted update is lost |
| `UpdateBuffer.OneClearAtATimeLosesNothing` | agents/aggregator/server.js:555-570 | as long as two clears are never pending at once nothing is lost |
| `UpdateBuffer.SerialRunsUseEachUpdateOnce` | agents/aggregator/server.js:555-570 | if no update is accepted during the await, rounds and buffer partition the accepted updates in order |
| `VotingRounds.Server.RegisterKey` | agents/aggregator/server.js:664-676 | local registration adds the key; off with an on-chain registry |
| `VotingRounds.Server.ProposeModel` | agents/aggregator/server.js:579-595 | a proposal with a proof is refused if the key is not registered, the time is off, the message was seen or the signature is bad; an accepted one replaces whatever its round id stood for |
| `VotingRounds.Server.ReceiveVote` | agents/aggregator/server.js:600-605 | the part of a vote before its first await; an empty local registry admits every key |
| `VotingRounds.Server.CastVote` | agents/aggregator/server.js:606-621 | the guards in their order, the vote, and the quorum of that moment |
| `VotingRounds.Server.TallyVotes` | agents/aggregator/server.js:622-627 | applies the model when the votes present by then reach the quorum |
| `VotingRounds.Server.FinishVote` | agents/aggregator/server.js:635-650 | finalizes after a successful commitment; after a failed one the model stays applied and the round open |
| `VotingRounds.RunKeepsReferences` | agents/aggregator/server.js:600-652 | on no run does a suspended request or a round id refer to a proposal that does not exist |
| `VotingRounds.ArrivalIsVettedIff` | agents/aggregator/server.js:154-160 | a vote request gets past its first await if and only if, at that moment, the on-chain check answers yes (which it also does when that registry cannot be read) or, locally, the key is in the registry or the registry is empty |
| `VotingRounds.WaitingWasVetted` | agents/aggregator/server.js:605-605 | every request past the first await arrived when its key was registered in that sense |
| `VotingRounds.VoteWasRecorded` | agents/aggregator/server.js:605-615 | every key in a vote map that was not loaded with the round belongs to a request that passed the registry check and then had a timely, signature-checked, first-time vote recorded on that open proposal |
| `VotingRounds.QuorumFixedAtCast` | agents/aggregator/server.js:616-624 | the quorum a tally compares with is the one of the moment its vote was recorded, not of the tally |
| `VotingRounds.CastRecordsIff` | agents/aggregator/server.js:606-615 | a vetted request records its vote if and only if it is in time, its id unseen, its signature good, and its round known and open; otherwise no proposal changes |
| `VotingRounds.ProposalEntersIff` | agents/aggregator/server.js:579-595 | a proposal is entered if and only if it has no proof or one that passes all four checks; it is then open, unvoted and found by its id |
| `VotingRounds.TallyAndFinishEndTheirWaits` | agents/aggregator/server.js:622-650 | a tally ends the wait of its request; a successful finish marks the proposal and puts it back under its id; a failed one changes nothing else |
| `VotingRounds.RegistryIsRegistered` | agents/aggregator/server.js:664-676 | on every run the local registry is what was loaded and registered; an on-chain one is never touched |
| `VotingRounds.QuorumIsRequired` | agents/aggregator/server.js:616-618 | the quorum is the configured one or, without one, 66 percent of the registry (of the expected aggregators if it is empty) rounded down, at least 1 |
| `VotingRounds.SeenIsReplayCache` | agents/aggregator/server.js:606-611 | on every interleaving the seen ids are those of a replay cache fed with the accepted messages of all handlers in order |
| `VotingRounds.RecentVoteIsNotRecorded` | agents/aggregator/server.js:606-611 | a vote whose message is among the last floor(L/2) accepted ones is not recorded again |
| `VotingRounds.AppliedHadQuorum` | agents/aggregator/server.js:600-627 | whatever rounds were loaded at the start: the tally that applies a proposal demands the quorum of some vote recorded on it, and every key that counts was loaded with the round or is certified as above |
| `VotingRounds.ServedModelIsLatestApplied` | agents/aggregator/server.js:626-626 | the served model is that of the latest application, or the initial one if there was none |
| `VotingRounds.ServedModelIsBacked` | agents/aggregator/server.js:600-652 | round safety under every interleaving and from every loaded state: the served model is the initial one, or that of the latest application, which was backed by a quorum of loaded or certified keys |
| `VotingRounds.FinalizedWasApplied` | agents/aggregator/server.js:643-648 | a round not loaded as finalized is marked finalized only after its model was applied |
| `VotingRounds.DefaultQuorumIsMajorityIff` | agents/aggregator/server.js:617-618 | the default quorum is a strict majority of the registry if and only if it has 1, 5 or at least 7 keys |
| `VotingRounds.QuorumsShareAKeyIff` | agents/aggregator/server.js:617-624 | any two quorums of registered keys have a key in common if and only if the registry has 1, 5 or at least 7 keys; for 2, 3, 4 and 6 there are disjoint ones |
| `VotingRounds.ChoicesDoNotMatter` | agents/aggregator/server.js:615-626 | replacing what the votes say changes nothing but the recorded choices: rejections count towards the quorum |
| `VotingRounds.FinalizedIsAppliedAgainIff` | agents/aggregator/server.js:614-648 | in every state, a finalized round can still be applied if and only if some request waits to tally a vote on it with a quorum that the recorded votes reach |
| `VotingRounds.FinalizedRoundCanBeAppliedAgain` | agents/aggregator/server.js:614-648 | such a state is reachable: a run from an empty server on which a finalized round is applied a second time |
| `TokenBucket.RateLimiter.TryAcquire` | ai-agents/reasoning/forecast-reasoner.js:493-510 | one pass of acquire: refill, grant or computed wait |
| `TokenBucket.RateLimiter.Acquire` | ai-agents/reasoning/forecast-reasoner.js:493-512 | a lone caller whose timer is late by any amount gets its token on the second pass at the latest |
| `TokenBucket.ConfiguredPerMinute` | ai-agents/reasoning/forecast-reasoner.js:479-491 | the configured number of tokens flows in per minute; zero settings mean 60 and a burst of 10 |
| `TokenBucket.RetryGrantsIff` | ai-agents/reasoning/forecast-reasoner.js:506-510 | after a refusal an undisturbed retry d later succeeds if and only if d is at least the computed wait and the burst is at least 1 |
| `TokenBucket.TokensStayInBucket` | ai-agents/reasoning/forecast-reasoner.js:493-505 | on every trace the tokens stay in [0, burst] |
| `TokenBucket.GrantedIffEveryWindowAllows` | ai-agents/reasoning/forecast-reasoner.js:493-511 | the bucket decides like the full history: a pass is granted if and only if one more grant fits burst + rate*(now-s) for every window start s |
| `TokenBucket.IntervalBound` | ai-agents/reasoning/forecast-reasoner.js:493-512 | on every trace with any interleaving of callers, the grants in any closed interval [s, t] number at most burst + rate*(t-s) |
| `HybridProvider.Provider.RegisterProviderRestart` | agents/orchestrator/core/go-hybrid-provider.js:252-270 | window reset, count, and refusal beyond the budget |
| `RestartBudget.IntervalBound` | agents/orchestrator/core/go-hybrid-provider.js:252-270 | on every trace a closed interval of the window length holds at most 2*max-1 granted restarts (none for max 0) |
| `RestartBudget.BoundIsAttained` | agents/orchestrator/core/go-hybrid-provider.js:252-270 | that bound is attained for every budget and window |
| `RestartBudget.RefusedOnlyWhenSpent` | agents/orchestrator/core/go-hybrid-provider.js:263-269 | a refusal means that the whole budget was granted within the window length before it |
| `HybridProvider.ReadinessFailuresAreRetried` | agents/orchestrator/core/go-hybrid-provider.js:154-177 | a failed readiness check is classified as such, and retried, whatever the underlying error text says |
| `HybridProvider.CategoryByText` | agents/orchestrator/core/go-hybrid-provider.js:154-171 | for every message, the first of the five patterns that its lower-case text contains decides the category; none means a failed execution |
| `HybridProvider.RetryableByText` | agents/orchestrator/core/go-hybrid-provider.js:154-177 | for every message, which failures are retried, in terms of the text alone |
| `HybridProvider.Provider.DeriveSession` | agents/orchestrator/core/go-hybrid-provider.js:341-429 | which attempts are made, why the last one is the last, the reported category, and the counters; every retry is one granted restart |
| `HybridProvider.Provider.EndAttempt` | agents/orchestrator/core/go-hybrid-provider.js:374-425 | what a call does between two awaits when an attempt ends: success, retry on a granted restart, or failure with its category |
| `HybridProvider.RetriesAreGrants` | agents/orchestrator/core/go-hybrid-provider.js:252-429 | on every interleaving of any number of calls, the retries are exactly the restarts granted by the one shared budget |
| `HybridProvider.RetriesPerWindow` | agents/orchestrator/core/go-hybrid-provider.js:252-429 | so all calls together obey the interval bound of the budget, whatever the configured number of retries |
| `HybridProvider.AttemptsAreBounded` | agents/orchestrator/core/go-hybrid-provider.js:358-429 | on every interleaving no call fails more often than the configured retries and still tries on |
| `SlidingWindow.IntentRateLimiter.CheckRateLimit` | frontend/src/services/a2ui-intent-queue.ts:108-120 | prunes the log of the user and accepts if there is room |
| `SlidingWindow.IntentRateLimiter.Enqueue` | frontend/src/services/a2ui-intent-queue.ts:44-47 | a missing or empty user id shares the anonymous log |
| `SlidingWindow.SharesLogIff` | frontend/src/services/a2ui-intent-queue.ts:44-47 | two callers share a log if and only if they are the same, or both are missing, empty or named anonymous |
| `SlidingWindow.LogMatchesHistory` | frontend/src/services/a2ui-intent-queue.ts:111-112 | what was pruned can no longer matter: log and full history filter alike at every later window start |
| `SlidingWindow.AllowedIffWindowHasRoom` | frontend/src/services/a2ui-intent-queue.ts:108-120 | on every trace a request is accepted if and only if fewer than the maximum of the accepted requests of the same user lie in the closed window ending now |
| `SlidingWindow.WindowBound` | frontend/src/services/a2ui-intent-queue.ts:108-120 | no closed window of the configured length ever holds more than the maximum of accepted requests per user |
| `SlidingWindow.MinuteBound` | frontend/src/services/a2ui-intent-queue.ts:108-120 | with the shipped window no closed minute holds more than the maximum per user |
| `SlidingWindow.UsersAreIndependent` | frontend/src/services/a2ui-intent-queue.ts:108-120 | what a user is allowed is the same as if nobody else had called |
| `TtlCache.MarketDataCache.constructor` | market-data/cache/ttl-manager.js:23-30 | zero options fall back to the defaults |
| `TtlCache.MarketDataCache.Set` | market-data/cache/ttl-manager.js:42-77 | evicts when full, also for a key that is resident, then stores |
| `TtlCache.MarketDataCache.Get` | market-data/cache/ttl-manager.js:84-103 | null for absent or expired keys, which are removed; otherwise the data, with access time and expiry renewed |
| `TtlCache.MarketDataCache.Delete` | market-data/cache/ttl-manager.js:110-121 | removes the key from both maps |
| `TtlCache.MarketDataCache.CleanupExpired` | market-data/cache/ttl-manager.js:126-145 | the deletion loop and its count |
| `TtlCache.CleanupRemovesExactlyExpired` | market-data/cache/ttl-manager.js:126-145 | cleanup removes exactly the expired entries and touches nothing else |
| `TtlCache.MarketDataCache.EvictOldest` | market-data/cache/ttl-manager.js:150-168 | the search loop finds the first key with the smallest access time; an empty key is not evicted |
| `TtlCache.OldestIsFirst` | market-data/cache/ttl-manager.js:150-168 | among keys with the smallest access time the first in iteration order is found |
| `TtlCache.MarketDataCache.SetTTL` | market-data/cache/ttl-manager.js:175-184 | changes the expiry of a resident key only |
| `TtlCache.MarketDataCache.Clear` | market-data/cache/ttl-manager.js:221-227 | empties both maps |
| `TtlCache.HasDisagreesOnlyAtExpiry` | market-data/cache/ttl-manager.js:234-243 | the existence check and a lookup disagree exactly at the instant of expiry |
| `TtlCacheRuns.KeySetsCoincide` | market-data/cache/ttl-manager.js:42-168 | on every run cache and access history hold the same keys |
| `TtlCacheRuns.SizeBound` | market-data/cache/ttl-manager.js:42-46 | on every run that never sets the empty key the size never exceeds the capacity |
| `TtlCacheRuns.StoreOverflowsIff` | market-data/cache/ttl-manager.js:42-46 | a store exceeds the capacity if and only if it adds a key to a full cache whose least recently used key is the empty one |
| `TtlCacheRuns.RunFitsIff` | market-data/cache/ttl-manager.js:42-168 | a run stays within the capacity throughout if and only if none of its stores is of that kind |
| `TtlCacheRuns.EmptyKeyDefeatsBound` | market-data/cache/ttl-manager.js:150-168 | it happens without limit: whatever the capacity, for every n there is a run of n + 1 stores, the first of the empty key, after which the cache has n + 1 entries |
| `TtlCacheRuns.OverwriteWhenFullEvicts` | market-data/cache/ttl-manager.js:42-46 | overwriting a resident key in a full cache shrinks the cache if and only if another key is evicted |
| `TtlCacheRuns.AccessHistoryIsLastTouch` | market-data/cache/ttl-manager.js:58-103 | on every run the access history of a resident key is the time of its latest set or hit on the trace |
| `TtlCacheRuns.EvictedIsLeastRecent` | market-data/cache/ttl-manager.js:150-168 | on every run an evicted key was last set or hit no later than any key resident at that moment |
| `TtlCacheRuns.LeastRecentlyUsedIsEvicted` | market-data/cache/ttl-manager.js:42-168 | on every chronological run the latest set or hit of a resident key is no earlier than that of any key evicted so far had been at its eviction |
| `TtlCacheRuns.ResidentIsLatestWritten` | market-data/cache/ttl-manager.js:42-168 | on every run a resident entry carries the value of the latest set of its key not deleted since |
| `TtlCacheRuns.GetReturnsLatestWritten` | market-data/cache/ttl-manager.js:84-103 | a lookup returns null or exactly that value |
| `TtlCacheRuns.EntriesFollowTrace` | market-data/cache/ttl-manager.js:42-184 | on every run exactly those keys are resident that were set and since then not removed, evicted or met after expiry; each expires when its latest set, hit or new lifetime says, and counts its hits since it was set |
| `TtlCacheRuns.IterationIsByInsertion` | market-data/cache/ttl-manager.js:57-58 | on every run the keys are iterated in the order in which they last became resident |
| `TtlCacheRuns.ServedExactlyUntilExpiry` | market-data/cache/ttl-manager.js:84-168 | an entry left alone is served up to and including its expiry and not after, whatever happens to other keys |
| `TtlCacheRuns.SetIsServedForLifetime` | market-data/cache/ttl-manager.js:42-59 | a value that was set is served for its custom lifetime, or the default if that is absent or zero |
| `TtlCacheRuns.HitResetsLifetime` | market-data/cache/ttl-manager.js:62-72 | after a hit an entry left alone is served for twice the default lifetime, at most five minutes, and not longer |
| `TtlCacheRuns.HitShortensLifeIff` | market-data/cache/ttl-manager.js:62-72 | a hit brings the expiry forward if and only if more than that remained |
| `TtlCacheRuns.LookupShortensLongLifetime` | market-data/cache/ttl-manager.js:42-103 | on a run from the empty cache: a set for a custom lifetime and a lookup within it, and exactly when the lookup costs lifetime |
| `AsyncBreaker.CircuitBreaker.MaybeTransitionToHalfOpen` | frontend/src/lib/circuit-breaker.ts:53-63 | open becomes half-open once the reset timeout has elapsed |
| `AsyncBreaker.CircuitBreaker.Admit` | frontend/src/lib/circuit-breaker.ts:28-41 | execute up to its await |
| `AsyncBreaker.CircuitBreaker.RecordSuccess` | frontend/src/lib/circuit-breaker.ts:65-69 | closes and resets |
| `AsyncBreaker.CircuitBreaker.RecordFailure` | frontend/src/lib/circuit-breaker.ts:71-82 | counts, and opens at the threshold or from half-open |
| `AsyncBreaker.CircuitBreaker.ExecuteAlone` | frontend/src/lib/circuit-breaker.ts:28-51 | execute when nothing else runs during its action |
| `AsyncBreaker.RunInv` | frontend/src/lib/circuit-breaker.ts:28-82 | on every interleaving, stale completions included: not closed iff the failures reached the threshold; half-open counts exactly the pending calls admitted in this episode, within the allowance |
| `AsyncBreaker.ClosedIffFewFailures` | frontend/src/lib/circuit-breaker.ts:65-82 | closed if and only if fewer failures than the threshold were recorded since the last success |
| `AsyncBreaker.HalfOpenFailureReachesThreshold` | frontend/src/lib/circuit-breaker.ts:77-81 | the second opening branch never decides |
| `AsyncBreaker.ExhaustedBreakerHasPendingProbe` | frontend/src/lib/circuit-breaker.ts:35-41 | when a half-open breaker turns a call away, a probe of the current episode is pending |
| `AsyncBreaker.NoAllowanceIsStuck` | frontend/src/lib/circuit-breaker.ts:35-41 | without an allowance a half-open breaker with nothing pending never changes again |
| `AsyncBreaker.NoAllowanceGetsStuck` | frontend/src/lib/circuit-breaker.ts:28-82 | for every threshold a run from the start reaches that state |
| `AsyncBreaker.GetsStuckIff` | frontend/src/lib/circuit-breaker.ts:28-82 | some run gets stuck half-open for ever if and only if the allowance is not positive |
| `AsyncBreaker.HalfOpenAfterTimeout` | frontend/src/lib/circuit-breaker.ts:53-63 | whenever it is half-open the reset timeout has passed since the opening failure |
| `AsyncBreaker.OpenedAtLatestFailure` | frontend/src/lib/circuit-breaker.ts:71-82 | while it is not closed the opening time is that of the latest recorded failure |
| `AsyncBreaker.NoAdmissionWithinTimeout` | frontend/src/lib/circuit-breaker.ts:28-63 | within the reset timeout after the latest failure a call is admitted if and only if the failures are still below the threshold |
| `AsyncBreaker.AdmittedIff` | frontend/src/lib/circuit-breaker.ts:28-63 | on every interleaving and at every instant, who is admitted, from the trace: few failures; open and the timeout passed since the latest failure; or half-open with fewer pending probes than allowed |
| `Datapath.PacketRing.Push` | rust-datapath/src/lib.rs:181-188 | appends unless full |
| `Datapath.PacketRing.Pop` | rust-datapath/src/lib.rs:190-192 | removes and returns the oldest slot |
| `Datapath.Datapath.UpdateBackpressure` | rust-datapath/src/lib.rs:239-258 | hysteresis between the two watermarks on the integer usage percentage |
| `Datapath.Datapath.TickCircuit` | rust-datapath/src/lib.rs:260-270 | counts the cooldown down to half-open |
| `Datapath.Datapath.RecordLatencySample` | rust-datapath/src/lib.rs:272-294 | window trim, average, opening and closing |
| `Datapath.Datapath.ProcessPacket` | rust-datapath/src/lib.rs:312-371 | the refusals in their order, the counters, the admission |
| `Datapath.Datapath.Flush` | rust-datapath/src/lib.rs:373-386 | drains the ring, counts it, and re-evaluates backpressure |
| `Datapath.PacketsAreConserved` | rust-datapath/src/lib.rs:312-386 | on every run enqueued = processed + ring length, and calls = enqueued + dropped |
| `Datapath.RingHoldsAcceptedInOrder` | rust-datapath/src/lib.rs:333-371 | on every run the ring holds exactly the packets accepted since the last flush, in order, each from a configured interface and within the size limit |
| `Datapath.OccupancyBound` | rust-datapath/src/lib.rs:239-258 | on every run a non-empty ring satisfies 100*(len-1) < ceiling*capacity, where the ceiling is the high watermark when it exceeds the low one and the low one plus 1 otherwise |
| `Datapath.RingFullUnreachableIff` | rust-datapath/src/lib.rs:358-363 | RingFull is unreachable if and only if the high watermark is at most 100 and the low one below 100 |
| `Datapath.ThrottledUntilFlush` | rust-datapath/src/lib.rs:248-258 | once throttled every packet is refused and the ring stays as it is until the next flush |
| `Datapath.FlushEndsThrottling` | rust-datapath/src/lib.rs:373-386 | a flush ends throttling whenever the ring has a capacity |
| `Datapath.DequeIsLatestSamples` | rust-datapath/src/lib.rs:281-285 | on every run the deque is the last min(count, window) samples |
| `Datapath.CooldownCountsPackets` | rust-datapath/src/lib.rs:260-294 | after an opening sample and with no breaching one since, the n-th packet fails with CircuitOpen if and only if n is below the cooldown (0 acts like 1), however flushes and good samples interleave |
| `Datapath.SampleOpensIff` | rust-datapath/src/lib.rs:272-294 | on every run a sample opens the breaker or restarts its cooldown if and only if the window after it is not empty and adds up to at least its size times (threshold + 1) |
| `Datapath.TotalIgnoresOrder` | rust-datapath/src/lib.rs:277-278 | the sum of the window does not depend on the order of the samples |
| `Datapath.TotalConcat` | rust-datapath/src/lib.rs:277-278 | the sum of the window is additive |
| `Datapath.UniformWindowsDecide` | rust-datapath/src/lib.rs:272-294 | samples within the threshold never open the breaker; a window entirely above it does |
| `Datapath.OutcomeIff` | rust-datapath/src/lib.rs:312-363 | which outcome a packet meets, in order of precedence |
| `Datapath.AdmissionThrottlesIff` | rust-datapath/src/lib.rs:239-258 | an admitted packet turns backpressure on if and only if the ring then reaches the high watermark |
| `Datapath.StatsCountOutcomes` | rust-datapath/src/lib.rs:312-371 | on every run each counter is the number of packets that met the outcome it is named after |
| `Datapath.CircuitTransitions` | rust-datapath/src/lib.rs:260-294 | all transitions of the breaker: it opens exactly on a breaching sample, half-opens only on the packet that uses up the cooldown, closes only from half-open |
| `TaskManager.Manager.CreateTask` | agents/orchestrator/tasks/task-manager.js:30-55 | missing and unknown types are errors; otherwise a pending task |
| `TaskManager.Manager.SetAgentCapacity` | agents/orchestrator/tasks/task-manager.js:84-89 | makes the agent known, with an empty set if it has none |
| `TaskManager.Manager.SetAgentPerformance` | agents/orchestrator/tasks/task-manager.js:91-96 | makes the agent known by its performance record |
| `TaskManager.Manager.AssignTask` | agents/orchestrator/tasks/task-manager.js:104-133 | the three errors in their order leave everything unchanged; otherwise record and index are updated |
| `TaskManager.ScheduledIsLexicographicMinimum` | agents/orchestrator/tasks/task-manager.js:135-168 | no candidate iff no known agent is eligible; otherwise an eligible one with the smallest (time, load), to which the inner assignment of an existing task cannot fail |
| `TaskManager.BestIsFirstOfTies` | agents/orchestrator/tasks/task-manager.js:156-164 | among agents equal in time and load the one listed first is chosen, as a stable sort leaves it |
| `TaskManager.FirstEligibleTie` | agents/orchestrator/tasks/task-manager.js:137-164 | of all listed agents, eligible or not, the chosen one comes before every eligible one that ties with it |
| `TaskManager.KnownAgentsInOrder` | agents/orchestrator/tasks/task-manager.js:137-140 | agents with a capacity are listed first, in order, and those with only a performance record after them |
| `TaskManager.AssignErrorIff` | agents/orchestrator/tasks/task-manager.js:104-121 | which assignments fail and how, in terms of status, set size and capacity |
| `TaskManager.RecordFollowsEvents` | agents/orchestrator/tasks/task-manager.js:30-201 | on every run status, type and agent of a task are those its latest events call for |
| `TaskManager.TasksAreTheCreated` | agents/orchestrator/tasks/task-manager.js:30-55 | on every run the tasks that exist are the created ones |
| `TaskManager.SettingsAreTheLatest` | agents/orchestrator/tasks/task-manager.js:76-96 | on every run the scheduler decides by what was set last for each agent |
| `TaskManager.CapacityOrderIsByFirstSetting` | agents/orchestrator/tasks/task-manager.js:84-89 | agents are listed in the order of their first capacities |
| `TaskManager.PerformanceOrderIsByFirstRecord` | agents/orchestrator/tasks/task-manager.js:91-96 | and those without one in the order of their first performance records |
| `TaskManager.Manager.AutoAssignTask` | agents/orchestrator/tasks/task-manager.js:135-168 | assigns to that agent, returns null without candidates, and fails only for an unknown task |
| `TaskManager.Manager.CompleteTask` | agents/orchestrator/tasks/task-manager.js:177-190 | refuses a completed task; otherwise closes it and releases it from its agent |
| `TaskManager.Manager.MarkTaskFailed` | agents/orchestrator/tasks/task-manager.js:192-201 | closes the task in any status and releases it |
| `TaskManager.RunIndexed` | agents/orchestrator/tasks/task-manager.js:104-201 | on every run every assigned task is in the set of its agent |
| `TaskManager.StepKeepsExactIff` | agents/orchestrator/tasks/task-manager.js:104-201 | from an index that agrees with a scan, a step keeps it so if and only if it does not move an assigned task to another agent, close a task of the agent with the empty id, or re-create an assigned task |
| `TaskManager.CleanRunIsExact` | agents/orchestrator/tasks/task-manager.js:98-201 | on every run without such steps the set of each agent is exactly the set of its assigned tasks |
| `TaskManager.GrowthRespectsCapacity` | agents/orchestrator/tasks/task-manager.js:113-130 | on every run no step takes an agent beyond its capacity |
| `TaskManager.AttemptsCountAssignments` | agents/orchestrator/tasks/task-manager.js:122-125 | on every run the attempt count of a task is the number of its assignments since it was created |
| `Discovery.DiscoveryService.RegisterService` | agents/orchestrator/discovery/discovery-service.js:24-47 | refuses a taken name; otherwise stores the record, its name and a zero load |
| `Discovery.DiscoveryService.DeregisterService` | agents/orchestrator/discovery/discovery-service.js:49-55 | removes record, name and load |
| `Discovery.DiscoveryService.RecordLoad` | agents/orchestrator/discovery/discovery-service.js:116-122 | stores the load and keeps the peak |
| `Discovery.DiscoveryService.GetLoadBalance` | agents/orchestrator/discovery/discovery-service.js:133-160 | one weight per distinct service, for any loads that do not make a score divide by zero |
| `Discovery.LeastLoadedIsFirstMinimum` | agents/orchestrator/discovery/discovery-service.js:124-131 | the selection is the first service that no other is less loaded than; an unknown load is infinite |
| `Discovery.StepKeepsIndexIff` | agents/orchestrator/discovery/discovery-service.js:24-55 | from an index that is the inverse of the service names, a step keeps it so if and only if it is not a registration whose random id collides |
| `Discovery.NameLookupIsExact` | agents/orchestrator/discovery/discovery-service.js:24-72 | on every run with fresh ids the index is the exact inverse, and a lookup by name finds exactly the service of that name |
| `Discovery.ServicesAreTheRegistered` | agents/orchestrator/discovery/discovery-service.js:24-55 | on every run with fresh ids a service is there if and only if it registered under a free name and did not deregister since |
| `Discovery.RegisteredWhen` | agents/orchestrator/discovery/discovery-service.js:24-47 | its record has its id and the name of that registration, or the id if none was given, and is healthy |
| `Discovery.DeregistrationFrees` | agents/orchestrator/discovery/discovery-service.js:49-55 | deregistering removes record and load, frees the name, and changes nothing about any other service |
| `Discovery.LoadIsLatest` | agents/orchestrator/discovery/discovery-service.js:24-122 | on every run the load of a service is the one recorded last since it registered, 0 at first |
| `Discovery.PeakIsLargestRecorded` | agents/orchestrator/discovery/discovery-service.js:116-122 | the peak of a service is the largest load ever recorded for it, or 0 |
| `Discovery.RunNonNegative` | agents/orchestrator/discovery/discovery-service.js:116-122 | on every run without negative loads a load never exceeds the recorded peak |
| `Discovery.ListedWeightsSumToOne` | agents/orchestrator/discovery/discovery-service.js:152-157 | the weights of at least two listed services sum to 1, position by position |
| `Discovery.WeightsSumToOneIff` | agents/orchestrator/discovery/discovery-service.js:133-160 | the values of the returned map sum to at most 1, and to exactly 1 if and only if no service is listed twice |
| `Discovery.WeightBounds` | agents/orchestrator/discovery/discovery-service.js:133-160 | each of n >= 2 weights lies in [1/(2n-1), 2/(n+1)] |
| `Discovery.LowerBoundIsTight` | agents/orchestrator/discovery/discovery-service.js:133-160 | the lower bound is attained by a service at the peak among idle ones |
| `Discovery.UpperBoundIsTight` | agents/orchestrator/discovery/discovery-service.js:133-160 | the upper bound is attained by an idle service among services at the peak |
| `Discovery.LowerLoadNeverSmallerWeight` | agents/orchestrator/discovery/discovery-service.js:142-157 | a lower load never gets a smaller weight |
| `Discovery.PeakIsMaximum` | agents/orchestrator/discovery/discovery-service.js:137-140 | the common peak is at least 1 and every single one, and is one of these |
| `Discovery.SingleServiceShowsItsLoad` | agents/orchestrator/discovery/discovery-service.js:148-150 | a single service gets its raw score, not 1 |
| `Discovery.NoPositiveTotalMeansEqualShares` | agents/orchestrator/discovery/discovery-service.js:152-157 | if the scores add up to nothing or less, all listed services share alike |

## Left out

- Express routing, request parsing and missing-field checks, file persistence, Sui RPC, TLS and metrics: input and output.
- Hashing, signatures and key exchange: their results are parameters.
- Vectors of unequal length and NaN entries: the source then computes with undefined values.
- Rounding of floating-point arithmetic, including the sums of squares and the refill of the token bucket.
- Overflow of 64-bit counters and of `len * 100` in the datapath: integers are unbounded.
- `normalizeUpdates` and the strategy switch of `aggregateUpdates`: they pass the buffer to one of the aggregations.
- `recordReport`, slashing and the statistics of the reputation tracker: not part of the feedback loop.
- VotingRounds.Server.FinishVote: takes the awaits for the commitment and for the file writes as one; nothing modelled is read or written between them, and a failing write acts like a failed commitment.
- Reputation.ReputationTracker.RegisterAgent: leaves out the fresh statistics and the empty edge history of the agent, which only report scoring reads.
- TokenBucket.RateLimiter.Acquire: is for a burst of at least 1; with less the source retries for ever, since by RetryGrantsIff no retry is granted.
- Proposals, tasks, cache entries and service records are values in maps; that the source hands out references to them is not captured.
- HybridProvider.Provider.DeriveSession: is one call alone; interleaved calls are runs of the steps that EndAttempt performs. A fractional retry count, the lifecycle timestamps and the readiness cache are not modelled.
- The text of the budget error is taken to be classified as `restart_budget_exceeded`.
- RestartBudget.IntervalBound: is for a constant configuration and no reset of the lifecycle state in between.
- Environment settings that are not numbers: the source then compares with NaN.
- Task deadlines, dependencies, batches, priority queue and reports; service metadata, capabilities and health checks.
- Validation and ordering of UI intents: the limiter is called after validation, and the queue is drained at once.
- Events, logging, statistics and health reports of the cache.
