# Verification model of ArbiScan

A Dafny model of the deterministic core of ArbiScan, an arbitrage scanner for sports
betting odds, with proofs of what its components promise:

* **Stake allocation** (`StakeConstraints`, `WaterFilling`, `StakeSearch`, `Allocation`,
  `Lifecycle`): the allocator finds a safe stake plan whenever one exists, and the one it
  returns has the greatest guaranteed payout of all safe plans and the least stakes that reach
  it; an opportunity reported actionable is safe whichever leg wins.
* **Live quotes** (`LiveQuotes`, `Consolidation`, `MultiSource`, with the run-level laws in
  `ConsolidationLaws`, `FeedRuns`, `FeedLaws`, `EvictionLaws`, `StoreLaws`): versioned stores
  per transport refine one flat map, conserve their counters, and evict without being
  observed exactly when no recent inactive version is stored.
* **Books and detection** (`Catalog`, `MarketBook`, `MarketBookLaws`, `BatchLaws`, `BookLaws`,
  `ArbitrageMath`): the best-price book shows an arbitrage exactly when the eligible quotes
  hold one.
* **Replay** (`Replay`, `Intervals`, `ReplayLaws`): offline replay sees at each instant what a
  live store would see, and its intervals are exactly the maximal runs of detections.
* **Matching** (`EventMatching`, `MatchingLaws`): indexed, cached matching decides what an
  exhaustive scan decides, and matches only a clear winner.
* **Evidence** (`AuditStore`, `EvidenceLaws`, `AuditLaws`): committed evidence survives every
  later run of writes and purges.
* **Codec** (`Codec`, `CodecLaws`, `CodecStrict`), **exchange settlement** (`Grouping`,
  `Exchange`, `ExchangeLaws`, `CommissionLaws`), **Asian handicaps** (`AsianHandicap`) and
  **aliases** (`Aliases`).

`NoteOrder` says in which order stores and books report their diagnostics. `Wrappers`, `Reals`,
`Ordering`, `Collections` and `Domain` hold what several modules share.
`dafny verify dfyconfig.toml` checks the whole project.

Money, odds and margins are exact reals. Identifiers and texts are integers, of which only
equality and order matter. Instants are microseconds; durations are microseconds between zero
and the longest representable one. Classes stand for the objects the program mutates: the
single-feed and multi-feed quote stores, the matcher with its cache, and the evidence store.
Where the program loops over changing state so does the model, proved against a specification
function or predicate; the laws are proved about those. A member whose name ends in `Means` or
`Mean` says what such a function or predicate decides by the fields of the entities alone.

Where a promise is false of the program the model says exactly when it holds. Evicting an
inactive version can be observed exactly when the version is newer than the freshness horizon
of the eviction (`EvictionLaws.UnobservableIffHarmless`, `StoreLaws.LiveUnobservableIffHarmless`;
`EvictionLaws.SuspendedSample` is a concrete case), so transparency holds for every run whose
evictions find no such version, and runs of active quotes are among them. Supplying a provider
can change the sport an alias means, and `Aliases.SportKeptIff` says when it does not. The
order of quotes shows in a batch exactly when a repeated id is first seen on different subjects
(`BatchLaws.BatchPermutesIff`).

## Model

| member | source | states |
|---|---|---|
| `Reals.FloorToGrid` | src/arbiscan/arbitrage/staking.py:56-59 | rounding down lands on the grid, less than one step below the value |
| `Reals.CeilToGrid` | src/arbiscan/arbitrage/staking.py:62-65 | rounding up lands on the grid, less than one step above the value |
| `StakeConstraints.LookUpConstraints` | src/arbiscan/arbitrage/staking.py:78-89 | the constraints by quote, or the first constraint that names a foreign quote or repeats one |
| `StakeConstraints.EffectiveConstraints` | src/arbiscan/arbitrage/staking.py:73-118 | the grid-rounded constraints admit exactly the stakes the stated ones admit; nothing is returned only if some leg admits no stake; each error is raised exactly when its constraint is the first that cannot be used |
| `StakeConstraints.EffectiveRepresents` | src/arbiscan/arbitrage/staking.py:104-117 | a rounded constraint accepts a stake if and only if the stated constraint does |
| `WaterFilling.ContinuousTargetPayout` | src/arbiscan/arbitrage/staking.py:121-170 | the greatest common payout whose stakes fit the bankroll and every cap; nothing exactly when the minimums alone exceed the bankroll |
| `WaterFilling.FillActiveLegs` | src/arbiscan/arbitrage/staking.py:131-161 | the filling loop ends by finding no violating leg and returns the exact affordability threshold; its two defensive exits are unreachable |
| `WaterFilling.FillOnce` | src/arbiscan/arbitrage/staking.py:136-155 | one iteration: the target does not rise, some leg stays active, and the fixed stakes stay within the bankroll |
| `WaterFilling.TargetsDescend` | src/arbiscan/arbitrage/staking.py:135-155 | from one iteration to the next the target never increases and removed legs stay violating |
| `WaterFilling.SomeLegStaysActive` | src/arbiscan/arbitrage/staking.py:144-155 | while the minimums fit the bankroll the active set never empties |
| `StakeSearch.EvaluateTargetPayout` | src/arbiscan/arbitrage/staking.py:189-216 | the least admissible stakes for a target with their rounded payouts and totals, or nothing if a cap forbids them |
| `StakeSearch.NextLowerPayoutBreakpoint` | src/arbiscan/arbitrage/staking.py:219-240 | the greatest positive payout below the target at which some stake could drop one increment |
| `StakeSearch.SkipsNothing` | src/arbiscan/arbitrage/staking.py:219-240 | every quantum-multiple target above the next breakpoint needs the same least stakes as the current one |
| `StakeSearch.LeastStakesReach` | src/arbiscan/arbitrage/staking.py:173-213 | the least stakes for a target guarantee at least that target |
| `StakeSearch.WalkStep` | src/arbiscan/arbitrage/staking.py:256-281 | if no safe plan pays more than the current target and the candidate fails, none pays more than the next breakpoint |
| `StakeSearch.VisitTarget` | src/arbiscan/arbitrage/staking.py:261-281 | a visited target returns the best plan, proves there is none, or bounds every safe plan by the next target; every safe plan of the returned payout stakes at least as much on every leg |
| `StakeSearch.FindSafeDiscretePlan` | src/arbiscan/arbitrage/staking.py:243-283 | the walk is complete and optimal: nothing means no safe stakes; a plan is safe, none guarantees more, and each that guarantees as much stakes at least as much on every leg; targets strictly descend, so the no-progress error cannot occur |
| `Allocation.AllocateStakes` | src/arbiscan/arbitrage/staking.py:286-391 | nothing exactly when no admissible stakes within the bankroll guarantee a positive profit at the threshold; otherwise such stakes, of greatest guaranteed payout and, leg by leg, least among those that reach it; errors exactly for the stated faults, each by the fields it looks at |
| `Allocation.BestPlanUnique` | src/arbiscan/arbitrage/staking.py:243-391 | any two best plans have the same stakes, total and guaranteed figures |
| `Allocation.NoLargerProfit` | src/arbiscan/arbitrage/staking.py:243-283 | no safe stakes that guarantee the plan’s payout guarantee a larger profit |
| `Allocation.RefusalMeans` | src/arbiscan/arbitrage/staking.py:303-346 | each refusal is given exactly when its own condition on the opportunity, the quotes and the amounts holds and no earlier one does |
| `Allocation.LimitsMean` | src/arbiscan/arbitrage/staking.py:73-118 | a stake is admissible exactly when it is a positive multiple of the quantum and of the leg’s increment within the stated minimum, maximum and limit |
| `Allocation.NoRoomNoPlan` | src/arbiscan/arbitrage/staking.py:106-109 | a leg whose cap is below its minimum leaves no safe plan |
| `ArbitrageMath.ExactImpliedSum` | src/arbiscan/arbitrage/core.py:51-60 | the sum of the reciprocals of the odds, or an error below two outcomes |
| `ArbitrageMath.Evaluate` | src/arbiscan/arbitrage/core.py:106-185 | the evaluation of a market from the exact implied sum, or the first check it fails |
| `ArbitrageMath.ArbitrageIffSumBelowOne` | src/arbiscan/arbitrage/core.py:159-173 | at threshold zero a market is an arbitrage if and only if its implied sum is below one |
| `ArbitrageMath.EvaluationMeans` | src/arbiscan/arbitrage/core.py:106-185 | which check a market fails first, and the odds, sums, margin and flag reported when it fails none, all by the fields of the quotes |
| `Lifecycle.RevalidateOpportunity` | src/arbiscan/lifecycle/evaluator.py:57-193 | an actionable result is safe end to end and its current margin is at least the opportunity’s less the allowed drift; each early reason is given exactly when it hinders and no reason checked earlier does; infeasible stakes are reported only if no safe plan exists within the exposure; the plan is the best one; an error is raised exactly when the market cannot be evaluated, the quotes belong elsewhere, or the stake constraints cannot be used |
| `Lifecycle.OnlyElsewhere` | src/arbiscan/lifecycle/evaluator.py:139-158 | past the early checks the allocator’s own checks can fail only because the quotes belong to another event or market |
| `Lifecycle.JudgePlan` | src/arbiscan/lifecycle/evaluator.py:165-193 | net profit and return are those the plan implies, compared with the floors in this order |
| `Lifecycle.NetProfitFactors` | src/arbiscan/lifecycle/evaluator.py:166-170 | net profit is gross profit times what commission leaves times what tax leaves, and stays positive |
| `LiveQuotes.LiveQuoteStore.Offer` | src/arbiscan/ingestion/realtime.py:240-339 | what one quote does to the current state, by the fields of the quote and of the stored version: verdict, diagnostics, and the accepted version |
| `LiveQuotes.JudgeMeans` | src/arbiscan/ingestion/realtime.py:240-339 | a quote is a duplicate exactly when it is on time and tells the same price, status, source ids and instant as the stored version; each other verdict has its own condition, with the tolerance as configured |
| `LiveQuotes.LiveQuoteStore.Apply` | src/arbiscan/ingestion/realtime.py:221-359 | the batch is the turns of its quotes in arrival order, each deciding by its own fields against the state it meets; the counters add up the turns, and every version is under its own key |
| `LiveQuotes.BatchMeans` | src/arbiscan/ingestion/realtime.py:221-359 | a batch unfolds into one turn per quote, in arrival order, whose versions and diagnostics make up the result |
| `LiveQuotes.LiveQuoteStore.FreshVersions` | src/arbiscan/ingestion/realtime.py:361-385 | exactly the active versions within window and tolerance of the instant, strictly in slot order |
| `LiveQuotes.LiveQuoteStore.EvictStale` | src/arbiscan/ingestion/realtime.py:406-451 | exactly the inactive versions and those older than the window leave the store, listed in slot order, each with the reason it went |
| `Consolidation.ConsolidateQuotes` | src/arbiscan/ingestion/multisource.py:112-209 | the loop over slots computes the slot-by-slot consolidation |
| `ConsolidationLaws.Characterisation` | src/arbiscan/ingestion/multisource.py:129-209 | strictly in slot order, one newest undisputed observation per slot; slots are the selected plus the conflicting ones, and exactly the disputed slots are reported |
| `ConsolidationLaws.ConsolidationMeans` | src/arbiscan/ingestion/multisource.py:112-209 | by the fields of the quotes: which observation is chosen for its slot, by instant, ingestion and id, which slots conflict, and what each diagnostic tells |
| `ConsolidationLaws.PermutationInvariant` | src/arbiscan/ingestion/multisource.py:129-209 | for distinct quote ids the result ignores the order of the observations |
| `ConsolidationLaws.Idempotent` | src/arbiscan/ingestion/multisource.py:129-209 | consolidating the executable quotes again returns exactly them |
| `ConsolidationLaws.OtherSlotsUntouched` | src/arbiscan/ingestion/multisource.py:131-150 | one more observation leaves every other slot alone |
| `ConsolidationLaws.OneMoreObservation` | src/arbiscan/ingestion/multisource.py:140-200 | an older observation changes nothing, a newer one takes the slot and lifts any conflict, an equally new different one suppresses it |
| `ConsolidationLaws.OnlyItsSlotChanges` | src/arbiscan/ingestion/multisource.py:129-209 | one more observation changes the whole result, counts included, only by how its own slot is settled |
| `MultiSource.MultiSourceLiveQuoteStore.InvalidateObservations` | src/arbiscan/ingestion/multisource_state.py:89-94 | the invalidated set grows by exactly these keys |
| `MultiSource.MultiSourceLiveQuoteStore.Apply` | src/arbiscan/ingestion/multisource_state.py:96-156 | each transport’s store takes its own quotes; accepted active versions lift invalidation; the reports are combined, notes in feed order |
| `MultiSource.MultiSourceLiveQuoteStore.FreshVersions` | src/arbiscan/ingestion/multisource_state.py:158-172 | exactly the fresh versions of all transports that are not invalidated, strictly in feed order |
| `MultiSource.MultiSourceLiveQuoteStore.Consolidate` | src/arbiscan/ingestion/multisource_state.py:178-182 | the consolidation of the fresh observations, remembered as the last one |
| `MultiSource.MultiSourceLiveQuoteStore.EvictStale` | src/arbiscan/ingestion/multisource_state.py:197-230 | evicts per transport, forgets the evicted observations’ invalidation, drops emptied stores, and lists the evicted versions and their diagnostics in order |
| `FeedRuns.StreamsStep` | src/arbiscan/ingestion/multisource_state.py:96-156 | one step of the whole store is one step of each observation stream on its own |
| `FeedRuns.TransportTakesTurns` | src/arbiscan/ingestion/multisource_state.py:96-156 | each transport’s part of the store after a batch is what the turns of its own quotes, in arrival order, leave there |
| `NoteOrder.ReportsInOrder` | src/arbiscan/ingestion/multisource_state.py:136-156 | a store’s diagnostics are ordered by provider and slot, those of all transports by slot, and then by the text of the code |
| `FeedRuns.SameViewIffSameLists` | src/arbiscan/ingestion/multisource_state.py:158-176 | two feeds offer the same fresh quote in every stream exactly when they list the same fresh observations |
| `EvictionLaws.UnobservableIffHarmless` | src/arbiscan/ingestion/realtime.py:406-425 | an eviction can never be observed, whatever operations follow, exactly when no inactive version newer than the freshness horizon is stored |
| `EvictionLaws.InsertionUnseenIff` | src/arbiscan/ingestion/realtime.py:406-425 | the same for an eviction put anywhere into a run from the empty feed |
| `EvictionLaws.HarmlessIffUnseen` | src/arbiscan/ingestion/realtime.py:406-425 | a run’s evictions are all harmless exactly when none of them, where it is, could ever be observed |
| `EvictionLaws.EvictionIsTransparent` | src/arbiscan/ingestion/multisource_state.py:158-213 | after any run whose evictions ascend and are harmless, fresh observations and executable quotes equal those of the run without evictions |
| `EvictionLaws.ActiveRunsHarmless` | src/arbiscan/ingestion/realtime.py:406-425 | in a run of active quotes every eviction is harmless |
| `EvictionLaws.InactiveEvictionIsVisible` | src/arbiscan/ingestion/realtime.py:415-417 | one case of an eviction that is observed: an older active quote is let in that the unevicted store rejects |
| `EvictionLaws.SuspendedSample` | src/arbiscan/ingestion/realtime.py:415-417 | concrete quotes for which that happens |
| `StoreLaws.SlotsStep` | src/arbiscan/ingestion/realtime.py:221-339 | one step of a single store is one step of each slot, whose quotes may come from several transports |
| `StoreLaws.LiveUnobservableIffHarmless` | src/arbiscan/ingestion/realtime.py:406-425 | in a single store an eviction can never be observed exactly when no inactive version newer than the freshness horizon is stored |
| `StoreLaws.LiveEvictionIsTransparent` | src/arbiscan/ingestion/realtime.py:361-425 | in a single store, after any run whose evictions ascend and are harmless, the fresh quotes equal those of the run without evictions |
| `StoreLaws.ActiveLiveRunsHarmless` | src/arbiscan/ingestion/realtime.py:406-425 | in a single store’s run of active quotes every eviction is harmless |
| `StoreLaws.LiveRunConsistent` | src/arbiscan/ingestion/realtime.py:240-339 | over any run of batches and evictions every version stays under its own key |
| `FeedLaws.RefinesFlatMap` | src/arbiscan/ingestion/multisource_state.py:89-213 | over any run of batches, invalidations and evictions the per-transport stores and the invalidated set are those of one flat map keyed by transport and slot |
| `FeedLaws.OthersDoNotMatter` | src/arbiscan/ingestion/multisource_state.py:107-135 | over any run a transport’s streams become what they would become if every other transport were silent |
| `FeedLaws.TransportsIndependent` | src/arbiscan/ingestion/multisource_state.py:107-135 | two runs that agree on one transport leave its streams alike, whatever the others sent |
| `FeedLaws.FeedBatchConserves` | src/arbiscan/ingestion/multisource_state.py:111-156 | added, updated, duplicate and rejected add up to the batch, and accepted revisions to the growth of the store |
| `FeedLaws.RunConserves` | src/arbiscan/ingestion/multisource_state.py:96-213 | over any run everything accepted is still a live revision or was evicted |
| `FeedLaws.HoldsGreatestInstant` | src/arbiscan/ingestion/realtime.py:281-339 | with zero tolerance, between evictions, a stream holds the greatest instant among what it held and its quotes that passed the clock checks |
| `FeedLaws.WindowIrrelevant` | src/arbiscan/ingestion/realtime.py:221-359 | without evictions the freshness window has no effect on the stored state |
| `FeedLaws.ReplayAgreesWithLive` | src/arbiscan/backtesting/replay.py:101-113 | an unbounded store filtered by the window afterwards offers what a live store with that window offers, whatever it harmlessly evicted |
| `Catalog.BuildRegistry` | src/arbiscan/matching/catalog.py:84-127 | every index answers what a scan would; fails exactly when an id repeats or a reference dangles |
| `MarketBook.BestQuote` | src/arbiscan/marketbook/builder.py:46-60 | a candidate to which none is preferred: price, then freshness, then lexical identity |
| `MarketBook.ClassifyQuotes` | src/arbiscan/marketbook/builder.py:130-250 | eligible quotes by market and selection, and one note per rejected quote or repeated id |
| `MarketBook.BuildMarketBooks` | src/arbiscan/marketbook/builder.py:75-351 | the sorted books and notes of the scoped markets, or the scope’s fault |
| `BookLaws.AdmissionMeans` | src/arbiscan/marketbook/builder.py:130-250 | each objection to a quote is raised exactly when its own condition holds and none that is looked for earlier does |
| `BookLaws.BookForMeans` | src/arbiscan/marketbook/builder.py:260-346 | a market has a book exactly when its event is scheduled and starts strictly later, at least two selections are listed and each has an eligible quote; the note otherwise is the first of these that fails; a book offers per selection a quote no other beats |
| `BookLaws.BatchMeans` | src/arbiscan/marketbook/builder.py:75-351 | over the registry and the quotes: exactly the books that are due, one per market and strictly in order, and exactly the notes on quotes and on markets without a book |
| `BookLaws.ScopeMeans` | src/arbiscan/marketbook/builder.py:88-121 | exactly which windows and scopes are refused, and that the markets visited are those asked for, or all |
| `NoteOrder.BatchInOrder` | src/arbiscan/marketbook/builder.py:63-72 | the notes are ordered by event and market, then by the text of the code, then by selection, provider and quote |
| `MarketBookLaws.NotesExplained` | src/arbiscan/marketbook/builder.py:130-250 | every rejected quote, or the first of those that share a repeated id, has exactly one note, in the order of the quotes |
| `MarketBookLaws.WinIffLowSum` | src/arbiscan/marketbook/builder.py:313-324 | over all eligible quotes some stakes win on every outcome if and only if the best prices’ implied sum is below one |
| `MarketBookLaws.DetectionComplete` | src/arbiscan/marketbook/builder.py:260-346 | an emitted book evaluates, and to an arbitrage exactly when some stakes over all eligible quotes win on every outcome |
| `MarketBookLaws.BookHasLeastSum` | src/arbiscan/marketbook/builder.py:313-324 | no one-per-selection choice has a smaller implied sum |
| `MarketBookLaws.BooksPermute` | src/arbiscan/marketbook/builder.py:124-351 | the emitted books ignore the order of the quotes |
| `BatchLaws.BatchPermutesIff` | src/arbiscan/marketbook/builder.py:63-351 | the whole batch, sorted notes included, ignores the order of the quotes exactly when every repeated id is first seen on the same event, market, selection and provider |
| `BatchLaws.NotesDistinct` | src/arbiscan/marketbook/builder.py:63-72 | no two notes tie in the final order, so their details never decide it |
| `BatchLaws.QuoteNotesMembers` | src/arbiscan/marketbook/builder.py:127-247 | the notes on quotes are those of rejected quotes with their own id and of the first quote of each repeated id |
| `BatchLaws.SharedIdShowsOrder` | src/arbiscan/marketbook/builder.py:127-141 | any two quotes of different providers that share an id: the note names whichever comes first |
| `MarketBookLaws.NewQuoteJoins` | src/arbiscan/marketbook/builder.py:130-250 | a quote with a new id joins the eligible quotes or leaves them unchanged |
| `MarketBookLaws.NewQuoteNeverRaisesSum` | src/arbiscan/marketbook/builder.py:295-324 | one more eligible quote never raises a book’s implied sum |
| `MarketBookLaws.EmittedBooks` | src/arbiscan/marketbook/builder.py:260-346 | the emitted books are exactly those of the scoped markets that have one |
| `Replay.AdvanceTo` | src/arbiscan/backtesting/replay.py:198-204 | exactly the batches available by the instant have been applied, once and in order |
| `Replay.StrictQuotesAreLive` | src/arbiscan/backtesting/replay.py:164-211 | the replay’s strict quotes are what a live store with the configured window returns after the same batches |
| `Replay.LiveQuotesUnique` | src/arbiscan/backtesting/replay.py:206-211 | those live quotes are determined by the batches and the instant |
| `Replay.DetectAt` | src/arbiscan/backtesting/replay.py:212-263 | one detection, with what revalidation concludes, for exactly the markets whose book is an arbitrage; it fails only at an arbitrage whose stake constraints cannot be used |
| `Replay.OwnQuotes` | src/arbiscan/backtesting/replay.py:236-250 | an opportunity revalidated against the quotes it was built from can only be stale |
| `Replay.NeverBoth` | src/arbiscan/backtesting/replay.py:212-263 | an instant that has a row is not one at which detection fails |
| `Replay.RunBacktest` | src/arbiscan/backtesting/replay.py:138-412 | every row is the detection over the live quotes of its instant, and the report lists exactly those detections and their runs; otherwise the scope is at fault, an instant is out of range, or the replay ends at the first instant whose detection fails |
| `Replay.TimesFollowBatches` | src/arbiscan/backtesting/replay.py:158-160 | the detection instants are the batches’ instants plus the latency, in order |
| `Replay.AllBatchesKnown` | src/arbiscan/backtesting/replay.py:197-204 | at the last detection instant the whole corpus has been applied |
| `Replay.DetectedIffWinnable` | src/arbiscan/backtesting/replay.py:212-263 | at margin zero a market is detected exactly when it has a book and its eligible live quotes can be staked to win on every outcome |
| `ReplayLaws.DetectedMeans` | src/arbiscan/backtesting/replay.py:212-263 | a market is detected exactly when a book is due for it and the reciprocals of its prices leave at least the margin |
| `ReplayLaws.ReplayRowMeans` | src/arbiscan/backtesting/replay.py:197-263 | a row of the replay holds one detection for each such market, with the prices, sums and revalidation of its book over the batches known by then |
| `Intervals.Track` | src/arbiscan/backtesting/replay.py:350-381 | one instant closes what stopped, opens what started and extends the rest |
| `Intervals.Finish` | src/arbiscan/backtesting/replay.py:383-412 | the intervals are exactly the maximal runs, strictly ordered, and their counts add up to the detections |
| `Intervals.DetectionsCovered` | src/arbiscan/backtesting/replay.py:350-391 | an instant at which a market was an arbitrage lies in one of its intervals |
| `Intervals.CoveredWereDetected` | src/arbiscan/backtesting/replay.py:350-391 | at every instant inside an interval its market was an arbitrage |
| `Intervals.Chronological` | src/arbiscan/backtesting/replay.py:350-412 | intervals of one market are disjoint and in time order |
| `EventMatching.TimeScore` | src/arbiscan/matching/event_matcher.py:34-37 | between 0 and 2000, full only at no difference, zero from the tolerance on |
| `EventMatching.EventMatcher.Match` | src/arbiscan/matching/event_matcher.py:90-107 | returns the uncached decision and leaves the cache holding exactly the most recently used distinct evidences |
| `EventMatching.EventMatcher.MatchUncached` | src/arbiscan/matching/event_matcher.py:109-207 | the loop over candidate events computes the decision |
| `EventMatching.CreateMatcher` | src/arbiscan/matching/event_matcher.py:60-83 | fails exactly when metadata repeats an event or names an unknown one |
| `EventMatching.NewestRecent` | src/arbiscan/matching/event_matcher.py:95-106 | using one more evidence moves it to the end or drops the oldest beyond the capacity |
| `EventMatching.RecentInOrder` | src/arbiscan/matching/event_matcher.py:95-106 | the cached evidences are ordered by their last use |
| `MatchingLaws.SurvivesIff` | src/arbiscan/matching/event_matcher.py:240-330 | an event survives exactly when every hard filter passes |
| `MatchingLaws.EvaluationMeans` | src/arbiscan/matching/event_matcher.py:234-351 | an event is rejected for the first filter it fails; otherwise its confidence is 7000, plus up to 2000 for the start, 400 and 300 for an equal stage and venue and 1000 for an exact reference, at most 10000 |
| `MatchingLaws.DecisionMeans` | src/arbiscan/matching/event_matcher.py:109-207 | which candidates a decision lists, in what order, and exactly which diagnostics it gives |
| `MatchingLaws.LookedMeans` | src/arbiscan/matching/event_matcher.py:113-122 | the events that are looked at are those of the same sport, competition and participants, or all of them |
| `MatchingLaws.HardFilterNoteMeans` | src/arbiscan/matching/event_matcher.py:209-232 | with no event to look at, the note names the first of sport, competition and participants that no event shares |
| `MatchingLaws.CloserIsNoLessConfident` | src/arbiscan/matching/event_matcher.py:285-338 | starting closer never lowers the confidence |
| `MatchingLaws.MatchingRefinesExhaustive` | src/arbiscan/matching/event_matcher.py:113-207 | status, event, confidence and candidates do not depend on the index or on the registry’s order |
| `MatchingLaws.MatchedIffClearWinner` | src/arbiscan/matching/event_matcher.py:135-207 | matched exactly when one candidate leads all other eligible ones by more than the margin; rejected exactly when none is eligible |
| `AuditStore.Store.Upsert` | src/arbiscan/persistence/store.py:322-350 | stores new content with its audit event, accepts identical content, refuses different content |
| `AuditStore.Store.PersistQuotes` | src/arbiscan/persistence/store.py:127-142 | all quotes are stored or none |
| `AuditStore.Store.PersistOpportunity` | src/arbiscan/persistence/store.py:144-216 | the opportunity and all its evidence are stored or nothing is |
| `AuditStore.Store.PurgeQuotesBefore` | src/arbiscan/persistence/store.py:292-303 | deletes exactly the old quotes no opportunity refers to |
| `AuditLaws.PurgeMeans` | src/arbiscan/persistence/store.py:292-303 | a purge keeps all but the quotes ingested strictly before the cutoff that no opportunity refers to |
| `AuditLaws.PersistQuotesMeans` | src/arbiscan/persistence/store.py:127-142 | quotes are stored exactly if none collides with different content under its id, and then the store holds them, nothing else is new, and every new row is audited |
| `AuditLaws.PersistOpportunityMeans` | src/arbiscan/persistence/store.py:144-216 | each reason a write of an opportunity is refused for, by the opportunity, its quotes and the stored rows; otherwise it is committed |
| `AuditLaws.CommittedRows` | src/arbiscan/persistence/store.py:144-216 | a committed write leaves the last quote given for each id, the opportunity and the plan, each new row with its event, provider and instant |
| `AuditStore.Store.Reconstruct` | src/arbiscan/persistence/store.py:218-246 | loads the quotes link by link up to the first that is missing, then the plan, and refuses evidence that does not fit together |
| `EvidenceLaws.StepKeeps` | src/arbiscan/persistence/store.py:144-303 | no write, failed or not, and no purge overwrites stored content or removes referenced evidence; the audit trail only grows |
| `EvidenceLaws.EvidenceSurvives` | src/arbiscan/persistence/store.py:144-303 | over every run from a sound store a stored opportunity reconstructs with the same quotes in order, and a recorded plan never changes |
| `EvidenceLaws.CommittedSurvives` | src/arbiscan/persistence/store.py:144-303 | after any run from the empty store, what a committed write stored reads back exactly, after every later run of writes, failed writes and purges |
| `EvidenceLaws.ReachableReadsBack` | src/arbiscan/persistence/store.py:218-246 | in every store a run from the empty one reaches, each stored opportunity reconstructs, and keeps its evidence ever after |
| `EvidenceLaws.CommittedReadsBack` | src/arbiscan/persistence/store.py:144-246 | a committed write reads back as exactly what was written |
| `EvidenceLaws.StoredReadsBack` | src/arbiscan/persistence/store.py:218-246 | in every sound store each stored opportunity reconstructs |
| `EvidenceLaws.PlanStored` | src/arbiscan/persistence/store.py:190-214 | a plan that is accepted is always recorded: an ignored insert cannot lose it |
| `CodecLaws.RoundTrip` | src/arbiscan/domain/serialization.py:102-119 | decoding an encoded canonical value returns it |
| `CodecLaws.DumpsLoads` | src/arbiscan/domain/serialization.py:263-301 | loading what was dumped returns it |
| `CodecStrict.DumpsMeans` | src/arbiscan/domain/serialization.py:102-119 | a value cannot be dumped exactly when there is a list anywhere in it |
| `CodecStrict.DecodedIsEncoded` | src/arbiscan/domain/serialization.py:189-260 | what decodes is the encoding of the value it decodes to, provided its tagged texts are ones that showing writes and its quotes state their transport |
| `CodecStrict.LoadsMeans` | src/arbiscan/domain/serialization.py:269-301 | only an envelope of exactly version and payload loads, only at versions 1 to 3, and only as the expected type |
| `CodecStrict.LegacyRefusedIff` | src/arbiscan/domain/serialization.py:149-167 | a document is refused for want of a provider exactly when its version is 1 and a quote anywhere in it states neither transport nor provider |
| `CodecStrict.CurrentLoadsStrictly` | src/arbiscan/domain/serialization.py:269-301 | under the same provision a document of the current version loads only as the value whose dump it is |
| `CodecLaws.EncodesCurrent` | src/arbiscan/domain/serialization.py:102-119 | every encoded value is a payload of the current schema |
| `CodecLaws.MigrationsKeepCurrent` | src/arbiscan/domain/serialization.py:149-186 | both migrations leave current payloads unchanged |
| `CodecLaws.MigrateV1Restores` | src/arbiscan/domain/serialization.py:149-167 | the first migration restores every omitted transport and never fails on such payloads |
| `CodecLaws.MigrateV2Restores` | src/arbiscan/domain/serialization.py:170-186 | the second migration restores omitted null market fields at any depth |
| `CodecLaws.LegacyPayloadLoads` | src/arbiscan/domain/serialization.py:285-301 | a payload of any version with newer members left out where they say nothing new loads as the same value |
| `CodecLaws.DroppedLoadsAsLegacy` | src/arbiscan/domain/serialization.py:149-186 | dropping everywhere the fields newer than version 1 or 2 loads as the value with, before version 2, transport the provider and, before version 3, null set and subject |
| `CodecLaws.NullTransportIsProvider` | src/arbiscan/domain/serialization.py:254-258 | a null transport decodes as the provider |
| `Exchange.LayLiability` | src/arbiscan/arbitrage/exchange.py:266-276 | positive for every positive stake at odds above one |
| `Exchange.PlaceStake` | src/arbiscan/arbitrage/exchange.py:124-141 | a stake is matched exactly when the price has no blocker and the liquidity suffices, and the match keeps every term of the observation |
| `Exchange.CheckLiquidity` | src/arbiscan/arbitrage/exchange.py:331-384 | the loop decides whether the stakes at every price level fit the least liquidity seen there |
| `Exchange.EvaluateScenario` | src/arbiscan/arbitrage/exchange.py:402-449 | gross result, netted commission and net result of one outcome |
| `Exchange.EvaluatePortfolio` | src/arbiscan/arbitrage/exchange.py:279-474 | evaluates exactly the portfolios in one market with liquidity and agreeing rates, and reports every outcome |
| `CommissionLaws.RatesConflictIff` | src/arbiscan/arbitrage/exchange.py:386-399 | rates conflict exactly when two stakes of one exchange and scope differ in rate |
| `CommissionLaws.ChargedApart` | src/arbiscan/arbitrage/exchange.py:423-445 | stakes that share no exchange and scope are charged apart: the commission on both is the sum of the commissions |
| `CommissionLaws.OneAccountCharge` | src/arbiscan/arbitrage/exchange.py:423-445 | stakes of one exchange and scope at one rate pay that rate on what they win together, and nothing on a loss |
| `CommissionLaws.OutcomeMeans` | src/arbiscan/arbitrage/exchange.py:402-449 | the gross result of an outcome is the sum of what each stake wins or loses by its side, odds and selection |
| `CommissionLaws.EvaluableMeans` | src/arbiscan/arbitrage/exchange.py:279-399 | which portfolios are evaluated, by the fields of the stakes |
| `CommissionLaws.EvaluatedMeans` | src/arbiscan/arbitrage/exchange.py:401-474 | one outcome per expected selection in order, the least net result, the flag and the lay liability |
| `ExchangeLaws.PermutationInvariant` | src/arbiscan/arbitrage/exchange.py:279-474 | evaluation ignores the order of the legs |
| `ExchangeLaws.SplitInvariant` | src/arbiscan/arbitrage/exchange.py:331-474 | splitting a stake at one price level changes nothing, liquidity check included |
| `ExchangeLaws.NettingNeverCostsMore` | src/arbiscan/arbitrage/exchange.py:438-445 | commission on netted winnings is at most the commission on each leg alone |
| `ExchangeLaws.LiquidityWithOneMore` | src/arbiscan/arbitrage/exchange.py:331-384 | one more stake keeps the liquidity check exactly when there is room for it at its price level |
| `ExchangeLaws.LayEqualsMirroredBack` | src/arbiscan/arbitrage/exchange.py:331-474 | in a two-selection market a lay stake and its mirrored back stake, each with room at its level, make both portfolios evaluable with the same outcomes, guaranteed profit and arbitrage flag |
| `ExchangeLaws.LossBounded` | src/arbiscan/arbitrage/exchange.py:401-465 | no outcome loses more than all stakes and lay liabilities together |
| `ExchangeLaws.ArbitrageIffEveryOutcomeWins` | src/arbiscan/arbitrage/exchange.py:466-474 | the flag is set exactly when every outcome nets a profit |
| `AsianHandicap.SettleAsianHandicap` | src/arbiscan/domain/asian_handicap.py:156-209 | settlement and return read off the quarter-goal distance; the combination check’s error branch is unreachable |
| `AsianHandicap.ComponentsAverage` | src/arbiscan/domain/asian_handicap.py:111-153 | the fractions make one and the lines average to the line |
| `AsianHandicap.MirrorSwaps` | src/arbiscan/domain/asian_handicap.py:156-209 | negating line and goal difference swaps wins and losses and fixes pushes |
| `AsianHandicap.HalfGoalIffTwoOutcomes` | src/arbiscan/domain/asian_handicap.py:85-88 | a line is a half-goal line exactly when it only ever wins or loses |
| `AsianHandicap.EqualisedStakesSafe` | src/arbiscan/domain/asian_handicap.py:156-209 | equalised stakes on both sides with implied sum below one never lose, and always win exactly when the line is not an integer |
| `Aliases.ResolveCompetition` | src/arbiscan/normalization/aliases.py:117-167 | by the aliases’ own fields: resolves exactly when one meaning is confirmed and no other is tolerated by the context; ambiguous exactly when several are tolerated, listing them |
| `Aliases.ResolveParticipant` | src/arbiscan/normalization/aliases.py:209-258 | by the aliases’ own fields: resolves exactly when one meaning is confirmed and no other is tolerated by the context; ambiguous exactly when several are tolerated, listing them |
| `Aliases.ResolutionMonotone` | src/arbiscan/normalization/aliases.py:261-266 | supplying missing context never changes a resolved meaning |
| `Aliases.SportKeptIff` | src/arbiscan/normalization/aliases.py:47-70 | a sport resolved without a provider survives supplying one exactly when that provider’s own entries agree |
| `Aliases.SportMayChange` | src/arbiscan/normalization/aliases.py:52-59 | a concrete catalog where supplying the provider changes the sport |

## Left out

- Decimal contexts: 60-digit rounding is not modelled; `staking.py`, `exchange.py` and the margins are computed in exact reals, as `core.py` does with fractions.
- Identifiers, texts and their normalisation, time zones, and the wording of diagnostics: opaque values; a diagnostic keeps only its code and subject.
- Type checks on arguments: the types of the model rule those calls out.
- MultiSource.MultiSourceLiveQuoteStore.Apply: sub-stores are held by their state rather than as shared objects, so aliasing between a sub-store and the outer store is not captured.
- MarketBook.BuildMarketBooks: the per-book diagnostic lists and freshness spans are not modelled; a book determines the latter.
- Catalog.BuildRegistry: models events, markets, selections and their indexes; competitions, participants as objects, and the per-kind rules for markets and selections are not modelled.
- Replay.RunBacktest: the scope is a list of market ids; which market kinds the generic detector supports, per-provider metrics and stale false positives with the revalidations behind them, summary durations and the texts of opportunity and plan ids are not modelled.
- Exchange.EvaluatePortfolio: when several checks fail at once, which of two market errors is reported depends on leg order; each error is only tied to its own condition.
- AuditStore.Store.Reconstruct: payloads are stored values, justified by the codec's round trip; SQL statements, connections, indexes, schema migrations and the audit events' times are not modelled, nor is loading a date range of quotes.
- CodecLaws.RoundTrip: assumes of the standard library only that reading a decimal, an instant or a type name undoes writing it, and of each constructor that it accepts the fields of the values it made; JSON text, key order and floats are not modelled.
- CodecLaws.DroppedLoadsAsLegacy: applies when the legacy value is one the constructors accept, since a market that needs a set or a subject has no older form.
- Aliases.Resolve: reports ambiguous meanings as a set; their sorting is not modelled.
- Asynchronous polling, retries, rate limits and health tracking: plumbing with only easy bounds.
- Provider adapters, HTTP transports, the API, the dashboard, observability and benchmarks: input and output.
- `refundable.py`, `outrights.py`, `market_support.py`, `odds.py`: branch tables that would add only easy members.
