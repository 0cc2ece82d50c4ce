# Trading robot: verified protocols

A Dafny model of the stateful safety protocols of the trading robot, with proofs about every
run of them. `dafny verify dfyconfig.toml` checks everything.

What is modelled, in the robot's own terms:

- **Live entry** (`Idempotency`, `LiveProtocol`, `LiveRace`, `LiveRunner`). The append-only lock log; the
  order of durable effects of one basket leg (lock, plan record, broker, trade record, lock
  update) as single steps with a crash allowed between any two; and the basket-aware runner
  itself. The runner is a class. Each of its methods changes the log and the store in place and
  returns the protocol steps it took, so what is proved about every run of the protocol holds
  for the runner. Each method's contract also says exactly what it did: the order of the
  refusals, which leg stops a basket, which locks remain. Beside it `LiveRace` lets a second gate
  evaluation, such as the background tick's, release locks while the runner goes on.
- **Candles and sessions** (`Candles`, `CandleAggregator`, `Session`). The bucketing loop with
  its re-aggregation of the whole buffer, the batch definition it equals on time-ordered feeds,
  nesting of longer candles, and the opening-range state machine up to the armed setup.
- **Opening-range paper trading** (`OrbAudit`, `OrbExecution`, `OrbExit`, `OrbEvidence`,
  `OrbAgreement`). Proposal store, executor and exit manager write one audit log; the evidence
  ledger rebuilds proposals and trades from it. The main result is exactly when the rebuilt
  ledger is the live state after every step of a run.
- **Broker fills** (`FillMerge`, `FillIngest`, `FillRuns`). Partial fills, late reports and
  redelivery as a merge of records, exactly when it is confluent, conservation of the profit on
  record over whole runs, and outcomes emitted once.
- **Baskets** (`Basket`). Greedy choice under cash, sector and size caps; floor-division
  resizing under a shared stop-risk budget.
- **Two thread protocols** (`Supervisor`, `Outlook`). Calls as interleaved atomic steps, next to
  the objects as they behave when calls do not overlap.
- **Folds** (`Drawdown`, `EvidenceReads`, `ExitPass`). Running drawdown and losing streaks,
  bounded newest-first reads, and the two-phase exit pass with its exits by symbol.

Classes stand for the robot's objects. Their methods are proved against functions on values,
such as `Step`, `Apply` or `Aggregate`, and the lemmas are about those functions. For each operation
some of them state what a call decides in the fields of its arguments, without those functions.
Times are integers (minutes or seconds, already in market time), prices and amounts are exact reals, and
what the broker, the clock, the file system or another service answers is a parameter.

Where the code does not do what its documentation suggests, the code is kept; see "Findings".

## Findings

Properties that fail of the code, each with a failing input. "And only then" marks a condition
that is proved both ways.

- Accepted entries of one symbol separated by a CLEAR: fails when an operator clears a key that a
  leg holds short of the broker, and only then (`LiveProtocol.OperatorClearIsSafeExactly`,
  `LiveProtocol.UnguardedRun`). `mark_submitted` revives a cleared lock
  (`Idempotency.MarkRevivesClearedLock`).
  It also fails when a second gate evaluation clears such a key on the strength of a lock it
  listed earlier, and only then; no operator is needed (`LiveRace.ReleaseIsSafeExactly`,
  `LiveRace.StaleClearRun`).
- Limit on open trades: fails when the reconciler puts a trade back to OPEN with no free slot, and
  only then (`LiveRunner.RunsStayWithinLimits`, `LiveRunner.RevertExceedsLimit`).
- Keys separate symbols and legs: fails for symbols with a colon (`Idempotency.ColonSymbolNamesALeg`,
  `Idempotency.PlainSymbolNeverNamesALeg`).
- Emitted candles stay: fails when a bar falls into a bucket just completed, and only then
  (`Candles.AppendExactly`, `Candles.BarOfFullBucketRetracts`). A bucket of a whole day ignores
  midnight (`CandleAggregator.DayBucketIgnoresMidnight`).
- Sessions move forward only: fails on a late bar of the opening window, and only then
  (`Session.BackwardExactly`, `Session.LateBarMovesBackward`).
- The rebuilt ledger is the live state: fails when a fill is reported of a trade that does not
  take it, or a failure of one that has not failed, and only then
  (`OrbAgreement.LedgerAlwaysLiveExactly`). For a pending entry reported failed it misses only the
  exit reason: the store says BROKER_FAILURE, the ledger nothing
  (`OrbAgreement.FailedEntryHasNoReason`); let that off, and it fails for the other reports only.
  Executing a proposal again after its trade ended makes one of those
  (`OrbAgreement.ExecutingAgainReopensTheLedger`, `OrbAgreement.LedgerGoesStale`).
- The filtered ledger is the restriction of the full one: fails when a trade has execution records
  of two sessions, and only then (`OrbEvidence.FilterExactly`, `OrbEvidence.MisfilteredBy`).
- EXECUTED means having a trade: fails when a card is added again under a traded identifier, and
  only then (`OrbExecution.LinkedExactly`, `OrbExecution.ReaddingUnlinks`).
- Order of fill reports does not matter: fails when reports contradict each other
  (`FillMerge.ConfluentExactly`), or when an exit order outside the bracket and a child of the
  bracket both have something new to tell, and only then (`FillRuns.OutsideExitOrderMatters`).
- Recorded P&L is the cash that changed hands: fails for unequal quantities
  (`FillIngest.PnlConservedExactly`), and over runs when what is reported after the last settlement
  does not even out, an exit reported before its entry included, and only then
  (`FillRuns.RecordedPnlEvensOut`, `FillRuns.RecordedPnlExactly`, `FillRuns.ExitBeforeEntry`,
  `FillRuns.RecordedPnlWithoutLateShares`, `FillIngest.LateEntryCommissionIsLost`). Fractions of a
  share are dropped (`FillIngest.FractionsAreDropped`). `trades_closed` counts a trade again
  (`FillIngest.ClosedIsCountedAgain`).
- The selected list of a basket matches its legs: fails when the budget of a leg parts two chosen
  plans of one symbol, and only then (`Basket.BasketMatchesExactly`). At given equity and cash some
  fraction at risk does so if and only if two chosen plans are split
  (`Basket.SelectionMatchesExactly`, `Basket.SharedSymbolMisleads`).
- A pass never oversells: fails when the legs the holding covers one by one exceed it together,
  and only then (`ExitPass.NeverOversoldExactly`, `ExitPass.TwoLegsOversell`).
- A drawdown demotion persists: fails for an outcome dated before existing ones unless one side of
  its date falls far enough alone, and only then (`Drawdown.InsertedOutcomeExactly`,
  `Drawdown.EarlierOutcomeCanLift`).
- No tick after a fault: fails for overlapping calls (`Supervisor.OverlapTicksAfterFault`,
  `Supervisor.TickUnderPauseExactly`). Waiters wait for the generation to end: a waiter can wake
  early (`Outlook.WaiterCanWakeEarly`).

## Model

| member | source | states |
|---|---|---|
| `Idempotency.NormalizeIdempotent` | autonomous/idempotency.py:124-135 | trimming and upper-casing twice is doing it once, so the runner's already normalised symbol and the plan's own symbol name one key |
| `Idempotency.CapitalsExactly` | autonomous/idempotency.py:124-135 | small letters a to z become the corresponding capitals and no other character changes |
| `Idempotency.KeysEqualExactly` | autonomous/idempotency.py:124-135 | two keys for one action are equal exactly when their symbol/basket/leg suffixes are |
| `Idempotency.SymbolKeysSeparate` | autonomous/idempotency.py:124-135 | keys of live entries, which carry no basket or leg, separate symbols exactly up to trimming and case |
| `Idempotency.KeyReads` | autonomous/idempotency.py:124-135 | the key of a live entry reads autonomous-live:BUY: and the symbol |
| `Idempotency.PlainSymbolNeverNamesALeg` | autonomous/idempotency.py:124-135 | a symbol without a colon never has the key of another symbol's basket leg |
| `Idempotency.ColonSymbolNamesALeg` | autonomous/idempotency.py:124-135 | with a colon it can: a concrete pair of different symbols with one key |
| `Idempotency.ReplayIsLastLine` | autonomous/idempotency.py:246-262 | the current lock of a key is the one on the last line written for it, whatever else the log holds |
| `Idempotency.ReplayAbsent` | autonomous/idempotency.py:246-262 | a key no line was written for has no lock |
| `Idempotency.CallRefinesMap` | autonomous/idempotency.py:137-221 | one operation on the log has the effect of the same operation on an in-memory map |
| `Idempotency.LogRefinesMap` | autonomous/idempotency.py:137-262 | for every history of acquire, mark and clear with blank or unparsable lines anywhere, replaying the file gives the map those operations would have built in memory |
| `Idempotency.LocksSay` | autonomous/idempotency.py:137-214 | what the operations write into a lock: a fresh one names no order and no trade, a mark keeps those there were unless it names others, a clear keeps both |
| `Idempotency.HistoriesAreDisciplined` | autonomous/idempotency.py:137-214 | in every history each ACQUIRE line found its key inactive and every line carries the status its operation writes |
| `Idempotency.ActiveUntilCleared` | autonomous/idempotency.py:137-214 | an active key stays active as long as no line clears it |
| `Idempotency.AcquiresAreSeparatedByClear` | autonomous/idempotency.py:137-178 | between two successful acquisitions of one key there is always a CLEAR of that key |
| `Idempotency.MarkRevivesClearedLock` | autonomous/idempotency.py:180-202 | marking a cleared lock as submitted makes it active again without an acquisition |
| `Idempotency.ActiveExactly` | autonomous/idempotency.py:74-77 | a key is active exactly when a line was written for it and the last one is not a CLEAR |
| `Idempotency.IdempotencyStore.ReplayUnlocked` | autonomous/idempotency.py:246-262 | the loop over the lines computes the replayed map |
| `Idempotency.IdempotencyStore.Acquire` | autonomous/idempotency.py:137-178 | succeeds exactly when the key is inactive; then one line is appended, otherwise the existing lock is returned and nothing is |
| `Idempotency.IdempotencyStore.MarkSubmitted` | autonomous/idempotency.py:180-202 | appends the submitted lock whatever its status was; fails exactly for an unknown key |
| `Idempotency.IdempotencyStore.Clear` | autonomous/idempotency.py:204-214 | the key is inactive afterwards; nothing is appended for an unknown key |
| `LiveProtocol.AppendKeepsHistory` | autonomous/live_basket_patch.py:79-246 | a line that fits (an ACQUIRE of an inactive key, a CLEAR justified by a terminal trade or an operator where that is promised, a mark for the right order) keeps every promise about past entries |
| `LiveProtocol.AcquireKeepsInv` | autonomous/live_basket_patch.py:90-111 | taking the lock keeps the invariant, whether granted or refused |
| `LiveProtocol.AcceptKeepsInv` | autonomous/live_basket_patch.py:135-146 | the broker's acceptance keeps it: all earlier entries of the key had been cleared |
| `LiveProtocol.MarkKeepsInv` | autonomous/live_basket_patch.py:239-245 | the lock update after acceptance keeps it |
| `LiveProtocol.ReleaseKeepsInv` | autonomous/autonomous_live_runner.py:1287-1317 | the gate pass keeps it: a lock is cleared only when its own recorded trade is terminal |
| `LiveProtocol.StepKeepsInv` | autonomous/live_basket_patch.py:79-246 | every step, a crash and an operator clear of a key no leg holds short of the broker included, keeps the invariant, with and without the promise about CLEARs |
| `LiveProtocol.RunKeepsInv` | autonomous/live_basket_patch.py:79-246 | so does every run |
| `LiveProtocol.LiveEntriesAreExclusive` | autonomous/live_basket_patch.py:79-246 | over every run with a crash allowed between any two effects: two accepted entries of one key have a CLEAR of it between them, the first CLEAR after an entry is an operator's or follows the CLOSED or FAILED trade of that very order, and until then the key is blocked |
| `LiveProtocol.UnclearedEntryRefusesNextLeg` | autonomous/live_basket_patch.py:79-246 | after a crash anywhere past acceptance a new leg of that symbol is refused and changes nothing |
| `LiveProtocol.OperatorClearIsSafeExactly` | autonomous/autonomous_live_runner.py:1326-1329 | an operator clear keeps entries separated in every continuation if and only if no leg holds that key short of the broker |
| `LiveProtocol.UnguardedContinuation` | autonomous/autonomous_live_runner.py:1326-1329 | from a leg on its way to the broker whose key is not blocked, a continuation in which a second entry is accepted with no CLEAR in between |
| `LiveProtocol.UnguardedRun` | autonomous/autonomous_live_runner.py:1326-1329 | a whole run from an empty store that reaches such a state and ends with two entries and no CLEAR between them |
| `LiveProtocol.LegHoldsUnnamed` | autonomous/live_basket_patch.py:79-246 | from its lock to the update of it, a leg's key is blocked by a lock that names no trade |
| `LiveProtocol.OrphanRemains` | autonomous/autonomous_live_runner.py:1287-1317 | a lock that names no trade and that no leg is at work on is never cleared but by an operator |
| `LiveProtocol.CrashBlocksUntilOperator` | autonomous/live_basket_patch.py:79-246 | a crash anywhere between the lock of a leg and its SUBMITTED mark, before the broker or after, leaves the key blocked through everything that follows until an operator clears it |
| `LiveRace.ClearKeepsInv` | autonomous/autonomous_live_runner.py:1287-1317 | a release by a second gate evaluation keeps the invariant unless a leg holds the key short of the broker; with the promise about CLEARs if the key may be cleared |
| `LiveRace.ClearIsJustExactly` | autonomous/autonomous_live_runner.py:1287-1317 | the promise about CLEARs survives it if and only if no accepted entry of the key waits for one or the lock current by now names a terminal trade |
| `LiveRace.MovesKeepInv` | web/routes/api_autonomous.py:797-804 | so does every run of both threads |
| `LiveRace.EntriesAreExclusiveBeside` | web/routes/api_autonomous.py:797-804 | over every run of the runner and a second gate evaluation interleaved step by step, crashes included, in which no clear hits a leg short of the broker: entries of one key are separated by a CLEAR and block their key until one comes; if the second one clears only what may be cleared, that CLEAR is an operator's or follows the terminal trade of that order |
| `LiveRace.FreshMayBeCleared` | autonomous/autonomous_live_runner.py:1287-1317 | clearing a lock that is still the one listed, or inactive, meets both conditions: looking again would be enough |
| `LiveRace.ReleaseIsSafeExactly` | autonomous/autonomous_live_runner.py:1287-1317 | a release by the second evaluation keeps entries separated in every undisturbed continuation of both if and only if no leg holds the key short of the broker |
| `LiveRace.StaleClearRun` | web/routes/api_autonomous.py:797-804 | a whole run from empty stores, without any operator, in which its stale release lets a second entry of one symbol in |
| `LiveRunner.ReconcilingOnlyReleases` | autonomous/autonomous_live_runner.py:1410-1679 | the three reconciliation passes never open a trade, never add one to a day and never leave a terminal status |
| `LiveRunner.GatesExactly` | autonomous/autonomous_live_runner.py:1410-1679 | what a gate evaluation makes of each trade, in the trade's own terms: an entry with a rejected order is FAILED; otherwise a trade with a filled child is CLOSED, and so is an entry of five minutes or more naming a symbol the broker does not hold; everything else is unchanged |
| `LiveRunner.HeldTradesStay` | autonomous/autonomous_live_runner.py:1582-1645 | hence an entry whose symbol is held, neither rejected nor filled, is unchanged, one younger than five minutes too, and one of five minutes whose symbol is not held does not stay open |
| `LiveRunner.ReleasedExactly` | autonomous/autonomous_live_runner.py:1287-1317 | what a release pass leaves blocked: the keys blocked before but for those whose lock names a trade stored closed or failed |
| `LiveRunner.MarkedNames` | autonomous/live_basket_patch.py:227-246 | the lock of a submitted leg, once updated, names the broker's order and the trade, if one was built |
| `LiveRunner.CountsExactly` | autonomous/autonomous_live_runner.py:1345-1375 | the two counts: trades open or pending entry, and trades of the day's 1440 minutes that have not failed |
| `LiveRunner.StoppedExactly` | autonomous/live_basket_patch.py:303-460 | which refusal ends a run before its first leg, in order: gates or a full book, no plan, too few slots, a symbol that an earlier leg, an open trade or an active lock has, a leg of which not one share fits the cap; none exactly when the legs are sent |
| `LiveRunner.RecordExactly` | autonomous/live_basket_patch.py:218-240 | the record of an accepted order has the plan's terms and bracket and the broker's order, open from now on; a record lost or never built leaves the store alone |
| `LiveRunner.CapIsTight` | autonomous/live_basket_patch.py:423-436 | the cash cap only shrinks an order, to the largest size whose value fits |
| `LiveRunner.PreflightForesees` | autonomous/live_basket_patch.py:256-292 | a leg the duplicate preflight passed is later stopped by nothing but the outside world, whatever the earlier legs did to log and store |
| `LiveRunner.ForeseenExactly` | autonomous/live_basket_patch.py:79-109 | the duplicate and lock checks made when a leg's turn comes give what they would have given before the first leg |
| `LiveRunner.LegsFailExactly` | autonomous/live_basket_patch.py:461-491 | a basket that passed its preflight fails at the first leg the outside world refuses and at no other; it is executed exactly when there is none |
| `LiveRunner.TakenThenCleared` | autonomous/live_basket_patch.py:125-172 | a leg turned away after taking its lock leaves exactly the keys blocked that were blocked before |
| `LiveRunner.LegKeepsLock` | autonomous/live_basket_patch.py:90-246 | a submitted leg leaves exactly one more key blocked, its own |
| `LiveRunner.ReconciledWithin` | autonomous/autonomous_live_runner.py:1345-1383 | counts within the limits stay within them through reconciliation |
| `LiveRunner.WithinAfterAdding` | autonomous/live_basket_patch.py:369-381 | adding no more legs than there are slots stays within both limits |
| `LiveRunner.OneRunKeepsLimits` | autonomous/live_basket_patch.py:369-491 | one call keeps the limit on open trades and on the trades of every day |
| `LiveRunner.MovingOnKeepsLimits` | autonomous/autonomous_live_runner.py:1345-1383 | so does anything that fills, closes, fails or sends trades to their exit without reopening one |
| `LiveRunner.RevertOpensOne` | autonomous/trade_reconciler.py:160-205 | a trade put back from EXIT_PENDING to OPEN adds one open trade and changes no day |
| `LiveRunner.MoveKeepsLimitsExactly` | autonomous/trade_reconciler.py:160-205 | of all that changes the store only putting back a trade can exceed a limit, and it does exactly when no slot is free |
| `LiveRunner.RunsStayWithinLimits` | autonomous/live_basket_patch.py:369-491 | over every sequence of basket calls, trades moving on and trades put back to OPEN, a store that starts within the limits is within them at every moment if and only if every trade put back found a free slot |
| `LiveRunner.RevertExceedsLimit` | autonomous/trade_reconciler.py:160-205 | a run with one slot: a trade goes to its exit, a second one takes the slot, the first is put back, two are open |
| `LiveRunner.LegClearMeans` | autonomous/live_basket_patch.py:256-292 | the lookups of the preflight decide whether a leg is clear |
| `LiveRunner.Runner.constructor` | autonomous/autonomous_live_runner.py:396-474 | starts with an empty store |
| `LiveRunner.Runner.DuplicateSymbolReason` | autonomous/autonomous_live_runner.py:1213-1230 | finds an open trade of the normalised symbol exactly when there is one, unless duplicates are allowed; an empty symbol counts as one |
| `LiveRunner.Runner.CountOpen` | autonomous/autonomous_live_runner.py:582 | the number of trades open or pending entry |
| `LiveRunner.Runner.CountLiveTradesToday` | autonomous/autonomous_live_runner.py:1345-1383 | the number of trades dated today that have not failed |
| `LiveRunner.Runner.TakeLock` | autonomous/autonomous_live_runner.py:1188-1211 | the acquisition for a plan's symbol, granted exactly when its key is inactive |
| `LiveRunner.Runner.ExecuteLeg` | autonomous/live_basket_patch.py:39-246 | submitted exactly when no duplicate check, lock or outside refusal stops it; then broker, store and locks gained exactly this leg, otherwise nothing (with the clear written, no lock either); every effect is a step of the protocol |
| `LiveRunner.Runner.FinishLeg` | autonomous/live_basket_patch.py:110-246 | the part under the lock: plan record, broker, trade record, lock update, or the refusal that gives the lock back |
| `LiveRunner.Runner.RecordEntry` | autonomous/autonomous_live_runner.py:1891-1947 | the accepted order gets its trade record, which may also be lost or never built |
| `LiveRunner.Runner.ReleaseRefused` | autonomous/autonomous_live_runner.py:1274-1285 | clears the lock of a refused leg if the write succeeds |
| `LiveRunner.Runner.ReconcileRejected` | autonomous/autonomous_live_runner.py:1410-1474 | every open trade whose order the broker rejected is FAILED, no other trade changes |
| `LiveRunner.Runner.ReconcileFilled` | autonomous/autonomous_live_runner.py:1476-1585 | every trade with a filled bracket child is CLOSED, no other changes |
| `LiveRunner.Runner.ReconcileStale` | autonomous/autonomous_live_runner.py:1587-1679 | every open trade past the grace period whose symbol is not held is CLOSED, no other changes |
| `LiveRunner.Runner.ReleaseTerminalLocks` | autonomous/autonomous_live_runner.py:1287-1317 | of the active locks exactly those whose recorded trade is terminal are cleared |
| `LiveRunner.Runner.ReleaseOne` | autonomous/autonomous_live_runner.py:1297-1317 | one lock of that pass |
| `LiveRunner.Runner.EvaluateGates` | autonomous/autonomous_live_runner.py:506-596 | store reconciled by the three passes in order, then locks released against the reconciled store, then both counts taken |
| `LiveRunner.Runner.PreflightDuplicateBasket` | autonomous/live_basket_patch.py:256-292 | clear exactly when every leg names a symbol that no earlier leg, open trade or active lock has |
| `LiveRunner.Runner.CheckLeg` | autonomous/live_basket_patch.py:262-292 | one leg of that check |
| `LiveRunner.Runner.CapLegs` | autonomous/live_basket_patch.py:423-459 | succeeds exactly when every leg is affordable under the cap and economic, with the capped quantities |
| `LiveRunner.Runner.SubmitLegs` | autonomous/live_basket_patch.py:461-491 | submits the longest run of legs from the start that all get through, judged by the stores as they were before the first; accepted orders are those legs in plan order |
| `LiveRunner.Runner.SubmitOne` | autonomous/live_basket_patch.py:461-491 | one leg of that loop |
| `LiveRunner.Runner.RunSettled` | autonomous/live_basket_patch.py:340-526 | which refusal ends the run, in order of the checks, or how many legs went out; a refusal changes nothing |
| `LiveRunner.Runner.RunOnce` | autonomous/live_basket_patch.py:303-526 | one call: a run of the protocol that keeps its invariant and both limits; ends with the first applicable refusal and nothing submitted, or with exactly the legs before the first one stopped, each within the cash cap |
| `Candles.ExtremaAreAttained` | autonomous/opening_range.py:433-479 | high and low of a merged group are bounds that some candle attains |
| `Candles.ValidExactly` | autonomous/opening_range.py:84-94 | a valid candle opens and closes between its low and high and has no negative volume |
| `Candles.MergeAmounts` | autonomous/opening_range.py:433-479 | a merged candle, field by field: symbol, start and open of its first bar, end and close of its last, their extremes, their volumes added up |
| `Candles.AggregateCandles` | autonomous/opening_range.py:433-479 | the bucketing loop computes the batch form; for a length of two minutes or more there are ascending positions, sharing no bar, where each candle amounts field by field to adjacent bars that are the minutes of one aligned bucket, each once |
| `Candles.AggregatesBuckets` | autonomous/opening_range.py:433-479 | those positions, for every feed at all |
| `Candles.LastGroupIsMaximalRun` | autonomous/opening_range.py:433-479 | the group being filled is the longest run of equal buckets at the end of the feed |
| `Candles.AppendExactly` | autonomous/opening_range.py:433-479 | for every feed: one more bar keeps all candles so far exactly when it does not fall into a bucket just completed; then at most one is added, otherwise exactly the last is lost |
| `Candles.OrderedCover` | autonomous/opening_range.py:433-479 | in a time-ordered group of one bucket, complete means having all its minutes, in order |
| `Candles.LastGroupFull` | autonomous/opening_range.py:433-479 | the last group is complete exactly when the newest bar has just filled its bucket |
| `Candles.BatchStep` | autonomous/opening_range.py:433-479 | one more rising bar adds to the batch form the candle it completes, if any |
| `Candles.StreamingEqualsBatch` | autonomous/opening_range.py:433-479 | on every feed whose minutes rise within each bucket, one session or a run of days, re-aggregating the whole buffer gives exactly the candles emitted as their buckets completed |
| `Candles.BarOfFullBucketRetracts` | autonomous/opening_range.py:433-479 | a repeated minute of a full bucket takes its candle back |
| `Candles.OneMoreBar` | autonomous/opening_range.py:433-479 | one more rising bar leaves the list unchanged or appends one candle |
| `CandleAggregator.HealthyExactly` | autonomous/candle_aggregator.py:63-84 | HEALTHY exactly when the closed bars follow each other minute by minute |
| `CandleAggregator.QualityExactly` | autonomous/candle_aggregator.py:63-84 | the other answers: no bars, none closed, a minute twice, a minute before one that came earlier, and otherwise a gap |
| `CandleAggregator.ClosedOnlyTwice` | autonomous/candle_aggregator.py:92-104 | dropping forming bars twice is dropping them once |
| `CandleAggregator.MergeOfChunks` | autonomous/candle_aggregator.py:92-104 | merging pieces and merging the results is merging everything at once |
| `CandleAggregator.OneBucket` | autonomous/candle_aggregator.py:92-104 | over one aligned bucket of consecutive bars exactly the last bar emits its candle |
| `CandleAggregator.ManyBuckets` | autonomous/candle_aggregator.py:92-104 | over aligned buckets the output grows by exactly their candles |
| `CandleAggregator.NewestNests` | autonomous/candle_aggregator.py:92-104 | a long candle just completed is, field by field, what the newest short ones amount to |
| `CandleAggregator.WindowsNest` | autonomous/candle_aggregator.py:92-104 | whatever bars come in, every long candle emitted has the open of the first and the close of the last of adjacent short candles emitted too, their extremes and their volumes added up |
| `CandleAggregator.HealthyFeedStreams` | autonomous/candle_aggregator.py:92-104 | closed aggregates of a healthy feed, over midnight or not, are the candles emitted as their buckets filled, for lengths below a day |
| `CandleAggregator.ClosedAggregatesNest` | autonomous/candle_aggregator.py:92-104 | closed aggregates of a healthy feed nest in this way, field by field, for every length and every multiple of it below a day, 5 and 15 minutes among them; within one day for every pair at all |
| `CandleAggregator.LeadReachesBoundary` | autonomous/candle_aggregator.py:92-104 | the first boundary at or after a session's first minute |
| `CandleAggregator.NothingBeforeLead` | autonomous/candle_aggregator.py:92-104 | no candle comes from bars before that boundary |
| `CandleAggregator.AlignedFeed` | autonomous/candle_aggregator.py:92-104 | from the boundary on, whole buckets emit and the unfinished tail does not |
| `CandleAggregator.HealthySessionBuckets` | autonomous/candle_aggregator.py:92-104 | the candles of a healthy session are exactly its fully covered aligned buckets, in order |
| `CandleAggregator.MidnightSplits` | autonomous/candle_aggregator.py:92-104 | no candle spans midnight: the candles of two days are those of the one followed by those of the other |
| `CandleAggregator.DayBucketIgnoresMidnight` | autonomous/opening_range.py:433-479 | a bucket of a whole day breaks: 1440 healthy bars make a candle wherever they start, though they cover a day exactly when they start at midnight |
| `Session.OpeningRangeSession.constructor` | autonomous/opening_range.py:248-269 | a new session waits with empty buffers |
| `Session.OpeningRangeSession.OnClosed1m` | autonomous/opening_range.py:272-313 | one closed minute: buffers, range, cutoff, confirmation and entry scan in that order |
| `Session.OpeningRangeSession.FinalizeRange` | autonomous/opening_range.py:316-369 | the range, or the reason there is none |
| `Session.OpeningRangeSession.CheckForConfirmation` | autonomous/opening_range.py:371-396 | the first five-minute candle closing above the range high, looked up by the loop |
| `Session.OpeningRangeSession.ScanEntryModels` | autonomous/opening_range.py:398-415 | the first model that shows an entry, unless the trade limit is used up |
| `Session.FindModelB` | autonomous/opening_range.py:543-577 | the retest search finds an earlier bar that came back to the range high exactly when there is one |
| `Session.FirstAboveExactly` | autonomous/opening_range.py:374-396 | the candle found is the first: all before it close at or below the level |
| `Session.OpeningRangeSession.FindBreakout` | autonomous/opening_range.py:371-396 | the loop over the five-minute candles finds the first that closes above the level |
| `Session.ModelAExactly` | autonomous/opening_range.py:517-540 | model A finds exactly the gaps: a closed bar late enough after the confirmation, closing above the range, with the configured share of its width as body, its low clear of the previous high by the configured ticks; entry, stop below the lower of the two bars, target, risk and reward as configured; nothing is found only where no such levels make a trade |
| `Session.ModelBExactly` | autonomous/opening_range.py:543-577 | model B finds exactly the retests: an earlier bar came back to the range high within the tolerance, and a bar not too late closes above the range and its open with the configured share of its height as body; the stop is the configured ticks below the lowest of the bars looked back at |
| `Session.SetupIsGood` | autonomous/opening_range.py:482-514 | a setup is built exactly when stop < entry and the configured multiple of the risk is positive; then stop < entry < target and reward == rr x risk |
| `Session.StopIsBelowTheSwing` | autonomous/opening_range.py:517-577 | whichever model finds it, a setup enters above the range high at no less than the close, with its stop below every bar the model looks back at |
| `Session.StepKeepsSound` | autonomous/opening_range.py:272-415 | one bar keeps the session invariant, arms at most once and moves backward only on a bar of the opening window |
| `Session.AtMostOneSetup` | autonomous/opening_range.py:272-415 | on every feed at all and for every configured trade limit at most one setup is armed, with stop < entry < target and reward == rr x risk |
| `Session.BackwardExactly` | autonomous/opening_range.py:272-290 | the state moves backward exactly when a closed bar of the opening window arrives after the range was finalised |
| `Session.LateBarMovesBackward` | autonomous/opening_range.py:272-290 | a whole run from a new session that moves backward |
| `Session.SessionEqualsBatch` | autonomous/opening_range.py:272-415 | the object fed a time-ordered session minute by minute ends in exactly the state one evaluation of the whole session gives |
| `Session.ConfirmationIsFirstBreakout` | autonomous/opening_range.py:371-396 | the recorded confirmation is exactly the first five-minute candle of the bars after the range and before the cutoff that closes above the range high |
| `Session.RangeExactly` | autonomous/opening_range.py:316-369 | there is a range exactly when the window held one valid bar for each of its N consecutive minutes, wide enough and not too wide |
| `Session.RangeIsExtrema` | autonomous/opening_range.py:316-369 | range high and low are the attained extrema of those minutes |
| `Session.ForwardOnly` | autonomous/opening_range.py:272-415 | one more bar of a time-ordered session never moves the state backward |
| `Session.SignalBar` | autonomous/opening_range.py:398-415 | the setup of a session is armed on the first bar on which an entry shows |
| `Session.ArmedAfterConfirmation` | autonomous/opening_range.py:272-415 | a setup is armed before the cutoff, on a bar that starts no earlier than the confirming candle ends and closes above the range high |
| `Session.FormingBarsChangeNothing` | autonomous/opening_range.py:272-276 | bars still forming change neither state nor setups |
| `OrbAudit.AuditLogger.constructor` | autonomous/audit.py:34-40 | starts empty |
| `OrbAudit.AuditLogger.LogDecision` | autonomous/audit.py:80-102 | appends one record |
| `OrbExecution.ORBProposalStore.constructor` | autonomous/orb_proposals.py:344-354 | starts empty |
| `OrbExecution.ORBProposalStore.Add` | autonomous/orb_proposals.py:364-376 | files a valid card under its identifier, replacing what was there, and logs it; an invalid card changes nothing |
| `OrbExecution.ORBProposalStore.Skip` | autonomous/orb_proposals.py:401-417 | only from PENDING, or again from SKIPPED without a second record |
| `OrbExecution.ORBProposalStore.Expire` | autonomous/orb_proposals.py:448-467 | only from PENDING or EXPIRED |
| `OrbExecution.ORBProposalStore.MarkExecuted` | autonomous/orb_proposals.py:419-446 | only from PENDING; the record names the trade |
| `OrbExecution.ORBPaperExecutor.constructor` | autonomous/orb_execution.py:287-307 | no trades, no emergency stop |
| `OrbExecution.ORBPaperExecutor.SetEmergencyStop` | autonomous/orb_execution.py:310-322 | switches the stop and nothing else |
| `OrbExecution.ORBPaperExecutor.LogReject` | autonomous/orb_execution.py:544-560 | one rejection record |
| `OrbExecution.ORBPaperExecutor.Protect` | autonomous/orb_execution.py:495-520 | a bracket, or the entry alone under the fallback, with consecutive order numbers |
| `OrbExecution.ORBPaperExecutor.Execute` | autonomous/orb_execution.py:361-493 | the gates in order, then store, index, trade map and log together; a known proposal returns its record |
| `OrbExecution.StepKeepsSound` | autonomous/orb_execution.py:361-493 | every call keeps index and trade map inverse, trades protected and executed proposals traded |
| `OrbExecution.RunKeepsSound` | autonomous/orb_execution.py:361-493 | so does every run |
| `OrbExecution.RefusalChangesNothing` | autonomous/orb_execution.py:361-493 | a refused call changes neither maps nor store and writes one rejection |
| `OrbExecution.RefusedExactly` | autonomous/orb_execution.py:361-462 | which gate refuses a card without a trade, in order: mode, emergency stop, the card itself, a session that holds one trade or more and as many as allowed, missing protection, the store; with none of them it trades |
| `OrbExecution.NewTradeExactly` | autonomous/orb_execution.py:453-542 | what the new trade is: the card's own terms under the new identifier, a bracket where there is one, and the two records logged |
| `OrbExecution.StoreExactly` | autonomous/orb_proposals.py:364-467 | what adding, skipping and expiring file, log and answer, for every card and status |
| `OrbExecution.NewTradeOnlyWhenSafe` | autonomous/orb_execution.py:361-493 | a trade is made exactly in paper mode, with no emergency stop, for a valid pending card under the cap with protection to be had; then just that trade, index entry and status change |
| `OrbExecution.TradesPersist` | autonomous/orb_execution.py:361-493 | trades and index entries are never changed or dropped |
| `OrbExecution.ReexecutionReturnsOriginal` | autonomous/orb_execution.py:361-493 | executing again, however much later and in whatever mode, returns the original record and logs nothing |
| `OrbExecution.SessionCapHolds` | autonomous/orb_execution.py:352-424 | in every run a session of a strategy never holds more trades than the largest number, given or configured, a call allowed, or one where that is less |
| `OrbExecution.StepLinkedExactly` | autonomous/orb_proposals.py:364-376 | one call keeps EXECUTED and having a trade equivalent exactly when it does not add a card under a traded identifier |
| `OrbExecution.LinkedExactly` | autonomous/orb_proposals.py:364-376 | at the end of a run EXECUTED means having a trade exactly when no such card was ever added |
| `OrbExecution.ReaddingUnlinks` | autonomous/orb_proposals.py:364-376 | the run in which it fails: added, executed, added again; PENDING yet traded |
| `OrbExit.ORBExitManager.constructor` | autonomous/orb_exit_manager.py:105-124 | no trades |
| `OrbExit.ORBExitManager.SetEmergencyStop` | autonomous/orb_exit_manager.py:130-136 | switches the stop and nothing else |
| `OrbExit.ORBExitManager.SwitchNewEntries` | autonomous/orb_exit_manager.py:144-162 | the set of disabled strategies gains or loses the named one; one record |
| `OrbExit.ORBExitManager.RegisterTrade` | autonomous/orb_trade_store.py:175-231 | a new trade is listed pending entry, a known one returned untouched; a non-positive holding time is an error |
| `OrbExit.ORBExitManager.EntryFill` | autonomous/orb_exit_manager.py:198-204 | fills a pending entry; logs the fill whether or not it was pending |
| `OrbExit.ORBExitManager.EntryFailure` | autonomous/orb_exit_manager.py:206-211 | fails a pending entry; logs whether or not it was pending |
| `OrbExit.ORBExitManager.Cancel` | autonomous/orb_exit_manager.py:302-311 | cancels a pending entry, otherwise an error that changes nothing |
| `OrbExit.ORBExitManager.DoTriggerExit` | autonomous/orb_exit_manager.py:327-394 | requests and fills one exit at the given price, or fails the trade when there is none |
| `OrbExit.ORBExitManager.DoEvaluateOne` | autonomous/orb_exit_manager.py:240-276 | one evaluation, triggers in order of precedence |
| `OrbExit.ORBExitManager.EvaluateSingle` | autonomous/orb_exit_manager.py:234-238 | only an open trade is evaluated |
| `OrbExit.ORBExitManager.CloseOnRequest` | autonomous/orb_exit_manager.py:279-300 | an open trade is closed at the quote, or left open without one; otherwise an error |
| `OrbExit.ORBExitManager.ListOpen` | autonomous/orb_trade_store.py:259-262 | the open trades, oldest first |
| `OrbExit.ORBExitManager.EvaluateAllOpen` | autonomous/orb_exit_manager.py:230-232 | one decision per trade open when the pass begins, following from the state it had then |
| `OrbExit.ORBExitManager.EvaluateListed` | autonomous/orb_exit_manager.py:230-232 | the loop of that pass |
| `OrbExit.EvaluationExactly` | autonomous/orb_exit_manager.py:240-276 | an open trade is closed exactly when quoted at a level or forced out, failed exactly when forced out unquoted; a target exit is filled at the target, a stop exit at the stop |
| `OrbExit.MultipleOfRisk` | autonomous/orb_trade_store.py:71-146 | a price realises the gain over the entry as a multiple of the distance from entry to stop, if there is one |
| `OrbExit.EvaluationReason` | autonomous/orb_exit_manager.py:240-276 | an open trade ends for exactly the first of emergency stop, target, stop, flat time and minutes of holding that applies, closed at a price with the multiple of risk that price realises, or failed without one |
| `OrbExit.ExcursionsAreExtremes` | autonomous/orb_trade_store.py:271-333 | from its fill on the best multiple of risk of a trade is the largest of zero and those of all prices seen, the worst the smallest |
| `OrbExit.EvaluationWatches` | autonomous/orb_exit_manager.py:240-276 | an evaluation sees its price first, and what it decides leaves the excursions alone |
| `OrbExit.EntryCallsExactly` | autonomous/orb_trade_store.py:175-316 | what registering, filling, failing and cancelling make of a trade, field by field, and that they do nothing to one that is not pending |
| `OrbExit.CloseExactly` | autonomous/orb_exit_manager.py:279-300 | a close on request closes an open trade at the quote with the multiple of risk that realises, or leaves it open without one, and touches nothing else |
| `OrbExit.EvaluatedOnce` | autonomous/orb_exit_manager.py:230-232 | in a pass every listed trade is evaluated once from the state it had when the pass began; others keep theirs |
| `OrbExit.NoneLeftOpen` | autonomous/orb_exit_manager.py:230-276 | under the emergency stop or past force-flat one pass leaves no trade open: closed with a price, failed without |
| `OrbExit.StepKeepsSound` | autonomous/orb_exit_manager.py:327-394 | every complete call keeps request and fill counts equal to the exits made |
| `OrbExit.RunKeepsSound` | autonomous/orb_exit_manager.py:327-394 | so does every run |
| `OrbExit.OneExitPerTrade` | autonomous/orb_exit_manager.py:327-394 | over every run a trade gets at most one exit request and one exit fill, always for its original quantity, at the target or stop when that was the reason |
| `OrbEvidence.BuildTradeLedger` | autonomous/orb_evidence.py:318-382 | the two loops compute the two-pass join |
| `OrbEvidence.TradeListedExactly` | autonomous/orb_evidence.py:318-382 | a trade is in the filtered ledger exactly when it has an execution record of that strategy and session |
| `OrbEvidence.PassTwoAt` | autonomous/orb_evidence.py:318-382 | an entry of the ledger is its execution record followed by the exit records about that trade, in order |
| `OrbEvidence.FilterExactly` | autonomous/orb_evidence.py:114-382 | for every filter the filtered ledger is the restriction of the full one, although exit records name neither strategy nor session, exactly when no trade has execution records of two sessions |
| `OrbEvidence.FilterIsRestriction` | autonomous/orb_evidence.py:114-382 | the direction every log of a run uses |
| `OrbEvidence.MisfilteredBy` | autonomous/orb_evidence.py:114-382 | otherwise a filter that is not a restriction |
| `OrbEvidence.FillAgreesExactly` | autonomous/orb_exit_manager.py:198-204 | a fill report keeps log and trade in agreement exactly when the entry was pending, or the trade open at that price |
| `OrbEvidence.FailureAgreesExactly` | autonomous/orb_exit_manager.py:206-211 | a failure report does exactly when the trade had failed already; letting the exit reason of failed entries off, exactly when the entry was pending or had failed |
| `OrbEvidence.TriggerAgrees` | autonomous/orb_exit_manager.py:327-394 | an exit keeps agreement |
| `OrbEvidence.EvaluationAgrees` | autonomous/orb_exit_manager.py:240-276 | an evaluation keeps agreement |
| `OrbEvidence.BuildProposalLedger` | autonomous/orb_evidence.py:191-231 | the loop computes the proposal ledger |
| `OrbEvidence.ProposalListedExactly` | autonomous/orb_evidence.py:191-231 | a proposal is in the filtered ledger exactly when the log has a record about it of that strategy and session |
| `OrbEvidence.FirstRecordNames` | autonomous/orb_evidence.py:191-231 | its strategy and session are those of the first such record |
| `OrbEvidence.LastRecordDecides` | autonomous/orb_evidence.py:191-231 | its status is that of the last |
| `OrbEvidence.LastExecutionNames` | autonomous/orb_evidence.py:191-231 | its trade is the one the last execution among them names |
| `OrbEvidence.NoExecutionNoTrade` | autonomous/orb_evidence.py:191-231 | without an execution it has none |
| `OrbAgreement.LedgerIsReplay` | autonomous/orb_evidence.py:318-382 | the rebuilt ledger is the live state, exit reasons of all trades included or those of failed entries let off, exactly when it agrees so trade by trade; it always has one entry per executed trade |
| `OrbAgreement.MoveAgreesExactly` | autonomous/orb_evidence.py:318-382 | agreement survives a change of one trade exactly when it survives for that trade |
| `OrbAgreement.StepAgreesExactly` | autonomous/orb_evidence.py:318-382 | from agreement, with or without the exit reasons of failed entries, a step leads to such agreement exactly when it is not an unsafe report: a fill while the entry is not pending (other than the fill of the open trade repeated), or a failure of a trade that has not failed; without those reasons the failure of a pending entry is safe too |
| `OrbAgreement.RunKeepsSound` | autonomous/orb_evidence.py:318-382 | every run keeps stores and log consistent |
| `OrbAgreement.LedgerAlwaysLiveExactly` | autonomous/orb_evidence.py:318-382 | after every step of a run the ledger agrees with the live stores on status, entry fill, exit price, realised R and every exit reason, exactly when no such report occurred in the run; it agrees on all that but the exit reason of failed entries exactly when none other than failures of pending entries did |
| `OrbAgreement.FailedEntryHasNoReason` | autonomous/orb_evidence.py:360-362 | the second form is needed: a run of ordinary reports, an entry placed and reported failed, after which the store holds BROKER_FAILURE and the ledger no exit reason |
| `OrbAgreement.PlacedIsPending` | web/routes/api_opening_range.py:605-622 | adding, executing and registering a valid card is possible and safe and ends with the entry pending |
| `OrbAgreement.OneEntryPerTrade` | autonomous/orb_evidence.py:114-382 | in every run the ledger has exactly one entry per executed trade and filtering is restricting |
| `OrbAgreement.ExecutingAgainReopensTheLedger` | web/routes/api_opening_range.py:605-622 | executing a proposal again after its trade has ended returns the old record, but the fill it reports makes the ledger show the ended trade as open |
| `OrbAgreement.TradedIsOpen` | web/routes/api_opening_range.py:605-622 | one request that trades a valid card is possible and safe and ends with the trade open |
| `OrbAgreement.LedgerGoesStale` | autonomous/orb_exit_manager.py:198-204 | a whole run from the empty stores in which the ledger does not stay live |
| `OrbAgreement.ProposalLedgerIsLive` | autonomous/orb_evidence.py:191-231 | in every run, safe or not, the proposal ledger gives each stored proposal its current status and its trade |
| `FillMerge.MergeFill` | autonomous/broker_fill_ingestor.py:316-331 | the loop merges a report into the list and says whether anything changed |
| `FillMerge.MergeIsPut` | autonomous/broker_fill_ingestor.py:316-331 | on lists with unique execution ids merging is putting into a map from id to fields, and keeps the ids unique |
| `FillMerge.MergeAllIsPutAll` | autonomous/broker_fill_ingestor.py:316-331 | the same for any number of reports |
| `FillMerge.ConfluentExactly` | autonomous/broker_fill_ingestor.py:316-331 | order, batching and repetition do not matter exactly when no two reports of one execution contradict each other on a field |
| `FillMerge.MergeConfluent` | autonomous/broker_fill_ingestor.py:316-331 | the same starting from any records |
| `FillMerge.RedeliveryExactly` | autonomous/broker_fill_ingestor.py:316-331 | a report changes nothing exactly when everything it says is known |
| `FillMerge.RedeliveryIsIdle` | autonomous/broker_fill_ingestor.py:316-331 | redelivering any report ever merged changes nothing |
| `FillMerge.SameRecordsSameSum` | autonomous/outcome_reconciliation.py:206-255 | quantity, value and commission sums depend on the records only, not on their order |
| `FillIngest.AggregateFills` | autonomous/outcome_reconciliation.py:206-255 | whole-share quantity, weighted mean price and commission, or the fallback for an empty list |
| `FillIngest.TotalOf` | autonomous/outcome_reconciliation.py:206-255 | the summing loop |
| `FillIngest.BrokerFillIngestor.constructor` | autonomous/broker_fill_ingestor.py:62-75 | the given books |
| `FillIngest.BrokerFillIngestor.Ingest` | autonomous/broker_fill_ingestor.py:77-103 | a batch is its usable reports one after another; counts the reports seen and those no trade matched |
| `FillIngest.BrokerFillIngestor.IngestEvent` | autonomous/broker_fill_ingestor.py:87-102 | a report goes to the first trade it matches |
| `FillIngest.BrokerFillIngestor.Apply` | autonomous/broker_fill_ingestor.py:105-193 | one report applied to its trade, with counters and at most one outcome |
| `FillIngest.Normalise` | autonomous/broker_fill_ingestor.py:275-298 | keeps exactly the reports with an order, a positive quantity and a positive price |
| `FillIngest.NormalisedExactly` | autonomous/broker_fill_ingestor.py:275-298 | a row is a report exactly when it has an order, a positive quantity and a positive price; the report says those as the row does and the rest as it stands, under the row's execution identifier or one made of order, quantity, price and time |
| `FillIngest.ReportMeans` | autonomous/broker_fill_ingestor.py:105-193 | what a report does to a trade, field by field: records, average prices, order, status and outcome mark |
| `FillIngest.ReasonOfExit` | autonomous/broker_fill_ingestor.py:364-369 | an exit report that changes the records leaves TAKE_PROFIT for the target, STOP_LOSS for the stop, and for an order outside the bracket the reason there was |
| `FillIngest.LastChildDecidesReason` | autonomous/broker_fill_ingestor.py:138-369 | over any run the last new report of the bracket's target or stop decides the reason |
| `FillIngest.AssumedEntry` | autonomous/broker_fill_ingestor.py:332-349 | with no entries on record the planned shares are taken at the known price, or at the limit when none is known or it is zero |
| `FillIngest.CountersExactly` | autonomous/broker_fill_ingestor.py:77-193 | the counters of a batch are the numbers of reports that told an entry something new, an exit, and an exit of a trade found or left closed |
| `FillIngest.AtMostOneOutcome` | autonomous/broker_fill_ingestor.py:226-256 | over any number of ingests with redelivery and a failing writer a trade has at most one outcome record, and one exactly when it says so; the counter counts the records |
| `FillIngest.ClosedIsCountedAgain` | autonomous/broker_fill_ingestor.py:183-193 | a later exit report that changes a closed trade's records counts as another closed trade and as no outcome |
| `FillIngest.IdleExactly` | autonomous/broker_fill_ingestor.py:105-193 | a matched report changes and counts nothing exactly when all its fields are recorded |
| `FillIngest.FillsAreMerged` | autonomous/broker_fill_ingestor.py:105-193 | a trade's entry and exit records are the merge of the entry reports and of the bracket-child reports about it |
| `FillIngest.IngestIsConfluent` | autonomous/broker_fill_ingestor.py:105-193 | reordering, repeating or rebatching compatible reports of a trade's entry and bracket exits changes neither its records nor the sums over them |
| `FillIngest.RedeliveryAfterIngest` | autonomous/broker_fill_ingestor.py:105-193 | delivering again any report already ingested leaves the trade as it is |
| `FillIngest.IngestIsPointwise` | autonomous/broker_fill_ingestor.py:77-103 | when no order belongs to two trades a batch does to each trade what its reports would do to it alone |
| `FillIngest.PnlConservedExactly` | autonomous/broker_fill_ingestor.py:345-361 | realised P&L equals exit value less entry value less all commissions if and only if as many shares were sold as bought |
| `FillIngest.ClosesExactly` | autonomous/broker_fill_ingestor.py:147-342 | an exit report closes a trade exactly when the exits then cover the shares bought, or the planned quantity while no more is known |
| `FillIngest.ClosingIsAccurate` | autonomous/broker_fill_ingestor.py:147-156 | closing records the profit of the records as they then stand |
| `FillIngest.LateEntryCommissionIsLost` | autonomous/broker_fill_ingestor.py:112-136 | a broker row that reports an entry execution again with its commission, after the close, is usable, matches and is recorded, and the recorded profit then misses it by exactly its amount |
| `FillIngest.FractionsAreDropped` | autonomous/outcome_reconciliation.py:228-236 | a fill's value is what was paid exactly when its quantity is whole |
| `FillRuns.SettlingRecords` | autonomous/broker_fill_ingestor.py:138-193 | a settling exit report leaves the trade closed with the profit of its records; any other report leaves status CLOSED and the recorded profit alone |
| `FillRuns.RecordedAtSettlement` | autonomous/broker_fill_ingestor.py:138-193 | over any run the profit on record of a settled trade is that of its records at the last settling report; a run without one leaves the recorded profit and whether the trade is closed alone, also for a trade that something else closed |
| `FillRuns.ClaimsAreMerged` | autonomous/broker_fill_ingestor.py:301-331 | over any run the exit records merge all reports of the bracket's children and those of an outside exit order that were matched |
| `FillRuns.SinceSettlement` | autonomous/broker_fill_ingestor.py:105-193 | over any run of consistent reports, rebates among them, records only grow, and no exit was recorded since the last settlement if no shares were known to be bought then, or while no more are bought than sold |
| `FillRuns.RecordedPnlExactly` | autonomous/broker_fill_ingestor.py:147-361 | over any run of consistent reports with a settlement and no more shares bought than sold in the end, whatever came first: without a usable entry at the last settlement no P&L is recorded; otherwise it is the cash that changed hands if and only if what the entries came to beyond what that settlement assumed (the records, or planned quantity at known price or limit) equals what the shares sold beyond those it assumed came to |
| `FillRuns.RecordedPnlWithoutLateShares` | autonomous/broker_fill_ingestor.py:147-361 | with all shares known at the last settlement it is so, and the trade accurate, if and only if no commission came later |
| `FillRuns.RecordedPnlEvensOut` | autonomous/broker_fill_ingestor.py:147-361 | for every settled run at all, contradicting reports and unequal quantities included: the recorded P&L is the cash that changed hands if and only if the cost the last settlement did not count equals the proceeds it did not count |
| `FillRuns.ExitBeforeEntry` | autonomous/broker_fill_ingestor.py:147-361 | a run that fails: one share, its sale reported before its purchase; the recorded P&L is sale less limit, the cash sale less price paid |
| `FillRuns.UnchangedIsAccurate` | autonomous/broker_fill_ingestor.py:147-156 | a closed trade whose records have not changed since its last settlement is accurate |
| `FillRuns.OutsideExitOrderMatters` | autonomous/broker_fill_ingestor.py:138-331 | consistent reports may come in any order, batching and repetition if and only if not both an exit order outside the bracket and a child of the bracket have something new to tell |
| `FillRuns.NormalisedNames` | autonomous/broker_fill_ingestor.py:275-298 | every report that survives normalisation names its order |
| `FillRuns.RivalsDiffer` | autonomous/broker_fill_ingestor.py:138-331 | otherwise two arrangements with different records: the outside report first, or the child first |
| `FillRuns.StoreIsConfluent` | autonomous/broker_fill_ingestor.py:77-103 | when no order belongs to two trades, two deliveries of the same reports leave every trade of the store with the same records and sums |
| `FillRuns.StoreIgnoresRedelivery` | autonomous/broker_fill_ingestor.py:77-103 | delivering any report of a batch again changes no trade of the store |
| `FillRuns.StorePnlExactly` | autonomous/broker_fill_ingestor.py:77-103 | the statement of RecordedPnlExactly for each trade of the store |
| `Basket.ChooseLegs` | autonomous/basket_planner.py:96-142 | the greedy loop computes the choice |
| `Basket.ChoiceWithinCaps` | autonomous/basket_planner.py:96-142 | the choice keeps the cash cap, the number of legs and the number per sector, and its total is the cash of its legs |
| `Basket.ChoiceIsMaximal` | autonomous/basket_planner.py:96-142 | no candidate left out could be added without breaking a cap |
| `Basket.EveryoneAccountedFor` | autonomous/basket_planner.py:96-142 | until the basket is full every candidate is chosen or rejected |
| `Basket.AllocateRisk` | autonomous/basket_risk_allocator.py:85-166 | the allocator loop |
| `Basket.LegExactly` | autonomous/basket_risk_allocator.py:168-273 | why a leg is refused, by its own numbers and in order: not shares, no valid stop, a share of the budget below the minimum, or below the risk of one share; none of these exactly when it is kept |
| `Basket.LegIsLargest` | autonomous/basket_risk_allocator.py:168-273 | a kept leg is the largest quantity between one and the plan whose stop risk fits its share of the budget; one share too risky is refused |
| `Basket.KeptInOrder` | autonomous/basket_risk_allocator.py:100-166 | the kept legs come from the plans in order, one plan each |
| `Basket.AllocationWithinBudget` | autonomous/basket_risk_allocator.py:85-166 | the stop risk of all returned legs together is at most equity x fraction, their cash and number no more than planned |
| `Basket.BuildBasket` | autonomous/basket_planner.py:53-163 | choice, allocation, matching selection and recomputed total |
| `Basket.SelectionMatchesLegs` | autonomous/basket_planner.py:146-154 | for one budget the filtered list matches the kept legs exactly when no refused leg shares its symbol with a kept one |
| `Basket.BasketWithinBudgets` | autonomous/basket_planner.py:53-163 | every returned basket: total stop risk within the budget, total cash within the cap, at most the configured number of legs |
| `Basket.BasketLegs` | autonomous/basket_planner.py:53-163 | every leg of a returned basket is the plan of a ranked candidate, in rank order and one candidate each, for at least one share and no more than planned, and no sector has more legs than configured |
| `Basket.KeptExactly` | autonomous/basket_risk_allocator.py:168-273 | a leg is kept exactly when it is a share plan with a stop and its share of the budget reaches both the configured minimum and the risk of one share |
| `Basket.SelectionMatchesAt` | autonomous/basket_planner.py:146-154 | so exactly when that budget parts no two plans of one symbol, keeping one and refusing the other |
| `Basket.BasketMatchesExactly` | autonomous/basket_planner.py:53-163 | for every configuration, cash and equity: the selected list of a returned basket differs from its legs if and only if the allocator is on and the budget of a leg parts two chosen plans of one symbol |
| `Basket.SelectionMatchesExactly` | autonomous/basket_planner.py:53-163 | for every accepted configuration with the equity and cash the plans were made for: the selected list matches the legs one for one and in order whatever fraction of equity is put at risk, if and only if no two chosen plans of one symbol are split: the equity pays for all legs at the budget one of them needs, and the other needs more |
| `Basket.SplitMisleads` | autonomous/basket_planner.py:53-163 | otherwise here is a fraction in (0, 1] at that equity and cash whose basket names a candidate without a leg |
| `Basket.DistinctSymbolsMatch` | autonomous/basket_planner.py:53-163 | pairwise different symbols are enough, whatever the configuration, cash and equity |
| `Basket.OnePerSectorMatches` | autonomous/autonomous_config.py:94-99 | so is the default cap of one leg per sector when candidates of one symbol agree on its sector |
| `Basket.SharedSymbolMisleads` | autonomous/autonomous_config.py:94-103 | with all default settings and 100000 of equity and cash, two plans of one share at 200, both within the leg cap, for one symbol listed under two sectors: one leg, two candidates reported selected |
| `Drawdown.RunningDrawdown` | autonomous/capital_promotion.py:486-494 | the running-peak loop computes the drawdown |
| `Drawdown.ComputeRStats` | autonomous/orb_live_readiness.py:83-114 | the same drawdown over the results that are known, and the longest losing streak |
| `Drawdown.PeakIsHighest` | autonomous/capital_promotion.py:486-494 | the running peak is the highest level reached, the start included |
| `Drawdown.DrawdownIsLargestFall` | autonomous/capital_promotion.py:486-494 | the drawdown is the largest fall from an earlier cumulative level to a later one: some fall is that large and none larger |
| `Drawdown.LossesAreLongestRun` | autonomous/orb_live_readiness.py:83-114 | the loss count is the length of the longest unbroken run of losses |
| `Drawdown.LaterNeverLowers` | autonomous/capital_promotion.py:486-494 | appending outcomes never lowers the drawdown |
| `Drawdown.LaterRowsComeLast` | autonomous/capital_promotion.py:396-413 | rows no older than those before them are sorted to the end |
| `Drawdown.RecommendedExactly` | autonomous/capital_promotion.py:199-338 | what the report recommends: one level down but not below the lowest for a drawdown past the limit or another reason above level zero, otherwise one up when there is one and nothing refuses it, otherwise the same |
| `Drawdown.DemotionPersists` | autonomous/capital_promotion.py:199-338 | at an unchanged level a drawdown demotion is made again after any later outcomes, whatever else the report weighs |
| `Drawdown.SidesOfTime` | autonomous/capital_promotion.py:396-413 | rows by time split at T into those dated up to T and those dated past it |
| `Drawdown.OutcomeInBetween` | autonomous/capital_promotion.py:486-494 | whatever outcome comes in between, the drawdown is above a limit exactly when it is so before it or after it |
| `Drawdown.InsertedOutcomeExactly` | autonomous/capital_promotion.py:199-413 | an outcome dated T that turns up later: the drawdown demotion survives whatever it is worth if and only if the outcomes up to T, or those past T, fall by more than the limit on their own |
| `Drawdown.EarlierOutcomeCanLift` | autonomous/capital_promotion.py:396-413 | an outcome dated between existing ones can lift it |
| `EvidenceReads.LimitExactly` | autonomous/evidence_store.py:189 | a hundred by default, at least one, at most a thousand, otherwise as many as asked for |
| `EvidenceReads.Recent` | autonomous/evidence_store.py:186-214 | the file-by-file read gives the newest records of all files, newest first: as many as were asked for or all there are |
| `EvidenceReads.LastParsed` | autonomous/evidence_store.py:200-212 | the bounded queue holds a file's newest records |
| `EvidenceReads.RecentOutcomes` | autonomous/evidence_store.py:216-252 | the same after keeping outcomes only |
| `EvidenceReads.ParsedOutcomes` | autonomous/evidence_store.py:232-248 | the outcomes of a file |
| `EvidenceReads.LoggedComesFirst` | autonomous/evidence_store.py:165-214 | a logged record is the first one read back |
| `EvidenceReads.DecisionsNeverEvict` | autonomous/evidence_store.py:216-252 | however many decision records are logged, no outcome leaves the window of outcomes |
| `Supervisor.ContinuousSupervisor.constructor` | autonomous/continuous_supervisor.py:92-118 | nothing counted, cadence at least a second |
| `Supervisor.ContinuousSupervisor.Pause` | autonomous/continuous_supervisor.py:129-133 | paused and nothing else |
| `Supervisor.ContinuousSupervisor.Resume` | autonomous/continuous_supervisor.py:135-140 | not paused and nothing else |
| `Supervisor.ContinuousSupervisor.PauseWithFault` | autonomous/continuous_supervisor.py:259-284 | paused, counted as failed, next cycle a cadence after the finish |
| `Supervisor.ContinuousSupervisor.RunCycle` | autonomous/continuous_supervisor.py:179-244 | one call alone: turned away, faulted or completed, with its counter and timing, and whether it ticked |
| `Supervisor.FaultKeepsPaused` | autonomous/continuous_supervisor.py:179-284 | when calls do not overlap, a fault keeps the supervisor paused until somebody resumes |
| `Supervisor.SequentialTicks` | autonomous/continuous_supervisor.py:179-284 | then no call ticks with a fault pending, nor sooner than the cadence after the last finish |
| `Supervisor.TicksExactly` | autonomous/continuous_supervisor.py:179-284 | when calls do not overlap, a call ticks exactly when the supervisor is not paused, the cadence has passed since the last finish and no fault is found first |
| `Supervisor.PausedExactly` | autonomous/continuous_supervisor.py:179-284 | and it is paused exactly when the last that was done about it is a pause or a fault |
| `Supervisor.CheckExactly` | autonomous/continuous_supervisor.py:179-284 | under every interleaving the check of a call turns it away while paused, turns it away and counts it while not due, and lets it in otherwise |
| `Supervisor.OperatorDecides` | autonomous/continuous_supervisor.py:129-140 | an operator can always pause and resume: a call checked next is turned away, or judged by the cadence alone |
| `Supervisor.OneTickAtATime` | autonomous/continuous_supervisor.py:179-284 | under every interleaving at most one tick runs, and its call has the lock |
| `Supervisor.CountersAddUp` | autonomous/continuous_supervisor.py:179-284 | under every interleaving started == completed + failed + at most one unresolved cycle, and each counter counts the calls that ended its way |
| `Supervisor.TickUnderPauseCameEarlier` | autonomous/continuous_supervisor.py:179-284 | a tick that starts under a pause belongs to a call let in before the pause was set |
| `Supervisor.TickUnderPauseExactly` | autonomous/continuous_supervisor.py:179-284 | with nobody resuming in between, a call let in starts its tick under a pause exactly when the pause was set after it was let in |
| `Supervisor.AloneIsSequential` | autonomous/continuous_supervisor.py:179-284 | a call whose steps nobody interrupts does what the object does |
| `Supervisor.OverlapTicksAfterFault` | autonomous/continuous_supervisor.py:179-284 | overlapping calls can tick after a fault: the interleaving |
| `Supervisor.ActKeepsSound` | autonomous/continuous_supervisor.py:179-284 | every atomic step keeps locks, counters and what calls have seen consistent |
| `Outlook.MarketOutlookGenerator.constructor` | ai/market_outlook.py:289-304 | no cache, nobody generating |
| `Outlook.MarketOutlookGenerator.MaybeInvalidate` | ai/market_outlook.py:438-452 | drops a cache made without positions for a caller that has them |
| `Outlook.MarketOutlookGenerator.TryGetCached` | ai/market_outlook.py:306-328 | the cache if it is fresh and proper, otherwise nothing |
| `Outlook.MarketOutlookGenerator.EnterGetOutlook` | ai/market_outlook.py:361-385 | serve, wait or generate, decided in one critical section |
| `Outlook.MarketOutlookGenerator.AfterWait` | ai/market_outlook.py:387-405 | what a waiter is answered |
| `Outlook.MarketOutlookGenerator.StoreResult` | ai/market_outlook.py:528-535 | the result with the caller's positions flag |
| `Outlook.MarketOutlookGenerator.GetOutlook` | ai/market_outlook.py:330-436 | one caller alone is served from the cache exactly when it forces nothing, the cache is younger than its time to live and was made with positions if the caller has any |
| `Outlook.MarketOutlookGenerator.Invalidate` | ai/market_outlook.py:539-543 | drops the cache |
| `Outlook.LookExactly` | ai/market_outlook.py:330-436 | under every interleaving the first look of a call drops an outlook made without positions for a caller that has them, returns one that is young enough unless forced, waits for the call at work, or goes to work |
| `Outlook.DropExactly` | ai/market_outlook.py:539-543 | dropping the cache is always possible and does nothing else |
| `Outlook.OneGenerator` | ai/market_outlook.py:330-436 | under every interleaving at most one call generates |
| `Outlook.PortfolioAnswers` | ai/market_outlook.py:330-436 | under every interleaving, the path after waiting included, a cached outlook returned to a caller with positions was generated with positions |
| `Outlook.NobodyIsStranded` | ai/market_outlook.py:330-436 | when no call generates and none is about to set the event, every waiter can go on |
| `Outlook.WaiterCanWakeEarly` | ai/market_outlook.py:387-436 | the event is set outside the lock, so a waiter on a later generation can wake at once: the interleaving |
| `ExitPass.AutonomousExitManager.constructor` | autonomous/exit_manager.py:148-171 | the given store |
| `ExitPass.AutonomousExitManager.SubmitExit` | autonomous/exit_manager.py:649-723 | sold exactly when covered and accepted; then the trade is EXIT_PENDING |
| `ExitPass.AutonomousExitManager.EvaluateOne` | autonomous/exit_manager.py:478-647 | one trade by its rules, in order of precedence |
| `ExitPass.AutonomousExitManager.Settle` | autonomous/exit_manager.py:649-723 | one submission of the second phase |
| `ExitPass.AutonomousExitManager.FirstPhase` | autonomous/exit_manager.py:187-211 | every trade by its rules; what is left grouped by symbol, legs in order |
| `ExitPass.AutonomousExitManager.ExitGroup` | autonomous/exit_manager.py:230-237 | every leg of a group is submitted |
| `ExitPass.AutonomousExitManager.ProfitExitOf` | autonomous/exit_manager.py:213-237 | a symbol's legs leave exactly when their summed profit reaches the smallest threshold |
| `ExitPass.AutonomousExitManager.SecondPhase` | autonomous/exit_manager.py:213-237 | that for every symbol |
| `ExitPass.AutonomousExitManager.EvaluateOpenTrades` | autonomous/exit_manager.py:173-242 | one decision for every listed trade, equal to the one-formula form, and the books follow |
| `ExitPass.TotalOf` | autonomous/exit_manager.py:220-223 | the profit sum |
| `ExitPass.SmallestOf` | autonomous/exit_manager.py:224 | the smallest threshold |
| `ExitPass.LegsExactly` | autonomous/exit_manager.py:187-211 | a trade is in its symbol's group exactly when it is eligible |
| `ExitPass.SmallestIsAttained` | autonomous/exit_manager.py:224 | the smallest threshold is some leg's, and no leg's is smaller |
| `ExitPass.LeavesByRuleExactly` | autonomous/exit_manager.py:478-647 | a trade leaves by rule for the first of halt, age in days of 86400 seconds, target and stop that applies, with a quote, an entry price and an order that can be sent; it reports no price exactly without a quote |
| `ExitPass.EntryPriceExactly` | autonomous/exit_manager.py:478-560 | the entry price is the fill, or the limit when there is none or it is zero |
| `ExitPass.StaysExactly` | autonomous/exit_manager.py:310-351 | what is left for the profit rule: open share positions with a price paid and a quote that no rule takes out |
| `ExitPass.TotalIsProfit` | autonomous/exit_manager.py:220-223 | the profit sum of a symbol is its quote times the shares of those legs less what they cost |
| `ExitPass.LeavesForProfitExactly` | autonomous/exit_manager.py:213-237 | a trade leaves for profit exactly when it stays by the rules, can be sold, and that profit reaches what one of the legs asks for |
| `ExitPass.OneLegForProfit` | autonomous/exit_manager.py:213-237 | one leg leaves when quote less price paid, times its quantity, reaches what it asks for, a hundred by default |
| `ExitPass.HigherQuoteStillLeaves` | autonomous/exit_manager.py:213-237 | while the rules take out none of its legs, a symbol that leaves for profit still does at a higher quote |
| `ExitPass.ListOpenExactly` | autonomous/exit_manager.py:187 | the pass looks at exactly the trades stored open or pending entry, in the store's order |
| `ExitPass.ProfitExitExactly` | autonomous/exit_manager.py:213-237 | a covered, accepted leg leaves for profit exactly when the summed P&L of its symbol's eligible legs reaches some leg's threshold |
| `ExitPass.PassSellsOnce` | autonomous/exit_manager.py:943-975 | a pass accepts at most one sell of a trade, and none of one that had one and was not put back since |
| `ExitPass.PassesSellOnce` | autonomous/exit_manager.py:943-975 | over any number of passes, with trades moving on, being put back to OPEN and being newly recorded in between, a trade is sold at most once more often than it was put back |
| `ExitPass.EachSellIsCovered` | autonomous/exit_manager.py:425-476 | no single sell is larger than the holding |
| `ExitPass.SellsWithinLegs` | autonomous/exit_manager.py:425-476 | whatever a pass meets, it sells no more of a symbol than its legs that the holding covers one by one |
| `ExitPass.HaltSellsEveryLeg` | autonomous/exit_manager.py:425-476 | under a halt with a quote and accepting brokers it sells exactly those |
| `ExitPass.NeverOversoldExactly` | autonomous/exit_manager.py:425-476 | no pass can oversell a holding of h, whatever it meets, if and only if the legs that h covers one by one come to no more than h together |
| `ExitPass.TwoLegsOversell` | autonomous/exit_manager.py:425-476 | two legs of sixty against a holding of sixty: both pass the guard and both are sold |

## Left out

- Live entry: dry-run previews and DRY_RUN results, order lifecycle rows, lock metadata, time stamps and the listing of stale locks.
- Live entry: an executor that raises is taken to have placed no order; exclusivity is about trades terminal in the store, not orders still working at the broker, because the stale pass closes an unfilled trade after five minutes.
- Live entry: one thread submits legs and one further gate evaluation runs beside it (`LiveRace`), each call of the lock store being one step; two threads that submit at once are left out. `LiveRunner` is one thread alone. Whole log lines only, so no torn last line; one clock reading per call, so no call straddles midnight.
- Live entry: the readiness gates that do not read the stores are one boolean, the profitability gate one boolean per leg; the broker-fill ingestion that opens a gate evaluation is `FillIngest`, not part of `EvaluateGates`.
- LiveProtocol.LiveEntriesAreExclusive: assumes that no operator clears a key while a leg holds it short of the broker; `OperatorClearIsSafeExactly` shows that this is exactly the condition needed.
- LiveRace.EntriesAreExclusiveBeside: assumes the same of the second evaluation's clears too; `ReleaseIsSafeExactly` shows that this is exactly the condition needed, `StaleClearRun` that the code does not ensure it.
- Lock keys: normalisation trims and upper-cases ASCII only.
- Sessions: the bearish log entry, diagnostics, source candle and evidence dictionary of a setup; a zero range length or swing look-back, for which the source raises.
- Paper trading: trade records are returned as values, not live references; the paper adapter's order counter is a field of the executor and the intraday store is part of the exit manager; order statuses, notes and time stamps; sizing in `create_from_setup` and the timing of `expire_due`; empty identifiers.
- OrbAgreement.ProposalLedgerIsLive: covers status and trade of a proposal, not the card fields the ledger copies.
- Evidence: rejection ledger, session summaries, promotion classification and export.
- Broker fills: alternative spellings of row keys, collisions of made-up execution identifiers with given ones, lifecycle rows, the content of an outcome record; whether the outcome writer succeeds is an input.
- Rounding of prices, P&L and R multiples to cents or four digits: all statements are about the values before rounding.
- Baskets: sizing notes and allocator diagnostics, candidates ranked by the caller, the trade planner behind its contract (a positive quantity at a positive price, cash equal to their product for shares).
- Capital promotion: Sharpe, profit factor, paper/live consistency and incidents, which enter `Evaluate` as booleans; the window of outcomes a caller passes.
- Evidence reads: log file names and the writing of a record beyond appending its line.
- Supervisor and outlook: heartbeat, status and staleness queries, and the content of a generated outlook.
- Exit pass: the discretionary close, the construction of orders for broker and paper adapter, options legs beyond being skipped.
- Prompts, dashboards, web routes, exports, back-testing, edge estimation and readiness checklists are not modelled: what they say can be read off their code.
