# NexaTrade trading core: a Dafny model

NexaTrade is an algorithmic trading platform. Strategies emit signals; a risk gate lets
them through or blocks them; a broker, simulated or real, turns what is left into fills;
a live feed and a historical store supply prices; and an analyser reports on the result.
This project models that core and proves what holds over whole runs of it, whatever the
strategy, the market and the order of events are. Prices and cash are exact reals,
quantities and times are integers, and rounding appears exactly where a value is recorded
rounded.

## How it is organised

Stateful components are modelled twice: as a pure step function on a value that holds the
whole state, about which the properties are proved, and as a class with the source's own
fields, whose methods are proved to take exactly those steps.

| component | step functions and laws | class or method |
|---|---|---|
| backtest broker and replay loop | `Positions`, `SimulatedBroker`, `FillPricing`, `OrderQueue`, `Ledger`, `Signals`, `Replay` | `Backtester` |
| paper broker | `Positions`, `PaperBroker`, `PaperHistory` | `PaperAdapter` |
| live feed | `TimeUtils`, `CandleAggregator`, `FeedService` | `CandleAggregator.Aggregator`, `FeedService.Service` |
| analytics | `Drawdown`, `Streaks`, `TradePairing`, `TradeStatistics` | the methods in them |
| risk gate and order pipeline | `RiskManager`, `RedisClient`, `RateLimiter` | `RiskGate`, `RedisClient.Redis`, `RateLimiter.Limiter` |
| historical data | `DataService` | `DataService.Cache` |

`Numbers`, `Sequences` and `MarketData` hold what they share.

The strategy is an arbitrary script: what it submits at the start, after each fill, on
each bar and at the end. A strategy may look at anything it likes; every terminating run
is the run of some script, so a law proved for all scripts holds for all strategies. The
paper broker, the rate limiter and the risk gate are state machines: a run is any sequence
of their atomic steps, in any order.

## Where the code does not do what it is said to do

Each line names the member that states exactly when, or for which inputs, the promise fails.

- **Look-ahead.** An order is promised a fill no earlier than the next bar
  (`backtesting/backtester.py:28-29`). An order that a fill callback submits joins the list
  being iterated, so its first chance is the bar it was submitted on
  (`Replay.FilledAtFirstTriggeringBar`), and the drain ends exactly if at some number of fills
  no more orders are triggered than that (`OrderQueue.DrainEndsExactlyWhereItSettles`): never
  for a strategy that answers each fill with an order the bar triggers
  (`OrderQueue.EchoedOrdersNeverSettle`).
- **Limits and stops in backtests.** Slippage is charged on limit orders, so a limit can be
  overshot (`FillPricing.LimitsCanBeOvershot`). A stop that the bar opens beyond fills at its
  trigger, even where the bar never traded (`FillPricing.FillsAtNearestAcceptablePrice`). A
  signal's stop-loss price is never acted upon (`Signals.StopLossPriceChangesNoFill`).
- **Paper limits.** A BUY limit below one paisa, less half a unit of the fourth place, fills
  above its limit (`PaperBroker.LimitIsHonouredUpToRounding`).
- **Paper triggers.** The trigger is not checked again between the scan that found it and the
  fill, so the terms an order fills at are triggered exactly unless the last amendment of its
  level in between moved it away (`PaperBroker.FillTermsTriggeredUnlessAmendedAway`, and
  `PaperBroker.AmendedAwayOrderFills` for a run in which that happens).
- **Paper order status.** Cancelled and unknown orders are reported complete
  (`PaperBroker.ReportIsWrongExactlyWhenNotFilled`).
- **Feed subscriptions.** Unsubscribing without an interval is documented to remove all of
  them and removes the default one (`FeedService.LastUnsubscribeLeavesOtherIntervals`);
  unsubscribing a consumer from everything leaves its second intervals and candle-only
  subscriptions counted (`FeedService.UnsubscribeAllFreesExactlySingleTickSubscriptions`); an
  unsubscription too many can take another consumer's symbol away
  (`FeedService.ExtraUnsubscribeTakesAnothers`); stopping the service leaves the broker
  streaming (`FeedService.StopLeavesBrokerStreaming`).
- **Risk gate.** Drawdown is documented to block new entries
  (`config/risk_config.yaml:12`), and so is the loss limit; both block exits too, and so does
  the limit of open positions (`RiskManager.ExitsPassExactlyWithinLimits`). A broker called
  `global` switches everybody off (`RiskManager.OnlyItsOwnSwitch`). A retry within the lifetime
  is taken for a duplicate exactly when the first attempt got past the duplicate check, even if
  the size or direction check then blocked it
  (`RiskManager.RetryIsADuplicateExactlyWhenRemembered`). The guard also suppresses signals that
  are not duplicates exactly where strategy and symbol can be divided at another colon so as to
  leave a valid symbol (`RiskManager.KeyIsUniqueExactlyWithoutAnotherSplit`).
- **Order sizing.** The position limit holds of every order exactly when it is at least one
  (`RiskGate.OrdersRespectSizeLimit`). An order with a price exceeds the capital limit exactly
  when its quantity was derived and its price is above the limit divided by that quantity
  (`RiskGate.OrderExceedsCapitalExactly`, and `RiskGate.EscapingOrdersPassTheGate` for orders
  that do). Gate and engine read an unset position limit as 500 and 100
  (`RiskGate.LimitsAgreeExactlyWhenConfigured`). An EXIT is documented to follow the position
  held and always sells (`RiskGate.ExitShrinksOnlyLongs`).
- **Rate limiter.** Documented as a token bucket, it is a fixed window. An interval of one
  window length exceeds the capacity exactly when a new window opens inside it and the two
  windows together allow more (`RateLimiter.CapacityExceededExactlyByBurst`), by up to twice
  the capacity, which is reached (`RateLimiter.BoundsAreReached`). A counter with a window that
  is not positive is gone at once (`RateLimiter.WindowLastsExactlyWhenPositive`).
- **Trade pairing.** Buys are documented to be paired with subsequent sells; pairing is by rank,
  so the exit of a covered short comes before its entry
  (`TradePairing.TradesExitAfterEntryExactly`).
- **Daily gaps.** A series that covers less than four fifths of the range is documented to be
  filled from the broker; a daily one over fewer than 2880 days is filled only when it is empty
  (`DataService.DailyGapIsMissedExactly`).
- **Date chunks.** A chunk length below one day never advances
  (`TimeUtils.ChunksAdvanceExactlyWhenPositive`).
- **Query cache.** A full cache evicts its oldest entry even when the key being stored is
  already cached (`DataService.Cache.CacheSet`).

## Model

| member | source | states |
|---|---|---|
| Positions.TradeConservesCost | backtesting/backtester.py:382-418 | over all four sign cases, a fill moves exactly its outlay into the cost basis of the units held, less what it realises |
| Positions.HistoryFixesPosition | backtesting/backtester.py:370-418 | after any fill history the quantity is the signed sum of the fills, the traded values are the sums per side, and realised P&L is sell value minus buy value plus quantity times average |
| Positions.RulesDetermineTrade | backtesting/backtester.py:377-418 | the accounting rules (adds realise nothing, reductions keep the average, flips restart it, books balance) hold of a record if and only if it is the one the engine computes |
| Positions.AverageWithinOpeningPrices | backtesting/backtester.py:382-415 | while a position is open its average lies within the prices of the opening-side fills since it was last flat or reversed |
| Positions.EnginesAgree | brokers/brokers/paper/paper_adapter.py:788-836 | on every fill sequence the paper and the simulated engine hold the same quantity, average and realised P&L |
| FillPricing.FillsExactlyWhenReached | backtesting/backtester.py:196-240 | an order is triggered, and for slippage below 100 % filled, if and only if the bar trades at a price acceptable to it |
| FillPricing.FillsAtNearestAcceptablePrice | backtesting/backtester.py:204-235 | slippage aside the fill is at the acceptable price nearest to the open, except exactly for stops the bar opens beyond; it is a price of the bar except exactly when the bar gaps over the stop |
| FillPricing.SlippageIsAdverse | backtesting/backtester.py:204-235 | more slippage never lowers a buyer's price or raises a seller's, and never stops a fill |
| FillPricing.SlippageInAmounts | backtesting/backtester.py:204-239 | the fill price is the price without slippage plus, for a buyer, or minus the percentage of the open or of the order's own level, and at least one paisa |
| FillPricing.LimitsCanBeOvershot | backtesting/backtester.py:212-235 | a limit order fills beyond its limit exactly when there is slippage and the bar opens within it of the limit, or a BUY limit is below the one-paisa floor, and by no more than that slippage or the rest of the paisa |
| FillPricing.EnginesTriggerAlike | brokers/brokers/paper/paper_adapter.py:616-647 | a tick triggers a waiting order in the paper broker if and only if a bar at that price triggers it in a backtest; slippage aside limit orders get the same price from both, and stops without a price exactly when the tick is at the trigger |
| Signals.StopLossPriceChangesNoFill | backtesting/backtester.py:913-946 | the stop-loss price of a signal affects neither when its order fills nor at what price |
| Signals.RequestsCarrySignals | backtesting/backtester.py:912-946 | a list of signals becomes, in order, one order for each that asks for a trade at valid terms, with its symbol, side, price, stop-loss price and quantity or one |
| OrderQueue.DrainPartition | backtesting/backtester.py:194-245 | although callbacks append to the list being iterated, a drain splits what was pending and everything submitted during it into filled and still pending, both in submission order |
| OrderQueue.DrainConserves | backtesting/backtester.py:194-245 | a drain loses no order, duplicates none and keeps submission order |
| OrderQueue.SubmitAllConserves | backtesting/backtester.py:149-161 | so does submitting |
| OrderQueue.PendingOrFilledOnce | backtesting/backtester.py:161-332 | every submitted order is in exactly one of pending and filled, once |
| OrderQueue.DrainFillsExactlyTheTriggered | backtesting/backtester.py:196-243 | a drain fills an order waiting before it or submitted during it if and only if the candle triggers it |
| OrderQueue.DrainEndsExactlyWhereItSettles | backtesting/backtester.py:194-245 | for every strategy a drain ends if and only if at some number of fills that is also the number of orders triggered among those pending and those submitted by then, and it makes the least such number |
| OrderQueue.EchoedOrdersNeverSettle | backtesting/backtester.py:196-245 | once an order fills, a strategy that answers each fill with one order the candle triggers uses up any number of answers, whatever else is pending |
| Ledger.ExecuteKeepsBooks | backtesting/backtester.py:264-332 | a fill keeps cash, positions, records and commission (the configured percentage of each fill's value) functions of the fill history, and the profit the fills report adds up to what the positions realised |
| Ledger.DrainKeepsBooks | backtesting/backtester.py:194-346 | so does every drain, whatever its callbacks submit |
| Ledger.Conservation | backtesting/backtester.py:426-471 | at any prices, cash plus position value is initial capital plus realised plus unrealised P&L minus total commission |
| Ledger.FlatAccountHoldsItsProfitInCash | backtesting/backtester.py:285-289 | once every position is flat the change in cash is realised P&L minus commission |
| Ledger.SnapshotConserves | backtesting/backtester.py:486-502 | the rounded figures of a snapshot obey the conservation law to within 0.015 |
| Ledger.ReplayErrorBound | backtesting/backtester.py:291-309 | cash rebuilt from the rounded fill records is within half a unit of the fourth place per unit traded, and one more per fill, of the broker's cash |
| Replay.EveryRunIsSound | backtesting/backtester.py:744-792 | after any number of bars of any run the ledger balances, no order is lost or duplicated, and none fills on the bar it was submitted in unless a fill callback of that bar submitted it |
| Replay.FilledAtFirstTriggeringBar | backtesting/backtester.py:194-245 | in every run an order is filled at a bar if and only if that is the first one, from its own bar on for a fill-callback order and from the next otherwise, whose candle triggers it; it is pending if and only if there is none yet |
| Replay.BarSubmits | backtesting/backtester.py:744-784 | each bar accepts, in order, the answers to its fills, what the tick handler asked for, and, exactly from the end of the warm-up on, what the candle handler asked for |
| Replay.EveryFillIsAtMarket | backtesting/backtester.py:196-332 | in every run each fill is at the price its order gets from its own bar, its record bears that bar's time, and total slippage is the sum of the fills' distances from their opens |
| Replay.FinishedRunIsSound | backtesting/backtester.py:803-809 | orders placed while stopping keep all that and are never filled |
| Replay.EverySnapshotReconciles | backtesting/backtester.py:784-790 | every point of the equity curve of every run reconciles with the commission paid by then |
| Replay.EverySnapshotMarksToMarket | backtesting/backtester.py:426-502 | in every run each snapshot reports, to half a paisa, cash, cash plus the units at the bar's close (other symbols at cost), their gain on the average price, and realised P&L |
| Replay.RunEndsAtFirstStop | backtesting/backtester.py:744-746 | the loop ends before the first bar it is told to stop before, or with the last |
| Backtester.SimBroker.constructor | backtesting/backtester.py:97-126 | a new broker holds its capital and nothing else |
| Backtester.SimBroker.SubmitOrder | backtesting/backtester.py:132-161 | appends the order to the pending list under a new identifier |
| Backtester.SimBroker.UpdatePosition | backtesting/backtester.py:348-420 | replaces one symbol's position by what the averaging engine makes of the fill, and returns what it realises |
| Backtester.SimBroker.UpdateRecord | backtesting/backtester.py:377-420 | the field-by-field update computes the engine's position and P&L |
| Backtester.SimBroker.ExecuteFill | backtesting/backtester.py:247-332 | the whole new state of the ledger after a fill |
| Backtester.SimBroker.ProcessPendingOrders | backtesting/backtester.py:176-245 | the loop over the growing list is the drain of the model |
| Backtester.SimBroker.RecordEquitySnapshot | backtesting/backtester.py:473-502 | appends the rounded snapshot and changes nothing else |
| Backtester.Run | backtesting/backtester.py:716-809 | refuses a series that is empty or lacks a column, untouched; otherwise ends in the state after the bars up to the first stop request, which satisfies every law of a run |
| PaperBroker.EveryRunIsValid | brokers/brokers/paper/paper_adapter.py:171-366 | under every interleaving, open orders, positions and fills tell the story of the event history, in which each event finds its order in the state it needs, each scan finds exactly the triggered orders, and each later fill had such a scan |
| PaperBroker.EveryOrderHasOneFate | brokers/brokers/paper/paper_adapter.py:598-701 | under every interleaving of ticks, scans, fills, placing, amending and cancelling, an accepted order is in exactly one of open, filled once and cancelled once |
| PaperBroker.NothingAfterTheEnd | brokers/brokers/paper/paper_adapter.py:349-366 | nothing happens to an order after it has filled or been cancelled |
| PaperBroker.FillsCarryLatestTerms | brokers/brokers/paper/paper_adapter.py:653-672 | every fill carries the last requested quantity at a price the last requested limit allows, even when amended between scan and fill |
| PaperBroker.EveryFillWasTriggered | brokers/brokers/paper/paper_adapter.py:609-701 | in every run each fill of a limit or stop order carries the tick of an earlier scan at which the order's terms of that moment were triggered, and fills of market orders alone carry none |
| PaperBroker.FillTermsTriggeredUnlessAmendedAway | brokers/brokers/paper/paper_adapter.py:653-661 | the terms an order fills at are triggered by that tick if and only if no amendment since the scan gave it a new level, or the last that did gave one the tick meets |
| PaperBroker.AmendedAwayOrderFills | brokers/brokers/paper/paper_adapter.py:609-661 | a whole run in which a stop triggered at 120 is amended to 200 before its fill and fills |
| PaperBroker.LimitIsHonouredUpToRounding | brokers/brokers/paper/paper_adapter.py:737-747 | a fill beats its limit in the wrong direction by at most half a unit of the fourth place, except exactly for BUY limits below a paisa less that |
| PaperBroker.PromptFillIsNoWorseThanLimit | brokers/brokers/paper/paper_adapter.py:616-632 | filled at the price that triggered it, a limit order gets a price between the market's and its limit |
| PaperBroker.MarketFillPaysSlippage | brokers/brokers/paper/paper_adapter.py:732-747 | an order without a price level gets the last price or a worse one |
| PaperBroker.PositionIsNetOfFills | brokers/brokers/paper/paper_adapter.py:765-836 | every instrument's position is the net of its fills and its realised P&L conserves their cash |
| PaperBroker.TriggerIsNotRechecked | brokers/brokers/paper/paper_adapter.py:653-661 | an order amended after the scan that triggered it still fills, at its new terms |
| PaperBroker.ReportIsWrongExactlyWhenNotFilled | brokers/brokers/paper/paper_adapter.py:377-397 | an order is reported complete without having filled if and only if it was cancelled or never accepted |
| PaperBroker.UninterruptedCheckFillsTheTriggered | brokers/brokers/paper/paper_adapter.py:598-681 | a price check that nothing interrupts records one fill for each triggered order, in the order they were placed, and leaves the other orders as they were |
| PaperHistory.TermsAreLastAsked | brokers/brokers/paper/paper_adapter.py:322-335 | in every run each fill is for the quantity last asked for, and each open order stands at the quantity, price and trigger price last asked for |
| PaperHistory.LastPriceIsLastTick | brokers/brokers/paper/paper_adapter.py:582-592 | in every run the cached price of a symbol is that of its last tick since it was last unsubscribed, or else 100 |
| PaperHistory.MarketOrderFillsAtLastTick | brokers/brokers/paper/paper_adapter.py:209-236 | a market order fills on placing for its own quantity at the last tick of its symbol plus or minus the slippage percentage of it, at least one paisa, to four places |
| PaperHistory.CheckedOrderFillsAtLastTick | brokers/brokers/paper/paper_adapter.py:653-691 | the turn of an order in a check fills it for the quantity last asked for, at the better of the price last asked for and the last tick with slippage |
| PaperHistory.StatusChangesExactly | brokers/brokers/paper/paper_adapter.py:171-375 | placing makes an unknown order open or, at market, filled; cancelling drops an open one; its turn in a check fills it; nothing else changes any order's status |
| PaperHistory.PlacingOpens | brokers/brokers/paper/paper_adapter.py:263-274 | a new order that is not a market order is opened at its own terms, after the others |
| PaperHistory.AmendingReplacesGivenTerms | brokers/brokers/paper/paper_adapter.py:302-337 | amending an open order replaces the terms given, keeps the others, and leaves every other order alone |
| PaperHistory.CancellingRemoves | brokers/brokers/paper/paper_adapter.py:349-354 | cancelling removes that order and nothing else |
| PaperHistory.EveryFillIsOfItsOrder | brokers/brokers/paper/paper_adapter.py:662-685 | in every run each fill record has its order's instrument and side and is charged the configured percentage of its value, to four places |
| PaperHistory.ModifiedExactlyWhenAmended | brokers/brokers/paper/paper_adapter.py:337-340 | in every run an open order is reported modified if and only if it has been amended |
| PaperAdapter.Adapter.constructor | brokers/brokers/paper/paper_adapter.py:70-87 | a new adapter has no orders, positions, fills or prices |
| PaperAdapter.Adapter.PlaceOrder | brokers/brokers/paper/paper_adapter.py:187-300 | a rejection drawn by the stress test leaves no trace; otherwise takes the placing step: a market order fills at once, any other is opened |
| PaperAdapter.Adapter.ModifyOrder | brokers/brokers/paper/paper_adapter.py:302-347 | takes the amending step, or rejects an order that is not open |
| PaperAdapter.Adapter.CancelOrder | brokers/brokers/paper/paper_adapter.py:349-375 | takes the cancelling step, or rejects an order that is not open |
| PaperAdapter.Adapter.GetOrderStatus | brokers/brokers/paper/paper_adapter.py:377-397 | reports the status the model derives from the open orders |
| PaperAdapter.Adapter.UpdateLastPrice | brokers/brokers/paper/paper_adapter.py:582-596 | caches the price and starts one check task |
| PaperAdapter.Adapter.UnsubscribeTicks | brokers/brokers/paper/paper_adapter.py:546-552 | forgets the cached price |
| PaperAdapter.Adapter.ScanOpenOrders | brokers/brokers/paper/paper_adapter.py:609-650 | the scan collects exactly the triggered open orders, in insertion order |
| PaperAdapter.Adapter.FillNextOrder | brokers/brokers/paper/paper_adapter.py:653-691 | one turn of the fill loop: pops the order if it is still open and records its fill |
| PaperAdapter.Adapter.CheckPendingFills | brokers/brokers/paper/paper_adapter.py:598-701 | scan and fill loop together, uninterrupted |
| PaperAdapter.Adapter.UpdatePosition | brokers/brokers/paper/paper_adapter.py:765-836 | replaces one instrument's position by what the averaging engine makes of the fill |
| TimeUtils.FloorIsLatestBoundary | utils/time_utils.py:80-109 | the floor is the latest candle boundary of the same day that is not after the given time |
| TimeUtils.FloorMonotone | utils/time_utils.py:80-109 | a later time never has an earlier floor |
| TimeUtils.DateRangeChunks | utils/time_utils.py:139-165 | the chunks tile the range, none is empty or too long, only the last may be short, and there are as few as possible |
| TimeUtils.ChunksAdvanceExactlyWhenPositive | utils/time_utils.py:161-165 | the generator makes progress if and only if a chunk is at least one day |
| CandleAggregator.CandlesAreGroups | services/feed_service.py:172-243 | for every tick sequence, late ticks included, the closed candles and the current one are summaries of the ticks grouped by the running maximum of their boundary: first, highest, lowest and last price and total volume, in strictly increasing time order |
| CandleAggregator.EveryGroupHasACandle | services/feed_service.py:183-197 | and every group has its candle |
| CandleAggregator.OrderedTicksJoinTheirOwnGroup | services/feed_service.py:183-197 | when no tick is late each joins the candle of its own boundary |
| CandleAggregator.CandlesAreBars | services/feed_service.py:199-243 | low is at most, and high at least, open and close |
| CandleAggregator.VolumeIsConserved | services/feed_service.py:213-221 | the candles' volumes add up to the ticks' |
| CandleAggregator.FlushedCandleReappearsExactly | services/feed_service.py:187-268 | a flushed candle is appended a second time if and only if another flush or a tick of a later boundary follows (the service drops the aggregator after a flush, so it has neither) |
| CandleAggregator.EachListenerIsTold | services/feed_service.py:245-256 | a closed candle goes to each listener once, in the order they were registered |
| CandleAggregator.Aggregator.constructor | services/feed_service.py:91-115 | a new aggregator has seen nothing |
| CandleAggregator.Aggregator.OnCandleClose | services/feed_service.py:153-161 | registers a callback once |
| CandleAggregator.Aggregator.ProcessTick | services/feed_service.py:172-197 | keeps the object in step with the fold over all ticks, and tells every listener of each closed candle once |
| CandleAggregator.Aggregator.EmitCandleClose | services/feed_service.py:245-256 | calls the listeners once each, in order |
| CandleAggregator.Aggregator.ForceCloseCurrent | services/feed_service.py:258-268 | appends the partial candle, tells nobody and leaves it in progress |
| CandleAggregator.Aggregator.SeedFromHistory | services/feed_service.py:270-279 | the buffer holds the last `buffer_size` of everything appended, seeds included |
| FeedService.CountsAlwaysMatchBroker | services/feed_service.py:487-571 | after every call all stored counts are positive and the counted symbols are exactly the broker's |
| FeedService.StreamedExactlyWhileHeld | services/feed_service.py:487-571 | among consumers that only give back what they have, a symbol is streamed if and only if somebody holds it |
| FeedService.ExtraUnsubscribeTakesAnothers | services/feed_service.py:553-565 | an unsubscription too many ends the stream if and only if at most one subscription is held |
| FeedService.AggregatorSurvives | services/feed_service.py:464-571 | an aggregator lives while its symbol stays counted |
| FeedService.AggregatorOutlivesOtherConsumers | services/feed_service.py:464-571 | every aggregator created for a subscription survives while anybody holds the symbol |
| FeedService.LastUnsubscribeLeavesOtherIntervals | services/feed_service.py:537-571 | the last unsubscription leaves no aggregator behind if and only if the symbol had no other interval |
| FeedService.TickCallbacksAreHeld | services/feed_service.py:480-485 | a consumer holds every symbol it has a tick callback for |
| FeedService.CalledBackExactly | services/feed_service.py:480-550 | a consumer is called back for exactly the symbols it gave a tick callback for and has not unsubscribed from since |
| FeedService.UnsubscribeAllFreesExactlySingleTickSubscriptions | services/feed_service.py:610-628 | unsubscribing from everything frees a consumer if and only if it held each symbol at most once and only with a tick callback |
| FeedService.ApplyAllContinuesRun | services/feed_service.py:610-628 | its calls continue the run as if made one by one |
| FeedService.StopLeavesBrokerStreaming | services/feed_service.py:387-407 | after a stop counts and broker agree if and only if nothing was streaming, and what was keeps streaming while nobody touches it |
| FeedService.Service.constructor | services/feed_service.py:323-357 | a new service counts nothing |
| FeedService.Service.Subscribe | services/feed_service.py:413-519 | takes the subscribing step |
| FeedService.Service.Unsubscribe | services/feed_service.py:521-575 | takes the unsubscribing step |
| FeedService.Service.UnsubscribeAll | services/feed_service.py:610-634 | unsubscribes every symbol with a tick callback at the default interval |
| FeedService.Service.Stop | services/feed_service.py:387-407 | forgets everything but what the broker streams |
| Drawdown.WorstDrawdown | backtesting/performance.py:262-315 | an empty curve has no drawdown; otherwise the trough is the first bar furthest below its peak in percent, start is the first bar at that peak, recovery is the least recovering offset, -1 if there is none and 0 if the trough is last, and on a positive curve the percentage is the largest fall between any two bars in order |
| Drawdown.PeakIsMaximum | backtesting/performance.py:286 | the running peak is the maximum so far, and is attained |
| Drawdown.FallGrowsWithStart | backtesting/performance.py:286-289 | from a higher start the percentage fall to the same value is at least as deep, which is why the peak decides |
| Streaks.StreakMetrics | backtesting/performance.py:400-444 | the streaks are the lengths of the longest winning and losing blocks, and the current streak is the signed length of the block ending at the last uneven trade; all zero below two trades |
| TradePairing.BuildTrades | backtesting/performance.py:466-512 | the trades are, symbol by symbol, the pairs of the symbol's buys and sells |
| TradePairing.GroupBySymbol | backtesting/performance.py:478-481 | groups the fills by symbol in order of first appearance |
| TradePairing.PairFills | backtesting/performance.py:485-512 | popping both queues while both last pairs fills by rank |
| TradePairing.PairsMatchByRank | backtesting/performance.py:496-512 | trade k joins buy k and sell k with their times, prices and commissions, the smaller quantity and what it gained, and there are as many trades as fills on the shorter side |
| TradePairing.TradesOfEachSymbol | backtesting/performance.py:478-512 | the trades of each symbol are the pairs of its own buys and sells |
| TradePairing.TradesExitAfterEntryExactly | backtesting/performance.py:485-512 | every trade exits no earlier than it enters if and only if at no time more of the paired sells have been executed than buys |
| TradePairing.PairingAccountsForCash | backtesting/performance.py:499-502 | for any fills, P&L before rounding plus what pairing misses is the cash the fills moved |
| TradePairing.AnalyticsReconcileWithLedger | backtesting/performance.py:484-512 | for one symbol, equal quantities and as many sells as buys, summed trade P&L is the change in the ledger's cash up to the recorded rounding, and that is realised P&L less commission |
| TradeStatistics.ExpectancyIsMeanPnl | backtesting/performance.py:219-239 | the two-sided expectancy formula is the mean trade P&L |
| TradeStatistics.CountsCountOutcomes | backtesting/performance.py:212-220 | the counts are the numbers of winning, losing and even trades |
| TradeStatistics.AveragesGiveBackTotals | backtesting/performance.py:221-250 | averages and win rate give back sum, sum of sizes and number of winners, and the profit factor is the ratio of gain to loss |
| TradeStatistics.ProfitFactorTellsGain | backtesting/performance.py:216-233 | outcomes partition the trades; the profit factor is infinite exactly when there are trades and none lost, and a finite one exceeds one if and only if the trades gain |
| RedisClient.Redis.constructor | data/storage/redis_client.py:53-59 | a new store is empty |
| RedisClient.Redis.SetValue | data/storage/redis_client.py:114-132 | stores the value with its lifetime, for ever when that is zero |
| RedisClient.Redis.GetValue | data/storage/redis_client.py:134-137 | returns what is stored and has not expired |
| RedisClient.Redis.SetKillSwitch | data/storage/redis_client.py:384-399 | writes one broker's switch, without expiry |
| RedisClient.Redis.IsKillSwitchActive | data/storage/redis_client.py:401-407 | reads one broker's switch |
| RedisClient.SwitchKeysDiffer | data/storage/redis_client.py:394-420 | different names have different switches |
| RateLimiter.WindowAllowsItsCapacity | data/storage/redis_client.py:486-523 | between creation of the counter and its expiry exactly the first `max_calls` calls are allowed, however the calls' two steps interleave |
| RateLimiter.AnyIntervalAllowsTwiceCapacity | data/storage/redis_client.py:486-523 | in any interval one window long at most twice `max_calls` calls are allowed |
| RateLimiter.IntervalIsTwoWindows | data/storage/redis_client.py:486-523 | what an interval no longer than a window allows is the sum of what it meets of two consecutive windows, each within the capacity |
| RateLimiter.WithinIsShare | data/storage/redis_client.py:486-523 | what a window allows within an interval is the capacity its calls by the end use up, less what its calls before the start did |
| RateLimiter.CapacityExceededExactlyByBurst | data/storage/redis_client.py:486-523 | such an interval exceeds the capacity if and only if the calls of two consecutive windows use up more than it there, the second opening inside the interval after a call of the first |
| RateLimiter.HalfOpenIntervalAllowsOneLess | data/storage/redis_client.py:486-523 | without its end point an interval of one window length allows at most one call less than twice `max_calls` |
| RateLimiter.BoundsAreReached | data/storage/redis_client.py:486-523 | for every capacity and window there is a timed run that reaches twice the capacity, and, for windows of two seconds or more, one less without the end point |
| RateLimiter.WindowLastsExactlyWhenPositive | data/storage/redis_client.py:519-521 | a counter outlives the call that creates it if and only if the window is positive |
| RateLimiter.Limiter.constructor | data/storage/redis_client.py:53-59 | a new limiter has no counter |
| RateLimiter.Limiter.IncrementAndReadTtl | data/storage/redis_client.py:510-516 | the transaction takes the calling step and returns the count and whether a lifetime is missing |
| RateLimiter.Limiter.Expire | data/storage/redis_client.py:518-521 | sets the lifetime of a counter that still exists |
| RateLimiter.Limiter.CheckRateLimit | data/storage/redis_client.py:486-523 | a whole call: allowed if and only if its count is at most `max_calls` |
| RiskManager.PassesExactlyWhenNoCheckObjects | strategies/risk_manager.py:113-161 | a signal passes if and only if none of the ten checks, each judged against the store before the gate ran, objects |
| RiskManager.PassesExactlyWithinLimits | strategies/risk_manager.py:170-485 | a signal passes if and only if no switch is on, loss, drawdown and open positions are within their limits, and the signal itself is in hours or an exit, affordable, small enough, not blacklisted, not a duplicate, not a hold, and does not add to what is held |
| RiskManager.ExitsPassExactlyWithinLimits | strategies/risk_manager.py:113-161 | an exit is spared market hours and the direction check only: it passes if and only if the account is within every limit and the signal within the others, so loss, drawdown and open positions at their limits block it |
| RiskManager.BlockedUnderFirstObjection | strategies/risk_manager.py:126-132 | a blocked signal is counted under the first objection and no other |
| RiskManager.BlockReasonIsTrue | strategies/risk_manager.py:170-491 | whatever a signal is blocked for is true of it |
| RiskManager.TradeLimitIsPercentage | strategies/risk_manager.py:322-331 | the limit per trade is the configured percentage of the capital |
| RiskManager.ChecksWriteLittle | strategies/risk_manager.py:231-409 | a signal writes at most one key: its broker's switch exactly when the loss limit blocks it, or its own dedup key when absent |
| RiskManager.StoreAfterSignal | strategies/risk_manager.py:231-409 | a signal writes its dedup key if it is remembered, its broker's switch if the loss limit is the first to object, and otherwise nothing |
| RiskManager.KeyAppearsExactlyWhenRemembered | strategies/risk_manager.py:387-409 | a signal's dedup key comes to life if and only if the signal gets past the duplicate check; one stopped earlier leaves every dedup key as it was |
| RiskManager.DuplicateExactlyWhileRemembered | strategies/risk_manager.py:387-409 | in every run the duplicate check objects to a signal if and only if one with its key was remembered earlier and its lifetime is not over |
| RiskManager.RememberedSignalsAreSpaced | strategies/risk_manager.py:387-409 | in any run, two equal signals that get past the duplicate check are at least the first one's lifetime apart |
| RiskManager.DuplicatesAreSuppressed | strategies/risk_manager.py:113-163 | any two approved signals of the same strategy, symbol and direction are at least the lifetime apart, whatever happens between them |
| RiskManager.ClockShowsElapsed | strategies/risk_manager.py:387-409 | in every run the store's clock shows the time that has passed |
| RiskManager.BlockedSignalsSuppressTheirRetry | strategies/risk_manager.py:387-480 | a signal that only the size or direction check blocks is not approved again within its lifetime |
| RiskManager.RetryIsADuplicateExactlyWhenRemembered | strategies/risk_manager.py:387-480 | the retry of a new signal within its lifetime is taken for a duplicate if and only if the first attempt was remembered |
| RiskManager.KeysCollideExactly | strategies/risk_manager.py:388-391 | two signals share a key if and only if they have the same direction and their strategies and symbols read the same once joined by a colon |
| RiskManager.KeysOfPlainNamesIdentify | strategies/risk_manager.py:388-391 | among strategies without a colon in their names a key identifies strategy, symbol and direction |
| RiskManager.KeyIsUniqueExactlyWithoutAnotherSplit | strategies/risk_manager.py:388-391 | no other signal with a valid symbol shares a signal's key if and only if strategy and symbol cannot be divided at another colon so as to leave a valid symbol |
| RiskManager.LowerCaseNamesKeepKeysApart | brokers/models.py:584-587 | a colon in a strategy's name does no harm where a lower-case letter follows it in the name and the symbol has no colon |
| RiskManager.LossLatchesBroker | strategies/risk_manager.py:177-244 | from the first signal blocked for daily loss, every later one of that broker is blocked by a switch, exits included, until disarmed |
| RiskManager.OnlyItsOwnSwitch | strategies/risk_manager.py:231-244 | a signal never changes another broker's switch, and switches all off exactly when blocked for loss under the name `global` |
| RiskManager.SwitchIsAsLastSet | strategies/risk_manager.py:497-549 | in every run a switch is on if and only if the last event that set it, by hand or by a breached loss limit, armed it |
| RiskManager.ArmedBrokersPassNothing | strategies/risk_manager.py:177-191 | while its own switch or that of all brokers is armed no signal of a broker passes |
| RiskManager.CountersAddUp | strategies/risk_manager.py:126-163 | in every run approved plus blocked is the number of gate calls since the last reset, and the reason counts add up to blocked |
| RiskGate.Manager.constructor | strategies/risk_manager.py:65-78 | a new gate has counted nothing |
| RiskGate.Manager.CheckKillSwitch | strategies/risk_manager.py:170-191 | objects if the switch of all brokers or of this one is on |
| RiskGate.Manager.CheckMarketHours | strategies/risk_manager.py:193-214 | objects outside market hours, except to exits |
| RiskGate.Manager.CheckDailyLossLimit | strategies/risk_manager.py:216-247 | objects to a breached loss limit and arms the broker's switch |
| RiskGate.Manager.CheckDrawdown | strategies/risk_manager.py:249-279 | objects to a drawdown at or above the limit, when one is known |
| RiskGate.Manager.CheckMaxPositions | strategies/risk_manager.py:281-308 | objects at the limit of open positions |
| RiskGate.Manager.CheckCapitalPerTrade | strategies/risk_manager.py:310-343 | objects when a suggested quantity times a suggested price is above the capital limit |
| RiskGate.Manager.CheckBlacklist | strategies/risk_manager.py:345-375 | objects to blacklisted symbols and exchanges |
| RiskGate.Manager.CheckDuplicateSignal | strategies/risk_manager.py:377-412 | objects when the dedup key lives, and otherwise writes it |
| RiskGate.Manager.CheckPositionSize | strategies/risk_manager.py:414-438 | objects to a suggested quantity above the position limit |
| RiskGate.Manager.CheckDirectionConflict | strategies/risk_manager.py:440-491 | objects to holds and to adding to the side held, never to exits |
| RiskGate.Manager.RunCheck | strategies/risk_manager.py:113-124 | the checks in the order of the list |
| RiskGate.Manager.ApproveSignal | strategies/risk_manager.py:84-163 | stops at the first objection and updates counters and store as the model does |
| RiskGate.Manager.ArmKillSwitch | strategies/risk_manager.py:497-516 | takes the arming step |
| RiskGate.Manager.DisarmKillSwitch | strategies/risk_manager.py:518-531 | takes the disarming step |
| RiskGate.Manager.ArmGlobalKillSwitch | strategies/risk_manager.py:536-543 | takes the arming step for all brokers |
| RiskGate.Manager.DisarmGlobalKillSwitch | strategies/risk_manager.py:545-548 | takes the disarming step for all brokers |
| RiskGate.Manager.ResetCounters | strategies/risk_manager.py:578-582 | clears the counters and nothing else |
| RiskGate.OrdersRespectSizeLimit | strategies/strategy_engine.py:713-724 | every order leaving the pipeline has a positive quantity, within the position limit if and only if that is at least one |
| RiskGate.LimitsAgreeExactlyWhenConfigured | strategies/strategy_engine.py:713-724 | gate and engine use the same position limit if and only if one is configured |
| RiskGate.OrderCarriesSignal | strategies/strategy_engine.py:694-752 | an order has its signal's symbol, side, price unless zero, stop-loss price, and its quantity or else the whole units in limit times strength, at least one |
| RiskGate.SuggestedOrdersRespectCapital | strategies/risk_manager.py:318-340 | when quantity and price are both suggested their product is within the capital limit per trade |
| RiskGate.DerivedOrdersEscapeCapitalLimit | strategies/strategy_engine.py:713-732 | the capital check never objects to a signal that suggests a price and no quantity, and its order exceeds the limit if and only if the price is above the limit divided by the derived quantity |
| RiskGate.OrderExceedsCapitalExactly | strategies/strategy_engine.py:713-732 | an approved order with a price exceeds the capital limit if and only if its quantity was derived and its price is that high |
| RiskGate.EscapingOrdersPassTheGate | strategies/risk_manager.py:84-163 | at the source's default limits a full-strength signal with only a price passes the gate at any price, and exceeds the capital limit above 1000 |
| RiskGate.BacktestOrdersMatchLiveOrders | backtesting/backtester.py:912-941 | a signal becomes the same order in a backtest and live if and only if it is not tradable (a hold, or a negative quantity or price, or a stop-loss price not above zero), or suggests no price of zero and either a quantity or a strength and limit too small for two units |
| RiskGate.ExitShrinksOnlyLongs | strategies/strategy_engine.py:705-708 | an EXIT shrinks the position if and only if that is long and the order is less than twice it |
| RiskGate.StrategyEngine.constructor | strategies/strategy_engine.py:96-134 | a new engine has placed and routed nothing |
| RiskGate.StrategyEngine.ProcessSignal | strategies/strategy_engine.py:550-658 | places an order exactly when the gate passes, the signal translates and the broker does not fail, routes it to its strategy and counts it there |
| DataService.MergeOverrides | services/data_service.py:538-542 | as a map the merged series is the stored one overridden by the broker's, in strict time order |
| DataService.GapIsFourFifths | services/data_service.py:490-511 | a gap is found if and only if the interval is a minute or more and the rows are fewer than four fifths of those expected, or of one |
| DataService.IntradayBarsFillTheDays | services/data_service.py:497-506 | intraday, the bars expected are the whole intervals in 375 minutes a day |
| DataService.DailyGapIsMissedExactly | services/data_service.py:494-511 | a daily series short of four fifths of the days is left alone if and only if its rows reach four fifths of a 1440th of the days, or of one; below 2880 days, if and only if it has any row |
| DataService.FillGapsOverridesOnGap | services/data_service.py:490-542 | broker rows take precedence exactly when coverage is below four fifths; the merged rows are strictly sorted, and others are handed on as they were |
| DataService.CellIsRead | services/data_service.py:622-633 | a missing column reads zero and an unreadable cell is not a number, so a frame without closes keeps no row |
| DataService.CleaningLaws | services/data_service.py:619-650 | whatever order the sort gives equal times, the result is strictly sorted, has exactly the times of rows with positive close, and every bar is one of those rows with high and low raised and lowered to its open and close |
| DataService.CleaningIsIdempotent | services/data_service.py:619-650 | cleaning a cleaned series changes nothing |
| DataService.Clean | services/data_service.py:598-650 | the result is one that cleaning may return |
| DataService.Cache.constructor | services/data_service.py:91-94 | a new cache is empty |
| DataService.Cache.CacheSet | services/data_service.py:688-702 | exactly which entries survive, and in which order, when one is stored |

## Left out

- Web routes, WebSocket fan-out, authentication, logging, pub/sub, JSON, SQL and Influx writes, and vendor broker calls: outside effects.
- Floating-point rounding inside computations: prices and cash are exact reals; the recorded roundings are modelled.
- Strategies whose callbacks never stop submitting: a drain is modelled when it terminates; `OrderQueue.EchoedOrdersNeverSettle` shows when it does not.
- What the strategy can see (candle buffer, feed adapter, indicators): it is an arbitrary script, so nothing is proved about what it knew.
- Sharpe, Sortino, Calmar, CAGR, average drawdown, largest win and loss, and the report's final rounding.
- Sorting the equity curve by time and the trades by entry time before they are analysed.
- Collisions of generated identifiers: order identifiers are taken to be fresh.
- Paper broker `connect` and `disconnect`: one session is modelled.
- PaperAdapter.Adapter.PlaceOrder: takes the outcome of the stress test's random draw as an argument.
- Suspension of a feed listener inside `process_tick`, and of the broker call inside `subscribe`: whole calls are the atomic steps.
- Fetching the history that seeds a new aggregator, delivery of ticks to consumers, and broker hot-swap.
- Storage failures: the risk checks let signals through when the store raises, and every call is taken to succeed.
- Interleaved signals inside the risk gate: signals are served one at a time.
- RiskGate.StrategyEngine.ProcessSignal: does not model the order row in the database or the event it publishes.
- Routing of order updates back to strategies.
- Case folding and trimming of symbols, exchanges and broker names: what validation leaves of a symbol is stated, for ASCII, where a property turns on it.
- The joined key of a feed subscription: symbol and exchange are a pair, so symbols with a colon that would share a count are kept apart.
- The formatted text of block reasons: reasons are values, so two losses that print alike are counted apart.
- Time zones: times are local clock times of a zone without daylight saving.
- How a data frame stores its cells: a row's cells are numbers or missing, and `DataService.Clean` picks one of the orders the unstable sort may leave equal times in, while the laws hold for all of them.
- DataService.Clean: states only that the result is possible; its properties are in `DataService.CleaningLaws`.
- RiskGate.Manager.RunCheck: takes the clock, P&L, drawdown and position readings as inputs.
- Backtester.SimBroker.RecordEquitySnapshot: does not record `drawdown_pct`, which is undefined for an initial capital of zero and which the analyser does not read.
- Backtester.Run: does not state the metrics computed at the end; those modelled are in the analytics modules.
- FeedService.Service.Subscribe: does not model the candle callback and the seeding it hands to the aggregator, which `CandleAggregator.Aggregator` has.
- TradePairing.AnalyticsReconcileWithLedger: says nothing of unequal quantities; `TradePairing.PairingAccountsForCash` says what pairing misses then.
- Backtest grid search, walk-forward, plugin discovery and technical indicators: orchestration and library calls.
