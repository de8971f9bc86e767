# Verified models of the option-trading engine

Dafny models of the parts of the engine that hold money, orders or market data in state, with proofs of what they
promise. Each file follows one source file (`Rounding.dfy` and `Calendar.dfy` are shared helpers). Run
`dafny verify dfyconfig.toml` to check everything.

How the models are set up:

- Prices and money are `real`; instants are integers (micro-seconds or seconds on the local axis) or `real` clock
  readings. Python's `round` is modelled exactly on reals (ties to even).
- Whatever the code cannot control is a parameter, quantified over: the broker is an arbitrary function from the
  position of a call and the request to what happens, the trap scanner an arbitrary function of the bars shown to it,
  the clock an arbitrary non-decreasing sequence of readings.
- Code that changes state is a class or a loop here too. Its contracts tie the new state to a declarative
  specification, and the theorems are about that specification: the ratchet by an existential statement over bars, the
  candles by grouping, the gate by questions to its history, the position record by a cash ledger, the regular
  expressions by string concatenation.
- Handlers between two awaits are atomic steps; a run is any sequence of them.

Findings, each with the lemma or method that shows it and, where there is one, the exact condition:

- A failed status read after an IOC order makes the executor trade twice the quantity and report a clean fill
  (`SmartExecutor.LostReadDoubles`). It stays within the quantity if and only if what the earlier reads missed fits
  into what the last order left untraded (`SmartExecutor.WithinQtyIff`); IOC orders that are terminal at their second
  read are enough (`SmartExecutor.NeverOverTraded`).
- A leg that under-fills is promoted to the full quantity by any read that shows an average, because the fill record
  has no `filled_qty` (`StraddleBridge.PromotedBy`): one unit traded is reported as all of them
  (`StraddleBridge.PartialPromoted`). A promoted leg is full if and only if its last order traded in full
  (`StraddleBridge.FullIff`), as all-or-nothing market orders do (`StraddleBridge.FullMeansFull`).
- When no leg reports a fill the guard lets the entry through, and a fill after the last read leaves a naked leg that
  is published as filled (`StraddleBridge.LateFillNaked`). A leg whose later order raises reports nothing even if an
  earlier one filled (`StraddleBridge.RaiseForgets`). An entry that is let through is all or nothing, whatever its last
  orders trade after their last reads, if and only if some leg reports a fill or the reads leave no other end open
  (`StraddleBridge.WholeIff`).
- The outer rounding of a limit price to eight decimals can move it more than half a tick. It never does if and only
  if the tick is a whole number of 0.00000001 (`SmartExecutor.HalfTickIff`, with a price for every other tick in
  `SmartExecutor.FineTickStrays`).
- `acquire` for more tokens than the burst never returns (`RateLimiter.GrantableIffFits`). A pass at clock reading zero
  leaves the bucket looking unused, so that the next caller forgets what has accrued (`RateLimiter.ZeroForgets`).
- The clean-up drops a strike inside the money window when it was pinned, against its own documentation
  (`StrikeRebalancer.CleanUpKeeps` is the exact condition, `StrikeRebalancer.RoundTripDrops` the run that does it). Over
  whole runs that is the only way a strike of the current window goes missing (`StrikeRebalancer.MissingIff`).
- With a strike step that is not a whole number of paise the strike at the money can be missing from the active ones,
  because strikes are rounded to paise and the window is not; `StrikeRebalancer.MoneyKeptIff` has the exact condition
  on step and depth, `StrikeRebalancer.MoneyLost` the ticks.
- An expiry that is the last of its month is printed weekly when the next one listed falls in the same month of a later
  year, since only months are compared (`SymbolTranslator.PrintedMonthlyIff`).
- A monthly symbol of an expiry the registry does not list comes back exactly when its month resolves to it
  (`SymbolTranslator.FyersExact`); 30 June 2026 comes back as the 25th (`SymbolTranslator.UnlistedShifts`). For listed
  expiries it always does.
- A configuration patch that puts a plain value over a default dictionary, followed by one that puts a dictionary over
  that, brings a default back on reload (`RuntimeConfig.MisfitResurrects`); reloading is exact if and only if the live
  configuration covers the defaults (`RuntimeConfig.ReloadExact`). A per-index save that raises can leave a new index in
  memory that a reload forgets; for fitting calls nothing else makes a reload differ (`RuntimeConfig.ReloadsAfterRun`).
- After the cooldown the circuit breaker lets five failing signals through before it opens again, not one probe
  (`WorkerPool.FiveProbes`); the code comment says one.
- The end-of-day unsubscribe block of the rebalancer is never entered, because the flag it tests is set just above it:
  `StrikeRebalancer.Rebalancer.HandleTick` has the block and is proved never to take it.

## Model

| member | source | states |
|---|---|---|
| `Rounding.RoundHalfEven` | execution_bridge/smart_executor.py:39-42 | Python's `round`: the nearest integer, the even one on a tie; the two clauses determine the result |
| `Rounding.RoundToMultiple` | execution_bridge/smart_executor.py:39-42 | rounding to a decimal digit gives a whole number of units, an even one on a tie |
| `Rounding.RoundTo` | execution_bridge/smart_executor.py:39-42 | the rounded value is never more than half a unit away |
| `Rounding.RoundToMonotone` | execution_bridge/smart_executor.py:39-42 | rounding to a decimal digit keeps order |
| `SmartExecutor.RoundTick` | execution_bridge/smart_executor.py:39-42 | within half a tick (plus the outer rounding to eight decimals), or 0.005 when there is no tick |
| `SmartExecutor.HalfTickIff` | execution_bridge/smart_executor.py:39-42 | every price stays within half a tick if and only if the tick is a whole number of 1e-8 |
| `SmartExecutor.FineTickStrays` | execution_bridge/smart_executor.py:39-42 | for any other tick, a price that moves further |
| `SmartExecutor.RoundTickMeans` | execution_bridge/smart_executor.py:39-42 | a rounded price is a whole number of 1e-8 next to the multiple of the tick nearest to the price, or a whole number of hundredths |
| `SmartExecutor.EqualSteps` | execution_bridge/smart_executor.py:145-153 | after n of c steps the unrounded price is n parts touch and c - n parts mid |
| `SmartExecutor.LadderMonotone` | execution_bridge/smart_executor.py:145-153 | the ladder starts at the rounded mid, ends at the rounded touch, and only moves towards the touch |
| `SmartExecutor.LadderWithin` | execution_bridge/smart_executor.py:150-153 | every rung stays between mid and touch up to the rounding error |
| `SmartExecutor.AwaitFill` | execution_bridge/smart_executor.py:53-73 | the polling loop yields the first decisive read, else the last read, whose quantity counts only if complete |
| `SmartExecutor.Awaited` | execution_bridge/smart_executor.py:53-73 | a non-zero quantity comes from a COMPLETE read that was made; a filled read before any cancelled or rejected one decides |
| `SmartExecutor.AwaitedMeans` | execution_bridge/smart_executor.py:53-73 | the wait yields its first decisive read, as a fill only if complete with an average; else the last read, whose quantity counts only if complete |
| `SmartExecutor.PlaceMarket` | execution_bridge/smart_executor.py:110-121 | the mop-up order asks for exactly what is unbooked, is booked from the wait or one more read, and raises just when placing or that read does |
| `SmartExecutor.PlaceRung` | execution_bridge/smart_executor.py:156-172 | an IOC attempt asks for exactly what is unbooked and books the read after the wait, falling back to the wait |
| `SmartExecutor.Attempt` | execution_bridge/smart_executor.py:135-174 | one ladder pass either places the next rung at its price or stops for one of the three reasons in the code |
| `SmartExecutor.ExecuteLeg` | execution_bridge/smart_executor.py:103-182 | every call is a run: rungs each for what earlier ones did not book, a market order exactly if something is left, and a verdict that sums them up |
| `SmartExecutor.BookedFrom` | execution_bridge/smart_executor.py:110-172 | every order of every run is booked from one read, quantity and average together; which read it is, for rungs and for the market order |
| `SmartExecutor.AskedFor` | execution_bridge/smart_executor.py:135-159 | every order asks, on the run's side, for exactly what the orders before it did not book, rungs at the ladder's price of their attempt |
| `SmartExecutor.MopWhen` | execution_bridge/smart_executor.py:135-179 | the market order comes only when attempts have run out or the next one has no usable quote or price, and something is left |
| `SmartExecutor.Orders` | execution_bridge/smart_executor.py:123-180 | something is ordered for every positive quantity, and always without limit orders |
| `SmartExecutor.ReturnedMeans` | execution_bridge/smart_executor.py:174-182 | what a run returns: the sum booked, all order ids in order, the average paid, and whether it is complete |
| `SmartExecutor.RaisedIff` | execution_bridge/smart_executor.py:110-121 | a run raises exactly when its last order could not be placed, or is a market order neither the wait nor the last read tells anything about |
| `SmartExecutor.SumsAdd` | execution_bridge/smart_executor.py:119-121 | booked, traded and paid amounts add up over any split of the orders |
| `SmartExecutor.NeverOverBooked` | execution_bridge/smart_executor.py:103-182 | for every honest broker and outcome: booked is at most traded and at most `qty`; excess trading is bounded by what earlier reads missed; booked equals traded iff every order's read was exact |
| `SmartExecutor.NeverOverTraded` | execution_bridge/smart_executor.py:161-182 | with IOC orders terminal at the second read: booked is at most traded, traded at most `qty`; equal when the final market order is terminal at its last read |
| `SmartExecutor.WithinQtyIff` | execution_bridge/smart_executor.py:135-179 | traded stays within `qty` if and only if what the earlier reads missed fits into what the last order left untraded; when the last order trades in full, if and only if every earlier read was exact |
| `SmartExecutor.LostReadDoubles` | execution_bridge/smart_executor.py:164-168 | a failed second read: twice the quantity trades and the fill reports complete |
| `SmartExecutor.AverageWithin` | execution_bridge/smart_executor.py:181-182 | the average before final rounding lies between the cheapest and dearest booked fill |
| `SmartExecutor.LadderRun` | execution_bridge/smart_executor.py:135-159 | against a standing quote the prices of a run's orders move monotonically from mid to touch and stay in that interval up to half a tick (0.005 without a tick, the extra 5e-9 only for ticks that are not a whole number of 1e-8) |
| `SmartExecutor.OrdersPlaced` | execution_bridge/smart_executor.py:123-179 | at most chases + 2 orders, all but the last of them limit orders |
| `StraddleBridge.PromotedBy` | execution_bridge/straddle_bridge.py:695-709 | an under-filled leg is promoted exactly when a confirming read before the first failed one shows an average |
| `StraddleBridge.ReportMeans` | execution_bridge/straddle_bridge.py:680-727 | a leg reports what its orders booked; nothing if the executor raised; the full quantity if they booked less and a read shows an average before any failed one |
| `StraddleBridge.PriceMeans` | execution_bridge/straddle_bridge.py:680-727 | a leg's price is the average paid, the confirmed average of a promoted leg, or the last price if it raised |
| `StraddleBridge.GuardMeans` | execution_bridge/straddle_bridge.py:738-742 | the guard's condition said of the legs' orders and reads |
| `StraddleBridge.PlacedMeans` | execution_bridge/straddle_bridge.py:684-688 | an order id is kept exactly when the executor returned, with every order accepted |
| `StraddleBridge.FullIff` | execution_bridge/straddle_bridge.py:666-727 | a leg that reports full has traded in full if and only if it was not promoted or its last order, always the mop-up, traded all it asked for |
| `StraddleBridge.FullMeansFull` | execution_bridge/straddle_bridge.py:666-727 | with all-or-nothing market orders, and averages only for what traded, reporting full means full |
| `StraddleBridge.PartialPromoted` | execution_bridge/straddle_bridge.py:703-706 | an honest broker that trades one unit of a market order and shows its average: the leg reports the full quantity |
| `StraddleBridge.LateFillUnseen` | execution_bridge/straddle_bridge.py:738-742 | every run of a leg whose orders fill after the last read reports nothing and ends up full |
| `StraddleBridge.LateFillNaked` | execution_bridge/straddle_bridge.py:738-813 | from a flat account, with honest all-or-nothing brokers, a late call and an unfilled put pass the guard and are published as a fill, one-sided |
| `StraddleBridge.RaiseForgets` | execution_bridge/straddle_bridge.py:722-727 | an IOC order fills one unit, placing the next raises: the leg reports nothing |
| `StraddleBridge.SameReport` | execution_bridge/straddle_bridge.py:666-727 | whatever its last order trades after its last read, the leg's run and report are the same |
| `StraddleBridge.MayEndIff` | execution_bridge/straddle_bridge.py:666-727 | what a leg that reports nothing may come to: at least what its reads show, at most what its last order asks for, all or nothing for a market order |
| `StraddleBridge.WholeIff` | execution_bridge/straddle_bridge.py:738-742 | an entry the guard lets through is all or nothing under every such ending if and only if some leg reports a fill, no leg placed an order, every leg's reads show it filled, or a single leg rests on one order that can only be full or empty |
| `StraddleBridge.Bridge.DoLeg` | execution_bridge/straddle_bridge.py:666-727 | one leg: a run of the executor, the quantity and price reported for it, the order id kept, the position it leaves, nothing else touched |
| `StraddleBridge.Bridge.RunLegs` | execution_bridge/straddle_bridge.py:729-733 | all legs of an event, each on its own symbol, with the fill prices they report and the order ids kept |
| `StraddleBridge.Bridge.FlattenFilled` | execution_bridge/straddle_bridge.py:747-767 | each leg that reports a fill gets one opposite order for it, which moves only its own symbol, and only if accepted |
| `StraddleBridge.FlattenedMeans` | execution_bridge/straddle_bridge.py:747-759 | the direct flatten order of a leg buys back what the leg reports, as far as it trades |
| `StraddleBridge.Bridge.ReconcileFlat` | execution_bridge/straddle_bridge.py:475-523 | with true settled positions and filling orders every listed symbol ends flat, whatever it held |
| `StraddleBridge.Bridge.Abort` | execution_bridge/straddle_bridge.py:747-775 | flattening and reconciling leave every leg symbol flat; without readable positions exactly the direct flatten orders have worked |
| `StraddleBridge.Bridge.LiveFill` | execution_bridge/straddle_bridge.py:616-813 | aborts exactly on a live entry in which some leg booked or confirmed something and some leg is neither booked nor confirmed in full; from a flat account, even if flatten orders are rejected, the entry leaves every leg in full or none at all if some leg reports a fill or the reads leave no other end open, and otherwise just when the late fills are alike; what is left when positions cannot be read is stated too |
| `StraddleBridge.Symmetric` | execution_bridge/straddle_bridge.py:738-742 | what the guard lets through is full in every leg or unreported in every leg |
| `StraddleBridge.LetThrough` | execution_bridge/straddle_bridge.py:738-742 | what the guard lets through: positions are all or nothing just when the traded quantities are, and they are when the reads are sure |
| `TradeSimulator.StopPrice` | backtest_crudeoil_7day.py:133-136 | the initial stop is the higher of 98% of the entry and a positive zone low |
| `TradeSimulator.EodIs` | backtest_crudeoil_7day.py:241-243 | end of day is 23:25:00 or later |
| `TradeSimulator.AfterPlaces` | backtest_crudeoil_7day.py:154-158 | the bars gone through are all the day's bars later than the entry, in the day's own order |
| `TradeSimulator.ScannerSees` | backtest_crudeoil_7day.py:182-189 | the scanner is shown the day's bars up to the present one, in order, once there are three |
| `TradeSimulator.SupportsMeans` | backtest_crudeoil_7day.py:190-229 | what supports the stop, spelled out: the first eligible report of its timestamp, then high, low and high again |
| `TradeSimulator.ConfirmedMeans` | backtest_crudeoil_7day.py:209-229 | confirmation spelled out: bars i < j < l since registration with high, low, high where they must be |
| `TradeSimulator.PhaseSteps` | backtest_crudeoil_7day.py:209-224 | one step of a trap machine keeps its phase equal to the existential specification over the bars |
| `TradeSimulator.Register` | backtest_crudeoil_7day.py:182-207 | the registration loop keeps exactly the first eligible report of each timestamp |
| `TradeSimulator.Advance` | backtest_crudeoil_7day.py:209-229 | every machine makes one step; the stop rises to the highest newly confirmed trigger or stays |
| `TradeSimulator.LevelSteps` | backtest_crudeoil_7day.py:181-229 | one bar takes the specified level of the previous bar to the specified level of this one |
| `TradeSimulator.LevelUnique` | backtest_crudeoil_7day.py:225-229 | the specified level is one number |
| `TradeSimulator.LevelRises` | backtest_crudeoil_7day.py:225-229 | the trailing stop never falls and never lies below the entry |
| `TradeSimulator.SimulateTrade` | backtest_crudeoil_7day.py:125-261 | at every bar reached the stop is the initial one before T1 and the maximum of entry and confirmed triggers after; the run ends at the first bar stopped out or at end of day; exactly QTY units are accounted for |
| `TradeSimulator.LossFloor` | backtest_crudeoil_7day.py:133-249 | a closed trade loses at most 2% of entry times QTY before T1, and keeps at least the T1 half after |
| `TradeSimulator.FirstExit` | backtest_crudeoil_7day.py:155-249 | said of the day itself: every bar after the entry and before the exit keeps above the initial stop before T1 and above the entry from then on and is before 23:25; the exit bar is the first that does not, and why |
| `TradeSimulator.PnlExact` | backtest_crudeoil_7day.py:163-249 | the profit unit by unit: 100 units to T1 if it was reached, the rest to the exit |
| `TradeSimulator.ExitAfterEntry` | backtest_crudeoil_7day.py:154-158 | a trade closes strictly after its entry, at one of the day's bars |
| `SessionLoop.RunSide` | backtest_crudeoil_7day.py:387-428 | an entry is taken if and only if the day is not stopped, it is inside the window, its zone never stopped out, and every earlier closed trade is over |
| `SessionLoop.ZoneKeyMeans` | backtest_crudeoil_7day.py:404 | a zone's key is the tenth nearest to its high, the even one on a tie |
| `SessionLoop.TakenIff` | backtest_crudeoil_7day.py:387-428 | an entry is taken if and only if fewer than two earlier trades stopped out before T1, it lies in 14:30-22:45, its zone did not stop out before, and every earlier closed trade ended before it |
| `SessionLoop.DayRules` | backtest_crudeoil_7day.py:387-428 | at most two stop-outs before T1, no zone re-entered after it stopped out, no trade before an earlier closed one's exit has strictly passed |
| `SessionLoop.StopOuts` | backtest_crudeoil_7day.py:418-424 | at most two stop-outs before T1 in a day and side |
| `CandleCache.FloorMonotone` | matrix_engine/candle_cache.py:253-259 | flooring keeps time order and never moves forward |
| `CandleCache.FloorIsFloor` | matrix_engine/candle_cache.py:253-259 | the floor is the latest whole number of timeframes after midnight that is not after the instant |
| `CandleCache.FloorCoarser` | matrix_engine/candle_cache.py:253-259 | flooring to a timeframe and then to a multiple of it is flooring to the multiple |
| `CandleCache.BatchSnoc` | matrix_engine/candle_cache.py:69-96 | batch grouping of an ordered stream can be done tick by tick, looking only at the last candle |
| `CandleCache.BatchShape` | matrix_engine/candle_cache.py:69-96 | candles come out in strictly rising time and the last one holds the last tick |
| `CandleCache.HighestIs` | matrix_engine/candle_cache.py:51-55 | a group's high is at least every high in it and one of them |
| `CandleCache.LowestIs` | matrix_engine/candle_cache.py:51-55 | the same downwards |
| `CandleCache.StretchesCover` | matrix_engine/candle_cache.py:51-96 | each candle covers the ticks of its piece: first open, last price, all within its low and high, both attained, their volume; no tick is left out and neighbours differ in floor |
| `CandleCache.CoarseFromFine` | matrix_engine/candle_cache.py:51-96 | the k·a-minute candles of the ticks are the k·a-minute merge of their a-minute candles |
| `CandleCache.StretchesSnoc` | matrix_engine/candle_cache.py:69-96 | for a stream in any order, one candle per stretch of ticks with the same floor can be built tick by tick |
| `CandleCache.StretchesBatch` | matrix_engine/candle_cache.py:69-96 | for a stream in time order the stretches are the batch grouping |
| `CandleCache.Bucket.Update` | matrix_engine/candle_cache.py:51-55 | a tick widens high and low, sets the close and adds its volume; open and time stay |
| `CandleCache.CandleSeries.OnTick` | matrix_engine/candle_cache.py:69-96 | for ticks in any order, committed candles plus the open bucket are one candle per stretch, the deque is the last 600 committed, and the event is the candle just closed |
| `CandleCache.CandleSeries.CoversSeen` | matrix_engine/candle_cache.py:69-96 | at every moment committed candles plus the open bucket cover all ticks so far, piece by piece |
| `CandleCache.LastNIs` | matrix_engine/candle_cache.py:62-95 | the deque holds the last candles committed, all of them up to 600 |
| `CandleCache.CandleSeries.IsBatch` | matrix_engine/candle_cache.py:69-96 | when the ticks came in time order, committed candles plus the open bucket are the batch grouping of all of them |
| `Calendar.LastThursday` | data_layer/symbol_translator.py:116-122 | the month's last day that is a Thursday |
| `Calendar.Weekdays` | data_layer/symbol_translator.py:116-122 | 1 January 1970 is a Thursday and every day is followed by the next weekday, through month ends and leap years |
| `SymbolTranslator.CutExact` | data_layer/symbol_translator.py:100-134 | the scanner accepts exactly the strings the regular expression describes, with the same groups |
| `SymbolTranslator.MonthlyResolves` | data_layer/instrument_registry.py:683-703 | an expiry printed as monthly is the one its month resolves to |
| `SymbolTranslator.ResolveMeans` | data_layer/symbol_translator.py:104-122 | a month resolves to its latest listed expiry, else to its last Thursday |
| `SymbolTranslator.FyersParse` | data_layer/symbol_translator.py:74-146 | a printed symbol of either form parses back to the contract, a monthly one with the date its month resolves to |
| `SymbolTranslator.FormsDisjoint` | data_layer/symbol_translator.py:84-92 | no weekly symbol is a monthly symbol of any contract |
| `SymbolTranslator.PrintedMonthlyIff` | data_layer/instrument_registry.py:683-703 | a listed expiry is printed monthly if and only if no later expiry of its month is listed, unless the next one listed is in the same month of a later year |
| `SymbolTranslator.UnlistedForm` | data_layer/instrument_registry.py:683-703 | an unlisted expiry is printed monthly if and only if a week later is another month |
| `SymbolTranslator.FyersLetters` | data_layer/symbol_translator.py:74-92 | both forms of one contract, letter by letter |
| `SymbolTranslator.FyersRoundTrip` | data_layer/instrument_registry.py:548-611 | for every sorted registry and listed expiry, `from_fyers` reads back exactly the contract that was printed |
| `SymbolTranslator.FyersExact` | data_layer/instrument_registry.py:683-703 | for any expiry the round trip holds if and only if it prints weekly or is what its month resolves to |
| `SymbolTranslator.UnlistedShifts` | data_layer/instrument_registry.py:683-703 | with nothing listed, every contract of 30 June 2026 comes back as one of the 25th |
| `SymbolTranslator.CommodityUnread` | data_layer/instrument_registry.py:576-587 | an MCX symbol is never read as an index option |
| `SymbolTranslator.FyersReads` | data_layer/symbol_translator.py:94-146 | what becomes of any string the expression cuts, printed or not: a symbol, an exception for an impossible date, or no match |
| `SymbolTranslator.FyersUnread` | data_layer/symbol_translator.py:94-146 | a string without the prefix, or that the expression does not cut, is no match |
| `SymbolTranslator.AngelReads` | data_layer/symbol_translator.py:163-177 | the same for the second provider; a month name that is none raises |
| `SymbolTranslator.AngelRoundTrip` | data_layer/symbol_translator.py:150-177 | Angel One symbols read back to the contract that was printed |
| `SymbolTranslator.OtherLetters` | data_layer/instrument_registry.py:576-611 | the symbols of the other providers and of commodities, letter by letter |
| `RiskManager.OrderIrrelevant` | management/risk_manager.py:55-101 | at one mark, permuted fills have the same cash, net position and worth |
| `RiskManager.PositionRecord.ApplyFill` | management/risk_manager.py:55-90 | after any fill, reversals included, realised plus unrealised is cash flow plus position times price; what each kind of fill leaves alone is stated |
| `RiskManager.PositionRecord.UpdateMark` | management/risk_manager.py:92-101 | a mark moves only the unrealised part, to the ledger's worth at that mark |
| `RiskManager.PositionRecord.Conserved` | management/risk_manager.py:55-101 | realised plus unrealised equals the ledger's worth at every moment |
| `RiskManager.NetMtm` | management/risk_manager.py:138-141 | the client's mark-to-market is the sum of its positions' ledgers |
| `RiskManager.TotalAdds` | management/risk_manager.py:138-141 | that sum adds up over any split of the positions and over one is its ledger's worth |
| `RiskManager.ClientRiskState.UpdateDrawdown` | management/risk_manager.py:146-151 | the peak is the largest equity ever checked; the drawdown is its relative distance, rounded to three decimals, and zero without positive capital |
| `RateLimiter.AlwaysBounded` | execution_bridge/rate_limiter.py:120-130 | the level stays between zero and the burst over every run |
| `RateLimiter.WindowBudget` | execution_bridge/rate_limiter.py:102-142 | tokens handed out in any stretch, plus what is left, are at most the burst plus what accrues meanwhile |
| `RateLimiter.WindowLimit` | execution_bridge/rate_limiter.py:102-142 | between any two passes of any interleaving at most burst + rate · time |
| `RateLimiter.WindowTight` | execution_bridge/rate_limiter.py:102-142 | the level is as high as the budget allows: for some stretch handed out plus left is exactly burst plus what accrued |
| `RateLimiter.RefusedMeans` | execution_bridge/rate_limiter.py:120-142 | no refusal is needless: with the request granted some stretch would exceed the limit |
| `RateLimiter.ZeroForgets` | execution_bridge/rate_limiter.py:115-118 | after a pass at clock reading zero the next caller forgets what has accrued |
| `RateLimiter.GrantableIffFits` | execution_bridge/rate_limiter.py:120-142 | a request can ever be granted if and only if it is no larger than the burst |
| `RateLimiter.TokenBucket.TryAcquire` | execution_bridge/rate_limiter.py:113-142 | one pass grants exactly when the refilled level suffices, else asks for the exact deficit over the rate |
| `RateLimiter.TokenBucket.Acquire` | execution_bridge/rate_limiter.py:102-142 | uncontended, a request that fits returns after at most one sleep, however late that sleep ends; one that does not is still waiting after any number of sleeps |
| `StrikeRebalancer.Rebalancer.EnableChain` | data_layer/strike_rebalancer.py:103-109 | only the flag of a known underlying changes |
| `StrikeRebalancer.Rebalancer.PinStrike` | data_layer/strike_rebalancer.py:111-123 | a pin enters both sets |
| `StrikeRebalancer.Rebalancer.UnpinStrike` | data_layer/strike_rebalancer.py:125-135 | an unpinned strike stays active |
| `StrikeRebalancer.Rebalancer.ResetAnchors` | data_layer/strike_rebalancer.py:193-202 | every anchor is forgotten, the strike sets stay |
| `StrikeRebalancer.Rebalancer.InitialSubscribe` | data_layer/strike_rebalancer.py:296-319 | anchoring leaves the window, if the chain is enabled, and the pins |
| `StrikeRebalancer.Rebalancer.HandleTick` | data_layer/strike_rebalancer.py:232-292 | a tick anchors, rebalances or does nothing as specified, for one underlying only, keeping pins active; the end-of-day unsubscribe block at lines 246-263 is never entered |
| `StrikeRebalancer.Rebalancer.Rebalance` | data_layer/strike_rebalancer.py:325-357 | the two set differences leave exactly the new window and the pins |
| `StrikeRebalancer.StrikeCleanup.Opened` | data_layer/strike_cleanup.py:167-174 | an opening counts one position on the strike |
| `StrikeRebalancer.StrikeCleanup.Closed` | data_layer/strike_cleanup.py:176-275 | a close counts down, then drops the strike unless a position is open or it is active and unpinned |
| `StrikeRebalancer.CountIsBalance` | data_layer/strike_cleanup.py:167-217 | the count of a strike is its openings less its closings, never below zero |
| `StrikeRebalancer.PinnedStaysActive` | data_layer/strike_rebalancer.py:62-65 | over every run of pins, ticks, re-anchors, closes and clean-ups, pinned strikes are active |
| `StrikeRebalancer.CloseDropsNothing` | data_layer/strike_rebalancer.py:241-263 | so after the NSE close a tick anchors nothing and drops nothing, but for an ordinary rebalance |
| `StrikeRebalancer.TickMeans` | data_layer/strike_rebalancer.py:232-292 | what a tick does, in plain numbers: 9:15, 15:30, three steps |
| `StrikeRebalancer.NearestStrike` | data_layer/strike_rebalancer.py:440-441 | the strike of a price is the multiple of the step nearest to it, rounded to paise |
| `StrikeRebalancer.WindowMeans` | data_layer/strike_rebalancer.py:444-445 | the window holds the i-th strike from the money if and only if i is at most depth either way |
| `StrikeRebalancer.OnGridIff` | data_layer/strike_rebalancer.py:440-441 | rounded strikes are all multiples of the step if and only if the step is whole paise or divides a paisa |
| `StrikeRebalancer.MoneyStaysActive` | data_layer/strike_rebalancer.py:265-357 | chain-enabled before anchoring, a step and depth that fit, no clean-up, whatever state it starts from: after every tick while anchored the strike at the money is active |
| `StrikeRebalancer.MoneyKeptIff` | data_layer/strike_rebalancer.py:265-357 | over all such runs that holds if and only if depth is at least 2 on a step of whole or half a paisa, or the step is at most a third of a paisa with any window at all |
| `StrikeRebalancer.MoneyLost` | data_layer/strike_rebalancer.py:440-445 | for every other step and depth, the one or two ticks after which the money is not active |
| `StrikeRebalancer.MissingIff` | data_layer/strike_cleanup.py:219-275 | over every run, clean-ups included: a strike of the current window is missing if and only if a clean-up dropped it while pinned and it was neither pinned nor subscribed anew since |
| `StrikeRebalancer.MoneyMissingIff` | data_layer/strike_rebalancer.py:265-357 | with a step and depth that fit, after a tick of any run the strike at the money is missing in exactly that case |
| `StrikeRebalancer.CleanUpKeeps` | data_layer/strike_cleanup.py:230-249 | an active strike survives the clean-up if and only if a position is open on it or it is not pinned |
| `StrikeRebalancer.RoundTripDrops` | data_layer/strike_cleanup.py:219-275 | open, pin, close drops the strike from any state, inside the window or not |
| `RuntimeConfig.DeepMerge` | data_layer/runtime_config.py:223-231 | the merging loop computes the key-wise merge |
| `RuntimeConfig.MergeTwice` | data_layer/runtime_config.py:223-231 | merging the same patch twice is merging it once |
| `RuntimeConfig.UnmentionedKept` | data_layer/runtime_config.py:223-231 | a path the patch does not mention keeps its value or its absence |
| `RuntimeConfig.PatchWins` | data_layer/runtime_config.py:223-231 | every leaf of the patch ends up at its path |
| `RuntimeConfig.ReloadExact` | data_layer/runtime_config.py:284-289 | merging the defaults with the saved configuration reproduces it if and only if it covers the defaults |
| `RuntimeConfig.OverKept` | data_layer/runtime_config.py:223-231 | a fitting patch keeps every default key and every default dictionary in place |
| `RuntimeConfig.ReloadsAfterRun` | data_layer/runtime_config.py:276-338 | after any run of reads, reloads, updates and per-index saves that fit the defaults, over a fitting file, a reload reproduces the live configuration if and only if no raise has left a new index unsaved |
| `RuntimeConfig.MisfitResurrects` | data_layer/runtime_config.py:276-289 | an update with a plain value over a default dictionary and one with a dictionary over that: a reload brings the lost default back |
| `RuntimeConfig.Config.Update` | data_layer/runtime_config.py:276-282 | the patch is merged into the loaded configuration and saved |
| `RuntimeConfig.Config.EnsureLoaded` | data_layer/runtime_config.py:256-260 | the first access merges the file over the defaults, later ones change nothing |
| `RuntimeConfig.Config.ReloadFromDisk` | data_layer/runtime_config.py:284-289 | a reload is the merge of the file over the defaults |
| `RuntimeConfig.Config.SetIndexSection` | data_layer/runtime_config.py:324-338 | a per-index save is the merge of a patch for that one place; it raises exactly when something in the way is not a dictionary, and has then saved nothing and made at most the empty dictionaries on the way |
| `RuntimeConfig.SectionSaved` | data_layer/runtime_config.py:324-338 | a per-index save puts every plain value of its data at its place and leaves every other path alone |
| `FeedGate.DedupBuffer.Accept` | data_layer/global_feeder.py:188-204 | a tick passes exactly when the history says so: not a secondary's while the primary is fresh, and spaced from its key's last passed tick |
| `FeedGate.DedupBuffer.SetPrimary` | data_layer/global_feeder.py:179-186 | appointing a primary counts as hearing from it |
| `FeedGate.SecondaryOnlyWhenSilent` | data_layer/global_feeder.py:179-195 | in any run, a secondary tick passes only if no primary, the present or an earlier one, was appointed or heard within the stale time in force |
| `FeedGate.Throttled` | data_layer/global_feeder.py:196-204 | successive passed ticks of a key are 100 ms apart or differ by more than 0.0001 |
| `FeedGate.PassedIff` | data_layer/global_feeder.py:188-204 | exactly when a tick passes: a secondary's only if the primary was last heard the stale time ago or more, and the key's last passed tick a tenth of a second ago or different by more than 0.0001 |
| `FeedGate.LatestAppointment` | data_layer/global_feeder.py:179-186 | the appointment in force is the latest |
| `FeedGate.WhoseTick` | data_layer/global_feeder.py:188-195 | a tick is the primary's or a secondary's by its provider's name, whatever its case, and neither without a primary or a name |
| `FeedGate.IndexJumpMeans` | data_layer/base_feeder.py:347-356 | the index guard's jump is more than three per cent up or down |
| `FeedGate.OptionJumpMeans` | data_layer/base_feeder.py:402-407 | the option guard's jump is more than fifty points and more than sixty per cent, up or down |
| `FeedGate.Feeder.PublishIndex` | data_layer/base_feeder.py:347-372 | a tick is rejected exactly when the guard's rule says so of its history: a jump from the last good price, with fewer than two rejections counted; the rest is the gate's verdict, or published when there is no gate |
| `FeedGate.Feeder.Evict` | data_layer/base_feeder.py:395-401 | over the cap the oldest 500 keys go, with their counters, and nothing else changes |
| `FeedGate.Feeder.GuardOption` | data_layer/base_feeder.py:402-419 | the same rule with the option guard's two thresholds; new keys join the cache last |
| `FeedGate.Feeder.PublishOption` | data_layer/base_feeder.py:389-426 | the guard judges by its history, evictions included, and the cache never exceeds 2001 keys |
| `FeedGate.NeverThree` | data_layer/base_feeder.py:347-419 | in every history no three ticks of a key running are rejected, whatever is evicted between them |
| `FeedGate.GoodMeans` | data_layer/base_feeder.py:352-371 | the price a tick is compared with is the last one accepted for its key and not evicted since |
| `FeedGate.StrikesCount` | data_layer/base_feeder.py:355-370 | the count against a key is the number of rejections since it was last accepted after a comparison, or evicted |
| `EventBus.KeptOrOmitted` | data_layer/base_feeder.py:142-153 | kept plus omitted is offered; without omissions everything is kept |
| `EventBus.KeptInOrder` | data_layer/base_feeder.py:142-153 | what is kept is an in-order selection of what was offered |
| `EventBus.Queue.PutNowait` | data_layer/base_feeder.py:144-148 | a full queue misses the event, any other appends it; consumed plus queued stays the kept part of all offered |
| `EventBus.Queue.Get` | data_layer/base_feeder.py:118-119 | a consumer takes the oldest queued event |
| `EventBus.Topic.Publish` | data_layer/base_feeder.py:142-153 | every subscriber takes or misses the event by its own fullness alone; the drop count is the total of all omissions |
| `EventBus.Topic.Subscribe` | data_layer/base_feeder.py:129-132 | a new subscriber has missed nothing |
| `EventBus.Topic.Unsubscribe` | data_layer/base_feeder.py:134-140 | only that queue leaves; an unknown one is ignored |
| `EventBus.NeverFullMissesNothing` | data_layer/base_feeder.py:142-153 | a queue never full at a publish has received everything since it subscribed |
| `WorkerPool.FailuresPayForOpenings` | execution_bridge/parallel_worker_pool.py:182-210 | a closed circuit has at most four consecutive failures; total failures are at least five per opening |
| `WorkerPool.TotalsCount` | execution_bridge/parallel_worker_pool.py:191-210 | the totals count the processings that failed and those that opened the circuit |
| `WorkerPool.OpensAtFive` | execution_bridge/parallel_worker_pool.py:199-210 | the circuit opens at the fifth failure, from the moment that processing ends |
| `WorkerPool.NoStartWhileCooling` | execution_bridge/parallel_worker_pool.py:165-243 | processing never starts within 60 seconds after any earlier opening |
| `WorkerPool.FiveProbes` | execution_bridge/parallel_worker_pool.py:182-243 | between any two openings of any run lie at least five failures, whatever idle timeouts and successes come between |
| `WorkerPool.StartsIff` | execution_bridge/parallel_worker_pool.py:165-243 | a signal is started if and only if every processing that opened the circuit ended 60 seconds ago or more |
| `WorkerPool.SuccessForgets` | execution_bridge/parallel_worker_pool.py:182-190 | after a success it takes five more failures to open |
| `WorkerPool.FiveOpen` | execution_bridge/parallel_worker_pool.py:191-210 | of five failures running one opens the circuit |
| `WorkerPool.Worker.Enqueue` | execution_bridge/parallel_worker_pool.py:135-149 | a signal is queued in order, or counted as dropped when 100 are waiting |
| `WorkerPool.Worker.IdleTimeout` | execution_bridge/parallel_worker_pool.py:219-229 | an idle timeout is a recovery step of the breaker |
| `WorkerPool.Worker.Take` | execution_bridge/parallel_worker_pool.py:156-179 | the oldest signal is started exactly when the recovered breaker is closed, else dropped; offered = queued + dropped + in flight + finished |
| `WorkerPool.Worker.Finish` | execution_bridge/parallel_worker_pool.py:181-210 | the end of a processing is a settling step of the breaker |
| `WorkerPool.Worker.Accounted` | execution_bridge/parallel_worker_pool.py:107-115 | the breaker's promises hold of the worker's own counters at every moment |
| `DailyRollover.RolloverOnActiveDate` | data_layer/universal_option_mapper.py:94-110 | the next rollover lies ahead within a day, at 17:30 of the active contract's date |
| `DailyRollover.ActiveUntilRollover` | data_layer/universal_option_mapper.py:94-105 | the active contract is the same until the next rollover, and only until then, and advances by one day there |
| `DailyRollover.InMicroseconds` | data_layer/delta_rollover.py:32-51 | the boundary is 17:30, and the worker sleeps until `lead` after it, but at least a second |
| `DailyRollover.Worker.Run` | data_layer/delta_rollover.py:32-51 | callbacks form a strictly increasing chain that ends at the active contract; one for each boundary if the worker is never late by a whole one |

## Left out

- Network, broker SDKs, WebSockets, databases, files, logging and task start-up: input and output only.
- Floating-point rounding: prices are real numbers; only the code's own calls to `round` are modelled.
- The trap scanner and the choice of zones and entries in `run_day` (backtest_crudeoil_7day.py:278-385): the scanner is not part of this model, so entries are arbitrary, in any order.
- SessionLoop.RunSide: expects the day's bars to lie on whole minutes of that day, which resampling guarantees.
- StraddleBridge.Bridge.LiveFill: the exact condition assumes honest brokers, IOC orders terminal at the second read, all-or-nothing market orders, averages only for what traded, readable settled positions and filling reconciliation orders.
- StraddleBridge.Bridge.ReconcileFlat: best-effort cancels are not modelled, since an order's traded quantity already is what it trades in the end; symbols are taken to be upper case.
- StraddleBridge.Bridge: order ids and entry prices are those of one client and underlying; the code keys them by both.
- Trade-log texts and paper-mode price booking of the straddle bridge: no effect on positions.
- RateLimiter.TokenBucket.Acquire: follows one call for any given number of sleeps, since a call that does not fit never ends.
- SymbolTranslator.FyersRoundTrip: digits are ASCII, years 2000 to 2099, as two-digit years allow.
- The canonical string of a contract and `build_instrument_map`, a dictionary keyed by it (data_layer/instrument_registry.py:638-662).
- Zerodha, Dhan and Upstox symbols and the Delta symbol strings: printed only, or parsed by generic number conversions.
- CandleCache.CandleSeries.OnTick: history preloading and symbol resets are left out.
- The strike rebalancer's token building and feed calls, and handlers interleaving at their awaits: each handler is one step.
- RuntimeConfig.Config.Update: saving always succeeds, and dictionaries shared by reference between patch and live configuration are not modelled.
- EventBus.Topic.Publish: each topic is its own object; topics share nothing but the queue size.
- WorkerPool: what processing a signal does (symbol translation, lots, orders) is only its success or failure.
- DailyRollover.Worker.Run: a callback that raises is logged by the code and counts as made.
