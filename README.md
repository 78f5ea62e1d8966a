# algo-trader core, modelled in Dafny

This project models the decision core of the algo-trader repository and proves
properties of that model. The core covers:

- the **paper trader**, a simulated broker. It fills orders at a
  spread-adjusted price, caps leverage at 1x equity, realises profit on
  reducing or flipping orders, keeps a size-weighted average entry price and
  converts quote-currency profit into the account currency;
- the **backtester**, which runs a per-bar loop that marks the broker to the
  close, lets the strategy trade, sets the next-open execution override and
  records equity. It also computes the performance metrics: return, win rate,
  averages, profit factor and closed-trade maximum drawdown;
- the dashboard's **equity chart transform**, a running-peak drawdown shared
  by the test-details page and the composite overview page;
- the dashboard's **run filtering and sorting**: the filter chain, the option
  menus, the edge drill-down and the win-rate display;
- the **optimiser**: hard disqualification filters, parameter-grid expansion,
  the sweep loop with its skip and error accounting, the building-block
  combination generator with its compatibility type system, and the building
  blocks themselves (StochRSI zone entry, opposite-zone exit, ATR stop,
  trailing ATR stop, fixed-fraction and risk-based sizers);
- the **event surprise analysis**: matching an event to a bar, measuring the
  price reaction and classifying surprises;
- the incremental **RSI** (Wilder smoothing) and **StochRSI** indicators;
- the **composite strategy**. It registers signals from a configuration and
  evaluates conditions against the latest signal values and the close. It
  applies stop-loss, take-profit, ATR and trailing exits, and picks an entry
  (a buy takes precedence over a short);
- the **event signal**, which maps a calendar release to a -1/0/+1 direction.

Each source file is one module:

- `PaperTrading` in `paper_trader.dfy`
- `Backtesting` in `backtester.dfy`
- `DrawdownChart` in `drawdown.dfy`
- `Dashboard` in `dashboard.dfy`
- `Disqualify` in `disqualify.dfy`
- `Grid` in `grid.dfy`
- `Sweep` in `sweep.dfy`
- `Combinations` in `combinations.dfy`
- `BuildingBlocks` in `building_blocks.dfy`
- `EventSurprise` in `event_surprise.dfy`
- `RsiIndicator` in `rsi.dfy`
- `StochRsiIndicator` in `stoch_rsi.dfy`
- `CompositeStrategies` in `composite_strategy.dfy`
- `EventSignals` in `event_signal.dfy`

`Grid` is the `itertools.product` shared by the sweep and the generator.
Helper modules hold the rest: `Wrappers` (Option), `Numeric` (sums, min/max,
sign filters, real-arithmetic facts), `Text` (prefix, slice, lexicographic
order) and `Sorting` (an in-place insertion sort on an array, used wherever
the source sorts).

The code keeps its own form. Objects that update their fields are classes:

- `PaperTrader`, `Backtester`, `RSI`, `StochRSI`, `SweepEngine`,
  `CompositeStrategy`, and the building blocks' `BlockState`;
- their methods carry `modifies` clauses and are proved against
  specification functions of the old state (`ApplyOrder`, `Simulate`,
  `Smoothed`, `RawSeries`/`KSeries`, `RunAll`, `BarEffect`).

Loops in the source are `while`/`for` loops with invariants. Pure code is
functions and lemmas. Prices and amounts are mathematical reals.

## Model

| member | source | states |
|---|---|---|
| PaperTrading.PaperTrader.constructor | backend/engine/paper_trader.py:7-21 | A new trader holds the initial capital as cash, with no positions, orders, trades, prices or override |
| PaperTrading.PaperTrader.SetExecutionOverride | backend/engine/paper_trader.py:23-24 | Sets the override price and nothing else |
| PaperTrading.PaperTrader.UpdatePrice | backend/engine/paper_trader.py:26-28 | The price map gains or replaces exactly the given symbol's price |
| PaperTrading.PaperTrader.GetEquity | backend/engine/paper_trader.py:33-49 | The loop's total is cash plus the converted mark-to-market profit of every position (the order-independent spec `EquityOf`) |
| PaperTrading.MarkedPnl | backend/engine/paper_trader.py:36-46 | A position without a price is marked at its own average, so it contributes nothing |
| PaperTrading.PnlSumRemove | backend/engine/paper_trader.py:35-47 | The equity sum over positions splits off any one position: the loop may visit positions in any order |
| PaperTrading.EquityFlat | backend/engine/paper_trader.py:33-49 | With no positions, equity is the cash |
| PaperTrading.PaperTrader.GetPosition | backend/engine/paper_trader.py:87-91 | Returns the held size; it is nonzero exactly when the symbol is held |
| PaperTrading.PaperTrader.PlaceOrder | backend/engine/paper_trader.py:109-231 | The new ledger and the result are those of `ApplyOrder` on the old ledger and the equity before the fill: None and no change without a price; prices, override, spread and currency untouched |
| PaperTrading.FillAroundBase | backend/engine/paper_trader.py:144-150 | Buy and sell fills sit symmetrically around the base price, `spread * base` apart |
| PaperTrading.CapBounds | backend/engine/paper_trader.py:158-164 | The capped quantity never exceeds the request; at a positive fill price it costs at most the equity; it equals the request when that fits |
| PaperTrading.QuantityCapped | backend/engine/paper_trader.py:137-164 | The same bounds for the fill `place_order` computes from the override, requested or market price |
| PaperTrading.SizeAccounting | backend/engine/paper_trader.py:166-167 | New size = old size + signed executed quantity; the symbol is dropped exactly when that is zero (lines 217-219); other symbols are untouched |
| PaperTrading.AverageEntry | backend/engine/paper_trader.py:202-216 | Adding in the held direction gives the size-weighted average, between the old average and the fill; a pure reduction keeps the average; a flip restarts it at the fill |
| PaperTrading.AddingAverages | backend/engine/paper_trader.py:202-209 | In the same-direction case, abs(new size) x new average = abs(old size) x old average + abs(qty) x fill |
| PaperTrading.OrderOutcome | backend/engine/paper_trader.py:221-231 | A priced order returns its fill record and appends it to the order log; cash, trades and positions follow the realise and reposition steps |
| PaperTrading.RealisedProfit | backend/engine/paper_trader.py:171-199 | An opposing order realises (fill − average) x min(abs(qty), abs(size)) (reversed for shorts), converted; adds it to cash; appends exactly one trade record. Any other order leaves cash and trades alone |
| PaperTrading.ConvertAdditive | backend/engine/paper_trader.py:243-276 | Currency conversion is linear in the amount and maps 0 to 0 |
| PaperTrading.ConvertKeepsSign | backend/engine/paper_trader.py:243-276 | Conversion keeps the sign of a profit or loss when the rate is not negative |
| PaperTrading.PaperTrader.ClosePosition | backend/engine/paper_trader.py:233-241 | Without a position: None and no change. Otherwise the effect of an opposite-side market order for the given quantity or the whole size, against the market as it stood before the call; prices, override, spread, currency and capital are unchanged |
| PaperTrading.BuySellRoundTrip | backend/engine/paper_trader.py:109-231 | Buying then selling the same quantity at an unchanged price with no spread restores cash and positions and records one break-even trade |
| Backtesting.Backtester.constructor | backend/engine/backtester.py:7-20 | Stores the settings and starts a fresh broker with the initial capital and an empty equity history |
| Backtesting.EffectiveSpread | backend/engine/backtester.py:29-32 | A nonzero configured spread wins; otherwise the parameter's spread, defaulting to 0 |
| Backtesting.OverrideFor | backend/engine/backtester.py:96-121 | The override is the open of row i+delay exactly when the delay is positive and that row exists; otherwise None |
| Backtesting.TimeOf | backend/engine/backtester.py:134-137 | Daily data is stamped with its day string, anything else with epoch seconds |
| Backtesting.Backtester.Run | backend/engine/backtester.py:22-149 | The broker ends in the state of the bar-by-bar simulation `Simulate`; the equity history gains the simulated points. The returned results are that broker's: final equity, trades and orders, trade count, return, win rate, average win and loss, profit factor, closed-trade drawdown and one candle per row, each the function `CalculateResults` states |
| Backtesting.OnePointPerBar | backend/engine/backtester.py:43-146 | A run records exactly one equity point per row, in row order, stamped with that row's time |
| Backtesting.MarkedAndOverridden | backend/engine/backtester.py:43-121 | After bar n the symbol is marked at that bar's close and the override is the one for that bar |
| Backtesting.PlaceAllKeepsMarket | backend/engine/backtester.py:43-146 | The strategy's orders never change the market prices or the override |
| Backtesting.IdleRunKeepsCapital | backend/engine/backtester.py:43-146 | A strategy that never trades leaves the ledger at its initial state, and every equity point is the initial capital |
| Backtesting.Submit | backend/engine/backtester.py:43-95 | Placing a bar's orders leaves the broker in the `PlaceAll` state |
| Backtesting.Backtester.CalculateResults | backend/engine/backtester.py:151-239 | Every metric is the specified function of the broker's trades; total trades is the trade-history length |
| Backtesting.ChartData | backend/engine/backtester.py:163-177 | One candle per data row, in order |
| Backtesting.CollectPnls | backend/engine/backtester.py:190-194 | The profit list is the trades' profits, in order |
| Backtesting.PnlsOf | backend/engine/backtester.py:190-194 | One profit per trade, in trade order |
| Backtesting.WinRateMeaning | backend/engine/backtester.py:196-199 | Winners (pnl > 0) and losers (pnl ≤ 0) partition the trades; win rate x trades = wins; it lies in [0, 1] |
| Backtesting.FractionOfCount | backend/engine/backtester.py:199 | A count over a larger positive count is a fraction in [0, 1] |
| Backtesting.AverageSigns | backend/engine/backtester.py:200-201 | The average win is positive when there are wins (else 0); the average loss is never positive |
| Backtesting.SumPositiveWhenNonEmpty | backend/engine/backtester.py:200-203 | A non-empty list of wins has a positive sum |
| Backtesting.ProfitFactorMeaning | backend/engine/backtester.py:203 | The profit factor is never negative. It is 0 without losses or when the losses sum to 0; otherwise it is gross wins over the size of gross losses, and it exceeds 1 exactly when wins outweigh losses |
| Backtesting.RatioIsGrossOverLoss | backend/engine/backtester.py:203 | For non-negative wins and a negative loss sum, the absolute ratio is the wins over the size of the losses |
| Backtesting.RatioAgainstLoss | backend/engine/backtester.py:203 | The profit factor exceeds 1 exactly when wins outweigh losses |
| Backtesting.ReturnSign | backend/engine/backtester.py:155-156 | The return is positive (zero) exactly when final equity is above (equal to) the initial capital |
| Backtesting.PeakAtLeast | backend/engine/backtester.py:206-222 | The running peak starts at the initial capital and bounds every closed-trade equity seen |
| Backtesting.DrawdownMonotone | backend/engine/backtester.py:206-222 | The maximum drawdown is non-negative and never decreases as trades are scanned |
| Backtesting.NoLossNoDrawdown | backend/engine/backtester.py:206-222 | Without losing trades there is no drawdown, and the peak is the final closed equity |
| Backtesting.ClosedTradeDrawdown | backend/engine/backtester.py:206-222 | The scan's result is the specified drawdown in percent, and is non-negative |
| DrawdownChart.ChartData | frontend/src/app/details/page.tsx:39-59 | A missing curve gives no points; otherwise the points are the running-peak series of the curve |
| DrawdownChart.MomentOf | frontend/src/app/strategy/overview/page.tsx:51 | A numeric time is read as seconds and becomes milliseconds; a text time is parsed |
| DrawdownChart.SeriesShape | frontend/src/app/details/page.tsx:43-58 | One point per sample, in order, carrying its equity and moment |
| DrawdownChart.PeakIsMax | frontend/src/app/details/page.tsx:42-45 | The peak starts at minus infinity and is the maximum equity seen |
| DrawdownChart.SeriesAt | frontend/src/app/strategy/overview/page.tsx:44-48 | The drawdown at sample i is measured from the peak of samples 0..i |
| DrawdownChart.DrawdownFromBounds | frontend/src/app/details/page.tsx:46 | A drawdown from a peak at least the equity is ≤ 0, and ≥ −1 for non-negative equity |
| DrawdownChart.DrawdownBounds | frontend/src/app/strategy/overview/page.tsx:47-48 | Every plotted drawdown is ≤ 0, and ≥ −1 when equity is non-negative |
| DrawdownChart.NewPeakNoDrawdown | frontend/src/app/details/page.tsx:45-46 | A sample that sets a new peak has drawdown exactly 0 |
| DrawdownChart.NonDecreasingFlat | frontend/src/app/details/page.tsx:42-46 | A curve whose equity never falls has drawdown 0 at every sample |
| Dashboard.FilteredRuns | frontend/src/app/page.tsx:43-58 | The result is a permutation of exactly the runs matching every active filter; it is stably sorted by return descending or by start date ascending; `runs` is not changed |
| Dashboard.ChainIsConjunction | frontend/src/app/page.tsx:44-48 | The chain of four optional filters is one filter by the conjunction of the active tests ('All' disables one) |
| Dashboard.FilterCounts | frontend/src/app/page.tsx:45-48 | A filter keeps every copy of a kept run and none of the others |
| Dashboard.FilterTwice | frontend/src/app/page.tsx:45-48 | Filtering twice is filtering once by both tests |
| Dashboard.FilterStep | frontend/src/app/page.tsx:45-48 | An inactive filter step changes nothing; an active one adds its test |
| Dashboard.OrdersArePreorders | frontend/src/app/page.tsx:50-55 | Both sort orders, and the drill-down's, are total preorders, as sorting needs |
| Dashboard.LexLeIsTotalPreorder | frontend/src/app/page.tsx:54 | String comparison is a total preorder |
| Dashboard.OptionList | frontend/src/app/page.tsx:61-63 | 'All' first, then each distinct value once, in order of first occurrence, and nothing else |
| Dashboard.Distinct | frontend/src/app/page.tsx:61-64 | The same elements without repetition |
| Dashboard.DistinctOrder | frontend/src/app/page.tsx:61-63 | The distinct values appear in the order their first occurrences have in the input, as a `Set` keeps insertion order |
| Dashboard.MenuOfColumn | frontend/src/app/page.tsx:61-63 | A strategy, symbol or timeframe menu offers exactly the values present in the runs |
| Dashboard.YearOptions | frontend/src/app/page.tsx:64 | 'All' then the distinct start-date years, sorted, exactly those present |
| Dashboard.EdgeTimeframe | frontend/src/app/page.tsx:181 | The edge's timeframe, or '1h' when it is missing or empty |
| Dashboard.EdgeRuns | frontend/src/app/page.tsx:180-182 | Exactly the runs of the edge's strategy, symbol and timeframe, newest start date first, ties in input order |
| Dashboard.WinRatePercent | frontend/src/app/page.tsx:149 | A rate above 1 is shown as is, otherwise x100; a percentage stays in [0, 100] |
| Disqualify.RulesInForce | backend/optimizer/disqualify.py:27 | Supplied rules replace the defaults |
| Disqualify.PassesDisqualification | backend/optimizer/disqualify.py:16-52 | Passes exactly when every check passes and then has no reason; a failure's reason names a check the result violates, and no check earlier in the fixed order (trades, per year, drawdown, profit factor, low win rate, high win rate) fails |
| Disqualify.FirstFailingReported | backend/optimizer/disqualify.py:29-50 | Any failing check makes the result fail, and the reason is a failing check no later than it in the fixed order |
| Disqualify.TradeCountFirst | backend/optimizer/disqualify.py:29-31 | Too few trades is reported before any other failure |
| Disqualify.LimitsInclusive | backend/optimizer/disqualify.py:38-50 | Under any rules, a drawdown equal to the limit is never the reason for failing, nor a win rate equal to either bound |
| Disqualify.MissingReadsAsZero | backend/optimizer/disqualify.py:24-50 | A missing metric gets the same verdict as the value 0 |
| Disqualify.PerYearNeedsYears | backend/optimizer/disqualify.py:33-36 | With no years, or years ≤ 0, the verdict is the one without the per-year rule, and the reason is never too few trades per year |
| Disqualify.LooserRulesKeepPassing | backend/optimizer/disqualify.py:16-52 | A result that passes strict rules passes any looser rules |
| Grid.ProductLength | backend/optimizer/sweep.py:241 | The product has as many tuples as the product of the list lengths |
| Grid.ProductAt | backend/optimizer/combination_generator.py:97-99 | Tuple q x (rest count) + r is the q-th first value before the r-th rest tuple: lexicographic order |
| Grid.ProductMembers | backend/optimizer/sweep.py:241 | Every tuple picks one value from each list |
| Grid.ProductComplete | backend/optimizer/sweep.py:241 | Every choice of one value per list is a tuple |
| Sweep.ExpandGridMeaning | backend/optimizer/sweep.py:237-241 | A non-empty grid expands to product-many combinations, each binding exactly the grid's keys to listed values, and every such binding occurs |
| Sweep.CombinationBinds | backend/optimizer/sweep.py:239-241 | Each combination binds every grid key to one of its values |
| Sweep.BindingListed | backend/optimizer/sweep.py:239-241 | Every pick of one value per key is a combination |
| Sweep.ZipAt | backend/optimizer/sweep.py:241 | Zipping keys with a tuple binds key k to value k |
| Sweep.WithSymbol | backend/optimizer/sweep.py:103 | The combination gains `symbol` = the sweep's symbol |
| Sweep.SweepEngine.constructor | backend/optimizer/sweep.py:41-45 | A new engine with its settings, no results and the tracker's recorded experiments |
| Sweep.SweepEngine.RunSweep | backend/optimizer/sweep.py:47-189 | No data gives nothing. Otherwise the results are the loop's results stably sorted by score descending (equal scores keep their collection order); skip and error counts are the loop's; results are appended to the engine's |
| Sweep.SweepLoop | backend/optimizer/sweep.py:101-163 | The loop's results, skip and error counts and the tracker's grown records are those of `RunAll`, the combination-by-combination specification |
| Sweep.ReportedBest | backend/optimizer/sweep.py:174-183 | The first sorted result is the earliest collected result with the highest score |
| Sweep.ScoreOrderIsPreorder | backend/optimizer/sweep.py:174 | Score-descending is a total preorder |
| Sweep.Accounting | backend/optimizer/sweep.py:101-163 | Every combination counts once: skipped, a result, or an error |
| Sweep.ResultsFromCombos | backend/optimizer/sweep.py:101-138 | Every result carries the sweep's symbol and the parameters of one combination; recorded experiments only grow |
| Sweep.EachComboOnce | backend/optimizer/sweep.py:105-110 | With skipping on, a combination already recorded is never run again: no two results share parameters |
| Combinations.BaseName | backend/optimizer/combination_generator.py:44-48 | The prefix before the first '(', or the whole name |
| Combinations.BaseOfCall | backend/optimizer/combination_generator.py:44-48 | `base(params` has base name `base` when `base` has no '(' |
| Combinations.BaseOfPlain | backend/optimizer/combination_generator.py:44-48 | A name without '(' is its own base name |
| Combinations.TypeOf | backend/optimizer/combination_generator.py:57-58 | A known base name has its table type; an unknown one is generic |
| Combinations.UnknownEntry | backend/optimizer/combination_generator.py:57-67 | An unknown entry only pairs with a generic exit and no_filter |
| Combinations.NoCrossedStyles | backend/optimizer/combination_generator.py:60-62 | An exit typed against the entry's style is rejected |
| Combinations.NoFilterAlwaysAllowed | backend/optimizer/combination_generator.py:38-41 | no_filter is allowed whenever the exit fits |
| Combinations.ZonePairing | backend/optimizer/combination_generator.py:51-69 | StochRSI entry, opposite-zone exit and ranging ADX filter are compatible |
| Combinations.BreakoutPairing | backend/optimizer/combination_generator.py:51-69 | A trend entry takes a trailing ATR exit with a trending CHOP filter |
| Combinations.BreakoutRejectsZoneExit | backend/optimizer/combination_generator.py:60-62 | A trend entry never takes the mean-reversion opposite-zone exit |
| Combinations.TrendRejectsRanging | backend/optimizer/combination_generator.py:65-67 | A trend entry never takes a ranging filter |
| Combinations.OrDefault | backend/optimizer/combination_generator.py:90-93 | An absent or empty list is replaced by the default blocks |
| Combinations.GenerateCombinations | backend/optimizer/combination_generator.py:72-121 | The loop's output is `Emit` over the product of the four lists, in product order |
| Combinations.EmitSound | backend/optimizer/combination_generator.py:100-117 | Every combination comes from a product tuple, carries the symbol and the label joining its four names with a bar separator, and is compatible when checking |
| Combinations.EmitComplete | backend/optimizer/combination_generator.py:97-119 | Every tuple that passes the check is emitted |
| Combinations.EmitAll | backend/optimizer/combination_generator.py:97-119 | Without the check, combination i is tuple i |
| Combinations.GeneratorCount | backend/optimizer/combination_generator.py:97-99 | Without the check, the count is the product of the four list lengths |
| Combinations.GeneratorExact | backend/optimizer/combination_generator.py:97-101 | With the check, a choice of blocks is produced exactly when it is compatible |
| BuildingBlocks.BlockState.constructor | backend/optimizer/building_blocks.py:21-43 | A fresh state has both zone flags clear and no entry ATR or best price |
| BuildingBlocks.ZoneStep | backend/optimizer/building_blocks.py:21-43 | Long exactly when k > 50 after an oversold visit; short exactly when k < 50 after an overbought one; each side's flag clears on the far side of 50; a long bar leaves the overbought flag alone |
| BuildingBlocks.StochRsiCross | backend/optimizer/building_blocks.py:18-47 | The entry updates the state's zone flags and returns the signal as `ZoneStep` says, touching nothing else |
| BuildingBlocks.DipThenRecovery | backend/optimizer/building_blocks.py:25-31 | A bar at or under oversold followed by one above 50 gives a long |
| BuildingBlocks.NoDipNoLong | backend/optimizer/building_blocks.py:25-33 | Without an oversold visit no long is signalled |
| BuildingBlocks.OppositeZone | backend/optimizer/building_blocks.py:128-139 | A long exits above overbought, a short below oversold |
| BuildingBlocks.AtrStop | backend/optimizer/building_blocks.py:142-154 | A long exits iff Low ≤ entry − distance, a short iff High ≥ entry + distance; the distance uses the entry ATR when stored, else the bar's |
| BuildingBlocks.WiderStopExitsLess | backend/optimizer/building_blocks.py:146-151 | A wider multiplier never exits where a tighter one would not |
| BuildingBlocks.TrailStep | backend/optimizer/building_blocks.py:188-210 | No exit and no change when ATR ≤ 0. Otherwise the best price rises to the high (long) or falls to the low (short), and the exit is measured from the new best |
| BuildingBlocks.TrailingAtr | backend/optimizer/building_blocks.py:185-213 | The exit and the state's best price are `TrailStep`'s; other state untouched |
| BuildingBlocks.Highs | backend/optimizer/building_blocks.py:194-198 | The bars' highs, in order |
| BuildingBlocks.LongBestIsHighest | backend/optimizer/building_blocks.py:194-198 | Over a run of bars with positive ATR, a long's best price is the highest of the entry and every high |
| BuildingBlocks.FixedPct | backend/optimizer/building_blocks.py:282-289 | The position's value is pct of equity |
| BuildingBlocks.RiskAtr | backend/optimizer/building_blocks.py:292-304 | 0 without a positive stop distance; otherwise the smaller of the risk size and the quarter-equity cap |
| BuildingBlocks.RiskAtrBounds | backend/optimizer/building_blocks.py:295-301 | A risk-sized position is worth at most a quarter of equity and loses at most riskPct of equity at the stop |
| EventSurprise.BisectLeft | backend/scripts/event_surprise_analysis.py:83 | The first index whose bar is not before the event |
| EventSurprise.FindEventBar | backend/scripts/event_surprise_analysis.py:78-95 | A returned bar lies at most 1800 s after the event, or under 900 s before it. A bar at or after the event is the first such bar. A bar before the event is the last bar before it, returned only when no bar opens within 1800 s after the event |
| EventSurprise.FollowingBarPreferred | backend/scripts/event_surprise_analysis.py:83-89 | When some bar lies within 1800 s after the event, the first bar at or after it is returned |
| EventSurprise.NoMatchMeansNoBar | backend/scripts/event_surprise_analysis.py:85-95 | None means no bar is within either window |
| EventSurprise.MaxBars | backend/scripts/event_surprise_analysis.py:103 | The largest window length |
| EventSurprise.PctChange | backend/scripts/event_surprise_analysis.py:114 | The percent change takes the event close to the future close |
| EventSurprise.PctChangeSign | backend/scripts/event_surprise_analysis.py:114 | From a positive close, the change is positive (negative) exactly when the price rose (fell) |
| EventSurprise.MeasureReaction | backend/scripts/event_surprise_analysis.py:98-117 | None exactly when the longest window runs past the data or the event close is 0; otherwise one change per window from the event close |
| EventSurprise.ClassifySurprises | backend/scripts/event_surprise_analysis.py:120-137 | Fewer than 3 surprises give three empty lists; otherwise the beat, miss and inline positions, in order |
| EventSurprise.PositionsMeaning | backend/scripts/event_surprise_analysis.py:128-135 | A class's list holds exactly the indices of that class, ascending |
| EventSurprise.Partition | backend/scripts/event_surprise_analysis.py:128-135 | Beats (s > t), misses (s < −t) and inlines partition the indices |
| EventSurprise.BeatsAndMissesApart | backend/scripts/event_surprise_analysis.py:130-133 | With a positive threshold a beat exceeds a miss by more than 2t, and 0 is inline |
| RsiIndicator.RSI.constructor | backend/indicators/rsi.py:5-13 | A new RSI has seen no change, is not ready and reads a neutral 50 |
| RsiIndicator.RSI.Update | backend/indicators/rsi.py:15-39 | The first price is only remembered; each later one adds its change; the indicator stays a function of all changes (the `Valid` invariant) and readiness never reverts |
| RsiIndicator.RSI.Collect | backend/indicators/rsi.py:26-34 | Before readiness a change is stored; after exactly `period` changes the averages are the simple means |
| RsiIndicator.RSI.Smooth | backend/indicators/rsi.py:35-39 | After readiness the averages take one Wilder step |
| RsiIndicator.RSI.Calculate | backend/indicators/rsi.py:41-46 | The value is the RSI of the current averages |
| RsiIndicator.GainLossSplit | backend/indicators/rsi.py:23-24 | Gain and loss are non-negative, at most one is nonzero, and gain − loss is the change |
| RsiIndicator.SplitEach | backend/indicators/rsi.py:23-28 | The gain and loss lists split every change |
| RsiIndicator.SmoothedBounds | backend/indicators/rsi.py:31-38 | The smoothed average stays within the bounds of its inputs |
| RsiIndicator.WilderBetween | backend/indicators/rsi.py:37-38 | A Wilder step stays between the previous average and the new input |
| RsiIndicator.WilderStep | backend/indicators/rsi.py:37-38 | One more change advances the averages by exactly one Wilder step |
| RsiIndicator.FirstAverages | backend/indicators/rsi.py:30-32 | After exactly `period` changes the averages are the means |
| RsiIndicator.AveragesNonNegative | backend/indicators/rsi.py:31-38 | The averages are never negative |
| RsiIndicator.RsiMeaning | backend/indicators/rsi.py:41-46 | RSI is the gain share 100·g/(g+l); 100 when there is no loss; 50 when gain equals loss; always in [0, 100] |
| RsiIndicator.LossShare | backend/indicators/rsi.py:45-46 | 100/(1+g/l) is the loss share of 100 |
| RsiIndicator.ReadyValueInRange | backend/indicators/rsi.py:26-46 | A ready RSI lies in [0, 100] |
| RsiIndicator.OnlyRisesGiveHundred | backend/indicators/rsi.py:23-46 | If the price never falls, the ready RSI is 100 |
| RsiIndicator.ChangesSnoc | backend/indicators/rsi.py:23-28 | The gain and loss lists grow by one entry per change |
| StochRsiIndicator.StochRSI.constructor | backend/indicators/stoch_rsi.py:6-18 | Empty buffers, %K and %D at 0, not ready, and a fresh inner RSI |
| StochRsiIndicator.StochRSI.Update | backend/indicators/stoch_rsi.py:20-53 | Feeds the inner RSI; records its value only when it is ready; keeps the three buffers as the last period/smoothK/smoothD of their series; readiness never reverts |
| StochRsiIndicator.StochRSI.Push | backend/indicators/stoch_rsi.py:26-53 | One RSI value extends the tracked series |
| StochRsiIndicator.Record | backend/indicators/stoch_rsi.py:26-37 | The history window slides; a full window yields the next raw reading |
| StochRsiIndicator.AddRaw | backend/indicators/stoch_rsi.py:39-45 | The raw window slides; a full window yields %K as 100 x its mean |
| StochRsiIndicator.AddK | backend/indicators/stoch_rsi.py:47-53 | The %K window slides; a full window sets %D to its mean and makes the indicator ready |
| StochRsiIndicator.Last | backend/indicators/stoch_rsi.py:26-28 | The last n elements |
| StochRsiIndicator.SlideWindow | backend/indicators/stoch_rsi.py:26-28 | Append-then-pop keeps the window at the last n elements |
| StochRsiIndicator.PositionInUnit | backend/indicators/stoch_rsi.py:34-37 | The value's position between min and max is in [0, 1] |
| StochRsiIndicator.PositionAtBounds | backend/indicators/stoch_rsi.py:37 | The minimum maps to 0 and the maximum to 1 |
| StochRsiIndicator.Raw | backend/indicators/stoch_rsi.py:30-37 | 0 for a flat window, else the newest value's position; always in [0, 1] |
| StochRsiIndicator.RawExtremes | backend/indicators/stoch_rsi.py:30-37 | The raw reading is 0 at the window's minimum and 1 at its maximum |
| StochRsiIndicator.RawSeriesInUnit | backend/indicators/stoch_rsi.py:30-39 | Every raw reading is in [0, 1] |
| StochRsiIndicator.KSeriesPercent | backend/indicators/stoch_rsi.py:43-44 | Every %K is in [0, 100] |
| StochRsiIndicator.RawSeriesSnoc | backend/indicators/stoch_rsi.py:26-39 | A new RSI value adds a raw reading exactly when the window is full |
| StochRsiIndicator.KSeriesSnoc | backend/indicators/stoch_rsi.py:39-47 | A new raw reading adds a %K exactly when the raw window is full |
| StochRsiIndicator.ReadingsArePercentages | backend/indicators/stoch_rsi.py:43-52 | Once ready, %K and %D are in [0, 100] |
| StochRsiIndicator.ReadyIndicatorInRange | backend/indicators/stoch_rsi.py:43-53 | A ready indicator reports %K and %D in [0, 100] |
| StochRsiIndicator.ReadyAfter | backend/indicators/stoch_rsi.py:51-53 | Ready exactly after period + smoothK + smoothD − 2 RSI values |
| CompositeStrategies.EvaluateCondition | backend/engine/strategies/composite_strategy.py:280-337 | A condition can only hold when its signal has a value, its operator is known and its threshold resolves |
| CompositeStrategies.ConditionCompares | backend/engine/strategies/composite_strategy.py:307-327 | A known signal compared with a resolved threshold gives that comparison |
| CompositeStrategies.CloseIsThePrice | backend/engine/strategies/composite_strategy.py:291-293 | The threshold "Close" is the bar's price |
| CompositeStrategies.TextThreshold | backend/engine/strategies/composite_strategy.py:291-305 | Other text naming a signal is that signal's value; otherwise the text's numeric reading, if any |
| CompositeStrategies.FailingConditions | backend/engine/strategies/composite_strategy.py:285-327 | An unknown signal, a missing or unknown operator, or an unresolvable threshold makes a condition false |
| CompositeStrategies.OperatorDuality | backend/engine/strategies/composite_strategy.py:307-327 | `<` negates `>=` and `>` negates `<=` where the comparison is defined |
| CompositeStrategies.ConditionsMet | backend/engine/strategies/composite_strategy.py:205-240 | A list fires exactly when it is non-empty and every condition holds |
| CompositeStrategies.AppendNarrows | backend/engine/strategies/composite_strategy.py:205-240 | Adding a condition to a list can only narrow when it fires |
| CompositeStrategies.LongStopIsStopPrice | backend/engine/strategies/composite_strategy.py:104-107 | For a positive entry, the percentage stop fires exactly at or below entry x (1 − stop) |
| CompositeStrategies.ShortMirrorsLong | backend/engine/strategies/composite_strategy.py:130-170 | A short's fixed exits are the long's mirrored through the entry price |
| CompositeStrategies.TrailingExitBelowPeak | backend/engine/strategies/composite_strategy.py:173-187 | A long's trailing exit only fires below the peak |
| CompositeStrategies.TrailingExitAboveTrough | backend/engine/strategies/composite_strategy.py:189-202 | A short's trailing exit only fires above the trough |
| CompositeStrategies.Closing | backend/engine/strategy.py:35-58 | The order that flattens a position: sell the long size, buy back the short size |
| CompositeStrategies.LongFixedCheck | backend/engine/strategies/composite_strategy.py:101-127 | The long's stop-loss, take-profit and ATR checks fire exactly on `LongFixedExit` |
| CompositeStrategies.ShortFixedCheck | backend/engine/strategies/composite_strategy.py:130-170 | The short's checks fire exactly on `ShortFixedExit` |
| CompositeStrategies.TrailCheck | backend/engine/strategies/composite_strategy.py:173-202 | Moves the long's peak up (short's trough down) to the price and fires exactly on the trailing exit |
| CompositeStrategies.ManageRisk | backend/engine/strategies/composite_strategy.py:98-202 | A zero entry price faults; otherwise a closing order exactly when a fixed or trailing exit fires, with the peak and trough updated |
| CompositeStrategies.RegistryShape | backend/engine/strategies/composite_strategy.py:61-71 | The registration order lists every registered id once, and every known-type entry is registered |
| CompositeStrategies.LastEntryWins | backend/engine/strategies/composite_strategy.py:61-71 | An id keeps the kind of the last entry registered under it |
| CompositeStrategies.Register | backend/engine/strategies/composite_strategy.py:61-71 | The loop's ids and kinds are the specified registration |
| CompositeStrategies.RefreshTechnical | backend/engine/strategies/composite_strategy.py:91-95 | Every technical signal takes its generated value; others keep theirs |
| CompositeStrategies.RefreshKeepsEvents | backend/engine/strategies/composite_strategy.py:91-93 | A bar leaves event signals unchanged and gives technical ones their new value |
| CompositeStrategies.ResetEvents | backend/engine/strategies/composite_strategy.py:275-278 | On entry every event signal resets to 0 |
| CompositeStrategies.CaptureAtr | backend/engine/strategies/composite_strategy.py:263-278 | The captured ATR is the named signal's value, or 0 when unnamed or absent; event signals are reset |
| CompositeStrategies.ApplyEvent | backend/engine/strategies/composite_strategy.py:339-346 | Each event signal with a nonzero reading of the event takes it; all others keep their values |
| CompositeStrategies.EventMovesOnlyEventSignals | backend/engine/strategies/composite_strategy.py:339-346 | A calendar event never changes a technical signal and moves event signals only to −1, 0 or 1 |
| CompositeStrategies.MergeAll | backend/engine/strategies/composite_strategy.py:91-95 | Visiting every id merges the whole update |
| CompositeStrategies.Decide | backend/engine/strategies/composite_strategy.py:98-261 | One bar's effect (`BarEffect`): with a position, risk exits and then exit or cover conditions close it; when flat, a buy takes precedence over a short; an entry records price, ATR and extremes and resets events; idle bars change nothing |
| CompositeStrategies.CompositeStrategy.constructor | backend/engine/strategies/composite_strategy.py:15-71 | Registers the configured signals, each with latest value 0, and starts flat |
| CompositeStrategies.CompositeStrategy.OnData | backend/engine/strategies/composite_strategy.py:73-261 | Syncs position and cash from the broker, refreshes technical signals, and applies `BarEffect`; without a broker a placed order is logged |
| CompositeStrategies.CompositeStrategy.OnEvent | backend/engine/strategies/composite_strategy.py:339-346 | Latest values are updated by the event's readings |
| EventSignals.FromParameters | backend/engine/signals/event_signal.py:5-9 | Target event and impact default to "Non-Farm Payrolls" and "High" |
| EventSignals.Generate | backend/engine/signals/event_signal.py:11-15 | A bar always gives 0 |
| EventSignals.OnEvent | backend/engine/signals/event_signal.py:17-56 | −1, 0 or 1; 0 for an event it does not listen to or without both figures; nonzero exactly for a USD or EUR surprise |
| EventSignals.Sign | backend/engine/signals/event_signal.py:40-56 | The sign of the deviation |
| EventSignals.SurpriseDirection | backend/engine/signals/event_signal.py:40-56 | A USD beat gives −1 and a miss +1; EUR the reverse |
| EventSignals.CurrenciesMirror | backend/engine/signals/event_signal.py:40-56 | The same figures read in USD and in EUR give opposite directions |
| EventSignals.SwappedFiguresReverse | backend/engine/signals/event_signal.py:40-56 | Swapping actual and forecast reverses the direction |
| EventSignals.AllListensToEverything | backend/engine/signals/event_signal.py:22-23 | The target 'All' hears every event |
| EventSignals.OwnNameIsHeard | backend/engine/signals/event_signal.py:22-23 | A signal hears an event carrying its target name |
| Sorting.SortSeq | frontend/src/app/page.tsx:50-55 | The result is sorted by the given total preorder and is a stable permutation of the input: elements that tie keep their order |
| Sorting.StableHead | backend/optimizer/sweep.py:174 | After a stable sort, the first element is the earliest of the elements that sort first |
| Sorting.InsertionSort | frontend/src/app/page.tsx:50-55 | Sorts the array in place into a sorted, stable rearrangement of its old contents |

## Left out

- I/O, printing, the wall clock, the database tracker, the broker network and data loading. The data rows, the tracker's recorded experiments, the broker's position and balance, and a strategy's orders per bar are parameters instead.
- Floating point: amounts are exact reals. NaN and infinity are not modelled. Python's `round()` on reported metrics is ignored.
- Backtesting.Backtester.Run: a strategy is represented by the orders it places on each bar. Strategy code other than the composite strategy is not part of this model.
- Backtesting.Backtester.Run: the debug history, the strategy's debug prints, and the results' derived metric fields not listed in `CalculateResults` are not modelled.
- PaperTrading.PaperTrader.PlaceOrder: entry metadata merged into trade records, order ids and datetime stamps are not modelled. `get_positions` and `get_balance` are not modelled, because they only read state.
- PaperTrading.ConvertCurrency: only the source's fixed rules are modelled (quote equals account, base equals account via the pair price, JPY at a fixed 150). No other rate table exists.
- DrawdownChart.MomentOf: the date-string parse, `toLocaleDateString` and the overview page's `getFullYear` are time-zone dependent and left out. A text time is carried as `Parsed(text)`.
- Dashboard.FilteredRuns: JavaScript's `localeCompare` is modelled as code-unit lexicographic order.
- Dashboard: JSX rendering, charts and the fetch wrappers are not modelled.
- Disqualify.RulesInForce: an empty rules dict is falsy in Python and falls back to the defaults. The model's rules are a complete record, so only "absent" falls back.
- EventSurprise.ClassifySurprises: the threshold (0.5 x the population standard deviation, or 0.001) is a parameter, because the square root is outside exact real arithmetic.
- EventSurprise.MeasureReaction: `pd.isna` on the close is not modelled (reals are never NaN).
- Sweep.SweepEngine.RunSweep: backtesting and scoring one combination is a supplied outcome per combination (a scored result or an exception). Sharpe and score computation are not part of this model. `run_multi_sweep` is not modelled.
- Sweep.SweepEngine.RunSweep: a numeric parameter value is one exact real, so the integer 1 and the float 1.0 are the same value. The tracker's JSON hash of the parameters tells them apart, so two such combinations count as the same experiment here but not in the source.
- Combinations.GenerateCombinations: blocks are identified by their names; the callables themselves are not modelled.
- BuildingBlocks: the other entries, exits and filters (MACD, Bollinger, Donchian, RSI extreme, SMA, ADX, CHOP) are single comparisons on indicator columns. Only their names take part in the generator's type system.
- RsiIndicator: the vectorised `rsi()` function over a pandas series is left out. It is a library wrapper.
- Backtesting.Backtester.Run: requires a positive initial capital. With zero capital the source divides by zero computing the return and raises; with negative capital its drawdown ratio is meaningless. Every caller passes a positive constant.
- Backtesting.Backtester.CalculateResults: requires a positive initial capital, for the same reason as `Run`.
- BuildingBlocks.FixedPct: requires a non-zero price. With a zero price the source divides by zero and raises; that raising case is excluded.
- BuildingBlocks.RiskAtr: requires a non-zero price once the stop distance is positive. The source divides by the price unguarded and raises on zero; that case is excluded.
- EventSurprise.MeasureReaction: requires at least one window. On an empty window table the source's `max()` raises; the script's window table is a non-empty constant.
- StochRsiIndicator.StochRSI.constructor: requires all three periods to be at least 1. With a zero period the source never fills its windows, or divides by zero.
- CompositeStrategies.CompositeStrategy.OnData: the symbol is a fixed parameter; multi-symbol handling is out of scope. The signal objects' `generate` results are a supplied map of values per technical signal, and `get_debug_data` is left out.
- CompositeStrategies.Resolve: Python's `float()` parse of a text threshold is supplied as the text's numeric reading (`asNumber`); number-syntax parsing is not modelled. A comparison that raises is modelled as false, as the source catches it.
- CompositeStrategies.ShortFixedCheck: the ATR take-profit block at backend/engine/strategies/composite_strategy.py:165-170 repeats the one before it. A repeated check cannot change the outcome, so it is modelled once.
- CompositeStrategies.ManageRisk: an open position with a zero entry price makes the source divide by zero and raise. The model returns the `ZeroEntryPrice` outcome and changes nothing.
- CompositeStrategies.CompositeStrategy.OnData: when a broker is present, the order is handed to it and only the outcome is returned. The broker's own fill is the paper trader's, modelled separately.
